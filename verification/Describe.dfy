/** Printing and parsing the long form of git-describe: TAG-DISTANCE-gHEX[-dirty],
    or HEX[-dirty] without a tag. */
module Describe {
  import opened Wrappers

  datatype Pieces = Pieces(closestTag: Option<string>, distance: nat, short: string, dirty: bool)

  // ---------------------------------------------------------------- numbers

  function Digit(d: nat): char
    requires d < 10
  {
    "0123456789"[d]
  }

  predicate IsDigit(c: char) { '0' <= c <= '9' }

  predicate IsHexDigit(c: char) { IsDigit(c) || 'a' <= c <= 'f' }

  predicate AllDigits(s: string) { s != "" && forall i :: 0 <= i < |s| ==> IsDigit(s[i]) }

  predicate AllHex(s: string) { s != "" && forall i :: 0 <= i < |s| ==> IsHexDigit(s[i]) }

  function Decimal(n: nat): (s: string)
    ensures AllDigits(s) && (s[0] == '0' <==> n == 0)
  {
    if n < 10 then [Digit(n)] else Decimal(n / 10) + [Digit(n % 10)]
  }

  function Number(s: string): nat
    requires forall i :: 0 <= i < |s| ==> IsDigit(s[i])
  {
    if s == "" then 0 else assert IsDigit(s[|s| - 1]); 10 * Number(s[..|s| - 1]) + (s[|s| - 1] as int - '0' as int)
  }

  lemma {:induction false} NumberOfDecimal(n: nat)
    ensures Number(Decimal(n)) == n
  {
    var s := Decimal(n);
    if n < 10 {
      assert s[..0] == "" && Number(s[..0]) == 0;
    } else {
      NumberOfDecimal(n / 10);
      assert s[..|s| - 1] == Decimal(n / 10);
    }
  }

  /** Printing a number gives back its digits exactly if they have no leading zero. */
  lemma {:induction false} DecimalOfNumber(s: string)
    requires AllDigits(s)
    ensures Decimal(Number(s)) == s <==> s == "0" || s[0] != '0'
    ensures |Decimal(Number(s))| <= |s|
  {
    if |s| == 1 {
      assert s[..0] == "" && Number(s[..0]) == 0;
      assert s == [s[0]];
    } else {
      var t := s[..|s| - 1];
      DecimalOfNumber(t);
      var n := Number(t);
      assert Number(s) / 10 == n && Number(s) % 10 == s[|s| - 1] as int - '0' as int;
      if s[0] != '0' {
        assert t[0] == s[0] && Decimal(n)[0] != '0';
        assert Decimal(Number(s)) == t + [s[|s| - 1]] == s;
      }
    }
  }

  // ---------------------------------------------------------------- printing

  function Suffix(dirty: bool): string { if dirty then "-dirty" else "" }

  /** Without a tag, or with an empty one, only the revision is printed. */
  function RenderLong(p: Pieces): string {
    (if Truthy(p.closestTag) then p.closestTag.value + "-" + Decimal(p.distance) + "-g" + p.short else p.short)
    + Suffix(p.dirty)
  }

  // ---------------------------------------------------------------- parsing

  datatype Cut = Cut(left: string, right: string)

  /** Cuts a string at its last dash. */
  function CutLast(s: string): (r: Option<Cut>)
    ensures r.None? <==> '-' !in s
    ensures r.Some? ==> s == r.value.left + "-" + r.value.right && '-' !in r.value.right
  {
    if s == "" then None
    else
      var t, c := s[..|s| - 1], s[|s| - 1];
      assert s == t + [c];
      if c == '-' then Some(Cut(t, ""))
      else match CutLast(t)
        case None => None
        case Some(Cut(left, right)) =>
          assert t + [c] == left + "-" + (right + [c]);
          Some(Cut(left, right + [c]))
  }

  lemma CutIs(left: string, right: string)
    requires '-' !in right
    ensures CutLast(left + "-" + right) == Some(Cut(left, right))
  {
    var s := left + "-" + right;
    assert s[|left|] == '-';
    var c := CutLast(s).value;
    assert c.left + "-" + c.right == s;
    SameCut(left, right, c.left, c.right);
  }

  lemma SameCut(left: string, right: string, left': string, right': string)
    requires left + "-" + right == left' + "-" + right' && '-' !in right && '-' !in right'
    ensures left == left' && right == right'
  {
    var s := left + "-" + right;
    forall i | |left| < i < |s| ensures s[i] != '-' { assert s[i] == right[i - |left| - 1]; }
    forall i | |left'| < i < |s| ensures s[i] != '-' { assert s[i] == right'[i - |left'| - 1]; }
    assert s[|left|] == '-' && s[|left'|] == '-';
    assert s[..|left|] == left && s[..|left|] == left' && s[|left| + 1..] == right && s[|left| + 1..] == right';
  }

  datatype Match = Match(tag: string, distance: string, hex: string)

  predicate IsMatch(m: Match) {
    m.tag != "" && '\n' !in m.tag && AllDigits(m.distance) && AllHex(m.hex)
  }

  function Joined(m: Match): string {
    m.tag + "-" + m.distance + "-g" + m.hex
  }

  /** The pattern ^(.+)-(\\d+)-g([0-9a-f]+)$, whose end may stand before a final
      newline. */
  ghost predicate Matches(s: string, m: Match) {
    IsMatch(m) && (s == Joined(m) || s == Joined(m) + "\n")
  }

  function Chomped(s: string): string {
    if s != "" && s[|s| - 1] == '\n' then s[..|s| - 1] else s
  }

  /** The only way to match goes from the end: the last two dashes decide. */
  function FindMatch(s: string): Option<Match> {
    FindIn(Chomped(s))
  }

  function FindIn(s: string): Option<Match> {
    var outer := CutLast(s);
    if outer.None? then None
    else
      var inner := CutLast(outer.value.left);
      if inner.None? || outer.value.right == "" || outer.value.right[0] != 'g' then None
      else
        var m := Match(inner.value.left, inner.value.right, outer.value.right[1..]);
        if IsMatch(m) then Some(m) else None
  }

  lemma FindsJoined(m: Match)
    requires IsMatch(m)
    ensures FindIn(Joined(m)) == Some(m)
  {
    var left, right := m.tag + "-" + m.distance, "g" + m.hex;
    assert Joined(m) == left + "-" + right;
    CutIs(left, right);
    CutIs(m.tag, m.distance);
    assert right[1..] == m.hex;
  }

  lemma FoundIsJoined(s: string, m: Match)
    requires FindIn(s) == Some(m)
    ensures IsMatch(m) && s == Joined(m)
  {
    var outer := CutLast(s).value;
    assert outer.right == "g" + m.hex;
    assert s == (m.tag + "-" + m.distance) + "-" + ("g" + m.hex);
  }

  /** There is at most one match, however the pattern is searched. */
  lemma MatchIsUnique(s: string, m: Match)
    ensures Matches(s, m) <==> FindMatch(s) == Some(m)
  {
    if Matches(s, m) {
      ChompsJoined(m);
      FindsJoined(m);
    }
    if FindMatch(s) == Some(m) {
      FoundIsJoined(Chomped(s), m);
      Unchomped(s);
    }
  }

  /** What matches is a tag, digits, and hexadecimal digits, and nothing around them but
      a final newline. */
  lemma MatchesMeans(s: string, m: Match)
    ensures Matches(s, m) <==>
      && m.tag != "" && '\n' !in m.tag
      && m.distance != "" && (forall i :: 0 <= i < |m.distance| ==> '0' <= m.distance[i] <= '9')
      && m.hex != "" && (forall i :: 0 <= i < |m.hex| ==> '0' <= m.hex[i] <= '9' || 'a' <= m.hex[i] <= 'f')
      && Chomped(s) == m.tag + "-" + m.distance + "-g" + m.hex
  {
    assert AllDigits(m.distance) <==>
      m.distance != "" && forall i :: 0 <= i < |m.distance| ==> '0' <= m.distance[i] <= '9';
    assert AllHex(m.hex) <==>
      m.hex != "" && forall i :: 0 <= i < |m.hex| ==> '0' <= m.hex[i] <= '9' || 'a' <= m.hex[i] <= 'f';
    if IsMatch(m) { ChompsJoined(m); }
    Unchomped(s);
  }

  lemma ChompsJoined(m: Match)
    requires IsMatch(m)
    ensures Chomped(Joined(m)) == Joined(m) && Chomped(Joined(m) + "\n") == Joined(m)
  {
    JoinedEnds(m);
    var s := Joined(m) + "\n";
    assert s[..|s| - 1] == Joined(m);
  }

  lemma Unchomped(s: string)
    ensures s == Chomped(s) || s == Chomped(s) + "\n"
  { }

  lemma JoinedEnds(m: Match)
    requires IsMatch(m)
    ensures Joined(m) != "" && IsHexDigit(Joined(m)[|Joined(m)| - 1]) && '-' in Joined(m)
  {
    assert Joined(m)[|Joined(m)| - 1] == m.hex[|m.hex| - 1];
    assert Joined(m)[|m.tag|] == '-';
  }

  datatype Parsed = Parsed(pieces: Pieces) | Unparsable(dirty: bool)

  function Undirtied(s: string): (string, bool) {
    if |s| >= 6 && s[|s| - 6..] == "-dirty" then (s[..|s| - 6], true) else (s, false)
  }

  /** What is made of a line of git-describe.  Without a tag, the distance is the
      number of all commits and the revision that of HEAD. */
  function Parse(prefix: string, describe: string, head: string, commits: nat): Parsed {
    var (s, dirty) := Undirtied(describe);
    if '-' !in s then Parsed(Pieces(None, commits, head, dirty))
    else match FindMatch(s)
      case None => Unparsable(dirty)
      case Some(Match(tag, distance, hex)) =>
        if prefix <= tag then Parsed(Pieces(Some(tag[|prefix|..]), Number(distance), hex, dirty)) else Unparsable(dirty)
  }

  /** The same, piece by piece. */
  method GitPieces(prefix: string, describe: string, head: string, commits: nat) returns (r: Parsed)
    ensures r == Parse(prefix, describe, head, commits)
  {
    var pieces := Pieces(None, 0, head, false);
    var s := describe;
    pieces := pieces.(dirty := |s| >= 6 && s[|s| - 6..] == "-dirty");
    if pieces.dirty { s := s[..|s| - 6]; }
    if '-' in s {
      var m := FindMatch(s);
      if m.None? { return Unparsable(pieces.dirty); }
      if !(prefix <= m.value.tag) { return Unparsable(pieces.dirty); }
      pieces := pieces.(closestTag := Some(m.value.tag[|prefix|..]));
      pieces := pieces.(distance := Number(m.value.distance));
      pieces := pieces.(short := m.value.hex);
    } else {
      pieces := pieces.(closestTag := None);
      pieces := pieces.(distance := commits);
    }
    return Parsed(pieces);
  }

  // ---------------------------------------------------------------- round trips

  lemma UndirtiedSuffix(s: string, dirty: bool)
    requires s != "" && s[|s| - 1] != 'y'
    ensures Undirtied(s + Suffix(dirty)) == (s, dirty)
  {
    var t := s + Suffix(dirty);
    if dirty {
      assert t[|t| - 6..] == "-dirty" && t[..|t| - 6] == s;
    } else {
      assert t == s;
      if |s| >= 6 { assert s[|s| - 6..][5] == s[|s| - 1]; }
    }
  }

  function Line(m: Match, newline: bool): string { Joined(m) + if newline then "\n" else "" }

  lemma ParseLine(prefix: string, m: Match, newline: bool, dirty: bool, head: string, commits: nat)
    requires IsMatch(m)
    ensures Parse(prefix, Line(m, newline) + Suffix(dirty), head, commits) ==
      if prefix <= m.tag then Parsed(Pieces(Some(m.tag[|prefix|..]), Number(m.distance), m.hex, dirty))
      else Unparsable(dirty)
  {
    JoinedEnds(m);
    UndirtiedSuffix(Line(m, newline), dirty);
    MatchIsUnique(Line(m, newline), m);
  }

  /** Parsing undoes printing, exactly if the tag is not empty. */
  lemma ParseUndoesRender(prefix: string, tag: string, distance: nat, hex: string, dirty: bool, head: string,
                          commits: nat)
    requires '\n' !in prefix && '\n' !in tag && AllHex(hex)
    ensures var p := Pieces(Some(tag), distance, hex, dirty);
            Parse(prefix, prefix + RenderLong(p), head, commits) == Parsed(p) <==> tag != ""
  {
    var p := Pieces(Some(tag), distance, hex, dirty);
    if tag != "" {
      var m := Match(prefix + tag, Decimal(distance), hex);
      assert prefix + RenderLong(p) == Line(m, false) + Suffix(dirty);
      ParseLine(prefix, m, false, dirty, head, commits);
      NumberOfDecimal(distance);
      assert m.tag[|prefix|..] == tag;
    } else {
      assert prefix + RenderLong(p) == prefix + hex + Suffix(dirty);
      RevisionHasNoTag(prefix, hex, dirty, head, commits);
    }
  }

  /** Without a tag, the revision and the number of commits are not read from the line:
      parsing undoes printing exactly if they are those of HEAD. */
  lemma RevisionIsThatOfHead(prefix: string, distance: nat, hex: string, dirty: bool, head: string, commits: nat)
    requires AllHex(hex)
    ensures var p := Pieces(None, distance, hex, dirty);
      && RenderLong(p) == hex + (if dirty then "-dirty" else "")
      && Parse(prefix, RenderLong(p), head, commits) == Parsed(Pieces(None, commits, head, dirty))
      && (Parse(prefix, RenderLong(p), head, commits) == Parsed(p) <==> distance == commits && hex == head)
  {
    assert IsHexDigit(hex[|hex| - 1]);
    UndirtiedSuffix(hex, dirty);
    assert '-' !in hex;
  }

  /** A revision printed behind the prefix alone is not read as an empty tag. */
  lemma RevisionHasNoTag(prefix: string, hex: string, dirty: bool, head: string, commits: nat)
    requires AllHex(hex)
    ensures var r := Parse(prefix, prefix + hex + Suffix(dirty), head, commits);
            r.Parsed? ==> r.pieces.closestTag == None
  {
    var s := prefix + hex;
    assert s[|s| - 1] == hex[|hex| - 1];
    UndirtiedSuffix(s, dirty);
    var r := FindMatch(s);
    if r.Some? {
      MatchIsUnique(s, r.value);
      TagEndsBeforePrefix(prefix, hex, r.value);
    }
  }

  lemma TagEndsBeforePrefix(prefix: string, hex: string, m: Match)
    requires AllHex(hex) && Matches(prefix + hex, m)
    ensures |m.tag| < |prefix|
  {
    var s := prefix + hex;
    forall i | |prefix| <= i < |s| ensures s[i] != '-' { assert s[i] == hex[i - |prefix|]; }
    assert s[|m.tag|] == Joined(m)[|m.tag|] == '-';
  }

  /** Printing undoes parsing of a long form, exactly if the tag has more than the
      prefix, the distance has no leading zero and no newline follows. */
  lemma RenderUndoesParse(prefix: string, m: Match, newline: bool, dirty: bool, head: string, commits: nat)
    requires IsMatch(m) && prefix <= m.tag
    ensures var r := Parse(prefix, Line(m, newline) + Suffix(dirty), head, commits);
            && r.Parsed?
            && (prefix + RenderLong(r.pieces) == Line(m, newline) + Suffix(dirty) <==>
                  m.tag != prefix && !newline && (m.distance == "0" || m.distance[0] != '0'))
  {
    ParseLine(prefix, m, newline, dirty, head, commits);
    DecimalOfNumber(m.distance);
    var tag := m.tag[|prefix|..];
    assert prefix + tag == m.tag;
    var d := Decimal(Number(m.distance));
    PrintedLine(prefix, tag, m.distance, m.hex, dirty);
    if tag != "" { SameLine(m, d, newline, dirty); } else { ShorterLine(m, newline, dirty); }
  }

  lemma PrintedLine(prefix: string, tag: string, distance: string, hex: string, dirty: bool)
    requires AllDigits(distance)
    ensures var p := Pieces(Some(tag), Number(distance), hex, dirty);
            prefix + RenderLong(p) ==
              if tag == "" then prefix + hex + Suffix(dirty)
              else Line(Match(prefix + tag, Decimal(Number(distance)), hex), false) + Suffix(dirty)
  { }

  lemma ShorterLine(m: Match, newline: bool, dirty: bool)
    ensures |m.tag + m.hex + Suffix(dirty)| < |Line(m, newline) + Suffix(dirty)|
  { }

  lemma SameLine(m: Match, d: string, newline: bool, dirty: bool)
    requires IsMatch(m) && AllDigits(d) && |d| <= |m.distance|
    ensures Line(m.(distance := d), false) + Suffix(dirty) == Line(m, newline) + Suffix(dirty) <==>
      d == m.distance && !newline
  {
    var a, b := Line(m.(distance := d), false) + Suffix(dirty), Line(m, newline) + Suffix(dirty);
    if a == b {
      assert |d| == |m.distance|;
      forall i | 0 <= i < |d| ensures d[i] == m.distance[i] {
        assert a[|m.tag| + 1 + i] == d[i] && b[|m.tag| + 1 + i] == m.distance[i];
      }
    }
  }
}
