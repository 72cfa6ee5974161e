/** How artifacts are named, and how names are taken apart again. */
module ArtifactNames {
  import opened Wrappers

  import opened CacheKeys

  // ---------------------------------------------------------------- pieces

  /** Where the extension of a file name starts: at its last dot, unless only dots
      come before it. */
  function ExtensionStart(s: string): (i: nat)
    ensures i <= |s| && (i < |s| ==> s[i] == '.' && (exists k :: 0 <= k < i && s[k] != '.') && '.' !in s[i + 1..])
    ensures i == |s| <==> !HasExtension(s)
  {
    if s == [] then 0
    else if s[|s| - 1] == '.' then
      if exists k :: 0 <= k < |s| - 1 && s[k] != '.' then |s| - 1 else |s|
    else
      var i := ExtensionStart(s[..|s| - 1]);
      assert HasExtension(s) <==> HasExtension(s[..|s| - 1]) by { DotsIn(s); }
      if i < |s| - 1 then
        assert s[..|s| - 1][i + 1..] + [s[|s| - 1]] == s[i + 1..];
        i
      else |s|
  }

  /** A dot somewhere behind another character. */
  predicate HasExtension(s: string) {
    exists k, j :: 0 <= k < j < |s| && s[k] != '.' && s[j] == '.'
  }

  lemma DotsIn(s: string)
    requires |s| > 0 && s[|s| - 1] != '.'
    ensures HasExtension(s) <==> HasExtension(s[..|s| - 1])
  {
    var t := s[..|s| - 1];
    if HasExtension(s) {
      var k, j :| 0 <= k < j < |s| && s[k] != '.' && s[j] == '.';
      assert t[k] != '.' && t[j] == '.';
    }
    if HasExtension(t) {
      var k, j :| 0 <= k < j < |t| && t[k] != '.' && t[j] == '.';
      assert s[k] != '.' && s[j] == '.';
    }
  }

  /** Slashes become dashes, and the last extension goes. */
  function NormalName(name: string): string {
    var flat := Replaced(name);
    flat[..ExtensionStart(flat)]
  }

  function Replaced(s: string): (r: string)
    ensures |r| == |s| && forall i :: 0 <= i < |s| ==> r[i] == if s[i] == '/' then '-' else s[i]
  {
    seq(|s|, i requires 0 <= i < |s| => if s[i] == '/' then '-' else s[i])
  }

  predicate ValidChar(c: char) {
    '0' <= c <= '9' || 'a' <= c <= 'z' || 'A' <= c <= 'Z' || c == '-' || c == '.' || c == '_'
  }

  function Rewritten(s: string): (r: string)
    ensures |r| == |s| && forall i :: 0 <= i < |s| ==> r[i] == if ValidChar(s[i]) then s[i] else '_'
  {
    seq(|s|, i requires 0 <= i < |s| => if ValidChar(s[i]) then s[i] else '_')
  }

  /** Letters, digits, dashes, dots and underscores stay, and everything else becomes an
      underscore. */
  lemma RewrittenMeans(s: string, i: nat)
    requires i < |s|
    ensures Rewritten(s)[i] ==
      if '0' <= s[i] <= '9' || 'a' <= s[i] <= 'z' || 'A' <= s[i] <= 'Z' || s[i] in "-._" then s[i] else '_'
  { }

  /** The name an artifact is stored under. */
  function ComposeName(project: string, normalName: string, key: Key): string {
    project + "/" + Rewritten(normalName) + "/" + key
  }

  function PathJoin(a: string, b: string): string {
    if b != "" && b[0] == '/' then b
    else if a == "" || a[|a| - 1] == '/' then a + b
    else a + "/" + b
  }

  /** The second path counts alone if it is absolute; otherwise exactly one slash comes
      between them, unless the first is empty. */
  lemma PathJoinMeans(a: string, b: string)
    ensures b != "" && b[0] == '/' ==> PathJoin(a, b) == b
    ensures (b == "" || b[0] != '/') && a != "" && a[|a| - 1] == '/' ==> PathJoin(a, b) == a + b
    ensures (b == "" || b[0] != '/') && a != "" && a[|a| - 1] != '/' ==> PathJoin(a, b) == a + "/" + b
    ensures PathJoin("", b) == b
  { }

  /** How an artifact refers to another that it was built with. */
  function DependencyRef(project: string, name: string, key: Key): string {
    PathJoin(PathJoin(project, NormalName(name)), key)
  }

  predicate IsKey(key: string) {
    |key| == 64 && forall i :: 0 <= i < |key| ==> '0' <= key[i] <= '9' || 'a' <= key[i] <= 'f'
  }

  /** Position of the first slash. */
  function FirstSlash(s: string): (i: nat)
    ensures i <= |s| && '/' !in s[..i] && (i < |s| ==> s[i] == '/')
  {
    if s == [] || s[0] == '/' then 0
    else
      var i := FirstSlash(s[1..]);
      assert s[..1 + i] == [s[0]] + s[1..][..i];
      1 + i
  }

  datatype Ref = Ref(project: string, element: string, key: Key)

  /** Takes a reference apart, if it has the expected format. */
  function VerifyRef(ref: string): Option<Ref> {
    var i := FirstSlash(ref);
    if i == |ref| then None
    else
      var rest := ref[i + 1..];
      var j := FirstSlash(rest);
      if j == |rest| || !IsKey(rest[j + 1..]) then None
      else Some(Ref(ref[..i], rest[..j], rest[j + 1..]))
  }

  // ---------------------------------------------------------------- properties

  lemma {:induction false} FirstSlashAfter(a: string, b: string)
    requires '/' !in a
    ensures FirstSlash(a + "/" + b) == |a|
  {
    if a != "" {
      assert a[0] in a && (a + "/" + b)[1..] == a[1..] + "/" + b;
      FirstSlashAfter(a[1..], b);
    }
  }

  /** Taking apart what was put together. */
  lemma VerifyComposed(project: string, element: string, key: Key)
    requires '/' !in project && '/' !in element && IsKey(key)
    ensures VerifyRef(project + "/" + element + "/" + key) == Some(Ref(project, element, key))
  {
    var rest := element + "/" + key;
    var ref := project + "/" + rest;
    assert project + "/" + element + "/" + key == ref;
    FirstSlashAfter(project, rest);
    FirstSlashAfter(element, key);
    assert ref[|project| + 1..] == rest && rest[|element| + 1..] == key;
    assert ref[..|project|] == project && rest[..|element|] == element;
  }

  /** A reference has the expected format exactly if it is put together from a project
      and an element without slashes, and a key of 64 lower-case hexadecimal digits. */
  lemma VerifyRefMeans(ref: string, r: Ref)
    ensures VerifyRef(ref) == Some(r) <==>
      && ref == r.project + "/" + r.element + "/" + r.key
      && '/' !in r.project && '/' !in r.element
      && |r.key| == 64 && forall i :: 0 <= i < 64 ==> '0' <= r.key[i] <= '9' || 'a' <= r.key[i] <= 'f'
  {
    if VerifyRef(ref) == Some(r) {
      var i := FirstSlash(ref);
      var rest := ref[i + 1..];
      var j := FirstSlash(rest);
      assert rest == r.element + "/" + r.key;
      assert ref == r.project + "/" + rest;
    }
    if '/' !in r.project && '/' !in r.element && IsKey(r.key) { VerifyComposed(r.project, r.element, r.key); }
  }

  lemma NormalNameHasNoSlash(name: string)
    ensures '/' !in NormalName(name)
  {
    var flat := Replaced(name);
    forall i | 0 <= i < |NormalName(name)| ensures NormalName(name)[i] != '/' { assert NormalName(name)[i] == flat[i]; }
  }

  lemma DependencyRefIs(project: string, name: string, key: Key)
    requires '/' !in project && project != "" && NormalName(name) != "" && IsKey(key)
    ensures DependencyRef(project, name, key) == project + "/" + NormalName(name) + "/" + key
    ensures VerifyRef(DependencyRef(project, name, key)) == Some(Ref(project, NormalName(name), key))
  {
    var n := NormalName(name);
    NormalNameHasNoSlash(name);
    assert n[0] in n && project[|project| - 1] in project;
    var p := PathJoin(project, n);
    assert p[|p| - 1] == n[|n| - 1] && n[|n| - 1] in n;
    assert key[0] != '/';
    VerifyComposed(project, n, key);
  }

  lemma NormalNameIsNotEmpty(name: string)
    requires name != ""
    ensures NormalName(name) != ""
  {
    var flat := Replaced(name);
    var i := ExtensionStart(flat);
    assert i != 0;
  }

  lemma UnslashedStaysPut(s: string)
    requires '/' !in s
    ensures Replaced(s) == s && (NormalName(s) == s <==> !HasExtension(s))
    ensures |NormalName(s)| <= |s|
  {
    forall i | 0 <= i < |s| ensures Replaced(s)[i] == s[i] { assert s[i] in s; }
    assert Replaced(s) == s;
    if NormalName(s) == s { assert |NormalName(s)| == |s|; }
  }

  /** Normalising a normal name again changes it exactly if it has another dot. */
  lemma NormalNameAgain(name: string)
    ensures NormalName(NormalName(name)) == NormalName(name) <==> !HasExtension(NormalName(name))
  {
    NormalNameHasNoSlash(name);
    UnslashedStaysPut(NormalName(name));
  }

  lemma RewrittenAgain(s: string)
    ensures Rewritten(Rewritten(s)) == Rewritten(s)
    ensures HasExtension(Rewritten(s)) <==> HasExtension(s)
    ensures '/' !in Rewritten(s)
  {
    if HasExtension(s) {
      var k, j :| 0 <= k < j < |s| && s[k] != '.' && s[j] == '.';
      assert Rewritten(s)[k] != '.' && Rewritten(s)[j] == '.';
    }
    if HasExtension(Rewritten(s)) {
      var k, j :| 0 <= k < j < |s| && Rewritten(s)[k] != '.' && Rewritten(s)[j] == '.';
      assert s[k] != '.' && s[j] == '.';
    }
    forall i | 0 <= i < |s| ensures Rewritten(s)[i] != '/' { }
  }

  /** The name under which an element's artifact is looked up through a reference
      of another artifact is the name it is stored under exactly if its normal
      name has no further dot. */
  lemma ReferenceNamesArtifact(project: string, name: string, key: Key)
    requires '/' !in project && project != "" && name != "" && IsKey(key)
    ensures VerifyRef(DependencyRef(project, name, key)) == Some(Ref(project, NormalName(name), key))
    ensures ComposeName(project, NormalName(NormalName(name)), key) == ComposeName(project, NormalName(name), key)
      <==> !HasExtension(NormalName(name))
  {
    NormalNameIsNotEmpty(name);
    NormalNameHasNoSlash(name);
    DependencyRefIs(project, name, key);
    NormalNameAgain(name);
    UnslashedStaysPut(NormalName(name));
    if ComposeName(project, NormalName(NormalName(name)), key) == ComposeName(project, NormalName(name), key) {
      assert |NormalName(NormalName(name))| == |NormalName(name)|;
    }
  }

  /** The name an artifact is stored under leads back to it under the same
      condition. */
  lemma StoredNameNamesArtifact(project: string, name: string, key: Key)
    requires '/' !in project && IsKey(key)
    ensures VerifyRef(ComposeName(project, NormalName(name), key)) ==
      Some(Ref(project, Rewritten(NormalName(name)), key))
    ensures
      ComposeName(project, NormalName(Rewritten(NormalName(name))), key) == ComposeName(project, NormalName(name), key)
      <==> !HasExtension(NormalName(name))
  {
    var stored := Rewritten(NormalName(name));
    RewrittenAgain(NormalName(name));
    UnslashedStaysPut(stored);
    VerifyComposed(project, stored, key);
    if ComposeName(project, NormalName(stored), key) == ComposeName(project, NormalName(name), key) {
      assert |NormalName(stored)| == |stored|;
    }
  }

  lemma DottedNames()
    ensures NormalName("a.b.bst") == "a.b" && NormalName("a.b") == "a"
  {
    NormalNameIsStem("a.b", "bst");
    NormalNameIsStem("a", "b");
    assert "a.b" + "." + "bst" == "a.b.bst" && "a" + "." + "b" == "a.b";
  }

  /** An element a.b.bst whose artifact is stored under one name, and looked up under
      another when it is a dependency. */
  lemma DottedNameIsLost(key: Key)
    requires IsKey(key)
    ensures VerifyRef(DependencyRef("p", "a.b.bst", key)) == Some(Ref("p", "a.b", key))
    ensures ComposeName("p", NormalName("a.b"), key) != ComposeName("p", NormalName("a.b.bst"), key)
  {
    DottedNames();
    var name, stem := "a.b.bst", "a.b";
    assert stem[0] != '.' && stem[1] == '.';
    LostName("p", name, stem, key);
  }

  lemma LostName(project: string, name: string, stem: string, key: Key)
    requires '/' !in project && project != "" && name != "" && IsKey(key)
    requires NormalName(name) == stem && |stem| >= 2 && stem[0] != '.' && stem[1] == '.'
    ensures VerifyRef(DependencyRef(project, name, key)) == Some(Ref(project, stem, key))
    ensures ComposeName(project, NormalName(stem), key) != ComposeName(project, NormalName(name), key)
  {
    assert HasExtension(stem);
    ReferenceNamesArtifact(project, name, key);
  }

  lemma NormalNameIsStem(stem: string, extension: string)
    requires '/' !in stem && '/' !in extension && '.' !in extension && stem != "" && stem[0] != '.'
    ensures NormalName(stem + "." + extension) == stem
  {
    var s := stem + "." + extension;
    UnslashedStaysPut(s);
    assert s[|stem| + 1..] == extension;
    ExtensionStartIs(s, |stem|);
    assert s[..|stem|] == stem;
  }

  lemma ExtensionStartIs(s: string, k: nat)
    requires 0 < k < |s| && s[0] != '.' && s[k] == '.' && '.' !in s[k + 1..]
    ensures ExtensionStart(s) == k
  {
    assert HasExtension(s);
    assert s[k] in s[k..];
  }
}
