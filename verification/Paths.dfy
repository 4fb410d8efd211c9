/** Paths as lists of names, their order, and the marker names that buildsys derives from them. */
module Paths {

  type Path = seq<string>

  /** Strictly below `top`. */
  predicate Under(p: Path, top: Path) {
    |top| < |p| && top <= p
  }

  predicate Nested(a: Path, b: Path) {
    a <= b || b <= a
  }

  function Parent(p: Path): Path
    requires p != []
  {
    p[..|p| - 1]
  }

  function Leaf(p: Path): string
    requires p != []
  {
    p[|p| - 1]
  }

  /** The same relative path below another directory. */
  function Rebase(p: Path, from: Path, to: Path): (r: Path)
    requires from <= p
    ensures to <= r && |r| - |to| == |p| - |from|
  {
    to + p[|from|..]
  }

  lemma {:induction false} RebaseBack(p: Path, from: Path, to: Path)
    requires from <= p
    ensures Rebase(Rebase(p, from, to), to, from) == p
  {
    assert (to + p[|from|..])[|to|..] == p[|from|..];
  }

  /** Two different separate tops never contain the same path. */
  lemma {:induction false} SeparateTops(p: Path, a: Path, b: Path)
    requires a <= p && b <= p
    ensures Nested(a, b)
  {
    if |a| <= |b| {
      assert a == p[..|a|] == p[..|b|][..|a|] == b[..|a|];
    } else {
      assert b == p[..|b|] == p[..|a|][..|b|] == a[..|b|];
    }
  }

  /** Nothing below one of two separate tops is on the way to something below the other. */
  lemma {:induction false} NotOnWay(x: Path, p: Path, a: Path, b: Path)
    requires a <= x && b <= p && !Nested(a, b)
    ensures !(x <= p)
  {
    if x <= p { SeparateTops(p, a, b); }
  }

  // Markers.

  const MARKER := ".buildsys_marker"

  predicate EndsWith(s: string, suffix: string) {
    |suffix| <= |s| && s[|s| - |suffix|..] == suffix
  }

  /** Appending the marker extension, as `OsString::push` does. */
  function AddMarker(p: Path): (r: Path)
    requires p != []
    ensures |r| == |p|
  {
    Parent(p) + [Leaf(p) + MARKER]
  }

  /** The path whose marker `p` is. */
  function Unmark(p: Path): (r: Path)
    requires p != [] && EndsWith(Leaf(p), MARKER)
    ensures |r| == |p| && AddMarker(r) == p
  {
    var r := Parent(p) + [Leaf(p)[..|Leaf(p)| - |MARKER|]];
    assert Leaf(r) + MARKER == Leaf(p);
    assert Parent(r) == Parent(p);
    r
  }

  lemma {:induction false} UnmarkAdd(p: Path)
    requires p != []
    ensures EndsWith(Leaf(AddMarker(p)), MARKER) && Unmark(AddMarker(p)) == p
  {
    assert Leaf(AddMarker(p)) == Leaf(p) + MARKER;
    assert (Leaf(p) + MARKER)[|Leaf(p)|..] == MARKER;
    assert (Leaf(p) + MARKER)[..|Leaf(p)|] == Leaf(p);
    assert Parent(AddMarker(p)) == Parent(p);
  }

  /** Position of the last dot, or -1. */
  function LastDot(name: string): (i: int)
    ensures -1 <= i < |name|
    ensures i >= 0 ==> name[i] == '.'
    ensures forall j :: i < j < |name| ==> name[j] != '.'
  {
    if name == "" then -1
    else if name[|name| - 1] == '.' then |name| - 1
    else LastDot(name[..|name| - 1])
  }

  /** `Path::file_stem`: up to the last dot, unless that dot is in front or the name is `..`. */
  function Stem(name: string): string {
    var dot := LastDot(name);
    if name == ".." || dot <= 0 then name else name[..dot]
  }

  /** `Path::set_extension("")`. */
  function DropExtension(p: Path): (r: Path)
    requires p != []
    ensures |r| == |p| && Parent(r) == Parent(p)
  {
    Parent(p) + [Stem(Leaf(p))]
  }

  lemma {:induction false} LastDotMarked(name: string)
    ensures LastDot(name + MARKER) == |name|
  {
    var full := name + MARKER;
    assert full[|name|] == '.';
    forall j | |name| < j < |full| ensures full[j] != '.' {
      assert full[j] == MARKER[j - |name|];
    }
  }

  /** The stem of a marker name: what was marked, or the whole name if that was nothing. */
  lemma {:induction false} StemMarked(name: string)
    ensures Stem(name + MARKER) == if name == "" then MARKER else name
  {
    LastDotMarked(name);
    assert (name + MARKER)[..|name|] == name;
    assert "" + MARKER == MARKER;
  }

  /** Dropping the extension undoes appending the marker exactly for the names that are not empty. */
  lemma {:induction false} DropUndoesAdd(name: string)
    ensures Stem(name + MARKER) == name <==> name != ""
  {
    StemMarked(name);
  }

  lemma {:induction false} DropMarker(p: Path)
    requires p != [] && Leaf(p) != ""
    ensures DropExtension(AddMarker(p)) == p
  {
    DropUndoesAdd(Leaf(p));
    assert Leaf(AddMarker(p)) == Leaf(p) + MARKER;
    assert Parent(AddMarker(p)) == Parent(p);
    assert p == Parent(p) + [Leaf(p)];
  }

  // The order that `Path` comparison uses.

  predicate NameLess(a: string, b: string) {
    b != "" && (a == "" || a[0] < b[0] || (a[0] == b[0] && NameLess(a[1..], b[1..])))
  }

  predicate PathLess(a: Path, b: Path) {
    b != [] && (a == [] || NameLess(a[0], b[0]) || (a[0] == b[0] && PathLess(a[1..], b[1..])))
  }

  lemma {:induction false} NameTotal(a: string, b: string)
    ensures a == b || NameLess(a, b) || NameLess(b, a)
    ensures !(NameLess(a, b) && NameLess(b, a)) && !NameLess(a, a)
  {
    if a != "" {
      NameTotal(a[1..], a[1..]);
      if b != "" {
        NameTotal(a[1..], b[1..]);
        assert a == [a[0]] + a[1..] && b == [b[0]] + b[1..];
      }
    }
  }

  lemma {:induction false} NameTransitive(a: string, b: string, c: string)
    requires NameLess(a, b) && NameLess(b, c)
    ensures NameLess(a, c)
  {
    if a != "" && a[0] == b[0] == c[0] { NameTransitive(a[1..], b[1..], c[1..]); }
  }

  lemma {:induction false} PathTotal(a: Path, b: Path)
    ensures a == b || PathLess(a, b) || PathLess(b, a)
    ensures !(PathLess(a, b) && PathLess(b, a)) && !PathLess(a, a)
  {
    if a != [] {
      PathTotal(a[1..], a[1..]);
      NameTotal(a[0], a[0]);
      if b != [] {
        NameTotal(a[0], b[0]);
        PathTotal(a[1..], b[1..]);
        assert a == [a[0]] + a[1..] && b == [b[0]] + b[1..];
      }
    }
  }

  lemma {:induction false} PathTransitive(a: Path, b: Path, c: Path)
    requires PathLess(a, b) && PathLess(b, c)
    ensures PathLess(a, c)
  {
    if a != [] {
      NameTotal(a[0], a[0]);
      if a[0] == b[0] == c[0] {
        PathTransitive(a[1..], b[1..], c[1..]);
      } else if NameLess(a[0], b[0]) && NameLess(b[0], c[0]) {
        NameTransitive(a[0], b[0], c[0]);
      }
    }
  }

  /** A directory sorts before everything below it. */
  lemma {:induction false} AboveIsLess(top: Path, p: Path)
    requires Under(p, top)
    ensures PathLess(top, p)
  {
    if top != [] {
      assert top[1..] <= p[1..];
      AboveIsLess(top[1..], p[1..]);
    }
  }

  ghost predicate Descending(s: seq<Path>) {
    forall i, j :: 0 <= i < j < |s| ==> PathLess(s[j], s[i])
  }

  /** `sort_by(|a, b| b.cmp(a))` on the collected set. */
  method SortDescending(dirs: set<Path>) returns (r: seq<Path>)
    ensures Descending(r)
    ensures forall p :: p in r <==> p in dirs
  {
    r := [];
    var left := dirs;
    while left != {}
      invariant Descending(r)
      invariant left <= dirs
      invariant forall p :: p in r <==> p in dirs - left
      decreases left
    {
      var p :| p in left;
      left := left - {p};
      r := Insert(r, p);
    }
  }

  method Insert(s: seq<Path>, p: Path) returns (r: seq<Path>)
    requires Descending(s) && p !in s
    ensures Descending(r)
    ensures forall q :: q in r <==> q in s || q == p
  {
    var i := 0;
    while i < |s| && PathLess(p, s[i])
      invariant 0 <= i <= |s|
      invariant forall j :: 0 <= j < i ==> PathLess(p, s[j])
    {
      i := i + 1;
    }
    r := s[..i] + [p] + s[i..];
    forall j | i <= j < |s| ensures PathLess(s[j], p) {
      PathTotal(p, s[i]);
      assert s[i] in s;
      if i < j { PathTransitive(s[j], s[i], p); }
    }
    forall a, b | 0 <= a < b < |r| ensures PathLess(r[b], r[a]) {
      if a < i {
        assert r[a] == s[a];
        if b > i { assert r[b] == s[b - 1]; } else if b < i { assert r[b] == s[b]; }
      } else if a == i {
        assert r[b] == s[b - 1];
      } else {
        assert r[a] == s[a - 1] && r[b] == s[b - 1];
      }
    }
    forall q ensures q in r <==> q in s || q == p {
      assert s == s[..i] + s[i..];
    }
  }
}
