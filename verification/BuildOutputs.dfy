/** `copy_build_files` and `clean_build_files`: moving artifacts into the output directory with a
    marker for each, and removing what the markers name. */
module BuildOutputs {
  import opened Prelude
  import opened Paths
  import opened FileSystem

  // Which entries each walk of the build directory yields.

  predicate IsMarkerName(p: Path)
    requires p != []
  {
    EndsWith(Leaf(p), MARKER)
  }

  /** `has_artifacts`, on entries that are not directories. */
  predicate IsArtifact(t: Tree, g: Package, p: Path) {
    Present(t, p) && Under(p, g.build) && (t[p].Link? || !IsMarkerName(p))
  }

  predicate IsMarker(t: Tree, g: Package, p: Path) {
    Present(t, p) && Under(p, g.build) && t[p].File? && IsMarkerName(p)
  }

  /** `has_markers` lets directories through by following links, and `find_files` keeps links, so a
      link to a directory comes out of the walk beside the markers. */
  predicate IsSwept(t: Tree, g: Package, p: Path) {
    IsMarker(t, g, p) || (Present(t, p) && Under(p, g.build) && t[p].Link? && t[p].toDir)
  }

  function Artifacts(t: Tree, g: Package): set<Path> {
    set p | p in t && IsArtifact(t, g, p)
  }

  function Swept(t: Tree, g: Package): set<Path> {
    set p | p in t && IsSwept(t, g, p)
  }

  /** No artifact has a marker name; the container output must not contain links that do. */
  predicate NoMarkerLinks(t: Tree, g: Package) {
    forall p :: p in t && Under(p, g.build) && t[p].Link? ==> !IsMarkerName(p)
  }

  function OutputOf(g: Package, a: Path): (o: Path)
    requires Under(a, g.build)
    ensures Under(o, g.output)
  {
    Rebase(a, g.build, g.output)
  }

  /** The output that `clean_build_files` derives from a path in the build directory. */
  function NamedBy(g: Package, m: Path): (o: Path)
    requires Under(m, g.build)
    ensures Under(o, g.output)
  {
    var o := DropExtension(Rebase(m, g.build, g.output));
    assert Parent(o)[..|g.output|] == g.output;
    o
  }

  /** The directory walk in some order; every order is possible. */
  method Enumerate(paths: set<Path>) returns (r: seq<Path>)
    ensures forall p :: p in r <==> p in paths
    ensures forall i, j :: 0 <= i < j < |r| ==> r[i] != r[j]
    ensures |r| == |paths|
  {
    r := [];
    var left := paths;
    while left != {}
      invariant left <= paths && |r| + |left| == |paths|
      invariant forall p :: p in r <==> p in paths - left
      invariant forall i, j :: 0 <= i < j < |r| ==> r[i] != r[j]
      decreases left
    {
      var p :| p in left;
      left := left - {p};
      assert p !in r;
      assert forall i :: 0 <= i < |r| ==> r[i] in r;
      r := r + [p];
    }
  }

  // Copying.

  /** The files of `t1` are those of `t0` after each path in `moved` went to the output directory and
      left a marker behind; nothing else differs. */
  ghost predicate Copied(t0: Tree, t1: Tree, g: Package, moved: set<Path>) {
    forall p :: CopiedAt(t0, t1, g, moved, p)
  }

  /** What `Copied` says about one path. */
  ghost predicate CopiedAt(t0: Tree, t1: Tree, g: Package, moved: set<Path>, p: Path) {
    At(t1, p) ==
      if Under(p, g.output) && Rebase(p, g.output, g.build) in moved
      then At(t0, Rebase(p, g.output, g.build))
      else if p != [] && IsMarkerName(p) && Unmark(p) in moved then Some(File(""))
      else if p in moved then None
      else At(t0, p)
  }

  /** The marker of `a`: an empty file, unless a link is in its place, which stays. */
  function MarkerFor(t: Tree, a: Path): Option<Node>
    requires a != []
  {
    if LinkAt(t, AddMarker(a)) then At(t, AddMarker(a)) else Some(File(""))
  }

  /** The same for one artifact. */
  ghost predicate CopiedOne(t0: Tree, t1: Tree, g: Package, a: Path)
    requires Under(a, g.build)
  {
    forall p :: At(t1, p) ==
      if p == OutputOf(g, a) then At(t0, a)
      else if p == AddMarker(a) then MarkerFor(t0, a)
      else if p == a then None
      else At(t0, p)
  }

  /** A copy of `a` that stopped: at most the marker is new. */
  ghost predicate MarkedOnly(t0: Tree, t1: Tree, a: Path)
    requires a != []
  {
    forall p :: At(t1, p) == At(t0, p) || (p == AddMarker(a) && At(t1, p) == Some(File("")))
  }

  lemma {:induction false} CopiedMoreAt(t0: Tree, t1: Tree, t2: Tree, g: Package, moved: set<Path>, a: Path, p: Path)
    requires !Nested(g.build, g.output)
    requires CopiedAt(t0, t1, g, moved, p) && Under(a, g.build) && At(t1, a) == At(t0, a)
    requires CopiedOne(t1, t2, g, a) && !IsMarkerName(a) && !LinkAt(t1, AddMarker(a))
    requires forall q :: q in moved ==> Under(q, g.build) && !IsMarkerName(q)
    ensures CopiedAt(t0, t2, g, moved + {a}, p)
  {
    RebaseBack(a, g.build, g.output);
    UnmarkAdd(a);
    UnderMarker(a, g.build);
    SeparateBelow(p, g);
    if Under(p, g.output) { RebaseBack(p, g.output, g.build); }
  }

  lemma {:induction false} CopiedMore(t0: Tree, t1: Tree, t2: Tree, g: Package, moved: set<Path>, a: Path)
    requires !Nested(g.build, g.output) && NoMarkerLinks(t0, g)
    requires Copied(t0, t1, g, moved) && a !in moved && IsArtifact(t0, g, a)
    requires CopiedOne(t1, t2, g, a) && !LinkAt(t1, AddMarker(a))
    requires forall p :: p in moved ==> IsArtifact(t0, g, p)
    ensures Copied(t0, t2, g, moved + {a})
  {
    assert At(t1, a) == At(t0, a) by {
      SeparateBelow(a, g);
      assert CopiedAt(t0, t1, g, moved, a);
    }
    forall p ensures CopiedAt(t0, t2, g, moved + {a}, p) {
      assert CopiedAt(t0, t1, g, moved, p);
      CopiedMoreAt(t0, t1, t2, g, moved, a, p);
    }
  }

  /** `g` is now the owner of what it moved, and nothing else has changed hands. */
  ghost predicate Owned(owners0: Owners, owners: Owners, g: Package, moved: set<Path>) {
    forall o :: OwnedAt(owners0, owners, g, moved, o)
  }

  ghost predicate OwnedAt(owners0: Owners, owners: Owners, g: Package, moved: set<Path>, o: Path) {
    if Under(o, g.output) && Rebase(o, g.output, g.build) in moved
    then o in owners && owners[o] == g
    else (o in owners <==> o in owners0) && (o in owners ==> owners[o] == owners0[o])
  }

  lemma {:induction false} OwnedMore(owners0: Owners, owners: Owners, g: Package, moved: set<Path>, a: Path)
    requires Owned(owners0, owners, g, moved) && Under(a, g.build)
    ensures Owned(owners0, owners[OutputOf(g, a) := g], g, moved + {a})
  {
    RebaseBack(a, g.build, g.output);
    var owners', moved' := owners[OutputOf(g, a) := g], moved + {a};
    forall o ensures OwnedAt(owners0, owners', g, moved', o) {
      assert OwnedAt(owners0, owners, g, moved, o);
      if Under(o, g.output) { RebaseBack(o, g.output, g.build); }
    }
  }

  lemma {:induction false} SeparateBelow(p: Path, g: Package)
    requires !Nested(g.build, g.output)
    ensures !(Under(p, g.build) && Under(p, g.output))
    ensures p != [] && IsMarkerName(p) && Under(Unmark(p), g.build) ==> Under(p, g.build)
  {
    if Under(p, g.build) && Under(p, g.output) { SeparateTops(p, g.build, g.output); }
    if p != [] && IsMarkerName(p) && Under(Unmark(p), g.build) { UnderMarker(Unmark(p), g.build); }
  }

  lemma {:induction false} UnderMarker(a: Path, top: Path)
    requires Under(a, top)
    ensures Under(AddMarker(a), top)
  {
    assert Parent(a)[..|top|] == a[..|top|];
  }

  /** No file or link stands in for a directory on the way to `p`. */
  ghost predicate WayFree(t: Tree, p: Path) {
    forall k :: 0 <= k <= |p| ==> !Present(t, p[..k])
  }

  /** `create_dir_all`: adds the directories on the way to `p` and nothing else.  It fails only for lack of
      fuel, or because something is in the way. */
  method CreateDirAll(d: Disk, p: Path) returns (ok: bool)
    requires WellFormed(d.nodes) && Named(p)
    modifies d`nodes, d`fuel
    ensures WellFormed(d.nodes) && (old(d.Valid()) ==> d.Valid())
    ensures forall q :: At(d.nodes, q) == At(old(d.nodes), q)
    ensures forall q :: HasDir(old(d.nodes), q) ==> HasDir(d.nodes, q)
    ensures forall q :: HasDir(d.nodes, q) ==> HasDir(old(d.nodes), q) || q <= p
    ensures ok ==> HasDir(d.nodes, p) && WayFree(old(d.nodes), p)
    ensures !ok ==> d.fuel == 0 || !WayFree(old(d.nodes), p)
    ensures d.fuel <= old(d.fuel) <= d.fuel + |p| + 1
  {
    ok := true;
    var i := 0;
    while ok && i <= |p|
      invariant 0 <= i <= |p| + 1
      invariant WellFormed(d.nodes) && (old(d.Valid()) ==> d.Valid())
      invariant forall q :: At(d.nodes, q) == At(old(d.nodes), q)
      invariant forall q :: HasDir(old(d.nodes), q) ==> HasDir(d.nodes, q)
      invariant forall q :: HasDir(d.nodes, q) ==> HasDir(old(d.nodes), q) || q <= p
      invariant ok && 0 < i ==> HasDir(d.nodes, p[..i - 1])
      invariant !ok ==> d.fuel == 0 || !WayFree(old(d.nodes), p)
      invariant d.fuel <= old(d.fuel) <= d.fuel + i + (if ok then 0 else 1)
      invariant !ok ==> i <= |p|
      decreases |p| + 1 - i, ok
    {
      ghost var before := d.nodes;
      if i > 0 { assert Parent(p[..i]) == p[..i - 1]; }
      ok := d.MakeDir(p[..i]);
      if Tracked(before, d.owners, d.packages) { SameFilesTracked(before, d.nodes, d.owners, d.packages); }
      if ok {
        i := i + 1;
      } else if d.fuel > 0 {
        assert Present(before, p[..i]) && At(before, p[..i]) == At(old(d.nodes), p[..i]);
      }
    }
    if ok {
      assert p[..|p|] == p;
      AllDirs(d.nodes, p);
      forall k | 0 <= k <= |p| ensures !Present(old(d.nodes), p[..k]) {
        assert At(d.nodes, p[..k]) == At(old(d.nodes), p[..k]);
      }
    }
  }

  lemma {:induction false} AllDirs(t: Tree, p: Path)
    requires WellFormed(t) && HasDir(t, p)
    ensures forall k :: 0 <= k <= |p| ==> HasDir(t, p[..k])
  {
    forall k | 0 <= k <= |p| ensures HasDir(t, p[..k]) {
      if k < |p| { AncestorIsDir(t, p, p[..k]); } else { assert p[..k] == p; }
    }
  }

  lemma {:induction false} SameFilesTracked(t0: Tree, t1: Tree, owners: Owners, packages: set<Package>)
    requires Tracked(t0, owners, packages)
    requires forall p :: At(t1, p) == At(t0, p)
    ensures Tracked(t1, owners, packages)
  {
    forall o | o in owners && Present(t1, o)
      ensures At(t1, MarkerOf(o, owners[o])) != None && t1[MarkerOf(o, owners[o])].File?
    {
      assert At(t1, o) == At(t0, o);
      assert At(t1, MarkerOf(o, owners[o])) == At(t0, MarkerOf(o, owners[o]));
    }
  }

  lemma {:induction false} TrackedCreate(t: Tree, owners: Owners, packages: set<Package>, g: Package, m: Path)
    requires Separate(packages) && Tracked(t, owners, packages) && g in packages && Under(m, g.build)
    ensures Tracked(t[m := File("")], owners, packages)
  {
    var t' := t[m := File("")];
    forall o | o in owners && Present(t', o)
      ensures At(t', MarkerOf(o, owners[o])) != None && t'[MarkerOf(o, owners[o])].File?
    {
      if o == m { SeparateTops(o, g.build, owners[o].output); }
      assert Present(t, o);
    }
  }

  /** The marker of another output survives the move of `a`. */
  lemma {:induction false} MarkerSurvives(t: Tree, g: Package, a: Path, o: Path, h: Package)
    requires IsArtifact(t, g, a) && Under(o, h.output) && !Nested(h.build, g.output)
    requires Present(t, MarkerOf(o, h)) && t[MarkerOf(o, h)].File?
    ensures MarkerOf(o, h) != a && MarkerOf(o, h) != OutputOf(g, a)
  {
    var m := MarkerOf(o, h);
    UnmarkAdd(Rebase(o, h.output, h.build));
    if m == OutputOf(g, a) { SeparateTops(m, h.build, g.output); }
  }

  lemma {:induction false} TrackedMove(t: Tree, owners: Owners, packages: set<Package>, g: Package, a: Path)
    requires Separate(packages) && Tracked(t, owners, packages) && g in packages
    requires IsArtifact(t, g, a) && Leaf(a) != ""
    requires At(t, AddMarker(a)) == Some(File(""))
    ensures var o := OutputOf(g, a);
            Tracked((t - {a})[o := t[a]], owners[o := g], packages)
  {
    var out := OutputOf(g, a);
    var t', owners' := (t - {a})[out := t[a]], owners[out := g];
    RebaseBack(a, g.build, g.output);
    assert Leaf(out) == Leaf(a);
    assert MarkerOf(out, g) == AddMarker(a);
    MarkerSurvives(t, g, a, out, g);
    forall o | o in owners' && Present(t', o)
      ensures At(t', MarkerOf(o, owners'[o])) != None && t'[MarkerOf(o, owners'[o])].File?
    {
      if o != out {
        assert Present(t, o);
        MarkerSurvives(t, g, a, o, owners[o]);
      }
    }
  }

  lemma {:induction false} MarkerDiffers(a: Path)
    requires a != []
    ensures AddMarker(a) != a
  {
    assert Leaf(AddMarker(a)) == Leaf(a) + MARKER;
    assert |Leaf(a) + MARKER| > |Leaf(a)|;
  }

  /** The three paths of one artifact are different and have names. */
  lemma {:induction false} CopyPaths(t: Tree, g: Package, a: Path)
    requires WellFormed(t) && IsArtifact(t, g, a) && !Nested(g.build, g.output) && Named(g.output)
    ensures Under(AddMarker(a), g.build) && AddMarker(a) != a && Leaf(AddMarker(a)) != ""
    ensures OutputOf(g, a) != a && OutputOf(g, a) != AddMarker(a)
    ensures Leaf(OutputOf(g, a)) == Leaf(a) != "" && Named(Parent(OutputOf(g, a)))
    ensures EndsWith(Leaf(AddMarker(a)), MARKER)
  {
    UnderMarker(a, g.build);
    UnmarkAdd(a);
    MarkerDiffers(a);
    SeparateBelow(OutputOf(g, a), g);
    assert Leaf(AddMarker(a)) == Leaf(a) + MARKER;
    AllNamed(t, a);
  }

  /** The tree once the marker of `a` is in place. */
  function Marked(t: Tree, a: Path): Tree
    requires a != []
  {
    if LinkAt(t, AddMarker(a)) then t else t[AddMarker(a) := File("")]
  }

  /** Marker, directories, move. */
  lemma {:induction false} MoveEffect(t0: Tree, t1: Tree, g: Package, a: Path)
    requires IsArtifact(t0, g, a) && AddMarker(a) != a
    requires OutputOf(g, a) != a && OutputOf(g, a) != AddMarker(a)
    requires forall p :: At(t1, p) == At(Marked(t0, a), p)
    ensures MarkedOnly(t0, t1, a)
    ensures IsArtifact(t1, g, a) && At(t1, AddMarker(a)) == MarkerFor(t0, a)
    ensures CopiedOne(t0, (t1 - {a})[OutputOf(g, a) := t1[a]], g, a)
  {
    assert At(t1, a) == At(Marked(t0, a), a) == At(t0, a);
    assert At(t1, AddMarker(a)) == At(Marked(t0, a), AddMarker(a)) == MarkerFor(t0, a);
    var t2 := (t1 - {a})[OutputOf(g, a) := t1[a]];
    forall p ensures At(t2, p) ==
      if p == OutputOf(g, a) then At(t0, a)
      else if p == AddMarker(a) then MarkerFor(t0, a)
      else if p == a then None
      else At(t0, p)
    {
      assert At(t1, p) == At(Marked(t0, a), p);
    }
  }

  /** An output whose marker is a link is not tracked. */
  lemma {:induction false} LinkDoesNotTrack(t: Tree, owners: Owners, packages: set<Package>, g: Package, a: Path)
    requires Under(a, g.build) && Present(t, OutputOf(g, a)) && LinkAt(t, AddMarker(a))
    requires OutputOf(g, a) in owners && owners[OutputOf(g, a)] == g
    ensures !Tracked(t, owners, packages)
  {
    RebaseBack(a, g.build, g.output);
    assert MarkerOf(OutputOf(g, a), g) == AddMarker(a);
  }

  /** Nothing is in the way of moving `a`: no directory where the marker or the output goes, no link to a
      directory in place of the marker, and no file in place of a directory above the output. */
  ghost predicate Clear(t: Tree, g: Package, a: Path)
    requires Under(a, g.build)
  {
    && !HasDir(t, AddMarker(a)) && !LinkToDir(t, AddMarker(a))
    && !HasDir(t, OutputOf(g, a)) && WayFree(t, Parent(OutputOf(g, a)))
  }

  /** No directory is gone, and the new ones are above the outputs of `moved`. */
  ghost predicate NewDirs(t0: Tree, t1: Tree, g: Package, moved: set<Path>) {
    && (forall q :: HasDir(t0, q) ==> HasDir(t1, q))
    && (forall q :: HasDir(t1, q) && !HasDir(t0, q) ==>
          exists a :: a in moved && Under(a, g.build) && q <= Parent(OutputOf(g, a)))
  }

  /** The marker is not on the way to the output. */
  lemma {:induction false} SameWay(t0: Tree, t1: Tree, g: Package, a: Path)
    requires !Nested(g.build, g.output) && IsArtifact(t0, g, a)
    requires t1 == Marked(t0, a)
    ensures WayFree(t1, Parent(OutputOf(g, a))) <==> WayFree(t0, Parent(OutputOf(g, a)))
  {
    var way := Parent(OutputOf(g, a));
    UnderMarker(a, g.build);
    assert g.output <= way;
    NotOnWay(AddMarker(a), way, g.build, g.output);
    forall k | 0 <= k <= |way| ensures Present(t1, way[..k]) <==> Present(t0, way[..k]) {}
  }

  /** One round of the copying loop.  It keeps outputs tracked exactly if there is no link where the
      marker goes. */
  method CopyOne(d: Disk, g: Package, a: Path) returns (ok: bool)
    requires Separate(d.packages) && WellFormed(d.nodes) && g in d.packages && IsArtifact(d.nodes, g, a)
    modifies d
    ensures WellFormed(d.nodes)
    ensures old(d.Valid()) ==> (d.Valid() <==> !(ok && LinkAt(old(d.nodes), AddMarker(a))))
    ensures ok ==> CopiedOne(old(d.nodes), d.nodes, g, a)
    ensures !ok ==> MarkedOnly(old(d.nodes), d.nodes, a)
    ensures d.owners == if ok then old(d.owners)[OutputOf(g, a) := g] else old(d.owners)
    // It fails only for lack of fuel or because something is in the way.
    ensures ok ==> Clear(old(d.nodes), g, a)
    ensures !ok ==> d.fuel == 0 || !Clear(old(d.nodes), g, a)
    ensures d.fuel <= old(d.fuel) <= d.fuel + |OutputOf(g, a)| + 2
    ensures NewDirs(old(d.nodes), d.nodes, g, {a})
  {
    ghost var t0 := d.nodes;
    ghost var valid, linked := d.Valid(), LinkAt(t0, AddMarker(a));
    var marker, out := AddMarker(a), OutputOf(g, a);
    CopyPaths(t0, g, a);
    assert HasDir(t0, Parent(a)) && Parent(marker) == Parent(a);
    ok := d.CreateFile(marker);
    if !ok { return; }
    ghost var t1 := d.nodes;
    assert forall q :: HasDir(t1, q) <==> HasDir(t0, q);
    if valid { TrackedCreate(t0, d.owners, d.packages, g, marker); }
    ok := CreateDirAll(d, Parent(out));
    MoveEffect(t0, d.nodes, g, a);
    SameWay(t0, t1, g, a);
    if !ok { return; }
    ghost var t2 := d.nodes;
    if valid && !linked { TrackedMove(d.nodes, d.owners, d.packages, g, a); }
    ok := d.Rename(a, out, g);
    assert forall q :: HasDir(d.nodes, q) <==> HasDir(t2, q);
    assert HasDir(t2, out) ==> HasDir(t1, out);
    if ok && linked { LinkDoesNotTrack(d.nodes, d.owners, d.packages, g, a); }
  }

  lemma {:induction false} LinksKept(t0: Tree, t1: Tree, g: Package, moved: set<Path>)
    requires !Nested(g.build, g.output) && NoMarkerLinks(t0, g) && Copied(t0, t1, g, moved)
    ensures NoMarkerLinks(t1, g)
  {
    forall p | Present(t1, p) && Under(p, g.build) && t1[p].Link?
      ensures !IsMarkerName(p)
    {
      SeparateBelow(p, g);
      assert CopiedAt(t0, t1, g, moved, p);
    }
  }

  /** Every path in `moved` is at its place in the output directory, everything else in front of the
      copy that is still to be moved is where it was, and outside both nothing has changed. */
  ghost predicate Placed(t0: Tree, t1: Tree, g: Package, moved: set<Path>) {
    forall p :: PlacedAt(t0, t1, g, moved, p)
  }

  ghost predicate PlacedAt(t0: Tree, t1: Tree, g: Package, moved: set<Path>, p: Path) {
    if Under(p, g.output) && Rebase(p, g.output, g.build) in moved
    then At(t1, p) == At(t0, Rebase(p, g.output, g.build))
    else !Under(p, g.build) || (IsArtifact(t0, g, p) && p !in moved) ==> At(t1, p) == At(t0, p)
  }

  lemma {:induction false} PlacedMore(t0: Tree, t1: Tree, t2: Tree, g: Package, moved: set<Path>, a: Path)
    requires !Nested(g.build, g.output) && Placed(t0, t1, g, moved) && moved <= Artifacts(t0, g)
    requires IsArtifact(t0, g, a) && a !in moved && CopiedOne(t1, t2, g, a)
    ensures Placed(t0, t2, g, moved + {a})
  {
    RebaseBack(a, g.build, g.output);
    UnderMarker(a, g.build);
    UnmarkAdd(a);
    SeparateBelow(a, g);
    assert PlacedAt(t0, t1, g, moved, a);
    forall p ensures PlacedAt(t0, t2, g, moved + {a}, p) {
      assert PlacedAt(t0, t1, g, moved, p);
      SeparateBelow(p, g);
      if Under(p, g.output) { RebaseBack(p, g.output, g.build); }
    }
  }

  /** `p` is what the copy is for: a link, or a file whose name does not end in the marker extension. */
  predicate Wanted(t: Tree, p: Path)
    requires p != []
  {
    p in t && (t[p].Link? || (t[p].File? && !EndsWith(Leaf(p), ".buildsys_marker")))
  }

  /** Each wanted path of the build directory is at the same relative output path, and every other
      output path is as before. */
  ghost predicate EverythingMoved(t0: Tree, t1: Tree, g: Package) {
    forall p :: Under(p, g.build) ==>
      At(t1, Rebase(p, g.build, g.output)) ==
        if Wanted(t0, p) then Some(t0[p]) else At(t0, Rebase(p, g.build, g.output))
  }

  /** And it has gone from the build directory, with an empty file named after it in its place. */
  ghost predicate MarkersLeft(t0: Tree, t1: Tree, g: Package) {
    forall p :: Under(p, g.build) && Wanted(t0, p) ==>
      At(t1, p) == None && At(t1, Parent(p) + [Leaf(p) + ".buildsys_marker"]) == Some(File(""))
  }

  lemma {:induction false} PlacedIsMoved(t0: Tree, t1: Tree, g: Package)
    requires !Nested(g.build, g.output) && Placed(t0, t1, g, Artifacts(t0, g))
    ensures EverythingMoved(t0, t1, g)
  {
    forall p | Under(p, g.build)
      ensures At(t1, Rebase(p, g.build, g.output)) ==
        if Wanted(t0, p) then Some(t0[p]) else At(t0, Rebase(p, g.build, g.output))
    {
      var q := Rebase(p, g.build, g.output);
      RebaseBack(p, g.build, g.output);
      SeparateBelow(q, g);
      assert PlacedAt(t0, t1, g, Artifacts(t0, g), q);
      assert p in Artifacts(t0, g) <==> Wanted(t0, p);
    }
  }

  lemma {:induction false} CopiedLeavesMarkers(t0: Tree, t1: Tree, g: Package)
    requires !Nested(g.build, g.output) && NoMarkerLinks(t0, g) && Copied(t0, t1, g, Artifacts(t0, g))
    ensures MarkersLeft(t0, t1, g)
  {
    forall p | Under(p, g.build) && Wanted(t0, p)
      ensures At(t1, p) == None && At(t1, Parent(p) + [Leaf(p) + ".buildsys_marker"]) == Some(File(""))
    {
      assert p in Artifacts(t0, g) && !IsMarkerName(p);
      var m := Parent(p) + [Leaf(p) + ".buildsys_marker"];
      assert m == AddMarker(p);
      UnmarkAdd(p);
      UnderMarker(p, g.build);
      SeparateBelow(p, g);
      SeparateBelow(m, g);
      assert CopiedAt(t0, t1, g, Artifacts(t0, g), p) && CopiedAt(t0, t1, g, Artifacts(t0, g), m);
    }
  }

  // When the copy succeeds.

  /** Nothing is in the way of any artifact. */
  ghost predicate AllClear(t: Tree, g: Package) {
    forall a :: a in Artifacts(t, g) ==> Clear(t, g, a)
  }

  ghost predicate Shallow(t: Tree, g: Package, k: nat) {
    forall a :: a in Artifacts(t, g) ==> |OutputOf(g, a)| <= k
  }

  /** No artifact lies on the way to another. */
  lemma {:induction false} NotBelowArtifact(t: Tree, g: Package, a: Path, b: Path)
    requires WellFormed(t) && IsArtifact(t, g, a) && IsArtifact(t, g, b)
    ensures !(OutputOf(g, a) <= Parent(OutputOf(g, b)))
  {
    var x, y := OutputOf(g, a), OutputOf(g, b);
    RebaseBack(a, g.build, g.output);
    RebaseBack(b, g.build, g.output);
    if x <= Parent(y) {
      assert y[|g.output|..][..|x| - |g.output|] == x[|g.output|..];
      assert Under(b, a) by { assert b[..|a|] == a; }
      AncestorIsDir(t, b, a);
    }
  }

  /** What is on the way to an output is as it was before the others were moved. */
  lemma {:induction false} WayAsBefore(t0: Tree, t: Tree, g: Package, moved: set<Path>, a: Path, k: nat)
    requires !Nested(g.build, g.output) && WellFormed(t0) && Copied(t0, t, g, moved) && moved <= Artifacts(t0, g)
    requires IsArtifact(t0, g, a) && k <= |Parent(OutputOf(g, a))|
    ensures At(t, Parent(OutputOf(g, a))[..k]) == At(t0, Parent(OutputOf(g, a))[..k])
  {
    var way := Parent(OutputOf(g, a));
    var p := way[..k];
    assert g.output <= way;
    assert CopiedAt(t0, t, g, moved, p);
    if Under(p, g.output) && Rebase(p, g.output, g.build) in moved {
      var b := Rebase(p, g.output, g.build);
      RebaseBack(p, g.output, g.build);
      NotBelowArtifact(t0, g, b, a);
    }
    if Under(p, g.build) { NotOnWay(p, way, g.build, g.output); }
    SeparateBelow(p, g);
  }

  lemma {:induction false} DirAsBefore(t0: Tree, t: Tree, g: Package, moved: set<Path>, q: Path)
    requires NewDirs(t0, t, g, moved)
    requires forall b :: b in moved && Under(b, g.build) ==> !(q <= Parent(OutputOf(g, b)))
    ensures HasDir(t, q) <==> HasDir(t0, q)
  {}

  lemma {:induction false} ClearAsBefore(t0: Tree, t: Tree, g: Package, moved: set<Path>, a: Path)
    requires !Nested(g.build, g.output) && WellFormed(t0) && NoMarkerLinks(t0, g)
    requires Copied(t0, t, g, moved) && NewDirs(t0, t, g, moved) && moved <= Artifacts(t0, g)
    requires IsArtifact(t0, g, a)
    ensures Clear(t, g, a) <==> Clear(t0, g, a)
  {
    UnderMarker(a, g.build);
    UnmarkAdd(a);
    forall b | b in moved && Under(b, g.build)
      ensures !(AddMarker(a) <= Parent(OutputOf(g, b))) && !(OutputOf(g, a) <= Parent(OutputOf(g, b)))
    {
      assert g.output <= Parent(OutputOf(g, b));
      NotOnWay(AddMarker(a), Parent(OutputOf(g, b)), g.build, g.output);
      assert IsArtifact(t0, g, b);
      NotBelowArtifact(t0, g, a, b);
    }
    DirAsBefore(t0, t, g, moved, AddMarker(a));
    DirAsBefore(t0, t, g, moved, OutputOf(g, a));
    LinksKept(t0, t, g, moved);
    var way := Parent(OutputOf(g, a));
    forall k | 0 <= k <= |way| ensures Present(t, way[..k]) <==> Present(t0, way[..k]) {
      WayAsBefore(t0, t, g, moved, a, k);
    }
  }

  lemma {:induction false} NewDirsMore(t0: Tree, t1: Tree, t2: Tree, g: Package, moved: set<Path>, a: Path)
    requires NewDirs(t0, t1, g, moved) && NewDirs(t1, t2, g, {a})
    ensures NewDirs(t0, t2, g, moved + {a})
  {
    forall q | HasDir(t2, q) && !HasDir(t0, q)
      ensures exists b :: b in moved + {a} && Under(b, g.build) && q <= Parent(OutputOf(g, b))
    {
      if HasDir(t1, q) {
        var b :| b in moved && Under(b, g.build) && q <= Parent(OutputOf(g, b));
        assert b in moved + {a};
      } else {
        assert a in moved + {a};
      }
    }
  }

  /** What holds of a copy after `moved` has been moved. */
  ghost predicate Underway(t0: Tree, t: Tree, owners0: Owners, owners: Owners, g: Package, moved: set<Path>) {
    && moved <= Artifacts(t0, g) && Placed(t0, t, g, moved) && Owned(owners0, owners, g, moved)
    && NewDirs(t0, t, g, moved)
    && (NoMarkerLinks(t0, g) ==> Copied(t0, t, g, moved) && forall a :: a in moved ==> Clear(t0, g, a))
  }

  lemma {:induction false} UnderwayStart(t: Tree, owners: Owners, g: Package)
    ensures Underway(t, t, owners, owners, g, {})
  {}

  lemma {:induction false} UnderwayMore(t0: Tree, t1: Tree, t2: Tree, owners0: Owners, owners1: Owners, g: Package,
                                        moved: set<Path>, a: Path)
    requires !Nested(g.build, g.output) && WellFormed(t0) && Underway(t0, t1, owners0, owners1, g, moved)
    requires IsArtifact(t0, g, a) && a !in moved
    requires CopiedOne(t1, t2, g, a) && NewDirs(t1, t2, g, {a}) && Clear(t1, g, a)
    ensures Underway(t0, t2, owners0, owners1[OutputOf(g, a) := g], g, moved + {a})
  {
    PlacedMore(t0, t1, t2, g, moved, a);
    OwnedMore(owners0, owners1, g, moved, a);
    NewDirsMore(t0, t1, t2, g, moved, a);
    if NoMarkerLinks(t0, g) {
      ToCopy(t0, t1, g, moved, a);
      CopiedMore(t0, t1, t2, g, moved, a);
      ClearAsBefore(t0, t1, g, moved, a);
    }
  }

  /** A round can begin, and what is in its way was so from the start. */
  lemma {:induction false} NextRound(t0: Tree, t1: Tree, owners0: Owners, owners1: Owners, g: Package, moved: set<Path>, a: Path)
    requires !Nested(g.build, g.output) && WellFormed(t0) && Underway(t0, t1, owners0, owners1, g, moved)
    requires IsArtifact(t0, g, a) && a !in moved
    ensures IsArtifact(t1, g, a)
    ensures NoMarkerLinks(t0, g) ==>
      Copied(t0, t1, g, moved) && !LinkAt(t1, AddMarker(a)) && (Clear(t1, g, a) <==> Clear(t0, g, a))
  {
    ToCopy(t0, t1, g, moved, a);
    if NoMarkerLinks(t0, g) { ClearAsBefore(t0, t1, g, moved, a); }
  }

  /** `i` rounds have used no more fuel than their share. */
  ghost predicate Frugal(t: Tree, g: Package, fuel0: nat, fuel: nat, i: nat) {
    forall k: nat :: Shallow(t, g, k) ==> fuel0 - fuel <= i * (k + 2)
  }

  ghost predicate EnoughFuel(t: Tree, g: Package, fuel: nat) {
    exists k: nat :: Shallow(t, g, k) && fuel > |Artifacts(t, g)| * (k + 2)
  }

  /** `copy_build_files`.  Every link and every file other than markers of the build directory ends at the
      same relative path of the output directory, and nothing outside the build directory changes but
      that.  If no link there has a marker name, an empty marker stays behind for each and everything
      stays tracked; if the copy stops early, that holds for what has been moved so far, with at most one
      marker more; and it stops early only for lack of fuel or because something is in the way. */
  method CopyBuildFiles(d: Disk, g: Package) returns (ok: bool, ghost moved: set<Path>)
    requires d.Valid() && g in d.packages
    modifies d
    ensures WellFormed(d.nodes)
    ensures ok ==> EverythingMoved(old(d.nodes), d.nodes, g)
    ensures moved <= Artifacts(old(d.nodes), g) && Owned(old(d.owners), d.owners, g, moved)
    ensures ok ==> moved == Artifacts(old(d.nodes), g)
    ensures old(NoMarkerLinks(d.nodes, g)) ==> d.Valid()
    ensures old(NoMarkerLinks(d.nodes, g)) && ok ==>
      Copied(old(d.nodes), d.nodes, g, moved) && MarkersLeft(old(d.nodes), d.nodes, g)
    ensures old(NoMarkerLinks(d.nodes, g)) && !ok ==>
      exists t, a :: a in Artifacts(old(d.nodes), g) - moved &&
        Copied(old(d.nodes), t, g, moved) && MarkedOnly(t, d.nodes, a)
    ensures old(NoMarkerLinks(d.nodes, g)) ==>
      (if ok then AllClear(old(d.nodes), g) else d.fuel == 0 || !AllClear(old(d.nodes), g))
    ensures Frugal(old(d.nodes), g, old(d.fuel), d.fuel, |Artifacts(old(d.nodes), g)|)
    ensures old(NoMarkerLinks(d.nodes, g)) && AllClear(old(d.nodes), g) && EnoughFuel(old(d.nodes), g, old(d.fuel)) ==> ok
  {
    ghost var t0, owners0, fuel0, nice := d.nodes, d.owners, d.fuel, NoMarkerLinks(d.nodes, g);
    assert !Nested(g.build, g.output);
    var files := Enumerate(Artifacts(d.nodes, g));
    moved := {};
    var i := 0;
    UnderwayStart(t0, owners0, g);
    while i < |files|
      invariant 0 <= i <= |files|
      invariant WellFormed(d.nodes) && Separate(d.packages)
      invariant forall p :: p in moved <==> p in files[..i]
      invariant Underway(t0, d.nodes, owners0, d.owners, g, moved)
      invariant nice ==> d.Valid()
      invariant Frugal(t0, g, fuel0, d.fuel, i)
    {
      var a := files[i];
      assert a in files && IsArtifact(t0, g, a) && a !in files[..i];
      ghost var t1, owners1, fuel1 := d.nodes, d.owners, d.fuel;
      NextRound(t0, t1, owners0, owners1, g, moved, a);
      ok := CopyOne(d, g, a);
      SpentMore(t0, g, a, fuel0, fuel1, d.fuel, i, |files|);
      if !ok { return; }
      UnderwayMore(t0, t1, d.nodes, owners0, owners1, g, moved, a);
      moved := moved + {a};
      i := i + 1;
    }
    assert files[..i] == files;
    assert moved == Artifacts(t0, g);
    ok := true;
    PlacedIsMoved(t0, d.nodes, g);
    if nice { CopiedLeavesMarkers(t0, d.nodes, g); }
  }

  /** The fuel that one more round uses. */
  lemma {:induction false} SpentMore(t: Tree, g: Package, a: Path, fuel0: nat, fuel1: nat, fuel2: nat, i: nat, n: nat)
    requires IsArtifact(t, g, a) && fuel1 <= fuel2 + |OutputOf(g, a)| + 2 && i < n
    requires Frugal(t, g, fuel0, fuel1, i)
    ensures Frugal(t, g, fuel0, fuel2, i + 1) && Frugal(t, g, fuel0, fuel2, n)
  {
    forall k: nat | Shallow(t, g, k) ensures fuel0 - fuel2 <= (i + 1) * (k + 2) <= n * (k + 2) {
      assert a in Artifacts(t, g) && |OutputOf(g, a)| <= k;
      assert (i + 1) * (k + 2) == i * (k + 2) + (k + 2);
      TimesMonotone(i + 1, n, k + 2);
    }
  }

  lemma {:induction false} TimesMonotone(a: nat, b: nat, c: nat)
    requires a <= b
    ensures a * c <= b * c
  {
    assert b * c == a * c + (b - a) * c;
    assert 0 <= (b - a) * c;
  }

  /** An artifact whose turn has not come is still there, and without links that have a marker name, none
      is in the way of its marker. */
  lemma {:induction false} ToCopy(t0: Tree, t1: Tree, g: Package, moved: set<Path>, a: Path)
    requires !Nested(g.build, g.output) && Placed(t0, t1, g, moved) && IsArtifact(t0, g, a) && a !in moved
    ensures IsArtifact(t1, g, a)
    ensures NoMarkerLinks(t0, g) && Copied(t0, t1, g, moved) ==> !LinkAt(t1, AddMarker(a))
  {
    SeparateBelow(a, g);
    assert PlacedAt(t0, t1, g, moved, a);
    if NoMarkerLinks(t0, g) && Copied(t0, t1, g, moved) {
      LinksKept(t0, t1, g, moved);
      UnderMarker(a, g.build);
      UnmarkAdd(a);
    }
  }

  // Cleaning.

  /** The files of `t1` are those of `t0` without `gone`. */
  ghost predicate Cleaned(t0: Tree, t1: Tree, gone: set<Path>) {
    forall p :: At(t1, p) == if p in gone then None else At(t0, p)
  }

  /** A swept path and the output it names. */
  function Gone(g: Package, swept: set<Path>): set<Path> {
    swept + set m | m in swept && Under(m, g.build) :: NamedBy(g, m)
  }

  predicate Inside(g: Package, x: Path) {
    Under(x, g.build) || Under(x, g.output)
  }

  /** `x` is strictly between one of the two top directories and a removed file. */
  ghost predicate Visited(g: Package, removed: set<Path>, x: Path) {
    Inside(g, x) && exists r :: r in removed && Under(r, x)
  }

  lemma {:induction false} UnderTransitive(a: Path, b: Path, c: Path)
    requires Under(a, b) && Under(b, c)
    ensures Under(a, c)
  {
    assert a[..|c|] == a[..|b|][..|c|];
  }

  /** The parent walk of `cleanup`.  It stops at the first directory already collected, and still
      collects every directory between `top` and `path`. */
  method WalkUp(path: Path, top: Path, dirs0: set<Path>) returns (dirs: set<Path>)
    requires Under(path, top)
    requires forall x, y :: x in dirs0 && Under(x, y) && Under(y, top) ==> y in dirs0
    ensures forall x :: x in dirs <==> x in dirs0 || (Under(path, x) && Under(x, top))
  {
    dirs := dirs0;
    var p := Parent(path);
    while p != top && p !in dirs
      invariant |top| <= |p| < |path| && p == path[..|p|]
      invariant forall x :: x in dirs <==> x in dirs0 || (Under(path, x) && |p| < |x|)
      decreases |p|
    {
      forall x | Under(path, x) && |x| == |p| ensures x == p { assert x == path[..|x|]; }
      dirs := dirs + {p};
      p := Parent(p);
    }
    forall x ensures x in dirs <==> x in dirs0 || (Under(path, x) && Under(x, top)) {
      if Under(path, x) {
        assert x == path[..|x|] && top == path[..|top|];
        if |x| < |p| {
          assert x == p[..|x|];
        } else if |x| == |p| {
          assert x == p;
        }
      }
    }
  }

  lemma {:induction false} TrackedRemove(t: Tree, owners: Owners, packages: set<Package>, path: Path)
    requires Tracked(t, owners, packages)
    requires forall o :: o in owners && MarkerOf(o, owners[o]) == path ==> !Present(t, o)
    ensures Tracked(t - {path}, owners, packages)
  {
    var t' := t - {path};
    forall o | o in owners && Present(t', o)
      ensures At(t', MarkerOf(o, owners[o])) != None && t'[MarkerOf(o, owners[o])].File?
    {
      assert Present(t, o);
    }
  }

  /** Each successful removal uses one unit of fuel and takes one node, so this stays the same. */
  function Spent(fuel: nat, t: Tree): int {
    fuel - |t|
  }

  /** The fuel has run out, all of it used for removals. */
  predicate Starved(fuel: nat, t: Tree, spent: int) {
    fuel == 0 && Spent(fuel, t) == spent
  }

  lemma {:induction false} OneLess(t: Tree, p: Path)
    requires p in t
    ensures |t - {p}| == |t| - 1
  {
    assert (t - {p}).Keys == t.Keys - {p};
  }

  /** The nested `cleanup` function: remove the file and collect the directories above it. */
  method Cleanup(d: Disk, path: Path, top: Path, dirs0: set<Path>) returns (ok: bool, dirs: set<Path>)
    requires d.Valid() && Under(path, top)
    // No output that is still there relies on `path` as its marker.
    requires forall o :: o in d.owners && MarkerOf(o, d.owners[o]) == path ==> !Present(d.nodes, o)
    requires forall x, y :: x in dirs0 && Under(x, y) && Under(y, top) ==> y in dirs0
    modifies d`nodes, d`fuel
    ensures d.Valid()
    ensures d.nodes == if ok then old(d.nodes) - {path} else old(d.nodes)
    ensures ok ==> !HasDir(old(d.nodes), path)
    ensures ok && path !in old(d.nodes) ==> dirs == dirs0
    ensures ok && path in old(d.nodes) ==>
      forall x :: x in dirs <==> x in dirs0 || (Under(path, x) && Under(x, top))
    ensures ok ==> Spent(d.fuel, d.nodes) == old(Spent(d.fuel, d.nodes))
    ensures !ok ==> Starved(d.fuel, d.nodes, old(Spent(d.fuel, d.nodes))) || HasDir(old(d.nodes), path)
  {
    dirs := dirs0;
    if path !in d.nodes {
      assert d.nodes - {path} == d.nodes;
      return true, dirs;
    }
    TrackedRemove(d.nodes, d.owners, d.packages, path);
    OneLess(d.nodes, path);
    ok := d.RemoveFile(path);
    if ok { dirs := WalkUp(path, top, dirs0); }
  }

  lemma {:induction false} MarkerNames(o: Path, g: Package)
    requires Under(o, g.output) && Leaf(o) != ""
    ensures NamedBy(g, MarkerOf(o, g)) == o
    ensures IsMarkerName(MarkerOf(o, g))
  {
    var p := Rebase(o, g.output, g.build);
    assert Leaf(p) == Leaf(o);
    RebaseBack(o, g.output, g.build);
    UnmarkAdd(p);
    var m := Rebase(AddMarker(p), g.build, g.output);
    assert m == AddMarker(o) by {
      assert Leaf(m) == Leaf(AddMarker(o));
      assert Parent(m) == Parent(o) by {
        assert Parent(p)[..|g.build|] == g.build;
        assert Parent(m) == g.output + Parent(p)[|g.build|..];
        assert Parent(o) == g.output + o[|g.output|..|o| - 1];
      }
      assert m == Parent(m) + [Leaf(m)];
    }
    DropMarker(o);
  }

  /** Removing the swept path `m` cannot untrack an output: the one it marks is gone already. */
  lemma {:induction false} MarkedIsGone(t: Tree, owners: Owners, packages: set<Package>, g: Package, m: Path, o: Path)
    requires Separate(packages) && Tracked(t, owners, packages) && g in packages
    requires Under(m, g.build) && NamedBy(g, m) !in t
    requires o in owners && MarkerOf(o, owners[o]) == m
    ensures !Present(t, o)
  {
    SeparateTops(m, g.build, owners[o].build);
    MarkerNames(o, g);
  }

  lemma {:induction false} NoMarkerInOutput(owners: Owners, packages: set<Package>, g: Package, p: Path, o: Path)
    requires Separate(packages) && g in packages && Under(p, g.output)
    requires o in owners && owners[o] in packages && Under(o, owners[o].output)
    ensures MarkerOf(o, owners[o]) != p
  {
    if MarkerOf(o, owners[o]) == p { SeparateTops(p, owners[o].build, g.output); }
  }

  ghost predicate Collects(dirs: set<Path>, g: Package, removed: set<Path>) {
    forall x :: x in dirs <==> Visited(g, removed, x)
  }

  lemma {:induction false} CollectsClosed(dirs: set<Path>, g: Package, removed: set<Path>, x: Path, y: Path)
    requires Collects(dirs, g, removed) && x in dirs && Under(x, y) && Inside(g, y)
    ensures y in dirs
  {
    var r :| r in removed && Under(r, x);
    UnderTransitive(r, x, y);
    assert Visited(g, removed, y);
  }

  lemma {:induction false} CollectsMore(dirs0: set<Path>, dirs: set<Path>, g: Package, removed: set<Path>, r: Path, top: Path)
    requires !Nested(g.build, g.output) && (top == g.build || top == g.output) && Under(r, top)
    requires Collects(dirs0, g, removed)
    requires forall x :: x in dirs <==> x in dirs0 || (Under(r, x) && Under(x, top))
    ensures Collects(dirs, g, removed + {r})
  {
    forall x ensures x in dirs <==> Visited(g, removed + {r}, x) {
      if Under(r, x) && Inside(g, x) {
        var other := if Under(x, g.build) then g.build else g.output;
        UnderTransitive(r, x, other);
        if other != top { SeparateTops(r, top, other); }
      }
      if Visited(g, removed, x) {
        var q :| q in removed && Under(q, x);
        assert q in removed + {r};
      }
    }
  }

  /** One `cleanup` call with the record of what it removes. */
  method CleanupIn(d: Disk, g: Package, path: Path, top: Path, dirs0: set<Path>, ghost removed0: set<Path>)
    returns (ok: bool, dirs: set<Path>, ghost removed: set<Path>)
    requires d.Valid() && g in d.packages
    requires (top == g.build || top == g.output) && Under(path, top)
    requires forall o :: o in d.owners && MarkerOf(o, d.owners[o]) == path ==> !Present(d.nodes, o)
    requires Collects(dirs0, g, removed0)
    modifies d`nodes, d`fuel
    ensures d.Valid()
    ensures d.nodes == if ok then old(d.nodes) - {path} else old(d.nodes)
    ensures ok ==> !HasDir(old(d.nodes), path)
    ensures removed == if path in old(d.nodes) then removed0 + {path} else removed0
    ensures ok ==> Collects(dirs, g, removed)
    ensures ok ==> Spent(d.fuel, d.nodes) == old(Spent(d.fuel, d.nodes))
    ensures !ok ==> Starved(d.fuel, d.nodes, old(Spent(d.fuel, d.nodes))) || HasDir(old(d.nodes), path)
  {
    removed := if path in d.nodes then removed0 + {path} else removed0;
    forall x, y | x in dirs0 && Under(x, y) && Under(y, top) ensures y in dirs0 {
      CollectsClosed(dirs0, g, removed0, x, y);
    }
    ghost var was := path in d.nodes;
    ok, dirs := Cleanup(d, path, top, dirs0);
    if ok && was { CollectsMore(dirs0, dirs, g, removed0, path, top); }
  }

  /** No output relies on something in an output directory as its marker. */
  lemma {:induction false} NobodyNeeds(t: Tree, owners: Owners, packages: set<Package>, g: Package, out: Path)
    requires Separate(packages) && Tracked(t, owners, packages) && g in packages && Under(out, g.output)
    ensures forall o :: o in owners && MarkerOf(o, owners[o]) == out ==> !Present(t, o)
  {
    forall o | o in owners ensures MarkerOf(o, owners[o]) != out { NoMarkerInOutput(owners, packages, g, out, o); }
  }

  /** Once its output is gone nobody relies on a marker. */
  lemma {:induction false} NobodyNeedsAnyMore(t: Tree, owners: Owners, packages: set<Package>, g: Package, m: Path)
    requires Separate(packages) && Tracked(t, owners, packages) && g in packages
    requires Under(m, g.build) && NamedBy(g, m) !in t
    ensures forall o :: o in owners && MarkerOf(o, owners[o]) == m ==> !Present(t, o)
  {
    forall o | o in owners && MarkerOf(o, owners[o]) == m ensures !Present(t, o) {
      MarkedIsGone(t, owners, packages, g, m, o);
    }
  }

  lemma {:induction false} BothGone(t: Tree, a: Path, b: Path, removed: set<Path>)
    requires a != b
    ensures t - {a} - {b} == t - {a, b}
    ensures var one := if a in t then removed + {a} else removed;
            (if b in t - {a} then one + {b} else one) == removed + ({a, b} * t.Keys)
  {}

  /** One round of the cleaning loop: the output first, then the marker. */
  method CleanOne(d: Disk, g: Package, m: Path, dirs0: set<Path>, ghost removed0: set<Path>)
    returns (ok: bool, dirs: set<Path>, ghost removed: set<Path>)
    requires d.Valid() && g in d.packages && Under(m, g.build)
    requires Collects(dirs0, g, removed0)
    modifies d`nodes, d`fuel
    ensures d.Valid()
    ensures ok ==> d.nodes == old(d.nodes) - {NamedBy(g, m), m}
    ensures ok ==> !HasDir(old(d.nodes), NamedBy(g, m)) && !HasDir(old(d.nodes), m)
    ensures !ok ==> d.nodes == old(d.nodes) || d.nodes == old(d.nodes) - {NamedBy(g, m)}
    ensures ok ==> removed == removed0 + ({NamedBy(g, m), m} * old(d.nodes).Keys)
    ensures ok ==> Collects(dirs, g, removed)
    ensures ok ==> Spent(d.fuel, d.nodes) == old(Spent(d.fuel, d.nodes))
    ensures !ok ==> || Starved(d.fuel, d.nodes, old(Spent(d.fuel, d.nodes)))
                    || HasDir(old(d.nodes), NamedBy(g, m)) || HasDir(old(d.nodes), m)
  {
    var out := NamedBy(g, m);
    assert out != m by { SeparateBelow(out, g); }
    NobodyNeeds(d.nodes, d.owners, d.packages, g, out);
    ghost var t0 := d.nodes;
    ok, dirs, removed := CleanupIn(d, g, out, g.output, dirs0, removed0);
    if !ok { return; }
    NobodyNeedsAnyMore(d.nodes, d.owners, d.packages, g, m);
    ok, dirs, removed := CleanupIn(d, g, m, g.build, dirs, removed);
    if ok { BothGone(t0, out, m, removed0); }
  }

  // Pruning the directories.

  /** Only directories among `dirs` have gone. */
  ghost predicate Pruned(t1: Tree, t2: Tree, dirs: set<Path>) {
    && (forall p :: p in t2 ==> p in t1 && t1[p] == t2[p])
    && (forall p :: p in t1 && p !in t2 ==> p in dirs && t1[p].Dir?)
  }

  lemma {:induction false} PrunedFiles(t1: Tree, t2: Tree, dirs: set<Path>, p: Path)
    requires Pruned(t1, t2, dirs)
    ensures At(t2, p) == At(t1, p)
  {}

  /** Remove a directory if it is empty. */
  method PruneOne(d: Disk, x: Path) returns (ok: bool)
    requires d.Valid() && x != []
    modifies d`nodes, d`fuel
    ensures d.Valid()
    ensures d.nodes == old(d.nodes) || (HasDir(old(d.nodes), x) && d.nodes == old(d.nodes) - {x})
    ensures ok ==> !EmptyDir(d.nodes, x)
    ensures Spent(d.fuel, d.nodes) == old(Spent(d.fuel, d.nodes)) && (!ok ==> d.fuel == 0)
  {
    if EmptyDir(d.nodes, x) {
      ghost var t := d.nodes;
      OneLess(t, x);
      ok := d.RemoveDir(x);
      forall p ensures At(d.nodes, p) == At(t, p) {}
      SameFilesTracked(t, d.nodes, d.owners, d.packages);
    } else {
      ok := true;
    }
  }

  ghost predicate Full(t: Tree, dirs: seq<Path>) {
    forall j :: 0 <= j < |dirs| ==> !EmptyDir(t, dirs[j])
  }

  /** Children come before parents, so a directory that was not empty at its turn stays so. */
  method PruneDirs(d: Disk, dirs: set<Path>) returns (ok: bool)
    requires d.Valid() && [] !in dirs
    modifies d`nodes, d`fuel
    ensures d.Valid()
    ensures Pruned(old(d.nodes), d.nodes, dirs)
    ensures ok ==> forall x :: x in dirs ==> !EmptyDir(d.nodes, x)
    ensures Spent(d.fuel, d.nodes) == old(Spent(d.fuel, d.nodes)) && (!ok ==> d.fuel == 0)
  {
    ghost var t0 := d.nodes;
    var sorted := SortDescending(dirs);
    var i := 0;
    while i < |sorted|
      invariant 0 <= i <= |sorted|
      invariant d.Valid()
      invariant Pruned(t0, d.nodes, dirs)
      invariant Full(d.nodes, sorted[..i])
      invariant Spent(d.fuel, d.nodes) == old(Spent(d.fuel, d.nodes))
    {
      assert sorted[i] in sorted;
      ghost var t := d.nodes;
      ok := PruneOne(d, sorted[i]);
      PrunedMore(t0, t, d.nodes, dirs, sorted[i]);
      if !ok { return; }
      FullMore(t, d.nodes, sorted, i);
      i := i + 1;
    }
    AllFull(d.nodes, sorted, dirs);
    ok := true;
  }

  lemma {:induction false} PrunedMore(t0: Tree, t: Tree, t': Tree, dirs: set<Path>, x: Path)
    requires Pruned(t0, t, dirs) && x in dirs
    requires t' == t || (HasDir(t, x) && t' == t - {x})
    ensures Pruned(t0, t', dirs)
  {}

  lemma {:induction false} FullMore(t: Tree, t': Tree, sorted: seq<Path>, i: nat)
    requires i < |sorted| && Descending(sorted) && Full(t, sorted[..i]) && sorted[i] != []
    requires t' == t || t' == t - {sorted[i]}
    requires !EmptyDir(t', sorted[i])
    ensures Full(t', sorted[..i + 1])
  {
    forall j | 0 <= j < i ensures !EmptyDir(t', sorted[j]) {
      assert sorted[..i][j] == sorted[j];
      assert !EmptyDir(t, sorted[j]);
      if t' != t { StaysFull(t, sorted[i], sorted[j]); }
    }
  }

  lemma {:induction false} AllFull(t: Tree, sorted: seq<Path>, dirs: set<Path>)
    requires Full(t, sorted[..|sorted|]) && forall p :: p in sorted <==> p in dirs
    ensures forall x :: x in dirs ==> !EmptyDir(t, x)
  {
    assert sorted[..|sorted|] == sorted;
  }

  lemma {:induction false} StaysFull(t: Tree, x: Path, y: Path)
    requires x != [] && PathLess(x, y) && !EmptyDir(t, y)
    ensures !EmptyDir(t - {x}, y)
  {
    if HasDir(t, y) {
      var q :| q in t && q != [] && Parent(q) == y;
      if q == x {
        AboveIsLess(y, x);
        PathTotal(x, y);
      }
    }
  }

  /** What is left below a pruned directory decides whether it stays: a file, or a directory that no
      removed file was in. */
  ghost predicate Held(t1: Tree, dirs: set<Path>, x: Path) {
    exists q :: q in t1 && Under(q, x) && !(t1[q].Dir? && q in dirs)
  }

  lemma {:induction false} HeldStays(t1: Tree, t2: Tree, dirs: set<Path>, x: Path)
    requires WellFormed(t2) && Pruned(t1, t2, dirs) && Held(t1, dirs, x)
    ensures HasDir(t2, x)
  {
    var q :| q in t1 && Under(q, x) && !(t1[q].Dir? && q in dirs);
    AncestorIsDir(t2, q, x);
  }

  function Contents(t: Tree, x: Path): set<Path> {
    set q | q in t && Under(q, x)
  }

  lemma {:induction false} StaysHeld(t1: Tree, t2: Tree, dirs: set<Path>, x: Path)
    requires Pruned(t1, t2, dirs) && HasDir(t2, x) && x in dirs
    requires forall y :: y in dirs ==> !EmptyDir(t2, y)
    ensures Held(t1, dirs, x)
    decreases Contents(t2, x)
  {
    var c :| c in t2 && c != [] && Parent(c) == x;
    if t1[c].Dir? && c in dirs {
      forall q | q in Contents(t2, c) ensures q in Contents(t2, x) { UnderTransitive(q, c, x); }
      assert c in Contents(t2, x) && c !in Contents(t2, c);
      StaysHeld(t1, t2, dirs, c);
      var q :| q in t1 && Under(q, c) && !(t1[q].Dir? && q in dirs);
      UnderTransitive(q, c, x);
    } else {
      assert Under(c, x);
    }
  }

  /** The directories of `t2` are those of `t0`, except that a directory above a removed file stays
      exactly if a file or an unvisited directory below it holds it. */
  ghost predicate ExactDirs(t0: Tree, t2: Tree, g: Package, gone: set<Path>) {
    forall p :: HasDir(t2, p) <==>
      HasDir(t0, p) && (Visited(g, gone * t0.Keys, p) ==>
        exists q :: q in t0 - gone && Under(q, p) && !(t0[q].Dir? && Visited(g, gone * t0.Keys, q)))
  }

  /** Every file is as before, or it is gone and in `gone`. */
  ghost predicate OnlyRemoved(t0: Tree, t: Tree, gone: set<Path>) {
    forall p :: At(t, p) == At(t0, p) || (p in gone && At(t, p) == None)
  }

  /** The swept paths in `done` and what they name are gone, and the directories above collected. */
  ghost predicate Progress(t0: Tree, t: Tree, g: Package, done: set<Path>, dirs: set<Path>) {
    && t == t0 - Gone(g, done)
    && (forall p :: p in Gone(g, done) ==> !HasDir(t0, p))
    && Collects(dirs, g, Gone(g, done) * t0.Keys)
  }

  lemma {:induction false} ProgressMore(t0: Tree, t: Tree, t': Tree, g: Package, done: set<Path>, m: Path,
                     dirs: set<Path>, dirs': set<Path>, removed': set<Path>)
    requires Progress(t0, t, g, done, dirs) && Under(m, g.build)
    requires t' == t - {NamedBy(g, m), m} && !HasDir(t, NamedBy(g, m)) && !HasDir(t, m)
    requires removed' == Gone(g, done) * t0.Keys + ({NamedBy(g, m), m} * t.Keys)
    requires Collects(dirs', g, removed')
    ensures Progress(t0, t', g, done + {m}, dirs')
    ensures removed' == Gone(g, done + {m}) * t0.Keys
  {
    GoneMore(g, done, m);
    assert removed' == Gone(g, done + {m}) * t0.Keys;
  }

  lemma {:induction false} StoppedEffect(t0: Tree, t: Tree, t': Tree, g: Package, done: set<Path>, m: Path, swept: set<Path>)
    requires t == t0 - Gone(g, done) && done <= swept && m in swept && Under(m, g.build)
    requires t' == t || t' == t - {NamedBy(g, m)}
    ensures OnlyRemoved(t0, t', Gone(g, swept))
  {
    GoneMore(g, done, m);
    assert done + {m} <= swept;
    assert forall p :: p in Gone(g, done + {m}) ==> p in Gone(g, swept);
  }

  /** A directory is at an output path that the sweep has to remove. */
  ghost predicate Blocked(t: Tree, g: Package) {
    exists m :: m in Swept(t, g) && Under(m, g.build) && HasDir(t, NamedBy(g, m))
  }

  /** A directory in the way was there from the start; the swept path itself is none. */
  lemma {:induction false} StoppedBy(t0: Tree, t: Tree, g: Package, done: set<Path>, m: Path)
    requires t == t0 - Gone(g, done) && m in Swept(t0, g) && Under(m, g.build)
    ensures HasDir(t, NamedBy(g, m)) || HasDir(t, m) ==> Blocked(t0, g)
  {}

  /** The sweep of `done` went well. */
  ghost predicate Going(t0: Tree, t: Tree, fuel: nat, spent: int, g: Package, done: set<Path>, dirs: set<Path>) {
    Progress(t0, t, g, done, dirs) && Spent(fuel, t) == spent
  }

  /** The sweep has stopped: nothing it should not remove is gone, and there is a reason. */
  ghost predicate Stopped(t0: Tree, t: Tree, fuel: nat, spent: int, g: Package) {
    OnlyRemoved(t0, t, Gone(g, Swept(t0, g))) && (Starved(fuel, t, spent) || Blocked(t0, g))
  }

  lemma {:induction false} GoingStart(t: Tree, fuel: nat, g: Package)
    ensures Going(t, t, fuel, Spent(fuel, t), g, {}, {})
  {
    assert t - Gone(g, {}) == t;
  }

  /** One round of the loop, with what it has achieved so far. */
  method SweepOne(d: Disk, g: Package, m: Path, dirs0: set<Path>, ghost t0: Tree, ghost spent: int, ghost done: set<Path>)
    returns (ok: bool, dirs: set<Path>)
    requires d.Valid() && g in d.packages
    requires m in Swept(t0, g) && done <= Swept(t0, g) && Going(t0, d.nodes, d.fuel, spent, g, done, dirs0)
    modifies d`nodes, d`fuel
    ensures d.Valid()
    ensures ok ==> Going(t0, d.nodes, d.fuel, spent, g, done + {m}, dirs)
    ensures !ok ==> Stopped(t0, d.nodes, d.fuel, spent, g)
  {
    ghost var t, removed := d.nodes, Gone(g, done) * t0.Keys;
    ok, dirs, removed := CleanOne(d, g, m, dirs0, removed);
    if ok {
      ProgressMore(t0, t, d.nodes, g, done, m, dirs0, dirs, removed);
    } else {
      StoppedEffect(t0, t, d.nodes, g, done, m, Swept(t0, g));
      StoppedBy(t0, t, g, done, m);
    }
  }

  function Elements(s: seq<Path>): set<Path> {
    set p | p in s
  }

  lemma {:induction false} ElementsMore(s: seq<Path>, i: nat)
    requires i < |s|
    ensures Elements(s[..i + 1]) == Elements(s[..i]) + {s[i]}
  {
    assert s[..i + 1] == s[..i] + [s[i]];
  }

  /** The loop over the paths of the walk. */
  method SweepAll(d: Disk, g: Package, files: seq<Path>, ghost t0: Tree, ghost spent: int) returns (ok: bool, dirs: set<Path>)
    requires d.Valid() && g in d.packages && d.nodes == t0 && Spent(d.fuel, t0) == spent
    requires Elements(files) <= Swept(t0, g)
    modifies d`nodes, d`fuel
    ensures d.Valid()
    ensures ok ==> Going(t0, d.nodes, d.fuel, spent, g, Elements(files), dirs)
    ensures !ok ==> Stopped(t0, d.nodes, d.fuel, spent, g)
  {
    dirs := {};
    GoingStart(t0, d.fuel, g);
    var i := 0;
    assert Elements(files[..i]) == {};
    while i < |files|
      invariant 0 <= i <= |files| && Elements(files[..i]) <= Elements(files)
      invariant d.Valid()
      invariant Going(t0, d.nodes, d.fuel, spent, g, Elements(files[..i]), dirs)
    {
      assert files[i] in Elements(files);
      ElementsMore(files, i);
      ok, dirs := SweepOne(d, g, files[i], dirs, t0, spent, Elements(files[..i]));
      if !ok { return; }
      i := i + 1;
    }
    assert files[..i] == files;
    ok := true;
  }

  /** The loop over the walk of the build directory. */
  method SweepFiles(d: Disk, g: Package) returns (ok: bool, dirs: set<Path>)
    requires d.Valid() && g in d.packages
    modifies d`nodes, d`fuel
    ensures d.Valid()
    ensures ok ==> Going(old(d.nodes), d.nodes, d.fuel, old(Spent(d.fuel, d.nodes)), g, Swept(old(d.nodes), g), dirs)
    ensures !ok ==> Stopped(old(d.nodes), d.nodes, d.fuel, old(Spent(d.fuel, d.nodes)), g)
  {
    var files := Enumerate(Swept(d.nodes, g));
    assert Elements(files) == Swept(d.nodes, g);
    ok, dirs := SweepAll(d, g, files, d.nodes, Spent(d.fuel, d.nodes));
  }

  // What a clean does, in terms of the file names.

  /** The place of the marker for an output. */
  function MarkerPlace(o: Path, g: Package): Path
    requires Under(o, g.output)
  {
    Parent(Rebase(o, g.output, g.build)) + [Leaf(o) + ".buildsys_marker"]
  }

  /** Every output with a marker file is gone, and so is the marker. */
  ghost predicate MarkedGone(t0: Tree, t1: Tree, g: Package) {
    forall o :: Under(o, g.output) && Leaf(o) != "" && MarkerPlace(o, g) in t0 && t0[MarkerPlace(o, g)].File? ==>
      At(t1, o) == None && At(t1, MarkerPlace(o, g)) == None
  }

  /** Without links to directories nothing else has changed: what has is a marker file, an output with
      one, or an output that is itself called like a nameless marker that exists. */
  ghost predicate OnlyMarkedGone(t0: Tree, t1: Tree, g: Package) {
    (forall l :: l in t0 && Under(l, g.build) && t0[l].Link? ==> !t0[l].toDir) ==>
      forall p :: At(t1, p) != At(t0, p) ==>
        || (Under(p, g.build) && p in t0 && t0[p].File? && EndsWith(Leaf(p), ".buildsys_marker"))
        || (Under(p, g.output) && MarkerPlace(p, g) in t0 && t0[MarkerPlace(p, g)].File?)
        || (Under(p, g.output) && Leaf(p) == ".buildsys_marker" &&
            Rebase(p, g.output, g.build) in t0 && t0[Rebase(p, g.output, g.build)].File?)
  }

  lemma {:induction false} CleanedMarked(t0: Tree, t1: Tree, g: Package)
    requires Cleaned(t0, t1, Gone(g, Swept(t0, g)))
    ensures MarkedGone(t0, t1, g)
  {
    forall o | Under(o, g.output) && Leaf(o) != "" && MarkerPlace(o, g) in t0 && t0[MarkerPlace(o, g)].File?
      ensures At(t1, o) == None && At(t1, MarkerPlace(o, g)) == None
    {
      var m := MarkerOf(o, g);
      assert Leaf(Rebase(o, g.output, g.build)) == Leaf(o);
      assert m == MarkerPlace(o, g);
      MarkerNames(o, g);
      assert m in Swept(t0, g);
      assert NamedBy(g, m) in Gone(g, Swept(t0, g));
    }
  }

  /** Changing only the last name of a path below one top and moving it to another. */
  lemma {:induction false} RenamedBelow(m: Path, name: string, from: Path, to: Path)
    requires Under(m, from)
    ensures var p := Parent(Rebase(m, from, to)) + [name];
            Under(p, to) && Rebase(p, to, from) == Parent(m) + [name]
  {
    var q := Rebase(m, from, to);
    var p := Parent(q) + [name];
    assert p[..|to|] == q[..|to|] == to;
    assert p[|to|..] == Parent(q)[|to|..] + [name];
    assert Parent(q)[|to|..] == Parent(m)[|from|..];
    assert Parent(m) == from + Parent(m)[|from|..] by { assert Parent(m)[..|from|] == m[..|from|] == from; }
  }

  /** What a marker file names. */
  lemma {:induction false} NamedByMarker(g: Package, m: Path, name: string)
    requires Under(m, g.build) && Leaf(m) == name + MARKER
    ensures var p := NamedBy(g, m);
            && Leaf(p) == (if name == "" then MARKER else name)
            && Rebase(p, g.output, g.build) == Parent(m) + [Leaf(p)]
  {
    StemMarked(name);
    assert Leaf(Rebase(m, g.build, g.output)) == Leaf(m);
    RenamedBelow(m, Stem(Leaf(m)), g.build, g.output);
  }

  lemma {:induction false} NamedPlace(g: Package, m: Path)
    requires Under(m, g.build) && IsMarkerName(m)
    ensures var p := NamedBy(g, m);
            MarkerPlace(p, g) == m || (Leaf(p) == ".buildsys_marker" && Rebase(p, g.output, g.build) == m)
  {
    var name := Leaf(Unmark(m));
    assert Leaf(m) == name + MARKER;
    NamedByMarker(g, m, name);
    assert m == Parent(m) + [Leaf(m)];
    assert "" + MARKER == MARKER;
  }

  lemma {:induction false} OnlyMarked(t0: Tree, t1: Tree, g: Package)
    requires OnlyRemoved(t0, t1, Gone(g, Swept(t0, g)))
    ensures OnlyMarkedGone(t0, t1, g)
  {
    if forall l :: l in t0 && Under(l, g.build) && t0[l].Link? ==> !t0[l].toDir {
      forall p | At(t1, p) != At(t0, p)
        ensures || (Under(p, g.build) && p in t0 && t0[p].File? && EndsWith(Leaf(p), ".buildsys_marker"))
                || (Under(p, g.output) && MarkerPlace(p, g) in t0 && t0[MarkerPlace(p, g)].File?)
                || (Under(p, g.output) && Leaf(p) == ".buildsys_marker" &&
                    Rebase(p, g.output, g.build) in t0 && t0[Rebase(p, g.output, g.build)].File?)
      {
        assert p in Gone(g, Swept(t0, g));
        if p !in Swept(t0, g) {
          var m :| m in Swept(t0, g) && Under(m, g.build) && NamedBy(g, m) == p;
          NamedPlace(g, m);
        }
      }
    }
  }

  /** With a unit of fuel for every node a clean cannot starve. */
  lemma {:induction false} NotStarved(fuel0: nat, t0: Tree, fuel: nat, t: Tree)
    requires WellFormed(t) && fuel0 >= |t0|
    ensures !Starved(fuel, t, Spent(fuel0, t0))
  {
    assert [] in t.Keys;
  }

  /** `clean_build_files`.  A completed clean removes exactly the swept paths and the outputs they
      name, and then exactly the directories that hold nothing any more.  Interrupted or not, it
      removes nothing else, and whatever is still placed is still tracked.  With enough fuel it completes
      exactly if none of those outputs is a directory. */
  method CleanBuildFiles(d: Disk, g: Package) returns (ok: bool)
    requires d.Valid() && g in d.packages
    modifies d`nodes, d`fuel
    ensures d.Valid()
    ensures ok ==> MarkedGone(old(d.nodes), d.nodes, g)
    ensures OnlyMarkedGone(old(d.nodes), d.nodes, g)
    ensures OnlyRemoved(old(d.nodes), d.nodes, Gone(g, Swept(old(d.nodes), g)))
    ensures ok ==> Cleaned(old(d.nodes), d.nodes, Gone(g, Swept(old(d.nodes), g)))
    ensures ok ==> ExactDirs(old(d.nodes), d.nodes, g, Gone(g, Swept(old(d.nodes), g)))
    ensures ok ==> !Blocked(old(d.nodes), g)
    ensures old(d.fuel) >= |old(d.nodes)| && !Blocked(old(d.nodes), g) ==> ok
  {
    ghost var t0 := d.nodes;
    var dirs;
    ok, dirs := SweepFiles(d, g);
    if ok {
      ghost var t1 := d.nodes;
      ok := PruneDirs(d, dirs);
      CleanEffect(t0, t1, d.nodes, g, Gone(g, Swept(t0, g)), dirs, ok);
      CleanedMarked(t0, d.nodes, g);
    }
    OnlyMarked(t0, d.nodes, g);
    if old(d.fuel) >= |t0| { NotStarved(old(d.fuel), t0, d.fuel, d.nodes); }
  }

  lemma {:induction false} GoneMore(g: Package, done: set<Path>, m: Path)
    requires Under(m, g.build)
    ensures Gone(g, done + {m}) == Gone(g, done) + {NamedBy(g, m), m}
  {
    assert m in done + {m};
    assert NamedBy(g, m) in Gone(g, done + {m});
    forall p ensures p in Gone(g, done + {m}) <==> p in Gone(g, done) + {NamedBy(g, m), m} {
    }
  }

  lemma {:induction false} CleanEffect(t0: Tree, t1: Tree, t2: Tree, g: Package, gone: set<Path>, dirs: set<Path>, ok: bool)
    requires t1 == t0 - gone && (forall p :: p in gone ==> !HasDir(t0, p))
    requires Collects(dirs, g, gone * t0.Keys) && Pruned(t1, t2, dirs) && WellFormed(t2)
    requires ok ==> forall x :: x in dirs ==> !EmptyDir(t2, x)
    ensures Cleaned(t0, t2, gone)
    ensures ok ==> ExactDirs(t0, t2, g, gone)
  {
    forall p ensures At(t2, p) == if p in gone then None else At(t0, p) { PrunedFiles(t1, t2, dirs, p); }
    if ok {
      forall p ensures HasDir(t2, p) <==>
        HasDir(t0, p) && (Visited(g, gone * t0.Keys, p) ==>
          exists q :: q in t0 - gone && Under(q, p) && !(t0[q].Dir? && Visited(g, gone * t0.Keys, q)))
      {
        if p in dirs {
          if HasDir(t2, p) {
            StaysHeld(t1, t2, dirs, p);
            var q :| q in t1 && Under(q, p) && !(t1[q].Dir? && q in dirs);
            assert q in t0 - gone && Under(q, p) && !(t0[q].Dir? && Visited(g, gone * t0.Keys, q));
          } else if HasDir(t0, p) {
            if Held(t1, dirs, p) { HeldStays(t1, t2, dirs, p); }
          }
        }
      }
    }
  }
}
