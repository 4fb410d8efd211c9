/** What a clean takes for a marker, and what a copy and a clean do together. */
module BuildRuns {
  import opened Prelude
  import opened Paths
  import opened FileSystem
  import opened BuildOutputs

  /** After a completed clean, nothing this package ever placed is left in the output directory. */
  lemma {:induction false} NothingLeft(t0: Tree, t1: Tree, owners: Owners, packages: set<Package>, g: Package, o: Path)
    requires Tracked(t0, owners, packages) && Cleaned(t0, t1, Gone(g, Swept(t0, g)))
    requires o in owners && owners[o] == g
    ensures !Present(t1, o)
  {
    var m := MarkerOf(o, g);
    assert At(t1, o) == if o in Gone(g, Swept(t0, g)) then None else At(t0, o);
    if Present(t0, o) {
      MarkerNames(o, g);
      assert m in Swept(t0, g);
      assert NamedBy(g, m) in Gone(g, Swept(t0, g));
    }
  }

  // What the walk of `clean_build_files` takes for a marker.

  function Markers(t: Tree, g: Package): set<Path> {
    set p | p in t && IsMarker(t, g, p)
  }

  predicate HasDirLink(t: Tree, g: Package) {
    exists p :: p in t && Under(p, g.build) && t[p].Link? && t[p].toDir
  }

  /** Cleaning removes exactly the markers and the outputs they name if and only if the build
      directory holds no link to a directory. */
  lemma {:induction false} SweptAreMarkers(t0: Tree, t1: Tree, g: Package)
    requires !Nested(g.build, g.output) && Cleaned(t0, t1, Gone(g, Swept(t0, g)))
    ensures Cleaned(t0, t1, Gone(g, Markers(t0, g))) <==> !HasDirLink(t0, g)
  {
    if HasDirLink(t0, g) {
      var l :| l in t0 && Under(l, g.build) && t0[l].Link? && t0[l].toDir;
      assert l in Swept(t0, g) && At(t1, l) == None && At(t0, l) != None;
      assert l !in Gone(g, Markers(t0, g)) by {
        if m :| m in Markers(t0, g) && NamedBy(g, m) == l { SeparateTops(l, g.build, g.output); }
      }
    } else {
      assert Swept(t0, g) == Markers(t0, g);
    }
  }

  const HERE := Package(["b"], ["o"])
  const LINK: Path := ["b", "lib.d"]
  const VICTIM: Path := ["o", "lib"]

  function Sample(): Tree {
    map[[] := Dir, ["b"] := Dir, ["o"] := Dir,
        LINK := Link("elsewhere", true), VICTIM := File("kept by hand")]
  }

  lemma {:induction false} SampleTree()
    ensures WellFormed(Sample()) && Markers(Sample(), HERE) == {}
  {
    assert Parent(LINK) == ["b"] && Parent(VICTIM) == ["o"];
    assert Parent(["b"]) == [] && Parent(["o"]) == [];
    assert VICTIM[0] != HERE.build[0];
    forall p ensures p !in Markers(Sample(), HERE) {
      if p == VICTIM { assert !Under(p, HERE.build); }
    }
  }

  lemma {:induction false} LinkNamesVictim()
    ensures Under(LINK, HERE.build) && NamedBy(HERE, LINK) == VICTIM
  {
    assert LINK[..1] == HERE.build;
    assert Rebase(LINK, HERE.build, HERE.output) == ["o", "lib.d"];
    assert LastDot("lib.d") == 3 by { assert "lib.d"[3] == '.' && "lib.d"[4] != '.'; }
    assert "lib.d"[..3] == "lib";
  }

  /** A link to a directory, left in the build directory by a copy that was cut off, makes the next
      clean delete an output that no marker names and no build placed. */
  lemma {:induction false} DirLinkDeletesStranger(t1: Tree)
    requires Cleaned(Sample(), t1, Gone(HERE, Swept(Sample(), HERE)))
    ensures WellFormed(Sample()) && Markers(Sample(), HERE) == {} && !Nested(HERE.build, HERE.output)
    ensures Present(Sample(), VICTIM) && !Present(t1, VICTIM)
  {
    SampleTree();
    LinkNamesVictim();
    assert LINK in Swept(Sample(), HERE);
    assert VICTIM in Gone(HERE, Swept(Sample(), HERE));
    assert At(t1, VICTIM) == None;
    assert HERE.build[0] != HERE.output[0];
  }

  // Copying and then cleaning.

  /** After a copy from a build directory without markers, the walk of the next clean finds exactly
      the markers of what was moved. */
  lemma {:induction false} SweptAfterCopy(t0: Tree, t1: Tree, g: Package, m: Path)
    requires !Nested(g.build, g.output) && Markers(t0, g) == {} && NoMarkerLinks(t0, g)
    requires Copied(t0, t1, g, Artifacts(t0, g))
    ensures m in Swept(t1, g) <==>
            Under(m, g.build) && IsMarkerName(m) && Unmark(m) in Artifacts(t0, g)
  {
    if Under(m, g.build) {
      SeparateBelow(m, g);
      assert CopiedAt(t0, t1, g, Artifacts(t0, g), m);
      assert m !in Markers(t0, g);
      if m in t0 { assert m in Artifacts(t0, g) <==> IsArtifact(t0, g, m); }
    }
  }

  /** The outputs named by those markers are the outputs that were placed. */
  lemma {:induction false} GoneAfterCopy(t0: Tree, t1: Tree, g: Package, p: Path)
    requires WellFormed(t0)
    requires !Nested(g.build, g.output) && Markers(t0, g) == {} && NoMarkerLinks(t0, g)
    requires Copied(t0, t1, g, Artifacts(t0, g))
    ensures p in Gone(g, Swept(t1, g)) <==>
            || (Under(p, g.build) && IsMarkerName(p) && Unmark(p) in Artifacts(t0, g))
            || (Under(p, g.output) && Rebase(p, g.output, g.build) in Artifacts(t0, g))
  {
    SweptAfterCopy(t0, t1, g, p);
    SeparateBelow(p, g);
    if Under(p, g.output) && Rebase(p, g.output, g.build) in Artifacts(t0, g) {
      var a := Rebase(p, g.output, g.build);
      assert Leaf(a) == Leaf(p) && Leaf(a) != "";
      var m := MarkerOf(p, g);
      MarkerNames(p, g);
      UnmarkAdd(a);
      SweptAfterCopy(t0, t1, g, m);
      assert NamedBy(g, m) in Gone(g, Swept(t1, g));
    }
    if m :| m in Swept(t1, g) && Under(m, g.build) && NamedBy(g, m) == p {
      SweptAfterCopy(t0, t1, g, m);
      var a := Unmark(m);
      assert Leaf(a) != "" && Under(a, g.build);
      var o := OutputOf(g, a);
      RebaseBack(a, g.build, g.output);
      assert Leaf(o) == Leaf(a);
      MarkerNames(o, g);
      assert MarkerOf(o, g) == m;
    }
  }

  /** A copy followed by a clean takes every artifact and every marker away again and puts the rest of
      the files back to what they were, except that an output overwritten by the copy is lost. */
  lemma {:induction false} CopyThenClean(t0: Tree, t1: Tree, t2: Tree, g: Package, p: Path)
    requires WellFormed(t0)
    requires !Nested(g.build, g.output) && Markers(t0, g) == {} && NoMarkerLinks(t0, g)
    requires Copied(t0, t1, g, Artifacts(t0, g))
    requires Cleaned(t1, t2, Gone(g, Swept(t1, g)))
    ensures At(t2, p) ==
      if p in Artifacts(t0, g) then None
      else if Under(p, g.output) && Rebase(p, g.output, g.build) in Artifacts(t0, g) then None
      else At(t0, p)
  {
    GoneAfterCopy(t0, t1, g, p);
    SeparateBelow(p, g);
    assert CopiedAt(t0, t1, g, Artifacts(t0, g), p);
    if p in Artifacts(t0, g) {
      assert IsArtifact(t0, g, p);
    }
    if p != [] && IsMarkerName(p) && Unmark(p) in Artifacts(t0, g) {
      assert p !in Markers(t0, g);
      assert IsArtifact(t0, g, Unmark(p)) && Under(p, g.build);
    }
  }

  /** So the output tree has exactly its old files if and only if no artifact landed on a file. */
  lemma {:induction false} OutputRestored(t0: Tree, t1: Tree, t2: Tree, g: Package)
    requires WellFormed(t0)
    requires !Nested(g.build, g.output) && Markers(t0, g) == {} && NoMarkerLinks(t0, g)
    requires Copied(t0, t1, g, Artifacts(t0, g))
    requires Cleaned(t1, t2, Gone(g, Swept(t1, g)))
    ensures (forall p :: Under(p, g.output) ==> At(t2, p) == At(t0, p)) <==>
            (forall a :: a in Artifacts(t0, g) ==> !Present(t0, OutputOf(g, a)))
  {
    if forall a :: a in Artifacts(t0, g) ==> !Present(t0, OutputOf(g, a)) {
      forall p | Under(p, g.output) ensures At(t2, p) == At(t0, p) {
        CopyThenClean(t0, t1, t2, g, p);
        RebaseBack(p, g.output, g.build);
        SeparateBelow(p, g);
      }
    } else {
      var a :| a in Artifacts(t0, g) && Present(t0, OutputOf(g, a));
      var o := OutputOf(g, a);
      RebaseBack(a, g.build, g.output);
      CopyThenClean(t0, t1, t2, g, o);
      assert At(t2, o) != At(t0, o);
    }
  }
}
