/** Whole histories of builds: crash consistency, and packages that do not disturb each other. */
module BuildHistory {
  import opened Prelude
  import opened Paths
  import opened FileSystem
  import opened BuildOutputs
  import opened BuildRuns

  // Whose outputs a job may touch.

  /** The package that an output path belongs to; no path belongs to two. */
  type Claims = Path -> Option<Package>

  /** What the file at `p` in a build directory stands for belongs to that package: the output a marker
      names, and the place an artifact will go to. */
  predicate ClaimedAt(t: Tree, g: Package, claims: Claims, p: Path)
    requires Under(p, g.build)
  {
    && (IsMarker(t, g, p) ==> claims(NamedBy(g, p)) == Some(g))
    && (IsArtifact(t, g, p) ==> claims(OutputOf(g, p)) == Some(g))
  }

  ghost predicate BuildsClaimed(t: Tree, packages: set<Package>, claims: Claims) {
    forall g, p :: g in packages && Under(p, g.build) ==> ClaimedAt(t, g, claims, p)
  }

  ghost predicate OwnersClaimed(owners: Owners, claims: Claims) {
    forall o :: o in owners ==> claims(o) == Some(owners[o])
  }

  ghost predicate Claimed(t: Tree, owners: Owners, packages: set<Package>, claims: Claims) {
    BuildsClaimed(t, packages, claims) && OwnersClaimed(owners, claims)
  }

  predicate SameOwner(owners0: Owners, owners: Owners, p: Path) {
    (p in owners <==> p in owners0) && (p in owners ==> owners[p] == owners0[p])
  }

  predicate KeptAt(t0: Tree, owners0: Owners, t: Tree, owners: Owners, p: Path) {
    At(t, p) == At(t0, p) && SameOwner(owners0, owners, p)
  }

  /** Outside its own build directory, a job of `g` has changed nothing that is not claimed by `g`. */
  ghost predicate OthersKept(t0: Tree, owners0: Owners, t: Tree, owners: Owners, g: Package, claims: Claims) {
    forall p :: claims(p) != Some(g) && !Under(p, g.build) ==> KeptAt(t0, owners0, t, owners, p)
  }

  /** In a build directory a path keeps its file or link, loses it, or becomes the marker of an artifact. */
  ghost predicate BuildStepAt(t0: Tree, t1: Tree, g: Package, p: Path) {
    || At(t1, p) == At(t0, p)
    || At(t1, p) == None
    || (At(t1, p) == Some(File("")) && p != [] && IsMarkerName(p) && IsArtifact(t0, g, Unmark(p)))
  }

  ghost predicate BuildStep(t0: Tree, t1: Tree, packages: set<Package>) {
    forall g, p :: g in packages && Under(p, g.build) ==> BuildStepAt(t0, t1, g, p)
  }

  /** The marker of an artifact names the place the artifact goes to. */
  lemma {:induction false} MarkerOfArtifact(g: Package, p: Path)
    requires Under(p, g.build) && IsMarkerName(p) && Under(Unmark(p), g.build) && Leaf(Unmark(p)) != ""
    ensures NamedBy(g, p) == OutputOf(g, Unmark(p))
  {
    var a := Unmark(p);
    var o := OutputOf(g, a);
    RebaseBack(a, g.build, g.output);
    assert Leaf(o) == Leaf(a);
    MarkerNames(o, g);
    assert MarkerOf(o, g) == p;
  }

  lemma {:induction false} StepKeepsClaim(t0: Tree, t1: Tree, g: Package, claims: Claims, p: Path)
    requires WellFormed(t0) && Under(p, g.build) && BuildStepAt(t0, t1, g, p)
    requires ClaimedAt(t0, g, claims, p)
    requires IsMarkerName(p) && Under(Unmark(p), g.build) ==> ClaimedAt(t0, g, claims, Unmark(p))
    ensures ClaimedAt(t1, g, claims, p)
  {
    if At(t1, p) != At(t0, p) && At(t1, p) != None { MarkerOfArtifact(g, p); }
  }

  lemma {:induction false} StepKeepsClaims(t0: Tree, t1: Tree, packages: set<Package>, claims: Claims)
    requires WellFormed(t0) && BuildsClaimed(t0, packages, claims) && BuildStep(t0, t1, packages)
    ensures BuildsClaimed(t1, packages, claims)
  {
    forall g, p | g in packages && Under(p, g.build) ensures ClaimedAt(t1, g, claims, p) {
      assert BuildStepAt(t0, t1, g, p) && ClaimedAt(t0, g, claims, p);
      StepKeepsClaim(t0, t1, g, claims, p);
    }
  }

  predicate NoDirLinks(t: Tree, packages: set<Package>) {
    forall g :: g in packages ==> !HasDirLink(t, g)
  }

  lemma {:induction false} StepAddsNoLink(t0: Tree, t1: Tree, packages: set<Package>)
    requires BuildStep(t0, t1, packages) && NoDirLinks(t0, packages)
    ensures NoDirLinks(t1, packages)
  {
    forall g | g in packages ensures !HasDirLink(t1, g) {
      assert forall l :: Under(l, g.build) ==> BuildStepAt(t0, t1, g, l);
    }
  }

  // Cleaning.

  lemma {:induction false} CleanStep(t0: Tree, t1: Tree, packages: set<Package>, gone: set<Path>)
    requires OnlyRemoved(t0, t1, gone)
    ensures BuildStep(t0, t1, packages)
  {}

  /** Without a link to a directory nothing that belongs to others is swept. */
  lemma {:induction false} NotSwept(t0: Tree, g: Package, claims: Claims, packages: set<Package>, p: Path)
    requires g in packages && BuildsClaimed(t0, packages, claims) && !HasDirLink(t0, g)
    requires claims(p) != Some(g) && !Under(p, g.build)
    ensures p !in Gone(g, Swept(t0, g))
  {
    forall m | m in Swept(t0, g) && Under(m, g.build) ensures NamedBy(g, m) != p {
      assert ClaimedAt(t0, g, claims, m);
    }
  }

  lemma {:induction false} CleanKeepsOthers(t0: Tree, t1: Tree, g: Package, claims: Claims, packages: set<Package>, owners: Owners)
    requires g in packages && BuildsClaimed(t0, packages, claims) && !HasDirLink(t0, g)
    requires OnlyRemoved(t0, t1, Gone(g, Swept(t0, g)))
    ensures OthersKept(t0, owners, t1, owners, g, claims)
  {
    forall p | claims(p) != Some(g) && !Under(p, g.build) ensures KeptAt(t0, owners, t1, owners, p) {
      NotSwept(t0, g, claims, packages, p);
    }
  }

  /** Exactly what a completed clean takes from others: the outputs that links to directories name. */
  lemma {:induction false} OthersLoseIff(t0: Tree, t1: Tree, g: Package, claims: Claims, packages: set<Package>, p: Path)
    requires g in packages && BuildsClaimed(t0, packages, claims)
    requires Cleaned(t0, t1, Gone(g, Swept(t0, g)))
    requires claims(p) != Some(g) && !Under(p, g.build)
    ensures At(t1, p) != At(t0, p) <==>
            Present(t0, p) && exists l :: DirLinkTo(t0, g, l, p)
  {
    assert At(t1, p) == if p in Gone(g, Swept(t0, g)) then None else At(t0, p);
    if p in Gone(g, Swept(t0, g)) {
      var m :| m in Swept(t0, g) && Under(m, g.build) && NamedBy(g, m) == p;
      assert ClaimedAt(t0, g, claims, m);
      assert DirLinkTo(t0, g, m, p);
    }
    if l :| DirLinkTo(t0, g, l, p) {
      assert l in Swept(t0, g);
      assert NamedBy(g, l) in Gone(g, Swept(t0, g));
    }
  }

  predicate DirLinkTo(t: Tree, g: Package, l: Path, p: Path) {
    l in t && Under(l, g.build) && t[l].Link? && t[l].toDir && NamedBy(g, l) == p
  }

  // Copying.

  lemma {:induction false} CopyStepAt(t0: Tree, t1: Tree, g: Package, h: Package, moved: set<Path>, p: Path)
    requires CopiedAt(t0, t1, g, moved, p) && moved <= Artifacts(t0, g) && Under(p, h.build)
    requires !Nested(h.build, g.output) && !Nested(g.build, g.output) && (g != h ==> !Nested(g.build, h.build))
    ensures BuildStepAt(t0, t1, h, p)
  {
    if Under(p, g.output) { SeparateTops(p, h.build, g.output); }
    if IsMarkerName(p) && Unmark(p) in moved {
      SeparateBelow(p, g);
      if g != h { SeparateTops(p, g.build, h.build); }
    }
  }

  lemma {:induction false} CopyStep(t0: Tree, t1: Tree, g: Package, packages: set<Package>, moved: set<Path>)
    requires Separate(packages) && g in packages && Copied(t0, t1, g, moved) && moved <= Artifacts(t0, g)
    ensures BuildStep(t0, t1, packages)
  {
    forall h, p | h in packages && Under(p, h.build) ensures BuildStepAt(t0, t1, h, p) {
      assert CopiedAt(t0, t1, g, moved, p);
      CopyStepAt(t0, t1, g, h, moved, p);
    }
  }

  /** One more marker, after a copy that was cut off. */
  lemma {:induction false} MarkStep(t0: Tree, t1: Tree, t2: Tree, g: Package, packages: set<Package>, a: Path)
    requires Separate(packages) && g in packages && BuildStep(t0, t1, packages)
    requires IsArtifact(t0, g, a) && MarkedOnly(t1, t2, a)
    ensures BuildStep(t0, t2, packages)
  {
    UnderMarker(a, g.build);
    UnmarkAdd(a);
    forall h, p | h in packages && Under(p, h.build) ensures BuildStepAt(t0, t2, h, p) {
      assert BuildStepAt(t0, t1, h, p);
      if p == AddMarker(a) && g != h { SeparateTops(p, g.build, h.build); }
    }
  }

  lemma {:induction false} CopyKeepsAt(t0: Tree, t1: Tree, owners0: Owners, owners: Owners, g: Package, moved: set<Path>,
                                       claims: Claims, p: Path)
    requires CopiedAt(t0, t1, g, moved, p) && OwnedAt(owners0, owners, g, moved, p)
    requires !Nested(g.build, g.output)
    requires forall a :: a in moved ==> Under(a, g.build) && claims(OutputOf(g, a)) == Some(g)
    requires claims(p) != Some(g) && !Under(p, g.build)
    ensures KeptAt(t0, owners0, t1, owners, p)
  {
    if Under(p, g.output) { RebaseBack(p, g.output, g.build); }
    SeparateBelow(p, g);
  }

  lemma {:induction false} MovedClaimed(t0: Tree, g: Package, packages: set<Package>, claims: Claims, moved: set<Path>)
    requires g in packages && BuildsClaimed(t0, packages, claims) && moved <= Artifacts(t0, g)
    ensures forall a :: a in moved ==> Under(a, g.build) && claims(OutputOf(g, a)) == Some(g)
  {
    forall a | a in moved ensures Under(a, g.build) && claims(OutputOf(g, a)) == Some(g) {
      assert IsArtifact(t0, g, a);
      assert ClaimedAt(t0, g, claims, a);
    }
  }

  lemma {:induction false} CopyKeepsOthers(t0: Tree, t1: Tree, t2: Tree, owners0: Owners, owners: Owners, g: Package,
                                           packages: set<Package>, moved: set<Path>, claims: Claims, a: Path)
    requires Separate(packages) && g in packages && BuildsClaimed(t0, packages, claims)
    requires moved <= Artifacts(t0, g) && Copied(t0, t1, g, moved) && Owned(owners0, owners, g, moved)
    requires t2 == t1 || (IsArtifact(t0, g, a) && MarkedOnly(t1, t2, a))
    ensures OthersKept(t0, owners0, t2, owners, g, claims)
  {
    MovedClaimed(t0, g, packages, claims, moved);
    forall p | claims(p) != Some(g) && !Under(p, g.build) ensures KeptAt(t0, owners0, t2, owners, p) {
      assert CopiedAt(t0, t1, g, moved, p) && OwnedAt(owners0, owners, g, moved, p);
      CopyKeepsAt(t0, t1, owners0, owners, g, moved, claims, p);
      if t2 != t1 { UnderMarker(a, g.build); }
    }
  }

  lemma {:induction false} CopyOwners(t0: Tree, owners0: Owners, owners: Owners, g: Package, packages: set<Package>,
                                      moved: set<Path>, claims: Claims)
    requires g in packages && BuildsClaimed(t0, packages, claims) && OwnersClaimed(owners0, claims)
    requires moved <= Artifacts(t0, g) && Owned(owners0, owners, g, moved)
    ensures OwnersClaimed(owners, claims)
  {
    MovedClaimed(t0, g, packages, claims, moved);
    forall o | o in owners ensures claims(o) == Some(owners[o]) {
      assert OwnedAt(owners0, owners, g, moved, o);
      if Under(o, g.output) { RebaseBack(o, g.output, g.build); }
    }
  }

  // Histories.

  /** One step of some build: the clean at its start, the container delivering artifacts, or the copy
      at its end; `fuel` is how many file operations it gets before it dies. */
  datatype Job =
    | Clean(g: Package, fuel: nat)
    | Deliver(g: Package, artifacts: Tree)
    | Copy(g: Package, fuel: nat)

  /** Artifacts land in the build directory of their package, do not look like markers, and will go to
      outputs of that package. */
  predicate Deliverable(t: Tree, g: Package, artifacts: Tree, claims: Claims) {
    && WellFormed(t + artifacts)
    && (forall p :: p in artifacts ==>
          Under(p, g.build) && !IsMarkerName(p) && (!artifacts[p].Dir? ==> claims(OutputOf(g, p)) == Some(g)))
  }

  lemma {:induction false} TrackedDeliver(t: Tree, owners: Owners, packages: set<Package>, g: Package, artifacts: Tree)
    requires Separate(packages) && Tracked(t, owners, packages) && g in packages
    requires forall p :: p in artifacts ==> Under(p, g.build) && !IsMarkerName(p)
    ensures Tracked(t + artifacts, owners, packages)
  {
    var t' := t + artifacts;
    forall o | o in owners && Present(t', o)
      ensures At(t', MarkerOf(o, owners[o])) != None && t'[MarkerOf(o, owners[o])].File?
    {
      if o in artifacts { SeparateTops(o, g.build, owners[o].output); }
      assert Present(t, o);
      MarkerNames(o, owners[o]);
      assert MarkerOf(o, owners[o]) !in artifacts;
    }
  }

  lemma {:induction false} DeliverClaims(t: Tree, packages: set<Package>, g: Package, artifacts: Tree, claims: Claims)
    requires Separate(packages) && g in packages && Deliverable(t, g, artifacts, claims)
    requires BuildsClaimed(t, packages, claims)
    ensures BuildsClaimed(t + artifacts, packages, claims)
  {
    forall h, p | h in packages && Under(p, h.build) ensures ClaimedAt(t + artifacts, h, claims, p) {
      assert ClaimedAt(t, h, claims, p);
      if p in artifacts && g != h { SeparateTops(p, g.build, h.build); }
    }
  }

  predicate NoDirLinkIn(artifacts: Tree) {
    forall p :: p in artifacts && artifacts[p].Link? ==> !artifacts[p].toDir
  }

  lemma {:induction false} DeliverLinks(t: Tree, packages: set<Package>, artifacts: Tree)
    requires NoDirLinks(t, packages) && NoDirLinkIn(artifacts)
    ensures NoDirLinks(t + artifacts, packages)
  {
    forall g | g in packages ensures !HasDirLink(t + artifacts, g) {
      if l :| l in t + artifacts && Under(l, g.build) && (t + artifacts)[l].Link? && (t + artifacts)[l].toDir {
        assert HasDirLink(t, g);
      }
    }
  }

  /** Nothing that `g` placed is left. */
  ghost predicate Spotless(t: Tree, owners: Owners, g: Package) {
    forall o :: o in owners && owners[o] == g ==> !Present(t, o)
  }

  /** What every job of a history finds and leaves. */
  ghost predicate Consistent(d: Disk, claims: Claims)
    reads d
  {
    d.Valid() && Claimed(d.nodes, d.owners, d.packages, claims)
  }

  /** Outputs that another package placed are among what is kept. */
  lemma {:induction false} OthersOutputsKept(t0: Tree, t: Tree, owners: Owners, packages: set<Package>, g: Package,
                                             claims: Claims, o: Path)
    requires Separate(packages) && Tracked(t0, owners, packages) && g in packages && OwnersClaimed(owners, claims)
    requires OthersKept(t0, owners, t, owners, g, claims) && o in owners && owners[o] != g
    ensures At(t, o) == At(t0, o)
  {
    if Under(o, g.build) { SeparateTops(o, g.build, owners[o].output); }
    assert KeptAt(t0, owners, t, owners, o);
  }

  /** The clean at the start of a build. */
  method RunClean(d: Disk, g: Package, fuel: nat, ghost claims: Claims) returns (ok: bool)
    requires Consistent(d, claims) && g in d.packages
    modifies d
    ensures Consistent(d, claims)
    ensures ok ==> Spotless(d.nodes, d.owners, g)
    ensures !HasDirLink(old(d.nodes), g) ==>
      && OthersKept(old(d.nodes), old(d.owners), d.nodes, d.owners, g, claims)
      && (forall o :: o in d.owners && d.owners[o] != g ==> At(d.nodes, o) == At(old(d.nodes), o))
    ensures NoDirLinks(old(d.nodes), d.packages) ==> NoDirLinks(d.nodes, d.packages)
  {
    d.fuel := fuel;
    ghost var t0 := d.nodes;
    ok := CleanBuildFiles(d, g);
    ghost var gone := Gone(g, Swept(t0, g));
    CleanStep(t0, d.nodes, d.packages, gone);
    StepKeepsClaims(t0, d.nodes, d.packages, claims);
    if !HasDirLink(t0, g) {
      CleanKeepsOthers(t0, d.nodes, g, claims, d.packages, d.owners);
      forall o | o in d.owners && d.owners[o] != g ensures At(d.nodes, o) == At(t0, o) {
        OthersOutputsKept(t0, d.nodes, d.owners, d.packages, g, claims, o);
      }
    }
    if NoDirLinks(t0, d.packages) { StepAddsNoLink(t0, d.nodes, d.packages); }
    if ok {
      forall o | o in d.owners && d.owners[o] == g ensures !Present(d.nodes, o) {
        NothingLeft(t0, d.nodes, d.owners, d.packages, g, o);
      }
    }
  }

  /** The copy at its end. */
  method RunCopy(d: Disk, g: Package, fuel: nat, ghost claims: Claims) returns (ok: bool)
    requires Consistent(d, claims) && g in d.packages && NoMarkerLinks(d.nodes, g)
    modifies d
    ensures Consistent(d, claims)
    ensures OthersKept(old(d.nodes), old(d.owners), d.nodes, d.owners, g, claims)
    ensures NoDirLinks(old(d.nodes), d.packages) ==> NoDirLinks(d.nodes, d.packages)
  {
    d.fuel := fuel;
    ghost var t0, owners0 := d.nodes, d.owners;
    ghost var moved;
    ok, moved := CopyBuildFiles(d, g);
    ghost var t1, a: Path := d.nodes, [];
    if !ok {
      t1, a :| a in Artifacts(t0, g) - moved && Copied(t0, t1, g, moved) && MarkedOnly(t1, d.nodes, a);
    }
    CopyStep(t0, t1, g, d.packages, moved);
    if !ok { MarkStep(t0, t1, d.nodes, g, d.packages, a); }
    StepKeepsClaims(t0, d.nodes, d.packages, claims);
    CopyOwners(t0, owners0, d.owners, g, d.packages, moved, claims);
    CopyKeepsOthers(t0, t1, d.nodes, owners0, d.owners, g, d.packages, moved, claims, a);
    if NoDirLinks(t0, d.packages) { StepAddsNoLink(t0, d.nodes, d.packages); }
  }

  /** The container delivers artifacts. */
  method Receive(d: Disk, g: Package, artifacts: Tree, ghost claims: Claims)
    requires Consistent(d, claims) && g in d.packages && Deliverable(d.nodes, g, artifacts, claims)
    modifies d`nodes
    ensures Consistent(d, claims)
    ensures d.nodes == old(d.nodes) + artifacts
    ensures OthersKept(old(d.nodes), d.owners, d.nodes, d.owners, g, claims)
    ensures NoDirLinks(old(d.nodes), d.packages) && NoDirLinkIn(artifacts) ==> NoDirLinks(d.nodes, d.packages)
  {
    TrackedDeliver(d.nodes, d.owners, d.packages, g, artifacts);
    DeliverClaims(d.nodes, d.packages, g, artifacts, claims);
    if NoDirLinks(d.nodes, d.packages) && NoDirLinkIn(artifacts) { DeliverLinks(d.nodes, d.packages, artifacts); }
    d.nodes := d.nodes + artifacts;
  }

  /** A job that a history may contain. */
  predicate Allowed(d: Disk, job: Job, claims: Claims)
    reads d
  {
    && job.g in d.packages
    && (job.Deliver? ==> Deliverable(d.nodes, job.g, job.artifacts, claims))
    && (job.Copy? ==> NoMarkerLinks(d.nodes, job.g))
  }

  /** Run a job if it is allowed. */
  method RunJob(d: Disk, job: Job, claims: Claims) returns (ok: bool)
    requires Consistent(d, claims)
    modifies d
    ensures Consistent(d, claims)
    ensures job.g !in d.packages ==> !ok && d.nodes == old(d.nodes) && d.owners == old(d.owners)
    ensures ok && job.Clean? ==> Spotless(d.nodes, d.owners, job.g)
    ensures (job.Clean? ==> !HasDirLink(old(d.nodes), job.g)) ==>
      OthersKept(old(d.nodes), old(d.owners), d.nodes, d.owners, job.g, claims)
    ensures NoDirLinks(old(d.nodes), d.packages) && (job.Deliver? ==> NoDirLinkIn(job.artifacts)) ==>
      NoDirLinks(d.nodes, d.packages)
  {
    if !Allowed(d, job, claims) { return false; }
    match job
    case Clean(g, fuel) => ok := RunClean(d, g, fuel, claims);
    case Deliver(g, artifacts) =>
      Receive(d, g, artifacts, claims);
      ok := true;
    case Copy(g, fuel) => ok := RunCopy(d, g, fuel, claims);
  }

  /** No build directory holds a link to a directory, and none is delivered. */
  predicate Tame(t: Tree, packages: set<Package>, jobs: seq<Job>) {
    NoDirLinks(t, packages) && forall i :: 0 <= i < |jobs| && jobs[i].Deliver? ==> NoDirLinkIn(jobs[i].artifacts)
  }

  /** The outputs that `h` claims are as they were. */
  ghost predicate OutputsKept(t0: Tree, owners0: Owners, t: Tree, owners: Owners, h: Package, claims: Claims) {
    forall o :: Under(o, h.output) && claims(o) == Some(h) ==> KeptAt(t0, owners0, t, owners, o)
  }

  lemma {:induction false} OutputsStay(t0: Tree, owners0: Owners, t1: Tree, owners1: Owners, t2: Tree, owners2: Owners,
                                       g: Package, h: Package, claims: Claims)
    requires g != h && !Nested(g.build, h.output)
    requires OutputsKept(t0, owners0, t1, owners1, h, claims) && OthersKept(t1, owners1, t2, owners2, g, claims)
    ensures OutputsKept(t0, owners0, t2, owners2, h, claims)
  {
    forall o | Under(o, h.output) && claims(o) == Some(h) ensures KeptAt(t0, owners0, t2, owners2, o) {
      assert KeptAt(t0, owners0, t1, owners1, o);
      if Under(o, g.build) { SeparateTops(o, g.build, h.output); }
      assert KeptAt(t1, owners1, t2, owners2, o);
    }
  }

  predicate NoJobOf(jobs: seq<Job>, h: Package) {
    forall i :: 0 <= i < |jobs| ==> jobs[i].g != h
  }

  /** Crash consistency and isolation.  Whatever jobs run, in any order, for any packages, each cut off at
      any file operation: every output a build placed and that is still there has its marker (`Valid`),
      and what a marker names belongs to the package of the marker. */
  method RunHistory(d: Disk, jobs: seq<Job>, claims: Claims) returns (completed: bool)
    requires Consistent(d, claims)
    modifies d
    ensures Consistent(d, claims)
    // If the last job is a completed clean, nothing its package placed in any earlier job is left.
    ensures jobs != [] && jobs[|jobs| - 1].Clean? && completed ==>
      Spotless(d.nodes, d.owners, jobs[|jobs| - 1].g)
    // Without links to directories a package's outputs survive whatever the others do.
    ensures old(Tame(d.nodes, d.packages, jobs)) ==>
      forall h :: h in d.packages && NoJobOf(jobs, h) ==>
        OutputsKept(old(d.nodes), old(d.owners), d.nodes, d.owners, h, claims)
  {
    completed := true;
    ghost var t0, owners0, tame := d.nodes, d.owners, Tame(d.nodes, d.packages, jobs);
    for i := 0 to |jobs|
      invariant Consistent(d, claims)
      invariant i > 0 && jobs[i - 1].Clean? && completed ==> Spotless(d.nodes, d.owners, jobs[i - 1].g)
      invariant tame ==> NoDirLinks(d.nodes, d.packages)
      invariant tame ==> forall h :: h in d.packages && NoJobOf(jobs, h) ==>
        OutputsKept(t0, owners0, d.nodes, d.owners, h, claims)
    {
      ghost var t1, owners1 := d.nodes, d.owners;
      completed := RunJob(d, jobs[i], claims);
      forall h | tame && h in d.packages && NoJobOf(jobs, h)
        ensures OutputsKept(t0, owners0, d.nodes, d.owners, h, claims)
      {
        if jobs[i].g in d.packages {
          OutputsStay(t0, owners0, t1, owners1, d.nodes, d.owners, jobs[i].g, h, claims);
        }
      }
    }
  }
}
