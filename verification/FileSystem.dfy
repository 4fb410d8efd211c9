/** A file system that can stop working at any operation. */
module FileSystem {
  import opened Prelude
  import opened Paths

  datatype Node =
    | Dir
    | File(content: string)
    | Link(target: string, toDir: bool)   // `toDir`: following the link ends at a directory

  type Tree = map<Path, Node>

  /** Something other than a directory is at `p`. */
  predicate Present(t: Tree, p: Path) {
    p in t && !t[p].Dir?
  }

  /** The file or link at `p`, if there is one. */
  function At(t: Tree, p: Path): Option<Node> {
    if Present(t, p) then Some(t[p]) else None
  }

  predicate HasDir(t: Tree, p: Path) {
    p in t && t[p].Dir?
  }

  predicate LinkAt(t: Tree, p: Path) {
    p in t && t[p].Link?
  }

  predicate LinkToDir(t: Tree, p: Path) {
    p in t && t[p].Link? && t[p].toDir
  }

  /** `is_empty_dir`. */
  predicate EmptyDir(t: Tree, p: Path) {
    HasDir(t, p) && forall q :: q in t && q != [] ==> Parent(q) != p
  }

  /** Everything sits in a directory and has a name. */
  predicate WellFormed(t: Tree) {
    && HasDir(t, [])
    && (forall p {:trigger Parent(p)} :: p in t && p != [] ==> HasDir(t, Parent(p)))
    && (forall p {:trigger Leaf(p)} :: p in t && p != [] ==> Leaf(p) != "")
  }

  lemma {:induction false} AncestorIsDir(t: Tree, p: Path, top: Path)
    requires WellFormed(t) && p in t && Under(p, top)
    ensures HasDir(t, top)
    decreases |p|
  {
    if Parent(p) != top {
      assert Parent(p)[..|top|] == p[..|top|];
      AncestorIsDir(t, Parent(p), top);
    }
  }

  lemma {:induction false} AllNamed(t: Tree, p: Path)
    requires WellFormed(t) && p in t
    ensures Named(p)
    decreases |p|
  {
    if p != [] {
      AllNamed(t, Parent(p));
      assert Leaf(p) != "";
    }
  }

  /** A package being built: where its artifacts land first and where they are moved to. */
  datatype Package = Package(build: Path, output: Path)

  predicate Named(p: Path) {
    forall i :: 0 <= i < |p| ==> p[i] != ""
  }

  /** No build directory contains another one or an output directory, or lies in one. */
  ghost predicate Separate(packages: set<Package>) {
    && (forall g :: g in packages ==> Named(g.output))
    && (forall g, h :: g in packages && h in packages && g != h ==> !Nested(g.build, h.build))
    && (forall g, h :: g in packages && h in packages ==> !Nested(g.build, h.output))
  }

  function MarkerOf(o: Path, g: Package): (m: Path)
    requires Under(o, g.output)
    ensures Under(m, g.build)
  {
    var p := Rebase(o, g.output, g.build);
    assert Parent(p)[..|g.build|] == g.build;
    AddMarker(p)
  }

  /** Who moved the file that is now at an output path; the markers must keep up with this. */
  type Owners = map<Path, Package>

  /** Every output that a build has placed and that is still there has its marker in that package's
      build directory. */
  ghost predicate Tracked(t: Tree, owners: Owners, packages: set<Package>) {
    forall o :: o in owners ==>
      && owners[o] in packages
      && Under(o, owners[o].output)
      && Leaf(o) != ""
      && (Present(t, o) ==> At(t, MarkerOf(o, owners[o])) != None && t[MarkerOf(o, owners[o])].File?)
  }

  lemma {:induction false} MovedWellFormed(t: Tree, from: Path, to: Path)
    requires WellFormed(t) && Present(t, from) && to != [] && Leaf(to) != ""
    requires HasDir(t, Parent(to)) && !HasDir(t, to)
    ensures WellFormed((t - {from})[to := t[from]])
  {
    var t' := (t - {from})[to := t[from]];
    forall p | p in t' && p != [] ensures HasDir(t', Parent(p)) && Leaf(p) != "" {
      assert HasDir(t, Parent(p));
    }
  }

  /** Each operation first uses up one unit of `fuel`; at zero it fails, which stands for an I/O
      error there or for the process being killed in front of it. */
  class Disk {
    var nodes: Tree
    var fuel: nat
    ghost var owners: Owners
    const packages: set<Package>

    constructor (nodes: Tree, packages: set<Package>)
      requires WellFormed(nodes) && Separate(packages)
      ensures this.nodes == nodes && this.packages == packages && owners == map[] && Valid()
    {
      this.nodes, fuel := nodes, 0;
      this.packages, owners := packages, map[];
    }

    ghost predicate Valid()
      reads this
    {
      Separate(packages) && WellFormed(nodes) && Tracked(nodes, owners, packages)
    }

    method Tick() returns (alive: bool)
      modifies this`fuel
      ensures alive == (old(fuel) > 0) && fuel == if alive then old(fuel) - 1 else 0
    {
      alive := fuel > 0;
      if alive { fuel := fuel - 1; }
    }

    /** `File::create`: an empty file.  A link is written through, so the link itself stays; one to a
        directory cannot be. */
    method CreateFile(p: Path) returns (ok: bool)
      requires p != [] && Leaf(p) != "" && WellFormed(nodes)
      modifies this`nodes, this`fuel
      ensures WellFormed(nodes)
      ensures fuel == if old(fuel) > 0 then old(fuel) - 1 else 0
      ensures ok <==> old(fuel) > 0 && HasDir(old(nodes), Parent(p)) && !HasDir(old(nodes), p) && !LinkToDir(old(nodes), p)
      ensures nodes == if ok && !LinkAt(old(nodes), p) then old(nodes)[p := File("")] else old(nodes)
    {
      ok := Tick();
      ok := ok && HasDir(nodes, Parent(p)) && !HasDir(nodes, p);
      if LinkAt(nodes, p) {
        ok := ok && !nodes[p].toDir;
      } else if ok {
        nodes := nodes[p := File("")];
      }
    }

    /** One level of `create_dir_all`. */
    method MakeDir(p: Path) returns (ok: bool)
      requires WellFormed(nodes)
      requires p != [] ==> Leaf(p) != ""
      modifies this`nodes, this`fuel
      ensures WellFormed(nodes)
      ensures fuel == if old(fuel) > 0 then old(fuel) - 1 else 0
      ensures ok <==> old(fuel) > 0 && if p in old(nodes) then old(nodes)[p].Dir? else HasDir(old(nodes), Parent(p))
      ensures nodes == if ok && p !in old(nodes) then old(nodes)[p := Dir] else old(nodes)
      ensures ok ==> HasDir(nodes, p)
    {
      ok := Tick();
      if ok && p in nodes {
        ok := nodes[p].Dir?;
      } else if ok {
        ok := p != [] && HasDir(nodes, Parent(p));
        if ok { nodes := nodes[p := Dir]; }
      }
    }

    /** `fs::rename` of a file or link over nothing or another file or link, on behalf of `g`. */
    method Rename(from: Path, to: Path, ghost g: Package) returns (ok: bool)
      requires from != to && Present(nodes, from) && to != [] && Leaf(to) != "" && WellFormed(nodes)
      modifies this
      ensures WellFormed(nodes)
      ensures nodes == if ok then (old(nodes) - {from})[to := old(nodes)[from]] else old(nodes)
      ensures fuel == if old(fuel) > 0 then old(fuel) - 1 else 0
      ensures ok <==> old(fuel) > 0 && HasDir(old(nodes), Parent(to)) && !HasDir(old(nodes), to)
      ensures owners == if ok then old(owners)[to := g] else old(owners)
    {
      ok := Tick();
      ok := ok && HasDir(nodes, Parent(to)) && !HasDir(nodes, to);
      if ok {
        MovedWellFormed(nodes, from, to);
        var node := nodes[from];
        nodes := (nodes - {from})[to := node];
        owners := owners[to := g];
      }
    }

    /** `fs::remove_file`. */
    method RemoveFile(p: Path) returns (ok: bool)
      requires WellFormed(nodes)
      modifies this`nodes, this`fuel
      ensures WellFormed(nodes)
      ensures fuel == if old(fuel) > 0 then old(fuel) - 1 else 0
      ensures ok <==> old(fuel) > 0 && Present(old(nodes), p)
      ensures nodes == if ok then old(nodes) - {p} else old(nodes)
    {
      ok := Tick();
      ok := ok && Present(nodes, p);
      if ok { nodes := nodes - {p}; }
    }

    /** `fs::remove_dir`. */
    method RemoveDir(p: Path) returns (ok: bool)
      requires WellFormed(nodes) && p != []
      modifies this`nodes, this`fuel
      ensures WellFormed(nodes)
      ensures fuel == if old(fuel) > 0 then old(fuel) - 1 else 0
      ensures ok <==> old(fuel) > 0 && EmptyDir(old(nodes), p)
      ensures nodes == if ok then old(nodes) - {p} else old(nodes)
    {
      ok := Tick();
      ok := ok && EmptyDir(nodes, p);
      if ok { nodes := nodes - {p}; }
    }
  }
}
