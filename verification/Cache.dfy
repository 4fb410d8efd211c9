/** The lookaside cache: fetching external files so that only verified content gets its final name. */
module Cache {
  import opened Prelude

  /** A path as written in the manifest, with its number of components. */
  datatype Name = Name(text: string, components: nat)

  /** `urlName` is the last segment of the URL, if it has one. */
  datatype ExternalFile = ExternalFile(urlName: Option<Name>, path: Option<Name>, sha512: string)

  /** What a download does: nothing arrives, an error status, or a body that is cut off or complete. */
  datatype Download = Unreachable | BadStatus | Partial(body: string) | Complete(body: string)

  /** The name a file ends up under, if the manifest entry is acceptable. */
  function Final(f: ExternalFile): Option<string> {
    if f.urlName.None? then None
    else
      var name := if f.path.Some? then f.path.value else f.urlName.value;
      if name.components == 1 then Some(name.text) else None
  }

  function Tmp(name: string): string { "." + name }

  type Files = map<string, string>

  /** The build directory and its surroundings: each file operation may fail, and each download gives
      whatever the server decides. */
  class Workspace {
    var files: Files
    var operations: nat
    var downloads: nat
    const works: nat -> bool
    const server: nat -> Download
    const digest: string -> string
    const versionSet: bool   // `BUILDSYS_VERSION_FULL`

    constructor (files: Files, works: nat -> bool, server: nat -> Download, digest: string -> string, versionSet: bool)
      ensures this.files == files && this.works == works && this.server == server
      ensures this.digest == digest && this.versionSet == versionSet
    {
      this.files, operations, downloads := files, 0, 0;
      this.works, this.server, this.digest, this.versionSet := works, server, digest, versionSet;
    }

    /** Nothing but the downloads can go wrong. */
    ghost predicate Smooth()
      reads this
    {
      versionSet && forall n: nat :: works(n)
    }

    method Try() returns (ok: bool)
      modifies this`operations
      ensures ok == works(old(operations))
    {
      ok := works(operations);
      operations := operations + 1;
    }

    method Remove(p: string) returns (ok: bool)
      modifies this`operations, this`files
      ensures Smooth() && p in old(files) ==> ok
      ensures files == if ok then old(files) - {p} else old(files)
    {
      ok := Try();
      ok := ok && p in files;
      if ok { files := files - {p}; }
    }

    method Rename(from: string, to: string) returns (ok: bool)
      modifies this`operations, this`files
      ensures ok ==> from in old(files)
      ensures Smooth() && from in old(files) ==> ok
      ensures files == if ok then (old(files) - {from})[to := old(files)[from]] else old(files)
    {
      ok := Try();
      ok := ok && from in files;
      if ok {
        var content := files[from];
        files := (files - {from})[to := content];
      }
    }

    /** `verify_file`. */
    method VerifyFile(p: string, hash: string) returns (ok: bool)
      modifies this`operations
      ensures ok ==> p in files && digest(files[p]) == hash
      ensures Smooth() && p in files && digest(files[p]) == hash ==> ok
    {
      ok := Try();
      if !ok || p !in files { return false; }
      ok := Try();
      ok := ok && digest(files[p]) == hash;
    }

    /** `fetch_file`: only `p` changes, and success means it holds verified content. */
    method FetchFile(p: string, hash: string) returns (ok: bool)
      modifies this
      ensures files - {p} == old(files) - {p}
      ensures ok ==> p in files && digest(files[p]) == hash
      ensures Smooth() ==>
        && downloads == old(downloads) + 1
        && files == AfterFetch(old(files), p, hash, server(old(downloads)), digest)
        && ok == Delivers(server(old(downloads)), hash, digest)
    {
      if !versionSet { return false; }
      var download := server(downloads);
      downloads := downloads + 1;
      if download.Unreachable? || download.BadStatus? { return false; }
      ok := Try();
      if !ok { return false; }
      files := files[p := ""];
      assert files - {p} == old(files) - {p};
      ok := Try();
      if !ok { return false; }
      files := files[p := download.body];
      assert files == old(files)[p := download.body];
      assert files - {p} == old(files) - {p};
      if download.Partial? { return false; }
      ok := VerifyFile(p, hash);
      if !ok {
        var removed := Remove(p);
        assert removed ==> files == old(files) - {p};
      }
    }
  }

  /** The reply brings exactly the content asked for. */
  predicate Delivers(reply: Download, hash: string, digest: string -> string) {
    reply.Complete? && digest(reply.body) == hash
  }

  /** What `fetch_file` leaves when only the download can go wrong. */
  function AfterFetch(files: Files, p: string, hash: string, reply: Download, digest: string -> string): Files {
    match reply
    case Partial(body) => files[p := body]
    case Complete(body) => if digest(body) == hash then files[p := body] else files - {p}
    case _ => files
  }

  // What the fetch keeps.

  predicate Verified(files: Files, f: ExternalFile, digest: string -> string) {
    Final(f).Some? && Final(f).value in files && digest(files[Final(f).value]) == f.sha512
  }

  /** Under no final name is there content that was put there without matching its hash. */
  ghost predicate NothingBad(files0: Files, files: Files, list: seq<ExternalFile>, digest: string -> string) {
    forall i :: 0 <= i < |list| ==> NotBad(files0, files, list[i], digest)
  }

  predicate NotBad(files0: Files, files: Files, f: ExternalFile, digest: string -> string) {
    Final(f).Some? && Final(f).value in files ==>
      || digest(files[Final(f).value]) == f.sha512
      || (Final(f).value in files0 && files[Final(f).value] == files0[Final(f).value])
  }

  /** Final names differ, and none is the temporary name of another. */
  ghost predicate Distinct(list: seq<ExternalFile>) {
    forall i, j {:trigger Apart(list[i], list[j])} ::
      0 <= i < |list| && 0 <= j < |list| && i != j ==> Apart(list[i], list[j])
  }

  predicate Apart(f: ExternalFile, g: ExternalFile) {
    Final(f).Some? && Final(g).Some? ==>
      Final(f).value != Final(g).value && Final(f).value != Tmp(Final(g).value)
  }

  /** After its turn an entry is absent or verified, and with the fallback it is verified. */
  predicate Settled(files: Files, f: ExternalFile, digest: string -> string, fallback: bool) {
    && Final(f).Some?
    && (Verified(files, f, digest) || (!fallback && Final(f).value !in files))
  }

  /** The two file maps agree on a name. */
  predicate SameAt(a: Files, b: Files, p: string) {
    (p in a <==> p in b) && (p in a ==> a[p] == b[p])
  }

  /** They agree except for one name and its temporary name. */
  predicate SameElsewhere(a: Files, b: Files, path: string) {
    a - {path, Tmp(path)} == b - {path, Tmp(path)}
  }

  lemma {:induction false} SameThere(a: Files, b: Files, path: string, q: string)
    requires SameElsewhere(a, b, path) && q != path && q != Tmp(path)
    ensures SameAt(a, b, q)
  {
    assert q in a <==> q in a - {path, Tmp(path)};
    assert q in b <==> q in b - {path, Tmp(path)};
    assert q in a ==> (a - {path, Tmp(path)})[q] == a[q] && (b - {path, Tmp(path)})[q] == b[q];
  }

  /** The file is there already with the right content. */
  predicate InPlace(files: Files, f: ExternalFile, digest: string -> string)
    requires Final(f).Some?
  {
    Final(f).value in files && digest(files[Final(f).value]) == f.sha512
  }

  /** What one download without the fallback makes of the files, if only downloads can go wrong. */
  function AfterDownload(files: Files, path: string, hash: string, reply: Download, digest: string -> string): Files {
    match reply
    case Partial(body) => files[Tmp(path) := body]
    case Complete(body) =>
      if digest(body) == hash then (files - {Tmp(path)})[path := body] else files - {Tmp(path)}
    case _ => files
  }

  /** The same for one round. */
  function AfterRound(files: Files, f: ExternalFile, reply: Download, digest: string -> string): Files
    requires Final(f).Some?
  {
    if InPlace(files, f, digest) then files
    else AfterDownload(files - {Final(f).value}, Final(f).value, f.sha512, reply, digest)
  }

  /** The files and the number of downloads so far. */
  datatype Progress = Progress(files: Files, downloads: nat)

  function NextRound(p: Progress, f: ExternalFile, server: nat -> Download, digest: string -> string): Progress
    requires Final(f).Some?
  {
    Progress(AfterRound(p.files, f, server(p.downloads), digest),
             p.downloads + if InPlace(p.files, f, digest) then 0 else 1)
  }

  /** The cache delivers, or else upstream does. */
  predicate Supplied(server: nat -> Download, d: nat, hash: string, digest: string -> string) {
    Delivers(server(d), hash, digest) || Delivers(server(d + 1), hash, digest)
  }

  /** How many downloads a round with the fallback makes. */
  function Tries(files: Files, f: ExternalFile, d: nat, server: nat -> Download, digest: string -> string): nat
    requires Final(f).Some?
  {
    if InPlace(files, f, digest) then 0 else if Delivers(server(d), f.sha512, digest) then 1 else 2
  }

  /** A round when only downloads can go wrong.  Without the fallback a download that brings nothing good is
      no error; with it, the upstream source is the second chance. */
  ghost predicate RoundResult(p: Progress, p': Progress, f: ExternalFile, fallback: bool, ok: bool,
                              server: nat -> Download, digest: string -> string)
    requires Final(f).Some?
  {
    if fallback then
      && (ok <==> InPlace(p.files, f, digest) || Supplied(server, p.downloads, f.sha512, digest))
      && p'.downloads == p.downloads + Tries(p.files, f, p.downloads, server, digest)
    else ok && p' == NextRound(p, f, server, digest)
  }

  /** One round of the loop of `fetch`: only the final and the temporary name of `f` can change. */
  method FetchOne(w: Workspace, f: ExternalFile, fallback: bool) returns (ok: bool)
    modifies w
    ensures Final(f).None? ==> !ok && w.files == old(w.files)
    ensures Final(f).Some? ==>
      && SameElsewhere(old(w.files), w.files, Final(f).value)
      && NotBad(old(w.files), w.files, f, w.digest)
      && (ok ==> Settled(w.files, f, w.digest, fallback))
    ensures Final(f).Some? && w.Smooth() ==>
      RoundResult(Progress(old(w.files), old(w.downloads)), Progress(w.files, w.downloads), f, fallback, ok, w.server, w.digest)
  {
    if Final(f).None? { return false; }
    var path, hash := Final(f).value, f.sha512;
    var tmp := Tmp(path);
    assert |tmp| == |path| + 1;
    if path in w.files {
      var good := w.VerifyFile(path, hash);
      if good { return true; }
      var removed := w.Remove(path);
      if !removed { return false; }
    }
    assert path !in w.files;
    assert w.Smooth() ==> w.files == old(w.files) - {path};
    ok := FetchMissing(w, path, hash, fallback);
  }

  lemma {:induction false} OtherName(a: Files, b: Files, path: string)
    requires a - {Tmp(path)} == b - {Tmp(path)}
    ensures path in a <==> path in b
    ensures SameElsewhere(a, b, path)
  {
    assert |Tmp(path)| == |path| + 1;
    assert path in a <==> path in a - {Tmp(path)};
    assert path in b <==> path in b - {Tmp(path)};
    assert a - {path, Tmp(path)} == (a - {Tmp(path)}) - {path};
    assert b - {path, Tmp(path)} == (b - {Tmp(path)}) - {path};
  }

  /** The part of the round after the old file is out of the way. */
  method FetchMissing(w: Workspace, path: string, hash: string, fallback: bool) returns (ok: bool)
    requires path !in w.files
    modifies w
    ensures SameElsewhere(old(w.files), w.files, path)
    ensures path in w.files ==> w.digest(w.files[path]) == hash
    ensures ok ==> path in w.files || !fallback
    ensures w.Smooth() && !fallback ==>
      && ok && w.downloads == old(w.downloads) + 1
      && w.files == AfterDownload(old(w.files), path, hash, w.server(old(w.downloads)), w.digest)
    ensures w.Smooth() && fallback ==>
      && ok == Supplied(w.server, old(w.downloads), hash, w.digest)
      && w.downloads == old(w.downloads) + if Delivers(w.server(old(w.downloads)), hash, w.digest) then 1 else 2
  {
    var tmp := Tmp(path);
    assert |tmp| == |path| + 1;
    var good := w.FetchFile(tmp, hash);
    OtherName(old(w.files), w.files, path);
    if !good && fallback {
      ghost var files := w.files;
      good := w.FetchFile(tmp, hash);
      OtherName(files, w.files, path);
      if !good { return false; }
    }
    ok := true;
    if good { ok := w.Rename(tmp, path); }
  }

  lemma {:induction false} Untouched(files0: Files, files: Files, files': Files, list: seq<ExternalFile>, i: nat, j: nat,
                  digest: string -> string, fallback: bool)
    requires Distinct(list) && i < |list| && j < |list| && i != j && Final(list[i]).Some?
    requires SameElsewhere(files, files', Final(list[i]).value)
    ensures NotBad(files0, files, list[j], digest) ==> NotBad(files0, files', list[j], digest)
    ensures Settled(files, list[j], digest, fallback) ==> Settled(files', list[j], digest, fallback)
    ensures Final(list[j]).Some? ==> SameAt(files, files', Final(list[j]).value)
  {
    assert Apart(list[j], list[i]);
    if Final(list[j]).Some? { SameThere(files, files', Final(list[i]).value, Final(list[j]).value); }
  }

  // Without the fallback, when only downloads can go wrong.

  predicate AllNamed(list: seq<ExternalFile>) {
    forall i :: 0 <= i < |list| ==> Final(list[i]).Some?
  }

  /** How many of the first `n` entries have to be downloaded. */
  function Needed(files: Files, list: seq<ExternalFile>, n: nat, digest: string -> string): nat
    requires n <= |list| && AllNamed(list)
  {
    if n == 0 then 0 else Needed(files, list, n - 1, digest) + if InPlace(files, list[n - 1], digest) then 0 else 1
  }

  /** The files and the number of downloads after `n` rounds. */
  function AfterRounds(p: Progress, list: seq<ExternalFile>, n: nat, server: nat -> Download, digest: string -> string): Progress
    requires n <= |list| && AllNamed(list)
  {
    if n == 0 then p else NextRound(AfterRounds(p, list, n - 1, server, digest), list[n - 1], server, digest)
  }

  /** A round leaves the name of another entry alone. */
  lemma {:induction false} RoundKeeps(files: Files, p: Progress, f: ExternalFile, g: ExternalFile,
                                      server: nat -> Download, digest: string -> string)
    requires Final(f).Some? && Final(g).Some? && Apart(g, f) && SameAt(files, p.files, Final(g).value)
    ensures SameAt(files, NextRound(p, f, server, digest).files, Final(g).value)
  {}

  /** A round downloads exactly if the entry is not in place. */
  lemma {:induction false} RoundCounts(files: Files, p: Progress, f: ExternalFile, server: nat -> Download, digest: string -> string)
    requires Final(f).Some? && SameAt(files, p.files, Final(f).value)
    ensures NextRound(p, f, server, digest).downloads == p.downloads + if InPlace(files, f, digest) then 0 else 1
  {}

  /** After its turn an entry is there exactly if it was in place or its download delivered. */
  lemma {:induction false} RoundDelivers(files: Files, p: Progress, f: ExternalFile, server: nat -> Download, digest: string -> string)
    requires Final(f).Some? && SameAt(files, p.files, Final(f).value)
    ensures Final(f).value in NextRound(p, f, server, digest).files <==>
            InPlace(files, f, digest) || Delivers(server(p.downloads), f.sha512, digest)
  {
    assert |Tmp(Final(f).value)| == |Final(f).value| + 1;
  }

  /** The rounds before an entry's turn leave its name alone. */
  lemma {:induction false} NameKept(p: Progress, list: seq<ExternalFile>, n: nat, i: nat,
                                    server: nat -> Download, digest: string -> string)
    requires Distinct(list) && AllNamed(list) && n <= i < |list|
    ensures SameAt(p.files, AfterRounds(p, list, n, server, digest).files, Final(list[i]).value)
  {
    if n > 0 {
      NameKept(p, list, n - 1, i, server, digest);
      assert Apart(list[i], list[n - 1]);
      RoundKeeps(p.files, AfterRounds(p, list, n - 1, server, digest), list[n - 1], list[i], server, digest);
    }
  }

  /** They make one download for each entry that needs one. */
  lemma {:induction false} DownloadsMade(p: Progress, list: seq<ExternalFile>, n: nat,
                                         server: nat -> Download, digest: string -> string)
    requires Distinct(list) && AllNamed(list) && n <= |list|
    ensures AfterRounds(p, list, n, server, digest).downloads == p.downloads + Needed(p.files, list, n, digest)
  {
    if n > 0 {
      DownloadsMade(p, list, n - 1, server, digest);
      NameKept(p, list, n - 1, n - 1, server, digest);
      RoundCounts(p.files, AfterRounds(p, list, n - 1, server, digest), list[n - 1], server, digest);
    }
  }

  /** Entry `i` was in place at the start, or the download made for it, the one after those of the
      entries before it, delivered the content. */
  predicate Obtained(p: Progress, list: seq<ExternalFile>, i: nat, server: nat -> Download, digest: string -> string)
    requires i < |list| && AllNamed(list)
  {
    || InPlace(p.files, list[i], digest)
    || Delivers(server(p.downloads + Needed(p.files, list, i, digest)), list[i].sha512, digest)
  }

  lemma {:induction false} PresentAtTurn(p: Progress, list: seq<ExternalFile>, i: nat,
                                         server: nat -> Download, digest: string -> string)
    requires Distinct(list) && AllNamed(list) && i < |list|
    ensures Final(list[i]).value in AfterRounds(p, list, i + 1, server, digest).files <==> Obtained(p, list, i, server, digest)
  {
    var before := AfterRounds(p, list, i, server, digest);
    NameKept(p, list, i, i, server, digest);
    DownloadsMade(p, list, i, server, digest);
    RoundDelivers(p.files, before, list[i], server, digest);
    assert AfterRounds(p, list, i + 1, server, digest) == NextRound(before, list[i], server, digest);
  }

  lemma {:induction false} PresentLater(p: Progress, list: seq<ExternalFile>, n: nat, i: nat,
                                        server: nat -> Download, digest: string -> string)
    requires Distinct(list) && AllNamed(list) && i < n <= |list|
    ensures SameAt(AfterRounds(p, list, i + 1, server, digest).files, AfterRounds(p, list, n, server, digest).files,
                   Final(list[i]).value)
  {
    if i < n - 1 {
      PresentLater(p, list, n - 1, i, server, digest);
      assert Apart(list[i], list[n - 1]);
      RoundKeeps(AfterRounds(p, list, i + 1, server, digest).files, AfterRounds(p, list, n - 1, server, digest),
                 list[n - 1], list[i], server, digest);
    }
  }

  /** After all rounds exactly the entries obtained are there. */
  lemma {:induction false} PresentIff(p: Progress, list: seq<ExternalFile>, i: nat,
                                      server: nat -> Download, digest: string -> string)
    requires Distinct(list) && AllNamed(list) && i < |list|
    ensures Final(list[i]).value in AfterRounds(p, list, |list|, server, digest).files <==>
            Obtained(p, list, i, server, digest)
  {
    PresentAtTurn(p, list, i, server, digest);
    PresentLater(p, list, |list|, i, server, digest);
  }

  /** The number of the first download for entry `n` with the fallback, if all before it are supplied. */
  function TriesBefore(files: Files, d: nat, list: seq<ExternalFile>, n: nat, server: nat -> Download, digest: string -> string): nat
    requires n <= |list| && AllNamed(list)
  {
    if n == 0 then d
    else
      var before := TriesBefore(files, d, list, n - 1, server, digest);
      before + Tries(files, list[n - 1], before, server, digest)
  }

  /** Entry `i` was in place, or one of the two downloads for it delivered the content. */
  predicate SuppliedAt(p: Progress, list: seq<ExternalFile>, i: nat, server: nat -> Download, digest: string -> string)
    requires i < |list| && AllNamed(list)
  {
    || InPlace(p.files, list[i], digest)
    || Supplied(server, TriesBefore(p.files, p.downloads, list, i, server, digest), list[i].sha512, digest)
  }

  ghost predicate AllSupplied(p: Progress, list: seq<ExternalFile>, n: nat, server: nat -> Download, digest: string -> string)
    requires n <= |list| && AllNamed(list)
  {
    forall i :: 0 <= i < n ==> SuppliedAt(p, list, i, server, digest)
  }

  lemma {:induction false} SameInPlace(files0: Files, files: Files, f: ExternalFile, d: nat, server: nat -> Download, digest: string -> string)
    requires Final(f).Some? && SameAt(files0, files, Final(f).value)
    ensures InPlace(files0, f, digest) == InPlace(files, f, digest)
    ensures Tries(files0, f, d, server, digest) == Tries(files, f, d, server, digest)
  {}

  /** An entry that the manifest names properly, and its name. */
  predicate ProperlyNamed(f: ExternalFile) {
    f.urlName.Some? && (f.path.Some? ==> f.path.value.components == 1) &&
    (f.path.None? ==> f.urlName.value.components == 1)
  }

  /** The content is there under the name of the entry: its path if it has one, else the last part of its
      URL. */
  predicate ThereAs(files: Files, f: ExternalFile, digest: string -> string) {
    && (f.path.Some? ==> f.path.value.text in files && digest(files[f.path.value.text]) == f.sha512)
    && (f.path.None? && f.urlName.Some? ==>
          f.urlName.value.text in files && digest(files[f.urlName.value.text]) == f.sha512)
  }

  ghost predicate ExactlyObtained(p: Progress, files: Files, list: seq<ExternalFile>, server: nat -> Download, digest: string -> string)
    requires AllNamed(list)
  {
    forall i :: 0 <= i < |list| ==> (Final(list[i]).value in files <==> Obtained(p, list, i, server, digest))
  }

  lemma {:induction false} AllObtained(p: Progress, list: seq<ExternalFile>, server: nat -> Download, digest: string -> string)
    requires Distinct(list) && AllNamed(list)
    ensures ExactlyObtained(p, AfterRounds(p, list, |list|, server, digest).files, list, server, digest)
  {
    forall i | 0 <= i < |list|
      ensures Final(list[i]).value in AfterRounds(p, list, |list|, server, digest).files <==> Obtained(p, list, i, server, digest)
    {
      PresentIff(p, list, i, server, digest);
    }
  }

  /** After `n` rounds, when only downloads can go wrong. */
  ghost predicate OnTrack(p0: Progress, p: Progress, list: seq<ExternalFile>, n: nat, fallback: bool,
                          server: nat -> Download, digest: string -> string)
    requires n <= |list| && AllNamed(list)
  {
    if fallback then
      && p.downloads == TriesBefore(p0.files, p0.downloads, list, n, server, digest)
      && AllSupplied(p0, list, n, server, digest)
    else p == AfterRounds(p0, list, n, server, digest)
  }

  lemma {:induction false} OnTrackMore(p0: Progress, p: Progress, p': Progress, list: seq<ExternalFile>, i: nat,
                                       fallback: bool, ok: bool, server: nat -> Download, digest: string -> string)
    requires AllNamed(list) && i < |list| && OnTrack(p0, p, list, i, fallback, server, digest)
    requires fallback ==> SameAt(p0.files, p.files, Final(list[i]).value)
    requires RoundResult(p, p', list[i], fallback, ok, server, digest)
    ensures ok ==> OnTrack(p0, p', list, i + 1, fallback, server, digest)
    ensures !ok ==> fallback && !SuppliedAt(p0, list, i, server, digest)
  {
    if fallback { SameInPlace(p0.files, p.files, list[i], p.downloads, server, digest); }
  }

  /** The result when only downloads can go wrong. */
  ghost predicate FetchResult(p0: Progress, p: Progress, list: seq<ExternalFile>, fallback: bool, ok: bool,
                              server: nat -> Download, digest: string -> string)
    requires AllNamed(list)
  {
    if fallback then Distinct(list) ==> (ok <==> AllSupplied(p0, list, |list|, server, digest))
    else
      && ok && p == AfterRounds(p0, list, |list|, server, digest)
      && (Distinct(list) ==> ExactlyObtained(p0, p.files, list, server, digest))
  }

  lemma {:induction false} TrackEnds(p0: Progress, p: Progress, list: seq<ExternalFile>, fallback: bool,
                                     server: nat -> Download, digest: string -> string)
    requires AllNamed(list)
    requires (fallback ==> Distinct(list)) ==> OnTrack(p0, p, list, |list|, fallback, server, digest)
    ensures FetchResult(p0, p, list, fallback, true, server, digest)
  {
    if !fallback && Distinct(list) { AllObtained(p0, list, server, digest); }
  }

  /** The first round of all goes by the names in the manifest. */
  lemma {:induction false} NamesDecide(list: seq<ExternalFile>)
    ensures AllNamed(list) <==> forall i :: 0 <= i < |list| ==> ProperlyNamed(list[i])
  {
    forall i | 0 <= i < |list| ensures Final(list[i]).Some? <==> ProperlyNamed(list[i]) {}
  }

  lemma {:induction false} SettledIsThere(files: Files, f: ExternalFile, digest: string -> string)
    requires Settled(files, f, digest, true)
    ensures ThereAs(files, f, digest)
  {}

  /** `LookasideCache::fetch`.  For any server and any failing operations, and wherever it stops: no final
      name holds content that `fetch` put there without a matching hash.  If it succeeds, every entry is
      absent or verified; with the upstream fallback every entry is there and verified.  When only
      downloads go wrong: without the fallback it always succeeds, and an entry is there exactly if it was
      in place or the cache delivered it; with the fallback it succeeds exactly if every entry was in
      place or one of the two sources delivered it. */
  method Fetch(w: Workspace, list: seq<ExternalFile>, fallback: bool) returns (ok: bool)
    modifies w
    ensures Distinct(list) ==> NothingBad(old(w.files), w.files, list, w.digest)
    ensures Distinct(list) && ok ==>
      forall i :: 0 <= i < |list| ==> Settled(w.files, list[i], w.digest, fallback)
    ensures ok ==> forall i :: 0 <= i < |list| ==> ProperlyNamed(list[i])
    ensures ok && fallback && Distinct(list) ==> forall i :: 0 <= i < |list| ==> ThereAs(w.files, list[i], w.digest)
    ensures AllNamed(list) && w.Smooth() ==>
      FetchResult(Progress(old(w.files), old(w.downloads)), Progress(w.files, w.downloads), list, fallback, ok, w.server, w.digest)
  {
    ghost var files0, p0 := w.files, Progress(w.files, w.downloads);
    NamesDecide(list);
    var i := 0;
    while i < |list|
      invariant 0 <= i <= |list|
      invariant forall j :: 0 <= j < i ==> Final(list[j]).Some?
      invariant Distinct(list) ==> Halfway(files0, w.files, list, i, w.digest, fallback)
      invariant AllNamed(list) && w.Smooth() && (fallback ==> Distinct(list)) ==>
        OnTrack(p0, Progress(w.files, w.downloads), list, i, fallback, w.server, w.digest)
    {
      ghost var p := Progress(w.files, w.downloads);
      ok := FetchOne(w, list[i], fallback);
      if Final(list[i]).None? { return false; }
      if Distinct(list) { RoundStep(files0, p.files, w.files, list, i, w.digest, fallback, ok); }
      if AllNamed(list) && w.Smooth() && (fallback ==> Distinct(list)) {
        OnTrackMore(p0, p, Progress(w.files, w.downloads), list, i, fallback, ok, w.server, w.digest);
      }
      if !ok { return; }
      i := i + 1;
    }
    ok := true;
    if AllNamed(list) && w.Smooth() {
      TrackEnds(p0, Progress(w.files, w.downloads), list, fallback, w.server, w.digest);
    }
    if fallback && Distinct(list) {
      forall i | 0 <= i < |list| ensures ThereAs(w.files, list[i], w.digest) {
        SettledIsThere(w.files, list[i], w.digest);
      }
    }
  }

  /** Nothing bad so far, the first `n` entries are settled and the names of the others are untouched. */
  ghost predicate Halfway(files0: Files, files: Files, list: seq<ExternalFile>, n: nat, digest: string -> string, fallback: bool) {
    && NothingBad(files0, files, list, digest)
    && (forall j :: 0 <= j < n && j < |list| ==> Settled(files, list[j], digest, fallback))
    && (forall j :: n <= j < |list| && Final(list[j]).Some? ==> SameAt(files0, files, Final(list[j]).value))
  }

  lemma {:induction false} RoundStep(files0: Files, files: Files, files': Files, list: seq<ExternalFile>, i: nat,
                                     digest: string -> string, fallback: bool, ok: bool)
    requires Distinct(list) && i < |list| && Final(list[i]).Some? && Halfway(files0, files, list, i, digest, fallback)
    requires SameElsewhere(files, files', Final(list[i]).value) && NotBad(files, files', list[i], digest)
    requires ok ==> Settled(files', list[i], digest, fallback)
    ensures NothingBad(files0, files', list, digest)
    ensures ok ==> Halfway(files0, files', list, i + 1, digest, fallback)
  {
    assert SameAt(files0, files, Final(list[i]).value);
    forall j | 0 <= j < |list|
      ensures NotBad(files0, files', list[j], digest)
      ensures j < i ==> Settled(files', list[j], digest, fallback)
      ensures i < j && Final(list[j]).Some? ==> SameAt(files0, files', Final(list[j]).value)
    {
      if j != i {
        assert NotBad(files0, files, list[j], digest);
        Untouched(files0, files, files', list, i, j, digest, fallback);
      }
    }
  }

  /** Where distinct names are needed: entry `a` is downloaded through `.a`, the final name of another
      entry, and a download that is cut off leaves unverified content there while all is reported well. */
  method Collision(w: Workspace, hash: string) returns (ok: bool)
    requires w.Smooth() && w.files == map[]
    requires w.server(w.downloads) == Complete("good") && w.digest("good") == hash
    requires w.server(w.downloads + 1) == Partial("junk") && w.digest("junk") != hash
    modifies w
    ensures ok && ".a" in w.files && w.digest(w.files[".a"]) != hash
  {
    var first, second := ExternalFile(Some(Name(".a", 1)), None, hash), ExternalFile(Some(Name("a", 1)), None, hash);
    var list := [first, second];
    assert Tmp("a") == ".a" && Tmp(".a") == "..a";
    ghost var p := Progress(w.files, w.downloads);
    ghost var one := AfterRounds(p, list, 1, w.server, w.digest);
    assert AfterRounds(p, list, 0, w.server, w.digest) == p && list[0] == first && list[1] == second;
    assert one == NextRound(p, first, w.server, w.digest);
    assert one == Progress(map[".a" := "good"], w.downloads + 1);
    assert AfterRounds(p, list, 2, w.server, w.digest) == NextRound(one, second, w.server, w.digest);
    ok := Fetch(w, list, false);
  }
}
