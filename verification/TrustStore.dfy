/** certdog: which certificates end up in the trusted store. */
module TrustStore {
  import opened Prelude
  import opened Base64
  import opened Pem
  import opened PemRoundTrip

  /** One record of `settings.pki`. */
  datatype Bundle = Bundle(data: Option<string>, trusted: Option<bool>)

  /** The characters that `str::trim` removes: Unicode's White_Space. */
  predicate IsSpace(c: char) {
    || '\U{0009}' <= c <= '\U{000D}'
    || c in {' ', '\U{0085}', '\U{00A0}', '\U{1680}', '\U{2028}', '\U{2029}', '\U{202F}', '\U{205F}', '\U{3000}'}
    || '\U{2000}' <= c <= '\U{200A}'
  }

  /** Empty after trimming, which means the record is disabled. */
  predicate Blank(s: string) {
    forall i :: 0 <= i < |s| ==> IsSpace(s[i])
  }

  function TrimStart(s: string): string {
    if s != "" && IsSpace(s[0]) then TrimStart(s[1..]) else s
  }

  function TrimEnd(s: string): string {
    if s != "" && IsSpace(s[|s| - 1]) then TrimEnd(s[..|s| - 1]) else s
  }

  /** `trim` leaves nothing exactly of blank text. */
  lemma {:induction false} BlankIff(s: string)
    ensures Blank(s) <==> TrimEnd(TrimStart(s)) == ""
  {
    TrimStartBlank(s);
    TrimEndBlank(TrimStart(s));
  }

  lemma {:induction false} TrimStartBlank(s: string)
    ensures Blank(TrimStart(s)) <==> Blank(s)
  {
    if s != "" && IsSpace(s[0]) {
      TrimStartBlank(s[1..]);
      if Blank(s[1..]) {
        forall i | 0 <= i < |s| ensures IsSpace(s[i]) { if i > 0 { assert s[i] == s[1..][i - 1]; } }
      }
      if Blank(s) {
        forall i | 0 <= i < |s[1..]| ensures IsSpace(s[1..][i]) { assert s[1..][i] == s[i + 1]; }
      }
    }
  }

  lemma {:induction false} TrimEndBlank(s: string)
    ensures TrimEnd(s) == "" <==> Blank(s)
  {
    if s != "" && IsSpace(s[|s| - 1]) {
      var front := s[..|s| - 1];
      TrimEndBlank(front);
      if Blank(front) {
        forall i | 0 <= i < |s| ensures IsSpace(s[i]) { if i < |front| { assert s[i] == front[i]; } }
      }
    }
  }

  function Data(b: Bundle): string {
    if b.data.Some? then b.data.value else ""
  }

  predicate IsTrusted(b: Bundle) {
    b.trusted == Some(true)
  }

  /** The certificates inside the data of a record; `None` if it does not decode. */
  type Decoder = string -> Option<seq<Pem>>

  predicate Bad(b: Bundle, decode: Decoder) {
    !Blank(Data(b)) && decode(Data(b)).None?
  }

  /** What one record adds to the list for `trusted`. */
  function Adds(b: Bundle, decode: Decoder, trusted: bool): seq<Pem> {
    if Blank(Data(b)) || decode(Data(b)).None? || IsTrusted(b) != trusted then [] else decode(Data(b)).value
  }

  /** The lists that `f` gives for the elements, appended in order. */
  function Gather<A, B>(xs: seq<A>, f: A -> seq<B>): seq<B> {
    if xs == [] then [] else Gather(xs[..|xs| - 1], f) + f(xs[|xs| - 1])
  }

  function AddsAll(bs: seq<Bundle>, decode: Decoder, trusted: bool): seq<Pem> {
    Gather(bs, (b: Bundle) => Adds(b, decode, trusted))
  }

  datatype CertBundle = CertBundle(trusted: seq<Pem>, distrusted: seq<Pem>)

  /** The data of the record is not blank, decodes, and `p` is in it. */
  predicate Holds(b: Bundle, decode: Decoder, p: Pem) {
    b.data.Some? && !Blank(b.data.value) && decode(b.data.value).Some? && p in decode(b.data.value).value
  }

  lemma {:induction false} GatherMembers<A, B>(xs: seq<A>, f: A -> seq<B>, y: B)
    ensures y in Gather(xs, f) <==> exists i :: 0 <= i < |xs| && y in f(xs[i])
    decreases |xs|
  {
    if xs != [] {
      var front := xs[..|xs| - 1];
      GatherMembers(front, f, y);
      if i :| 0 <= i < |front| && y in f(front[i]) { assert front[i] == xs[i]; }
      if i :| 0 <= i < |xs| && y in f(xs[i]) { if i < |front| { assert front[i] == xs[i]; } }
    }
  }

  lemma {:induction false} AddsMembers(bs: seq<Bundle>, decode: Decoder, trusted: bool, p: Pem)
    ensures p in AddsAll(bs, decode, trusted) <==>
            exists i :: 0 <= i < |bs| && Holds(bs[i], decode, p) && (bs[i].trusted == Some(true)) == trusted
  {
    GatherMembers(bs, (b: Bundle) => Adds(b, decode, trusted), p);
    forall b: Bundle ensures p in Adds(b, decode, trusted) <==> Holds(b, decode, p) && (b.trusted == Some(true)) == trusted {}
  }

  /** `split_bundles`, over the records in the order the map happens to give them. */
  method SplitBundles(bs: seq<Bundle>, decode: Decoder) returns (r: Option<CertBundle>)
    ensures r.None? <==> exists i :: 0 <= i < |bs| && Bad(bs[i], decode)
    ensures r.Some? ==> r.value == CertBundle(AddsAll(bs, decode, true), AddsAll(bs, decode, false))
    ensures r.Some? ==> forall p :: p in r.value.trusted <==> exists i :: 0 <= i < |bs| && Holds(bs[i], decode, p) && bs[i].trusted == Some(true)
    ensures r.Some? ==> forall p :: p in r.value.distrusted <==> exists i :: 0 <= i < |bs| && Holds(bs[i], decode, p) && bs[i].trusted != Some(true)
  {
    var trusted: seq<Pem>, distrusted: seq<Pem> := [], [];
    var i := 0;
    while i < |bs|
      invariant 0 <= i <= |bs|
      invariant forall j :: 0 <= j < i ==> !Bad(bs[j], decode)
      invariant trusted == AddsAll(bs[..i], decode, true) && distrusted == AddsAll(bs[..i], decode, false)
    {
      AddsNext(bs, i, decode);
      var data := Data(bs[i]);
      if !Blank(data) {
        var pems := decode(data);
        if pems.None? { return None; }
        if IsTrusted(bs[i]) {
          trusted := trusted + pems.value;
        } else {
          distrusted := distrusted + pems.value;
        }
      }
      i := i + 1;
    }
    assert bs[..i] == bs;
    forall p ensures p in trusted <==> exists i :: 0 <= i < |bs| && Holds(bs[i], decode, p) && bs[i].trusted == Some(true)
             ensures p in distrusted <==> exists i :: 0 <= i < |bs| && Holds(bs[i], decode, p) && bs[i].trusted != Some(true)
    {
      AddsMembers(bs, decode, true, p);
      AddsMembers(bs, decode, false, p);
    }
    r := Some(CertBundle(trusted, distrusted));
  }

  lemma {:induction false} AddsNext(bs: seq<Bundle>, i: nat, decode: Decoder)
    requires i < |bs|
    ensures AddsAll(bs[..i + 1], decode, true) == AddsAll(bs[..i], decode, true) + Adds(bs[i], decode, true)
    ensures AddsAll(bs[..i + 1], decode, false) == AddsAll(bs[..i], decode, false) + Adds(bs[i], decode, false)
  {
    assert bs[..i + 1][..i] == bs[..i];
  }

  function Without(s: seq<Pem>, bad: seq<Pem>): seq<Pem> {
    if s == [] then []
    else
      var front, p := Without(s[..|s| - 1], bad), s[|s| - 1];
      if p in bad then front else front + [p]
  }

  /** `retain`. */
  method Retain(s: seq<Pem>, bad: seq<Pem>) returns (r: seq<Pem>)
    ensures r == Without(s, bad)
  {
    r := [];
    var i := 0;
    while i < |s|
      invariant 0 <= i <= |s| && r == Without(s[..i], bad)
    {
      assert s[..i + 1][..i] == s[..i];
      if s[i] !in bad { r := r + [s[i]]; }
      i := i + 1;
    }
    assert s[..i] == s;
  }

  /** Each certificate that is not distrusted stays as often as it was there; the others go. */
  lemma {:induction false} WithoutCounts(s: seq<Pem>, bad: seq<Pem>, p: Pem)
    ensures multiset(Without(s, bad))[p] == if p in bad then 0 else multiset(s)[p]
    decreases |s|
  {
    if s != [] {
      WithoutCounts(s[..|s| - 1], bad, p);
      assert s == s[..|s| - 1] + [s[|s| - 1]];
      assert multiset(s)[p] == multiset(s[..|s| - 1])[p] + multiset([s[|s| - 1]])[p];
    }
  }

  // The order of the map does not matter.

  lemma {:induction false} GatherSnoc<A, B>(xs: seq<A>, x: A, f: A -> seq<B>)
    ensures Gather(xs + [x], f) == Gather(xs, f) + f(x)
  {
    assert (xs + [x])[..|xs|] == xs;
  }

  lemma {:induction false} Cancel<T>(a: multiset<T>, b: multiset<T>, x: T)
    requires a + multiset{x} == b + multiset{x}
    ensures a == b
  {
    forall y ensures a[y] == b[y] {
      assert (a + multiset{x})[y] == (b + multiset{x})[y];
    }
  }

  lemma {:induction false} TakeOut<A>(b: seq<A>, i: nat)
    requires i < |b|
    ensures multiset(b) == multiset(b[..i] + b[i + 1..]) + multiset{b[i]}
  {
    assert b == b[..i] + [b[i]] + b[i + 1..];
  }

  lemma {:induction false} Moved<T>(a: multiset<T>, x: multiset<T>, y: multiset<T>)
    ensures a + x + y == a + y + x
  {}

  lemma {:induction false} GatherCounts<A, B>(xs: seq<A>, x: A, f: A -> seq<B>)
    ensures multiset(Gather(xs + [x], f)) == multiset(Gather(xs, f)) + multiset(f(x))
  {
    GatherSnoc(xs, x, f);
  }

  /** Taking one element out takes away exactly what it adds. */
  lemma {:induction false} WithoutOne<A, B>(b: seq<A>, i: nat, f: A -> seq<B>)
    requires i < |b|
    ensures multiset(Gather(b, f)) == multiset(Gather(b[..i] + b[i + 1..], f)) + multiset(f(b[i]))
    decreases |b|
  {
    var front, y := b[..|b| - 1], b[|b| - 1];
    assert b == front + [y];
    GatherCounts(front, y, f);
    if i == |b| - 1 {
      assert b[..i] + b[i + 1..] == front;
    } else {
      WithoutOne(front, i, f);
      var rest := front[..i] + front[i + 1..];
      assert b[..i] + b[i + 1..] == rest + [y];
      GatherCounts(rest, y, f);
      Moved(multiset(Gather(rest, f)), multiset(f(b[i])), multiset(f(y)));
    }
  }

  lemma {:induction false} OrderIrrelevant<A, B>(a: seq<A>, b: seq<A>, f: A -> seq<B>)
    requires multiset(a) == multiset(b)
    ensures multiset(Gather(a, f)) == multiset(Gather(b, f))
    decreases |a|
  {
    if a == [] {
      assert b == [] by { assert |multiset(b)| == |b|; }
    } else {
      var x, front := a[|a| - 1], a[..|a| - 1];
      assert a == front + [x];
      assert x in multiset(b);
      var i :| 0 <= i < |b| && b[i] == x;
      var rest := b[..i] + b[i + 1..];
      TakeOut(b, i);
      Cancel(multiset(front), multiset(rest), x);
      OrderIrrelevant(front, rest, f);
      WithoutOne(b, i, f);
    }
  }

  /** The final list: the source bundle and the trusted records, without the distrusted ones. */
  function Store(source: seq<Pem>, c: CertBundle): seq<Pem> {
    Without(source + c.trusted, c.distrusted)
  }

  lemma {:induction false} SameMembers(a: seq<Pem>, b: seq<Pem>, p: Pem)
    requires multiset(a) == multiset(b)
    ensures p in a <==> p in b
  {
    assert p in a <==> p in multiset(a);
    assert p in b <==> p in multiset(b);
  }

  /** Any two iteration orders give the same multiset of certificates, and if a record does not
      decode, both orders fail. */
  lemma {:induction false} StoreOrderIrrelevant(source: seq<Pem>, a: seq<Bundle>, b: seq<Bundle>, decode: Decoder)
    requires multiset(a) == multiset(b)
    ensures (exists i :: 0 <= i < |a| && Bad(a[i], decode)) <==> (exists i :: 0 <= i < |b| && Bad(b[i], decode))
    ensures multiset(Store(source, CertBundle(AddsAll(a, decode, true), AddsAll(a, decode, false)))) ==
            multiset(Store(source, CertBundle(AddsAll(b, decode, true), AddsAll(b, decode, false))))
  {
    if i :| 0 <= i < |a| && Bad(a[i], decode) { assert a[i] in multiset(b); }
    if i :| 0 <= i < |b| && Bad(b[i], decode) { assert b[i] in multiset(a); }
    OrderIrrelevant(a, b, (x: Bundle) => Adds(x, decode, true));
    OrderIrrelevant(a, b, (x: Bundle) => Adds(x, decode, false));
    SameStore(source, CertBundle(AddsAll(a, decode, true), AddsAll(a, decode, false)),
              CertBundle(AddsAll(b, decode, true), AddsAll(b, decode, false)));
  }

  lemma {:induction false} SameStore(source: seq<Pem>, a: CertBundle, b: CertBundle)
    requires multiset(a.trusted) == multiset(b.trusted) && multiset(a.distrusted) == multiset(b.distrusted)
    ensures multiset(Store(source, a)) == multiset(Store(source, b))
  {
    var sa, sb := Store(source, a), Store(source, b);
    forall p ensures multiset(sa)[p] == multiset(sb)[p] {
      WithoutCounts(source + a.trusted, a.distrusted, p);
      WithoutCounts(source + b.trusted, b.distrusted, p);
      SameMembers(a.distrusted, b.distrusted, p);
    }
  }

  // What is kept, by counts and positions.

  /** `got` consists of the elements of `s` at increasing positions. */
  ghost predicate Picks(got: seq<Pem>, s: seq<Pem>, at: seq<nat>) {
    && |at| == |got|
    && (forall i :: 0 <= i < |at| ==> at[i] < |s| && got[i] == s[at[i]])
    && (forall i, j :: 0 <= i < j < |at| ==> at[i] < at[j])
  }

  /** Exactly the certificates of `source` and `trusted` that are not in `distrusted`, each as often as it
      is in those two, in their order. */
  ghost predicate Kept(got: seq<Pem>, source: seq<Pem>, trusted: seq<Pem>, distrusted: seq<Pem>) {
    && (forall p :: multiset(got)[p] == if p in distrusted then 0 else multiset(source)[p] + multiset(trusted)[p])
    && exists at :: Picks(got, source + trusted, at)
  }

  lemma {:induction false} PicksMore(got: seq<Pem>, s: seq<Pem>, at: seq<nat>, x: Pem)
    requires Picks(got, s, at)
    ensures Picks(got, s + [x], at) && Picks(got + [x], s + [x], at + [|s|])
  {}

  lemma {:induction false} WithoutPicks(s: seq<Pem>, bad: seq<Pem>) returns (at: seq<nat>)
    ensures Picks(Without(s, bad), s, at)
    decreases |s|
  {
    if s == [] {
      at := [];
    } else {
      var front, x := s[..|s| - 1], s[|s| - 1];
      at := WithoutPicks(front, bad);
      PicksMore(Without(front, bad), front, at, x);
      assert s == front + [x];
      if x !in bad { at := at + [|front|]; }
    }
  }

  lemma {:induction false} PicksFewer(got: seq<Pem>, s: seq<Pem>, at: seq<nat>, p: Pem)
    requires Picks(got, s, at)
    ensures multiset(got)[p] <= multiset(s)[p]
    decreases |s|
  {
    if s != [] {
      var n := |s| - 1;
      assert s == s[..n] + [s[n]];
      if got != [] && at[|at| - 1] == n {
        assert got == got[..|got| - 1] + [got[|got| - 1]];
        PicksFewer(got[..|got| - 1], s[..n], at[..|at| - 1], p);
      } else {
        PicksShorter(got, s, at);
        PicksFewer(got, s[..n], at, p);
      }
    } else {
      assert got == [];
    }
  }

  lemma {:induction false} PicksShorter(got: seq<Pem>, s: seq<Pem>, at: seq<nat>)
    requires Picks(got, s, at) && s != [] && (got != [] ==> at[|at| - 1] != |s| - 1)
    ensures Picks(got, s[..|s| - 1], at)
  {
    forall i | 0 <= i < |at| ensures at[i] < |s| - 1 { assert at[i] <= at[|at| - 1]; }
  }

  /** Counts and positions leave no choice. */
  lemma {:induction false} PicksUnique(got: seq<Pem>, s: seq<Pem>, bad: seq<Pem>, at: seq<nat>)
    requires Picks(got, s, at) && forall p :: multiset(got)[p] == if p in bad then 0 else multiset(s)[p]
    ensures got == Without(s, bad)
    decreases |s|
  {
    if s == [] {
      assert got == [];
    } else {
      var n := |s| - 1;
      var front, x := s[..n], s[n];
      assert s == front + [x];
      if got != [] && at[|at| - 1] == n {
        var rest := got[..|got| - 1];
        assert got == rest + [x];
        assert multiset(got)[x] > 0;
        forall p ensures multiset(rest)[p] == if p in bad then 0 else multiset(front)[p] {
          assert multiset(got)[p] == multiset(rest)[p] + multiset([x])[p];
          assert multiset(s)[p] == multiset(front)[p] + multiset([x])[p];
        }
        PicksUnique(rest, front, bad, at[..|at| - 1]);
      } else {
        PicksShorter(got, s, at);
        PicksFewer(got, front, at, x);
        assert multiset(s)[x] == multiset(front)[x] + 1;
        assert x in bad;
        forall p ensures multiset(got)[p] == if p in bad then 0 else multiset(front)[p] {
          assert multiset(s)[p] == multiset(front)[p] + multiset([x])[p];
        }
        PicksUnique(got, front, bad, at);
      }
    }
  }

  lemma {:induction false} KeptIff(got: seq<Pem>, source: seq<Pem>, c: CertBundle)
    ensures Kept(got, source, c.trusted, c.distrusted) <==> got == Store(source, c)
  {
    var all := source + c.trusted;
    assert forall p :: multiset(all)[p] == multiset(source)[p] + multiset(c.trusted)[p];
    if got == Store(source, c) {
      var at := WithoutPicks(all, c.distrusted);
      forall p ensures multiset(got)[p] == if p in c.distrusted then 0 else multiset(source)[p] + multiset(c.trusted)[p] {
        WithoutCounts(all, c.distrusted, p);
      }
    } else if Kept(got, source, c.trusted, c.distrusted) {
      var at :| Picks(got, all, at);
      PicksUnique(got, all, c.distrusted, at);
    }
  }

  // The whole update.

  lemma {:induction false} AnnotatedPems(pems: seq<Pem>, comments: Pem -> Option<Option<string>>)
    requires Annotate(pems, comments).Some?
    ensures var es := Annotate(pems, comments).value;
            |es| == |pems| && forall i :: 0 <= i < |es| ==>
              es[i].pem == pems[i] && comments(pems[i]) == Some(es[i].comment)
    decreases |pems|
  {
    if pems != [] { AnnotatedPems(pems[..|pems| - 1], comments); }
  }

  lemma {:induction false} PemsOf(es: seq<Entry>, pems: seq<Pem>)
    requires |es| == |pems| && forall i :: 0 <= i < |es| ==> es[i].pem == pems[i]
    ensures Pems(es) == pems
  {
    if es != [] {
      PemsOf(es[1..], pems[1..]);
      assert pems == [pems[0]] + pems[1..];
    }
  }

  lemma {:induction false} WithoutSubset(s: seq<Pem>, bad: seq<Pem>, p: Pem)
    requires p in Without(s, bad)
    ensures p in s && p !in bad
    decreases |s|
  {
    var front := s[..|s| - 1];
    if p in Without(front, bad) { WithoutSubset(front, bad, p); }
  }

  /** In the source bundle or a trusted record, and in no distrusted one. */
  predicate Stays(p: Pem, source: seq<Pem>, c: CertBundle) {
    (p in source || p in c.trusted) && p !in c.distrusted
  }

  lemma {:induction false} StoreMembers(p: Pem, source: seq<Pem>, c: CertBundle)
    ensures p in Store(source, c) <==> Stays(p, source, c)
  {
    WithoutCounts(source + c.trusted, c.distrusted, p);
    assert p in Store(source, c) <==> p in multiset(Store(source, c));
    assert p in source + c.trusted <==> p in multiset(source + c.trusted);
  }

  predicate Unparsed(pems: seq<Pem>, comments: Pem -> Option<Option<string>>) {
    exists i :: 0 <= i < |pems| && comments(pems[i]).None?
  }

  /** No line of a comment opens a block; see `PemRoundTrip.RoundTrip`. */
  predicate HarmlessComments(pems: seq<Pem>, comments: Pem -> Option<Option<string>>) {
    forall p :: p in pems && comments(p).Some? ==> Inert(CommentLines(comments(p).value))
  }

  lemma {:induction false} HarmlessSame(es: seq<Entry>, pems: seq<Pem>, comments: Pem -> Option<Option<string>>)
    requires |es| == |pems|
    requires forall i :: 0 <= i < |es| ==> comments(pems[i]) == Some(es[i].comment)
    ensures Harmless(es) <==> HarmlessComments(pems, comments)
  {
    if HarmlessComments(pems, comments) {
      forall i | 0 <= i < |es| ensures Inert(CommentLines(es[i].comment)) { assert pems[i] in pems; }
    } else {
      var p :| p in pems && comments(p).Some? && !Inert(CommentLines(comments(p).value));
      var i :| 0 <= i < |pems| && pems[i] == p;
      assert !Inert(CommentLines(es[i].comment));
    }
  }

  lemma {:induction false} WrittenReads(pems: seq<Pem>, comments: Pem -> Option<Option<string>>, es: seq<Entry>)
    requires Annotate(pems, comments) == Some(es) && forall p :: p in pems ==> NoNewline(p.tag)
    ensures !Unparsed(pems, comments)
    ensures Read(Lines(BundleText(es))) == Some(pems) <==> HarmlessComments(pems, comments)
  {
    AnnotatedPems(pems, comments);
    PemsOf(es, pems);
    HarmlessSame(es, pems, comments);
    RoundTrip(es);
  }

  /** `update_trusted_store`.  A file is written exactly if every certificate that stays parses.  Reading
      it back gives the certificates of the source bundle and of the trusted records, in order, without
      those of the distrusted records, exactly if no comment line opens a block. */
  method UpdateTrustedStore(source: seq<Pem>, c: CertBundle, comments: Pem -> Option<Option<string>>)
    returns (file: Option<string>)
    requires forall p :: p in source + c.trusted ==> NoNewline(p.tag)
    ensures file.None? <==> exists p :: Stays(p, source, c) && comments(p).None?
    ensures file.Some? ==>
      ((exists got :: Read(Lines(file.value)) == Some(got) && Kept(got, source, c.trusted, c.distrusted)) <==>
       forall p :: Stays(p, source, c) && comments(p).Some? ==> Inert(CommentLines(comments(p).value)))
  {
    var pems := source + c.trusted;
    pems := Retain(pems, c.distrusted);
    file := PemsToString(pems, comments);
    forall p | p in pems ensures NoNewline(p.tag) { WithoutSubset(source + c.trusted, c.distrusted, p); }
    forall p ensures p in pems <==> Stays(p, source, c) { StoreMembers(p, source, c); }
    if file.Some? {
      WrittenReads(pems, comments, Annotate(pems, comments).value);
      forall got ensures Kept(got, source, c.trusted, c.distrusted) <==> got == pems { KeptIff(got, source, c); }
    } else {
      AnnotateFailsOnly(pems, comments);
    }
  }

  lemma {:induction false} AnnotateFailsOnly(pems: seq<Pem>, comments: Pem -> Option<Option<string>>)
    requires Annotate(pems, comments).None?
    ensures exists i :: 0 <= i < |pems| && comments(pems[i]).None?
    decreases |pems|
  {
    var front := pems[..|pems| - 1];
    if Annotate(front, comments).None? {
      AnnotateFailsOnly(front, comments);
      var i :| 0 <= i < |front| && comments(front[i]).None?;
      assert pems[i] == front[i];
    }
  }
}
