/** `apiclient apply`: all inputs are fetched and checked first, then sent in one transaction. */
module ApplySettings {
  import opened Prelude

  /** Settings by their dotted keys. */
  type Settings = map<string, string>

  // Fetching in parallel.

  const WINDOW := 4

  /** How many of the fetches under way have finished and wait for their turn. */
  function Landed<T>(slots: seq<Option<T>>): (n: nat)
    ensures n <= |slots|
  {
    if slots == [] then 0 else Landed(slots[..|slots| - 1]) + if slots[|slots| - 1].Some? then 1 else 0
  }

  lemma {:induction false} LandedMore<T>(slots: seq<Option<T>>, j: nat, x: T)
    requires j < |slots| && slots[j].None?
    ensures Landed(slots[j := Some(x)]) == Landed(slots) + 1
  {
    var after := slots[j := Some(x)];
    var front := slots[..|slots| - 1];
    if j == |slots| - 1 {
      assert after[..|slots| - 1] == front;
    } else {
      assert after[..|slots| - 1] == front[j := Some(x)];
      LandedMore(front, j, x);
    }
  }

  lemma {:induction false} LandedStart<T>(slots: seq<Option<T>>)
    ensures Landed(slots + [None]) == Landed(slots)
  {
    assert (slots + [None])[..|slots|] == slots;
  }

  /** `buffered(4)`: fetches start in order, no more than four are under way, and they finish in any
      order; a result that is not next in line waits in its slot.  `most` is the largest number ever under
      way at once. */
  method FetchAll<T>(fetched: seq<T>) returns (responses: seq<T>, most: nat)
    ensures responses == fetched
    ensures most == Min(4, |fetched|)
  {
    responses, most := [], 0;
    var slots: seq<Option<T>> := [];
    while |responses| < |fetched|
      invariant |responses| + |slots| <= |fetched| && |slots| <= WINDOW
      invariant forall j :: 0 <= j < |slots| && slots[j].Some? ==> slots[j].value == fetched[|responses| + j]
      invariant responses == fetched[..|responses|]
      invariant most <= Min(WINDOW, |fetched|) && (responses != [] ==> most == Min(WINDOW, |fetched|))
      invariant most >= |slots|
      decreases |fetched| - |responses|, WINDOW - Landed(slots)
    {
      slots := Fill(slots, Min(WINDOW, |fetched| - |responses|));
      if most < |slots| { most := |slots|; }
      if slots[0].Some? {
        assert fetched[..|responses| + 1] == fetched[..|responses|] + [fetched[|responses|]];
        responses, slots := responses + [slots[0].value], slots[1..];
      } else {
        var j :| 0 <= j < |slots| && slots[j].None?;
        LandedMore(slots, j, fetched[|responses| + j]);
        slots := slots[j := Some(fetched[|responses| + j])];
      }
    }
  }

  /** Start fetches until `size` are under way. */
  method Fill<T>(slots0: seq<Option<T>>, size: nat) returns (slots: seq<Option<T>>)
    requires |slots0| <= size
    ensures |slots| == size && slots[..|slots0|] == slots0 && Landed(slots) == Landed(slots0)
    ensures forall j :: |slots0| <= j < size ==> slots[j].None?
  {
    slots := slots0;
    while |slots| < size
      invariant |slots0| <= |slots| <= size && slots[..|slots0|] == slots0 && Landed(slots) == Landed(slots0)
      invariant forall j :: |slots0| <= j < |slots| ==> slots[j].None?
    {
      LandedStart(slots);
      slots := slots + [None];
    }
  }

  // The API server, as its documentation describes it.

  /** A request succeeds, is refused, or takes effect while its reply gets lost. */
  datatype Reply = Done | Refused | LostReply

  /** PATCH adds to a pending transaction; commit makes exactly that transaction live. */
  class Server {
    var live: Settings
    var pending: map<string, Settings>
    var requests: nat
    const replies: nat -> Reply

    constructor (live: Settings, pending: map<string, Settings>, replies: nat -> Reply)
      ensures this.live == live && this.pending == pending && this.replies == replies && requests == 0
    {
      this.live, this.pending, this.replies, requests := live, pending, replies, 0;
    }

    method Patch(tx: string, change: Settings) returns (ok: bool)
      modifies this
      ensures requests == old(requests) + 1 && live == old(live)
      ensures ok == (replies(old(requests)) == Done)
      ensures pending == if replies(old(requests)) == Refused then old(pending)
                         else old(pending)[tx := PendingIn(old(pending), tx) + change]
    {
      var reply := replies(requests);
      requests := requests + 1;
      if reply != Refused { pending := pending[tx := PendingIn(pending, tx) + change]; }
      ok := reply == Done;
    }

    method CommitAndApply(tx: string) returns (ok: bool)
      modifies this
      ensures requests == old(requests) + 1
      ensures ok == (replies(old(requests)) == Done)
      ensures live == if replies(old(requests)) == Refused then old(live) else old(live) + PendingIn(old(pending), tx)
      ensures pending == if replies(old(requests)) == Refused then old(pending) else old(pending) - {tx}
    {
      var reply := replies(requests);
      requests := requests + 1;
      if reply != Refused {
        live := live + PendingIn(pending, tx);
        pending := pending - {tx};
      }
      ok := reply == Done;
    }
  }

  function PendingIn(pending: map<string, Settings>, tx: string): Settings {
    if tx in pending then pending[tx] else map[]
  }

  /** The changes laid over each other, the last one on top. */
  function Overlay(changes: seq<Settings>): Settings {
    if changes == [] then map[] else Overlay(changes[..|changes| - 1]) + changes[|changes| - 1]
  }

  /** A key has the value of the last change that mentions it. */
  lemma {:induction false} LastWins(changes: seq<Settings>, i: nat, key: string)
    requires i < |changes| && key in changes[i]
    requires forall j :: i < j < |changes| ==> key !in changes[j]
    ensures key in Overlay(changes) && Overlay(changes)[key] == changes[i][key]
    decreases |changes|
  {
    if i < |changes| - 1 { LastWins(changes[..|changes| - 1], i, key); }
  }

  predicate OthersKept(before: map<string, Settings>, after: map<string, Settings>, tx: string) {
    before - {tx} == after - {tx}
  }

  /** The texts that were fetched (`None`: the fetch failed), checked against the model (`format_change`,
      `None`: not valid settings). */
  function Changes(fetched: seq<Option<string>>, format: string -> Option<Settings>): Option<seq<Settings>> {
    if fetched == [] then Some([])
    else
      var front, last := Changes(fetched[..|fetched| - 1], format), fetched[|fetched| - 1];
      if front.None? || last.None? || format(last.value).None? then None
      else Some(front.value + [format(last.value).value])
  }

  lemma {:induction false} ChangesFail(fetched: seq<Option<string>>, format: string -> Option<Settings>, i: nat)
    requires i < |fetched| && (fetched[i].None? || format(fetched[i].value).None?)
    ensures Changes(fetched, format).None?
    decreases |fetched|
  {
    if i < |fetched| - 1 { ChangesFail(fetched[..|fetched| - 1], format, i); }
  }

  /** Fetched, and valid settings. */
  predicate Good(x: Option<string>, format: string -> Option<Settings>) {
    x.Some? && format(x.value).Some?
  }

  predicate AllGood(fetched: seq<Option<string>>, format: string -> Option<Settings>) {
    forall i :: 0 <= i < |fetched| ==> Good(fetched[i], format)
  }

  /** All inputs good means one change for each, in the same order. */
  lemma {:induction false} ChangesEach(fetched: seq<Option<string>>, format: string -> Option<Settings>)
    ensures Changes(fetched, format).Some? <==> AllGood(fetched, format)
    ensures Changes(fetched, format).Some? ==>
      && |Changes(fetched, format).value| == |fetched|
      && forall i :: 0 <= i < |fetched| ==>
           Good(fetched[i], format) && Changes(fetched, format).value[i] == format(fetched[i].value).value
    decreases |fetched|
  {
    if fetched != [] {
      ChangesEach(fetched[..|fetched| - 1], format);
      if i :| 0 <= i < |fetched| && !Good(fetched[i], format) { ChangesFail(fetched, format, i); }
    }
  }

  /** The loop that checks the responses in the order of the inputs. */
  method Check(responses: seq<Option<string>>, format: string -> Option<Settings>) returns (r: Option<seq<Settings>>)
    ensures r == Changes(responses, format)
    ensures r.Some? <==> AllGood(responses, format)
    ensures r.Some? ==> |r.value| == |responses|
    ensures r.Some? ==> forall i :: 0 <= i < |responses| ==> r.value[i] == format(responses[i].value).value
  {
    ChangesEach(responses, format);
    var changes: seq<Settings> := [];
    var i := 0;
    while i < |responses|
      invariant 0 <= i <= |responses| && Changes(responses[..i], format) == Some(changes)
    {
      if responses[i].None? || format(responses[i].value).None? {
        ChangesFail(responses, format, i);
        return None;
      }
      assert responses[..i + 1][..i] == responses[..i];
      changes := changes + [format(responses[i].value).value];
      i := i + 1;
    }
    assert responses[..i] == responses;
    r := Some(changes);
  }

  predicate Mentions(x: Option<string>, format: string -> Option<Settings>, key: string) {
    Good(x, format) && key in format(x.value).value
  }

  /** Input `i` mentions the key and none after it does. */
  ghost predicate LastToMention(fetched: seq<Option<string>>, format: string -> Option<Settings>, i: nat, key: string) {
    && i < |fetched| && Mentions(fetched[i], format, key)
    && (forall j :: i < j < |fetched| ==> !Mentions(fetched[j], format, key))
  }

  ghost predicate NotMentioned(fetched: seq<Option<string>>, format: string -> Option<Settings>, key: string) {
    forall i :: 0 <= i < |fetched| ==> !Mentions(fetched[i], format, key)
  }

  predicate SameSetting(before: Settings, after: Settings, key: string) {
    (key in after <==> key in before) && (key in after ==> after[key] == before[key])
  }

  /** Each key has the value of the last input that mentions it, or else the value it had. */
  ghost predicate LastInputWins(before: Settings, after: Settings, fetched: seq<Option<string>>,
                                format: string -> Option<Settings>) {
    && (forall key, i: nat :: LastToMention(fetched, format, i, key) ==>
          key in after && after[key] == format(fetched[i].value).value[key])
    && (forall key :: NotMentioned(fetched, format, key) ==> SameSetting(before, after, key))
  }

  lemma {:induction false} Unmentioned(changes: seq<Settings>, key: string)
    requires forall i :: 0 <= i < |changes| ==> key !in changes[i]
    ensures key !in Overlay(changes)
    decreases |changes|
  {
    if changes != [] { Unmentioned(changes[..|changes| - 1], key); }
  }

  lemma {:induction false} OverlayMeans(before: Settings, fetched: seq<Option<string>>, format: string -> Option<Settings>)
    requires Changes(fetched, format).Some?
    ensures LastInputWins(before, before + Overlay(Changes(fetched, format).value), fetched, format)
  {
    var changes := Changes(fetched, format).value;
    var after := before + Overlay(changes);
    ChangesEach(fetched, format);
    forall key, i: nat | LastToMention(fetched, format, i, key)
      ensures key in after && after[key] == format(fetched[i].value).value[key]
    {
      forall j | i < j < |changes| ensures key !in changes[j] { assert !Mentions(fetched[j], format, key); }
      LastWins(changes, i, key);
    }
    forall key | NotMentioned(fetched, format, key) ensures SameSetting(before, after, key) {
      forall i | 0 <= i < |changes| ensures key !in changes[i] { assert !Mentions(fetched[i], format, key); }
      Unmentioned(changes, key);
    }
  }

  /** The next `n` requests get a good reply. */
  ghost predicate AllDone(replies: nat -> Reply, from: nat, n: nat) {
    forall k: nat :: from <= k < from + n ==> replies(k) == Done
  }

  /** The loop that sends the changes. */
  method PatchAll(server: Server, tx: string, changes: seq<Settings>) returns (ok: bool)
    requires tx !in server.pending
    modifies server
    ensures server.live == old(server.live) && OthersKept(old(server.pending), server.pending, tx)
    ensures ok ==> PendingIn(server.pending, tx) == Overlay(changes)
    ensures server.requests <= old(server.requests) + |changes|
    ensures ok <==> AllDone(server.replies, old(server.requests), |changes|)
    ensures ok ==> server.requests == old(server.requests) + |changes|
  {
    var i := 0;
    while i < |changes|
      invariant 0 <= i <= |changes|
      invariant server.live == old(server.live) && OthersKept(old(server.pending), server.pending, tx)
      invariant PendingIn(server.pending, tx) == Overlay(changes[..i])
      invariant server.requests == old(server.requests) + i
      invariant AllDone(server.replies, old(server.requests), i)
    {
      ok := server.Patch(tx, changes[i]);
      assert changes[..i + 1][..i] == changes[..i];
      if !ok { return; }
      i := i + 1;
    }
    assert changes[..i] == changes;
    ok := true;
  }

  /** Sending the changes and committing them. */
  method Send(server: Server, tx: string, changes: seq<Settings>) returns (ok: bool)
    requires tx !in server.pending
    modifies server
    ensures OthersKept(old(server.pending), server.pending, tx)
    ensures ok ==> tx !in server.pending && server.live == old(server.live) + Overlay(changes)
    ensures !ok && server.live != old(server.live) ==>
      && server.requests > 0 && server.replies(server.requests - 1) == LostReply
      && server.live == old(server.live) + Overlay(changes)
    ensures ok <==> AllDone(server.replies, old(server.requests), |changes| + 1)
    ensures ok ==> server.requests == old(server.requests) + |changes| + 1
  {
    ok := PatchAll(server, tx, changes);
    if !ok { return; }
    ghost var pending := server.pending;
    ok := server.CommitAndApply(tx);
    assert pending - {tx} == pending - {tx} - {tx};
  }

  /** `apply`.  With a transaction name nobody uses: if an input cannot be fetched or is not valid, the
      server hears nothing; if it fails at all, live settings are as before unless the commit itself went
      through with its reply lost; on success the live settings are overlaid with all inputs in the given
      order, whatever order the fetches finished in.  Other pending transactions are never touched. */
  method Apply(server: Server, tx: string, fetched: seq<Option<string>>, format: string -> Option<Settings>)
    returns (ok: bool)
    requires tx !in server.pending
    modifies server
    ensures OthersKept(old(server.pending), server.pending, tx)
    // It succeeds exactly if all inputs are good and every request gets a good reply.
    ensures ok <==> AllGood(fetched, format) && AllDone(server.replies, old(server.requests), |fetched| + 1)
    ensures !AllGood(fetched, format) ==>
      && server.requests == old(server.requests)
      && server.live == old(server.live) && server.pending == old(server.pending)
    ensures ok ==>
      && tx !in server.pending && server.requests == old(server.requests) + |fetched| + 1
      && LastInputWins(old(server.live), server.live, fetched, format)
    ensures !ok && server.live != old(server.live) ==>
      && server.requests > 0 && server.replies(server.requests - 1) == LostReply
      && LastInputWins(old(server.live), server.live, fetched, format)
  {
    var responses, most := FetchAll(fetched);
    var changes := Check(responses, format);
    if changes.None? { return false; }
    ghost var live := server.live;
    ok := Send(server, tx, changes.value);
    OverlayMeans(live, fetched, format);
  }
}
