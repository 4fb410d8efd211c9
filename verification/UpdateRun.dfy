/** What a confirmed update command proves about the server, and the order of requests over a whole
    `apiclient update` run. */
module UpdateRun {
  import opened Prelude
  import opened UpdateWait

  // The server behind the replies.

  /** The server takes a command, or finishes the one it took at event `post`. */
  datatype Event = Accept(kind: string) | Finish(post: nat, timestamp: string, status: string)

  /** Everything the server does, for whichever caller; `at(n)` events lie before its reply to request
      `n` of this client, and a command that request `n` brought is taken at event `took(n)`. */
  datatype Timeline = Timeline(events: seq<Event>, at: nat -> nat, took: nat -> nat)

  /** A finish belongs to one command taken before it, no command finishes twice and no two finishes
      have the same timestamp. */
  ghost predicate Coherent(es: seq<Event>) {
    && (forall i :: 0 <= i < |es| ==> Rooted(es, i))
    && (forall i, j :: 0 <= i < j < |es| && es[i].Finish? && es[j].Finish? ==>
          es[i].post != es[j].post && es[i].timestamp != es[j].timestamp)
  }

  ghost predicate Rooted(es: seq<Event>, i: nat)
    requires i < |es|
  {
    es[i].Finish? ==> es[i].post < i && es[es[i].post].Accept? && es[i].timestamp != "first call"
  }

  /** One past the last finish among the first `n` events, 0 if there is none. */
  function LastFinish(es: seq<Event>, n: nat): (k: nat)
    ensures k <= n
    ensures k > 0 ==> k <= |es| && es[k - 1].Finish?
    ensures forall j :: k <= j < n && j < |es| ==> !es[j].Finish?
  {
    if n == 0 then 0 else if n <= |es| && es[n - 1].Finish? then n else LastFinish(es, n - 1)
  }

  /** The body describes a finished command. */
  predicate Shows(body: Body, kind: string, finish: Event)
    requires finish.Finish?
  {
    && Recent("timestamp", body) == Some(finish.timestamp)
    && Recent("cmd_type", body) == Some(kind)
    && Recent("cmd_status", body) == Some(finish.status)
  }

  predicate ShowsNothing(body: Body) {
    Recent("timestamp", body).None? && Recent("cmd_type", body).None?
  }

  function KindAt(es: seq<Event>, i: nat): string {
    if i < |es| && es[i].Finish? && es[i].post < |es| && es[es[i].post].Accept? then es[es[i].post].kind else ""
  }

  /** A good status reply shows the last finished command; not found means there is none. */
  ghost predicate StatusFrom(h: Timeline, n: nat, r: Reply) {
    var k := LastFinish(h.events, h.at(n));
    && (r.Reply? && r.code == NOT_FOUND ==> k == 0)
    && (Success(r) ==>
          if k == 0 then ShowsNothing(r.body) else Shows(r.body, KindAt(h.events, k - 1), h.events[k - 1]))
  }

  /** A good reply to a command means it was taken between the previous reply and this one. */
  ghost predicate CommandFrom(h: Timeline, n: nat, action: Action, r: Reply) {
    Success(r) ==>
      && (n > 0 ==> h.at(n - 1) <= h.took(n)) && h.took(n) < h.at(n)
      && h.took(n) < |h.events| && h.events[h.took(n)] == Accept(CommandName(action))
  }

  ghost predicate ReplyFrom(h: Timeline, request: Request, n: nat, r: Reply) {
    match request
    case GetStatus => StatusFrom(h, n, r)
    case Post(action) => CommandFrom(h, n, action, r)
  }

  /** The replies to the requests in the log come from a server that goes through `h`. */
  ghost predicate Behind(h: Timeline, log: seq<Request>, replies: nat -> Reply) {
    && Coherent(h.events)
    && (forall n: nat, m: nat :: n <= m ==> h.at(n) <= h.at(m) <= |h.events|)
    && (forall n {:trigger ReplyFrom(h, log[n], n, replies(n))} :: 0 <= n < |log| ==>
          ReplyFrom(h, log[n], n, replies(n)))
  }

  /** No other caller: nothing is running at reply `a`, and up to reply `c` the only command taken is
      the one of request `a + 1`. */
  ghost predicate Alone(h: Timeline, a: nat, c: nat) {
    && (forall p :: 0 <= p < h.at(a) && p < |h.events| && h.events[p].Accept? ==> FinishedBefore(h.events, p, h.at(a)))
    && (forall p :: h.at(a) <= p < h.at(c) && p < |h.events| && h.events[p].Accept? ==> p == h.took(a + 1))
  }

  ghost predicate FinishedBefore(es: seq<Event>, p: nat, n: nat) {
    exists i :: 0 <= i < n && i < |es| && es[i].Finish? && es[i].post == p
  }

  /** Event `i` finished a command of this kind with success, between replies `a` and `c`. */
  ghost predicate Succeeded(h: Timeline, a: nat, c: nat, action: Action, i: nat) {
    && h.at(a) <= i < h.at(c) <= |h.events|
    && h.events[i].Finish? && h.events[i].status == "Success"
    && KindAt(h.events, i) == CommandName(action)
  }

  /** Nothing else finished in that time, and `i` finished what request `a + 1` brought. */
  ghost predicate OnlyMine(h: Timeline, a: nat, c: nat, i: nat) {
    && h.at(a) <= i < h.at(c) <= |h.events|
    && h.events[i].Finish? && h.events[i].post == h.took(a + 1) && h.at(a) <= h.took(a + 1) < i
    && (forall j :: h.at(a) <= j < h.at(c) && h.events[j].Finish? ==> j == i)
  }

  lemma {:induction false} LastFinishSame(es: seq<Event>, n: nat, m: nat)
    requires n <= m && LastFinish(es, m) <= n
    ensures LastFinish(es, n) == LastFinish(es, m)
  {
    if n < m { LastFinishSame(es, n, m - 1); }
  }

  /** A reply that settles the matter shows some command, and not the timestamp read before. */
  lemma {:induction false} SettlesShown(r: Reply, action: Action, before: string)
    requires Settles(r, CommandName(action), before)
    ensures Success(r) && !ShowsNothing(r.body) && Recent("timestamp", r.body) != Some(before)
    ensures Recent("cmd_type", r.body) == Some(CommandName(action))
  {
    assert CommandName(action) != "missing";
  }

  lemma {:induction false} BeforeShown(r: Reply)
    requires Before(r).Some?
    ensures (r.Reply? && r.code == NOT_FOUND) || (Success(r) && Before(r) == Some(OrElse(Recent("timestamp", r.body), "first call")))
  {}

  /** It shows a command finished after the first status read. */
  lemma {:induction false} SettledIsNew(h: Timeline, a: nat, c: nat, first: Reply, last: Reply, before: string)
    requires h.at(a) <= h.at(c) && StatusFrom(h, a, first) && StatusFrom(h, c, last)
    requires || (first.Reply? && first.code == NOT_FOUND)
             || (Success(first) && before == OrElse(Recent("timestamp", first.body), "first call"))
    requires Success(last) && !ShowsNothing(last.body) && Recent("timestamp", last.body) != Some(before)
    ensures var k := LastFinish(h.events, h.at(c));
            h.at(a) < k && Shows(last.body, KindAt(h.events, k - 1), h.events[k - 1])
  {
    if LastFinish(h.events, h.at(c)) <= h.at(a) { LastFinishSame(h.events, h.at(a), h.at(c)); }
  }

  /** With no other caller, what finishes between the two replies is this call's command. */
  lemma {:induction false} MineFinished(h: Timeline, a: nat, c: nat, j: nat)
    requires Coherent(h.events) && Alone(h, a, c)
    requires h.at(a) <= j < h.at(c) <= |h.events| && h.events[j].Finish?
    ensures h.events[j].post == h.took(a + 1) && h.at(a) <= h.took(a + 1) < j
  {
    assert Rooted(h.events, j);
    var p := h.events[j].post;
    assert p < h.at(a) ==> FinishedBefore(h.events, p, h.at(a));
  }

  lemma {:induction false} AloneOnlyMine(h: Timeline, a: nat, c: nat, i: nat)
    requires Coherent(h.events) && Alone(h, a, c)
    requires h.at(a) <= i < h.at(c) <= |h.events| && h.events[i].Finish?
    ensures OnlyMine(h, a, c, i)
  {
    MineFinished(h, a, c, i);
    forall j | h.at(a) <= j < h.at(c) && h.events[j].Finish? ensures j == i { MineFinished(h, a, c, j); }
  }

  lemma {:induction false} ShownSuccess(r: Reply, action: Action, kind: string, finish: Event)
    requires finish.Finish? && r.Reply? && Shows(r.body, kind, finish) && ShowsSuccess(r)
    requires Recent("cmd_type", r.body) == Some(CommandName(action))
    ensures kind == CommandName(action) && finish.status == "Success"
  {}

  /** The first and the last reply of a confirmed call, and the finish between them. */
  lemma {:induction false} RepliesConfirm(h: Timeline, a: nat, c: nat, first: Reply, last: Reply, action: Action) returns (i: nat)
    requires h.at(a) <= h.at(c) <= |h.events| && StatusFrom(h, a, first) && StatusFrom(h, c, last)
    requires Before(first).Some? && Settles(last, CommandName(action), Before(first).value) && ShowsSuccess(last)
    ensures Succeeded(h, a, c, action, i)
  {
    SettlesShown(last, action, Before(first).value);
    BeforeShown(first);
    SettledIsNew(h, a, c, first, last, Before(first).value);
    i := LastFinish(h.events, h.at(c)) - 1;
    ShownSuccess(last, action, KindAt(h.events, i), h.events[i]);
  }

  /** Soundness: a confirmed call means that a command of the requested kind finished with success after
      the first status read; and with no other caller nothing else finished since then, and it is the
      command this call sent. */
  lemma {:induction false} ConfirmedIsReal(h: Timeline, log: seq<Request>, replies: nat -> Reply, from: nat, hi: nat,
                        action: Action, a: nat, c: nat) returns (i: nat)
    requires Behind(h, log, replies) && ConfirmedBy(log, replies, from, hi, action, a, c)
    ensures Succeeded(h, a, c, action, i)
    ensures Alone(h, a, c) ==> OnlyMine(h, a, c, i)
  {
    assert ReplyFrom(h, log[a], a, replies(a)) && ReplyFrom(h, log[c], c, replies(c));
    i := RepliesConfirm(h, a, c, replies(a), replies(c), action);
    if Alone(h, a, c) { AloneOnlyMine(h, a, c, i); }
  }

  /** The same for every server that could be behind the replies. */
  ghost predicate Happened(log: seq<Request>, replies: nat -> Reply, action: Action, a: nat, c: nat) {
    forall h :: Behind(h, log, replies) ==> HappenedIn(h, action, a, c)
  }

  ghost predicate HappenedIn(h: Timeline, action: Action, a: nat, c: nat) {
    exists i: nat :: Succeeded(h, a, c, action, i) && (Alone(h, a, c) ==> OnlyMine(h, a, c, i))
  }

  lemma {:induction false} ConfirmedHappened(log: seq<Request>, replies: nat -> Reply, from: nat, hi: nat,
                        action: Action, a: nat, c: nat)
    requires ConfirmedBy(log, replies, from, hi, action, a, c)
    ensures Happened(log, replies, action, a, c)
  {
    forall h | Behind(h, log, replies) ensures HappenedIn(h, action, a, c) {
      var i := ConfirmedIsReal(h, log, replies, from, hi, action, a, c);
    }
  }

  /** Somewhere from `from` on there is a call whose command happened. */
  ghost predicate HappenedSince(log: seq<Request>, replies: nat -> Reply, from: nat, action: Action) {
    exists a: nat, c: nat :: from <= a < c && Happened(log, replies, action, a, c)
  }

  lemma {:induction false} ConfirmedSince(log: seq<Request>, replies: nat -> Reply, from: nat, hi: nat, action: Action)
    requires Confirmed(log, replies, from, hi, action)
    ensures HappenedSince(log, replies, from, action)
  {
    var a: nat, c: nat :| ConfirmedBy(log, replies, from, hi, action, a, c);
    ConfirmedHappened(log, replies, from, hi, action, a, c);
  }

  // Another caller can be mistaken for this one.

  function StatusBody(timestamp: string, kind: string, status: string): Body {
    Some(Obj(map[RECENT :=
      Obj(map["timestamp" := Str(timestamp), "cmd_type" := Str(kind), "cmd_status" := Str(status)])]))
  }

  lemma {:induction false} StatusBodyShows(timestamp: string, kind: string, status: string, post: nat)
    ensures Shows(StatusBody(timestamp, kind, status), kind, Finish(post, timestamp, status))
  {}

  /** This call's refresh fails, and before its first poll another caller's refresh succeeds. */
  const TwoCallers := Timeline(
    [Accept("refresh"), Finish(0, "T1", "Failed"), Accept("refresh"), Finish(2, "T2", "Success")],
    (n: nat) => if n == 0 then 0 else if n == 1 then 1 else 4,
    (n: nat) => 0)

  const TwoCallersReply := (n: nat) =>
    if n == 0 then Reply(404, None)
    else if n == 1 then Reply(200, None)
    else Reply(200, StatusBody("T2", "refresh", "Success"))

  lemma {:induction false} TwoCallersStatus(n: nat)
    requires n != 1
    ensures StatusFrom(TwoCallers, n, TwoCallersReply(n))
  {
    StatusBodyShows("T2", "refresh", "Success", 2);
    assert LastFinish(TwoCallers.events, 4) == 4 && LastFinish(TwoCallers.events, 0) == 0;
  }

  lemma {:induction false} TwoCallersBehind(log: seq<Request>)
    requires OneCall(log, 0, Refresh)
    ensures Behind(TwoCallers, log, TwoCallersReply)
  {
    forall n | 0 <= n < |log| ensures ReplyFrom(TwoCallers, log[n], n, TwoCallersReply(n)) {
      if n != 1 { TwoCallersStatus(n); }
    }
  }

  /** With another caller a call can report success although its own command failed. */
  lemma {:induction false} OtherCallerConfirms(policy: WaitPolicy, r: Result<Body, Error>, polls: nat)
    requires policy.maxAttempts > 1 && CallOutcome(TwoCallersReply, 0, Refresh, policy, r, polls)
    ensures r.Ok? && Behind(TwoCallers, Exchange(true, Refresh, polls), TwoCallersReply)
    ensures TwoCallers.events[TwoCallers.took(1)] == Accept(CommandName(Refresh))
    ensures TwoCallers.events[1] == Finish(TwoCallers.took(1), "T1", "Failed")
  {
    StatusBodyShows("T2", "refresh", "Success", 2);
    var poll := From(TwoCallersReply, 2);
    assert poll(0) == Reply(200, StatusBody("T2", "refresh", "Success"));
    assert SettledAt(poll, "refresh", "first call", policy, 0) && ShowsSuccess(poll(0));
    OkIff(poll, "refresh", "first call", policy, r, polls);
    var log := Exchange(true, Refresh, polls);
    assert log == [] + log;
    ExchangeIsCall([], log, Refresh, polls);
    TwoCallersBehind(log);
  }

  // The order of requests.

  /** Between `from` and `hi` the log holds a call for `action` that the replies confirm: a status
      read, the accepted command, and a later status that shows it done with a new timestamp. */
  ghost predicate Confirmed(log: seq<Request>, replies: nat -> Reply, from: nat, hi: nat, action: Action) {
    exists a: nat, c: nat :: ConfirmedBy(log, replies, from, hi, action, a, c)
  }

  ghost predicate ConfirmedBy(log: seq<Request>, replies: nat -> Reply, from: nat, hi: nat,
                              action: Action, a: nat, c: nat) {
    && from <= a && a + 1 < c < hi <= |log|
    && log[a] == GetStatus && log[a + 1] == Post(action) && log[c] == GetStatus
    && (forall i :: a + 1 < i < c ==> log[i] == GetStatus)
    && RepliesOk(replies, a, c, action)
  }

  /** The body of a status reply. */
  function StatusAt(replies: nat -> Reply, i: int): Body {
    if i >= 0 && replies(i).Reply? then replies(i).body else None
  }

  /** From `from` on, activate follows a confirmed prepare and reboot a confirmed activate. */
  ghost predicate Ordered(log: seq<Request>, replies: nat -> Reply, from: nat) {
    forall i :: from <= i < |log| ==> OrderedAt(log, replies, from, i)
  }

  ghost predicate OrderedAt(log: seq<Request>, replies: nat -> Reply, from: nat, i: nat)
    requires i < |log|
  {
    && (log[i] == Post(Activate) ==> Confirmed(log, replies, from, i, Prepare))
    && (log[i] == Post(Reboot) ==> Confirmed(log, replies, from, i, Activate))
  }

  /** From `from` on, no command other than `action` is sent, and that at most once. */
  ghost predicate Only(log: seq<Request>, from: nat, action: Action) {
    forall i :: from <= i < |log| && log[i] != GetStatus ==> i == from + 1 && log[i] == Post(action)
  }

  ghost predicate NoReboot(log: seq<Request>, from: nat) {
    forall i :: from <= i < |log| ==> log[i] != Post(Reboot)
  }

  lemma {:induction false} ConfirmedLonger(log: seq<Request>, log': seq<Request>, replies: nat -> Reply,
                        from: nat, from': nat, hi: nat, hi': nat, action: Action)
    requires Confirmed(log, replies, from, hi, action) && log <= log'
    requires from' <= from && hi <= hi' <= |log'|
    ensures Confirmed(log', replies, from', hi', action)
  {
    var a: nat, c: nat :| ConfirmedBy(log, replies, from, hi, action, a, c);
    assert ConfirmedBy(log', replies, from', hi', action, a, c);
  }

  lemma {:induction false} ExchangeOnly(log0: seq<Request>, log: seq<Request>, sent: bool, action: Action, polls: nat)
    requires log == log0 + Exchange(sent, action, polls)
    ensures Only(log, |log0|, action)
  {}

  /** What a successful call says about its replies. */
  lemma {:induction false} OkFacts(replies: nat -> Reply, start: nat, action: Action, policy: WaitPolicy, r: Result<Body, Error>, polls: nat)
    requires CallOutcome(replies, start, action, policy, r, polls) && r.Ok?
    ensures polls > 0 && Accepted(replies, start)
    ensures RepliesOk(replies, start, start + 1 + polls, action) && r.value == StatusAt(replies, start + 1 + polls)
  {
    assert From(replies, start + 2)(polls - 1) == replies(start + 1 + polls);
  }

  /** From `start` on the log is one call: a status read, the command, and then only status reads. */
  ghost predicate OneCall(log: seq<Request>, start: nat, action: Action) {
    && start + 1 < |log|
    && log[start] == GetStatus && log[start + 1] == Post(action)
    && (forall i :: start + 1 < i < |log| ==> log[i] == GetStatus)
  }

  lemma {:induction false} ExchangeIsCall(log0: seq<Request>, log: seq<Request>, action: Action, polls: nat)
    requires log == log0 + Exchange(true, action, polls)
    ensures OneCall(log, |log0|, action) && |log| == |log0| + 2 + polls
  {
    assert log[|log0|] == GetStatus && log[|log0| + 1] == Post(action);
  }

  /** What the replies of a confirmed call have in common. */
  ghost predicate RepliesOk(replies: nat -> Reply, a: nat, c: nat, action: Action) {
    && Success(replies(a + 1))
    && Before(replies(a)).Some?
    && Settles(replies(c), CommandName(action), Before(replies(a)).value)
    && ShowsSuccess(replies(c))
  }

  /** What a call that succeeded leaves behind: its confirmation in the log, the last status, and
      against any server that could be behind the replies, an accepted command that happened. */
  ghost predicate CallDone(log: seq<Request>, replies: nat -> Reply, start: nat, action: Action, status: Body) {
    && Confirmed(log, replies, start, |log|, action)
    && status == StatusAt(replies, |log| - 1)
    && Accepted(replies, start)
    && Happened(log, replies, action, start, |log| - 1)
  }

  lemma {:induction false} CallIsConfirmed(log: seq<Request>, replies: nat -> Reply, start: nat, action: Action)
    requires OneCall(log, start, action) && |log| > start + 2 && RepliesOk(replies, start, |log| - 1, action)
    ensures Confirmed(log, replies, start, |log|, action) && Accepted(replies, start)
  {
    assert ConfirmedBy(log, replies, start, |log|, action, start, |log| - 1);
  }

  lemma {:induction false} CallHappened(log: seq<Request>, replies: nat -> Reply, start: nat, action: Action)
    requires OneCall(log, start, action) && |log| > start + 2 && RepliesOk(replies, start, |log| - 1, action)
    ensures Happened(log, replies, action, start, |log| - 1)
  {
    ConfirmedHappened(log, replies, start, |log|, action, start, |log| - 1);
  }

  /** A `wait_request` that succeeds leaves its confirmation in the log. */
  lemma {:induction false} OkIsDone(log: seq<Request>, replies: nat -> Reply, start: nat, action: Action, status: Body)
    requires OneCall(log, start, action) && |log| > start + 2
    requires RepliesOk(replies, start, |log| - 1, action) && status == StatusAt(replies, |log| - 1)
    ensures CallDone(log, replies, start, action, status)
  {
    CallIsConfirmed(log, replies, start, action);
    CallHappened(log, replies, start, action);
  }

  lemma {:induction false} CallFacts(log0: seq<Request>, log: seq<Request>, replies: nat -> Reply, action: Action,
                     policy: WaitPolicy, r: Result<Body, Error>, polls: nat)
    requires log == log0 + Exchange(true, action, polls)
    requires CallOutcome(replies, |log0|, action, policy, r, polls) && r.Ok?
    ensures OneCall(log, |log0|, action) && |log| > |log0| + 2
    ensures RepliesOk(replies, |log0|, |log| - 1, action) && r.value == StatusAt(replies, |log| - 1)
  {
    ExchangeIsCall(log0, log, action, polls);
    OkFacts(replies, |log0|, action, policy, r, polls);
  }

  lemma {:induction false} CallEffect(log0: seq<Request>, log: seq<Request>, replies: nat -> Reply, action: Action,
                     policy: WaitPolicy, r: Result<Body, Error>, polls: nat)
    requires log == log0 + Exchange(true, action, polls)
    requires CallOutcome(replies, |log0|, action, policy, r, polls) && r.Ok?
    ensures CallDone(log, replies, |log0|, action, r.value)
  {
    CallFacts(log0, log, replies, action, policy, r, polls);
    OkIsDone(log, replies, |log0|, action, r.value);
  }

  // Exactly when calls succeed.

  /** A call that begins with request `start` succeeds, and the next request after it is `next`. */
  ghost predicate Succeeds(replies: nat -> Reply, start: nat, action: Action, policy: WaitPolicy, next: nat) {
    && start + 3 <= next && Accepted(replies, start)
    && SettledAt(From(replies, start + 2), CommandName(action), Before(replies(start)).value, policy, next - start - 3)
    && ShowsSuccess(From(replies, start + 2)(next - start - 3))
  }

  lemma {:induction false} SucceedsOnce(replies: nat -> Reply, start: nat, action: Action, policy: WaitPolicy, n: nat, m: nat)
    requires Succeeds(replies, start, action, policy, n) && Succeeds(replies, start, action, policy, m)
    ensures n == m
  {
    OnlySettlement(From(replies, start + 2), CommandName(action), Before(replies(start)).value, policy, n - start - 3);
  }

  /** The call returns Ok exactly if it succeeds. */
  lemma {:induction false} OkMeansSucceeds(replies: nat -> Reply, start: nat, action: Action, policy: WaitPolicy,
                                           r: Result<Body, Error>, polls: nat)
    requires CallOutcome(replies, start, action, policy, r, polls)
    ensures r.Ok? ==> Succeeds(replies, start, action, policy, start + 2 + polls)
    ensures r.Err? ==> Fruitless(replies, start, action, policy)
  {
    if Accepted(replies, start) {
      var poll := From(replies, start + 2);
      OkIff(poll, CommandName(action), Before(replies(start)).value, policy, r, polls);
    }
  }

  ghost predicate Fruitless(replies: nat -> Reply, start: nat, action: Action, policy: WaitPolicy) {
    forall n: nat :: !Succeeds(replies, start, action, policy, n)
  }

  /** What one call does to the log, and exactly when it succeeds. */
  ghost predicate CallResult(log0: seq<Request>, log: seq<Request>, replies: nat -> Reply, action: Action,
                             policy: WaitPolicy, r: Result<Body, Error>) {
    && log0 <= log && Only(log, |log0|, action)
    && (if r.Ok? then CallDone(log, replies, |log0|, action, r.value) && Succeeds(replies, |log0|, action, policy, |log|)
        else Fruitless(replies, |log0|, action, policy))
  }

  lemma {:induction false} CallEnds(log0: seq<Request>, log: seq<Request>, replies: nat -> Reply, action: Action,
                     policy: WaitPolicy, r: Result<Body, Error>, polls: nat, sent: bool)
    requires log == log0 + Exchange(sent, action, polls) && (r.Ok? ==> sent)
    requires CallOutcome(replies, |log0|, action, policy, r, polls)
    ensures CallResult(log0, log, replies, action, policy, r)
  {
    ExchangeOnly(log0, log, sent, action, polls);
    OkMeansSucceeds(replies, |log0|, action, policy, r, polls);
    if r.Ok? {
      CallEffect(log0, log, replies, action, policy, r, polls);
      assert |log| == |log0| + 2 + polls;
    }
  }

  /** One waiting call with its place in the log. */
  method Call(api: Api, action: Action, policy: WaitPolicy) returns (r: Result<Body, Error>)
    modifies api
    ensures CallResult(old(api.log), api.log, api.replies, action, policy, r)
  {
    ghost var log0 := api.log;
    var polls, slept, sent;
    r, polls, slept, sent := WaitRequest(api, action, policy);
    CallEnds(log0, api.log, api.replies, action, policy, r, polls, sent);
  }

  /** `update::required`. */
  predicate Required(status: Body) {
    var state := OrElse(Field(["update_state"], status), "unknown");
    state != "Idle" && state != "Ready"
  }

  /** An update is wanted unless the state is Idle or Ready; an unknown state counts as wanted. */
  lemma {:induction false} RequiredIff(status: Body)
    ensures Required(status) <==> Field(["update_state"], status) !in {Some("Idle"), Some("Ready")}
  {}

  /** A confirmed refresh whose status leaves an update to apply. */
  ghost predicate Wanted(log: seq<Request>, replies: nat -> Reply, from: nat) {
    exists hi: nat :: hi <= |log| && Confirmed(log, replies, from, hi, Refresh) && Required(StatusAt(replies, hi - 1))
  }

  lemma {:induction false} WantedLonger(log: seq<Request>, log': seq<Request>, replies: nat -> Reply, from: nat)
    requires Wanted(log, replies, from) && log <= log'
    ensures Wanted(log', replies, from)
  {
    var hi: nat :| hi <= |log| && Confirmed(log, replies, from, hi, Refresh) && Required(StatusAt(replies, hi - 1));
    ConfirmedLonger(log, log', replies, from, from, hi, hi, Refresh);
  }

  /** `update::check` and the decision whether to go on. */
  method Check(api: Api) returns (r: Result<bool, Error>)
    modifies api
    ensures old(api.log) <= api.log && Only(api.log, |old(api.log)|, Refresh)
    ensures r == Ok(true) ==> Wanted(api.log, api.replies, |old(api.log)|)
    ensures r == Ok(false) ==>
      && Confirmed(api.log, api.replies, |old(api.log)|, |api.log|, Refresh)
      && !Required(StatusAt(api.replies, |api.log| - 1))
    ensures r.Ok? ==> Succeeds(api.replies, |old(api.log)|, Refresh, WaitPolicy(100, 100), |api.log|)
                      && r.value == Required(StatusAt(api.replies, |api.log| - 1))
    ensures r.Err? ==> Fruitless(api.replies, |old(api.log)|, Refresh, WaitPolicy(100, 100))
  {
    var output := Call(api, Refresh, WaitPolicy(100, 10 * 10));
    r := if output.Ok? then Ok(Required(output.value)) else Err(output.error);
  }

  lemma {:induction false} OrderedExtends(log: seq<Request>, log': seq<Request>, replies: nat -> Reply, from: nat, action: Action)
    requires Ordered(log, replies, from) && from <= |log| && log <= log' && Only(log', |log|, action)
    requires action == Activate ==> Confirmed(log, replies, from, |log|, Prepare)
    requires action == Reboot ==> Confirmed(log, replies, from, |log|, Activate)
    ensures Ordered(log', replies, from)
  {
    forall i | from <= i < |log'|
      ensures OrderedAt(log', replies, from, i)
    {
      var done := if log'[i] == Post(Activate) then Prepare else Activate;
      if log'[i] == Post(Activate) || log'[i] == Post(Reboot) {
        if i < |log| {
          assert OrderedAt(log, replies, from, i) && log[i] == log'[i];
          ConfirmedLonger(log, log', replies, from, from, i, i, done);
        } else {
          ConfirmedLonger(log, log', replies, from, from, |log|, i, done);
        }
      }
    }
  }

  /** Prepare and then activate succeed, with these intervals (in milliseconds) and numbers of attempts. */
  ghost predicate Applies(replies: nat -> Reply, start: nat, end: nat) {
    exists mid: nat :: AppliesVia(replies, start, mid, end)
  }

  ghost predicate AppliesVia(replies: nat -> Reply, start: nat, mid: nat, end: nat) {
    && Succeeds(replies, start, Prepare, WaitPolicy(500, 1200), mid)
    && Succeeds(replies, mid, Activate, WaitPolicy(100, 50), end)
  }

  ghost predicate NeverApplies(replies: nat -> Reply, start: nat) {
    forall end: nat :: !Applies(replies, start, end)
  }

  lemma {:induction false} NoPrepare(replies: nat -> Reply, start: nat)
    requires Fruitless(replies, start, Prepare, WaitPolicy(500, 1200))
    ensures NeverApplies(replies, start)
  {
    forall end: nat ensures !Applies(replies, start, end) {
      assert forall mid: nat :: !Succeeds(replies, start, Prepare, WaitPolicy(500, 1200), mid);
    }
  }

  lemma {:induction false} NoActivate(replies: nat -> Reply, start: nat, mid: nat)
    requires Succeeds(replies, start, Prepare, WaitPolicy(500, 1200), mid)
    requires Fruitless(replies, mid, Activate, WaitPolicy(100, 50))
    ensures NeverApplies(replies, start)
  {
    forall m: nat | Succeeds(replies, start, Prepare, WaitPolicy(500, 1200), m) ensures m == mid {
      SucceedsOnce(replies, start, Prepare, WaitPolicy(500, 1200), mid, m);
    }
    assert forall end: nat :: !Succeeds(replies, mid, Activate, WaitPolicy(100, 50), end);
  }

  lemma {:induction false} AppliesOnce(replies: nat -> Reply, start: nat, end: nat, end': nat)
    requires Applies(replies, start, end) && Applies(replies, start, end')
    ensures end == end'
  {
    var m: nat :| AppliesVia(replies, start, m, end);
    var n: nat :| AppliesVia(replies, start, n, end');
    SucceedsOnce(replies, start, Prepare, WaitPolicy(500, 1200), m, n);
    SucceedsOnce(replies, m, Activate, WaitPolicy(100, 50), end, end');
  }

  /** What `update::apply` does to the log, and exactly when it succeeds. */
  ghost predicate ApplyResult(log0: seq<Request>, log: seq<Request>, replies: nat -> Reply, from: nat, ok: bool) {
    && log0 <= log && Ordered(log, replies, from) && NoReboot(log, |log0|)
    && (ok ==> Confirmed(log, replies, from, |log|, Activate))
    && (if ok then Applies(replies, |log0|, |log|) else NeverApplies(replies, |log0|))
  }

  lemma {:induction false} PrepareFails(log0: seq<Request>, log: seq<Request>, replies: nat -> Reply, from: nat)
    requires from <= |log0| && Ordered(log0, replies, from) && log0 <= log && Only(log, |log0|, Prepare)
    requires Fruitless(replies, |log0|, Prepare, WaitPolicy(500, 1200))
    ensures ApplyResult(log0, log, replies, from, false)
  {
    OrderedExtends(log0, log, replies, from, Prepare);
    NoPrepare(replies, |log0|);
  }

  lemma {:induction false} PrepareWorks(log0: seq<Request>, log: seq<Request>, replies: nat -> Reply, from: nat)
    requires from <= |log0| && Ordered(log0, replies, from) && log0 <= log && Only(log, |log0|, Prepare)
    requires Confirmed(log, replies, |log0|, |log|, Prepare)
    ensures Ordered(log, replies, from) && Confirmed(log, replies, from, |log|, Prepare)
  {
    OrderedExtends(log0, log, replies, from, Prepare);
    ConfirmedLonger(log, log, replies, |log0|, from, |log|, |log|, Prepare);
  }

  lemma {:induction false} ActivateEnds(log0: seq<Request>, log1: seq<Request>, log2: seq<Request>, replies: nat -> Reply,
                                        from: nat, ok: bool)
    requires from <= |log0| && log0 <= log1 <= log2 && Only(log1, |log0|, Prepare) && Only(log2, |log1|, Activate)
    requires Ordered(log1, replies, from) && Confirmed(log1, replies, from, |log1|, Prepare)
    requires Succeeds(replies, |log0|, Prepare, WaitPolicy(500, 1200), |log1|)
    requires if ok then Confirmed(log2, replies, |log1|, |log2|, Activate)
                        && Succeeds(replies, |log1|, Activate, WaitPolicy(100, 50), |log2|)
             else Fruitless(replies, |log1|, Activate, WaitPolicy(100, 50))
    ensures ApplyResult(log0, log2, replies, from, ok)
  {
    OrderedExtends(log1, log2, replies, from, Activate);
    NoRebootTwice(log0, log1, log2);
    if ok {
      ConfirmedLonger(log2, log2, replies, |log1|, from, |log2|, |log2|, Activate);
      assert AppliesVia(replies, |log0|, |log1|, |log2|);
    } else {
      NoActivate(replies, |log0|, |log1|);
    }
  }

  lemma {:induction false} NoRebootTwice(log0: seq<Request>, log1: seq<Request>, log2: seq<Request>)
    requires log0 <= log1 <= log2 && Only(log1, |log0|, Prepare) && Only(log2, |log1|, Activate)
    ensures NoReboot(log2, |log0|)
  {
    forall i | |log0| <= i < |log2| ensures log2[i] != Post(Reboot) {
      if i < |log1| { assert log2[i] == log1[i]; }
    }
  }

  /** `update::apply`: prepare, then activate. */
  method Apply(api: Api, ghost from: nat) returns (r: Result<Body, Error>)
    requires from <= |api.log| && Ordered(api.log, api.replies, from)
    modifies api
    ensures ApplyResult(old(api.log), api.log, api.replies, from, r.Ok?)
  {
    ghost var log0 := api.log;
    r := Call(api, Prepare, WaitPolicy(500, 2 * 60 * 10));
    ghost var log1 := api.log;
    if r.Err? {
      PrepareFails(log0, log1, api.replies, from);
      return;
    }
    PrepareWorks(log0, log1, api.replies, from);
    r := Call(api, Activate, WaitPolicy(100, 10 * 5));
    ActivateEnds(log0, log1, api.log, api.replies, from, r.Ok?);
  }

  datatype Applied = Nothing | Done | Failed

  ghost predicate RebootAccepted(log: seq<Request>, replies: nat -> Reply) {
    log != [] && log[|log| - 1] == Post(Reboot) && Success(replies(|log| - 1))
  }

  /** The update is applied, and if asked for, the reboot request right after it gets a good reply. */
  ghost predicate Completes(replies: nat -> Reply, start: nat, reboot: bool) {
    exists end: nat :: Applies(replies, start, end) && (reboot ==> Success(replies(end)))
  }

  lemma {:induction false} CompletesIff(replies: nat -> Reply, start: nat, end: nat, reboot: bool)
    requires Applies(replies, start, end)
    ensures Completes(replies, start, reboot) <==> (reboot ==> Success(replies(end)))
  {
    if n: nat :| Applies(replies, start, n) && (reboot ==> Success(replies(n))) {
      AppliesOnce(replies, start, n, end);
    }
  }

  /** What `update::apply` and the reboot after it do, and exactly when they succeed. */
  ghost predicate RebootResult(log0: seq<Request>, log: seq<Request>, replies: nat -> Reply, from: nat, reboot: bool, ok: bool) {
    && log0 <= log && Ordered(log, replies, from) && (!reboot ==> NoReboot(log, |log0|))
    && (ok ==> Confirmed(log, replies, from, |log|, Activate) && HappenedSince(log, replies, from, Activate))
    && (ok && reboot ==> RebootAccepted(log, replies))
    && (ok <==> Completes(replies, |log0|, reboot))
  }

  lemma {:induction false} NothingToReboot(log0: seq<Request>, log: seq<Request>, replies: nat -> Reply, from: nat, reboot: bool)
    requires ApplyResult(log0, log, replies, from, false)
    ensures RebootResult(log0, log, replies, from, reboot, false)
  {}

  lemma {:induction false} AppliedOnly(log0: seq<Request>, log: seq<Request>, replies: nat -> Reply, from: nat)
    requires ApplyResult(log0, log, replies, from, true)
    ensures RebootResult(log0, log, replies, from, false, true)
  {
    CompletesIff(replies, |log0|, |log|, false);
    ConfirmedSince(log, replies, from, |log|, Activate);
  }

  lemma {:induction false} ThenRebooted(log0: seq<Request>, log1: seq<Request>, log2: seq<Request>, replies: nat -> Reply,
                                        from: nat, ok: bool)
    requires ApplyResult(log0, log1, replies, from, true) && log1 <= log2 && Ordered(log2, replies, from)
    requires Confirmed(log2, replies, from, |log2|, Activate) && (ok ==> RebootAccepted(log2, replies))
    requires ok <==> Success(replies(|log1|))
    ensures RebootResult(log0, log2, replies, from, true, ok)
  {
    CompletesIff(replies, |log0|, |log1|, true);
    ConfirmedSince(log2, replies, from, |log2|, Activate);
  }

  /** `update::apply` and the reboot after it. */
  method ApplyAndReboot(api: Api, reboot: bool, ghost from: nat) returns (ok: bool)
    requires from <= |api.log| && Ordered(api.log, api.replies, from)
    modifies api
    ensures RebootResult(old(api.log), api.log, api.replies, from, reboot, ok)
  {
    ghost var log0 := api.log;
    var applied := Apply(api, from);
    ghost var log1 := api.log;
    if applied.Err? {
      NothingToReboot(log0, log1, api.replies, from, reboot);
      return false;
    }
    if !reboot {
      AppliedOnly(log0, log1, api.replies, from);
      return true;
    }
    ok := RebootNow(api, from);
    ThenRebooted(log0, log1, api.log, api.replies, from, ok);
  }

  /** `reboot::reboot`. */
  method RebootNow(api: Api, ghost from: nat) returns (ok: bool)
    requires from <= |api.log| && Ordered(api.log, api.replies, from)
    requires Confirmed(api.log, api.replies, from, |api.log|, Activate)
    modifies api
    ensures old(api.log) <= api.log && Ordered(api.log, api.replies, from)
    ensures Confirmed(api.log, api.replies, from, |api.log|, Activate)
    ensures ok ==> RebootAccepted(api.log, api.replies)
    ensures ok <==> Success(api.replies(|old(api.log)|))
  {
    ghost var log' := api.log + [Post(Reboot)];
    RebootLast(api.log, log', api.replies, from);
    var reply := api.Send(Post(Reboot));
    assert api.log == log';
    ok := Success(reply);
  }

  lemma {:induction false} NoRebootAdd(log: seq<Request>, log': seq<Request>, from: nat, action: Action)
    requires Only(log, from, action) && action != Reboot && log <= log' && NoReboot(log', |log|)
    ensures NoReboot(log', from)
  {}

  /** What the replies decide: without `--check` the update is done exactly if it completes; with it the
      refresh has to succeed, its status says whether there is anything to do, and then the same. */
  ghost predicate ExactResult(replies: nat -> Reply, start: nat, check: bool, reboot: bool, r: Applied) {
    if !check then r == if Completes(replies, start, reboot) then Done else Failed
    else if Fruitless(replies, start, Refresh, WaitPolicy(100, 100)) then r == Failed
    else
      forall n: nat :: Succeeds(replies, start, Refresh, WaitPolicy(100, 100), n) ==>
        r == if Field(["update_state"], StatusAt(replies, n - 1)) in {Some("Idle"), Some("Ready")} then Nothing
             else if Completes(replies, n, reboot) then Done else Failed
  }

  lemma {:induction false} CheckedResult(replies: nat -> Reply, start: nat, n: nat, reboot: bool, r: Applied)
    requires Succeeds(replies, start, Refresh, WaitPolicy(100, 100), n)
    requires r == if !Required(StatusAt(replies, n - 1)) then Nothing
                  else if Completes(replies, n, reboot) then Done else Failed
    ensures ExactResult(replies, start, true, reboot, r)
  {
    RequiredIff(StatusAt(replies, n - 1));
    assert !Fruitless(replies, start, Refresh, WaitPolicy(100, 100));
    forall m: nat | Succeeds(replies, start, Refresh, WaitPolicy(100, 100), m) ensures m == n {
      SucceedsOnce(replies, start, Refresh, WaitPolicy(100, 100), n, m);
    }
  }

  /** The order of requests over the whole command, from `from` on. */
  ghost predicate RunOrder(log: seq<Request>, replies: nat -> Reply, from: nat, check: bool, reboot: bool, r: Applied) {
    && Ordered(log, replies, from)
    && (!reboot ==> NoReboot(log, from))
    && (check ==> Only(log, from, Refresh) || Wanted(log, replies, from))
    && (r == Nothing ==> check && Only(log, from, Refresh) && !Required(StatusAt(replies, |log| - 1)))
    && (r == Done ==> Confirmed(log, replies, from, |log|, Activate) && HappenedSince(log, replies, from, Activate))
    && (r == Done && reboot ==> RebootAccepted(log, replies))
  }

  ghost predicate RunResult(log: seq<Request>, replies: nat -> Reply, from: nat, check: bool, reboot: bool, r: Applied) {
    RunOrder(log, replies, from, check, reboot, r) && ExactResult(replies, from, check, reboot, r)
  }

  lemma {:induction false} UncheckedRun(log0: seq<Request>, log: seq<Request>, replies: nat -> Reply, reboot: bool, ok: bool)
    requires RebootResult(log0, log, replies, |log0|, reboot, ok)
    ensures RunResult(log, replies, |log0|, false, reboot, if ok then Done else Failed)
  {}

  /** The refresh failed or found nothing to do. */
  lemma {:induction false} CheckedOut(log0: seq<Request>, log: seq<Request>, replies: nat -> Reply, reboot: bool, failed: bool)
    requires log0 <= log && Only(log, |log0|, Refresh)
    requires if failed then Fruitless(replies, |log0|, Refresh, WaitPolicy(100, 100))
             else Succeeds(replies, |log0|, Refresh, WaitPolicy(100, 100), |log|) && !Required(StatusAt(replies, |log| - 1))
    ensures RunResult(log, replies, |log0|, true, reboot, if failed then Failed else Nothing)
  {
    assert Ordered(log0, replies, |log0|);
    OrderedExtends(log0, log, replies, |log0|, Refresh);
    NoRebootAdd(log, log, |log0|, Refresh);
    if !failed { CheckedResult(replies, |log0|, |log|, reboot, Nothing); }
  }

  /** The refresh found something to do. */
  lemma {:induction false} CheckedOrder(log0: seq<Request>, log1: seq<Request>, log2: seq<Request>, replies: nat -> Reply,
                                        reboot: bool, ok: bool)
    requires log0 <= log1 && Only(log1, |log0|, Refresh) && Wanted(log1, replies, |log0|)
    requires RebootResult(log1, log2, replies, |log0|, reboot, ok)
    ensures RunOrder(log2, replies, |log0|, true, reboot, if ok then Done else Failed)
  {
    WantedLonger(log1, log2, replies, |log0|);
    if !reboot { NoRebootAdd(log1, log2, |log0|, Refresh); }
  }

  lemma {:induction false} CheckedRun(log0: seq<Request>, log1: seq<Request>, log2: seq<Request>, replies: nat -> Reply,
                                      reboot: bool, ok: bool)
    requires log0 <= log1 && Only(log1, |log0|, Refresh) && Wanted(log1, replies, |log0|)
    requires Succeeds(replies, |log0|, Refresh, WaitPolicy(100, 100), |log1|) && Required(StatusAt(replies, |log1| - 1))
    requires RebootResult(log1, log2, replies, |log0|, reboot, ok)
    ensures RunResult(log2, replies, |log0|, true, reboot, if ok then Done else Failed)
  {
    CheckedOrder(log0, log1, log2, replies, reboot, ok);
    CheckedResult(replies, |log0|, |log1|, reboot, if ok then Done else Failed);
  }

  /** With `--check`: nothing beyond the refresh is sent unless it was confirmed and its status is neither
      Idle nor Ready. */
  method CheckedApply(api: Api, reboot: bool) returns (r: Applied)
    modifies api
    ensures old(api.log) <= api.log
    ensures RunResult(api.log, api.replies, |old(api.log)|, true, reboot, r)
  {
    ghost var log0 := api.log;
    var go := Check(api);
    ghost var log1 := api.log;
    if go.Err? || !go.value {
      CheckedOut(log0, log1, api.replies, reboot, go.Err?);
      return if go.Err? then Failed else Nothing;
    }
    assert Ordered(log0, api.replies, |log0|);
    OrderedExtends(log0, log1, api.replies, |log0|, Refresh);
    var ok := ApplyAndReboot(api, reboot, |log0|);
    CheckedRun(log0, log1, api.log, api.replies, reboot, ok);
    r := if ok then Done else Failed;
  }

  /** `apiclient update apply [--check] [--reboot]`.  Whatever the server replies: activate is sent only
      after prepare was confirmed, reboot only after activate was, reboot only if asked for, and with
      `--check` nothing beyond the refresh unless there is an update.  And the result is exactly what the
      replies decide. */
  method UpdateApply(api: Api, check: bool, reboot: bool) returns (r: Applied)
    modifies api
    ensures old(api.log) <= api.log
    ensures RunResult(api.log, api.replies, |old(api.log)|, check, reboot, r)
  {
    if check {
      r := CheckedApply(api, reboot);
    } else {
      ghost var log0 := api.log;
      assert Ordered(log0, api.replies, |log0|);
      var ok := ApplyAndReboot(api, reboot, |log0|);
      UncheckedRun(log0, api.log, api.replies, reboot, ok);
      r := if ok then Done else Failed;
    }
  }

  lemma {:induction false} RebootLast(log: seq<Request>, log': seq<Request>, replies: nat -> Reply, from: nat)
    requires Ordered(log, replies, from) && from <= |log| && Confirmed(log, replies, from, |log|, Activate)
    requires log' == log + [Post(Reboot)]
    ensures Ordered(log', replies, from) && Confirmed(log', replies, from, |log'|, Activate)
  {
    ConfirmedLonger(log, log', replies, from, from, |log|, |log'|, Activate);
    forall i | from <= i < |log'| ensures OrderedAt(log', replies, from, i) {
      if i == |log| {
        ConfirmedLonger(log, log', replies, from, from, |log|, |log|, Activate);
      } else {
        assert OrderedAt(log, replies, from, i) && log'[i] == log[i];
        OrderedLonger(log, log', replies, from, i);
      }
    }
  }

  lemma {:induction false} OrderedLonger(log: seq<Request>, log': seq<Request>, replies: nat -> Reply, from: nat, i: nat)
    requires log <= log' && i < |log| && OrderedAt(log, replies, from, i)
    ensures OrderedAt(log', replies, from, i)
  {
    if log[i] == Post(Activate) { ConfirmedLonger(log, log', replies, from, from, i, i, Prepare); }
    if log[i] == Post(Reboot) { ConfirmedLonger(log, log', replies, from, from, i, i, Activate); }
  }
}
