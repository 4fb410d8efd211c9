/** `wait_request`: issuing an update command and waiting for the status API to confirm it. */
module UpdateWait {
  import opened Prelude

  // Response bodies.

  datatype Json = Null | Bool(b: bool) | Num(n: int) | Str(s: string) | Arr(items: seq<Json>)
                | Obj(fields: map<string, Json>)

  /** A body that is not JSON is `None`. */
  type Body = Option<Json>

  /** Where the cursor of `response_field` ends: it stops in front of the first missing key. */
  function Reach(j: Json, path: seq<string>): Json
    decreases |path|
  {
    if path != [] && j.Obj? && path[0] in j.fields then Reach(j.fields[path[0]], path[1..]) else j
  }

  function AsStr(j: Json): Option<string> {
    if j.Str? then Some(j.s) else None
  }

  function Field(path: seq<string>, body: Body): Option<string> {
    if body.None? then None else AsStr(Reach(body.value, path))
  }

  /** `response_field`. */
  method ResponseField(path: seq<string>, body: Body) returns (r: Option<string>)
    ensures r == Field(path, body)
  {
    if body.None? { return None; }
    var cursor := body.value;
    var i := 0;
    while i < |path|
      invariant 0 <= i <= |path|
      invariant Reach(body.value, path) == Reach(cursor, path[i..])
    {
      if cursor.Obj? && path[i] in cursor.fields {
        cursor := cursor.fields[path[i]];
        assert path[i..][1..] == path[i + 1..];
      } else {
        return AsStr(cursor);
      }
      i := i + 1;
    }
    r := AsStr(cursor);
  }

  /** The value at a path, if every key on it exists. */
  function Lookup(j: Json, path: seq<string>): Option<Json>
    decreases |path|
  {
    if path == [] then Some(j)
    else if j.Obj? && path[0] in j.fields then Lookup(j.fields[path[0]], path[1..])
    else None
  }

  /** The field is the string at the path; and although the documentation says that a missing key
      gives nothing, that is so exactly when no string sits on the way to it. */
  lemma {:induction false} FieldMeaning(j: Json, path: seq<string>)
    ensures Lookup(j, path).Some? ==> Field(path, Some(j)) == AsStr(Lookup(j, path).value)
    ensures Lookup(j, path).None? ==>
      (Field(path, Some(j)).None? <==>
        !exists k :: 0 <= k < |path| && Lookup(j, path[..k]).Some? && Lookup(j, path[..k]).value.Str?)
    decreases |path|
  {
    if path != [] {
      assert path[..0] == [];
      if j.Obj? && path[0] in j.fields {
        var next, rest := j.fields[path[0]], path[1..];
        FieldMeaning(next, rest);
        forall k | 0 < k <= |path| ensures Lookup(j, path[..k]) == Lookup(next, rest[..k - 1]) {
          assert path[..k][1..] == rest[..k - 1];
        }
        if Lookup(j, path).None? {
          forall k | 0 <= k < |rest| ensures Lookup(next, rest[..k]) == Lookup(j, path[..k + 1]) {}
          assert Lookup(j, path[..0]) == Some(j);
        }
      } else {
        assert Lookup(j, path[..0]) == Some(j);
        forall k | 0 < k < |path| ensures Lookup(j, path[..k]).None? { assert path[..k][0] == path[0]; }
      }
    }
  }

  /** A body whose `most_recent_command` is a string answers for every field of it. */
  lemma {:induction false} MissingKeyAnswered()
    ensures var body := Obj(map["most_recent_command" := Str("refresh")]);
            && Lookup(body, ["most_recent_command", "cmd_type"]).None?
            && Field(["most_recent_command", "cmd_type"], Some(body)) == Some("refresh")
  {
    var body := Obj(map["most_recent_command" := Str("refresh")]);
    var path := ["most_recent_command", "cmd_type"];
    assert path[1..] == ["cmd_type"];
    assert Reach(body, path) == Reach(Str("refresh"), ["cmd_type"]);
    assert Lookup(body, path) == Lookup(Str("refresh"), ["cmd_type"]);
  }

  // Requests and replies.

  datatype Reply = Lost | Reply(code: nat, body: Body)

  predicate Success(r: Reply) {
    r.Reply? && 200 <= r.code < 300
  }

  const NOT_FOUND := 404
  const LOCKED := 423

  datatype Action = Refresh | Prepare | Activate | Deactivate | Reboot

  datatype Request = GetStatus | Post(action: Action)

  function CommandName(a: Action): string {
    match a
    case Refresh => "refresh"
    case Prepare => "prepare"
    case Activate => "activate"
    case Deactivate => "deactivate"
    case Reboot => "reboot"
  }

  /** The server, from the client's side: whatever the n-th request gets as its reply. */
  class Api {
    var log: seq<Request>
    const replies: nat -> Reply

    constructor (replies: nat -> Reply)
      ensures log == [] && this.replies == replies
    {
      this.replies := replies;
      log := [];
    }

    method Send(request: Request) returns (r: Reply)
      modifies this
      ensures log == old(log) + [request]
      ensures r == replies(|old(log)|)
    {
      r := replies(|log|);
      log := log + [request];
    }
  }

  datatype Error =
    | StatusUnavailable | MissingStatus | RequestFailed | TimedOut | StatusCheckFailed
    | CommandFailed(status: string)

  datatype WaitPolicy = WaitPolicy(betweenAttempts: nat, maxAttempts: nat)

  const MAX_FAILURES := 5
  const NOTIFY_EVERY := 5000

  function OrElse(o: Option<string>, s: string): string {
    if o.Some? then o.value else s
  }

  const RECENT := "most_recent_command"

  /** A field of the most recent command, as `response_field` finds it. */
  function Recent(field: string, body: Body): Option<string> {
    if body.None? then None
    else if body.value.Obj? && RECENT in body.value.fields then
      var command := body.value.fields[RECENT];
      AsStr(if command.Obj? && field in command.fields then command.fields[field] else command)
    else AsStr(body.value)
  }

  lemma {:induction false} RecentIsField(field: string, body: Body)
    ensures Recent(field, body) == Field([RECENT, field], body)
  {
    if body.Some? && body.value.Obj? && RECENT in body.value.fields {
      var command, path := body.value.fields[RECENT], [RECENT, field];
      assert path[1..] == [field] && [field][1..] == [];
      assert Reach(body.value, path) == Reach(command, [field]);
      if command.Obj? && field in command.fields {
        assert Reach(command, [field]) == Reach(command.fields[field], []) == command.fields[field];
      }
    }
  }

  /** `response_field` for a field of the most recent command. */
  method RecentField(field: string, body: Body) returns (r: Option<string>)
    ensures r == Recent(field, body)
  {
    r := ResponseField([RECENT, field], body);
    RecentIsField(field, body);
  }

  /** The timestamp to compare with, or nothing if the first status reply is of no use. */
  function Before(initial: Reply): Option<string> {
    if initial.Lost? then None
    else if initial.code == NOT_FOUND then Some("first call")
    else if Success(initial) then Some(OrElse(Recent("timestamp", initial.body), "first call"))
    else None
  }

  /** This poll settles the matter: the command is the last one, with a new timestamp. */
  predicate Settles(r: Reply, command: string, before: string) {
    && Success(r)
    && OrElse(Recent("cmd_type", r.body), "missing") == command
    && OrElse(Recent("timestamp", r.body), "missing") != before
  }

  predicate ShowsSuccess(r: Reply) {
    r.Reply? && OrElse(Recent("cmd_status", r.body), "missing") == "Success"
  }

  /** A poll that counts as a failure: no reply, or an error other than the lock being held. */
  predicate Fails(r: Reply) {
    r.Lost? || (r.code != LOCKED && !Success(r))
  }

  /** How many of the first `n` polls failed. */
  function Failures(poll: nat -> Reply, n: nat): nat {
    if n == 0 then 0 else Failures(poll, n - 1) + if Fails(poll(n - 1)) then 1 else 0
  }

  /** The replies from request `start` on. */
  function From(replies: nat -> Reply, start: nat): nat -> Reply {
    (i: nat) => replies(start + i)
  }

  /** Poll `k` is made and settles the matter, and none before it did. */
  predicate SettledAt(poll: nat -> Reply, command: string, before: string, policy: WaitPolicy, k: nat) {
    && k + 1 < policy.maxAttempts
    && Failures(poll, k) < MAX_FAILURES
    && Settles(poll(k), command, before)
    && forall j: nat :: j < k ==> !Settles(poll(j), command, before)
  }

  lemma {:induction false} FailuresGrow(poll: nat -> Reply, i: nat, j: nat)
    requires i <= j
    ensures Failures(poll, i) <= Failures(poll, j)
    decreases j
  {
    if i < j { FailuresGrow(poll, i, j - 1); }
  }

  function Repeat(n: nat): seq<Request> {
    seq(n, _ => GetStatus)
  }

  /** Nothing is settled after `polls` polls, and the budgets allowed all of them. */
  ghost predicate Undecided(poll: nat -> Reply, command: string, before: string, policy: WaitPolicy, polls: nat) {
    && (polls == 0 || (polls < policy.maxAttempts && Failures(poll, polls - 1) < MAX_FAILURES))
    && Failures(poll, polls) <= MAX_FAILURES
    && forall j: nat :: j < polls ==> !Settles(poll(j), command, before)
  }

  /** What `polls` polls led to: the last one settles the matter, or a budget is used up. */
  ghost predicate Outcome(poll: nat -> Reply, command: string, before: string, policy: WaitPolicy,
                          r: Result<Body, Error>, polls: nat) {
    if r.Ok? || r.error.CommandFailed? then
      && polls > 0 && SettledAt(poll, command, before, policy, polls - 1)
      && (r.Ok? <==> ShowsSuccess(poll(polls - 1)))
      && (r.Ok? ==> r.value == poll(polls - 1).body)
      && (r.Err? ==> r.error.status == OrElse(Recent("cmd_status", poll(polls - 1).body), "missing"))
    else
      && Undecided(poll, command, before, policy, polls)
      && (policy.maxAttempts <= polls + 1 || Failures(poll, polls) == MAX_FAILURES)
      && r.error == if policy.maxAttempts <= polls + 1 then TimedOut else StatusCheckFailed
  }

  /** The wait succeeds exactly if some poll within both budgets is the first to settle the matter and
      shows success; and it never makes more than `maxAttempts - 1` polls or sees more than five fail. */
  lemma {:induction false} OkIff(poll: nat -> Reply, command: string, before: string, policy: WaitPolicy, r: Result<Body, Error>, polls: nat)
    requires Outcome(poll, command, before, policy, r, polls)
    ensures r.Ok? <==> exists k: nat :: SettledAt(poll, command, before, policy, k) && ShowsSuccess(poll(k))
    ensures (polls == 0 || polls < policy.maxAttempts) && Failures(poll, polls) <= MAX_FAILURES
  {
    if r.Ok? || r.error.CommandFailed? {
      OnlySettlement(poll, command, before, policy, polls - 1);
    } else {
      NeverSettled(poll, command, before, policy, polls);
    }
  }

  lemma {:induction false} StillUndecided(poll: nat -> Reply, command: string, before: string, policy: WaitPolicy, polls: nat)
    requires Undecided(poll, command, before, policy, polls)
    requires polls + 1 < policy.maxAttempts && Failures(poll, polls) < MAX_FAILURES
    requires !Settles(poll(polls), command, before)
    ensures Undecided(poll, command, before, policy, polls + 1)
  {}

  function SleepFor(polls: nat, between: nat): nat {
    if polls == 0 then 0 else SleepFor(polls - 1, between) + between
  }

  /** The total sleep stays below the time the policy allows. */
  lemma {:induction false} SleepBudget(polls: nat, between: nat, max: nat)
    requires polls < max
    ensures SleepFor(polls, between) == polls * between <= max * between
    ensures between > 0 ==> SleepFor(polls, between) < max * between
  {
    if polls > 0 {
      SleepBudget(polls - 1, between, max);
      OneMore(polls - 1, between);
    }
    LessTimes(polls, max, between);
  }

  datatype Verdict = NotYet | Failure | Final(body: Body, status: string)

  /** One status poll. */
  method Poll(api: Api, command: string, before: string) returns (v: Verdict)
    modifies api
    ensures api.log == old(api.log) + [GetStatus]
    ensures v.Failure? <==> Fails(api.replies(|old(api.log)|))
    ensures v.Final? <==> Settles(api.replies(|old(api.log)|), command, before)
    ensures v.Final? ==>
      && v.body == api.replies(|old(api.log)|).body
      && v.status == OrElse(Recent("cmd_status", v.body), "missing")
  {
    var response := api.Send(GetStatus);
    if response.Lost? { return Failure; }
    if response.code == LOCKED {
      return NotYet;
    } else if !Success(response) {
      return Failure;
    }
    var timestamp := RecentField("timestamp", response.body);
    var kind := RecentField("cmd_type", response.body);
    if OrElse(kind, "missing") == command && before != OrElse(timestamp, "missing") {
      var status := RecentField("cmd_status", response.body);
      v := Final(response.body, OrElse(status, "missing"));
    } else {
      v := NotYet;
    }
  }

  /** The waiting loop.  It makes `polls` status polls and sleeps for `slept` in all. */
  method Wait(api: Api, command: string, before: string, policy: WaitPolicy)
    returns (r: Result<Body, Error>, polls: nat, slept: nat)
    modifies api
    ensures api.log == old(api.log) + Repeat(polls)
    ensures Outcome(From(api.replies, |old(api.log)|), command, before, policy, r, polls)
    ensures slept == SleepFor(polls, policy.betweenAttempts)
    ensures polls == 0 || polls < policy.maxAttempts
  {
    ghost var log0 := api.log;
    ghost var poll := From(api.replies, |log0|);
    polls, slept := 0, 0;
    var attempt, failures, waited := 0, 0, 0;
    while true
      invariant api.log == log0 + Repeat(polls)
      invariant attempt == polls && failures == Failures(poll, polls)
      invariant slept == SleepFor(polls, policy.betweenAttempts)
      invariant Undecided(poll, command, before, policy, polls)
      decreases policy.maxAttempts - polls
    {
      attempt := attempt + 1;
      if !(attempt < policy.maxAttempts) { return Err(TimedOut), polls, slept; }
      if !(failures < MAX_FAILURES) { return Err(StatusCheckFailed), polls, slept; }
      if attempt > 1 && waited >= NOTIFY_EVERY {
        waited := 0;
        var left := Notify(policy, attempt);
      }
      waited := waited + policy.betweenAttempts;
      slept := slept + policy.betweenAttempts;
      var v := Poll(api, command, before);
      assert poll(polls) == api.replies(|log0| + polls);
      assert Repeat(polls) + [GetStatus] == Repeat(polls + 1);
      if v.Final? {
        assert SettledAt(poll, command, before, policy, polls);
        polls := polls + 1;
        r := if v.status == "Success" then Ok(v.body) else Err(CommandFailed(v.status));
        return;
      }
      if v.Failure? { failures := failures + 1; }
      StillUndecided(poll, command, before, policy, polls);
      polls := polls + 1;
    }
  }

  /** The message to the user: the time left is never negative. */
  method Notify(policy: WaitPolicy, attempt: nat) returns (left: nat)
    requires attempt < policy.maxAttempts
    ensures left + attempt * policy.betweenAttempts == policy.maxAttempts * policy.betweenAttempts
  {
    LessTimes(attempt, policy.maxAttempts, policy.betweenAttempts);
    left := policy.maxAttempts * policy.betweenAttempts - attempt * policy.betweenAttempts;
  }

  lemma {:induction false} LessTimes(a: nat, b: nat, c: nat)
    requires a < b
    ensures a * c <= b * c && (c > 0 ==> a * c < b * c)
  {
    OneMore(b - 1, c);
    if a < b - 1 { LessTimes(a, b - 1, c); }
  }

  lemma {:induction false} OneMore(n: nat, c: nat)
    ensures (n + 1) * c == n * c + c
  {}

  /** After `n` polls without a settlement and one of the budgets used up, none will count. */
  lemma {:induction false} NeverSettled(poll: nat -> Reply, command: string, before: string, policy: WaitPolicy, n: nat)
    requires forall j: nat :: j < n ==> !Settles(poll(j), command, before)
    requires policy.maxAttempts <= n + 1 || Failures(poll, n) >= MAX_FAILURES
    ensures forall k: nat :: !SettledAt(poll, command, before, policy, k)
  {
    forall k: nat ensures !SettledAt(poll, command, before, policy, k) {
      if n <= k { FailuresGrow(poll, n, k); }
    }
  }

  lemma {:induction false} OnlySettlement(poll: nat -> Reply, command: string, before: string, policy: WaitPolicy, n: nat)
    requires SettledAt(poll, command, before, policy, n)
    ensures forall k: nat :: SettledAt(poll, command, before, policy, k) ==> k == n
  {
    forall k: nat | k != n ensures !SettledAt(poll, command, before, policy, k) {
      if k < n && Settles(poll(k), command, before) { assert false; }
    }
  }

  /** The command was sent and the server took it. */
  predicate Accepted(replies: nat -> Reply, start: nat) {
    Before(replies(start)).Some? && Success(replies(start + 1))
  }

  ghost predicate CallOutcome(replies: nat -> Reply, start: nat, action: Action, policy: WaitPolicy,
                              r: Result<Body, Error>, polls: nat) {
    if Accepted(replies, start)
    then Outcome(From(replies, start + 2), CommandName(action), Before(replies(start)).value, policy, r, polls)
    else
      && polls == 0
      && r == Err(if replies(start).Lost? then StatusUnavailable
                  else if Before(replies(start)).None? then MissingStatus
                  else RequestFailed)
  }

  /** Fetching the timestamp to compare with. */
  method FirstStatus(api: Api) returns (before: Result<string, Error>)
    modifies api
    ensures api.log == old(api.log) + [GetStatus]
    ensures Before(api.replies(|old(api.log)|)) == if before.Ok? then Some(before.value) else None
    ensures before.Err? ==>
      before.error == if api.replies(|old(api.log)|).Lost? then StatusUnavailable else MissingStatus
  {
    var initial := api.Send(GetStatus);
    if initial.Lost? {
      before := Err(StatusUnavailable);
    } else if initial.code == NOT_FOUND {
      before := Ok("first call");
    } else if Success(initial) {
      var field := RecentField("timestamp", initial.body);
      before := Ok(OrElse(field, "first call"));
    } else {
      before := Err(MissingStatus);
    }
  }

  /** `wait_request`. */
  method WaitRequest(api: Api, action: Action, policy: WaitPolicy)
    returns (r: Result<Body, Error>, polls: nat, slept: nat, sent: bool)
    modifies api
    // What goes over the wire.
    ensures api.log == old(api.log) + Exchange(sent, action, polls)
    ensures sent <==> Before(api.replies(|old(api.log)|)).Some?
    ensures r.Ok? ==> sent
    // Success needs a usable first status, an accepted request and a good outcome of the wait.
    ensures CallOutcome(api.replies, |old(api.log)|, action, policy, r, polls)
    // Budgets.
    ensures polls == 0 || polls < policy.maxAttempts
    ensures slept == SleepFor(polls, policy.betweenAttempts)
  {
    var before := FirstStatus(api);
    if before.Err? {
      return Err(before.error), 0, 0, false;
    }
    sent := true;
    var reply := api.Send(Post(action));
    if !Success(reply) {
      return Err(RequestFailed), 0, 0, true;
    }
    r, polls, slept := Wait(api, CommandName(action), before.value, policy);
  }

  /** The requests of one call: the first status, the command if that was usable, the polls. */
  function Exchange(sent: bool, action: Action, polls: nat): seq<Request> {
    if sent then [GetStatus, Post(action)] + Repeat(polls) else [GetStatus]
  }

  // The outcome is determined by the replies.

  lemma {:induction false} StopsEarlier(poll: nat -> Reply, command: string, before: string, policy: WaitPolicy,
                                        r: Result<Body, Error>, polls: nat, r': Result<Body, Error>, polls': nat)
    requires Outcome(poll, command, before, policy, r, polls) && Outcome(poll, command, before, policy, r', polls')
    ensures polls' <= polls
  {
    if polls < polls' { FailuresGrow(poll, polls, polls' - 1); }
  }

  lemma {:induction false} OneOutcome(poll: nat -> Reply, command: string, before: string, policy: WaitPolicy,
                                      r: Result<Body, Error>, polls: nat, r': Result<Body, Error>, polls': nat)
    requires Outcome(poll, command, before, policy, r, polls) && Outcome(poll, command, before, policy, r', polls')
    ensures r == r' && polls == polls'
  {
    StopsEarlier(poll, command, before, policy, r, polls, r', polls');
    StopsEarlier(poll, command, before, policy, r', polls', r, polls);
  }

  // The outcomes by the codes and fields of the replies.

  predicate Has(r: Reply, code: nat) {
    r.Reply? && r.code == code
  }

  /** A good reply whose most recent command has these fields. */
  predicate Reports(r: Reply, timestamp: string, kind: string, status: string) {
    && r.Reply? && 200 <= r.code < 300
    && Field(["most_recent_command", "timestamp"], r.body) == Some(timestamp)
    && Field(["most_recent_command", "cmd_type"], r.body) == Some(kind)
    && Field(["most_recent_command", "cmd_status"], r.body) == Some(status)
  }

  lemma {:induction false} ReportsSettle(r: Reply, timestamp: string, kind: string, status: string, before: string)
    requires Reports(r, timestamp, kind, status)
    ensures Settles(r, kind, before) <==> timestamp != before
    ensures ShowsSuccess(r) <==> status == "Success"
    ensures OrElse(Recent("cmd_status", r.body), "missing") == status
  {
    RecentIsField("timestamp", r.body);
    RecentIsField("cmd_type", r.body);
    RecentIsField("cmd_status", r.body);
  }

  lemma {:induction false} LockedIsNoFailure(poll: nat -> Reply, n: nat)
    requires forall j: nat :: j < n ==> Has(poll(j), 423)
    ensures Failures(poll, n) == 0
  {
    if n > 0 { LockedIsNoFailure(poll, n - 1); }
  }

  /** However long the lock is held (423), within the attempts, the wait goes on; and the first reply that
      reports the command with a new timestamp decides it. */
  lemma {:induction false} LockedThenDone(poll: nat -> Reply, command: string, before: string, policy: WaitPolicy,
                                          k: nat, timestamp: string, status: string, r: Result<Body, Error>, polls: nat)
    requires Outcome(poll, command, before, policy, r, polls)
    requires (forall j: nat :: j < k ==> Has(poll(j), 423)) && k + 1 < policy.maxAttempts
    requires Reports(poll(k), timestamp, command, status) && timestamp != before
    ensures polls == k + 1
    ensures r == if status == "Success" then Ok(poll(k).body) else Err(CommandFailed(status))
  {
    LockedIsNoFailure(poll, k);
    ReportsSettle(poll(k), timestamp, command, status, before);
    var r': Result<Body, Error> := if status == "Success" then Ok(poll(k).body) else Err(CommandFailed(status));
    assert SettledAt(poll, command, before, policy, k);
    assert Outcome(poll, command, before, policy, r', k + 1);
    OneOutcome(poll, command, before, policy, r, polls, r', k + 1);
  }

  /** A lock that is never released uses up the attempts. */
  lemma {:induction false} LockedForever(poll: nat -> Reply, command: string, before: string, policy: WaitPolicy,
                                         r: Result<Body, Error>, polls: nat)
    requires Outcome(poll, command, before, policy, r, polls) && policy.maxAttempts > 0
    requires forall j: nat :: j < policy.maxAttempts ==> Has(poll(j), 423)
    ensures r == Err(TimedOut) && polls == policy.maxAttempts - 1
  {
    var n := policy.maxAttempts - 1;
    LockedIsNoFailure(poll, n);
    if n > 0 { LockedIsNoFailure(poll, n - 1); }
    assert Outcome(poll, command, before, policy, Err(TimedOut), n);
    OneOutcome(poll, command, before, policy, r, polls, Err(TimedOut), n);
  }

  /** A reply that is lost, or has an error code other than 423. */
  predicate Broken(r: Reply) {
    r.Lost? || (r.code != 423 && !(200 <= r.code < 300))
  }

  /** The fifth of them ends the wait. */
  lemma {:induction false} FiveBrokenStop(poll: nat -> Reply, command: string, before: string, policy: WaitPolicy,
                                          r: Result<Body, Error>, polls: nat)
    requires Outcome(poll, command, before, policy, r, polls) && policy.maxAttempts > 6
    requires forall j: nat :: j < 5 ==> Broken(poll(j))
    ensures r == Err(StatusCheckFailed) && polls == 5
  {
    BrokenCount(poll, 4);
    BrokenCount(poll, 5);
    assert Outcome(poll, command, before, policy, Err(StatusCheckFailed), 5);
    OneOutcome(poll, command, before, policy, r, polls, Err(StatusCheckFailed), 5);
  }

  lemma {:induction false} BrokenCount(poll: nat -> Reply, n: nat)
    requires forall j: nat :: j < n ==> Broken(poll(j))
    ensures Failures(poll, n) == n
  {
    if n > 0 { BrokenCount(poll, n - 1); }
  }

  /** The replies of a list, in order. */
  function Listed(rs: seq<Reply>): nat -> Reply {
    (i: nat) => if i < |rs| then rs[i] else Lost
  }

  /** The list without the replies that say the lock is held. */
  function Unlocked(rs: seq<Reply>): seq<Reply> {
    if rs == [] then []
    else
      var front, last := Unlocked(rs[..|rs| - 1]), rs[|rs| - 1];
      if Has(last, 423) then front else front + [last]
  }

  lemma {:induction false} SameFailures(poll: nat -> Reply, poll': nat -> Reply, n: nat)
    requires forall j: nat :: j < n ==> poll(j) == poll'(j)
    ensures Failures(poll, n) == Failures(poll', n)
  {
    if n > 0 { SameFailures(poll, poll', n - 1); }
  }

  /** Leaving them out does not change the number of failures. */
  lemma {:induction false} LocksDoNotCount(rs: seq<Reply>)
    ensures Failures(Listed(rs), |rs|) == Failures(Listed(Unlocked(rs)), |Unlocked(rs)|)
    decreases |rs|
  {
    if rs != [] {
      var n := |rs| - 1;
      var front := rs[..n];
      LocksDoNotCount(front);
      SameFailures(Listed(rs), Listed(front), n);
      assert Listed(rs)(n) == rs[n];
      if !Has(rs[n], 423) {
        var out := Unlocked(front);
        assert Unlocked(rs) == out + [rs[n]];
        SameFailures(Listed(out + [rs[n]]), Listed(out), |out|);
        assert Listed(out + [rs[n]])(|out|) == rs[n];
      }
    }
  }

  /** The names under which the status reports the commands. */
  predicate ReportedAs(action: Action, name: string) {
    (action, name) in {(Refresh, "refresh"), (Prepare, "prepare"), (Activate, "activate"), (Deactivate, "deactivate")}
  }

  /** The first status is not found, or reports an older timestamp. */
  predicate NewerThan(first: Reply, timestamp: string) {
    || (Has(first, 404) && timestamp != "first call")
    || (first.Reply? && 200 <= first.code < 300 &&
        Field(["most_recent_command", "timestamp"], first.body) !in {None, Some(timestamp)})
  }

  /** A whole call: first status, accepted command, the lock for a while, the report. */
  lemma {:induction false} CallThenDone(replies: nat -> Reply, start: nat, action: Action, name: string, policy: WaitPolicy,
                                        k: nat, timestamp: string, status: string, r: Result<Body, Error>, polls: nat)
    requires CallOutcome(replies, start, action, policy, r, polls) && ReportedAs(action, name)
    requires NewerThan(replies(start), timestamp)
    requires replies(start + 1).Reply? && 200 <= replies(start + 1).code < 300
    requires (forall i: nat :: start + 2 <= i < start + 2 + k ==> Has(replies(i), 423)) && k + 1 < policy.maxAttempts
    requires Reports(replies(start + 2 + k), timestamp, name, status)
    ensures polls == k + 1
    ensures r == if status == "Success" then Ok(replies(start + 2 + k).body) else Err(CommandFailed(status))
  {
    RecentIsField("timestamp", replies(start).body);
    var poll := From(replies, start + 2);
    assert Accepted(replies, start) && Before(replies(start)).value != timestamp && CommandName(action) == name;
    forall j: nat | j < k ensures Has(poll(j), 423) { assert poll(j) == replies(start + 2 + j); }
    assert poll(k) == replies(start + 2 + k);
    LockedThenDone(poll, name, Before(replies(start)).value, policy, k, timestamp, status, r, polls);
  }
}
