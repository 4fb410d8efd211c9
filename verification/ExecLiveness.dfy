/** Every wait for capacity ends, against a server that reports what it has written. */
module ExecLiveness {
  import opened Prelude
  import opened ExecProtocol
  import ExecSafety

  /** In `wait_for_capacity`. */
  predicate Waiting(s: State) {
    s.sent != [] && (s.input.LoadMax? || s.input.LoadWritten?)
  }

  /** One past the last input message in the queue, 0 if there is none. */
  function LastInput(ws: seq<Wire>): (n: nat)
    ensures n <= |ws|
  {
    if ws == [] then 0
    else if ws[|ws| - 1].Binary? then |ws|
    else LastInput(ws[..|ws| - 1])
  }

  function LastReport(us: seq<Capacity>): nat {
    if us == [] then 0 else us[|us| - 1].written
  }

  /** How many of these updates report fewer than `n` written messages. */
  function Below(us: seq<Capacity>, n: nat): nat {
    if us == [] then 0 else (if us[0].written < n then 1 else 0) + Below(us[1..], n)
  }

  /** A server that counts honestly: an update carries the number written when it is sent. */
  predicate Truthful(s: State, a: Action) {
    a.Announce? ==> a.count == s.written
  }

  /** Reported counts only grow, and the stored one is no later than those still unhandled. */
  ghost predicate Growing(us: seq<Capacity>, handled: nat, cell: nat) {
    && handled <= |us|
    && (forall i, j :: 0 <= i < j < |us| ==> us[i].written <= us[j].written)
    && (forall i :: handled <= i < |us| ==> cell <= us[i].written)
    && (handled == |us| ==> cell == LastReport(us))
  }

  ghost predicate Inv(s: State) {
    ExecSafety.Inv(s) && Growing(s.updates, s.handled, s.writtenCell)
  }

  lemma {:induction false} GrowingAnnounce(us: seq<Capacity>, handled: nat, cell: nat, u: Capacity)
    requires Growing(us, handled, cell) && LastReport(us) <= u.written && cell <= u.written
    ensures Growing(us + [u], handled, cell)
  {
    forall i, j | 0 <= i < j < |us + [u]|
      ensures (us + [u])[i].written <= (us + [u])[j].written
    {
      if j == |us| { assert us[i].written <= us[|us| - 1].written; }
    }
  }

  lemma {:induction false} InvStep(s: State, a: Action)
    requires Inv(s) && Enabled(s, a) && Truthful(s, a)
    ensures Inv(Apply(s, a))
  {
    ExecSafety.InvStep(s, a);
    var s' := Apply(s, a);
    if a.Announce? {
      GrowingAnnounce(s.updates, s.handled, s.writtenCell, Capacity(a.max, a.count));
    } else if a.StoreWritten? {
      assert Growing(s.updates, s.handled + 1, s.updates[s.handled].written);
    } else {
      assert s'.updates == s.updates && s'.handled == s.handled && s'.writtenCell == s.writtenCell;
    }
  }

  // What a waiting input thread is waiting for, in four parts that only shrink while it waits.

  function Undelivered(s: State): nat {
    var n := LastInput(s.sent);
    if s.received < n then n - s.received else 0
  }

  function Unwritten(s: State): nat {
    if s.written < s.read then s.read - s.written else 0
  }

  function Unreported(s: State): nat {
    if LastReport(s.updates) == s.read then 0 else 1
  }

  /** Stores the reader task still has to make before the written counter reaches `read`. */
  function Unstored(s: State): nat {
    if s.writtenCell == s.read || |s.updates| < s.handled then 0
    else 2 * Below(s.updates[s.handled..], s.read) + (if s.reader.HalfStored? then 1 else 2)
  }

  datatype Rank = Rank(undelivered: nat, unwritten: nat, unreported: nat, unstored: nat, loads: nat)
  {
    function Sum(): nat { undelivered + unwritten + unreported }
  }

  function RankOf(s: State): Rank {
    var sum := Undelivered(s) + Unwritten(s) + Unreported(s);
    var unstored := if sum > 0 then 0 else Unstored(s);
    var loads := if sum > 0 || unstored > 0 then 0 else if s.input.LoadMax? then 2 else 1;
    Rank(Undelivered(s), Unwritten(s), Unreported(s), unstored, loads)
  }

  /** Lexicographic: the server's share, then the stores, then the loads. */
  predicate Less(a: Rank, b: Rank) {
    || a.Sum() < b.Sum()
    || (a.Sum() == b.Sum() && a.unstored < b.unstored)
    || (a.Sum() == b.Sum() && a.unstored == b.unstored && a.loads < b.loads)
  }

  datatype Party = Wire | Writer | Reporter | Task | InputThread | Starter | Stdin | Sender

  /** Whose step brings the wait closer to its end. */
  function Helper(r: Rank): Party {
    if r.undelivered > 0 then Party.Wire
    else if r.unwritten > 0 then Writer
    else if r.unreported > 0 then Reporter
    else if r.unstored > 0 then Task
    else InputThread
  }

  /** The party has something to do. */
  predicate Can(s: State, p: Party) {
    match p
    case Wire => Enabled(s, Deliver)
    case Writer => Enabled(s, Write)
    case Reporter => LastReport(s.updates) != s.written
    case Task => Enabled(s, StoreMax) || Enabled(s, StoreWritten)
    case InputThread => Enabled(s, DoLoadMax) || Enabled(s, DoLoadWritten)
    case Starter => s.sent == []
    case Stdin => s.input.ReadInput?
    case Sender => s.input.Send? || s.input.SendComplete?
  }

  predicate By(a: Action, p: Party) {
    match p
    case Wire => a.Deliver?
    case Writer => a.Write?
    case Reporter => a.Announce?
    case Task => a.StoreMax? || a.StoreWritten?
    case InputThread => a.DoLoadMax? || a.DoLoadWritten?
    case Starter => a.Start?
    case Stdin => a.DoRead? || a.DoReadError?
    case Sender => a.DoSend? || a.DoSendError?
  }

  lemma {:induction false} AllReceived(ws: seq<Wire>, n: nat)
    requires LastInput(ws) <= n <= |ws|
    ensures Payloads(ws[..n]) == Payloads(ws)
    decreases |ws|
  {
    if n < |ws| {
      AllReceived(ws[..|ws| - 1], n);
      assert ws[..|ws| - 1][..n] == ws[..n];
    } else {
      assert ws[..n] == ws;
    }
  }

  /** No deadlock: in every waiting state the helper can take a step. */
  lemma {:induction false} HelperCan(s: State)
    requires Inv(s) && Waiting(s)
    ensures Can(s, Helper(RankOf(s)))
  {
    if Helper(RankOf(s)).Writer? {
      AllReceived(s.sent, s.received);
    }
    PayloadsPrefix(s.sent, s.received);
  }

  lemma {:induction false} BelowAppend(us: seq<Capacity>, u: Capacity, n: nat)
    ensures Below(us + [u], n) == Below(us, n) + if u.written < n then 1 else 0
  {
    if us != [] {
      BelowAppend(us[1..], u, n);
      assert (us + [u])[1..] == us[1..] + [u];
    }
  }

  lemma {:induction false} LastInputAppend(ws: seq<Wire>, w: Wire)
    ensures LastInput(ws + [w]) == if w.Binary? then |ws| + 1 else LastInput(ws)
  {
    assert (ws + [w])[..|ws|] == ws;
  }

  lemma {:induction false} Bounds(s: State)
    requires Inv(s)
    ensures s.written <= s.read && s.writtenCell <= s.written && LastReport(s.updates) <= s.written
    ensures s.handled <= |s.updates| && ExecSafety.Reported(s.updates, s.written)
  {}

  ghost predicate NotHigher(s': State, s: State) {
    RankOf(s') == RankOf(s) || Less(RankOf(s'), RankOf(s))
  }

  lemma {:induction false} UnstoredShrinks(s: State, a: Action)
    requires Enabled(s, a) && (a.StoreMax? || a.StoreWritten?)
    requires s.written <= s.read && ExecSafety.Reported(s.updates, s.written)
    requires s.writtenCell != s.read
    ensures Unstored(Apply(s, a)) < Unstored(s)
  {
    var s' := Apply(s, a);
    if a.StoreWritten? {
      var left := s.updates[s.handled..];
      assert left[1..] == s'.updates[s'.handled..];
      assert left[0] == s.updates[s.handled];
    }
  }

  /** Once the last report is stored nothing later is lower. */
  lemma {:induction false} StoredStays(s: State)
    requires Inv(s) && s.reader.HalfStored? && s.writtenCell == s.read
    ensures s.updates[s.handled].written == s.read
  {
    Bounds(s);
  }

  /** One of the two stores of the reader task. */
  lemma {:induction false} StoreShrinks(s: State, a: Action)
    requires Enabled(s, a) && (a.StoreMax? || a.StoreWritten?)
    requires if s.writtenCell == s.read then Apply(s, a).writtenCell == s.read
             else Unstored(Apply(s, a)) < Unstored(s)
    ensures NotHigher(Apply(s, a), s)
    ensures Helper(RankOf(s)).Task? ==> Less(RankOf(Apply(s, a)), RankOf(s))
  {
    var s' := Apply(s, a);
    assert s'.sent == s.sent && s'.received == s.received && s'.written == s.written;
    assert s'.read == s.read && s'.updates == s.updates && s'.input == s.input;
  }

  lemma {:induction false} StoreStep(s: State, a: Action)
    requires Inv(s) && Enabled(s, a) && (a.StoreMax? || a.StoreWritten?)
    ensures NotHigher(Apply(s, a), s)
    ensures Helper(RankOf(s)).Task? ==> Less(RankOf(Apply(s, a)), RankOf(s))
  {
    Bounds(s);
    if s.writtenCell != s.read {
      UnstoredShrinks(s, a);
    } else if a.StoreWritten? {
      StoredStays(s);
    }
    StoreShrinks(s, a);
  }

  lemma {:induction false} AnnounceShrinks(s: State, u: Capacity)
    requires s.handled <= |s.updates|
    requires LastReport(s.updates) <= s.written == u.written <= s.read
    ensures var s' := s.(updates := s.updates + [u]);
            && NotHigher(s', s)
            && (Helper(RankOf(s)).Reporter? ==> Less(RankOf(s'), RankOf(s)))
  {
    var s' := s.(updates := s.updates + [u]);
    assert s'.updates[s.handled..] == s.updates[s.handled..] + [u];
    BelowAppend(s.updates[s.handled..], u, s.read);
    assert LastReport(s'.updates) == u.written;
    assert Undelivered(s') == Undelivered(s) && Unwritten(s') == Unwritten(s);
  }

  /** A message that is not input changes nothing the thread waits for. */
  lemma {:induction false} PushSame(s: State, w: ExecProtocol.Wire)
    requires !w.Binary?
    ensures RankOf(s.(sent := s.sent + [w])) == RankOf(s)
  {
    LastInputAppend(s.sent, w);
  }

  /** What a step is to leave behind while the thread waits. */
  ghost predicate Shrinks(s: State, a: Action, s': State) {
    NotHigher(s', s) && (By(a, Helper(RankOf(s))) ==> Less(RankOf(s'), RankOf(s)))
  }

  lemma {:induction false} AnnounceStep(s: State, a: Action)
    requires a.Announce? && Enabled(s, a) && a.count == s.written
    requires s.handled <= |s.updates| && LastReport(s.updates) <= s.written <= s.read
    ensures Shrinks(s, a, Apply(s, a))
  {
    AnnounceShrinks(s, Capacity(a.max, a.count));
  }

  /** Nobody waits for a ping or a window size. */
  lemma {:induction false} NobodysStep(a: Action, p: Party)
    requires a.Heartbeat? || a.WindowChange?
    ensures !By(a, p)
  {}

  lemma {:induction false} PushStep(s: State, a: Action, w: ExecProtocol.Wire)
    requires Enabled(s, a) && !w.Binary? && (a.Heartbeat? || a.WindowChange?)
    requires w == if a.Heartbeat? then ExecProtocol.Ping else Winch(a.size)
    ensures Shrinks(s, a, Apply(s, a))
  {
    var s' := s.(sent := s.sent + [w]);
    assert Apply(s, a) == s';
    PushSame(s, w);
    NobodysStep(a, Helper(RankOf(s)));
  }

  lemma {:induction false} DeliverStep(s: State)
    requires Enabled(s, Deliver)
    ensures Shrinks(s, Deliver, Apply(s, Deliver))
  {
    DeliverShrinks(s);
  }

  lemma {:induction false} WriteStep(s: State)
    requires Enabled(s, Write) && s.written < s.read
    ensures Shrinks(s, Write, Apply(s, Write))
  {
    WriteShrinks(s);
  }

  /** Input that can still be written has not been counted as written. */
  lemma {:induction false} WriteLeft(s: State)
    requires Inv(s) && Enabled(s, Write)
    ensures s.written < s.read
  {
    PayloadsPrefix(s.sent, s.received);
  }

  lemma {:induction false} StoringStep(s: State, a: Action)
    requires Inv(s) && Enabled(s, a) && (a.StoreMax? || a.StoreWritten?)
    ensures Shrinks(s, a, Apply(s, a))
  {
    StoreStep(s, a);
  }

  lemma {:induction false} LoadMaxStep(s: State)
    requires Enabled(s, DoLoadMax)
    ensures Shrinks(s, DoLoadMax, Apply(s, DoLoadMax))
  {
    LoadMaxShrinks(s);
  }

  lemma {:induction false} LoadWrittenStep(s: State)
    requires Enabled(s, DoLoadWritten) && s.handled <= |s.updates|
    requires AfterLoads(s.read, s.input.max, s.writtenCell).LoadMax?
    ensures Shrinks(s, DoLoadWritten, Apply(s, DoLoadWritten))
  {
    LoadWrittenShrinks(s);
  }

  /** Which steps leave the thread waiting. */
  lemma {:induction false} WaitingStep(s: State, a: Action)
    requires Waiting(s) && Enabled(s, a) && Waiting(Apply(s, a))
    ensures || a.StoreMax? || a.StoreWritten? || a.DoLoadMax? || a.Announce? || a.Deliver? || a.Write?
            || a.Heartbeat? || a.WindowChange?
            || (a.DoLoadWritten? && AfterLoads(s.read, s.input.max, s.writtenCell).LoadMax?)
  {}

  /** While the thread waits no part of the rank grows, and a step of the helper shrinks it. */
  lemma {:induction false} StepShrinks(s: State, a: Action)
    requires Inv(s) && Waiting(s) && Enabled(s, a) && Truthful(s, a) && Waiting(Apply(s, a))
    ensures Shrinks(s, a, Apply(s, a))
  {
    Bounds(s);
    WaitingStep(s, a);
    if a.StoreMax? || a.StoreWritten? {
      StoringStep(s, a);
    } else if a.DoLoadMax? {
      LoadMaxStep(s);
    } else if a.DoLoadWritten? {
      LoadWrittenStep(s);
    } else if a.Announce? {
      AnnounceStep(s, a);
    } else if a.Deliver? {
      DeliverStep(s);
    } else if a.Write? {
      WriteLeft(s);
      WriteStep(s);
    } else {
      PushStep(s, a, if a.Heartbeat? then ExecProtocol.Ping else Winch(a.size));
    }
  }

  lemma {:induction false} DeliverShrinks(s: State)
    requires s.received < |s.sent|
    ensures NotHigher(s.(received := s.received + 1), s)
    ensures Helper(RankOf(s)).Wire? ==> Less(RankOf(s.(received := s.received + 1)), RankOf(s))
  {
    var s' := s.(received := s.received + 1);
    assert Unwritten(s') == Unwritten(s) && Unreported(s') == Unreported(s) && Unstored(s') == Unstored(s);
    assert s'.sent == s.sent;
  }

  lemma {:induction false} WriteShrinks(s: State)
    requires s.written < s.read
    ensures NotHigher(s.(written := s.written + 1), s)
    ensures Less(RankOf(s.(written := s.written + 1)), RankOf(s))
  {
    var s' := s.(written := s.written + 1);
    assert Undelivered(s') == Undelivered(s) && Unreported(s') == Unreported(s) && Unwritten(s') < Unwritten(s);
  }

  lemma {:induction false} LoadMaxShrinks(s: State)
    requires s.input.LoadMax?
    ensures NotHigher(s.(input := LoadWritten(s.maxCell)), s)
    ensures Helper(RankOf(s)).InputThread? ==> Less(RankOf(s.(input := LoadWritten(s.maxCell))), RankOf(s))
  {
    var s' := s.(input := LoadWritten(s.maxCell));
    SameButInput(s, s');
  }

  lemma {:induction false} LoadWrittenShrinks(s: State)
    requires s.input.LoadWritten? && AfterLoads(s.read, s.input.max, s.writtenCell).LoadMax?
    requires s.handled <= |s.updates|
    ensures NotHigher(s.(input := LoadMax), s)
    ensures Helper(RankOf(s)) != InputThread
  {
    assert s.writtenCell != s.read;
    SameButInput(s, s.(input := LoadMax));
  }

  lemma {:induction false} SameButInput(s: State, s': State)
    requires s' == s.(input := s'.input)
    ensures Undelivered(s') == Undelivered(s) && Unwritten(s') == Unwritten(s)
    ensures Unreported(s') == Unreported(s) && Unstored(s') == Unstored(s)
  {}

  /** Leaving the wait means going on to read input. */
  lemma {:induction false} LeavesToRead(s: State, a: Action)
    requires Inv(s) && Waiting(s) && Enabled(s, a) && Truthful(s, a) && !Waiting(Apply(s, a))
    ensures Apply(s, a).input.ReadInput?
  {
    PayloadsPrefix(s.sent, s.received);
  }

  // Infinite runs.

  datatype Trace = Trace(state: nat -> State, act: nat -> Action)

  ghost predicate IsRun(t: Trace) {
    && t.state(0) == Initial(t.state(0).stdin, t.state(0).tty)
    && forall n: nat :: StepAt(t, n)
  }

  ghost predicate StepAt(t: Trace, n: nat) {
    && Enabled(t.state(n), t.act(n)) && Truthful(t.state(n), t.act(n))
    && t.state(n + 1) == Apply(t.state(n), t.act(n))
  }

  /** No party is able to act for ever without acting. */
  ghost predicate Fair(t: Trace) {
    forall p: Party, n: nat :: ServedLater(t, p, n)
  }

  ghost predicate ServedLater(t: Trace, p: Party, n: nat) {
    exists k: nat :: n <= k && Served(t, p, k)
  }

  ghost predicate Served(t: Trace, p: Party, k: nat) {
    By(t.act(k), p) || !Can(t.state(k), p)
  }

  lemma {:induction false} RunInv(t: Trace, n: nat)
    requires IsRun(t)
    ensures Inv(t.state(n))
  {
    if n > 0 {
      RunInv(t, n - 1);
      assert StepAt(t, n - 1);
      InvStep(t.state(n - 1), t.act(n - 1));
    }
  }

  /** Some property of the states of a run, by position. */
  type Phase = nat -> bool

  /** Each step from an active position reaches the goal, or stays active with no higher rank, and with
      a lower one when it is a step of the helper. */
  ghost predicate Descends(t: Trace, active: Phase, goal: Phase, rank: nat -> Rank, n: nat) {
    active(n) ==>
      || goal(n + 1)
      || (active(n + 1) && rank(n + 1) == rank(n) && !By(t.act(n), Helper(rank(n))))
      || (active(n + 1) && Less(rank(n + 1), rank(n)))
  }

  /** Between `n` and `k` the goal is reached, or the phase goes on with no higher rank. */
  lemma {:induction false} Scan(t: Trace, active: Phase, goal: Phase, rank: nat -> Rank, n: nat, k: nat)
    requires n <= k && active(n)
    requires forall i: nat :: Descends(t, active, goal, rank, i)
    ensures (exists i: nat :: n <= i <= k && goal(i)) ||
            (active(k) && (rank(k) == rank(n) || Less(rank(k), rank(n))))
    decreases k - n
  {
    if n < k {
      Scan(t, active, goal, rank, n, k - 1);
      assert Descends(t, active, goal, rank, k - 1);
    }
  }

  /** The helper of `n` is served at some later point, and then the rank is lower. */
  lemma {:induction false} NextLower(t: Trace, active: Phase, goal: Phase, rank: nat -> Rank, n: nat) returns (k: nat)
    requires Fair(t) && active(n)
    requires forall i: nat :: Descends(t, active, goal, rank, i)
    requires forall i: nat :: active(i) ==> Can(t.state(i), Helper(rank(i)))
    ensures n <= k
    ensures (exists i: nat :: n <= i <= k && goal(i)) || (active(k) && Less(rank(k), rank(n)))
  {
    var p := Helper(rank(n));
    assert ServedLater(t, p, n);
    var m: nat :| n <= m && Served(t, p, m);
    Scan(t, active, goal, rank, n, m);
    if exists i: nat :: n <= i <= m && goal(i) {
      k := m;
    } else if rank(m) == rank(n) {
      assert Can(t.state(m), p) && By(t.act(m), p);
      assert Descends(t, active, goal, rank, m);
      k := m + 1;
    } else {
      k := m;
    }
  }

  /** So in a fair run the goal is reached from every active position. */
  lemma {:induction false} Reaches(t: Trace, active: Phase, goal: Phase, rank: nat -> Rank, n: nat)
    requires Fair(t) && active(n)
    requires forall i: nat :: Descends(t, active, goal, rank, i)
    requires forall i: nat :: active(i) ==> Can(t.state(i), Helper(rank(i)))
    ensures exists k: nat :: n <= k && goal(k)
    decreases rank(n).Sum(), rank(n).unstored, rank(n).loads
  {
    var k := NextLower(t, active, goal, rank, n);
    if i: nat :| n <= i <= k && goal(i) {
    } else {
      Reaches(t, active, goal, rank, k);
    }
  }

  ghost predicate Reads(t: Trace, k: nat) {
    t.state(k).input.ReadInput?
  }

  lemma {:induction false} WaitDescends(t: Trace, n: nat)
    requires IsRun(t)
    ensures Descends(t, (k: nat) => Waiting(t.state(k)), (k: nat) => t.state(k).input.ReadInput?,
                     (k: nat) => RankOf(t.state(k)), n)
  {
    var s, a := t.state(n), t.act(n);
    RunInv(t, n);
    assert StepAt(t, n);
    if Waiting(s) {
      if Waiting(t.state(n + 1)) {
        StepShrinks(s, a);
      } else {
        LeavesToRead(s, a);
      }
    }
  }

  /** In every fair run, an input thread that waits for capacity goes on to read input. */
  lemma {:induction false} WaitEnds(t: Trace, n: nat)
    requires IsRun(t) && Fair(t) && Waiting(t.state(n))
    ensures exists k: nat :: n <= k && Reads(t, k)
  {
    var active, goal := (k: nat) => Waiting(t.state(k)), (k: nat) => t.state(k).input.ReadInput?;
    var rank := (k: nat) => RankOf(t.state(k));
    forall i: nat ensures Descends(t, active, goal, rank, i) { WaitDescends(t, i); }
    forall i: nat | active(i) ensures Can(t.state(i), Helper(rank(i))) {
      RunInv(t, i);
      HelperCan(t.state(i));
    }
    Reaches(t, active, goal, rank, n);
    var k: nat :| n <= k && goal(k);
    assert Reads(t, k);
  }
}
