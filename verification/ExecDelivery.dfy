/** In every fair run without I/O errors, all of standard input reaches the child process. */
module ExecDelivery {
  import opened Prelude
  import opened ExecProtocol
  import opened ExecLiveness
  import ExecSafety
  import ExecStream

  /** No read from stdin and no push into the queue fails. */
  ghost predicate NoErrors(t: Trace) {
    forall n: nat :: !t.act(n).DoReadError? && !t.act(n).DoSendError?
  }

  ghost predicate Good(t: Trace) {
    IsRun(t) && Fair(t) && NoErrors(t)
  }

  lemma {:induction false} Step(t: Trace, n: nat)
    requires Good(t)
    ensures StepAt(t, n)
    ensures Inv(t.state(n)) && !t.act(n).DoReadError? && !t.act(n).DoSendError?
  {
    RunInv(t, n);
    assert StepAt(t, n);
  }

  /** What the input thread does not do itself leaves it where it is. */
  lemma {:induction false} Stays(s: State, a: Action, p: Party)
    requires Enabled(s, a) && Can(s, p) && (p.Stdin? || p.Sender?) && !By(a, p)
    ensures Apply(s, a).input == s.input && Apply(s, a).consumed == s.consumed
  {}

  /** A party that can act, and goes on to be able to until it does, acts. */
  lemma {:induction false} Acts(t: Trace, p: Party, n: nat, k: nat) returns (j: nat)
    requires Good(t) && (p.Stdin? || p.Sender?) && Can(t.state(n), p)
    requires n <= k && Served(t, p, k)
    ensures n <= j && By(t.act(j), p)
    ensures t.state(j).input == t.state(n).input && t.state(j).consumed == t.state(n).consumed
    decreases k - n
  {
    if By(t.act(n), p) {
      j := n;
    } else {
      Step(t, n);
      Stays(t.state(n), t.act(n), p);
      j := Acts(t, p, n + 1, k);
    }
  }

  lemma {:induction false} ActsLater(t: Trace, p: Party, n: nat) returns (j: nat)
    requires Good(t) && (p.Stdin? || p.Sender?) && Can(t.state(n), p)
    ensures n <= j && By(t.act(j), p)
    ensures t.state(j).input == t.state(n).input && t.state(j).consumed == t.state(n).consumed
  {
    assert ServedLater(t, p, n);
    var k: nat :| n <= k && Served(t, p, k);
    j := Acts(t, p, n, k);
  }

  /** The first reading point after a waiting one, with nothing consumed in between. */
  lemma {:induction false} FirstRead(t: Trace, n: nat, k: nat) returns (j: nat)
    requires Good(t) && Waiting(t.state(n)) && n <= k && Reads(t, k)
    ensures n <= j && Reads(t, j) && t.state(j).consumed == t.state(n).consumed
    decreases k - n
  {
    Step(t, n);
    if Waiting(t.state(n + 1)) {
      j := FirstRead(t, n + 1, k);
    } else {
      LeavesToRead(t.state(n), t.act(n));
      j := n + 1;
    }
  }

  /** The client starts. */
  lemma {:induction false} Starts(t: Trace, n: nat, k: nat) returns (j: nat)
    requires Good(t) && t.state(n).sent == [] && n <= k && Served(t, Starter, k)
    ensures Waiting(t.state(j)) && t.state(j).consumed == t.state(n).consumed
    decreases k - n
  {
    Step(t, n);
    if t.act(n).Start? {
      j := n + 1;
    } else {
      assert t.state(n + 1).sent == [] && t.state(n + 1).consumed == t.state(n).consumed;
      j := Starts(t, n + 1, k);
    }
  }

  function Phase(s: State): nat {
    if s.sent == [] then 5
    else match s.input
      case Send(_) => 4
      case LoadMax => 3
      case LoadWritten(_) => 3
      case ReadInput => 2
      case SendComplete => 1
      case _ => 0
  }

  function Left(s: State): nat {
    if s.consumed <= |s.stdin| then |s.stdin| - s.consumed else 0
  }

  /** What holds of the stream at every position of the run. */
  ghost predicate Facts(s: State, stdin: seq<Byte>, tty: bool) {
    ExecStream.Inv(s) && ExecStream.Told(s) && s.stdin == stdin && s.tty == tty && !s.input.IoError?
  }

  lemma {:induction false} FactsStep(s: State, a: Action, stdin: seq<Byte>, tty: bool)
    requires Facts(s, stdin, tty) && Enabled(s, a) && !a.DoReadError? && !a.DoSendError?
    ensures Facts(Apply(s, a), stdin, tty)
  {
    ExecStream.InvStep(s, a);
    ExecStream.ToldStep(s, a);
  }

  lemma {:induction false} RunFacts(t: Trace, n: nat)
    requires Good(t)
    ensures Facts(t.state(n), t.state(0).stdin, t.state(0).tty)
  {
    if n == 0 {
      ExecStream.InitialInv(t.state(0).stdin, t.state(0).tty);
    } else {
      RunFacts(t, n - 1);
      Step(t, n - 1);
      FactsStep(t.state(n - 1), t.act(n - 1), t.state(0).stdin, t.state(0).tty);
    }
  }

  ghost predicate Ahead(s': State, s: State) {
    Left(s') < Left(s) || (Left(s') == Left(s) && Phase(s') < Phase(s))
  }

  lemma {:induction false} ReadAhead(s: State)
    requires s.sent != [] && s.input.ReadInput? && s.consumed <= |s.stdin|
    ensures Ahead(Apply(s, DoRead), s)
  {}

  lemma {:induction false} SendAhead(s: State)
    requires s.sent != [] && (s.input.Send? || s.input.SendComplete?)
    ensures Ahead(Apply(s, DoSend), s)
  {}

  lemma {:induction false} AheadSame(s': State, s: State, r: State)
    requires Ahead(s', s) && s.input == r.input && s.consumed == r.consumed && s.stdin == r.stdin
    requires s.sent != [] && r.sent != []
    ensures Ahead(s', r)
  {}

  /** A read or a send that is due takes place. */
  lemma {:induction false} ActsAhead(t: Trace, n: nat) returns (k: nat)
    requires Good(t) && (t.state(n).input.ReadInput? || t.state(n).input.Send? || t.state(n).input.SendComplete?)
    ensures Ahead(t.state(k), t.state(n))
  {
    var j := ActsLater(t, if t.state(n).input.ReadInput? then Stdin else Sender, n);
    RunFacts(t, n);
    RunFacts(t, j);
    Step(t, j);
    if t.state(n).input.ReadInput? { ReadAhead(t.state(j)); } else { SendAhead(t.state(j)); }
    AheadSame(t.state(j + 1), t.state(j), t.state(n));
    k := j + 1;
  }

  /** The next point of progress of the input thread. */
  lemma {:induction false} Advances(t: Trace, n: nat) returns (k: nat)
    requires Good(t) && !t.state(n).input.Finished?
    ensures Ahead(t.state(k), t.state(n))
  {
    RunFacts(t, n);
    RunInv(t, n);
    if t.state(n).sent == [] {
      assert ServedLater(t, Starter, n);
      var m: nat :| n <= m && Served(t, Starter, m);
      k := Starts(t, n, m);
      RunFacts(t, k);
    } else if Waiting(t.state(n)) {
      WaitEnds(t, n);
      var m: nat :| n <= m && Reads(t, m);
      k := FirstRead(t, n, m);
      RunFacts(t, k);
    } else {
      k := ActsAhead(t, n);
    }
  }

  lemma {:induction false} Finishes(t: Trace, n: nat) returns (k: nat)
    requires Good(t)
    ensures t.state(k).input.Finished?
    decreases Left(t.state(n)), Phase(t.state(n))
  {
    if t.state(n).input.Finished? {
      k := n;
    } else {
      k := Advances(t, n);
      k := Finishes(t, k);
    }
  }

  // After the last message: the server takes it in.

  /** Finished, with input the server has not written. */
  ghost predicate Draining(s: State) {
    s.input.Finished? && s.written < s.read
  }

  function Backlog(s: State): Rank {
    Rank(Undelivered(s), Unwritten(s), 0, 0, 0)
  }

  lemma {:induction false} DrainStep(s: State, a: Action)
    requires Inv(s) && Draining(s) && Enabled(s, a)
    ensures Apply(s, a).input.Finished? && Apply(s, a).read == s.read
    ensures Backlog(Apply(s, a)) == Backlog(s) || Less(Backlog(Apply(s, a)), Backlog(s))
    ensures By(a, Helper(Backlog(s))) ==> Less(Backlog(Apply(s, a)), Backlog(s))
  {
    if a.Heartbeat? {
      LastInputAppend(s.sent, Ping);
    } else if a.WindowChange? {
      LastInputAppend(s.sent, Winch(a.size));
    } else if !a.Deliver? && !a.Write? {
      assert Apply(s, a).sent == s.sent && Apply(s, a).received == s.received;
    } else if a.Deliver? {
      assert Apply(s, a).sent == s.sent;
    }
  }

  lemma {:induction false} DrainCan(s: State)
    requires Inv(s) && Draining(s)
    ensures Can(s, Helper(Backlog(s)))
  {
    if Undelivered(s) == 0 { AllReceived(s.sent, s.received); }
  }

  lemma {:induction false} DrainDescends(t: Trace, n: nat)
    requires Good(t)
    ensures Descends(t, (k: nat) => Draining(t.state(k)), (k: nat) => Drained(t.state(k)),
                     (k: nat) => Backlog(t.state(k)), n)
  {
    Step(t, n);
    RunInv(t, n + 1);
    if Draining(t.state(n)) {
      DrainStep(t.state(n), t.act(n));
      Bounds(t.state(n + 1));
    }
  }

  ghost predicate Drained(s: State) {
    s.input.Finished? && s.written == s.read
  }

  /** In every fair run without I/O errors there comes a point at which the input thread has finished and
      the server has written all of standard input to the child process and has been told that it is all. */
  lemma {:induction false} EverythingArrives(t: Trace) returns (k: nat)
    requires Good(t)
    ensures t.state(k).input.Finished? && t.state(k).written == |Payloads(t.state(k).sent)|
    ensures ExecStream.Join(Payloads(t.state(k).sent)[..t.state(k).written]) == t.state(0).stdin
    ensures exists i :: 0 <= i < |t.state(k).sent| && t.state(k).sent[i].ContentComplete?
  {
    var n := Finishes(t, 0);
    var active, goal := (i: nat) => Draining(t.state(i)), (i: nat) => Drained(t.state(i));
    var rank := (i: nat) => Backlog(t.state(i));
    RunInv(t, n);
    Bounds(t.state(n));
    if Drained(t.state(n)) {
      k := n;
    } else {
      forall i: nat ensures Descends(t, active, goal, rank, i) { DrainDescends(t, i); }
      forall i: nat | active(i) ensures Can(t.state(i), Helper(rank(i))) {
        RunInv(t, i);
        DrainCan(t.state(i));
      }
      Reaches(t, active, goal, rank, n);
      k :| n <= k && goal(k);
    }
    RunInv(t, k);
    RunFacts(t, k);
    AllThere(t.state(k), t.state(0).stdin, t.state(0).tty);
  }

  lemma {:induction false} AllThere(s: State, stdin: seq<Byte>, tty: bool)
    requires Inv(s) && Facts(s, stdin, tty) && Drained(s)
    ensures s.written == |Payloads(s.sent)| && ExecStream.Join(Payloads(s.sent)[..s.written]) == stdin
  {
    assert s.stdin[s.consumed..] == [];
    assert Payloads(s.sent) == ExecStream.Split(stdin, ChunkSize(tty));
    ExecStream.JoinSplit(stdin, ChunkSize(tty));
    assert Payloads(s.sent)[..s.written] == Payloads(s.sent);
  }
}
