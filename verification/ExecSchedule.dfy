/** Fair runs without errors exist, for every standard input in either mode. */
module ExecSchedule {
  import opened Prelude
  import opened ExecProtocol
  import opened ExecLiveness
  import ExecStream
  import ExecDelivery

  /** The parties in turn, the one that opens the connection first. */
  const Order := [Starter, Party.Wire, Writer, Reporter, Task, InputThread, Stdin, Sender]

  function Turn(n: nat): Party {
    Order[n % 8]
  }

  /** The step of a party that has something to do. */
  function StepOf(s: State, p: Party): (a: Action)
    requires Can(s, p)
    ensures By(a, p)
  {
    match p
    case Wire => Deliver
    case Writer => Write
    case Reporter => Announce(0, s.written)
    case Task => if Enabled(s, StoreMax) then StoreMax else StoreWritten
    case InputThread => if Enabled(s, DoLoadMax) then DoLoadMax else DoLoadWritten
    case Starter => Start(NO_COMMAND)
    case Stdin => DoRead
    case Sender => DoSend
  }

  /** The party whose turn it is acts if it can; otherwise the client pings. */
  function Choice(s: State, n: nat): Action {
    if Can(s, Turn(n)) then StepOf(s, Turn(n)) else Heartbeat
  }

  function Next(s: State, n: nat): State {
    if Enabled(s, Choice(s, n)) then Apply(s, Choice(s, n)) else s
  }

  /** `n` steps of `next`, each told its number. */
  function Iterate(next: (State, nat) -> State, s: State, n: nat): State {
    if n == 0 then s else next(Iterate(next, s, n - 1), n - 1)
  }

  lemma {:induction false} IterateKeeps(next: (State, nat) -> State, ok: (State, nat) -> bool, s: State, n: nat)
    requires ok(s, 0) && forall s, n: nat :: ok(s, n) ==> ok(next(s, n), n + 1)
    ensures ok(Iterate(next, s, n), n)
  {
    if n > 0 { IterateKeeps(next, ok, s, n - 1); }
  }

  /** The run in which `choice` picks the steps and `next` takes them. */
  function TraceOf(next: (State, nat) -> State, choice: (State, nat) -> Action, s: State): Trace {
    Trace((n: nat) => Iterate(next, s, n), (n: nat) => choice(Iterate(next, s, n), n))
  }

  lemma {:induction false} TraceSteps(next: (State, nat) -> State, choice: (State, nat) -> Action,
                                      ok: (State, nat) -> bool, step: (State, Action, State) -> bool, s: State, n: nat)
    requires ok(s, 0)
    requires forall s, n: nat :: ok(s, n) ==> ok(next(s, n), n + 1) && step(s, choice(s, n), next(s, n))
    ensures var t := TraceOf(next, choice, s);
            step(t.state(n), t.act(n), t.state(n + 1))
  {
    IterateKeeps(next, ok, s, n);
  }

  function Schedule(stdin: seq<Byte>, tty: bool): Trace {
    TraceOf(Next, Choice, Initial(stdin, tty))
  }

  lemma {:induction false} ChoiceEnabled(s: State, n: nat)
    requires s.consumed <= |s.stdin| && (n > 0 ==> s.sent != []) && (n == 0 ==> s.sent == [])
    ensures Enabled(s, Choice(s, n)) && Truthful(s, Choice(s, n)) && Apply(s, Choice(s, n)).sent != []
    ensures !Choice(s, n).DoReadError? && !Choice(s, n).DoSendError?
  {
    assert Turn(0) == Starter;
  }

  /** What holds in front of step `n`. */
  ghost predicate Ready(s: State, n: nat) {
    ExecStream.Inv(s) && (s.sent == [] <==> n == 0)
  }

  ghost predicate GoodStep(s: State, a: Action, s': State) {
    && Enabled(s, a) && Truthful(s, a) && s' == Apply(s, a)
    && !a.DoReadError? && !a.DoSendError?
  }

  lemma {:induction false} NextReady(s: State, n: nat)
    requires Ready(s, n)
    ensures Ready(Next(s, n), n + 1) && GoodStep(s, Choice(s, n), Next(s, n))
  {
    ChoiceEnabled(s, n);
    ExecStream.InvStep(s, Choice(s, n));
  }

  lemma {:induction false} ScheduleSteps(stdin: seq<Byte>, tty: bool, n: nat)
    ensures var t := Schedule(stdin, tty);
            GoodStep(t.state(n), t.act(n), t.state(n + 1))
  {
    ExecStream.InitialInv(stdin, tty);
    forall s, n: nat | Ready(s, n) ensures Ready(Next(s, n), n + 1) && GoodStep(s, Choice(s, n), Next(s, n)) {
      NextReady(s, n);
    }
    TraceSteps(Next, Choice, Ready, GoodStep, Initial(stdin, tty), n);
  }

  lemma {:induction false} ScheduleServes(stdin: seq<Byte>, tty: bool, p: Party, n: nat)
    ensures ServedLater(Schedule(stdin, tty), p, n)
  {
    EveryoneListed(p);
    var i :| 0 <= i < 8 && Order[i] == p;
    var k := 8 * n + i;
    assert k % 8 == i;
    assert Schedule(stdin, tty).act(k) == Choice(Schedule(stdin, tty).state(k), k);
    assert Served(Schedule(stdin, tty), p, k);
  }

  lemma {:induction false} EveryoneListed(p: Party)
    ensures exists i :: 0 <= i < 8 && Order[i] == p
  {
    assert Order[0] == Starter && Order[1] == Party.Wire && Order[2] == Writer && Order[3] == Reporter;
    assert Order[4] == Task && Order[5] == InputThread && Order[6] == Stdin && Order[7] == Sender;
  }

  /** The schedule is a fair run without I/O errors on the given input, so what is proved of such runs is
      about every input. */
  lemma {:induction false} GoodRunExists(stdin: seq<Byte>, tty: bool)
    ensures ExecDelivery.Good(Schedule(stdin, tty))
    ensures Schedule(stdin, tty).state(0) == Initial(stdin, tty)
  {
    var t := Schedule(stdin, tty);
    forall n: nat ensures StepAt(t, n) && !t.act(n).DoReadError? && !t.act(n).DoSendError? {
      ScheduleSteps(stdin, tty, n);
    }
    forall p: Party, n: nat ensures ServedLater(t, p, n) { ScheduleServes(stdin, tty, p, n); }
  }
}
