/** When the documented bound on outstanding input messages holds, for every standard input. */
module ExecBound {
  import opened Prelude
  import opened ExecProtocol
  import ExecSafety
  import ExecStream

  /** One chunk read, sent and taken off the wire by a server that writes nothing. */
  const Round := [DoLoadMax, DoLoadWritten, DoRead, DoSend, Deliver]

  /** The client has started, the stored maximum is `m` and the server has taken in `k` input messages
      without writing any. */
  ghost predicate Filled(s: State, us: seq<Capacity>, m: nat, k: nat) {
    && s.sent != [] && s.received == |s.sent| && |Payloads(s.sent)| == k
    && s.input.LoadMax? && s.read == k
    && s.maxCell == m && s.writtenCell == 0 && s.written == 0
    && s.updates == us
  }

  /** The loads let one more chunk through while `k <= m`. */
  lemma {:induction false} RoundReads(s: State, us: seq<Capacity>, m: nat, k: nat) returns (s': State)
    requires Filled(s, us, m, k) && k <= m && s.consumed < |s.stdin|
    ensures Runs(s, Round[..3]) && s' == Run(s, Round[..3])
    ensures s' == s.(input := s'.input, read := k + 1, consumed := s'.consumed) && s'.input.Send?
  {
    var s1 := Apply(s, DoLoadMax);
    var s2 := Apply(s1, DoLoadWritten);
    assert s2.input == ReadInput;
    s' := Apply(s2, DoRead);
    assert Round[..3] == [DoLoadMax, DoLoadWritten, DoRead];
    assert Round[..3][1..] == [DoLoadWritten, DoRead];
    assert Round[..3][1..][1..] == [DoRead];
    assert Runs(s2, [DoRead]) && Run(s2, [DoRead]) == s';
  }

  lemma {:induction false} RoundSends(s: State)
    requires s.input.Send? && s.received == |s.sent|
    ensures Runs(s, Round[3..])
    ensures Run(s, Round[3..]) ==
            s.(sent := s.sent + [Binary(s.input.chunk)], input := LoadMax, received := |s.sent| + 1)
  {
    var s1 := Apply(s, DoSend);
    var s2 := Apply(s1, Deliver);
    assert Round[3..] == [DoSend, Deliver];
    assert Round[3..][1..] == [Deliver];
    assert Runs(s1, [Deliver]) && Run(s1, [Deliver]) == s2;
  }

  lemma {:induction false} OneRound(s: State, us: seq<Capacity>, m: nat, k: nat)
    requires Filled(s, us, m, k) && k <= m && s.consumed < |s.stdin|
    ensures Runs(s, Round) && Filled(Run(s, Round), us, m, k + 1)
  {
    var s1 := RoundReads(s, us, m, k);
    RoundSends(s1);
    RunsConcat(s, Round[..3], Round[3..]);
    assert Round[..3] + Round[3..] == Round;
    PayloadsAppend(s.sent, Binary(s1.input.chunk));
  }

  /** While fewer messages have been sent than there are pieces of input, something is left to read. */
  lemma {:induction false} StillToRead(s: State)
    requires ExecStream.Inv(s) && s.input.LoadMax?
    requires |Payloads(s.sent)| < |ExecStream.Split(s.stdin, ChunkSize(s.tty))|
    ensures s.consumed < |s.stdin|
  {
    assert ExecStream.Split(s.stdin[s.consumed..], ChunkSize(s.tty)) != [];
  }

  /** Rounds until `n` messages are out, as long as the capacity check and the input allow. */
  lemma {:induction false} ManyRounds(s: State, us: seq<Capacity>, m: nat, k: nat, n: nat) returns (acts: seq<Action>)
    requires Filled(s, us, m, k) && ExecStream.Inv(s)
    requires k <= n <= m + 1 && n <= |ExecStream.Split(s.stdin, ChunkSize(s.tty))|
    ensures Runs(s, acts) && Filled(Run(s, acts), us, m, n)
    decreases n - k
  {
    if k == n {
      acts := [];
    } else {
      StillToRead(s);
      OneRound(s, us, m, k);
      ExecStream.InvRun(s, Round);
      ExecStream.InputFixed(s, Round);
      var rest := ManyRounds(Run(s, Round), us, m, k + 1, n);
      RunsConcat(s, Round, rest);
      acts := Round + rest;
    }
  }

  /** The connection is opened; with an update, it is the only one there will be. */
  function Opening(update: Option<nat>): seq<Action> {
    [Start(NO_COMMAND), Deliver] + if update.Some? then [Announce(update.value, 0), StoreMax, StoreWritten] else []
  }

  function Announced(update: Option<nat>): seq<Capacity> {
    if update.Some? then [Capacity(update.value, 0)] else []
  }

  function MaxOf(update: Option<nat>): nat {
    if update.Some? then update.value else 0
  }

  lemma {:induction false} Opened(stdin: seq<Byte>, tty: bool)
    ensures var s := Initial(stdin, tty);
            Runs(s, Opening(None)) && Filled(Run(s, Opening(None)), [], 0, 0)
  {
    var s0 := Initial(stdin, tty);
    var o := Opening(None);
    var s1 := Apply(s0, Start(NO_COMMAND));
    var s2 := Apply(s1, Deliver);
    assert o == [Start(NO_COMMAND), Deliver] && o[1..] == [Deliver];
    assert Runs(s1, [Deliver]) && Run(s1, [Deliver]) == s2;
    PayloadsAppend([], Init(NO_COMMAND));
    assert [] + [Init(NO_COMMAND)] == [Init(NO_COMMAND)];
  }

  lemma {:induction false} Updated(s: State, m: nat)
    requires Filled(s, [], 0, 0) && s.reader.Idle? && s.handled == 0
    ensures var more := [Announce(m, 0), StoreMax, StoreWritten];
            Runs(s, more) && Filled(Run(s, more), [Capacity(m, 0)], m, 0)
  {
    var more := [Announce(m, 0), StoreMax, StoreWritten];
    var s1 := Apply(s, more[0]);
    var s2 := Apply(s1, StoreMax);
    var s3 := Apply(s2, StoreWritten);
    assert more[1..] == [StoreMax, StoreWritten] && more[1..][1..] == [StoreWritten];
    assert Runs(s2, [StoreWritten]) && Run(s2, [StoreWritten]) == s3;
    assert Runs(s1, more[1..]) && Run(s1, more[1..]) == s3;
  }

  lemma {:induction false} OpeningRuns(stdin: seq<Byte>, tty: bool, update: Option<nat>)
    ensures var s := Initial(stdin, tty);
            Runs(s, Opening(update)) && Filled(Run(s, Opening(update)), Announced(update), MaxOf(update), 0)
  {
    Opened(stdin, tty);
    if update.Some? {
      var s := Initial(stdin, tty);
      var first := Opening(None);
      assert first == [Start(NO_COMMAND), Deliver] && first[1..] == [Deliver];
      assert Run(s, first) == Apply(Apply(s, Start(NO_COMMAND)), Deliver);
      Updated(Run(s, first), update.value);
      RunsConcat(s, first, [Announce(update.value, 0), StoreMax, StoreWritten]);
    }
  }

  /** For every standard input, in either mode: with at most one update, announcing `m` (no update
      counts as 0), the server comes to hold any number of unwritten input messages up to `m + 1` that
      the input has pieces for. */
  lemma {:induction false} BoundReached(stdin: seq<Byte>, tty: bool, update: Option<nat>, n: nat) returns (acts: seq<Action>)
    requires n <= MaxOf(update) + 1 && n <= |ExecStream.Split(stdin, ChunkSize(tty))|
    ensures Runs(Initial(stdin, tty), acts)
    ensures var s := Run(Initial(stdin, tty), acts);
            && s.updates == Announced(update) && Peak(s.updates) == MaxOf(update)
            && ExecSafety.Outstanding(s) == n
            && s.received == |s.sent|
  {
    var s0 := Initial(stdin, tty);
    var opening := Opening(update);
    OpeningRuns(stdin, tty, update);
    var s1 := Run(s0, opening);
    ExecStream.InitialInv(stdin, tty);
    ExecStream.InvRun(s0, opening);
    ExecStream.InputFixed(s0, opening);
    var rounds := ManyRounds(s1, Announced(update), MaxOf(update), 0, n);
    RunsConcat(s0, opening, rounds);
    acts := opening + rounds;
    if update.Some? {
      PeakAppend([], Capacity(update.value, 0));
      assert [] + [Capacity(update.value, 0)] == Announced(update);
    }
  }

  /** If `acts` is a run whose updates all announce at most `m`, at most `m` messages are outstanding. */
  ghost predicate Within(stdin: seq<Byte>, tty: bool, m: nat, acts: seq<Action>) {
    Runs(Initial(stdin, tty), acts) && Peak(Run(Initial(stdin, tty), acts).updates) <= m ==>
      ExecSafety.Outstanding(Run(Initial(stdin, tty), acts)) <= m
  }

  /** If `acts` is a run without an update, no input message has been sent. */
  ghost predicate Silent(stdin: seq<Byte>, tty: bool, acts: seq<Action>) {
    Runs(Initial(stdin, tty), acts) && Run(Initial(stdin, tty), acts).updates == [] ==>
      Payloads(Run(Initial(stdin, tty), acts).sent) == []
  }

  /** No more messages are ever sent than the input has pieces. */
  lemma {:induction false} SentAtMost(stdin: seq<Byte>, tty: bool, acts: seq<Action>)
    requires Runs(Initial(stdin, tty), acts)
    ensures |Payloads(Run(Initial(stdin, tty), acts).sent)| <= |ExecStream.Split(stdin, ChunkSize(tty))|
  {
    ExecStream.WireCarriesStdin(stdin, tty, acts);
  }

  /** The documented bound, that no more than the announced maximum is outstanding, holds in every run
      exactly for the inputs that fit into that many messages, of one byte in a terminal and of 4096
      otherwise. */
  lemma {:induction false} DocumentedBoundIff(stdin: seq<Byte>, tty: bool, m: nat)
    ensures (forall acts :: Within(stdin, tty, m, acts)) <==>
            |stdin| <= if tty then m else 4096 * m
  {
    ExecStream.SplitCount(stdin, ChunkSize(tty), m);
    if |ExecStream.Split(stdin, ChunkSize(tty))| <= m {
      forall acts ensures Within(stdin, tty, m, acts) {
        if Runs(Initial(stdin, tty), acts) { SentAtMost(stdin, tty, acts); }
      }
    } else {
      var acts := BoundReached(stdin, tty, Some(m), m + 1);
      assert !Within(stdin, tty, m, acts);
    }
  }

  /** The documented start, that nothing is sent before the first update, holds in every run exactly for
      the empty input. */
  lemma {:induction false} SilentStartIff(stdin: seq<Byte>, tty: bool)
    ensures (forall acts :: Silent(stdin, tty, acts)) <==> stdin == []
  {
    if stdin == [] {
      forall acts ensures Silent(stdin, tty, acts) {
        if Runs(Initial(stdin, tty), acts) { SentAtMost(stdin, tty, acts); }
      }
    } else {
      var acts := BoundReached(stdin, tty, None, 1);
      assert !Silent(stdin, tty, acts);
    }
  }
}
