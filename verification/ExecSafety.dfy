/** How far the client can run ahead of the server, in every reachable state. */
module ExecSafety {
  import opened Prelude
  import opened ExecProtocol

  /** Input messages on the wire that the server has not written yet. */
  function Outstanding(s: State): int {
    |Payloads(s.sent)| - s.written
  }

  /** What every step keeps, with `total` input messages sent and `arrived` of them taken off the
      wire. */
  ghost predicate Counts(s: State, total: nat, arrived: nat) {
    && s.received <= |s.sent|
    && (s.sent == [] ==> s.input.LoadMax?)
    && total + |Pending(s)| == s.read
    && s.written <= arrived <= total
    && s.handled <= |s.updates|
    && (s.reader.HalfStored? ==> s.handled < |s.updates|)
    && Reported(s.updates, s.written)
    && s.writtenCell <= s.written
    && s.maxCell <= Peak(s.updates)
    && (s.input.LoadWritten? ==> s.input.max <= Peak(s.updates))
    && (s.input.ReadInput? ==> s.read <= s.written + Peak(s.updates))
    && s.read <= s.written + Peak(s.updates) + 1
    && !s.input.ServerCountError?
  }

  /** No update claims more than `n` written messages. */
  ghost predicate Reported(us: seq<Capacity>, n: nat) {
    forall i :: 0 <= i < |us| ==> us[i].written <= n
  }

  ghost predicate Inv(s: State) {
    s.received <= |s.sent| && Counts(s, |Payloads(s.sent)|, |Payloads(s.sent[..s.received])|)
  }

  /** Pushing `w` and moving the input thread to `next`. */
  lemma {:induction false} InvPush(s: State, w: Wire, next: Input)
    requires Inv(s)
    requires next == s.input || next.LoadMax? || next.Finished?
    requires s.sent == [] ==> next == s.input
    requires (if w.Binary? then 1 else 0) + |Pending(s.(input := next))| == |Pending(s)|
    ensures Inv(s.(sent := s.sent + [w], input := next))
  {
    var s' := s.(sent := s.sent + [w], input := next);
    PayloadsAppend(s.sent, w);
    assert s'.sent[..s.received] == s.sent[..s.received];
  }

  lemma {:induction false} InvDeliver(s: State)
    requires Inv(s) && s.received < |s.sent|
    ensures Inv(s.(received := s.received + 1))
  {
    var more := s.sent[..s.received + 1];
    assert more[..s.received] == s.sent[..s.received];
    PayloadsPrefix(more, s.received);
    PayloadsPrefix(s.sent, s.received + 1);
  }

  lemma {:induction false} InvAnnounce(s: State, u: Capacity)
    requires Inv(s) && u.written <= s.written
    ensures Inv(s.(updates := s.updates + [u]))
  {
    PeakAppend(s.updates, u);
  }

  lemma {:induction false} InvOther(s: State, a: Action)
    requires Inv(s) && Enabled(s, a) && (a.StoreMax? || a.StoreWritten? || a.Write?)
    ensures Inv(Apply(s, a))
  {
    if a.StoreMax? { PeakCovers(s.updates, s.handled); }
  }

  /** The two loads of `wait_for_capacity`. */
  lemma {:induction false} InvLoad(s: State, a: Action)
    requires Inv(s) && Enabled(s, a) && (a.DoLoadMax? || a.DoLoadWritten?)
    ensures Inv(Apply(s, a))
  {
    var s' := Apply(s, a);
    assert s' == s.(input := s'.input);
    assert Counts(s', |Payloads(s.sent)|, |Payloads(s.sent[..s.received])|);
  }

  /** A read of stdin, or an I/O error. */
  lemma {:induction false} InvRead(s: State, a: Action)
    requires Inv(s) && Enabled(s, a) && (a.DoRead? || a.DoReadError? || a.DoSendError?)
    ensures Inv(Apply(s, a))
  {
    var s' := Apply(s, a);
    assert s' == s.(input := s'.input, read := s'.read, consumed := s'.consumed);
    assert Counts(s', |Payloads(s.sent)|, |Payloads(s.sent[..s.received])|);
  }

  lemma {:induction false} InvStep(s: State, a: Action)
    requires Inv(s) && Enabled(s, a)
    ensures Inv(Apply(s, a))
  {
    match a
    case Start(params) => InvPush(s, Init(params), s.input); assert [] + [Init(params)] == [Init(params)];
    case DoSend =>
      if s.input.Send? {
        InvPush(s, Binary(s.input.chunk), LoadMax);
      } else {
        InvPush(s, ContentComplete, Finished);
      }
    case Heartbeat => InvPush(s, Ping, s.input);
    case WindowChange(size) => InvPush(s, Winch(size), s.input);
    case Deliver => InvDeliver(s);
    case Announce(max, count) => InvAnnounce(s, Capacity(max, count));
    case StoreMax => InvOther(s, a);
    case StoreWritten => InvOther(s, a);
    case Write => InvOther(s, a);
    case DoLoadMax => InvLoad(s, a);
    case DoLoadWritten => InvLoad(s, a);
    case _ => InvRead(s, a);
  }

  lemma {:induction false} InvRun(s: State, acts: seq<Action>)
    requires Inv(s) && Runs(s, acts)
    ensures Inv(Run(s, acts))
    decreases |acts|
  {
    if acts != [] {
      InvStep(s, acts[0]);
      InvRun(Apply(s, acts[0]), acts[1..]);
    }
  }

  /** In every reachable state, whatever the interleaving of the stores with the loads: the input
      messages sent and not yet written are at most one more than the largest maximum announced, and
      the `checked_sub` in `wait_for_capacity` has never failed. */
  lemma {:induction false} OutstandingBounded(stdin: seq<Byte>, tty: bool, acts: seq<Action>)
    requires Runs(Initial(stdin, tty), acts)
    ensures var s := Run(Initial(stdin, tty), acts);
            0 <= Outstanding(s) <= Peak(s.updates) + 1 && !s.input.ServerCountError?
  {
    InvRun(Initial(stdin, tty), acts);
    var s := Run(Initial(stdin, tty), acts);
    PayloadsPrefix(s.sent, s.received);
  }
}
