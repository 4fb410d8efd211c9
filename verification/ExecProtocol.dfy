/** The client side of `apiclient exec` and the server it talks to, as a state machine.

    Four client threads run at once: the input thread reads standard input, the reader task handles
    what the server sends, the heartbeat thread pings and the signal thread reports window sizes.
    All of them push into one outgoing queue.  The reader task and the input thread share two
    counters that are stored and loaded one at a time, so a load can fall between the two stores.

    An `Action` is one atomic step of one party; a run is any interleaving of enabled actions. */
module ExecProtocol {
  import opened Prelude

  datatype Size = Size(rows: nat, cols: nat)

  datatype Initialize = Initialize(command: seq<string>, target: string, tty: Option<Option<Size>>)

  const NO_COMMAND := Initialize([], "", None)

  /** What the client puts on the WebSocket. */
  datatype Wire =
    | Init(params: Initialize)
    | Binary(data: seq<Byte>)
    | ContentComplete
    | Winch(size: Size)
    | Ping

  /** A capacity update from the server. */
  datatype Capacity = Capacity(maxOutstanding: nat, written: nat)

  /** Where the input thread is.  The first two points are the body of `wait_for_capacity`. */
  datatype Input =
    | LoadMax
    | LoadWritten(max: nat)
    | ReadInput
    | Send(chunk: seq<Byte>)
    | SendComplete
    | Finished
    | ServerCountError
    | IoError(lost: Option<seq<Byte>>)   // a chunk that could not be pushed

  /** The reader task is between messages, or has stored one counter of an update but not the other. */
  datatype Reader = Idle | HalfStored

  datatype State = State(
    stdin: seq<Byte>,        // everything standard input will ever deliver
    tty: bool,
    sent: seq<Wire>,         // every message pushed into the outgoing queue, in order
    input: Input,
    read: nat,               // `messages_read`
    consumed: nat,           // bytes taken from stdin
    maxCell: nat,            // `AtomicCapacity::max_messages_outstanding`
    writtenCell: nat,        // `AtomicCapacity::messages_written`
    reader: Reader,
    handled: nat,            // capacity updates the reader task is done with
    received: nat,           // messages of `sent` the server has taken off the wire
    written: nat,            // input messages the server has written to the child process
    updates: seq<Capacity>   // every update the server has sent, in order
  )

  datatype Action =
    | Start(params: Initialize)
    | DoLoadMax
    | DoLoadWritten
    | DoRead
    | DoReadError
    | DoSend
    | DoSendError
    | Heartbeat
    | WindowChange(size: Size)
    | StoreMax
    | StoreWritten
    | Deliver
    | Write
    | Announce(max: nat, count: nat)

  function Initial(stdin: seq<Byte>, tty: bool): State {
    State(stdin, tty, [], LoadMax, 0, 0, 0, 0, Idle, 0, 0, 0, [])
  }

  /** The payloads of the input messages among `ws`, in order. */
  function Payloads(ws: seq<Wire>): (r: seq<seq<Byte>>) {
    if ws == [] then []
    else
      var rest := Payloads(ws[..|ws| - 1]);
      if ws[|ws| - 1].Binary? then rest + [ws[|ws| - 1].data] else rest
  }

  /** The chunk read from stdin that is not in the queue. */
  function Pending(s: State): seq<seq<Byte>> {
    match s.input
    case Send(chunk) => [chunk]
    case IoError(Some(chunk)) => [chunk]
    case _ => []
  }

  /** One byte at a time for a terminal, 4096 otherwise. */
  function ChunkSize(tty: bool): nat {
    if tty then 1 else 4096
  }

  /** The largest `max_messages_outstanding` announced, 0 before any announcement. */
  function Peak(us: seq<Capacity>): nat {
    if us == [] then 0
    else
      var rest := Peak(us[..|us| - 1]);
      if rest < us[|us| - 1].maxOutstanding then us[|us| - 1].maxOutstanding else rest
  }

  predicate Enabled(s: State, a: Action) {
    match a
    case Start(_) => s.sent == []
    case DoLoadMax => s.sent != [] && s.input.LoadMax?
    case DoLoadWritten => s.sent != [] && s.input.LoadWritten?
    case DoRead => s.input.ReadInput? && s.consumed <= |s.stdin|
    case DoReadError => s.input.ReadInput?
    case DoSend => s.input.Send? || s.input.SendComplete?
    case DoSendError => s.input.Send? || s.input.SendComplete?
    case Heartbeat => s.sent != []
    case WindowChange(_) => s.sent != []
    case StoreMax => s.reader.Idle? && s.handled < |s.updates|
    case StoreWritten => s.reader.HalfStored? && s.handled < |s.updates|
    case Deliver => s.received < |s.sent|
    case Write => s.received <= |s.sent| && s.written < |Payloads(s.sent[..s.received])|
    // The server may report any count it has reached, even one taken a while ago.
    case Announce(_, count) => count <= s.written
  }

  /** The check at the end of one round of `wait_for_capacity`. */
  function AfterLoads(read: nat, max: nat, written: nat): Input {
    if read < written then ServerCountError
    else if read - written <= max then ReadInput
    else LoadMax
  }

  function Apply(s: State, a: Action): State
    requires Enabled(s, a)
  {
    match a
    case Start(params) => s.(sent := [Init(params)])
    case DoLoadMax => s.(input := LoadWritten(s.maxCell))
    case DoLoadWritten => s.(input := AfterLoads(s.read, s.input.max, s.writtenCell))
    case DoRead =>
      var end := Min(s.consumed + ChunkSize(s.tty), |s.stdin|);
      if end == s.consumed then s.(input := SendComplete)
      else s.(input := Send(s.stdin[s.consumed..end]), read := s.read + 1, consumed := end)
    case DoReadError => s.(input := IoError(None))
    case DoSend =>
      if s.input.Send? then s.(sent := s.sent + [Binary(s.input.chunk)], input := LoadMax)
      else s.(sent := s.sent + [ContentComplete], input := Finished)
    case DoSendError => 
      if s.input.Send? then s.(input := IoError(Some(s.input.chunk)))
      else s.(input := if s.tty then Finished else IoError(None))
    case Heartbeat => s.(sent := s.sent + [Ping])
    case WindowChange(size) => s.(sent := s.sent + [Winch(size)])
    case StoreMax => s.(maxCell := s.updates[s.handled].maxOutstanding, reader := HalfStored)
    case StoreWritten =>
      s.(writtenCell := s.updates[s.handled].written, reader := Idle, handled := s.handled + 1)
    case Deliver => s.(received := s.received + 1)
    case Write => s.(written := s.written + 1)
    case Announce(max, count) => s.(updates := s.updates + [Capacity(max, count)])
  }

  /** `acts` can be taken one after the other from `s`. */
  predicate Runs(s: State, acts: seq<Action>)
    decreases |acts|
  {
    acts == [] || (Enabled(s, acts[0]) && Runs(Apply(s, acts[0]), acts[1..]))
  }

  function Run(s: State, acts: seq<Action>): State
    requires Runs(s, acts)
    decreases |acts|
  {
    if acts == [] then s else Run(Apply(s, acts[0]), acts[1..])
  }

  lemma {:induction false} RunsConcat(s: State, a: seq<Action>, b: seq<Action>)
    requires Runs(s, a) && Runs(Run(s, a), b)
    ensures Runs(s, a + b) && Run(s, a + b) == Run(Run(s, a), b)
    decreases |a|
  {
    if a == [] {
      assert a + b == b;
    } else {
      RunsConcat(Apply(s, a[0]), a[1..], b);
      assert (a + b)[1..] == a[1..] + b;
    }
  }

  lemma {:induction false} PayloadsAppend(ws: seq<Wire>, w: Wire)
    ensures Payloads(ws + [w]) == if w.Binary? then Payloads(ws) + [w.data] else Payloads(ws)
  {
    assert (ws + [w])[..|ws|] == ws;
  }

  lemma {:induction false} PayloadsPrefix(ws: seq<Wire>, n: nat)
    requires n <= |ws|
    ensures |Payloads(ws[..n])| <= |Payloads(ws)|
    ensures Payloads(ws[..n]) == Payloads(ws)[..|Payloads(ws[..n])|]
    decreases |ws|
  {
    if n < |ws| {
      PayloadsPrefix(ws[..|ws| - 1], n);
      assert ws[..|ws| - 1][..n] == ws[..n];
    } else {
      assert ws[..n] == ws;
    }
  }

  lemma {:induction false} PeakAppend(us: seq<Capacity>, u: Capacity)
    ensures Peak(us) <= Peak(us + [u]) && u.maxOutstanding <= Peak(us + [u])
    ensures Peak(us + [u]) == Peak(us) || Peak(us + [u]) == u.maxOutstanding
  {
    assert (us + [u])[..|us|] == us;
  }

  lemma {:induction false} PeakCovers(us: seq<Capacity>, i: nat)
    requires i < |us|
    ensures us[i].maxOutstanding <= Peak(us)
    decreases |us|
  {
    if i < |us| - 1 { PeakCovers(us[..|us| - 1], i); }
  }
}
