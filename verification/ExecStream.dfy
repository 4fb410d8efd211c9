/** What travels on the wire: in both input modes exactly the bytes of standard input, once, in
    order, between one Initialize and at most one ContentComplete. */
module ExecStream {
  import opened Prelude
  import opened ExecProtocol
  import ExecSafety

  /** `s` cut into pieces of `size` elements, the last one possibly shorter. */
  function Split(s: seq<Byte>, size: nat): (r: seq<seq<Byte>>)
    requires 0 < size
  {
    if s == [] then []
    else if |s| <= size then [s]
    else [s[..size]] + Split(s[size..], size)
  }

  function Join(ps: seq<seq<Byte>>): seq<Byte> {
    if ps == [] then [] else ps[0] + Join(ps[1..])
  }

  lemma {:induction false} JoinSplit(s: seq<Byte>, size: nat)
    requires 0 < size
    ensures Join(Split(s, size)) == s
  {
    if |s| > size {
      JoinSplit(s[size..], size);
      var r := Split(s, size);
      assert r[1..] == Split(s[size..], size);
      assert s == s[..size] + s[size..];
    } else if s != [] {
      assert Split(s, size) == [s];
      assert Join([s]) == s + Join([]);
    }
  }

  lemma {:induction false} SplitSizes(s: seq<Byte>, size: nat, i: nat)
    requires 0 < size && i < |Split(s, size)|
    ensures 0 < |Split(s, size)[i]| <= size
    ensures i < |Split(s, size)| - 1 ==> |Split(s, size)[i]| == size
  {
    if |s| > size {
      if i > 0 { SplitSizes(s[size..], size, i - 1); }
    }
  }

  lemma {:induction false} Associative(a: seq<Byte>, b: seq<Byte>, c: seq<Byte>)
    ensures a + (b + c) == (a + b) + c
  {}

  lemma {:induction false} JoinConcat(a: seq<seq<Byte>>, b: seq<seq<Byte>>)
    ensures Join(a + b) == Join(a) + Join(b)
  {
    if a == [] {
      assert a + b == b;
    } else {
      JoinConcat(a[1..], b);
      assert (a + b)[0] == a[0] && (a + b)[1..] == a[1..] + b;
      Associative(a[0], Join(a[1..]), Join(b));
    }
  }

  /** Control messages are where they belong: one Initialize, in front, and nothing of the input
      stream after a ContentComplete. */
  ghost predicate Framed(ws: seq<Wire>) {
    && (forall i :: 0 <= i < |ws| ==> (ws[i].Init? <==> i == 0))
    && (forall i, j :: 0 <= i < j < |ws| && ws[i].ContentComplete? ==>
          !ws[j].Binary? && !ws[j].ContentComplete?)
  }

  ghost predicate Inv(s: State) {
    && Framed(s.sent)
    && s.consumed <= |s.stdin|
    && ((exists i :: 0 <= i < |s.sent| && s.sent[i].ContentComplete?) ==> s.input.Finished?)
    && (s.input.Finished? || s.input.SendComplete? ==> s.consumed == |s.stdin|)
    && (s.sent == [] ==> s.input.LoadMax?)
    // Sent, pending and still to be read add up to the whole input, cut into pieces.
    && Payloads(s.sent) + Pending(s) + Split(s.stdin[s.consumed..], ChunkSize(s.tty))
       == Split(s.stdin, ChunkSize(s.tty))
  }

  lemma {:induction false} ReadKeeps(s: State)
    requires Inv(s) && Enabled(s, DoRead)
    ensures Inv(Apply(s, DoRead))
  {
    var s' := Apply(s, DoRead);
    var size := ChunkSize(s.tty);
    var rest := s.stdin[s.consumed..];
    if s'.input.Send? {
      var rest' := s.stdin[s'.consumed..];
      assert Split(rest, size) == [s'.input.chunk] + Split(rest', size) by {
        if |rest| <= size {
          assert rest == s'.input.chunk && rest' == [];
        } else {
          assert rest[..size] == s'.input.chunk && rest[size..] == rest';
        }
      }
      var p := Payloads(s.sent);
      assert p + [] + ([s'.input.chunk] + Split(rest', size)) == p + [s'.input.chunk] + Split(rest', size);
    }
  }

  /** Pushing something that is not part of the input stream. */
  lemma {:induction false} PushKeeps(s: State, w: Wire)
    requires Inv(s) && s.sent != [] && (w.Ping? || w.Winch?)
    ensures Inv(s.(sent := s.sent + [w]))
  {
    PayloadsAppend(s.sent, w);
    FramedMore(s.sent, w);
  }

  lemma {:induction false} FramedMore(ws: seq<Wire>, w: Wire)
    requires Framed(ws) && ws != [] && !w.Init?
    requires w.Binary? || w.ContentComplete? ==> forall i :: 0 <= i < |ws| ==> !ws[i].ContentComplete?
    ensures Framed(ws + [w])
  {}

  lemma {:induction false} SendKeeps(s: State)
    requires Inv(s) && s.input.Send?
    ensures Inv(s.(sent := s.sent + [Binary(s.input.chunk)], input := LoadMax))
  {
    var w := Binary(s.input.chunk);
    PayloadsAppend(s.sent, w);
    FramedMore(s.sent, w);
    assert Payloads(s.sent) + [s.input.chunk] + [] == Payloads(s.sent) + [s.input.chunk];
  }

  lemma {:induction false} CompleteKeeps(s: State)
    requires Inv(s) && s.input.SendComplete?
    ensures Inv(s.(sent := s.sent + [ContentComplete], input := Finished))
  {
    PayloadsAppend(s.sent, ContentComplete);
    FramedMore(s.sent, ContentComplete);
  }

  lemma {:induction false} FirstMessage(params: Initialize)
    ensures Framed([Init(params)]) && Payloads([Init(params)]) == []
  {
    PayloadsAppend([], Init(params));
    assert [] + [Init(params)] == [Init(params)];
  }

  lemma {:induction false} StartKeeps(s: State, params: Initialize)
    requires Inv(s) && Enabled(s, Start(params))
    ensures Inv(Apply(s, Start(params)))
  {
    var s' := Apply(s, Start(params));
    FirstMessage(params);
    assert s' == s.(sent := [Init(params)]) && Payloads(s.sent) == [];
    assert Pending(s') == Pending(s);
  }

  lemma {:induction false} InvStep(s: State, a: Action)
    requires Inv(s) && Enabled(s, a)
    ensures Inv(Apply(s, a))
  {
    match a
    case DoRead => ReadKeeps(s);
    case DoSend => if s.input.Send? { SendKeeps(s); } else { CompleteKeeps(s); }
    case Heartbeat => PushKeeps(s, Ping);
    case WindowChange(size) => PushKeeps(s, Winch(size));
    case Start(params) => StartKeeps(s, params);
    case _ => assert Payloads(Apply(s, a).sent) == Payloads(s.sent);
  }

  lemma {:induction false} InvRun(s: State, acts: seq<Action>)
    requires Inv(s) && Runs(s, acts)
    ensures Inv(Run(s, acts))
    decreases |acts|
  {
    if acts != [] {
      InvStep(s, acts[0]);
      InvRun(Apply(s, acts[0]), acts[1..]);
    }
  }

  lemma {:induction false} InitialInv(stdin: seq<Byte>, tty: bool)
    ensures Inv(Initial(stdin, tty))
  {
    assert stdin[0..] == stdin;
  }

  /** In every run, however pings and window sizes interleave: Initialize is first and only first,
      the Binary payloads are the leading pieces of stdin (single bytes, or 4096-byte blocks), and
      joined with the chunk in hand they are exactly the bytes consumed. */
  lemma {:induction false} WireCarriesStdin(stdin: seq<Byte>, tty: bool, acts: seq<Action>)
    requires Runs(Initial(stdin, tty), acts)
    ensures var s := Run(Initial(stdin, tty), acts);
            && Framed(s.sent)
            && s.stdin == stdin && s.tty == tty && s.consumed <= |stdin|
            && Payloads(s.sent) + Pending(s) <= Split(stdin, ChunkSize(tty))
            && Join(Payloads(s.sent)) + Join(Pending(s)) == stdin[..s.consumed]
  {
    var s := Run(Initial(stdin, tty), acts);
    InitialInv(stdin, tty);
    InvRun(Initial(stdin, tty), acts);
    InputFixed(Initial(stdin, tty), acts);
    var size := ChunkSize(tty);
    var now := Payloads(s.sent) + Pending(s);
    var later := Split(stdin[s.consumed..], size);
    JoinConcat(now, later);
    JoinConcat(Payloads(s.sent), Pending(s));
    JoinSplit(stdin, size);
    JoinSplit(stdin[s.consumed..], size);
    assert Join(now) + stdin[s.consumed..] == stdin == stdin[..s.consumed] + stdin[s.consumed..];
    assert |Join(now)| == s.consumed;
    assert (Join(now) + stdin[s.consumed..])[..s.consumed] == Join(now);
  }

  lemma {:induction false} InputFixed(s: State, acts: seq<Action>)
    requires Runs(s, acts)
    ensures Run(s, acts).stdin == s.stdin && Run(s, acts).tty == s.tty
    decreases |acts|
  {
    if acts != [] { InputFixed(Apply(s, acts[0]), acts[1..]); }
  }

  /** Once ContentComplete is on the wire the messages in front of it carry all of stdin, so a
      terminal run and a bulk run over the same input deliver the same stream. */
  lemma {:induction false} CompleteMeansEverything(stdin: seq<Byte>, tty: bool, acts: seq<Action>, i: nat)
    requires Runs(Initial(stdin, tty), acts)
    requires i < |Run(Initial(stdin, tty), acts).sent|
    requires Run(Initial(stdin, tty), acts).sent[i].ContentComplete?
    ensures var s := Run(Initial(stdin, tty), acts);
            && Payloads(s.sent[..i]) == Payloads(s.sent) == Split(stdin, ChunkSize(tty))
            && Join(Payloads(s.sent[..i])) == stdin
  {
    var s := Run(Initial(stdin, tty), acts);
    InitialInv(stdin, tty);
    InvRun(Initial(stdin, tty), acts);
    InputFixed(Initial(stdin, tty), acts);
    assert s.stdin[s.consumed..] == [];
    NoPayloadsAfter(s.sent, i);
    JoinSplit(stdin, ChunkSize(tty));
  }

  lemma {:induction false} NoPayloadsAfter(ws: seq<Wire>, i: nat)
    requires i <= |ws|
    requires forall j :: i <= j < |ws| ==> !ws[j].Binary?
    ensures Payloads(ws[..i]) == Payloads(ws)
    decreases |ws|
  {
    if i < |ws| {
      NoPayloadsAfter(ws[..|ws| - 1], i);
      assert ws[..|ws| - 1][..i] == ws[..i];
    } else {
      assert ws[..i] == ws;
    }
  }

  lemma {:induction false} JoinPrefix(p: seq<seq<Byte>>, k: nat)
    requires k <= |p|
    ensures Join(p[..k]) <= Join(p)
  {
    JoinConcat(p[..k], p[k..]);
    assert p == p[..k] + p[k..];
  }

  /** What the child process has been given is always a prefix of standard input. */
  lemma {:induction false} ChildSeesPrefix(stdin: seq<Byte>, tty: bool, acts: seq<Action>)
    requires Runs(Initial(stdin, tty), acts)
    ensures var s := Run(Initial(stdin, tty), acts);
            && s.written <= |Payloads(s.sent)|
            && Join(Payloads(s.sent)[..s.written]) <= stdin
  {
    var s := Run(Initial(stdin, tty), acts);
    ExecSafety.OutstandingBounded(stdin, tty, acts);
    WireCarriesStdin(stdin, tty, acts);
    JoinPrefix(Payloads(s.sent), s.written);
  }

  // What single messages look like.

  /** An input message is the payload at the position that counts the input messages before it. */
  lemma {:induction false} PayloadAt(ws: seq<Wire>, i: nat)
    requires i < |ws| && ws[i].Binary?
    ensures |Payloads(ws[..i])| < |Payloads(ws)| && Payloads(ws)[|Payloads(ws[..i])|] == ws[i].data
  {
    var upTo := ws[..i + 1];
    assert upTo == ws[..i] + [ws[i]];
    PayloadsAppend(ws[..i], ws[i]);
    PayloadsPrefix(ws, i + 1);
  }

  lemma {:induction false} PayloadOrder(ws: seq<Wire>, i: nat, j: nat)
    requires i < j < |ws| && ws[i].Binary?
    ensures |Payloads(ws[..i])| < |Payloads(ws[..j])|
  {
    assert ws[..j][..i] == ws[..i] && ws[..j][i] == ws[i];
    PayloadAt(ws[..j], i);
  }

  /** In a terminal every input message is one byte. */
  lemma {:induction false} TerminalSendsBytes(stdin: seq<Byte>, acts: seq<Action>, i: nat)
    requires Runs(Initial(stdin, true), acts) && i < |Run(Initial(stdin, true), acts).sent|
    ensures var w := Run(Initial(stdin, true), acts).sent[i];
            w.Binary? ==> |w.data| == 1
  {
    var s := Run(Initial(stdin, true), acts);
    WireCarriesStdin(stdin, true, acts);
    if s.sent[i].Binary? {
      PayloadAt(s.sent, i);
      SplitSizes(stdin, 1, |Payloads(s.sent[..i])|);
    }
  }

  /** Otherwise it is a block of up to 4096 bytes, and only the last one is shorter. */
  lemma {:induction false} BulkSendsBlocks(stdin: seq<Byte>, acts: seq<Action>, i: nat)
    requires Runs(Initial(stdin, false), acts) && i < |Run(Initial(stdin, false), acts).sent|
    ensures var ws := Run(Initial(stdin, false), acts).sent;
            ws[i].Binary? ==>
              && 1 <= |ws[i].data| <= 4096
              && ((exists j :: i < j < |ws| && ws[j].Binary?) ==> |ws[i].data| == 4096)
  {
    var s := Run(Initial(stdin, false), acts);
    WireCarriesStdin(stdin, false, acts);
    if s.sent[i].Binary? {
      PayloadAt(s.sent, i);
      SplitSizes(stdin, 4096, |Payloads(s.sent[..i])|);
      if j :| i < j < |s.sent| && s.sent[j].Binary? {
        PayloadOrder(s.sent, i, j);
        PayloadAt(s.sent, j);
      }
    }
  }

  /** How many pieces there are. */
  lemma {:induction false} SplitCount(s: seq<Byte>, size: nat, m: nat)
    requires 0 < size
    ensures |Split(s, size)| <= m <==> |s| <= size * m
  {
    if |s| > size {
      if m > 0 {
        SplitCount(s[size..], size, m - 1);
        assert size * m == size * (m - 1) + size;
      }
    } else if s != [] {
      if m > 0 { assert size * m >= size by { assert size * m == size * (m - 1) + size; } }
    }
  }

  // The end of the input.

  /** A finished input thread has told the server so. */
  ghost predicate Told(s: State) {
    s.input.Finished? ==> exists i :: 0 <= i < |s.sent| && s.sent[i].ContentComplete?
  }

  lemma {:induction false} ToldStep(s: State, a: Action)
    requires Told(s) && Enabled(s, a) && (s.tty ==> !a.DoSendError?)
    ensures Told(Apply(s, a))
  {
    var s' := Apply(s, a);
    if s'.input.Finished? {
      if s.input.Finished? {
        var i :| 0 <= i < |s.sent| && s.sent[i].ContentComplete?;
        assert s.sent <= s'.sent && s'.sent[i] == s.sent[i];
      } else {
        assert s'.sent[|s.sent|] == ContentComplete;
      }
    }
  }

  lemma {:induction false} ToldRun(s: State, acts: seq<Action>)
    requires Told(s) && Runs(s, acts) && (s.tty ==> forall i :: 0 <= i < |acts| ==> !acts[i].DoSendError?)
    ensures Told(Run(s, acts))
    decreases |acts|
  {
    if acts != [] {
      ToldStep(s, acts[0]);
      ToldRun(Apply(s, acts[0]), acts[1..]);
    }
  }

  /** When the input thread has finished, all of stdin has been sent; and it is followed by a
      ContentComplete, except that in a terminal the push of that may have failed. */
  lemma {:induction false} FinishedMeans(stdin: seq<Byte>, tty: bool, acts: seq<Action>)
    requires Runs(Initial(stdin, tty), acts) && Run(Initial(stdin, tty), acts).input.Finished?
    ensures var s := Run(Initial(stdin, tty), acts);
            && Join(Payloads(s.sent)) == stdin
            && ((tty ==> forall i :: 0 <= i < |acts| ==> !acts[i].DoSendError?) ==>
                 exists i :: 0 <= i < |s.sent| && s.sent[i].ContentComplete?)
  {
    var s := Run(Initial(stdin, tty), acts);
    InitialInv(stdin, tty);
    InvRun(Initial(stdin, tty), acts);
    InputFixed(Initial(stdin, tty), acts);
    assert s.stdin[s.consumed..] == [];
    JoinSplit(stdin, ChunkSize(tty));
    assert Payloads(s.sent) + [] + [] == Payloads(s.sent);
    if tty ==> forall i :: 0 <= i < |acts| ==> !acts[i].DoSendError? { ToldRun(Initial(stdin, tty), acts); }
  }

  /** Only in a terminal: the push of ContentComplete fails and the thread finishes all the same. */
  lemma {:induction false} TerminalMayNotTell(tty: bool, params: Initialize) returns (acts: seq<Action>)
    ensures Runs(Initial([], tty), acts) && Run(Initial([], tty), acts).sent == [Init(params)]
    ensures Run(Initial([], tty), acts).input == if tty then Finished else IoError(None)
  {
    var s := Initial([], tty);
    var wait := [Start(params), DoLoadMax, DoLoadWritten];
    WaitOnce(s, params);
    EndFails(Run(s, wait));
    RunsConcat(s, wait, [DoRead, DoSendError]);
    acts := wait + [DoRead, DoSendError];
  }

  lemma {:induction false} WaitOnce(s: State, params: Initialize)
    requires s == Initial(s.stdin, s.tty)
    ensures var acts := [Start(params), DoLoadMax, DoLoadWritten];
            Runs(s, acts) && Run(s, acts) == s.(sent := [Init(params)], input := ReadInput)
  {
    var acts := [Start(params), DoLoadMax, DoLoadWritten];
    var s1 := Apply(s, acts[0]);
    var s2 := Apply(s1, DoLoadMax);
    var s3 := Apply(s2, DoLoadWritten);
    assert acts[1..] == [DoLoadMax, DoLoadWritten] && acts[1..][1..] == [DoLoadWritten];
    assert Runs(s2, [DoLoadWritten]) && Run(s2, [DoLoadWritten]) == s3;
    assert Runs(s1, acts[1..]) && Run(s1, acts[1..]) == s3;
  }

  lemma {:induction false} EndFails(s: State)
    requires s.input.ReadInput? && s.consumed == |s.stdin|
    ensures Runs(s, [DoRead, DoSendError])
    ensures Run(s, [DoRead, DoSendError]) == s.(input := if s.tty then Finished else IoError(None))
  {
    var s1 := Apply(s, DoRead);
    assert [DoRead, DoSendError][1..] == [DoSendError];
    assert Runs(s1, [DoSendError]) && Run(s1, [DoSendError]) == Apply(s1, DoSendError);
  }
}
