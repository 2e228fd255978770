/** stdout and stderr sharing one output channel (plugin/outputStream.go), as a state machine
    over the steps of any number of writing, closing and cancelling threads.  The number of
    streams is a parameter; plugin.NewExecCommand makes two and starts the countdown there. */
module OutputStream {
  import opened Options

  // The error handed to CloseWithError: nil, the context's error, or another one.
  datatype CloseErr = NoErr | CtxErr | OtherErr

  datatype Pc =
    | Idle
    // WriteWithTimestamp, holding the stream's read lock
    | Writing(s: nat)
    | SendingData(s: nat)
    | SendingCtxErr(s: nat)
    | SentCtxErr(s: nat)        // sent, not yet noted in sentCtxErr
    | WriteDone(s: nat)
    // CloseWithError, holding the stream's write lock
    | Closing(s: nat, err: CloseErr)
    | SendingErr(s: nat, err: CloseErr)
    | AwaitingCloser(s: nat)
    | InCloser(s: nat)          // holding the closer's lock
    | Counted(s: nat)           // countdown taken down, still in the closer
    | OutOfCloser(s: nat)
    | CloseDone(s: nat)

  // What went over the channel: data, a context error from a write, or an error from a close.
  datatype Packet = Data(s: nat) | WriteErr(s: nat) | CloseErrPacket(s: nat, err: CloseErr)

  datatype Stream = Stream(closed: bool, sentCtxErr: bool, readers: set<nat>, writer: Option<nat>)

  /** `done`, the streams counted down, is bookkeeping; `crashed` notes a send on a closed
      channel or a second close. */
  datatype State = State(
    threads: map<nat, Pc>, streams: map<nat, Stream>,
    closer: Option<nat>, countdown: int, channelClosed: bool,
    ctxDone: bool, sent: seq<Packet>, done: set<nat>, crashed: bool)

  datatype Action =
    | Cancel
    | ReadLock(t: nat, s: nat)
    | CheckWrite(t: nat)
    | Send(t: nat)
    | NoteCtxErr(t: nat)
    | ReadUnlock(t: nat)
    | Lock(t: nat, s: nat, err: CloseErr)
    | CheckClose(t: nat)
    | CloserLock(t: nat)
    | CountDown(t: nat)
    | CloserUnlock(t: nat)
    | MarkClosed(t: nat)
    | Unlock(t: nat)

  predicate Sends(pc: Pc) {
    pc.SendingData? || pc.SendingCtxErr? || pc.SendingErr?
  }

  function PacketOf(pc: Pc): Packet
    requires Sends(pc)
  {
    if pc.SendingData? then Data(pc.s) else if pc.SendingCtxErr? then WriteErr(pc.s) else CloseErrPacket(pc.s, pc.err)
  }

  predicate Enabled(st: State, a: Action) {
    if a.Cancel? then true
    else
      a.t in st.threads &&
      var pc := st.threads[a.t];
      match a
      case ReadLock(_, s) => pc.Idle? && s in st.streams && st.streams[s].writer.None?
      case CheckWrite(_) => pc.Writing?
      case Send(_) => Sends(pc)
      case NoteCtxErr(_) => pc.SentCtxErr?
      case ReadUnlock(_) => pc.WriteDone?
      case Lock(_, s, _) => pc.Idle? && s in st.streams && st.streams[s].writer.None? && st.streams[s].readers == {}
      case CheckClose(_) => pc.Closing?
      case CloserLock(_) => pc.AwaitingCloser? && st.closer.None?
      case CountDown(_) => pc.InCloser?
      case CloserUnlock(_) => pc.Counted?
      case MarkClosed(_) => pc.OutOfCloser?
      case Unlock(_) => pc.CloseDone?
      case Cancel => true
  }

  // ctx.Err()
  function ContextErr(st: State): CloseErr {
    if st.ctxDone then CtxErr else NoErr
  }

  // Where the acting thread goes.
  function NextPc(st: State, a: Action): Pc
    requires Enabled(st, a) && !a.Cancel? && KnownStreams(st)
  {
    var pc := st.threads[a.t];
    match a
    case ReadLock(_, s) => Writing(s)
    case CheckWrite(_) =>
      if st.streams[pc.s].closed then WriteDone(pc.s)
      else if st.ctxDone then SendingCtxErr(pc.s)
      else SendingData(pc.s)
    case Send(_) =>
      if pc.SendingData? then WriteDone(pc.s) else if pc.SendingCtxErr? then SentCtxErr(pc.s) else AwaitingCloser(pc.s)
    case NoteCtxErr(_) => WriteDone(pc.s)
    case ReadUnlock(_) => Idle
    case Lock(_, s, err) => Closing(s, err)
    case CheckClose(_) =>
      if st.streams[pc.s].closed then CloseDone(pc.s)
      else if !pc.err.NoErr? && (pc.err != ContextErr(st) || !st.streams[pc.s].sentCtxErr) then SendingErr(pc.s, pc.err)
      else AwaitingCloser(pc.s)
    case CloserLock(_) => InCloser(pc.s)
    case CountDown(_) => Counted(pc.s)
    case CloserUnlock(_) => OutOfCloser(pc.s)
    case MarkClosed(_) => CloseDone(pc.s)
    case Unlock(_) => Idle
  }

  // What happens to the stream the thread is working on.
  function NextStream(st: State, a: Action, x: Stream): Stream
    requires !a.Cancel?
  {
    match a
    case ReadLock(t, _) => x.(readers := x.readers + {t})
    case NoteCtxErr(_) => x.(sentCtxErr := true)
    case ReadUnlock(t) => x.(readers := x.readers - {t})
    case Lock(t, _, _) => x.(writer := Some(t))
    case MarkClosed(_) => x.(closed := true)
    case Unlock(_) => x.(writer := None)
    case _ => x
  }

  predicate KnownStreams(st: State) {
    forall t :: t in st.threads && !st.threads[t].Idle? ==> st.threads[t].s in st.streams
  }

  function StreamOf(st: State, a: Action): nat
    requires Enabled(st, a) && !a.Cancel?
  {
    if a.ReadLock? || a.Lock? then a.s else st.threads[a.t].s
  }

  function StreamsAfter(st: State, a: Action): map<nat, Stream>
    requires Enabled(st, a) && KnownStreams(st)
  {
    if a.Cancel? then st.streams
    else st.streams[StreamOf(st, a) := NextStream(st, a, st.streams[StreamOf(st, a)])]
  }

  function CloserAfter(st: State, a: Action): Option<nat> {
    if a.CloserLock? then Some(a.t) else if a.CloserUnlock? then None else st.closer
  }

  function CountdownAfter(st: State, a: Action): int {
    if a.CountDown? then st.countdown - 1 else st.countdown
  }

  function SentAfter(st: State, a: Action): seq<Packet>
    requires Enabled(st, a)
  {
    if a.Send? then st.sent + [PacketOf(st.threads[a.t])] else st.sent
  }

  function DoneAfter(st: State, a: Action): set<nat>
    requires Enabled(st, a)
  {
    if a.CountDown? then st.done + {st.threads[a.t].s} else st.done
  }

  // The countdown closes the channel when it comes to zero.
  predicate ClosesNow(st: State, a: Action) {
    a.CountDown? && st.countdown - 1 == 0
  }

  function Apply(st: State, a: Action): State
    requires Enabled(st, a) && KnownStreams(st)
  {
    State(if a.Cancel? then st.threads else st.threads[a.t := NextPc(st, a)],
          StreamsAfter(st, a), CloserAfter(st, a), CountdownAfter(st, a),
          st.channelClosed || ClosesNow(st, a), st.ctxDone || a.Cancel?, SentAfter(st, a), DoneAfter(st, a),
          st.crashed || (st.channelClosed && (a.Send? || ClosesNow(st, a))))
  }

  function Init(threads: set<nat>, streams: set<nat>): State {
    State(map t | t in threads :: Idle, map s | s in streams :: Stream(false, false, {}, None),
          None, |streams|, false, false, [], {}, false)
  }

  /*** The invariant ***/

  predicate HoldsRead(pc: Pc) {
    pc.Writing? || pc.SendingData? || pc.SendingCtxErr? || pc.SentCtxErr? || pc.WriteDone?
  }

  predicate HoldsWrite(pc: Pc) {
    !pc.Idle? && !HoldsRead(pc)
  }

  predicate InsideCloser(pc: Pc) {
    pc.InCloser? || pc.Counted?
  }

  // Past the countdown, but the stream not yet marked closed.
  predicate Uncommitted(pc: Pc) {
    pc.Counted? || pc.OutOfCloser?
  }

  // Relies on the stream being open.
  predicate NeedsOpen(pc: Pc) {
    Sends(pc) || pc.SentCtxErr? || pc.AwaitingCloser? || pc.InCloser?
  }

  // Thread t is in the stream's lock as its place says, for the stream it works on only.
  predicate LocksOk(x: Stream, s: nat, t: nat, pc: Pc) {
    && (t in x.readers <==> HoldsRead(pc) && pc.s == s)
    && (x.writer == Some(t) <==> HoldsWrite(pc) && pc.s == s)
  }

  // What a thread relies on about its stream, and whether it has been counted down.
  predicate PhaseOk(closed: bool, counted: bool, pc: Pc) {
    && (NeedsOpen(pc) ==> !closed && !counted)
    && (Uncommitted(pc) ==> !closed && counted)
    && (pc.CloseDone? ==> closed)
  }

  ghost predicate ThreadOk(st: State, t: nat)
    requires t in st.threads && KnownStreams(st)
  {
    var pc := st.threads[t];
    && (st.closer == Some(t) <==> InsideCloser(pc))
    && (forall s :: s in st.streams ==> LocksOk(st.streams[s], s, t, pc))
    && (!pc.Idle? ==> PhaseOk(st.streams[pc.s].closed, pc.s in st.done, pc))
  }

  ghost predicate StreamOk(st: State, s: nat)
    requires s in st.streams
  {
    var x := st.streams[s];
    && (x.writer.Some? ==> x.readers == {} && x.writer.value in st.threads)
    && (x.closed ==> s in st.done)
    && (s in st.done && !x.closed ==>
          x.writer.Some? && Uncommitted(st.threads[x.writer.value]) && st.threads[x.writer.value].s == s)
  }

  ghost predicate CountOk(st: State) {
    && st.done <= st.streams.Keys
    && st.countdown == |st.streams| - |st.done|
    && (st.channelClosed <==> st.countdown == 0 && st.streams != map[])
    && !st.crashed
  }

  ghost predicate Inv(st: State) {
    && KnownStreams(st)
    && (forall t :: t in st.threads ==> ThreadOk(st, t))
    && (forall s :: s in st.streams ==> StreamOk(st, s))
    && CountOk(st)
  }

  lemma InitInv(threads: set<nat>, streams: set<nat>)
    ensures Inv(Init(threads, streams))
  {
    var st := Init(threads, streams);
    assert st.streams.Keys == streams;
    assert |st.streams| == |st.streams.Keys|;
    if streams != {} { assert st.countdown == |streams| > 0; }
  }

  lemma KnownStreamsStep(st: State, a: Action)
    requires KnownStreams(st) && Enabled(st, a)
    ensures KnownStreams(Apply(st, a)) && Apply(st, a).streams.Keys == st.streams.Keys
        && Apply(st, a).threads.Keys == st.threads.Keys
  {
  }

  // What a step does to the acting thread's place and to its stream.
  lemma LocalStep(st: State, a: Action)
    requires Inv(st) && Enabled(st, a) && !a.Cancel?
    ensures var s, pc, pc', x := StreamOf(st, a), st.threads[a.t], NextPc(st, a), st.streams[StreamOf(st, a)];
      var x' := NextStream(st, a, x);
      && (pc.Idle? || pc.s == s) && (pc'.Idle? || pc'.s == s)
      && LocksOk(x', s, a.t, pc')
      && (forall u :: u != a.t ==>
            (u in x'.readers <==> u in x.readers) && (x'.writer == Some(u) <==> x.writer == Some(u)))
      && (x'.writer.Some? ==> x'.readers == {} && (x'.writer == x.writer || x'.writer == Some(a.t)))
      && (x'.closed <==> x.closed || a.MarkClosed?)
  {
    assert ThreadOk(st, a.t);
    assert StreamOk(st, StreamOf(st, a));
    assert LocksOk(st.streams[StreamOf(st, a)], StreamOf(st, a), a.t, st.threads[a.t]);
  }

  // The phases follow one another.
  lemma LocalPhase(st: State, a: Action)
    requires Inv(st) && Enabled(st, a) && !a.Cancel?
    ensures var s, pc', x := StreamOf(st, a), NextPc(st, a), st.streams[StreamOf(st, a)];
      PhaseOk(x.closed || a.MarkClosed?, s in st.done || a.CountDown?, pc')
  {
    assert ThreadOk(st, a.t);
    assert StreamOk(st, StreamOf(st, a));
    assert LocksOk(st.streams[StreamOf(st, a)], StreamOf(st, a), a.t, st.threads[a.t]);
  }

  lemma Fields(st: State, a: Action)
    requires Inv(st) && Enabled(st, a) && !a.Cancel?
    ensures var st', s := Apply(st, a), StreamOf(st, a);
      && st'.threads == st.threads[a.t := NextPc(st, a)]
      && st'.streams == st.streams[s := NextStream(st, a, st.streams[s])]
      && st'.done == (if a.CountDown? then st.done + {s} else st.done)
      && st'.closer == (if a.CloserLock? then Some(a.t) else if a.CloserUnlock? then None else st.closer)
  {
  }

  // In a stream's lock a writer stands alone.
  lemma OneWriter(st: State, t: nat, u: nat)
    requires Inv(st) && t in st.threads && u in st.threads && t != u && HoldsWrite(st.threads[t])
    ensures st.threads[u].Idle? || st.threads[u].s != st.threads[t].s
  {
    var s := st.threads[t].s;
    assert StreamOk(st, s);
    assert ThreadOk(st, t) && ThreadOk(st, u);
    assert LocksOk(st.streams[s], s, t, st.threads[t]);
    assert LocksOk(st.streams[s], s, u, st.threads[u]);
  }

  lemma ActorOk(st: State, a: Action)
    requires Inv(st) && Enabled(st, a) && !a.Cancel?
    ensures KnownStreams(Apply(st, a)) && ThreadOk(Apply(st, a), a.t)
  {
    KnownStreamsStep(st, a);
    Fields(st, a);
    LocalStep(st, a);
    LocalPhase(st, a);
    ActorInCloser(st, a);
    var s := StreamOf(st, a);
    assert ThreadOk(st, a.t);
    forall r | r in st.streams ensures LocksOk(Apply(st, a).streams[r], r, a.t, NextPc(st, a)) {
      if r != s { assert LocksOk(st.streams[r], r, a.t, st.threads[a.t]); }
    }
  }

  lemma ActorInCloser(st: State, a: Action)
    requires Inv(st) && Enabled(st, a) && !a.Cancel?
    ensures Apply(st, a).closer == Some(a.t) <==> InsideCloser(NextPc(st, a))
  {
    assert ThreadOk(st, a.t);
  }

  lemma OtherOk(st: State, a: Action, u: nat)
    requires Inv(st) && Enabled(st, a) && !a.Cancel? && u in st.threads && a.t != u
    ensures KnownStreams(Apply(st, a)) && ThreadOk(Apply(st, a), u)
  {
    KnownStreamsStep(st, a);
    Fields(st, a);
    LocalStep(st, a);
    var s, pc := StreamOf(st, a), st.threads[u];
    assert ThreadOk(st, u) && ThreadOk(st, a.t);
    forall r | r in st.streams ensures LocksOk(Apply(st, a).streams[r], r, u, pc) {
      assert LocksOk(st.streams[r], r, u, pc);
    }
    if HoldsWrite(st.threads[a.t]) { OneWriter(st, a.t, u); }
  }

  lemma StreamOkStep(st: State, a: Action, r: nat)
    requires Inv(st) && Enabled(st, a) && !a.Cancel? && r in st.streams
    ensures r in Apply(st, a).streams && StreamOk(Apply(st, a), r)
  {
    KnownStreamsStep(st, a);
    Fields(st, a);
    LocalStep(st, a);
    LocalPhase(st, a);
    assert StreamOk(st, r);
    assert ThreadOk(st, a.t);
    assert LocksOk(st.streams[r], r, a.t, st.threads[a.t]);
    if st.streams[r].writer.Some? && st.streams[r].writer.value != a.t {
      var w := st.streams[r].writer.value;
      assert ThreadOk(st, w);
      assert LocksOk(st.streams[r], r, w, st.threads[w]);
      OneWriter(st, w, a.t);
    }
  }

  lemma FewerDone(done: set<nat>, streams: map<nat, Stream>, s: nat)
    requires done <= streams.Keys && s in streams && s !in done
    ensures |done| < |streams| && |done + {s}| == |done| + 1
  {
    assert streams.Keys - done >= {s};
    assert |streams.Keys - done| == |streams.Keys| - |done|;
    assert |streams.Keys - done| > 0;
    assert |streams.Keys| == |streams|;
  }

  lemma CountOkStep(st: State, a: Action)
    requires Inv(st) && Enabled(st, a)
    ensures CountOk(Apply(st, a))
  {
    KnownStreamsStep(st, a);
    assert |st.streams| == |st.streams.Keys| == |Apply(st, a).streams.Keys| == |Apply(st, a).streams|;
    if !a.Cancel? {
      assert ThreadOk(st, a.t);
      if a.Send? || a.CountDown? { FewerDone(st.done, st.streams, st.threads[a.t].s); }
    }
  }

  /** Every step keeps the invariant; in particular none crashes. */
  lemma StepInv(st: State, a: Action)
    requires Inv(st) && Enabled(st, a)
    ensures Inv(Apply(st, a))
  {
    KnownStreamsStep(st, a);
    CountOkStep(st, a);
    if !a.Cancel? {
      forall t | t in Apply(st, a).threads ensures ThreadOk(Apply(st, a), t) {
        if a.t == t { ActorOk(st, a); } else { OtherOk(st, a, t); }
      }
      forall s | s in Apply(st, a).streams ensures StreamOk(Apply(st, a), s) { StreamOkStep(st, a, s); }
    } else {
      forall t | t in Apply(st, a).threads ensures ThreadOk(Apply(st, a), t) { assert ThreadOk(st, t); }
      forall s | s in Apply(st, a).streams ensures StreamOk(Apply(st, a), s) { assert StreamOk(st, s); }
    }
  }

  /*** Whole runs ***/

  ghost predicate IsRun(threads: set<nat>, streams: set<nat>, ss: seq<State>, acts: seq<Action>) {
    && |ss| == |acts| + 1
    && ss[0] == Init(threads, streams)
    && forall i :: 0 <= i < |acts| ==>
      Enabled(ss[i], acts[i]) && KnownStreams(ss[i]) && ss[i + 1] == Apply(ss[i], acts[i])
  }

  lemma {:induction false} RunInv(threads: set<nat>, streams: set<nat>, ss: seq<State>, acts: seq<Action>, j: nat)
    requires IsRun(threads, streams, ss, acts) && j < |ss|
    ensures Inv(ss[j]) && ss[j].streams.Keys == streams
  {
    if j == 0 {
      InitInv(threads, streams);
    } else {
      RunInv(threads, streams, ss, acts, j - 1);
      assert ss[j - 1 + 1] == Apply(ss[j - 1], acts[j - 1]);
      StepInv(ss[j - 1], acts[j - 1]);
      KnownStreamsStep(ss[j - 1], acts[j - 1]);
    }
  }

  /** In every interleaving: no send meets a closed channel or a closed stream, and nothing
      crashes. */
  lemma SendsMeetOpenChannel(threads: set<nat>, streams: set<nat>, ss: seq<State>, acts: seq<Action>, i: nat)
    requires IsRun(threads, streams, ss, acts) && i < |acts|
    ensures !ss[i].crashed && !ss[i + 1].crashed
    ensures acts[i].Send? ==>
      var s := StreamOf(ss[i], acts[i]); s in ss[i].streams && !ss[i].channelClosed && !ss[i].streams[s].closed
  {
    RunInv(threads, streams, ss, acts, i);
    RunInv(threads, streams, ss, acts, i + 1);
    assert Enabled(ss[i], acts[i]);
    if acts[i].Send? {
      assert ThreadOk(ss[i], acts[i].t);
      FewerDone(ss[i].done, ss[i].streams, StreamOf(ss[i], acts[i]));
    }
  }

  /** The countdown is the number of streams not yet counted down; it is never negative. */
  lemma CountdownIsOpenStreams(threads: set<nat>, streams: set<nat>, ss: seq<State>, acts: seq<Action>, j: nat)
    requires IsRun(threads, streams, ss, acts) && j < |ss|
    ensures ss[j].countdown == |streams - ss[j].done| >= 0
    ensures forall s :: s in streams && s !in ss[j].done ==> s in ss[j].streams && !ss[j].streams[s].closed
  {
    RunInv(threads, streams, ss, acts, j);
    assert |ss[j].streams| == |ss[j].streams.Keys|;
    assert |streams - ss[j].done| == |streams| - |ss[j].done|;
    forall s | s in streams && s !in ss[j].done ensures !ss[j].streams[s].closed {
      assert StreamOk(ss[j], s);
    }
  }

  // The action that closes the channel.
  predicate ClosesChannel(ss: seq<State>, acts: seq<Action>, i: nat) {
    i < |acts| && i < |ss| && acts[i].CountDown? && ss[i].countdown == 1
  }

  // `after` has everything closed that `before` has.
  ghost predicate ClosedKept(before: State, after: State) {
    && (before.channelClosed ==> after.channelClosed)
    && forall s :: s in before.streams && before.streams[s].closed ==> s in after.streams && after.streams[s].closed
  }

  lemma ClosedStep(st: State, a: Action)
    requires Inv(st) && Enabled(st, a)
    ensures ClosedKept(st, Apply(st, a))
  {
    if !a.Cancel? {
      Fields(st, a);
      LocalStep(st, a);
    }
  }

  lemma ClosedChain(a: State, b: State, c: State)
    requires ClosedKept(a, b) && ClosedKept(b, c)
    ensures ClosedKept(a, c)
  {
  }

  lemma ClosedAlong(threads: set<nat>, streams: set<nat>, ss: seq<State>, acts: seq<Action>, i: nat)
    requires IsRun(threads, streams, ss, acts) && i < |acts|
    ensures ClosedKept(ss[i], ss[i + 1])
  {
    RunInv(threads, streams, ss, acts, i);
    var st, a := ss[i], acts[i];
    assert Enabled(st, a);
    var after := Apply(st, a);
    assert ss[i + 1] == after;
    ClosedStep(st, a);
  }

  lemma {:induction false} StaysClosed(threads: set<nat>, streams: set<nat>, ss: seq<State>, acts: seq<Action>, i: nat,
                                       j: nat)
    requires IsRun(threads, streams, ss, acts) && i <= j < |ss|
    ensures ClosedKept(ss[i], ss[j])
    decreases j
  {
    if i < j {
      StaysClosed(threads, streams, ss, acts, i, j - 1);
      ClosedAlong(threads, streams, ss, acts, j - 1);
      ClosedChain(ss[i], ss[j - 1], ss[j]);
    }
  }

  /** The channel is closed at most once ... */
  lemma ClosedOnce(threads: set<nat>, streams: set<nat>, ss: seq<State>, acts: seq<Action>, i: nat, j: nat)
    requires IsRun(threads, streams, ss, acts) && ClosesChannel(ss, acts, i) && ClosesChannel(ss, acts, j)
    ensures i == j
  {
    var a, b := if i < j then i else j, if i < j then j else i;
    RunInv(threads, streams, ss, acts, a);
    RunInv(threads, streams, ss, acts, b);
    if a < b {
      assert ss[a + 1] == Apply(ss[a], acts[a]);
      assert ss[a + 1].channelClosed;
      StaysClosed(threads, streams, ss, acts, a + 1, b);
    }
  }

  /** ... and it is closed once every stream is; before that it is open as long as some
      stream has not been counted down. */
  lemma ChannelClosedIff(threads: set<nat>, streams: set<nat>, ss: seq<State>, acts: seq<Action>, j: nat)
    requires IsRun(threads, streams, ss, acts) && j < |ss| && streams != {}
    ensures ss[j].channelClosed <==> streams <= ss[j].done
    ensures (forall s :: s in streams ==> s in ss[j].streams && ss[j].streams[s].closed) ==> ss[j].channelClosed
  {
    RunInv(threads, streams, ss, acts, j);
    CountdownIsOpenStreams(threads, streams, ss, acts, j);
    if streams <= ss[j].done { assert streams - ss[j].done == {}; }
    if s :| s in streams && s !in ss[j].done { assert s in streams - ss[j].done; }
    forall s | s in streams && ss[j].streams[s].closed ensures s in ss[j].done { assert StreamOk(ss[j], s); }
  }

  /** When CloseWithError returns, its stream is closed; from then on no thread sends on it. */
  lemma SilentAfterClose(threads: set<nat>, streams: set<nat>, ss: seq<State>, acts: seq<Action>, i: nat, j: nat)
    requires IsRun(threads, streams, ss, acts) && i < j < |acts| && acts[i].Unlock? && acts[j].Send?
    ensures StreamOf(ss[j], acts[j]) != StreamOf(ss[i], acts[i])
  {
    RunInv(threads, streams, ss, acts, i);
    assert ThreadOk(ss[i], acts[i].t);
    assert ss[i].streams[StreamOf(ss[i], acts[i])].closed;
    StaysClosed(threads, streams, ss, acts, i, j);
    SendsMeetOpenChannel(threads, streams, ss, acts, j);
  }

  /*** The context's error is not repeated ***/

  // A write has reported the context's error on s.
  predicate Reported(st: State, s: nat) {
    WriteErr(s) in st.sent
  }

  ghost predicate ErrThread(st: State, t: nat)
    requires t in st.threads
  {
    var pc := st.threads[t];
    && (pc.SendingCtxErr? ==> st.ctxDone)
    && (pc.SendingErr? && pc.err.CtxErr? ==> !Reported(st, pc.s))
  }

  ghost predicate ErrStream(st: State, s: nat)
    requires s in st.streams
  {
    Reported(st, s) ==>
      st.ctxDone && (st.streams[s].sentCtxErr || exists t :: t in st.threads && st.threads[t] == SentCtxErr(s))
  }

  ghost predicate ErrInv(st: State) {
    && (forall t :: t in st.threads ==> ErrThread(st, t))
    && (forall s :: s in st.streams ==> ErrStream(st, s))
  }

  lemma ReportedFrom(st: State, a: Action, s: nat)
    requires Inv(st) && Enabled(st, a)
    ensures Reported(Apply(st, a), s) <==> Reported(st, s) || (a.Send? && st.threads[a.t] == SendingCtxErr(s))
  {
    if a.Send? {
      var packet := PacketOf(st.threads[a.t]);
      assert Apply(st, a).sent == st.sent + [packet];
      assert (st.sent + [packet])[|st.sent|] == packet;
    } else {
      assert Apply(st, a).sent == st.sent;
    }
  }

  // A closer that is about to send the context's error has seen that none was sent.
  lemma ErrActor(st: State, a: Action)
    requires Inv(st) && ErrInv(st) && Enabled(st, a) && a.CheckClose?
    requires NextPc(st, a).SendingErr? && NextPc(st, a).err.CtxErr?
    ensures !Reported(st, NextPc(st, a).s)
  {
    var s := st.threads[a.t].s;
    forall u | u in st.threads && u != a.t ensures st.threads[u] != SentCtxErr(s) { OneWriter(st, a.t, u); }
    assert ErrStream(st, s);
  }

  lemma ErrThreadStep(st: State, a: Action, t: nat)
    requires Inv(st) && ErrInv(st) && Enabled(st, a) && t in st.threads
    ensures t in Apply(st, a).threads && ErrThread(Apply(st, a), t)
  {
    assert ErrThread(st, t);
    var pc := Apply(st, a).threads[t];
    if pc.SendingErr? && pc.err.CtxErr? {
      ReportedFrom(st, a, pc.s);
      if a.Cancel? {
      } else if a.t == t {
        ErrActor(st, a);
      } else {
        OneWriter(st, t, a.t);
      }
    }
  }

  lemma ErrStreamStep(st: State, a: Action, s: nat)
    requires Inv(st) && ErrInv(st) && Enabled(st, a) && s in st.streams
    ensures s in Apply(st, a).streams && ErrStream(Apply(st, a), s)
  {
    assert ErrStream(st, s);
    KnownStreamsStep(st, a);
    ReportedFrom(st, a, s);
    var st' := Apply(st, a);
    if a.Cancel? {
    } else if Reported(st', s) {
      Fields(st, a);
      assert ErrThread(st, a.t);
      if a.Send? && st.threads[a.t] == SendingCtxErr(s) {
        assert st'.threads[a.t] == SentCtxErr(s);
      } else if !st.streams[s].sentCtxErr {
        var u :| u in st.threads && st.threads[u] == SentCtxErr(s);
        assert u == a.t || st'.threads[u] == SentCtxErr(s);
      }
    }
  }

  lemma ErrStep(st: State, a: Action)
    requires Inv(st) && ErrInv(st) && Enabled(st, a)
    ensures ErrInv(Apply(st, a))
  {
    KnownStreamsStep(st, a);
    forall t | t in Apply(st, a).threads ensures ErrThread(Apply(st, a), t) { ErrThreadStep(st, a, t); }
    forall s | s in Apply(st, a).streams ensures ErrStream(Apply(st, a), s) { ErrStreamStep(st, a, s); }
  }

  lemma {:induction false} RunErrInv(threads: set<nat>, streams: set<nat>, ss: seq<State>, acts: seq<Action>, j: nat)
    requires IsRun(threads, streams, ss, acts) && j < |ss|
    ensures ErrInv(ss[j])
  {
    if j > 0 {
      RunInv(threads, streams, ss, acts, j - 1);
      RunErrInv(threads, streams, ss, acts, j - 1);
      assert ss[j - 1 + 1] == Apply(ss[j - 1], acts[j - 1]);
      ErrStep(ss[j - 1], acts[j - 1]);
    }
  }

  /** A close that sends the context's error follows no write that has already sent it. */
  lemma CtxErrNotRepeated(threads: set<nat>, streams: set<nat>, ss: seq<State>, acts: seq<Action>, i: nat)
    requires IsRun(threads, streams, ss, acts) && i < |acts| && acts[i].Send? && acts[i].t in ss[i].threads
    requires ss[i].threads[acts[i].t].SendingErr? && ss[i].threads[acts[i].t].err.CtxErr?
    ensures WriteErr(ss[i].threads[acts[i].t].s) !in ss[i].sent
  {
    RunErrInv(threads, streams, ss, acts, i);
    assert ErrThread(ss[i], acts[i].t);
  }
}
