/** What writes and closes send (plugin/outputStream.go), over whole runs. */
module StreamSends {
  import opened Options
  import opened OutputStream

  predicate By(a: Action, t: nat) {
    !a.Cancel? && a.t == t
  }

  // No action from i up to k is by t.
  predicate Rests(acts: seq<Action>, t: nat, i: nat, k: nat) {
    k <= |acts| && forall j :: i <= j < k ==> !By(acts[j], t)
  }

  lemma {:induction false} PlaceKept(threads: set<nat>, streams: set<nat>, ss: seq<State>, acts: seq<Action>, t: nat,
                                     i: nat, k: nat)
    requires IsRun(threads, streams, ss, acts) && i <= k < |ss| && Rests(acts, t, i, k) && t in ss[i].threads
    ensures t in ss[k].threads && ss[k].threads[t] == ss[i].threads[t]
    decreases k - i
  {
    if i < k {
      PlaceKept(threads, streams, ss, acts, t, i, k - 1);
      assert Enabled(ss[k - 1], acts[k - 1]) && ss[k - 1 + 1] == Apply(ss[k - 1], acts[k - 1]);
    }
  }

  // The first action of t from i on, given that there is one at k.
  lemma {:induction false} FirstAct(acts: seq<Action>, t: nat, i: nat, k: nat) returns (m: nat)
    requires i <= k < |acts| && By(acts[k], t)
    ensures i <= m <= k && By(acts[m], t) && Rests(acts, t, i, m)
    decreases k - i
  {
    if By(acts[i], t) {
      m := i;
    } else {
      m := FirstAct(acts, t, i + 1, k);
    }
  }

  // Thread t unlocks at k for the first time after i.
  predicate EndsAt(acts: seq<Action>, t: nat, i: nat, k: nat) {
    i < k < |acts| && acts[k] == ReadUnlock(t) && forall j :: i < j < k ==> acts[j] != ReadUnlock(t)
  }

  // Between i and k thread t sends the packet, at n, and nothing else.
  predicate SendsOnce(ss: seq<State>, acts: seq<Action>, t: nat, i: nat, k: nat, n: nat, p: Packet) {
    && k < |acts| && k < |ss| && i < n < k && acts[n] == Send(t) && ss[n + 1].sent == ss[n].sent + [p]
    && forall j :: i < j < k && acts[j] == Send(t) ==> j == n
  }

  predicate SendsNothing(acts: seq<Action>, t: nat, i: nat, k: nat) {
    k <= |acts| && forall j :: i < j < k ==> acts[j] != Send(t)
  }

  // One action of t: where it was, and where it is then.
  lemma Acted(threads: set<nat>, streams: set<nat>, ss: seq<State>, acts: seq<Action>, i: nat)
    requires IsRun(threads, streams, ss, acts) && i < |acts| && !acts[i].Cancel?
    ensures Enabled(ss[i], acts[i]) && KnownStreams(ss[i]) && ss[i + 1] == Apply(ss[i], acts[i])
    ensures acts[i].t in ss[i].threads && acts[i].t in ss[i + 1].threads
    ensures ss[i + 1].threads[acts[i].t] == NextPc(ss[i], acts[i])
    ensures acts[i].Send? ==> ss[i + 1].sent == ss[i].sent + [PacketOf(ss[i].threads[acts[i].t])]
  {
  }

  // What t, at this place, may do next, and where it is then.
  predicate Leads(pc: Pc, a: Action, next: Pc) {
    match pc
    case SendingData(s) => a.Send? && next == WriteDone(s)
    case SendingCtxErr(s) => a.Send? && next == SentCtxErr(s)
    case SentCtxErr(s) => a.NoteCtxErr? && next == WriteDone(s)
    case WriteDone(_) => a.ReadUnlock?
    case SendingErr(s, _) => a.Send? && next == AwaitingCloser(s)
    case AwaitingCloser(s) => a.CloserLock? && next == InCloser(s)
    case InCloser(_) => a.CountDown?
    case _ => true
  }

  // The next action of t from i on.
  lemma NextBy(threads: set<nat>, streams: set<nat>, ss: seq<State>, acts: seq<Action>, t: nat, i: nat, k: nat)
    returns (m: nat)
    requires IsRun(threads, streams, ss, acts) && i <= k < |acts| && By(acts[k], t) && t in ss[i].threads
    ensures i <= m <= k && By(acts[m], t) && Rests(acts, t, i, m) && m + 1 < |ss| && t in ss[m + 1].threads
    ensures Leads(ss[i].threads[t], acts[m], ss[m + 1].threads[t])
    ensures acts[m].Send? ==> Sends(ss[i].threads[t]) && ss[m + 1].sent == ss[m].sent + [PacketOf(ss[i].threads[t])]
  {
    m := FirstAct(acts, t, i, k);
    PlaceKept(threads, streams, ss, acts, t, i, m);
    Acted(threads, streams, ss, acts, m);
  }

  lemma Checked(threads: set<nat>, streams: set<nat>, ss: seq<State>, acts: seq<Action>, t: nat, i: nat)
    requires IsRun(threads, streams, ss, acts) && i < |acts| && t in ss[i].threads
    requires acts[i] == CheckWrite(t) || acts[i] == CheckClose(t)
    ensures var pc := ss[i].threads[t];
      && |ss| == |acts| + 1 && (pc.Writing? || pc.Closing?) && pc.s in ss[i].streams && t in ss[i + 1].threads
      && var x, next := ss[i].streams[pc.s], ss[i + 1].threads[t];
      && (pc.Writing? ==>
           next == if x.closed then WriteDone(pc.s) else if ss[i].ctxDone then SendingCtxErr(pc.s)
               else SendingData(pc.s))
      && (pc.Closing? && !x.closed ==>
           next == if pc.err.NoErr? || (pc.err.CtxErr? && ss[i].ctxDone && x.sentCtxErr) then AwaitingCloser(pc.s)
                   else SendingErr(pc.s, pc.err))
  {
    Acted(threads, streams, ss, acts, i);
  }

  /** A write on an open stream whose context is live sends its data, once and nothing else, before it
      returns; if the context is done it sends the context's error instead, and on a closed stream
      nothing. */
  lemma WriteSends(threads: set<nat>, streams: set<nat>, ss: seq<State>, acts: seq<Action>, t: nat, s: nat, i: nat,
                   k: nat) returns (n: nat)
    requires IsRun(threads, streams, ss, acts) && EndsAt(acts, t, i, k) && acts[i] == CheckWrite(t)
    requires t in ss[i].threads && ss[i].threads[t] == Writing(s)
    ensures s in ss[i].streams
    ensures if ss[i].streams[s].closed then SendsNothing(acts, t, i, k)
            else SendsOnce(ss, acts, t, i, k, n, if ss[i].ctxDone then WriteErr(s) else Data(s))
  {
    Checked(threads, streams, ss, acts, t, i);
    hide IsRun;
    n := NextBy(threads, streams, ss, acts, t, i + 1, k);
    if !ss[i].streams[s].closed {
      var m := NextBy(threads, streams, ss, acts, t, n + 1, k);
      if ss[i].ctxDone { var l := NextBy(threads, streams, ss, acts, t, m + 1, k); }
    }
  }

  // A close that goes straight to the closer.
  lemma ClosesQuietly(threads: set<nat>, streams: set<nat>, ss: seq<State>, acts: seq<Action>, t: nat, i: nat, k: nat)
    requires IsRun(threads, streams, ss, acts) && i + 1 <= k < |acts| && acts[k] == CountDown(t)
    requires t in ss[i + 1].threads && ss[i + 1].threads[t].AwaitingCloser?
    requires forall j :: i < j < k ==> acts[j] != CountDown(t)
    ensures SendsNothing(acts, t, i, k)
  {
    hide IsRun;
    var m := NextBy(threads, streams, ss, acts, t, i + 1, k);
    var l := NextBy(threads, streams, ss, acts, t, m + 1, k);
  }

  // A close that sends its error.
  lemma ClosesLoudly(threads: set<nat>, streams: set<nat>, ss: seq<State>, acts: seq<Action>, t: nat, i: nat, k: nat)
    returns (n: nat)
    requires IsRun(threads, streams, ss, acts) && i + 1 <= k < |acts| && acts[k] == CountDown(t)
    requires t in ss[i + 1].threads && ss[i + 1].threads[t].SendingErr?
    requires forall j :: i < j < k ==> acts[j] != CountDown(t)
    ensures var pc := ss[i + 1].threads[t]; SendsOnce(ss, acts, t, i, k, n, CloseErrPacket(pc.s, pc.err))
  {
    assert |ss| == |acts| + 1;
    hide IsRun;
    n := NextBy(threads, streams, ss, acts, t, i + 1, k);
    assert n < k && acts[n] == Send(t);
    ClosesQuietly(threads, streams, ss, acts, t, n, k);
  }

  /** A close of an open stream sends its error first, if it has one, unless that is the context's
      error and a write has sent it; then it goes to count down. */
  lemma CloseSends(threads: set<nat>, streams: set<nat>, ss: seq<State>, acts: seq<Action>, t: nat, s: nat,
                   err: CloseErr, i: nat, k: nat) returns (n: nat)
    requires IsRun(threads, streams, ss, acts) && i < k < |acts| && acts[i] == CheckClose(t) && acts[k] == CountDown(t)
    requires t in ss[i].threads && ss[i].threads[t] == Closing(s, err) && s in ss[i].streams
    requires !ss[i].streams[s].closed && forall j :: i < j < k ==> acts[j] != CountDown(t)
    ensures var skips := err.NoErr? || (err.CtxErr? && ss[i].ctxDone && ss[i].streams[s].sentCtxErr);
      if skips then SendsNothing(acts, t, i, k) else SendsOnce(ss, acts, t, i, k, n, CloseErrPacket(s, err))
  {
    Checked(threads, streams, ss, acts, t, i);
    hide IsRun, SendsOnce, SendsNothing;
    n := i;
    if ss[i + 1].threads[t].AwaitingCloser? {
      ClosesQuietly(threads, streams, ss, acts, t, i, k);
    } else {
      n := ClosesLoudly(threads, streams, ss, acts, t, i, k);
    }
  }
}
