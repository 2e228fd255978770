/** The write-back buffer refines a plain byte file, as write() and ftruncate() describe it. */
module FuseRefinement {
  import opened Options
  import opened PluginRead
  import opened FuseFile

  /** The plain file: who is writing, and its bytes.  A file-like entry has no known bytes
      (None) before an Open, after its last writer has gone, and after an Attr or failed Open that
      found other remote bytes; then the next Open starts from the remote again.  Other entries start
      every session from an empty buffer. */
  datatype Simple = Simple(writers: set<nat>, bytes: Option<seq<byte>>)

  function Idle(e: Entry): Simple {
    Simple({}, if e.FileLike() then None else Some([]))
  }

  function Leave(f: Simple, e: Entry, handle: nat): Simple {
    if handle in f.writers && f.writers - {handle} == {} then Idle(e) else f.(writers := f.writers - {handle})
  }

  // A file-like entry whose remote bytes have not changed.
  predicate SameRemote(e: Entry, found: Entry) {
    e.FileLike() && found.size == e.size && found.content == e.content
  }

  // How the plain file changes, given the request and only whether it succeeded.
  function SimpleStep(f: Simple, e: Entry, req: Request, reply: Reply): Simple {
    match req
    case Attr(found) =>
      if f.writers == {} && found.Some? && !(f.bytes.Some? && SameRemote(e, found.value)) then Idle(found.value) else f
    case Open(mode, found, up) =>
      if reply.Done? && f.writers == {} && found.Some? && found.value.FileLike()
      then f.(bytes := Some(Padded(found.value.content, 0, found.value.Size())))
      else if f.writers == {} && found.Some? && !(f.bytes.Some? && SameRemote(e, found.value)) then Idle(found.value)
      else f
    case Write(handle, offset, data, up) =>
      var f1 := f.(writers := f.writers + {handle});
      if reply.Done? && f.bytes.Some? then f1.(bytes := Some(SimpleWrite(f.bytes.value, offset, data))) else f1
    case Resize(target, size) =>
      if target.None? then f
      else
        var f1 := f.(writers := f.writers + {target.value});
        if reply.Done? && f.bytes.Some? then f1.(bytes := Some(SimpleResize(f.bytes.value, size))) else f1
    case Flush(handle, up, accept) =>
      if reply.Sent? && !e.FileLike() then Leave(f, e, handle) else f
    case Release(handle, flush, up, accept) =>
      if reply.Done? || reply.Sent? then Leave(f, e, handle) else f
  }

  /** The buffer stands for the plain file. */
  predicate Coupled(s: State, f: Simple) {
    && s.writers == f.writers
    && (s.writers == {} ==> s.data == [])
    && if s.entry.FileLike()
       then |s.data| <= s.readSize && (f.bytes.Some? ==> Local(s) == f.bytes.value)
       else f.bytes == Some(s.data)
  }

  // What plugins guarantee: a refreshed entry stays of its kind.
  predicate Sensible(e: Entry, req: Request) {
    (req.Open? || req.Attr?) && req.found.Some? ==> req.found.value.FileLike() == e.FileLike()
  }

  // A Flush by this handle reads the rest of the file.
  predicate Loads(s: State, handle: nat, up: bool) {
    && handle in s.writers && s.entry.FileLike() && |s.data| < s.readSize
    && s.entry.readable && (up || s.entry.Size() <= |s.data|)
  }

  /** When a request is safe for a file-like entry: no resize below the loaded prefix, no
      growth over remote bytes that an earlier truncation should have removed, no re-Open that
      resets a changed size, and no Flush that loads through a size attribute which falsifies
      the rest of the file. */
  predicate Guard(s: State, req: Request) {
    s.entry.FileLike() ==>
      match req
      case Attr(_) => true
      case Open(mode, found, up) =>
        s.writers != {} && Supported(s.entry, mode) ==> s.readSize == s.entry.Size()
      case Write(handle, offset, data, up) =>
        GapError(s, offset, up).None? ==> ZeroRemote(s, s.readSize, offset)
      case Resize(target, size) =>
        target.Some? ==> |s.data| <= size && ZeroRemote(s, s.readSize, size)
      case Flush(handle, up, _) => Loads(s, handle, up) ==> TailExact(s)
      case Release(handle, flush, up, _) => flush && Loads(s, handle, up) ==> TailExact(s)
  }

  /** When a request keeps the loaded prefix within the declared size: no resize below it, no
      re-Open that resets the size to less, and no Flush that loads more than it asked for (but
      for one that ends the session). */
  predicate SizeGuard(s: State, req: Request) {
    match req
    case Attr(found) =>
      s.writers != {} && !s.entry.FileLike() && found.Some? && found.value.FileLike() ==> |s.data| <= s.readSize
    case Open(mode, found, up) =>
      s.writers != {} ==>
        if s.entry.FileLike() then Supported(s.entry, mode) ==> |s.data| <= s.entry.Size()
        else found.Some? && found.value.FileLike() ==>
          |s.data| <= if Supported(found.value, mode) then found.value.Size() else s.readSize
    case Write(_, _, _, _) => true
    case Resize(target, size) => s.entry.FileLike() && target.Some? ==> |s.data| <= size
    case Flush(handle, up, _) => Loads(s, handle, up) ==> !Overshoots(s)
    case Release(handle, flush, up, accept) =>
      flush && Loads(s, handle, up) && Overshoots(s) ==> accept && s.writers == {handle}
  }

  // The guard of a step: as long as the bytes are not known only sizes matter.
  predicate GuardAt(s: State, f: Simple, req: Request) {
    if s.entry.FileLike() && f.bytes.None? then SizeGuard(s, req) else Guard(s, req)
  }

  function Next(s: State, f: Simple, req: Request): (State, Simple) {
    var (s1, r) := Step(s, req);
    (s1, SimpleStep(f, s.entry, req, r))
  }

  lemma OpenCoupled(s: State, f: Simple, mode: Mode, found: Option<Entry>, up: bool)
    requires Coupled(s, f) && Sensible(s.entry, Request.Open(mode, found, up)) && (s.entry.FileLike() ==> f.bytes.Some?)
    ensures var (s1, f1) := Next(s, f, Request.Open(mode, found, up));
      Coupled(s1, f1) <==> Guard(s, Request.Open(mode, found, up))
  {
    var (s1, f1) := Next(s, f, Request.Open(mode, found, up));
    if s.writers != {} && s.entry.FileLike() {
      if Supported(s.entry, mode) && s.readSize != s1.readSize && |s1.data| <= s1.readSize {
        assert |Local(s1)| != |Local(s)|;
      }
    } else if s.entry.FileLike() && f1.bytes.Some? {
      assert Local(s1) == Padded(s1.entry.content, 0, s1.readSize);
    }
  }

  lemma WriteCoupled(s: State, f: Simple, handle: nat, offset: nat, data: seq<byte>, up: bool)
    requires Coupled(s, f) && (s.entry.FileLike() ==> f.bytes.Some?)
    ensures var req := Request.Write(handle, offset, data, up);
      var (s1, f1) := Next(s, f, req);
      Coupled(s1, f1) <==> Guard(s, req)
  {
    if s.entry.FileLike() && GapError(s, offset, up).None? {
      var (s1, f1) := Next(s, f, Request.Write(handle, offset, data, up));
      var filled := if |s.data| < offset then s.data + Padded(s.entry.content, |s.data|, offset) else s.data;
      assert s1.data == SimpleWrite(filled, offset, data);
      assert f1.bytes.value == SimpleWrite(Local(s), offset, data);
      WrittenLocal(s, filled, offset, data, s1);
    }
  }

  // The heart of the write case: the two sides differ only where the remote is not zero between
  // readSize and offset.
  lemma WrittenByte(s: State, filled: seq<byte>, offset: nat, data: seq<byte>, s1: State, i: nat)
    requires |s.data| <= s.readSize
    requires filled == if |s.data| < offset then s.data + Padded(s.entry.content, |s.data|, offset) else s.data
    requires s1.entry == s.entry && s1.data == SimpleWrite(filled, offset, data)
    requires s1.readSize == if s.readSize < offset + |data| then offset + |data| else s.readSize
    requires i < s1.readSize
    ensures |Local(s1)| == |SimpleWrite(Local(s), offset, data)| == s1.readSize
    ensures SimpleWrite(Local(s), offset, data)[i] == Local(s1)[i]
       <==> !(s.readSize <= i < offset && i < |s.entry.content| && s.entry.content[i] != 0)
  {
    hide SimpleWrite;
    var want := SimpleWrite(Local(s), offset, data);
    if offset <= i < offset + |data| {
      assert s1.data[i] == s1.data[offset..offset + |data|][i - offset] == data[i - offset];
      assert want[i] == want[offset..offset + |data|][i - offset];
    } else if i < |filled| {
      assert Local(s1)[i] == s1.data[i] == filled[i];
      if |s.data| <= i < s.readSize {
        assert filled[i] == Padded(s.entry.content, |s.data|, offset)[i - |s.data|];
        assert Local(s)[i] == Padded(s.entry.content, |s.data|, s.readSize)[i - |s.data|];
      }
    } else {
      assert offset + |data| <= i < s.readSize && |s1.data| <= i;
      assert Local(s1)[i] == Padded(s1.entry.content, |s1.data|, s1.readSize)[i - |s1.data|];
      assert Local(s)[i] == Padded(s.entry.content, |s.data|, s.readSize)[i - |s.data|];
      assert want[i] == Local(s)[i];
    }
  }

  lemma WrittenLocal(s: State, filled: seq<byte>, offset: nat, data: seq<byte>, s1: State)
    requires |s.data| <= s.readSize
    requires filled == if |s.data| < offset then s.data + Padded(s.entry.content, |s.data|, offset) else s.data
    requires s1.entry == s.entry && s1.data == SimpleWrite(filled, offset, data)
    requires s1.readSize == if s.readSize < offset + |data| then offset + |data| else s.readSize
    ensures |s1.data| <= s1.readSize
    ensures Local(s1) == SimpleWrite(Local(s), offset, data) <==> ZeroRemote(s, s.readSize, offset)
  {
    var want, got := SimpleWrite(Local(s), offset, data), Local(s1);
    assert |want| == |got|;
    forall i | 0 <= i < |want|
      ensures want[i] == got[i] <==> !(s.readSize <= i < offset && i < |s.entry.content| && s.entry.content[i] != 0)
    {
      WrittenByte(s, filled, offset, data, s1, i);
    }
    if want == got {
    } else {
      var i :| 0 <= i < |want| && want[i] != got[i];
      assert s.readSize <= i < offset && i < |s.entry.content| && s.entry.content[i] != 0;
    }
  }

  lemma ResizeCoupled(s: State, f: Simple, target: Option<nat>, size: nat)
    requires Coupled(s, f) && (s.entry.FileLike() ==> f.bytes.Some?)
    ensures var req := Request.Resize(target, size);
      var (s1, f1) := Next(s, f, req);
      Coupled(s1, f1) <==> Guard(s, req)
  {
    var (s1, f1) := Next(s, f, Request.Resize(target, size));
    if s.entry.FileLike() && target.Some? && |s.data| <= size {
      var want, got := SimpleResize(Local(s), size), Local(s1);
      if i :| s.readSize <= i < size && i < |s.entry.content| && s.entry.content[i] != 0 {
        assert got[i] == s.entry.content[i] && want[i] == 0;
      }
      assert f1.bytes == Some(want);
      if ZeroRemote(s, s.readSize, size) { assert got == want; }
    }
  }

  // What plugin.Write is handed is the plain file, if its bytes are known.
  predicate Honest(f: Simple, r: Reply) {
    f.bytes.Some? && (r.Sent? || r.Rejected?) ==> r.bytes == f.bytes.value
  }

  lemma FlushCoupled(s: State, f: Simple, handle: nat, up: bool, accept: bool)
    requires Coupled(s, f)
    ensures var req := Request.Flush(handle, up, accept);
      var (s1, f1) := Next(s, f, req);
      Coupled(s1, f1) && Honest(f, Step(s, req).1) <==> GuardAt(s, f, req)
  {
    hide Filled, TailExact, Overshoots;
    if handle in s.writers && s.entry.FileLike() {
      FlushFills(s, handle, up, accept);
      if |s.data| == s.readSize { assert Local(s) == s.data; }
    }
  }

  // The state after a Flush for which all is loaded.
  lemma FlushFills(s: State, handle: nat, up: bool, accept: bool)
    requires handle in s.writers && s.entry.FileLike() && |s.data| <= s.readSize
    ensures var (s1, r) := FlushStep(s, handle, up, accept);
      if |s.data| == s.readSize then s1 == s && r == (if accept then Sent(s.data) else Rejected(s.data))
      else if !Loads(s, handle, up) then s1 == s && r.Error?
      else
        && s1 == s.(data := Filled(s, up)) && r == (if accept then Sent(s1.data) else Rejected(s1.data))
        && (Filled(s, up) == Local(s) <==> TailExact(s))
        && (|s1.data| <= s.readSize <==> !Overshoots(s))
        && (|s1.data| <= s.readSize ==> Local(s1) == s1.data)
  {
    if |s.data| < s.readSize && s.entry.readable { TailLoad(s, up); }
    if Loads(s, handle, up) { assert |Filled(s, up)| >= s.readSize; }
  }

  lemma ReleaseCoupled(s: State, f: Simple, handle: nat, flush: bool, up: bool, accept: bool)
    requires Coupled(s, f)
    ensures var req := Request.Release(handle, flush, up, accept);
      var (s1, f1) := Next(s, f, req);
      Coupled(s1, f1) && Honest(f, Step(s, req).1) <==> GuardAt(s, f, req)
  {
    hide Filled, TailExact, Overshoots;
    if flush && handle in s.writers && s.entry.FileLike() {
      FlushFills(s, handle, up, accept);
      assert s.writers - {handle} == {} <==> s.writers == {handle};
      if |s.data| == s.readSize { assert Local(s) == s.data; }
    }
  }

  /** One step: the buffer keeps standing for the plain file, and the plugin is handed nothing
      else, exactly when the guard holds. */
  lemma StepCoupledIff(s: State, f: Simple, req: Request)
    requires Coupled(s, f) && Sensible(s.entry, req)
    ensures var (s1, f1) := Next(s, f, req);
      Coupled(s1, f1) && Honest(f, Step(s, req).1) <==> GuardAt(s, f, req)
  {
    hide Filled, TailExact, Overshoots;
    if req.Flush? {
      FlushCoupled(s, f, req.handle, req.up, req.accept);
    } else if req.Release? {
      ReleaseCoupled(s, f, req.handle, req.flush, req.up, req.accept);
    } else {
      hide FlushStep, ReleaseStep;
      if s.entry.FileLike() && f.bytes.None? {
        UnknownCoupledIff(s, f, req);
      } else {
        match req
        case Attr(_) =>
        case Open(mode, found, up) => OpenCoupled(s, f, mode, found, up);
        case Write(handle, offset, data, up) => WriteCoupled(s, f, handle, offset, data, up);
        case Resize(target, size) => ResizeCoupled(s, f, target, size);
      }
    }
  }

  lemma UnknownCoupledIff(s: State, f: Simple, req: Request)
    requires Coupled(s, f) && Sensible(s.entry, req) && s.entry.FileLike() && f.bytes.None?
    ensures var (s1, f1) := Next(s, f, req); Coupled(s1, f1) <==> SizeGuard(s, req)
  {
    hide Filled, TailExact, Overshoots;
    match req
    case Attr(_) =>
    case Open(mode, found, up) =>
      if s.writers == {} && found.Some? && Supported(found.value, mode) {
        var (s1, f1) := Next(s, f, req);
        assert Local(s1) == Padded(s1.entry.content, 0, s1.readSize);
      }
    case Write(_, _, _, _) =>
    case Resize(_, _) =>
    case Flush(handle, up, accept) => FlushCoupled(s, f, handle, up, accept);
    case Release(handle, flush, up, accept) => ReleaseCoupled(s, f, handle, flush, up, accept);
  }

  /** The bytes, once known, are known until the last writer leaves, or an Attr or failed Open finds
      other remote bytes. */
  lemma BytesLostIff(s: State, f: Simple, req: Request)
    requires Coupled(s, f) && Sensible(s.entry, req) && s.entry.FileLike() && f.bytes.Some?
    ensures var (s1, r) := Step(s, req);
      SimpleStep(f, s.entry, req, r).bytes.None? <==>
        || (req.Release? && (r.Done? || r.Sent?) && s.writers == {req.handle})
        || (req.Attr? && s.writers == {} && req.found.Some? && !SameRemote(s.entry, req.found.value))
        || (req.Open? && r.Error? && s.writers == {} && req.found.Some? && !SameRemote(s.entry, req.found.value))
  {
    if req.Release? {
      assert s.writers - {req.handle} == {} && req.handle in s.writers <==> s.writers == {req.handle};
    }
  }

  /*** Whole runs ***/

  predicate AllSensible(e: Entry, run: seq<Request>) {
    forall i :: 0 <= i < |run| ==> Sensible(e, run[i])
  }

  // Every request of the run is guarded.
  predicate Guarded(s: State, f: Simple, run: seq<Request>)
    decreases |run|
  {
    run == [] ||
      (&& GuardAt(s, f, run[0])
       && var (s1, f1) := Next(s, f, run[0]);
          Guarded(s1, f1, run[1..]))
  }

  // Along the run: nothing panics; while the plain file's bytes are known, what plugin.Write is
  // handed is the plain file and a failed request leaves the bytes alone; and the buffer keeps
  // standing for the plain file.
  predicate Faithful(s: State, f: Simple, run: seq<Request>)
    decreases |run|
  {
    run == [] ||
      (var (s1, r) := Step(s, run[0]);
       var f1 := SimpleStep(f, s.entry, run[0], r);
       && r != Panicked
       && Honest(f, r)
       && (f.bytes.Some? && r.Error? && !run[0].Open? ==> f1.bytes == f.bytes)
       && Coupled(s1, f1)
       && Faithful(s1, f1, run[1..]))
  }

  // Whatever the guard says.
  lemma StepKeeps(s: State, f: Simple, req: Request)
    requires Coupled(s, f) && Sensible(s.entry, req)
    ensures var (s1, r) := Step(s, req);
      && r != Panicked
      && (f.bytes.Some? && r.Error? && !req.Open? ==> SimpleStep(f, s.entry, req, r).bytes == f.bytes)
      && s1.entry.FileLike() == s.entry.FileLike()
  {
    hide Filled;
  }

  lemma RestIsSensible(e: Entry, run: seq<Request>, e1: Entry)
    requires run != [] && AllSensible(e, run) && e1.FileLike() == e.FileLike()
    ensures Sensible(e, run[0]) && AllSensible(e1, run[1..])
  {
    forall i | 0 <= i < |run[1..]| ensures Sensible(e1, run[1..][i]) { assert Sensible(e, run[i + 1]); }
  }

  /** Whole runs: faithful exactly when guarded. */
  lemma {:induction false} GuardedRunFaithful(s: State, f: Simple, run: seq<Request>)
    requires Coupled(s, f) && AllSensible(s.entry, run)
    ensures Faithful(s, f, run) <==> Guarded(s, f, run)
    decreases |run|
  {
    if run != [] {
      hide Coupled, GuardAt, Honest, Step, SimpleStep, Sensible, AllSensible;
      var (s1, f1) := Next(s, f, run[0]);
      assert Sensible(s.entry, run[0]) by { RestIsSensible(s.entry, run, s.entry); }
      StepCoupledIff(s, f, run[0]);
      StepKeeps(s, f, run[0]);
      RestIsSensible(s.entry, run, s1.entry);
      if GuardAt(s, f, run[0]) { GuardedRunFaithful(s1, f1, run[1..]); }
    }
  }

  /** From a new file on, for either kind of entry and any size attribute. */
  lemma NewFileFaithful(e: Entry, run: seq<Request>)
    requires AllSensible(e, run)
    ensures var s := State(e, {}, [], 0); Faithful(s, Idle(e), run) <==> Guarded(s, Idle(e), run)
  {
    GuardedRunFaithful(State(e, {}, [], 0), Idle(e), run);
  }

  /** A write buffer (no size attribute) needs no guard at all. */
  lemma {:induction false} PlainBufferGuarded(s: State, f: Simple, run: seq<Request>)
    requires Coupled(s, f) && !s.entry.FileLike() && AllSensible(s.entry, run)
    ensures Guarded(s, f, run)
    decreases |run|
  {
    if run != [] {
      var (s1, f1) := Next(s, f, run[0]);
      RestIsSensible(s.entry, run, s.entry);
      StepCoupledIff(s, f, run[0]);
      StepKeeps(s, f, run[0]);
      RestIsSensible(s.entry, run, s1.entry);
      PlainBufferGuarded(s1, f1, run[1..]);
    }
  }

  /*** The panic, for every run ***/

  function After(s: State, run: seq<Request>): State
    decreases |run|
  {
    if run == [] then s else After(Step(s, run[0]).0, run[1..])
  }

  predicate IdleIsEmpty(s: State) {
    s.writers == {} ==> s.data == []
  }

  /** For both kinds of entry and every request whatever: without writers there is no data. */
  lemma {:induction false} NoWritersNoData(s: State, run: seq<Request>)
    requires IdleIsEmpty(s)
    ensures IdleIsEmpty(After(s, run))
    decreases |run|
  {
    if run != [] { NoWritersNoData(Step(s, run[0]).0, run[1..]); }
  }

  predicate Fits(s: State) {
    IdleIsEmpty(s) && (s.entry.FileLike() ==> |s.data| <= s.readSize)
  }

  // A Flush, or the one that goes with a Release.
  lemma FlushFits(s: State, req: Request)
    requires Fits(s) && (req.Flush? || req.Release?)
    ensures Step(s, req).1 != Panicked
    ensures Fits(Step(s, req).0) <==> SizeGuard(s, req)
  {
    hide Filled, TailExact, Overshoots, Local;
    if (req.Flush? || req.flush) && req.handle in s.writers && s.entry.FileLike() {
      FlushFills(s, req.handle, req.up, req.accept);
      assert s.writers - {req.handle} == {} <==> s.writers == {req.handle};
    }
  }

  /** One request, of any kind, on a state that fits: it does not panic, and the next state fits
      exactly when the request respects the loaded prefix and loads no more than it asked for. */
  lemma StepFitsIff(s: State, req: Request)
    requires Fits(s)
    ensures Step(s, req).1 != Panicked
    ensures Fits(Step(s, req).0) <==> SizeGuard(s, req)
  {
    hide FlushStep, ReleaseStep;
    if req.Flush? || req.Release? {
      FlushFits(s, req);
    } else if req.Write? && GapError(s, req.offset, req.up).None? && s.entry.FileLike() {
      assert |Step(s, req).0.data| <= Step(s, req).0.readSize;
    }
  }

  predicate SizesGuarded(s: State, run: seq<Request>)
    decreases |run|
  {
    run == [] || (SizeGuard(s, run[0]) && SizesGuarded(Step(s, run[0]).0, run[1..]))
  }

  // Some writer's Flush would panic.
  ghost predicate FlushWouldPanic(s: State) {
    exists h: nat :: FlushStep(s, h, true, true).1 == Panicked
  }

  ghost predicate NeverAboutToPanic(s: State, run: seq<Request>) {
    forall k :: 0 <= k <= |run| ==> !FlushWouldPanic(After(s, run[..k]))
  }

  lemma FitsIffSafe(s: State)
    requires IdleIsEmpty(s)
    ensures Fits(s) <==> !FlushWouldPanic(s)
  {
    if !Fits(s) {
      var h :| h in s.writers;
      assert FlushStep(s, h, true, true).1 == Panicked;
    }
  }

  lemma AboutToPanicLater(s: State, run: seq<Request>)
    requires run != []
    ensures NeverAboutToPanic(s, run) <==> !FlushWouldPanic(s) && NeverAboutToPanic(Step(s, run[0]).0, run[1..])
  {
    var s1, rest := Step(s, run[0]).0, run[1..];
    forall k | 0 < k <= |run| ensures After(s, run[..k]) == After(s1, rest[..k - 1]) {
      assert run[..k][1..] == rest[..k - 1];
    }
    assert After(s, run[..0]) == s;
    if NeverAboutToPanic(s, run) {
      forall k | 0 <= k <= |rest| ensures !FlushWouldPanic(After(s1, rest[..k])) {
        assert After(s, run[..k + 1]) == After(s1, rest[..k]);
      }
    }
  }

  /** Along a run of any requests and any size attributes, at no point would a Flush panic, exactly
      when no request sets the declared size below the loaded prefix or loads more than it asked for. */
  lemma {:induction false} PanicFreeIff(s: State, run: seq<Request>)
    requires Fits(s)
    ensures NeverAboutToPanic(s, run) <==> SizesGuarded(s, run)
    decreases |run|
  {
    FitsIffSafe(s);
    if run == [] {
      assert run[..0] == [];
    } else {
      var s1 := Step(s, run[0]).0;
      AboutToPanicLater(s, run);
      StepFitsIff(s, run[0]);
      if SizeGuard(s, run[0]) {
        PanicFreeIff(s1, run[1..]);
      } else {
        FitsIffSafe(s1);
        assert run[1..][..0] == [];
        assert After(s1, run[1..][..0]) == s1;
      }
    }
  }

  /** In particular a guarded run never panics, from a new file on. */
  lemma {:induction false} GuardedRunNeverPanics(s: State, run: seq<Request>)
    requires Fits(s) && SizesGuarded(s, run)
    ensures Panicked !in Results(s, run)
    decreases |run|
  {
    if run != [] {
      StepFitsIff(s, run[0]);
      GuardedRunNeverPanics(Step(s, run[0]).0, run[1..]);
    }
  }

  /*** Who writes, and what is sent ***/

  // The plugin is asked to write.
  predicate Hands(r: Reply) {
    r.Sent? || r.Rejected?
  }

  /** Only a writer's Flush, or a flushing Release, hands anything to the plugin. */
  lemma OnlyWritersSend(s: State, req: Request)
    requires Hands(Step(s, req).1)
    ensures (req.Flush? || (req.Release? && req.flush)) && req.handle in s.writers
  {
  }

  // Request i of the run writes through handle h, or resizes.
  predicate WritesAt(run: seq<Request>, i: nat, h: nat) {
    i < |run| && ((run[i].Write? && run[i].handle == h) || (run[i].Resize? && run[i].target == Some(h)))
  }

  // Request i releases h, or is the Flush of a plain buffer, and succeeds.
  predicate LeavesAt(s: State, run: seq<Request>, i: nat, h: nat) {
    i < |run| &&
    var r := Step(After(s, run[..i]), run[i]).1;
    || (run[i].Release? && run[i].handle == h && (r.Done? || r.Sent?))
    || (run[i].Flush? && run[i].handle == h && r.Sent? && !After(s, run[..i]).entry.FileLike())
  }

  // Request i of the first n writes, and none after it leaves.
  predicate WritesLast(s: State, run: seq<Request>, i: nat, n: nat, h: nat) {
    i < n && WritesAt(run, i, h) && forall j: nat :: i < j < n ==> !LeavesAt(s, run, j, h)
  }

  // Among the first n requests h wrote or resized, and has not left since.
  ghost predicate Writing(s: State, run: seq<Request>, n: nat, h: nat) {
    exists i: nat :: WritesLast(s, run, i, n, h)
  }

  lemma {:induction false} AfterLast(s: State, run: seq<Request>, n: nat)
    requires n < |run|
    ensures After(s, run[..n + 1]) == Step(After(s, run[..n]), run[n]).0
    decreases n
  {
    if n > 0 {
      var s1 := Step(s, run[0]).0;
      AfterLast(s1, run[1..], n - 1);
      assert run[..n + 1][1..] == run[1..][..n] && run[..n][1..] == run[1..][..n - 1];
      assert run[..n + 1][0] == run[0] == run[..n][0];
    } else {
      assert run[..1][1..] == [] && run[..0] == [];
      assert After(s, run[..1]) == After(Step(s, run[0]).0, []);
    }
  }

  lemma WriterStep(s: State, run: seq<Request>, n: nat, h: nat)
    requires n < |run|
    ensures h in Step(After(s, run[..n]), run[n]).0.writers
       <==> WritesAt(run, n, h) || (h in After(s, run[..n]).writers && !LeavesAt(s, run, n, h))
  {
  }

  lemma WritingStep(s: State, run: seq<Request>, n: nat, h: nat)
    requires n < |run|
    ensures Writing(s, run, n + 1, h) <==> WritesAt(run, n, h) || (Writing(s, run, n, h) && !LeavesAt(s, run, n, h))
  {
    hide LeavesAt;
    if Writing(s, run, n + 1, h) && !WritesAt(run, n, h) {
      var i: nat :| WritesLast(s, run, i, n + 1, h);
      assert WritesLast(s, run, i, n, h);
    }
    if Writing(s, run, n, h) && !LeavesAt(s, run, n, h) {
      var i: nat :| WritesLast(s, run, i, n, h);
      assert WritesLast(s, run, i, n + 1, h);
    }
    if WritesAt(run, n, h) { assert WritesLast(s, run, n, n + 1, h); }
  }

  /** The writers after any requests are those that wrote or resized and have not left since. */
  lemma {:induction false} WritersAre(s: State, run: seq<Request>, n: nat, h: nat)
    requires s.writers == {} && n <= |run|
    ensures h in After(s, run[..n]).writers <==> Writing(s, run, n, h)
  {
    if n == 0 {
      assert run[..0] == [];
    } else {
      WritersAre(s, run, n - 1, h);
      AfterLast(s, run, n - 1);
      WriterStep(s, run, n - 1, h);
      WritingStep(s, run, n - 1, h);
    }
  }

  lemma {:induction false} ResultsAt(s: State, run: seq<Request>, n: nat)
    ensures |Results(s, run)| == |run|
    ensures n < |run| ==> Results(s, run)[n] == Step(After(s, run[..n]), run[n]).1
    decreases |run|
  {
    if run != [] {
      ResultsAt(Step(s, run[0]).0, run[1..], if n > 0 then n - 1 else 0);
      if 0 < n < |run| { assert run[..n][1..] == run[1..][..n - 1]; } else { assert run[..0] == []; }
    }
  }

  /** Along any run, what is handed to the plugin comes from a handle that wrote or resized before
      and has not left since. Closing what was only read writes nothing. */
  lemma SentAfterWrite(s: State, run: seq<Request>, n: nat)
    requires s.writers == {} && n < |Results(s, run)| == |run| && Hands(Results(s, run)[n])
    ensures (run[n].Flush? || (run[n].Release? && run[n].flush)) && Writing(s, run, n, run[n].handle)
  {
    hide Step, Results, After, Writing;
    ResultsAt(s, run, n);
    OnlyWritersSend(After(s, run[..n]), run[n]);
    WritersAre(s, run, n, run[n].handle);
  }

  /** And a writer's Flush does hand over the plain file, all of it, unless the rest has to be read
      and cannot be. */
  lemma WriterFlushDelivers(s: State, f: Simple, h: nat, up: bool, accept: bool)
    requires Coupled(s, f) && f.bytes.Some? && h in s.writers && Guard(s, Request.Flush(h, up, accept))
    requires !s.entry.FileLike() || |s.data| == s.readSize || (s.entry.readable && up)
    ensures Step(s, Request.Flush(h, up, accept)).1 == if accept then Sent(f.bytes.value) else Rejected(f.bytes.value)
  {
    hide Filled, TailExact;
    if s.entry.FileLike() {
      FlushFills(s, h, up, accept);
      if |s.data| == s.readSize { assert Local(s) == s.data; }
    }
  }

  /** Which modes an entry opens in: only reading for what can only be read, only writing for what
      can only be written, either for what can do both, and both at once if it has a size. */
  lemma OpenModes(s: State, mode: Mode, e: Entry)
    requires s.writers == {}
    ensures var r := Step(s, Open(mode, Some(e), true)).1;
      && (r == Done || r == Error(ENOTSUP))
      && (e.readable && !e.writable ==> (r == Done <==> mode == ReadOnly))
      && (e.writable && !e.readable ==> (r == Done <==> mode == WriteOnly))
      && (!e.readable && !e.writable ==> r != Done)
      && (e.readable && e.writable ==> (r == Done <==> mode == ReadOnly || mode == WriteOnly || e.size.Some?))
  {
  }

  /*** Outside the guard ***/

  function Results(s: State, run: seq<Request>): seq<Reply>
    decreases |run|
  {
    if run == [] then [] else var (s1, r) := Step(s, run[0]); [r] + Results(s1, run[1..])
  }

  /** Writing three bytes and shrinking to one makes the next Flush panic. */
  lemma ShrinkThenFlushPanics()
    ensures
      var e := Entry(Some(3), [7, 7, 7], true, true);
      Results(State(e, {}, [], 0),
        [Open(WriteOnly, Some(e), true), Write(1, 0, [1, 2, 3], true), Resize(Some(1), 1), Flush(1, true, true)])
      == [Done, Done, Done, Panicked]
  {
    var e := Entry(Some(3), [7, 7, 7], true, true);
    var s0 := State(e, {}, [], 0);
    var s1 := State(e, {}, [], 3);
    var s2 := State(e, {1}, [1, 2, 3], 3);
    var s3 := State(e, {1}, [1, 2, 3], 1);
    var a, b, c, d := Open(WriteOnly, Some(e), true), Write(1, 0, [1, 2, 3], true), Resize(Some(1), 1),
        Flush(1, true, true);
    assert Step(s0, a) == (s1, Done);
    assert {} + {1 as nat} == {1} && {1 as nat} + {1} == {1};
    assert SimpleWrite([], 0, [1, 2, 3]) == [1, 2, 3];
    assert Step(s1, b) == (s2, Done);
    assert Step(s2, c) == (s3, Done);
    assert Step(s3, d).1 == Panicked;
    assert [a, b, c, d][1..] == [b, c, d] && [b, c, d][1..] == [c, d] && [c, d][1..] == [d];
    assert Results(s3, [d]) == [Panicked] + Results(Step(s3, d).0, [d][1..]);
    assert Results(s2, [c, d]) == [Done] + Results(s3, [d]);
    assert Results(s1, [b, c, d]) == [Done] + Results(s2, [c, d]);
  }

  /** Shrinking to nothing and growing back resurrects the old remote bytes: the plugin is
      handed 7 where the plain file has 0. */
  lemma ShrinkThenGrowResurrects()
    ensures
      var e := Entry(Some(1), [7], true, true);
      Results(State(e, {}, [], 0),
        [Open(WriteOnly, Some(e), true), Resize(Some(1), 0), Resize(Some(1), 1), Flush(1, true, true)])
      == [Done, Done, Done, Sent([7])]
  {
    var e := Entry(Some(1), [7], true, true);
    var s0, s1 := State(e, {}, [], 0), State(e, {}, [], 1);
    var s2, s3 := State(e, {1}, [], 0), State(e, {1}, [], 1);
    var a, b, c, d := Open(WriteOnly, Some(e), true), Resize(Some(1), 0), Resize(Some(1), 1), Flush(1, true, true);
    assert {} + {1 as nat} == {1} && {1 as nat} + {1} == {1};
    assert Step(s0, a) == (s1, Done) && Step(s1, b) == (s2, Done) && Step(s2, c) == (s3, Done);
    assert Filled(s3, true) == [7];
    assert [a, b, c, d][1..] == [b, c, d] && [b, c, d][1..] == [c, d] && [c, d][1..] == [d];
    assert Results(s3, [d]) == [Sent([7])] + Results(Step(s3, d).0, [d][1..]);
    assert Results(s2, [c, d]) == [Done] + Results(s3, [d]);
    assert Results(s1, [b, c, d]) == [Done] + Results(s2, [c, d]);
  }

  /** While writing, a read is served from the loaded prefix alone: it returns the plain
      file's bytes exactly when the part of the window inside the file is loaded. */
  lemma LocalReadIff(s: State, size: nat, offset: nat)
    requires |s.data| <= s.readSize
    ensures Window(s.data, size, offset) == Window(Local(s), size, offset)
       <==> (size == 0 || s.readSize <= offset || s.readSize == |s.data| || offset + size <= |s.data|)
  {
    var a, b := Window(s.data, size, offset), Window(Local(s), size, offset);
    if size == 0 || s.readSize <= offset || s.readSize == |s.data| || offset + size <= |s.data| {
      assert a == b;
    } else {
      assert |a| < |b|;
    }
  }

  lemma Continues(s: State, req: Request, rest: seq<Request>, s1: State, r: Reply)
    requires Step(s, req) == (s1, r)
    ensures Results(s, [req] + rest) == [r] + Results(s1, rest)
    ensures After(s, [req] + rest) == After(s1, rest)
  {
    assert ([req] + rest)[1..] == rest;
  }

  /** A session opened for writing and set to the file's own size has loaded nothing: a local read
      returns nothing, although the file has a byte there. */
  lemma LocalReadMissesRemote()
    ensures
      var e := Entry(Some(1), [7], true, true);
      var run := [Open(ReadWrite, Some(e), true), Resize(Some(1), 1)];
      var s := After(State(e, {}, [], 0), run);
      && Results(State(e, {}, [], 0), run) == [Done, Done] && s == State(e, {1}, [], 1)
      && Window(Local(s), 1, 0) == [7] && Window(s.data, 1, 0) == []
  {
    var e := Entry(Some(1), [7], true, true);
    var a, b := Open(ReadWrite, Some(e), true), Resize(Some(1), 1);
    var s1, s2 := State(e, {}, [], 1), State(e, {1}, [], 1);
    assert {} + {1 as nat} == {1};
    Continues(State(e, {}, [], 0), a, [b], s1, Done);
    Continues(s1, b, [], s2, Done);
    assert [a] + [b] == [a, b] && [b] + [] == [b];
    assert Local(s2) == [7];
  }

  const SMALL := Entry(Some(3), [1, 2, 3, 4, 5], true, true)

  lemma SmallAttributeSteps()
    ensures var s2, s3 := State(SMALL, {1}, [8, 9], 3), State(SMALL, {1}, [8, 9], 4);
      && Step(State(SMALL, {}, [], 3), Write(1, 0, [8, 9], true)) == (s2, Done)
      && Step(s2, Resize(Some(1), 4)) == (s3, Done)
  {
    assert {} + {1 as nat} == {1} && {1 as nat} + {1} == {1} && SimpleWrite([], 0, [8, 9]) == [8, 9];
  }

  lemma SmallAttributeFlushes()
    ensures var s3, s4 := State(SMALL, {1}, [8, 9], 4), State(SMALL, {1}, [8, 9, 3, 4, 5], 4);
      && Step(s3, Flush(1, true, true)) == (s4, Sent([8, 9, 3, 4, 5]))
      && Step(s4, Flush(1, true, true)) == (s4, Panicked)
  {
    var s3 := State(SMALL, {1}, [8, 9], 4);
    assert SMALL.content[2..5] == [3, 4, 5];
    assert Filled(s3, true) == [8, 9, 3, 4, 5];
  }

  /** With a size attribute below the content, growing the file makes one Flush load too much, and
      the next one panics: of 4 bytes the plugin is handed 5. */
  lemma SmallAttributeFlushPanics()
    ensures
      var flush := Flush(1, true, true);
      Results(State(SMALL, {}, [], 0),
        [Open(WriteOnly, Some(SMALL), true), Write(1, 0, [8, 9], true), Resize(Some(1), 4), flush, flush])
      == [Done, Done, Done, Sent([8, 9, 3, 4, 5]), Panicked]
  {
    var a, b := Open(WriteOnly, Some(SMALL), true), Write(1, 0, [8, 9], true);
    var c, d := Resize(Some(1), 4), Flush(1, true, true);
    var s0, s1, s2 := State(SMALL, {}, [], 0), State(SMALL, {}, [], 3), State(SMALL, {1}, [8, 9], 3);
    var s3, s4 := State(SMALL, {1}, [8, 9], 4), State(SMALL, {1}, [8, 9, 3, 4, 5], 4);
    assert Step(s0, a) == (s1, Done);
    hide Step;
    SmallAttributeSteps();
    SmallAttributeFlushes();
    Continues(s0, a, [b, c, d, d], s1, Done);
    Continues(s1, b, [c, d, d], s2, Done);
    Continues(s2, c, [d, d], s3, Done);
    Continues(s3, d, [d], s4, Sent([8, 9, 3, 4, 5]));
    Continues(s4, d, [], s4, Panicked);
    assert [a] + [b, c, d, d] == [a, b, c, d, d] && [b] + [c, d, d] == [b, c, d, d] && [c] + [d, d] == [c, d, d];
    assert [d] + [d] == [d, d] && [d] + [] == [d];
  }

  /** When the entry of a written plain buffer gains a size attribute, the next Flush panics. */
  lemma AttrThenFlushPanics()
    ensures
      var e, sized := Entry(None, [], false, true), Entry(Some(3), [], false, true);
      Results(State(e, {}, [], 0),
        [Open(WriteOnly, Some(e), true), Write(1, 0, [1, 2, 3], true), Attr(Some(sized)), Flush(1, true, true)])
      == [Done, Done, Done, Panicked]
  {
    var e, sized := Entry(None, [], false, true), Entry(Some(3), [], false, true);
    var a, b, c, d := Open(WriteOnly, Some(e), true), Write(1, 0, [1, 2, 3], true), Attr(Some(sized)),
        Flush(1, true, true);
    var s0, s1, s2 := State(e, {}, [], 0), State(e, {1}, [1, 2, 3], 0), State(sized, {1}, [1, 2, 3], 0);
    assert {} + {1 as nat} == {1} && SimpleWrite([], 0, [1, 2, 3]) == [1, 2, 3];
    Continues(s0, a, [b, c, d], s0, Done);
    Continues(s0, b, [c, d], s1, Done);
    Continues(s1, c, [d], s2, Done);
    Continues(s2, d, [], s2, Panicked);
    assert [a] + [b, c, d] == [a, b, c, d] && [b] + [c, d] == [b, c, d] && [c] + [d] == [c, d] && [d] + [] == [d];
  }

  /** Opening a file again while it is written resets its grown size: the next Flush panics. */
  lemma ReopenThenFlushPanics()
    ensures
      var e := Entry(Some(0), [], true, true);
      Results(State(e, {}, [], 0),
        [Open(WriteOnly, Some(e), true), Write(1, 0, [1], true), Open(WriteOnly, Some(e), true), Flush(1, true, true)])
      == [Done, Done, Done, Panicked]
  {
    var e := Entry(Some(0), [], true, true);
    var s0, s2, s3 := State(e, {}, [], 0), State(e, {1}, [1], 1), State(e, {1}, [1], 0);
    var a, b, c := Open(WriteOnly, Some(e), true), Write(1, 0, [1], true), Flush(1, true, true);
    assert {} + {1 as nat} == {1};
    assert SimpleWrite([], 0, [1]) == [1];
    assert Step(s0, a) == (s0, Done) && Step(s0, b) == (s2, Done) && Step(s2, a) == (s3, Done)
        && Step(s3, c).1 == Panicked;
    assert [a, b, a, c][1..] == [b, a, c] && [b, a, c][1..] == [a, c] && [a, c][1..] == [c];
    assert Results(s3, [c]) == [Panicked] + Results(Step(s3, c).0, [c][1..]);
    assert Results(s2, [a, c]) == [Done] + Results(s3, [c]);
    assert Results(s0, [b, a, c]) == [Done] + Results(s2, [a, c]);
  }
}
