/** The write-back buffer behind an open FUSE file (fuse/file.go).

    A file-like entry (one with a size attribute) keeps in `data` a prefix of its local
    content; the rest, up to `readSize`, is still remote and is fetched only when a write
    would leave a gap or on Flush.  Other entries use `data` as a plain write buffer. */
module FuseFile {
  import opened Options
  import opened PluginRead

  datatype Entry = Entry(size: Option<nat>, content: seq<byte>, readable: bool, writable: bool) {
    predicate FileLike() { size.Some? }
    // The size attribute, if there is one, covers the content.
    predicate Valid() { size.Some? ==> |content| <= size.value }
    function Size(): nat { if size.Some? then size.value else if readable then |content| else 0 }
  }

  datatype Mode = ReadOnly | WriteOnly | ReadWrite

  datatype Errno = ENOTSUP | EndOfFile | EIO

  // `up` and `accept` stand for the remote side: whether plugin.Read can fetch the
  // content, and whether plugin.Write succeeds.  Open and Attr carry the refreshed entry.
  datatype Request =
    | Attr(found: Option<Entry>)
    | Open(mode: Mode, found: Option<Entry>, up: bool)
    | Write(handle: nat, offset: nat, bytes: seq<byte>, up: bool)
    | Resize(target: Option<nat>, size: nat)
    | Flush(handle: nat, up: bool, accept: bool)
    | Release(handle: nat, flush: bool, up: bool, accept: bool)

  datatype Reply =
    | Done
    | Error(err: Errno)
    | Sent(bytes: seq<byte>)       // plugin.Write was handed these bytes and accepted them
    | Rejected(bytes: seq<byte>)   // plugin.Write was handed these bytes and failed
    | Panicked

  datatype State = State(entry: Entry, writers: set<nat>, data: seq<byte>, readSize: nat)

  /*** The simple file ***/

  // Bytes [lo, hi) of `content` followed by endless zeros.
  function Padded(content: seq<byte>, lo: nat, hi: nat): (r: seq<byte>)
    requires lo <= hi
    ensures |r| == hi - lo
    ensures forall i :: lo <= i < hi ==> r[i - lo] == if i < |content| then content[i] else 0
  {
    seq(hi - lo, i requires 0 <= i < hi - lo => if lo + i < |content| then content[lo + i] else 0)
  }

  function SimpleWrite(f: seq<byte>, offset: nat, bytes: seq<byte>): (r: seq<byte>)
    ensures |r| == if |f| < offset + |bytes| then offset + |bytes| else |f|
    ensures r[offset..offset + |bytes|] == bytes
    ensures forall i :: 0 <= i < |r| && !(offset <= i < offset + |bytes|) ==> r[i] == if i < |f| then f[i] else 0
  {
    var n := if |f| < offset + |bytes| then offset + |bytes| else |f|;
    seq(n, i requires 0 <= i < n =>
      if offset <= i < offset + |bytes| then bytes[i - offset] else if i < |f| then f[i] else 0)
  }

  // Growing the buffer with zeros and copying over it.
  lemma CopyIsWrite(f: seq<byte>, offset: nat, bytes: seq<byte>)
    ensures var end := offset + |bytes|;
      var grown := if end > |f| then f + Zeros(end - |f|) else f;
      grown[..offset] + bytes + grown[end..] == SimpleWrite(f, offset, bytes)
  {
  }

  function SimpleResize(f: seq<byte>, size: nat): (r: seq<byte>)
    ensures |r| == size
    ensures forall i :: 0 <= i < size ==> r[i] == if i < |f| then f[i] else 0
  {
    Padded(f, 0, size)
  }

  /*** What the buffer stands for ***/

  function Local(s: State): seq<byte>
    requires |s.data| <= s.readSize
  {
    s.data + Padded(s.entry.content, |s.data|, s.readSize)
  }

  /*** The transitions ***/

  function ReleaseWriter(s: State, handle: nat): State {
    var left := s.writers - {handle};
    s.(writers := left, data := if handle in s.writers && left == {} then [] else s.data)
  }

  predicate Supported(e: Entry, mode: Mode) {
    match mode
    case ReadOnly => e.readable
    case WriteOnly => e.writable
    case ReadWrite => e.readable && e.writable && e.FileLike()
  }

  function OpenStep(s: State, mode: Mode, found: Option<Entry>, up: bool): (State, Reply) {
    if s.writers != {} && s.entry.FileLike() then
      if Supported(s.entry, mode) then (s.(readSize := s.entry.Size()), Done) else (s, Error(ENOTSUP))
    else if found.None? then (s, Error(EIO))
    else
      var e := found.value;
      var s1 := s.(entry := e);
      if !Supported(e, mode) then (s1, Error(ENOTSUP))
      else if e.FileLike() then (s1.(readSize := e.Size()), Done)
      else if mode != ReadOnly then (s1, Done)
      else if up then (s1.(readSize := e.Size()), Done)
      else (s1, Error(EIO))
  }

  function AttrStep(s: State, found: Option<Entry>): (State, Reply) {
    if s.writers != {} && s.entry.FileLike() then (s, Done)
    else if found.None? then (s, Error(EIO))
    else (s.(entry := found.value), Done)
  }

  // How load answers for the gap [|data|, offset).
  function GapError(s: State, offset: nat, up: bool): Option<Errno> {
    if !s.entry.FileLike() || offset <= |s.data| then None
    else if !s.entry.readable then Some(ENOTSUP)
    else if s.entry.Size() <= |s.data| then Some(EndOfFile)
    else if !up then Some(EIO)
    else if s.entry.Size() < offset || |s.entry.content| < offset then Some(EndOfFile)
    else None
  }

  function WriteStep(s: State, handle: nat, offset: nat, bytes: seq<byte>, up: bool): (State, Reply) {
    var s1 := s.(writers := s.writers + {handle});
    var end := offset + |bytes|;
    if GapError(s, offset, up).Some? then (s1, Error(GapError(s, offset, up).value))
    else if !s.entry.FileLike() then (s1.(data := SimpleWrite(s.data, offset, bytes)), Done)
    else
      var filled := if |s.data| < offset then s.data + Padded(s.entry.content, |s.data|, offset) else s.data;
      (s1.(data := SimpleWrite(filled, offset, bytes), readSize := if s.readSize < end then end else s.readSize), Done)
  }

  function ResizeStep(s: State, handle: Option<nat>, size: nat): (State, Reply) {
    if handle.None? then (s, Error(ENOTSUP))
    else
      var s1 := s.(writers := s.writers + {handle.value});
      if s.entry.FileLike() then (s1.(readSize := size), Done)
      else (s1.(data := SimpleResize(s.data, size)), Done)
  }

  // What load reads for Flush, the stretch [|data|, readSize).
  function TailRead(s: State, up: bool): (seq<byte>, ReadErr) {
    if s.readSize <= |s.data| then ([], NoErr)
    else ReadResult(s.entry.size, if up then Some(s.entry.content) else None, s.readSize - |s.data|, |s.data|)
  }

  // How load answers Flush: io.EOF is tolerated there.
  function TailError(s: State, up: bool): Option<Errno> {
    if !s.entry.FileLike() || s.readSize <= |s.data| then None
    else if !s.entry.readable then Some(ENOTSUP)
    else if TailRead(s, up).1 == Failed then Some(EIO)
    else None
  }

  function TopUp(data: seq<byte>, size: nat): seq<byte> {
    if |data| < size then data + Zeros(size - |data|) else data
  }

  // The buffer with the rest loaded and topped up with zeros. It can be longer than readSize.
  function Filled(s: State, up: bool): seq<byte> {
    TopUp(s.data + TailRead(s, up).0, s.readSize)
  }

  function FlushStep(s: State, handle: nat, up: bool, accept: bool): (State, Reply) {
    if handle !in s.writers then (s, Done)
    else if s.entry.FileLike() then
      if s.readSize < |s.data| then (s, Panicked)
      else if TailError(s, up).Some? then (s, Error(TailError(s, up).value))
      else
        var full := Filled(s, up);
        (s.(data := full), if accept then Sent(full) else Rejected(full))
    else if accept then (ReleaseWriter(s, handle), Sent(s.data))
    else (s, Rejected(s.data))
  }

  function ReleaseStep(s: State, handle: nat, flush: bool, up: bool, accept: bool): (State, Reply) {
    if !flush then (ReleaseWriter(s, handle), Done)
    else
      var (s1, r) := FlushStep(s, handle, up, accept);
      if r.Done? || r.Sent? then (ReleaseWriter(s1, handle), r) else (s1, r)
  }

  function Step(s: State, req: Request): (State, Reply) {
    match req
    case Attr(found) => AttrStep(s, found)
    case Open(mode, found, up) => OpenStep(s, mode, found, up)
    case Write(handle, offset, bytes, up) => WriteStep(s, handle, offset, bytes, up)
    case Resize(handle, size) => ResizeStep(s, handle, size)
    case Flush(handle, up, accept) => FlushStep(s, handle, up, accept)
    case Release(handle, flush, up, accept) => ReleaseStep(s, handle, flush, up, accept)
  }

  /*** The code ***/

  class File {
    var entry: Entry
    var writers: set<nat>
    var data: seq<byte>
    var readSize: nat

    constructor (e: Entry)
      ensures Snapshot() == State(e, {}, [], 0)
    {
      entry, writers, data, readSize := e, {}, [], 0;
    }

    function Snapshot(): State
      reads this
    {
      State(entry, writers, data, readSize)
    }

    method Attr(found: Option<Entry>) returns (r: Reply)
      modifies this
      ensures (Snapshot(), r) == AttrStep(old(Snapshot()), found)
    {
      if !(writers != {} && entry.FileLike()) {
        if found.None? { return Error(EIO); }
        entry := found.value;
      }
      return Done;
    }

    method Open(mode: Mode, found: Option<Entry>, up: bool) returns (r: Reply)
      modifies this
      ensures (Snapshot(), r) == OpenStep(old(Snapshot()), mode, found, up)
    {
      if !(writers != {} && entry.FileLike()) {
        if found.None? { return Error(EIO); }
        entry := found.value;
      }
      if mode == ReadOnly && !entry.readable { return Error(ENOTSUP); }
      if mode == WriteOnly && !entry.writable { return Error(ENOTSUP); }
      if mode == ReadWrite && (!entry.readable || !entry.writable) { return Error(ENOTSUP); }
      if !entry.FileLike() && mode == ReadWrite { return Error(ENOTSUP); }
      if entry.FileLike() || mode == ReadOnly {
        if !entry.FileLike() && !up { return Error(EIO); }
        readSize := entry.Size();
      }
      return Done;
    }

    method Load(start: nat, end: nat, up: bool) returns (got: seq<byte>, err: ReadErr, supported: bool)
      requires entry.FileLike() && start <= end
      ensures supported == entry.readable
      ensures supported ==>
        (got, err) == ReadResult(entry.size, if up then Some(entry.content) else None, end - start, start)
    {
      supported := entry.readable;
      got, err := [], NoErr;
      if supported {
        got, err := PluginRead.Read(entry.size, if up then Some(entry.content) else None, end - start, start);
      }
    }

    method Write(handle: nat, offset: nat, bytes: seq<byte>, up: bool) returns (r: Reply)
      modifies this
      ensures (Snapshot(), r) == WriteStep(old(Snapshot()), handle, offset, bytes, up)
    {
      hide SimpleWrite;
      writers := writers + {handle};
      if entry.FileLike() {
        var start := |data|;
        if offset > start {
          var got, err, supported := Load(start, offset, up);
          if !supported { return Error(ENOTSUP); }
          GapLoad(entry, start, offset, up);
          if err == EOF { return Error(EndOfFile); }
          if err == Failed { return Error(EIO); }
          data := data + got;
        }
      }
      CopyIsWrite(data, offset, bytes);
      var newLen := offset + |bytes|;
      if newLen > |data| {
        data := data + Zeros(newLen - |data|);
      }
      if entry.FileLike() && readSize < newLen {
        readSize := newLen;
      }
      data := data[..offset] + bytes + data[newLen..];
      return Done;
    }

    method Flush(handle: nat, up: bool, accept: bool) returns (r: Reply)
      modifies this
      ensures (Snapshot(), r) == FlushStep(old(Snapshot()), handle, up, accept)
    {
      if handle !in writers { return Done; }
      var dataLen := |data|;
      if entry.FileLike() {
        if dataLen > readSize { return Panicked; }
        if dataLen < readSize {
          var got, err, supported := Load(dataLen, readSize, up);
          if !supported { return Error(ENOTSUP); }
          if err == Failed { return Error(EIO); }
          data := data + got;
          if |data| < readSize {
            data := data + Zeros(readSize - |data|);
          }
        }
        assert data == Filled(old(Snapshot()), up);
      }
      if !accept { return Rejected(data); }
      r := Sent(data);
      if !entry.FileLike() {
        Forget(handle);
      }
    }

    method Setattr(handle: Option<nat>, size: nat) returns (r: Reply)
      modifies this
      ensures (Snapshot(), r) == ResizeStep(old(Snapshot()), handle, size)
    {
      if handle.None? { return Error(ENOTSUP); }
      writers := writers + {handle.value};
      if entry.FileLike() {
        readSize := size;
      } else {
        var curLen := |data|;
        if size > curLen {
          data := data + Zeros(size - curLen);
        } else if size < curLen {
          data := data[..size];
        }
        assert data == SimpleResize(old(data), size);
      }
      return Done;
    }

    // releaseWriter
    method Forget(handle: nat)
      modifies this
      ensures Snapshot() == ReleaseWriter(old(Snapshot()), handle)
    {
      if handle in writers {
        writers := writers - {handle};
        if writers == {} {
          data := [];
        }
      }
    }

    method Release(handle: nat, flush: bool, up: bool, accept: bool) returns (r: Reply)
      modifies this
      ensures (Snapshot(), r) == ReleaseStep(old(Snapshot()), handle, flush, up, accept)
    {
      r := Done;
      if flush {
        r := Flush(handle, up, accept);
        if !r.Done? && !r.Sent? { return; }
      }
      Forget(handle);
    }

    /** fuse Read: local bytes while writing a file-like entry, the remote otherwise. */
    method Read(size: nat, offset: nat, up: bool) returns (bytes: Option<seq<byte>>)
      requires (writers != {} && entry.FileLike()) || entry.readable
      ensures writers != {} && entry.FileLike() ==> bytes == Some(Window(data, size, offset))
      ensures !(writers != {} && entry.FileLike()) && up && entry.Valid() ==>
        bytes == Some(Window(entry.content, size, offset))
      ensures !(writers != {} && entry.FileLike()) ==>
        var (got, err) := ReadResult(entry.size, if up then Some(entry.content) else None, size, offset);
        bytes == if err == Failed then None else Some(got)
    {
      if writers != {} && entry.FileLike() {
        return Some(Window(data, size, offset));
      }
      var got, err := PluginRead.Read(entry.size, if up then Some(entry.content) else None, size, offset);
      if up && entry.Valid() { ExactWhenCovered(entry.size, entry.content, size, offset); }
      if err == Failed { return None; }
      return Some(got);
    }
  }

  function Zeros(n: nat): (r: seq<byte>)
    ensures |r| == n && forall i :: 0 <= i < n ==> r[i] == 0
  {
    seq(n, i => 0)
  }

  lemma GapLoad(e: Entry, start: nat, offset: nat, up: bool)
    requires e.FileLike() && start < offset
    ensures
      var (got, err) := ReadResult(e.size, if up then Some(e.content) else None, offset - start, start);
      if e.Size() <= start then err == EOF
      else if !up then err == Failed
      else if e.Size() < offset || |e.content| < offset then err == EOF
      else err == NoErr && got == Padded(e.content, start, offset)
  {
    if up && |e.content| >= offset { assert |Window(e.content, offset - start, start)| == offset - start; }
  }

  // The rest is read as it is when the size attribute does not cut the read short, or the cut
  // neither drops a byte that counts nor lets one too many through.
  predicate TailExact(s: State) {
    s.entry.Size() < s.readSize ==>
      if s.entry.Size() <= |s.data| then ZeroRemote(s, |s.data|, s.readSize)
      else
        !Overshoots(s) && ZeroRemote(s, |s.data| + s.entry.Size(), s.readSize)
  }

  // A read that is cut short by a size attribute may take that many bytes, wherever it starts.
  predicate Overshoots(s: State) {
    |s.data| < s.entry.Size() < s.readSize && s.readSize < |s.entry.content| && s.readSize < |s.data| + s.entry.Size()
  }

  // The remote bytes in [lo, hi) are all zero (as are the missing ones).
  predicate ZeroRemote(s: State, lo: nat, hi: nat) {
    forall i :: lo <= i < hi && i < |s.entry.content| ==> s.entry.content[i] == 0
  }

  // The read that was tolerated is a stretch of the content, and zeros or nothing follow it.
  lemma TailIs(s: State, up: bool)
    requires s.entry.FileLike() && |s.data| < s.readSize && s.entry.readable && TailError(s, up).None?
    ensures var m, e := |TailRead(s, up).0|, s.entry;
      && |Filled(s, up)| == (if |s.data| + m < s.readSize then s.readSize else |s.data| + m)
      && (forall i :: 0 <= i < |Filled(s, up)| ==>
           Filled(s, up)[i] == if i < |s.data| then s.data[i]
                               else if i < |s.data| + m && i < |e.content| then e.content[i] else 0)
      && (m > 0 ==> |s.data| + m <= |e.content|)
      && (e.Size() < s.readSize ==>
           m == if e.Size() <= |s.data| || |e.content| <= |s.data| then 0
                else if |e.content| - |s.data| < e.Size() then |e.content| - |s.data| else e.Size())
      && (s.readSize <= e.Size() ==>
           m == if |e.content| <= |s.data| then 0
                else if |e.content| < s.readSize then |e.content| - |s.data| else s.readSize - |s.data|)
  {
  }

  /** What Flush hands on is the loaded prefix and the padded remote exactly when the tail is read
      exactly; it always is when the size attribute covers the content. */
  lemma TailLoad(s: State, up: bool)
    requires s.entry.FileLike() && |s.data| < s.readSize && s.entry.readable
    ensures TailError(s, up).None? <==> up || s.entry.Size() <= |s.data|
    ensures TailError(s, up).None? ==> (Filled(s, up) == Local(s) <==> TailExact(s))
    ensures TailError(s, up).None? ==> (|Filled(s, up)| <= s.readSize <==> !Overshoots(s))
    ensures s.entry.Valid() ==> TailExact(s) && !Overshoots(s)
  {
    hide Filled;
    if TailError(s, up).None? {
      TailIs(s, up);
      var m := |TailRead(s, up).0|;
      hide TailRead, TailError;
      if Filled(s, up) == Local(s) {
        forall i | |s.data| + m <= i < s.readSize && i < |s.entry.content| ensures s.entry.content[i] == 0 {
          assert Filled(s, up)[i] == Local(s)[i];
        }
      }
    }
  }
}
