/** plugin.Read for an entry whose whole content is cached (plugin/methodWrappers.go,
    plugin/entryContent.go), with byte strings shared by the FUSE model. */
module PluginRead {
  import opened Options

  newtype byte = b: int | 0 <= b < 256

  // The error part of a read: nil, io.EOF, or any other error.
  datatype ReadErr = NoErr | EOF | Failed

  /** What a reader is entitled to: the bytes of `content` in [offset, offset + size). */
  function Window(content: seq<byte>, size: nat, offset: nat): (data: seq<byte>)
    ensures |data| <= size
  {
    if |content| <= offset then []
    else content[offset .. if offset + size <= |content| then offset + size else |content|]
  }

  predicate AtEnd(content: seq<byte>, size: nat, offset: nat) {
    |content| <= offset || |Window(content, size, offset)| < size
  }

  /** entryContentImpl.read. */
  function ContentRead(content: seq<byte>, size: nat, offset: nat): (r: (seq<byte>, ReadErr))
    ensures r.0 == Window(content, size, offset)
    ensures r.1 == if AtEnd(content, size, offset) then EOF else NoErr
  {
    if |content| <= offset then ([], EOF)
    else
      var endIx := offset + size;
      if |content| < endIx then (content[offset..], EOF) else (content[offset..endIx], NoErr)
  }

  // plugin.Read caps a request that would pass the size attribute.
  predicate Capped(attr: Option<nat>, size: nat, offset: nat) {
    attr.Some? && attr.value < offset + size
  }

  /** The outcome of plugin.Read; `content` is None when fetching the content fails. */
  function ReadResult(attr: Option<nat>, content: Option<seq<byte>>, size: int, offset: int): (seq<byte>, ReadErr) {
    if size < 0 || offset < 0 then ([], Failed)
    else if attr.Some? && attr.value <= offset then ([], EOF)
    else if content.None? then ([], Failed)
    else
      var n := if Capped(attr, size, offset) then attr.value else size;
      (Window(content.value, n, offset),
       if Capped(attr, size, offset) || AtEnd(content.value, n, offset) then EOF else NoErr)
  }

  method Read(attr: Option<nat>, content: Option<seq<byte>>, size: int, offset: int)
    returns (data: seq<byte>, err: ReadErr)
    ensures (data, err) == ReadResult(attr, content, size, offset)
  {
    if size < 0 { return [], Failed; }
    if offset < 0 { return [], Failed; }
    data, err := [], NoErr;
    var size := size;
    if attr.Some? {
      var contentSize := attr.value;
      if offset >= contentSize { return [], EOF; }
      var minSize := size + offset;
      if contentSize < minSize {
        size := contentSize;
        err := EOF;
      }
    }
    if content.None? { return [], Failed; }
    var (d, readErr) := ContentRead(content.value, size, offset);
    data := d;
    if readErr != NoErr { err := readErr; }
  }

  /** A negative size or offset fails; so does a fetch that fails, unless the offset is past the size
      attribute, where there is nothing to fetch. */
  lemma FailsIff(attr: Option<nat>, content: Option<seq<byte>>, size: int, offset: int)
    ensures ReadResult(attr, content, size, offset).1.Failed? <==>
      size < 0 || offset < 0 || (content.None? && !(attr.Some? && offset >= attr.value))
  {
  }

  /** The reader's contract: the window itself, and EOF exactly at the end of the content. */
  predicate Exact(attr: Option<nat>, content: seq<byte>, size: nat, offset: nat) {
    var (data, err) := ReadResult(attr, Some(content), size, offset);
    data == Window(content, size, offset) && err == if AtEnd(content, size, offset) then EOF else NoErr
  }

  /** plugin.Read keeps its contract on every block exactly when the size attribute is
      absent or not below the content's length; a smaller attribute truncates. */
  lemma ReadExactIff(attr: Option<nat>, content: seq<byte>)
    ensures (forall size: nat, offset: nat :: Exact(attr, content, size, offset))
       <==> (attr.Some? ==> |content| <= attr.value)
  {
    if attr.Some? && attr.value < |content| {
      assert !Exact(attr, content, 1, attr.value);
    } else {
      forall size: nat, offset: nat ensures Exact(attr, content, size, offset) {
        ExactWhenCovered(attr, content, size, offset);
      }
    }
  }

  lemma ExactWhenCovered(attr: Option<nat>, content: seq<byte>, size: nat, offset: nat)
    requires attr.Some? ==> |content| <= attr.value
    ensures Exact(attr, content, size, offset)
  {
    var n := if Capped(attr, size, offset) then attr.value else size;
    assert Window(content, n, offset) == Window(content, size, offset);
  }

  /** A too small attribute can even hand out bytes past the declared size. */
  lemma SmallAttributeOverreads()
    ensures ReadResult(Some(3), Some([1, 2, 3, 4, 5]), 3, 1) == ([2, 3, 4], EOF)
  {
    var content: seq<byte> := [1, 2, 3, 4, 5];
    assert content[1..4] == [2, 3, 4];
  }

  // What a client gets by reading consecutive blocks of `size` bytes until EOF.
  function ReadBlocks(attr: Option<nat>, content: seq<byte>, size: nat, offset: nat): seq<byte>
    requires size > 0
    requires attr.Some? ==> |content| <= attr.value
    decreases if offset < |content| then |content| - offset else 0
  {
    ExactWhenCovered(attr, content, size, offset);
    var (data, err) := ReadResult(attr, Some(content), size, offset);
    if err != NoErr then data else data + ReadBlocks(attr, content, size, offset + size)
  }

  /** Block-wise reading reassembles the content. */
  lemma {:induction false} BlocksReassemble(attr: Option<nat>, content: seq<byte>, size: nat, offset: nat)
    requires size > 0
    requires attr.Some? ==> |content| <= attr.value
    ensures ReadBlocks(attr, content, size, offset) == if offset <= |content| then content[offset..] else []
    decreases if offset < |content| then |content| - offset else 0
  {
    ExactWhenCovered(attr, content, size, offset);
    var data := Window(content, size, offset);
    if AtEnd(content, size, offset) {
      assert ReadBlocks(attr, content, size, offset) == data;
      WindowAtEnd(content, size, offset);
    } else {
      assert ReadBlocks(attr, content, size, offset) == data + ReadBlocks(attr, content, size, offset + size);
      BlocksReassemble(attr, content, size, offset + size);
      assert content[offset..] == content[offset..offset + size] + content[offset + size..];
    }
  }

  lemma WindowAtEnd(content: seq<byte>, size: nat, offset: nat)
    requires AtEnd(content, size, offset)
    ensures Window(content, size, offset) == if offset <= |content| then content[offset..] else []
  {
    if offset < |content| {
      assert offset + size > |content|;
      assert content[offset..|content|] == content[offset..];
    }
  }
}
