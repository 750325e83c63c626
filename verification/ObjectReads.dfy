/**
 Reading an object by bounded ranges: whole objects in chunks (lib/parquex/store.ex) and the
 cursor that the Parquet reader pulls from (native/parquex_nif/src/reader.rs).
 */
module ObjectReads {
  import opened ByteStrings
  import opened Text
  import opened Sequences

  /** `LocalStore::read_range`: clipped at the end of the object, refused beyond it. */
  function ReadRange(content: Bytes, offset: nat, length: nat): Option<Bytes> {
    if offset > |content| then None else Some(content[offset..offset + Min(length, |content| - offset)])
  }

  /** `Store.read_range`: longer requests than the bound are refused. */
  function BoundedRange(content: Bytes, bound: nat, offset: nat, length: nat): Option<Bytes> {
    if length > bound then None else ReadRange(content, offset, length)
  }

  /** `read_chunks`, of an object that does not change meanwhile; the chunks come latest first. */
  function ReadChunks(content: Bytes, bound: nat, offset: nat, chunks: seq<Bytes>): Option<seq<Bytes>>
    requires bound > 0
    decreases |content| - offset
  {
    if offset >= |content| then Some(chunks)
    else
      var chunk := BoundedRange(content, bound, offset, Min(bound, |content| - offset));
      if chunk.None? then None else ReadChunks(content, bound, offset + |chunk.value|, [chunk.value] + chunks)
  }

  /** `Store.read`. */
  function ReadWhole(content: Bytes, bound: nat): Option<Bytes>
    requires bound > 0
  {
    var chunks := ReadChunks(content, bound, 0, []);
    if chunks.None? then None else Some(Flatten(Reverse(chunks.value)))
  }

  lemma LatestChunk(chunk: Bytes, chunks: seq<Bytes>)
    ensures Flatten(Reverse([chunk] + chunks)) == Flatten(Reverse(chunks)) + chunk
  {
    ReversePrepend(chunk, chunks);
    FlattenAppend(Reverse(chunks), [chunk]);
    assert Flatten([chunk]) == chunk + Flatten([]);
  }

  lemma {:induction false} ChunksCover(content: Bytes, bound: nat, offset: nat, chunks: seq<Bytes>)
    requires bound > 0 && offset <= |content| && Flatten(Reverse(chunks)) == content[..offset]
    requires forall i :: 0 <= i < |chunks| ==> 0 < |chunks[i]| <= bound
    ensures var all := ReadChunks(content, bound, offset, chunks);
            && all.Some? && Flatten(Reverse(all.value)) == content
            && forall i :: 0 <= i < |all.value| ==> 0 < |all.value[i]| <= bound
    decreases |content| - offset
  {
    if offset < |content| {
      var length := Min(bound, |content| - offset);
      var chunk := content[offset..offset + length];
      assert BoundedRange(content, bound, offset, length) == Some(chunk) && |chunk| == length > 0;
      LatestChunk(chunk, chunks);
      hide Reverse, Flatten, BoundedRange, Min;
      assert content[..offset] + chunk == content[..offset + length];
      var more := [chunk] + chunks;
      assert forall i :: 0 < i < |more| ==> more[i] == chunks[i - 1];
      ChunksCover(content, bound, offset + length, more);
      assert ReadChunks(content, bound, offset, chunks) == ReadChunks(content, bound, offset + length, more);
      hide ReadChunks;
    } else {
      assert content[..offset] == content;
    }
  }

  /** For every positive bound, the chunks are non-empty, within the bound, and together the object. */
  lemma WholeObjectIsRead(content: Bytes, bound: nat)
    requires bound > 0
    ensures ReadWhole(content, bound) == Some(content)
    ensures var chunks := ReadChunks(content, bound, 0, []);
            chunks.Some? && forall i :: 0 <= i < |chunks.value| ==> 0 < |chunks.value[i]| <= bound
  {
    assert content[..0] == [];
    ChunksCover(content, bound, 0, []);
  }

  /** The cursor over an object of known size. */
  class ObjectCursor {
    const content: Bytes
    const bound: nat
    var position: nat

    ghost predicate Valid()
      reads this
    {
      bound > 0 && position <= |content|
    }

    constructor (content: Bytes, bound: nat, start: nat)
      requires bound > 0 && start <= |content|
      ensures Valid() && this.content == content && this.bound == bound && position == start
    {
      this.content, this.bound, position := content, bound, start;
    }

    /** `read`: fills a prefix of the buffer with the next bytes; nothing only at the end or for an empty buffer. */
    method Read(buffer: array<bv8>) returns (count: nat)
      requires Valid()
      modifies this, buffer
      ensures Valid() && position == old(position) + count
      ensures count <= buffer.Length && count <= bound
      ensures buffer[..count] == content[old(position)..position] && buffer[count..] == old(buffer[count..])
      ensures count == 0 <==> buffer.Length == 0 || old(position) == |content|
    {
      if buffer.Length == 0 || position == |content| { return 0; }
      var length := Min(Min(buffer.Length, bound), |content| - position);
      var bytes := content[position..position + length];
      forall i | 0 <= i < length {
        buffer[i] := bytes[i];
      }
      position := position + length;
      count := length;
    }

    /** Pulling until nothing comes, with any buffer: the rest of the object. */
    method ReadToEnd(buffer: array<bv8>) returns (bytes: Bytes)
      requires Valid() && buffer.Length > 0
      modifies this, buffer
      ensures bytes == content[old(position)..] && position == |content|
    {
      bytes := [];
      var more := true;
      while more
        invariant Valid() && old(position) <= position
        invariant bytes == content[old(position)..position]
        invariant !more ==> position == |content|
        decreases |content| - position, more
      {
        var count := Read(buffer);
        bytes := bytes + buffer[..count];
        more := count > 0;
      }
    }
  }
}
