/** Chunk lists: references with lengths, prefix sums, and the slice a range of a file is (src/content.rs). */
module ChunkList {
  import opened Wrappers
  import opened Bytes
  import opened Merkle
  import opened Chunker

  /** One chunk's identity and length. */
  datatype ChunkRef = ChunkRef(id: Object, len: nat)

  /** Built from a chunk: the identity is a blob and the length is its own. */
  predicate Fits(c: ChunkRef) {
    c.id.Blob? && c.len == |c.id.bytes|
  }

  function RefsOf(chunks: seq<seq<Byte>>): (r: seq<ChunkRef>)
    ensures |r| == |chunks|
  {
    if chunks == [] then [] else [ChunkRef(Blob(chunks[0]), |chunks[0]|)] + RefsOf(chunks[1..])
  }

  /** The bytes a list stands for. */
  function Content(list: seq<ChunkRef>): seq<Byte> {
    if list == [] then []
    else (if list[0].id.Blob? then list[0].id.bytes else []) + Content(list[1..])
  }

  /** `measures`: the total length. */
  function Total(list: seq<ChunkRef>): nat {
    if list == [] then 0 else list[0].len + Total(list[1..])
  }

  /** `prefix(0, i)`: the length before chunk `i`. */
  function Prefix(list: seq<ChunkRef>, i: nat): nat
    requires i <= |list|
  {
    Total(list[..i])
  }

  /** `locate(0, offset)`: the chunk holding the byte at `offset`. */
  function Locate(list: seq<ChunkRef>, offset: nat): (i: Option<nat>)
    ensures i.Some? ==> i.value < |list|
  {
    if list == [] then None
    else if offset < list[0].len then Some(0)
    else
      match Locate(list[1..], offset - list[0].len)
      case None => None
      case Some(i) => Some(i + 1)
  }

  lemma {:induction false} RefsFit(chunks: seq<seq<Byte>>)
    ensures forall c | c in RefsOf(chunks) :: Fits(c)
    ensures Content(RefsOf(chunks)) == Concat(chunks)
    ensures ChunkIds(RefsOf(chunks)) == set x | x in chunks :: Blob(x)
  {
    if chunks != [] {
      RefsFit(chunks[1..]);
      assert chunks == [chunks[0]] + chunks[1..];
      var refs := RefsOf(chunks);
      assert refs == [refs[0]] + RefsOf(chunks[1..]);
      assert ChunkIds(refs) == {refs[0].id} + ChunkIds(RefsOf(chunks[1..]));
    }
  }

  lemma {:induction false} TotalAppend(a: seq<ChunkRef>, b: seq<ChunkRef>)
    ensures Total(a + b) == Total(a) + Total(b)
    ensures Content(a + b) == Content(a) + Content(b)
  {
    if a == [] {
      assert a + b == b;
    } else {
      assert (a + b)[1..] == a[1..] + b;
      TotalAppend(a[1..], b);
    }
  }

  lemma {:induction false} TotalIsLength(list: seq<ChunkRef>)
    requires forall c | c in list :: Fits(c)
    ensures Total(list) == |Content(list)|
  {
    if list != [] {
      assert list[0] in list;
      assert forall c | c in list[1..] :: c in list;
      TotalIsLength(list[1..]);
    }
  }

  /** `locate` finds the one chunk whose range holds the offset, and fails only past the end. */
  lemma {:induction false} LocateFinds(list: seq<ChunkRef>, offset: nat)
    ensures Locate(list, offset).None? <==> offset >= Total(list)
    ensures Locate(list, offset).Some? ==>
              var i := Locate(list, offset).value;
              Prefix(list, i) <= offset < Prefix(list, i + 1)
  {
    if list != [] && offset >= list[0].len {
      LocateFinds(list[1..], offset - list[0].len);
      if Locate(list, offset).Some? {
        var i := Locate(list[1..], offset - list[0].len).value;
        assert list[..i + 1] == [list[0]] + list[1..][..i];
        assert list[..i + 2] == [list[0]] + list[1..][..i + 1];
      }
    } else if list != [] {
      assert list[..1] == [list[0]];
    }
  }

  /** One more chunk: the next prefix sum, and the next stretch of content. */
  lemma PrefixStep(list: seq<ChunkRef>, i: nat)
    requires i < |list| && forall c | c in list :: Fits(c)
    ensures Prefix(list, i + 1) == Prefix(list, i) + list[i].len <= |Content(list)|
    ensures list[i].id.Blob? && Content(list)[Prefix(list, i)..Prefix(list, i + 1)] == list[i].id.bytes
  {
    assert list[..i + 1] == list[..i] + [list[i]];
    assert list == list[..i + 1] + list[i + 1..];
    assert list[i] in list;
    assert forall c | c in list[..i] :: c in list;
    TotalAppend(list[..i], [list[i]]);
    TotalAppend(list[..i + 1], list[i + 1..]);
    TotalIsLength(list[..i]);
    assert Content([list[i]]) == list[i].id.bytes;
    assert Content(list) == Content(list[..i]) + list[i].id.bytes + Content(list[i + 1..]);
  }

  /** What a ranged read of `content` must return. */
  function Slice(content: seq<Byte>, offset: nat, len: nat): seq<Byte> {
    if offset >= |content| then []
    else if offset + len <= |content| then content[offset..offset + len]
    else content[offset..]
  }

  // ----- how lists are kept as objects -----

  /** merkle-champ sequences: `save` gives the root of a tree of nodes over the chunks; `load` reads it or fails. */
  datatype ListFormat = ListFormat(save: seq<ChunkRef> -> Object, load: Object -> Option<seq<ChunkRef>>)

  function ChunkIds(list: seq<ChunkRef>): set<Object> {
    set c | c in list :: c.id
  }

  /** The list's own nodes: its root and everything under it that is not a chunk. */
  function NodesOf(root: Object): set<Object> {
    set o | o in Reachable(root) && o.Node?
  }

  ghost predicate LegalFormat(f: ListFormat) {
    forall list ::
      (forall c | c in list :: Fits(c)) ==>
        && f.save(list).Node? && f.load(f.save(list)) == Some(list)
        && Reachable(f.save(list)) == NodesOf(f.save(list)) + ChunkIds(list)
  }

  /** A ranged read gives the bytes from `offset` on, as many as asked for or as there are. */
  lemma SliceMeans(content: seq<Byte>, offset: nat, len: nat)
    ensures var left := if offset >= |content| then 0 else |content| - offset;
            |Slice(content, offset, len)| == if len < left then len else left
    ensures forall i | 0 <= i < |Slice(content, offset, len)| :: Slice(content, offset, len)[i] == content[offset + i]
  {
  }
}
