/** Cutting a file into chunks (src/chunker.rs). */
module Chunker {
  import opened Wrappers
  import opened Bytes

  const MIN: nat := 2048
  const MAX: nat := 32768
  const MAX_PAGE: nat := 65536

  /** How a file is kept; sizes of SQLite pages lie between 512 and 65536. */
  datatype Layout = Whole | FastCdc | Pages(page: nat)

  ghost predicate LegalLayout(layout: Layout) {
    layout.Pages? ==> 512 <= layout.page <= MAX_PAGE
  }

  function Concat(chunks: seq<seq<Byte>>): seq<Byte> {
    if chunks == [] then [] else chunks[0] + Concat(chunks[1..])
  }

  lemma {:induction false} ConcatAppend(a: seq<seq<Byte>>, b: seq<seq<Byte>>)
    ensures Concat(a + b) == Concat(a) + Concat(b)
  {
    if a == [] {
      assert a + b == b;
    } else {
      assert (a + b)[1..] == a[1..] + b;
      ConcatAppend(a[1..], b);
    }
  }

  /** FastCDC, as far as the store relies on it. */
  type Cutter = seq<Byte> -> seq<seq<Byte>>

  ghost predicate LegalCutter(cut: Cutter) {
    forall data ::
      && Concat(cut(data)) == data
      && (forall i | 0 <= i < |cut(data)| :: 0 < |cut(data)[i]| <= MAX)
      && (forall i | 0 <= i < |cut(data)| - 1 :: MIN <= |cut(data)[i]|)
  }

  /** Fixed pages: all full except possibly the last. */
  function Paged(data: seq<Byte>, page: nat): seq<seq<Byte>>
    requires page > 0
  {
    if data == [] then []
    else if |data| < page then [data]
    else [data[..page]] + Paged(data[page..], page)
  }

  lemma {:induction false} PagedIsFaithful(data: seq<Byte>, page: nat)
    requires page > 0
    ensures Concat(Paged(data, page)) == data
    ensures |Paged(data, page)| == (|data| + page - 1) / page
    ensures forall c | c in Paged(data, page) :: 0 < |c| <= page
    ensures forall i | 0 <= i < |Paged(data, page)| - 1 :: |Paged(data, page)[i]| == page
    decreases |data|
  {
    if |data| >= page {
      PagedIsFaithful(data[page..], page);
      assert data == data[..page] + data[page..];
      assert (|data| + page - 1) / page == (|data| - page + page - 1) / page + 1 by {
        DivStep(|data| - 1, page);
      }
    } else if data != [] {
      assert (|data| + page - 1) / page == 1 by { DivStep(|data| - 1, page); DivSmall(|data| - 1, page); }
    } else {
      DivSmall(page - 1, page);
    }
  }

  lemma DivStep(a: nat, d: nat)
    requires d > 0
    ensures (a + d) / d == a / d + 1
  {
    var q, r := a / d, a % d;
    assert a == q * d + r;
    assert a + d == (q + 1) * d + r;
    DivUnique(a + d, d, q + 1, r);
  }

  lemma DivSmall(a: nat, d: nat)
    requires a < d
    ensures a / d == 0
  {
    DivUnique(a, d, 0, a);
  }

  lemma DivUnique(a: nat, d: nat, q: nat, r: nat)
    requires d > 0 && r < d && a == q * d + r
    ensures a / d == q
  {
    var x, y := a / d, a % d;
    assert a == x * d + y && 0 <= y < d;
    assert x < q ==> (x + 1) * d <= q * d;
    assert x > q ==> (q + 1) * d <= x * d;
  }

  /** All chunks of a file under a layout. */
  function Chunks(cut: Cutter, layout: Layout, data: seq<Byte>): seq<seq<Byte>>
    requires layout.Pages? ==> layout.page > 0
  {
    match layout
    case Whole => [data]
    case FastCdc => cut(data)
    case Pages(page) => Paged(data, page)
  }

  /** The most chunks a record of this length may have. */
  function MostChunks(layout: Layout, length: nat): nat {
    match layout
    case Pages(page) => if page == 0 then length else (length + page - 1) / page
    case _ => length / MIN + 1
  }

  lemma {:induction false} ManyFullChunks(chunks: seq<seq<Byte>>, min: nat)
    requires chunks != [] && forall i | 0 <= i < |chunks| - 1 :: min <= |chunks[i]|
    ensures (|chunks| - 1) * min <= |Concat(chunks)|
  {
    if |chunks| > 1 {
      ManyFullChunks(chunks[1..], min);
      assert (|chunks| - 1) * min == (|chunks| - 2) * min + min;
    }
  }

  /** No cutting exceeds the bound `verify_chunked` checks. */
  lemma ChunkCountIsBounded(cut: Cutter, layout: Layout, data: seq<Byte>)
    requires LegalCutter(cut) && LegalLayout(layout)
    ensures Concat(Chunks(cut, layout, data)) == data
    ensures |Chunks(cut, layout, data)| <= MostChunks(layout, |data|)
    ensures !layout.Whole? ==> forall c | c in Chunks(cut, layout, data) :: 0 < |c| <= MAX_PAGE
  {
    hide LegalCutter, Paged;
    match layout
    case Whole =>
    case FastCdc => CutCount(cut, data);
    case Pages(page) => PagedIsFaithful(data, page);
  }

  lemma CutCount(cut: Cutter, data: seq<Byte>)
    requires LegalCutter(cut)
    ensures Concat(cut(data)) == data && |cut(data)| <= |data| / MIN + 1
    ensures forall c | c in cut(data) :: 0 < |c| <= MAX
  {
    var chunks := cut(data);
    assert Concat(chunks) == data;
    if chunks != [] {
      ManyFullChunks(chunks, MIN);
      AtMost(|chunks| - 1, |data|);
    }
  }

  lemma AtMost(n: nat, length: nat)
    requires n * MIN <= length
    ensures n <= length / MIN
  {
  }

  // ----- reading pages from a stream -----

  /** A reader that may return less than asked for, and may be interrupted a number of times. */
  class Source {
    const data: seq<Byte>
    var position: nat
    var interrupts: nat

    constructor (data: seq<Byte>, interrupts: nat)
      ensures this.data == data && position == 0 && this.interrupts == interrupts
    {
      this.data, position, this.interrupts := data, 0, interrupts;
    }

    ghost predicate Valid()
      reads this
    {
      position <= |data|
    }

    /** `None` is an interrupted call; zero means the end of the data. */
    method Read(most: nat) returns (n: Option<nat>)
      requires Valid() && most > 0
      modifies this
      ensures Valid()
      ensures n.None? ==> position == old(position) && interrupts < old(interrupts)
      ensures n.Some? ==> interrupts == old(interrupts) && position == old(position) + n.value && n.value <= most
      ensures n.Some? ==> (n.value == 0 <==> old(position) == |data|)
    {
      var interrupted: bool := *;
      if interrupted && interrupts > 0 {
        interrupts := interrupts - 1;
        return None;
      }
      var left := |data| - position;
      var k :| 0 <= k <= left && k <= most && (k == 0 ==> left == 0);
      position := position + k;
      return Some(k);
    }
  }

  /** `read_full`: fills the buffer unless the source ends first. */
  method ReadFull(source: Source, size: nat) returns (bytes: seq<Byte>)
    requires source.Valid()
    modifies source
    ensures source.Valid() && source.position == old(source.position) + |bytes|
    ensures bytes == source.data[old(source.position)..source.position]
    ensures |bytes| ==
            if old(source.position) + size <= |source.data| then size else |source.data| - old(source.position)
    ensures source.interrupts <= old(source.interrupts)
  {
    var begin := source.position;
    var filled := 0;
    while filled < size
      invariant source.Valid() && filled <= size && source.position == begin + filled
      invariant source.interrupts <= old(source.interrupts)
      decreases size - filled, source.interrupts
    {
      var n := source.Read(size - filled);
      if n == Some(0) {
        break;
      }
      if n.Some? {
        filled := filled + n.value;
      }
    }
    bytes := source.data[begin..begin + filled];
  }

  /** The page loop of `chunks`. */
  method ReadPages(source: Source, page: nat) returns (chunks: seq<seq<Byte>>)
    requires source.Valid() && source.position == 0 && page > 0
    modifies source
    ensures chunks == Paged(source.data, page)
  {
    chunks := [];
    while true
      invariant source.Valid()
      invariant Paged(source.data, page) == chunks + Paged(source.data[source.position..], page)
      decreases |source.data| - source.position
    {
      var rest := source.data[source.position..];
      var buffer := ReadFull(source, page);
      if |buffer| == 0 {
        assert rest == [];
        break;
      }
      assert buffer == rest[..|buffer|];
      assert source.data[source.position..] == rest[|buffer|..];
      chunks := chunks + [buffer];
      if |buffer| < page {
        assert buffer == rest;
        break;
      }
      assert rest[..page] == buffer;
    }
  }

  /** The bound is exact: pages always reach it, and so does cutting into smallest chunks and a rest. */
  lemma BoundIsReached(data: seq<Byte>, page: nat)
    requires page > 0
    ensures |Paged(data, page)| == MostChunks(Pages(page), |data|)
    ensures |data| % MIN != 0 ==> |Paged(data, MIN)| == MostChunks(FastCdc, |data|)
  {
    PagedIsFaithful(data, page);
    PagedIsFaithful(data, MIN);
    if |data| % MIN != 0 {
      var q, r := |data| / MIN, |data| % MIN;
      assert |data| + MIN - 1 == (q + 1) * MIN + (r - 1);
      DivUnique(|data| + MIN - 1, MIN, q + 1, r - 1);
    }
  }
}
