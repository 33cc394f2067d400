/** Whole blobs and chunked content behind one hash (src/content.rs, src/rep.rs, src/cas.rs). */
module ContentStore {
  import opened Wrappers
  import opened Bytes
  import opened Merkle
  import opened Chunker
  import opened ChunkList
  import opened ObjectStore

  const LISTS: nat := 16
  const MAX_OBJECT: nat := 0x10_0000
  const BLOB_DOMAIN_LENGTH: nat := 20

  type Hash = string

  /** Content hash, list format, cutter, and whether compression shrinks a chunk. */
  datatype Kit = Kit(sha: seq<Byte> -> Hash, format: ListFormat, cut: Cutter, shrinks: seq<Byte> -> bool)

  ghost predicate LegalKit(kit: Kit) {
    LegalFormat(kit.format) && LegalCutter(kit.cut)
  }

  /** A representation record, filed under its content hash. */
  datatype Rep = Rep(length: nat, layout: Layout, root: Object, packs: seq<Pack>)

  datatype Fault =
    | MissingContent
    | MissingPack
    | BadList
    | MissingChunk
    | WrongChunk
    | TooManyChunks
    | HashMismatch

  /** The bytes a record stands for, if its root is a chunk list at all. */
  function Spelled(kit: Kit, rep: Rep): Option<seq<Byte>> {
    match kit.format.load(rep.root)
    case None => None
    case Some(list) => Some(Content(list))
  }

  // ----- what the disk always satisfies -----

  /** A record whose list and chunks are all stored and spell content with its hash. */
  ghost predicate RepOk(kit: Kit, packs: set<Pack>, h: Hash, rep: Rep) {
    && kit.format.load(rep.root).Some?
    && var list := kit.format.load(rep.root).value;
    && kit.format.save(list) == rep.root
    && (forall c | c in list :: Fits(c) && c.len <= MAX_PAGE)
    && kit.sha(Content(list)) == h && rep.length == Total(list) < U64
    && |list| <= MostChunks(rep.layout, rep.length)
    && (forall p | p in rep.packs :: p in packs)
    && Reachable(rep.root) <= Stored(packs)
    && NodesOf(rep.root) <= NodesOfPacks(rep.packs)
  }

  ghost predicate DiskOk(kit: Kit, packs: set<Pack>, reps: map<Hash, Rep>, blobs: map<Hash, seq<Byte>>) {
    && PacksOk(packs)
    && (forall h | h in reps :: RepOk(kit, packs, h, reps[h]))
    && (forall h | h in blobs :: kit.sha(blobs[h]) == h)
  }

  /** The content behind a hash. */
  function Held(kit: Kit, reps: map<Hash, Rep>, blobs: map<Hash, seq<Byte>>, h: Hash): Option<seq<Byte>> {
    if h in blobs then Some(blobs[h])
    else if h in reps then Spelled(kit, reps[h])
    else None
  }

  /** The root of the list of a file's chunks. */
  function RootOf(kit: Kit, layout: Layout, data: seq<Byte>): Object
    requires layout.Pages? ==> layout.page > 0
  {
    kit.format.save(RefsOf(Chunks(kit.cut, layout, data)))
  }

  lemma StoredAppend(packs: set<Pack>, pack: Pack)
    ensures Stored(packs + {pack}) == Stored(packs) + Ids(pack)
  {
  }

  /** Objects that complete a list keep the store closed once they are stored. */
  lemma CompletedStays(packs: set<Pack>, root: Object, pack: Pack)
    requires PacksOk(packs) && LegalPack(pack)
    requires Ids(pack) <= Reachable(root) <= Stored(packs) + Ids(pack)
    ensures PacksOk(packs + {pack}) && Reachable(root) <= Stored(packs + {pack})
  {
    StoredAppend(packs, pack);
    ReachableIsClosed(root);
    assert Stored(packs + {pack}) == Stored(packs) + Reachable(root);
  }

  lemma RepStays(kit: Kit, packs: set<Pack>, more: set<Pack>, h: Hash, rep: Rep)
    requires RepOk(kit, packs, h, rep) && packs <= more
    ensures RepOk(kit, more, h, rep)
  {
  }

  lemma RecordAdded(kit: Kit, packs: set<Pack>, reps: map<Hash, Rep>, blobs: map<Hash, seq<Byte>>, h: Hash, rep: Rep)
    requires DiskOk(kit, packs, reps, blobs) && RepOk(kit, packs, h, rep)
    ensures DiskOk(kit, packs, reps[h := rep], blobs)
  {
    hide RepOk, PacksOk;
  }

  lemma PacksGrow(kit: Kit, packs: set<Pack>, more: set<Pack>, reps: map<Hash, Rep>, blobs: map<Hash, seq<Byte>>)
    requires DiskOk(kit, packs, reps, blobs) && packs <= more && PacksOk(more)
    ensures DiskOk(kit, more, reps, blobs)
  {
    forall h | h in reps ensures RepOk(kit, more, h, reps[h]) {
      RepStays(kit, packs, more, h, reps[h]);
    }
  }

  /** The record `put_file` writes is sound. */
  lemma NewRepOk(kit: Kit, packs: set<Pack>, layout: Layout, data: seq<Byte>, rep: Rep)
    requires LegalKit(kit) && LegalLayout(layout) && !layout.Whole? && |data| < U64
    requires rep.root == RootOf(kit, layout, data) && rep.length == |data| && rep.layout == layout
    requires Reachable(rep.root) <= Stored(packs)
    requires (forall p | p in rep.packs :: p in packs) && NodesOf(rep.root) <= NodesOfPacks(rep.packs)
    ensures RepOk(kit, packs, kit.sha(data), rep) && Spelled(kit, rep) == Some(data)
  {
    var chunks := Chunks(kit.cut, layout, data);
    var list := RefsOf(chunks);
    ChunkCountIsBounded(kit.cut, layout, data);
    RefsFit(chunks);
    RefsLengths(chunks);
    assert kit.format.load(kit.format.save(list)) == Some(list);
    TotalIsLength(list);
  }

  lemma {:induction false} RefsLengths(chunks: seq<seq<Byte>>)
    requires forall c | c in chunks :: |c| <= MAX_PAGE
    ensures forall c | c in RefsOf(chunks) :: c.len <= MAX_PAGE
  {
    if chunks != [] {
      assert chunks[0] in chunks;
      assert forall c | c in chunks[1..] :: c in chunks;
      RefsLengths(chunks[1..]);
    }
  }

  lemma {:induction false} RefsAppend(pieces: seq<seq<Byte>>, data: seq<Byte>)
    ensures RefsOf(pieces + [data]) == RefsOf(pieces) + [ChunkRef(Blob(data), |data|)]
  {
    if pieces == [] {
      assert pieces + [data] == [data];
    } else {
      assert (pieces + [data])[1..] == pieces[1..] + [data];
      RefsAppend(pieces[1..], data);
    }
  }

  /** The part of `offset..end` that lies before `position`. */
  function Covered(content: seq<Byte>, offset: nat, end: nat, position: nat): seq<Byte>
    requires offset < end <= |content|
  {
    if position <= offset then [] else if position < end then content[offset..position] else content[offset..end]
  }

  /** What `read_at` takes of a chunk that starts at `position`. */
  function Piece(data: seq<Byte>, position: nat, offset: nat, end: nat): seq<Byte>
    requires position < end
  {
    var start := if offset > position then offset - position else 0;
    var stop := if end - position < |data| then end - position else |data|;
    if start < stop then data[start..stop] else []
  }

  lemma SliceOfSlice(content: seq<Byte>, from: nat, to: nat, a: nat, b: nat)
    requires from <= a <= b <= to <= |content|
    ensures content[from..to][a - from..b - from] == content[a..b]
  {
    forall i | 0 <= i < b - a ensures content[from..to][a - from..b - from][i] == content[a..b][i] {
      assert content[from..to][a - from + i] == content[a + i];
    }
  }

  lemma PieceCovers(content: seq<Byte>, offset: nat, end: nat, position: nat, data: seq<Byte>)
    requires offset < end <= |content| && position < end && position + |data| <= |content|
    requires content[position..position + |data|] == data
    ensures Covered(content, offset, end, position) + Piece(data, position, offset, end)
         == Covered(content, offset, end, position + |data|)
  {
    var next := position + |data|;
    if position <= offset {
      if next > offset {
        var stop := if next < end then next else end;
        SliceOfSlice(content, position, next, offset, stop);
      }
    } else {
      var stop := if next < end then next else end;
      SliceOfSlice(content, position, next, position, stop);
      assert content[offset..position] + content[position..stop] == content[offset..stop];
    }
  }

  /** Saturating the end of a range at the largest length changes nothing. */
  lemma SaturatedEnd(content: seq<Byte>, offset: nat, len: nat, end: nat)
    requires |content| < U64
    requires var sum := if offset + len < U64 then offset + len else U64 - 1;
             end == if |content| < sum then |content| else sum
    ensures Slice(content, offset, len) == if offset >= end then [] else content[offset..end]
  {
  }

  // ----- what one call does, and what runs of calls do -----

  datatype Disk = Disk(packs: set<Pack>, reps: map<Hash, Rep>, blobs: map<Hash, seq<Byte>>)

  /** One call of `put_file`: the file; whether a crash stops it after its pack is written and before its record is; the
      packs other processes stored meanwhile; the objects it found missing when it looked for each of them; and whether
      they were refused as a pack. */
  datatype Put = Put(data: seq<Byte>, layout: Layout, crash: bool,
                     arrived: set<Pack>, members: set<Object>, refused: bool)

  function HeldOn(kit: Kit, d: Disk, h: Hash): Option<seq<Byte>> {
    Held(kit, d.reps, d.blobs, h)
  }

  predicate Completes(put: Put) {
    put.layout.Whole? || (!put.crash && !put.refused)
  }

  /** Whether a call stores chunks at all. */
  predicate StoresChunks(kit: Kit, a: Disk, put: Put) {
    !put.layout.Whole? && HeldOn(kit, a, kit.sha(put.data)).None?
  }

  /** What a call leaves under hashes. */
  ghost predicate HashesMove(kit: Kit, a: Disk, b: Disk, put: Put) {
    var h := kit.sha(put.data);
    && (forall x | x != h :: HeldOn(kit, b, x) == HeldOn(kit, a, x))
    && (HeldOn(kit, a, h) == Some(put.data) ==> HeldOn(kit, b, h) == Some(put.data))
    && (HeldOn(kit, a, h).None? ==> HeldOn(kit, b, h) == if Completes(put) then Some(put.data) else None)
  }

  /** The files it writes: at most one blob of its own bytes, or one sound record. */
  ghost predicate FilesMove(kit: Kit, a: Disk, b: Disk, put: Put) {
    var h := kit.sha(put.data);
    && (b.blobs == a.blobs || (put.layout.Whole? && b.blobs == a.blobs[h := put.data]))
    && (b.reps == a.reps || exists rep: Rep :: b.reps == a.reps[h := rep] && RepOk(kit, b.packs, h, rep))
  }

  /** What it was missing: at least what was missing at its end without it, at most what was missing at its start. */
  ghost predicate Misses(a: set<Pack>, arrived: set<Pack>, members: set<Object>, root: Object) {
    && members <= Reachable(root) - Stored(a)
    && Reachable(root) - Stored(a + arrived) <= members
  }

  /** Its own pack, if it writes one: exactly the missing objects, under the list. */
  ghost predicate Adds(a: set<Pack>, b: set<Pack>, put: Put, root: Object) {
    if put.members == {} || put.refused then b == a + put.arrived
    else exists pack :: b == a + put.arrived + {pack} && pack.root == root && Ids(pack) == put.members
  }

  /** The packs: others' arrive in any case. Missing objects are refused exactly when one of them that is not the list's
      root has no parent among them; if they are not, the whole list is stored afterwards. */
  ghost predicate PacksMove(kit: Kit, a: Disk, b: Disk, put: Put)
    requires LegalLayout(put.layout)
  {
    var root := RootOf(kit, put.layout, put.data);
    && (PacksOk(a.packs) ==> PacksOk(b.packs))
    && Adds(a.packs, b.packs, put, root)
    && if StoresChunks(kit, a, put) then
         && Misses(a.packs, put.arrived, put.members, root)
         && (put.refused <==> !HasParents(root, put.members))
         && (!put.refused ==> Reachable(root) <= Stored(b.packs))
       else put.members == {} && !put.refused
  }

  ghost predicate PutStep(kit: Kit, a: Disk, b: Disk, put: Put)
    requires LegalLayout(put.layout)
  {
    HashesMove(kit, a, b, put) && FilesMove(kit, a, b, put) && PacksMove(kit, a, b, put)
  }

  lemma WholeStep(kit: Kit, a: Disk, b: Disk, put: Put)
    requires put.layout.Whole? && put.members == {} && !put.refused && b.reps == a.reps
    requires b.packs == a.packs + put.arrived && PacksOk(b.packs)
    requires var h := kit.sha(put.data); b.blobs == if h in a.blobs then a.blobs else a.blobs[h := put.data]
    ensures PutStep(kit, a, b, put)
  {
    hide RootOf, Spelled, RepOk, PacksOk;
  }

  lemma HeldStep(kit: Kit, a: Disk, b: Disk, put: Put)
    requires LegalLayout(put.layout) && HeldOn(kit, a, kit.sha(put.data)).Some?
    requires put.members == {} && !put.refused && b.reps == a.reps && b.blobs == a.blobs
    requires b.packs == a.packs + put.arrived && PacksOk(b.packs)
    ensures PutStep(kit, a, b, put)
  {
    hide RootOf, Held, RepOk, PacksOk;
  }

  ghost predicate Free(kit: Kit, a: Disk, put: Put) {
    LegalLayout(put.layout) && !put.layout.Whole? && kit.sha(put.data) !in a.blobs && kit.sha(put.data) !in a.reps
  }

  /** A call that finds nothing under its hash, whether its pack is refused, a crash comes, or its record is written. */
  lemma ChunkedStep(kit: Kit, a: Disk, b: Disk, put: Put)
    requires Free(kit, a, put) && b.blobs == a.blobs && PacksOk(b.packs)
    requires if put.crash || put.refused then b.reps == a.reps
             else exists rep: Rep ::
               b.reps == a.reps[kit.sha(put.data) := rep] && RepOk(kit, b.packs, kit.sha(put.data), rep) &&
                 Spelled(kit, rep) == Some(put.data)
    requires var root := RootOf(kit, put.layout, put.data);
             && Adds(a.packs, b.packs, put, root)
             && Misses(a.packs, put.arrived, put.members, root)
             && (put.refused <==> !HasParents(root, put.members))
             && (!put.refused ==> Reachable(root) <= Stored(b.packs))
    ensures PutStep(kit, a, b, put)
  {
    hide RootOf, Spelled, RepOk, PacksOk, Adds, Misses, HasParents, Reachable, Stored;
  }

  /** Missing objects of a closed store have parents among them: a call that nobody interferes with is never refused. */
  lemma AloneIsNeverRefused(kit: Kit, a: Disk, b: Disk, put: Put)
    requires LegalLayout(put.layout) && PutStep(kit, a, b, put) && PacksOk(a.packs) && put.arrived <= a.packs
    ensures !put.refused
    ensures StoresChunks(kit, a, put) ==> put.members == Reachable(RootOf(kit, put.layout, put.data)) - Stored(a.packs)
  {
    hide Reachable, HasParents, Stored, RootedAt, RootOf, Closed, HashesMove, FilesMove, Adds;
    if StoresChunks(kit, a, put) {
      var root := RootOf(kit, put.layout, put.data);
      assert a.packs + put.arrived == a.packs;
      assert put.members == Reachable(root) - Stored(a.packs);
      NewObjectsAreRooted(Stored(a.packs), root);
      RootedMeansParents(root, put.members);
    }
  }

  /** When the list's nodes are looked for at once, in the packs `mid`, a call is refused exactly when a chunk it found
      missing earlier has arrived, with all the nodes that name it. */
  lemma RefusedIff(mid: set<Pack>, root: Object, chunks: set<Object>)
    requires PacksOk(mid) && root.Node? && chunks <= Reachable(root) && forall c | c in chunks :: c.Blob?
    ensures var members := (NodesOf(root) - Stored(mid)) + chunks;
            !HasParents(root, members) <==> exists c :: c in chunks && c in Stored(mid) && Orphan(root, mid, c)
  {
    hide Stored, PacksOk;
    var nodes := NodesOf(root) - Stored(mid);
    forall c | c in chunks ensures HasParent(nodes + chunks, c) <==> !Orphan(root, mid, c) {
      ChunkParent(mid, root, chunks, c);
    }
    hide Orphan;
    forall o | o in nodes + chunks && o != root && !(o in chunks && o in Stored(mid))
      ensures HasParent(nodes + chunks, o) {
      MissingParent(mid, root, chunks, o);
    }
    assert HasParents(root, nodes + chunks) <==>
             forall o | o in nodes + chunks && o != root :: HasParent(nodes + chunks, o);
    hide HasParent, HasParents, Reachable, NodesOf;
  }

  ghost predicate HasParent(members: set<Object>, o: Object) {
    exists p :: p in members && o in Kids(p)
  }

  /** A missing object of a closed store has a missing parent, which is a node. */
  lemma MissingParent(mid: set<Pack>, root: Object, chunks: set<Object>, o: Object)
    requires PacksOk(mid) && root.Node? && o in Reachable(root) - Stored(mid) && o != root
    ensures HasParent((NodesOf(root) - Stored(mid)) + chunks, o)
  {
    hide Stored;
    NewObjectsAreRooted(Stored(mid), root);
    var p := LastEdge(Reachable(root) - Stored(mid), root, o);
    assert p in NodesOf(root) - Stored(mid);
  }

  /** A chunk's parent is a node. */
  lemma ChunkParent(mid: set<Pack>, root: Object, chunks: set<Object>, c: Object)
    requires forall c | c in chunks :: c.Blob?
    ensures HasParent((NodesOf(root) - Stored(mid)) + chunks, c) <==> !Orphan(root, mid, c)
  {
    hide Stored, NodesOf;
    var members := (NodesOf(root) - Stored(mid)) + chunks;
    if HasParent(members, c) {
      var p :| p in members && c in Kids(p);
      assert p in NodesOf(root);
    }
    if !Orphan(root, mid, c) {
      var p :| p in NodesOf(root) && c in Kids(p) && p !in Stored(mid);
      assert p in members;
    }
  }

  /** Every list node that names the chunk is stored. */
  ghost predicate Orphan(root: Object, mid: set<Pack>, c: Object) {
    forall p | p in NodesOf(root) && c in Kids(p) :: p in Stored(mid)
  }

  /** The failing input: another process stores the same file between the two passes, and has not recorded it yet. The
      call fails, although every object of the file is stored when it does. */
  lemma OvertakenPutIsRefused(kit: Kit, layout: Layout, data: seq<Byte>, theirs: Pack)
    requires LegalKit(kit) && LegalLayout(layout) && !layout.Whole? && data != []
    requires LegalPack(theirs) && theirs.root == RootOf(kit, layout, data)
    requires Ids(theirs) == Reachable(theirs.root)
    ensures var chunks := ChunkIds(RefsOf(Chunks(kit.cut, layout, data)));
            var a, b := Disk({}, map[], map[]), Disk({theirs}, map[], map[]);
            var members := (NodesOf(theirs.root) - Stored({theirs})) + (chunks - Stored({}));
            && PacksOk({}) && PacksOk({theirs}) && Reachable(theirs.root) <= Stored({theirs})
            && PutStep(kit, a, b, Put(data, layout, false, {theirs}, members, true))
  {
    var pieces := Chunks(kit.cut, layout, data);
    var list, root := RefsOf(pieces), theirs.root;
    var put := Put(data, layout, false, {theirs}, ChunkIds(list), true);
    FileObjects(kit, layout, data);
    TheirPackIsWhole(theirs);
    hide Stored, Reachable, RepOk, RefsOf, Spelled, Chunks, PacksOk, NodesOf, LegalKit;
    assert (NodesOf(root) - Stored({theirs})) + (ChunkIds(list) - Stored({})) == ChunkIds(list);
    BlobsHaveNoParents(root, ChunkIds(list), list[0].id);
    hide HasParents;
    TheirsArrive(theirs, put, root);
    hide Misses, Adds;
    ChunkedStep(kit, Disk({}, map[], map[]), Disk({theirs}, map[], map[]), put);
  }

  lemma TheirsArrive(theirs: Pack, put: Put, root: Object)
    requires Stored({theirs}) == Reachable(root) && Stored({}) == {}
    requires put.refused && put.arrived == {theirs} && put.members <= Reachable(root)
    ensures Adds({}, {theirs}, put, root) && Misses({}, put.arrived, put.members, root)
  {
    hide Stored, Reachable;
    assert {} + {theirs} == {theirs};
  }

  lemma FileObjects(kit: Kit, layout: Layout, data: seq<Byte>)
    requires LegalKit(kit) && LegalLayout(layout) && data != []
    ensures var list, root := RefsOf(Chunks(kit.cut, layout, data)), RootOf(kit, layout, data);
            && root.Node? && Reachable(root) == NodesOf(root) + ChunkIds(list) && NodesOf(root) <= Reachable(root)
            && list != [] && list[0].id in ChunkIds(list) && forall c | c in ChunkIds(list) :: c.Blob?
  {
    var pieces := Chunks(kit.cut, layout, data);
    ChunkCountIsBounded(kit.cut, layout, data);
    RefsFit(pieces);
    hide Chunks, Reachable;
    assert Content(RefsOf(pieces)) != [];
    assert RefsOf(pieces)[0] in RefsOf(pieces);
  }

  lemma TheirPackIsWhole(theirs: Pack)
    requires LegalPack(theirs) && Ids(theirs) == Reachable(theirs.root)
    ensures Stored({theirs}) == Reachable(theirs.root) && Stored({}) == {}
    ensures PacksOk({theirs}) && PacksOk({})
  {
    StoredAppend({}, theirs);
    assert {} + {theirs} == {theirs} && Stored({}) == {};
    ReachableIsClosed(theirs.root);
  }

  lemma BlobsHaveNoParents(root: Object, chunks: set<Object>, c: Object)
    requires root.Node? && c in chunks && forall x | x in chunks :: x.Blob?
    ensures !HasParents(root, chunks)
  {
    assert c != root;
  }

  /** Calls of one process in turn, on a disk that holds nothing else under their hashes. */
  ghost predicate PutRun(kit: Kit, run: seq<Disk>, puts: seq<Put>) {
    && |run| == |puts| + 1
    && (forall p | p in puts :: LegalLayout(p.layout))
    && (forall i | 0 <= i < |puts| :: PutStep(kit, run[i], run[i + 1], puts[i]))
    && (forall p, q | p in puts && q in puts :: kit.sha(p.data) == kit.sha(q.data) ==> p.data == q.data)
    && (forall p | p in puts :: HoldsNoOther(kit, run[0], p.data))
  }

  ghost predicate HoldsNoOther(kit: Kit, d: Disk, data: seq<Byte>) {
    HeldOn(kit, d, kit.sha(data)).None? || HeldOn(kit, d, kit.sha(data)) == Some(data)
  }

  /** Content once held is held for the rest of the run, and no hash ever stands for anything else. */
  lemma {:induction false} ContentStays(kit: Kit, run: seq<Disk>, puts: seq<Put>, i: nat, j: nat, data: seq<Byte>)
    requires PutRun(kit, run, puts) && i <= j < |run| && HoldsNoOther(kit, run[i], data)
    requires forall p | p in puts :: kit.sha(p.data) == kit.sha(data) ==> p.data == data
    ensures HoldsNoOther(kit, run[j], data)
    ensures HeldOn(kit, run[i], kit.sha(data)) == Some(data) ==> HeldOn(kit, run[j], kit.sha(data)) == Some(data)
    decreases j
  {
    hide PacksMove, FilesMove, Held, LegalLayout;
    if i < j {
      ContentStays(kit, run, puts, i, j - 1, data);
      assert puts[j - 1] in puts;
      assert PutStep(kit, run[j - 1], run[j - 1 + 1], puts[j - 1]);
    }
  }

  lemma {:induction false} PacksStay(kit: Kit, run: seq<Disk>, puts: seq<Put>, i: nat, j: nat)
    requires PutRun(kit, run, puts) && i <= j < |run|
    ensures run[i].packs <= run[j].packs
    decreases j
  {
    hide HashesMove, FilesMove, Held, LegalLayout, Misses;
    if i < j {
      PacksStay(kit, run, puts, i, j - 1);
      assert puts[j - 1] in puts;
      assert PutStep(kit, run[j - 1], run[j - 1 + 1], puts[j - 1]);
    }
  }

  /** A sound disk stays sound: at the end of any run every blob has its hash, and every record its packs, its nodes,
      its chunks and its hash, so that the deep check passes. */
  lemma {:induction false} DiskStays(kit: Kit, run: seq<Disk>, puts: seq<Put>, i: nat, j: nat)
    requires PutRun(kit, run, puts) && i <= j < |run| && SoundDisk(kit, run[i])
    ensures SoundDisk(kit, run[j])
    decreases j
  {
    hide HashesMove, SoundDisk, LegalLayout;
    if i < j {
      DiskStays(kit, run, puts, i, j - 1);
      PacksStay(kit, run, puts, j - 1, j);
      assert puts[j - 1] in puts;
      assert PutStep(kit, run[j - 1], run[j - 1 + 1], puts[j - 1]);
      StepKeepsSound(kit, run[j - 1], run[j], puts[j - 1]);
    }
  }

  ghost predicate SoundDisk(kit: Kit, d: Disk) {
    DiskOk(kit, d.packs, d.reps, d.blobs)
  }

  lemma StepKeepsSound(kit: Kit, a: Disk, b: Disk, put: Put)
    requires LegalLayout(put.layout) && FilesMove(kit, a, b, put) && PacksMove(kit, a, b, put)
    requires SoundDisk(kit, a) && a.packs <= b.packs
    ensures SoundDisk(kit, b)
  {
    hide Misses, Adds, HasParents, RepOk, Reachable, Stored;
    var h := kit.sha(put.data);
    hide PacksOk;
    PacksGrow(kit, a.packs, b.packs, a.reps, a.blobs);
    if b.reps != a.reps {
      var rep: Rep :| b.reps == a.reps[h := rep] && RepOk(kit, b.packs, h, rep);
      RecordAdded(kit, b.packs, a.reps, a.blobs, h, rep);
    }
  }

  /** Every file whose call completed reads back at the end of any run, whatever calls and crashes came between. */
  lemma PutReadsBack(kit: Kit, run: seq<Disk>, puts: seq<Put>, i: nat, j: nat)
    requires PutRun(kit, run, puts) && i < j < |run| && Completes(puts[i])
    ensures HeldOn(kit, run[j], kit.sha(puts[i].data)) == Some(puts[i].data)
  {
    hide PacksMove, FilesMove, Held, LegalLayout;
    var data := puts[i].data;
    assert puts[i] in puts;
    ContentStays(kit, run, puts, 0, i, data);
    assert PutStep(kit, run[i], run[i + 1], puts[i]);
    ContentStays(kit, run, puts, i + 1, j, data);
  }

  /** After a call that was not refused, crashed or not, a later call for the same file is not refused and writes no
      pack of its own. */
  lemma RetryAddsNoPack(kit: Kit, run: seq<Disk>, puts: seq<Put>, i: nat, j: nat)
    requires PutRun(kit, run, puts) && i < j < |puts| && !puts[i].refused
    requires puts[j].data == puts[i].data && puts[j].layout == puts[i].layout
    ensures !puts[j].refused && run[j + 1].packs == run[j].packs + puts[j].arrived
  {
    hide Held, LegalLayout, FilesMove, HashesMove;
    var data := puts[i].data;
    assert puts[i] in puts && puts[j] in puts;
    ContentStays(kit, run, puts, 0, i, data);
    assert PutStep(kit, run[i], run[i + 1], puts[i]);
    assert PutStep(kit, run[j], run[j + 1], puts[j]);
    PacksStay(kit, run, puts, i + 1, j);
    StoredGrows(run[i + 1].packs, run[j].packs);
    if HeldOn(kit, run[i], kit.sha(data)).Some? {
      ContentStays(kit, run, puts, i, j, data);
    }
  }

  class Store {
    const kit: Kit
    const objects: Objects
    var reps: map<Hash, Rep>                   // `.transfs/reps/`
    var blobs: map<Hash, seq<Byte>>            // `blobs/`
    var lists: seq<(Object, seq<ChunkRef>)>    // recently loaded lists, oldest first

    constructor (kit: Kit)
      requires LegalKit(kit)
      ensures Valid() && this.kit == kit && reps == map[] && blobs == map[] && fresh(objects) && fresh(objects.dir)
    {
      var dir := new PackDir();
      this.kit := kit;
      objects := new Objects(dir);
      reps, blobs, lists := map[], map[], [];
      new;
      assert Stored(objects.dir.packs) == {};
    }

    /** The process's own memory is in order; records and blobs may be anything. */
    ghost predicate Working()
      reads this, objects, objects.dir
    {
      && LegalKit(kit)
      && objects.Valid()
      && (forall p | p in objects.dir.packs :: LegalPack(p))
      && CacheOk(lists)
    }

    ghost predicate Valid()
      reads this, objects, objects.dir
    {
      Working() && DiskOk(kit, objects.dir.packs, reps, blobs)
    }

    ghost function OnDisk(): Disk
      reads this, objects, objects.dir
    {
      Disk(objects.dir.packs, reps, blobs)
    }

    /** A cached list is the list its root stands for, once. */
    ghost predicate CacheOk(cache: seq<(Object, seq<ChunkRef>)>) {
      && |cache| <= LISTS
      && (forall x | x in cache :: kit.format.load(x.0) == Some(x.1))
      && (forall i, j | 0 <= i < j < |cache| :: cache[i].0 != cache[j].0)
    }

    /** `State::remember`: the newest list last, the oldest dropped. */
    method Remember(root: Object, list: seq<ChunkRef>)
      requires CacheOk(lists) && kit.format.load(root) == Some(list)
      modifies this`lists
      ensures CacheOk(lists) && lists != [] && lists[|lists| - 1] == (root, list)
      ensures forall x | x in lists :: x == (root, list) || x in old(lists)
      ensures |old(lists)| < LISTS ==> forall x | x in old(lists) :: x in lists
    {
      var kept: seq<(Object, seq<ChunkRef>)> := [];
      var i := 0;
      while i < |lists|
        invariant 0 <= i <= |lists| && |kept| <= i && lists == old(lists)
        invariant forall x | x in kept :: x in lists[..i] && x.0 != root
        invariant forall a, b | 0 <= a < b < |kept| :: kept[a].0 != kept[b].0
        invariant forall x | x in lists[..i] && x.0 != root :: x in kept
      {
        assert lists[..i + 1] == lists[..i] + [lists[i]];
        assert forall x | x in lists[..i] :: x.0 != lists[i].0;
        if lists[i].0 != root {
          kept := kept + [lists[i]];
        }
        i := i + 1;
      }
      if |kept| == LISTS {
        kept := kept[1..];
      }
      lists := kept + [(root, list)];
    }

    /** `list`: from the cache, or from the packs the record names. */
    method List(rep: Rep) returns (list: Result<seq<ChunkRef>, Fault>)
      requires Working()
      modifies this`lists, objects
      ensures Working()
      ensures list.Success? ==> kit.format.load(rep.root) == Some(list.value)
      ensures (exists h :: RepOk(kit, objects.dir.packs, h, rep)) ==> list.Success?
    {
      var i := 0;
      while i < |lists|
        invariant 0 <= i <= |lists|
      {
        if lists[i].0 == rep.root {
          return Success(lists[i].1);
        }
        i := i + 1;
      }
      var nodes := objects.NonBlobs(rep.packs);
      if nodes.None? {
        return Failure(MissingPack);
      }
      var loaded := if NodesOf(rep.root) <= nodes.value then kit.format.load(rep.root) else None;
      if loaded.None? || Total(loaded.value) != rep.length {
        return Failure(BadList);
      }
      Remember(rep.root, loaded.value);
      return Success(loaded.value);
    }

    /** `chunk`: a chunk's bytes, if it is stored, is a blob, and has the length its reference says. */
    method Chunk(c: ChunkRef) returns (bytes: Result<seq<Byte>, Fault>)
      requires Working()
      modifies objects
      ensures Working()
      ensures bytes.Success? ==> Fits(c) && bytes.value == c.id.bytes && c.id in Stored(objects.dir.packs)
      ensures Fits(c) && c.len <= MAX_PAGE && c.id in Stored(objects.dir.packs) ==> bytes.Success?
    {
      var found := objects.Contains(c.id);
      if !found {
        return Failure(MissingChunk);
      }
      if c.id.Node? || |c.id.bytes| + BLOB_DOMAIN_LENGTH > MAX_OBJECT || |c.id.bytes| != c.len {
        return Failure(WrongChunk);
      }
      return Success(c.id.bytes);
    }

    /** Every chunk of a list can be read. */
    ghost predicate Readable(chunks: seq<ChunkRef>)
      reads objects, objects.dir
    {
      forall c | c in chunks :: Fits(c) && c.len <= MAX_PAGE && c.id in Stored(objects.dir.packs)
    }

    method ReadList(chunks: seq<ChunkRef>) returns (bytes: Result<seq<Byte>, Fault>)
      requires Working()
      modifies objects
      ensures Working()
      ensures bytes.Success? ==> bytes.value == Content(chunks) && forall c | c in chunks :: Fits(c)
      ensures old(Readable(chunks)) ==> bytes.Success?
    {
      hide Stored, LegalKit, CacheOk, LegalPack;
      var all: seq<Byte> := [];
      var i := 0;
      while i < |chunks|
        invariant 0 <= i <= |chunks| && Working()
        invariant all == Content(chunks[..i]) && forall c | c in chunks[..i] :: Fits(c)
      {
        assert chunks[i] in chunks;
        var data := Chunk(chunks[i]);
        if data.Failure? {
          return Failure(data.error);
        }
        assert chunks[..i + 1] == chunks[..i] + [chunks[i]];
        TotalAppend(chunks[..i], [chunks[i]]);
        all := all + data.value;
        i := i + 1;
      }
      assert chunks[..i] == chunks;
      return Success(all);
    }

    /** A sound record's list can be read, and spells content of the right hash and length. */
    lemma SoundListReads(h: Hash, rep: Rep)
      requires LegalKit(kit) && RepOk(kit, objects.dir.packs, h, rep)
      ensures var list := kit.format.load(rep.root).value;
              Readable(list) && kit.sha(Content(list)) == h && |Content(list)| == rep.length
    {
      var list := kit.format.load(rep.root).value;
      ListedIsStored(rep.root, list);
      TotalIsLength(list);
    }

    /** `read`: all of the content behind a hash. */
    method Read(h: Hash) returns (r: Result<Option<seq<Byte>>, Fault>)
      requires Working()
      modifies this`lists, objects
      ensures Working()
      ensures h in blobs ==> r == Success(Some(blobs[h]))
      ensures h !in blobs && h !in reps ==> r == Success(None)
      ensures h !in blobs && h in reps && r.Success? ==>
                r.value == Spelled(kit, reps[h]) && r.value.Some? && kit.sha(r.value.value) == h &&
                  |r.value.value| == reps[h].length
      ensures r.Success? && r.value.Some? ==>
                (kit.sha(r.value.value) == h <==> (h !in blobs || kit.sha(blobs[h]) == h))
      ensures DiskOk(kit, objects.dir.packs, reps, blobs) ==> r == Success(Held(kit, reps, blobs, h))
    {
      if h in blobs {
        return Success(Some(blobs[h]));
      }
      if h !in reps {
        return Success(None);
      }
      var rep := reps[h];
      var list := List(rep);
      if list.Failure? {
        return Failure(list.error);
      }
      ghost var sound := RepOk(kit, objects.dir.packs, h, rep);
      if sound {
        SoundListReads(h, rep);
      }
      var read := ReadList(list.value);
      if read.Failure? {
        return Failure(read.error);
      }
      var bytes := read.value;
      if |bytes| != rep.length || kit.sha(bytes) != h {
        return Failure(HashMismatch);
      }
      return Success(Some(bytes));
    }

    /** Chunks of a list that was saved and stored are stored. */
    lemma ListedIsStored(root: Object, list: seq<ChunkRef>)
      requires LegalKit(kit) && kit.format.save(list) == root && (forall c | c in list :: Fits(c))
      requires Reachable(root) <= Stored(objects.dir.packs)
      ensures forall c | c in list :: c.id in Stored(objects.dir.packs)
    {
      forall c | c in list ensures c.id in Stored(objects.dir.packs) {
        assert c.id in ChunkIds(list);
      }
    }

    /** `read_at`: from a whole blob or from the chunks, the same slice. */
    method ReadAt(h: Hash, offset: nat, len: nat) returns (r: Result<seq<Byte>, Fault>)
      requires Valid() && offset < U64 && len < U64
      modifies this`lists, objects
      ensures Valid()
      ensures match Held(kit, reps, blobs, h) {
                case None => r == Failure(MissingContent)
                case Some(content) => r == Success(Slice(content, offset, len))
              }
    {
      if h in blobs {
        return Success(Slice(blobs[h], offset, len));
      }
      if h !in reps {
        return Failure(MissingContent);
      }
      var rep := reps[h];
      SoundListReads(h, rep);
      ghost var content := Content(kit.format.load(rep.root).value);
      var sum := if offset + len < U64 then offset + len else U64 - 1;
      var end := if rep.length < sum then rep.length else sum;
      SaturatedEnd(content, offset, len, end);
      if offset >= end {
        return Success([]);
      }
      r := ReadChunks(h, rep, offset, end);
    }

    method ReadChunks(h: Hash, rep: Rep, offset: nat, end: nat) returns (r: Result<seq<Byte>, Fault>)
      requires Working() && RepOk(kit, objects.dir.packs, h, rep) && offset < end <= rep.length
      modifies this`lists, objects
      ensures Working()
      ensures var content := Spelled(kit, rep).value;
              |content| == rep.length && r == Success(content[offset..end])
    {
      SoundListReads(h, rep);
      var list := List(rep);
      assert list.Success?;
      TotalIsLength(list.value);
      LocateFinds(list.value, offset);
      var first := Locate(list.value, offset);
      if first.None? {
        return Failure(BadList);
      }
      r := ReadRange(list.value, first.value, offset, end);
    }

    /** The loop of `read_at`, from the chunk that holds the first byte. */
    method ReadRange(chunks: seq<ChunkRef>, first: nat, offset: nat, end: nat) returns (r: Result<seq<Byte>, Fault>)
      requires Working() && forall c | c in chunks :: Fits(c)
      requires first < |chunks| && Prefix(chunks, first) <= offset < Prefix(chunks, first + 1)
      requires offset < end <= |Content(chunks)|
      modifies objects
      ensures Working()
      ensures r.Success? ==> r.value == Content(chunks)[offset..end]
      ensures old(Readable(chunks)) ==> r.Success?
    {
      ghost var content := Content(chunks);
      var position := Prefix(chunks, first);
      var bytes: seq<Byte> := [];
      var i := first;
      while i < |chunks|
        invariant first <= i <= |chunks| && Working()
        invariant position == Prefix(chunks, i) && bytes == Covered(content, offset, end, position)
      {
        if position >= end {
          break;
        }
        assert chunks[i] in chunks;
        PrefixStep(chunks, i);
        var data := Chunk(chunks[i]);
        if data.Failure? {
          return Failure(data.error);
        }
        PieceCovers(content, offset, end, position, data.value);
        bytes := bytes + Piece(data.value, position, offset, end);
        position := position + chunks[i].len;
        i := i + 1;
      }
      if i == |chunks| {
        assert chunks[..i] == chunks;
        TotalIsLength(chunks);
      }
      return Success(bytes);
    }

    /** `verify_chunked`: what passing means, and that every record of an undamaged store passes. */
    method VerifyChunked(h: Hash, deep: bool) returns (r: Result<seq<Pack>, Fault>)
      requires Working()
      modifies this`lists, objects
      ensures Working()
      ensures h !in reps ==> r == Failure(MissingContent)
      ensures r.Success? ==> h in reps && r.value == reps[h].packs && Checked(h, reps[h], r.value)
      ensures r.Success? && deep && h !in blobs ==>
                exists content :: Spelled(kit, reps[h]) == Some(content) && kit.sha(content) == h
      ensures h in reps && DiskOk(kit, objects.dir.packs, reps, blobs) ==> r.Success?
    {
      if h !in reps {
        return Failure(MissingContent);
      }
      var rep := reps[h];
      var exist := PacksExist(rep.packs);
      if !exist {
        return Failure(MissingPack);
      }
      ghost var sound := RepOk(kit, objects.dir.packs, h, rep);
      if sound {
        SoundListReads(h, rep);
      }
      var list := List(rep);
      if list.Failure? {
        return Failure(list.error);
      }
      if |list.value| > MostChunks(rep.layout, rep.length) {
        return Failure(TooManyChunks);
      }
      var missing := AnyMissing(list.value);
      if missing {
        return Failure(MissingChunk);
      }
      if deep {
        var read := Read(h);
        if read.Failure? {
          return Failure(read.error);
        }
      }
      return Success(rep.packs);
    }

    /** What a shallow check establishes about a record. */
    ghost predicate Checked(h: Hash, rep: Rep, packs: seq<Pack>)
      reads objects, objects.dir
    {
      && (forall p | p in packs :: p in objects.dir.packs)
      && kit.format.load(rep.root).Some?
      && var list := kit.format.load(rep.root).value;
      && |list| <= MostChunks(rep.layout, rep.length)
      && forall c | c in list :: c.id in Stored(objects.dir.packs)
    }

    method PacksExist(packs: seq<Pack>) returns (exist: bool)
      requires Working()
      modifies objects
      ensures Working()
      ensures exist <==> forall p | p in packs :: p in objects.dir.packs
    {
      objects.Refresh();
      var i := 0;
      while i < |packs|
        invariant 0 <= i <= |packs| && forall p | p in packs[..i] :: p in objects.dir.packs
      {
        if packs[i] !in objects.known {
          assert packs[i] in packs;
          return false;
        }
        i := i + 1;
      }
      return true;
    }

    method AnyMissing(chunks: seq<ChunkRef>) returns (missing: bool)
      requires Working()
      modifies objects
      ensures Working()
      ensures missing <==> exists c :: c in chunks && c.id !in Stored(objects.dir.packs)
    {
      hide Stored, LegalKit, CacheOk, LegalPack;
      var i := 0;
      while i < |chunks|
        invariant 0 <= i <= |chunks| && Working()
        invariant forall c | c in chunks[..i] :: c.id in Stored(objects.dir.packs)
      {
        var found := objects.Contains(chunks[i].id);
        if !found {
          assert chunks[i] in chunks;
          return true;
        }
        i := i + 1;
      }
      return false;
    }

    // ----- storing a file -----

    /** The identities of chunks. */
    static function Blobs(pieces: seq<seq<Byte>>): set<Object> {
      set x | x in pieces :: Blob(x)
    }

    static lemma NoBlobs(pieces: seq<seq<Byte>>)
      ensures Blobs(pieces[..0]) == {} && IdsOf([]) == {} && RefsOf(pieces[..0]) == []
    {
    }

    static lemma OneMoreBlob(pieces: seq<seq<Byte>>, i: nat)
      requires i < |pieces|
      ensures pieces[..i + 1] == pieces[..i] + [pieces[i]]
      ensures Blobs(pieces[..i + 1]) == Blobs(pieces[..i]) + {Blob(pieces[i])}
    {
      assert pieces[..i + 1] == pieces[..i] + [pieces[i]];
    }

    /** Other processes' turn. */
    method LetOthers()
      requires Valid()
      modifies objects.dir
      ensures Valid() && old(objects.dir.packs) <= objects.dir.packs
      ensures Stored(old(objects.dir.packs)) <= Stored(objects.dir.packs)
    {
      hide DiskOk, Stored, Closed;
      ghost var before := objects.dir.packs;
      SoundPacks();
      objects.dir.Others();
      StoredGrows(before, objects.dir.packs);
      PacksGrow(kit, before, objects.dir.packs, reps, blobs);
    }

    lemma SoundPacks()
      requires Valid()
      ensures PacksOk(objects.dir.packs)
    {
    }

    /** `put_file`'s pass over the chunks: all references, and the entries of those not stored when it came to them. */
    method CollectChunks(pieces: seq<seq<Byte>>) returns (refs: seq<ChunkRef>, entries: seq<Entry>)
      requires Valid()
      modifies objects, objects.dir
      ensures Valid() && old(objects.dir.packs) <= objects.dir.packs
      ensures refs == RefsOf(pieces)
      ensures Blobs(pieces) - Stored(objects.dir.packs) <= IdsOf(entries)
              <= Blobs(pieces) - Stored(old(objects.dir.packs))
      ensures forall e | e in entries :: e.id.Blob?
    {
      hide DiskOk, CacheOk, LegalKit, Stored, PacksOk, Blobs, IdsOf, RefsOf;
      refs, entries := [], [];
      var ids: set<Object> := {};
      NoBlobs(pieces);
      var i := 0;
      while i < |pieces|
        invariant 0 <= i <= |pieces| && Valid() && old(objects.dir.packs) <= objects.dir.packs
        invariant Stored(old(objects.dir.packs)) <= Stored(objects.dir.packs)
        invariant refs == RefsOf(pieces[..i]) && ids == IdsOf(entries)
        invariant Blobs(pieces[..i]) - Stored(objects.dir.packs) <= ids
                  <= Blobs(pieces[..i]) - Stored(old(objects.dir.packs))
        invariant forall e | e in entries :: e.id.Blob?
      {
        LetOthers();
        var data := pieces[i];
        var id := Blob(data);
        OneMoreBlob(pieces, i);
        RefsAppend(pieces[..i], data);
        refs := refs + [ChunkRef(id, |data|)];
        if id !in ids {
          var found := objects.Contains(id);
          if !found {
            ids := ids + {id};
            IdsOfAppend(entries, Entry(id, kit.shrinks(data)));
            entries := entries + [Entry(id, kit.shrinks(data))];
          }
        }
        i := i + 1;
      }
      assert pieces[..i] == pieces;
    }

    static lemma NoEntries()
      ensures IdsOf([]) == {}
    {
    }

    /** The entries of the list nodes not stored when it came to them. */
    method CollectNodes(root: Object) returns (entries: seq<Entry>)
      requires Valid()
      modifies objects, objects.dir
      ensures Valid() && old(objects.dir.packs) <= objects.dir.packs
      ensures NodesOf(root) - Stored(objects.dir.packs) <= IdsOf(entries)
              <= NodesOf(root) - Stored(old(objects.dir.packs))
      ensures forall e | e in entries :: !e.compressed
    {
      hide DiskOk, CacheOk, LegalKit, Stored, PacksOk, NodesOf, IdsOf;
      entries := [];
      NoEntries();
      ghost var all := NodesOf(root);
      var nodes := NodesOf(root);
      while nodes != {}
        invariant Valid() && nodes <= all && old(objects.dir.packs) <= objects.dir.packs
        invariant Stored(old(objects.dir.packs)) <= Stored(objects.dir.packs)
        invariant all - nodes - Stored(objects.dir.packs) <= IdsOf(entries)
                  <= all - nodes - Stored(old(objects.dir.packs))
        invariant forall e | e in entries :: !e.compressed
        decreases nodes
      {
        LetOthers();
        var id :| id in nodes;
        nodes := nodes - {id};
        var found := objects.Contains(id);
        if !found {
          IdsOfAppend(entries, Entry(id, false));
          entries := entries + [Entry(id, false)];
        }
      }
    }

    /** Every pack the objects live in, each once. */
    method PacksHolding(ids: set<Object>) returns (packs: Option<seq<Pack>>)
      requires Valid()
      modifies objects, objects.dir
      ensures Valid() && old(objects.dir.packs) <= objects.dir.packs
      ensures old(ids <= Stored(objects.dir.packs)) ==> packs.Some?
      ensures packs.Some? ==> ids <= Stored(objects.dir.packs)
      ensures packs.Some? ==>
                (forall p | p in packs.value :: p in objects.dir.packs) &&
                  forall id | id in ids :: HeldBy(id, packs.value)
    {
      hide DiskOk, CacheOk, LegalKit, Stored, PacksOk;
      var all: seq<Pack> := [];
      var left := ids;
      while left != {}
        invariant Valid() && left <= ids && ids - left <= Stored(objects.dir.packs)
        invariant old(objects.dir.packs) <= objects.dir.packs
        invariant Stored(old(objects.dir.packs)) <= Stored(objects.dir.packs)
        invariant (forall p | p in all :: p in objects.dir.packs) && AllHeld(ids - left, all)
        decreases left
      {
        LetOthers();
        var id :| id in left;
        ghost var before, done := all, ids - left;
        left := left - {id};
        var pack := objects.PackOf(id);
        if pack.None? {
          return None;
        }
        if pack.value !in all {
          all := all + [pack.value];
        }
        HeldMore(done, before, all, id, pack.value);
        assert ids - left == done + {id};
      }
      assert ids - left == ids;
      return Some(all);
    }

    static ghost predicate AllHeld(ids: set<Object>, packs: seq<Pack>) {
      forall id | id in ids :: HeldBy(id, packs)
    }

    static lemma HeldMore(done: set<Object>, before: seq<Pack>, all: seq<Pack>, id: Object, pack: Pack)
      requires AllHeld(done, before) && pack in all && id in Ids(pack) && forall p | p in before :: p in all
      ensures AllHeld(done + {id}, all)
    {
      forall x | x in done + {id} ensures HeldBy(x, all) {
        if x != id {
          var p :| p in before && x in Ids(p);
          assert p in all;
        }
      }
    }

    /** The chunks `put_file` sees, in order. */
    method CutFile(layout: Layout, data: seq<Byte>) returns (pieces: seq<seq<Byte>>)
      requires LegalLayout(layout)
      ensures pieces == Chunks(kit.cut, layout, data)
    {
      match layout {
        case Pages(page) =>
          var interrupts: nat := *;
          var source := new Source(data, interrupts);
          pieces := ReadPages(source, page);
        case FastCdc => pieces := kit.cut(data);
        case Whole => pieces := [data];
      }
    }

    /** Writes the entries as one pack under the list, if there are any and the list's root reaches them all. */
    method WriteMissing(root: Object, entries: seq<Entry>) returns (written: bool)
      requires Valid() && IdsOf(entries) <= Reachable(root) <= Stored(objects.dir.packs) + IdsOf(entries)
      requires forall e | e in entries :: e.compressed ==> e.id.Blob?
      modifies objects, objects.dir
      ensures Valid()
      ensures written <==> HasParents(root, IdsOf(entries))
      ensures objects.dir.packs ==
              old(objects.dir.packs) + if written && entries != [] then {Pack(root, entries)} else {}
      ensures written ==> Reachable(root) <= Stored(objects.dir.packs)
    {
      hide DiskOk, Stored, CacheOk, LegalKit, Reachable, RootedAt, HasParents;
      ghost var before := objects.dir.packs;
      ghost var pack := Pack(root, entries);
      SoundPacks();
      CompletedStays(before, root, pack);
      RootedMeansParents(root, IdsOf(entries));
      if entries == [] {
        NothingMissing(root, before);
        return true;
      }
      PacksGrow(kit, before, before + {pack}, reps, blobs);
      var result := objects.WritePack(root, entries);
      written := result.Some?;
      assert objects.dir.packs == if written then before + {pack} else before;
    }

    static lemma NothingMissing(root: Object, packs: set<Pack>)
      requires Reachable(root) <= Stored(packs) + IdsOf([])
      ensures Reachable(root) <= Stored(packs) && HasParents(root, IdsOf([]))
    {
    }

    /** The end of `put_file`: collects the packs, writes the record, remembers the list. */
    method WriteRecord(layout: Layout, data: seq<Byte>, refs: seq<ChunkRef>)
      requires Valid() && LegalLayout(layout) && !layout.Whole? && |data| < U64
      requires refs == RefsOf(Chunks(kit.cut, layout, data))
      requires Reachable(RootOf(kit, layout, data)) <= Stored(objects.dir.packs) && kit.sha(data) !in reps
      modifies this`reps, this`lists, objects, objects.dir
      ensures Valid() && old(objects.dir.packs) <= objects.dir.packs
      ensures Records(old(reps), layout, data)
    {
      hide DiskOk, RepOk, Reachable, CacheOk, Spelled, Stored, PacksOk;
      var root := kit.format.save(refs);
      var packs := PacksHolding(Reachable(root));
      NodesAreHeld(root, packs.value);
      var rep := Rep(|data|, layout, root, packs.value);
      NewRepOk(kit, objects.dir.packs, layout, data, rep);
      RecordAdded(kit, objects.dir.packs, reps, blobs, kit.sha(data), rep);
      reps := reps[kit.sha(data) := rep];
      RefsFit(Chunks(kit.cut, layout, data));
      Remember(root, refs);
    }

    /** One sound record of the file is added. */
    ghost predicate Records(before: map<Hash, Rep>, layout: Layout, data: seq<Byte>)
      reads this, objects, objects.dir
    {
      var h := kit.sha(data);
      exists rep: Rep ::
        reps == before[h := rep] && RepOk(kit, objects.dir.packs, h, rep) && Spelled(kit, rep) == Some(data)
    }

    lemma NodesAreHeld(root: Object, packs: seq<Pack>)
      requires forall id | id in Reachable(root) :: HeldBy(id, packs)
      ensures NodesOf(root) <= NodesOfPacks(packs)
    {
      forall o | o in NodesOf(root) ensures o in NodesOfPacks(packs) {
        var p :| p in packs && o in Ids(p);
        var e :| e in p.entries && e.id == o;
        assert o in NodesIn(p);
      }
    }

    /** New chunks and new nodes together are the objects found missing. */
    lemma MissingSplit(layout: Layout, data: seq<Byte>, nodes: seq<Entry>, chunks: seq<Entry>,
                       a: set<Object>, mid: set<Object>, b: set<Object>)
      requires LegalKit(kit) && LegalLayout(layout) && a <= mid <= b
      requires Blobs(Chunks(kit.cut, layout, data)) - mid <= IdsOf(chunks) <= Blobs(Chunks(kit.cut, layout, data)) - a
      requires NodesOf(RootOf(kit, layout, data)) - b <= IdsOf(nodes) <= NodesOf(RootOf(kit, layout, data)) - mid
      ensures var root, members := RootOf(kit, layout, data), IdsOf(nodes + chunks);
              members <= Reachable(root) - a && Reachable(root) - b <= members
    {
      var list := RefsOf(Chunks(kit.cut, layout, data));
      RefsFit(Chunks(kit.cut, layout, data));
      assert Reachable(kit.format.save(list)) == NodesOf(kit.format.save(list)) + ChunkIds(list);
      assert IdsOf(nodes + chunks) == IdsOf(nodes) + IdsOf(chunks);
    }

    /** `Cas::put`: an existing blob stays. */
    method PutBlob(data: seq<Byte>) returns (hash: Hash)
      requires Valid()
      modifies this`blobs
      ensures Valid() && hash == kit.sha(data)
      ensures blobs == if hash in old(blobs) then old(blobs) else old(blobs)[hash := data]
    {
      hash := kit.sha(data);
      if hash !in blobs {
        blobs := blobs[hash := data];
      }
    }

    /** `put_file`, with other processes storing packs between its steps. It fails when its pack is refused. */
    method PutFile(data: seq<Byte>, layout: Layout, crash: bool) returns (hash: Option<Hash>, ghost put: Put)
      requires Valid() && LegalLayout(layout) && |data| < U64
      modifies this`reps, this`blobs, this`lists, objects, objects.dir
      ensures Valid() && hash == if put.refused then None else Some(kit.sha(data))
      ensures put.data == data && put.layout == layout && put.crash == crash
      ensures PutStep(kit, old(OnDisk()), OnDisk(), put)
    {
      hide DiskOk, CacheOk, Reachable, LegalKit, PutStep, Stored, PacksOk;
      ghost var before := OnDisk();
      LetOthers();
      if layout.Whole? {
        var h := PutBlob(data);
        put := Put(data, layout, crash, objects.dir.packs, {}, false);
        SoundPacks();
        assert objects.dir.packs == before.packs + put.arrived;
        WholeStep(kit, before, OnDisk(), put);
        return Some(h), put;
      }
      objects.Refresh();
      var pieces := CutFile(layout, data);
      var refs, chunks := CollectChunks(pieces);
      var h := kit.sha(data);
      LetOthers();
      if h in blobs || h in reps {
        HeldIsSome(h);
        put := Put(data, layout, crash, objects.dir.packs, {}, false);
        SoundPacks();
        assert objects.dir.packs == before.packs + put.arrived;
        HeldStep(kit, before, OnDisk(), put);
        return Some(h), put;
      }
      var refused;
      put, refused := StoreChunks(data, layout, crash, refs, chunks, before);
      hash := if refused then None else Some(h);
    }

    /** The pass over the nodes: all entries of the pack to be written. */
    method FindMissing(data: seq<Byte>, layout: Layout, root: Object, chunks: seq<Entry>, ghost before: set<Pack>)
      returns (entries: seq<Entry>)
      requires Valid() && LegalLayout(layout) && root == RootOf(kit, layout, data)
      requires before <= objects.dir.packs && forall e | e in chunks :: e.id.Blob?
      requires var all := Blobs(Chunks(kit.cut, layout, data));
               all - Stored(objects.dir.packs) <= IdsOf(chunks) <= all - Stored(before)
      modifies objects, objects.dir
      ensures Valid() && before <= objects.dir.packs && forall e | e in entries :: e.compressed ==> e.id.Blob?
      ensures Misses(before, objects.dir.packs, IdsOf(entries), root)
    {
      hide DiskOk, CacheOk, Reachable, Stored, PacksOk, RootOf, NodesOf, LegalFormat, LegalCutter;
      ghost var mid := objects.dir.packs;
      StoredGrows(before, mid);
      var nodes := CollectNodes(root);
      LetOthers();
      ghost var late := objects.dir.packs;
      StoredGrows(mid, late);
      MissingSplit(layout, data, nodes, chunks, Stored(before), Stored(mid), Stored(late));
      assert before + late == late;
      return nodes + chunks;
    }

    /** The rest of `put_file`, once nothing is found under the hash. */
    method StoreChunks(data: seq<Byte>, layout: Layout, crash: bool, refs: seq<ChunkRef>, chunks: seq<Entry>,
                       ghost before: Disk) returns (ghost put: Put, refused: bool)
      requires Valid() && LegalLayout(layout) && !layout.Whole? && |data| < U64
      requires kit.sha(data) !in blobs && kit.sha(data) !in reps
      requires before.reps == reps && before.blobs == blobs && before.packs <= objects.dir.packs
      requires refs == RefsOf(Chunks(kit.cut, layout, data)) && forall e | e in chunks :: e.id.Blob?
      requires var all := Blobs(Chunks(kit.cut, layout, data));
               all - Stored(objects.dir.packs) <= IdsOf(chunks) <= all - Stored(before.packs)
      modifies this`reps, this`lists, objects, objects.dir
      ensures Valid() && refused == put.refused
      ensures put.data == data && put.layout == layout && put.crash == crash
      ensures PutStep(kit, before, OnDisk(), put)
    {
      hide DiskOk, CacheOk, Reachable, LegalKit, PutStep, Stored, PacksOk, HasParents, RepOk, Spelled, Blobs, Misses,
           Adds,
        Chunks, RefsOf;
      var root := kit.format.save(refs);
      var entries := FindMissing(data, layout, root, chunks, before.packs);
      ghost var late := objects.dir.packs;
      MissesMeans(before.packs, late, IdsOf(entries), root);
      var written := WriteMissing(root, entries);
      refused := !written;
      ghost var stored := objects.dir.packs;
      if !refused && !crash {
        WriteRecord(layout, data, refs);
      }
      StoredGrows(stored, objects.dir.packs);
      ghost var own := Pack(root, entries);
      put := Put(data, layout, crash, Arrived(late, objects.dir.packs, own, refused), IdsOf(entries), refused);
      AddsOwn(before.packs, late, objects.dir.packs, put, own);
      SoundPacks();
      ChunkedStep(kit, before, OnDisk(), put);
    }

    static lemma MissesMeans(before: set<Pack>, late: set<Pack>, members: set<Object>, root: Object)
      requires Misses(before, late, members, root) && before <= late
      ensures members <= Reachable(root) <= Stored(late) + members
    {
      assert before + late == late;
      hide Stored, Reachable;
    }

    /** The packs that are not the call's own. */
    static ghost function Arrived(late: set<Pack>, last: set<Pack>, own: Pack, refused: bool): set<Pack> {
      if refused || own.entries == [] then last else late + (last - {own})
    }

    static lemma AddsOwn(before: set<Pack>, late: set<Pack>, last: set<Pack>, put: Put, own: Pack)
      requires Misses(before, late, put.members, own.root) && before <= late
      requires put.members == Ids(own) && put.arrived == Arrived(late, last, own, put.refused)
      requires late + (if put.refused || own.entries == [] then {} else {own}) <= last
      ensures Adds(before, last, put, own.root) && Misses(before, put.arrived, put.members, own.root)
    {
      assert own.entries != [] ==> own.entries[0].id in Ids(own);
      assert late <= put.arrived;
      StoredGrows(before + late, before + put.arrived);
      hide Stored, Reachable, Ids;
      if put.members == {} || put.refused {
        assert last == before + put.arrived;
      } else {
        assert last == before + put.arrived + {own};
      }
    }

    lemma HeldIsSome(h: Hash)
      requires Valid() && (h in blobs || h in reps)
      ensures Held(kit, reps, blobs, h).Some?
    {
    }
  }

  /** Reading from a store whose blob was damaged returns other content than the hash asks for, without an error. */
  method ReadDamaged(kit: Kit, h: Hash, damaged: seq<Byte>) returns (r: Result<Option<seq<Byte>>, Fault>)
    requires LegalKit(kit) && kit.sha(damaged) != h
    ensures r == Success(Some(damaged))
  {
    var store := new Store(kit);
    store.blobs := map[h := damaged];
    r := store.Read(h);
  }
}
