/** The store's packs and the index rebuilt from them (src/objects.rs). A pack's name stands for its contents. */
module ObjectStore {
  import opened Wrappers
  import opened Merkle

  /** One pack member; only chunks are ever compressed. */
  datatype Entry = Entry(id: Object, compressed: bool)

  datatype Pack = Pack(root: Object, entries: seq<Entry>)

  function IdsOf(entries: seq<Entry>): set<Object> {
    set e | e in entries :: e.id
  }

  lemma IdsOfAppend(entries: seq<Entry>, e: Entry)
    ensures IdsOf(entries + [e]) == IdsOf(entries) + {e.id}
  {
    assert e in entries + [e];
  }

  /** One of these packs holds the object. */
  predicate HeldBy(id: Object, packs: seq<Pack>) {
    exists p :: p in packs && id in Ids(p)
  }

  function Ids(pack: Pack): set<Object> {
    IdsOf(pack.entries)
  }

  function Stored(packs: set<Pack>): set<Object> {
    set p, e | p in packs && e in p.entries :: e.id
  }

  function NodesIn(pack: Pack): set<Object> {
    set e | e in pack.entries && e.id.Node? :: e.id
  }

  function NodesOfPacks(packs: seq<Pack>): set<Object> {
    set p, o | p in packs && o in NodesIn(p) :: o
  }

  lemma NodesOfPacksStep(packs: seq<Pack>, i: nat)
    requires i < |packs|
    ensures NodesOfPacks(packs[..i + 1]) == NodesOfPacks(packs[..i]) + NodesIn(packs[i])
  {
    assert packs[..i + 1] == packs[..i] + [packs[i]];
  }

  predicate LegalPack(pack: Pack) {
    forall e | e in pack.entries :: e.compressed ==> e.id.Blob?
  }

  /** Legal packs that together hold the children of every node they hold. */
  predicate PacksOk(packs: set<Pack>) {
    Closed(Stored(packs)) && forall p | p in packs :: LegalPack(p)
  }

  lemma StoredGrows(packs: set<Pack>, more: set<Pack>)
    ensures packs <= more ==> Stored(packs) <= Stored(more)
  {
  }

  /** `.transfs/packs/`, shared by every process. */
  class PackDir {
    var packs: set<Pack>

    constructor ()
      ensures packs == {}
    {
      packs := {};
    }

    /** Other processes' turn: they may store any packs that keep the directory sound, between any two of ours. */
    method Others()
      modifies this
      ensures old(packs) <= packs && (PacksOk(old(packs)) ==> PacksOk(packs))
    {
      var more: set<Pack> := *;
      if PacksOk(packs + more) {
        packs := packs + more;
      }
    }
  }

  class Objects {
    const dir: PackDir
    var known: seq<Pack>              // `packs`
    var byName: map<Pack, nat>        // `by_name`
    var located: map<Object, nat>     // `objects`: the position of a pack holding it

    constructor (dir: PackDir)
      ensures Valid() && this.dir == dir
    {
      this.dir, known, byName, located := dir, [], map[], map[];
    }

    /** The index describes packs that exist, completely. */
    ghost predicate Valid()
      reads this, dir
    {
      && (forall p | p in known :: p in dir.packs)
      && (forall p :: p in byName <==> p in known)
      && (forall p | p in byName :: byName[p] < |known| && known[byName[p]] == p)
      && (forall id | id in located :: located[id] < |known| && id in Ids(known[located[id]]))
      && (forall p, e | p in known && e in p.entries :: e.id in located)
    }

    /** `add_index`: the first pack indexed keeps an object's location. */
    method AddIndex(pack: Pack)
      requires Valid() && pack in dir.packs && pack !in byName
      modifies this
      ensures Valid() && known == old(known) + [pack]
    {
      var position := |known|;
      var i := 0;
      ghost var before := located;
      while i < |pack.entries|
        invariant 0 <= i <= |pack.entries|
        invariant known == old(known) && byName == old(byName) && before.Keys <= located.Keys
        invariant forall id | id in located ::
                    if id in before then located[id] == before[id] else located[id] == position && id in Ids(pack)
        invariant forall e | e in pack.entries[..i] :: e.id in located
      {
        var entry := pack.entries[i];
        assert entry in pack.entries;
        if entry.id !in located {
          located := located[entry.id := position];
        }
        i := i + 1;
      }
      assert pack.entries[..i] == pack.entries;
      known := known + [pack];
      byName := byName[pack := position];
    }

    /** `refresh`: indexes every pack not known yet. */
    method Refresh()
      requires Valid()
      modifies this
      ensures Valid() && forall p :: p in known <==> p in dir.packs
    {
      var names := dir.packs - byName.Keys;
      while names != {}
        invariant Valid() && names <= dir.packs
        invariant forall p | p in dir.packs :: p in byName || p in names
        invariant forall p | p in names :: p !in byName
        decreases names
      {
        var name :| name in names;
        names := names - {name};
        AddIndex(name);
      }
    }

    /** `contains`: whether any pack holds the object, however recently it was written. */
    method Contains(id: Object) returns (found: bool)
      requires Valid()
      modifies this
      ensures Valid() && (found <==> id in Stored(dir.packs))
      ensures found ==> id in located
    {
      if id !in located {
        Refresh();
      }
      found := id in located;
      IndexIsStored();
    }

    /** `pack_of`. */
    method PackOf(id: Object) returns (pack: Option<Pack>)
      requires Valid()
      modifies this
      ensures Valid() && (pack.Some? <==> id in Stored(dir.packs))
      ensures pack.Some? ==> pack.value in dir.packs && id in Ids(pack.value)
    {
      var found := Contains(id);
      if found {
        pack := Some(known[located[id]]);
      } else {
        pack := None;
      }
    }

    lemma IndexIsStored()
      requires Valid()
      ensures forall id | id in located :: id in Stored(dir.packs)
      ensures (forall p :: p in known <==> p in dir.packs) ==> forall id | id in Stored(dir.packs) :: id in located
    {
      forall id | id in located ensures id in Stored(dir.packs) {
        var p := known[located[id]];
        assert p in known;
        var e :| e in p.entries && e.id == id;
      }
    }

    /** `non_blobs`: the list nodes in the packs a record names. */
    method NonBlobs(packs: seq<Pack>) returns (nodes: Option<set<Object>>)
      requires Valid() && forall p | p in dir.packs :: LegalPack(p)
      modifies this
      ensures Valid()
      ensures nodes.Some? <==> forall p | p in packs :: p in dir.packs
      ensures nodes.Some? ==> nodes.value == NodesOfPacks(packs)
    {
      hide Ids;
      var all: set<Object> := {};
      var i := 0;
      while i < |packs|
        invariant 0 <= i <= |packs| && Valid()
        invariant forall p | p in packs[..i] :: p in dir.packs
        invariant all == NodesOfPacks(packs[..i])
      {
        if packs[i] !in byName {
          Refresh();
          if packs[i] !in byName {
            return None;
          }
        }
        assert packs[i] in dir.packs && LegalPack(packs[i]);
        NodesOfPacksStep(packs, i);
        var raw := set e | e in packs[i].entries && !e.compressed && e.id.Node? :: e.id;
        assert raw == NodesIn(packs[i]);
        all := all + raw;
        i := i + 1;
      }
      assert packs[..i] == packs;
      return Some(all);
    }

    /** `write_pack`: refuses members that the root does not reach inside the pack. */
    method WritePack(root: Object, members: seq<Entry>) returns (written: Option<Pack>)
      requires Valid()
      modifies this, dir
      ensures Valid()
      ensures written.Some? <==> RootedAt(root, Ids(Pack(root, members)))
      ensures dir.packs == old(dir.packs) + if written.Some? then {Pack(root, members)} else {}
      ensures written.Some? ==> written.value == Pack(root, members)
    {
      var pack := Pack(root, members);
      if !RootedAt(root, Ids(pack)) {
        return None;
      }
      if pack in byName {
        assert pack in known;
        return Some(pack);
      }
      dir.packs := dir.packs + {pack};
      AddIndex(pack);
      return Some(pack);
    }
  }
}
