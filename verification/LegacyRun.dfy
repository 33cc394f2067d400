/** A run in which moving old publish state leaves a remote that cannot be recovered. */
module LegacyRun {
  import opened Wrappers
  import opened Claims
  import opened Document
  import opened Library
  import opened Merkle
  import opened Slots
  import opened Replica
  import opened ReplicaSafety
  import opened ReplicaTheorems
  import opened SoleStore
  import opened Recovery
  import opened LegacyState

  // ----- worlds that runs lead to -----

  ghost predicate EndsIn(env: Env, run: seq<World>, moves: seq<Move>, w: World) {
    Run(env, run, moves) && run[|run| - 1] == w
  }

  /** Some run, all of whose moves so far are careful, leads here. */
  ghost predicate Arises(env: Env, w: World) {
    exists run: seq<World>, moves: seq<Move> :: EndsIn(env, run, moves, w)
  }

  lemma InitialArises(env: Env, w: World)
    requires Initial(w)
    ensures Arises(env, w)
  {
    assert EndsIn(env, [w], [], w);
  }

  lemma StepArises(env: Env, w: World, w': World, m: Move)
    requires Arises(env, w) && Moved(env, w, w', m)
    ensures Arises(env, w')
  {
    hide Moved;
    var run: seq<World>, moves: seq<Move> :| EndsIn(env, run, moves, w);
    var run', moves' := run + [w'], moves + [m];
    forall i | 0 <= i < |moves'| ensures Moved(env, run'[i], run'[i + 1], moves'[i]) {
      if i < |moves| {
        assert Moved(env, run[i], run[i + 1], moves[i]);
      }
    }
    assert EndsIn(env, run', moves', w');
  }

  /** The world after one store and one remote have changed. */
  function With(w: World, sid: StoreId, s: Store, id: RemoteId, r: Remote): World {
    World(w.stores[sid := s], w.remotes[id := r])
  }

  lemma PublishStepArises(env: Env, w: World, sid: StoreId, id: RemoteId, s': Store, r': Remote)
    requires Arises(env, w) && sid in w.stores && id in w.remotes && w.stores[sid].writer.unassigned == None
    requires WorksWith(w.stores[sid], id) && PublishStep(env, sid, id, w.stores[sid], w.remotes[id], s', r')
    ensures Arises(env, With(w, sid, s', id, r'))
  {
    CurrentIsCareful(env, w, sid, id);
    hide PublishStep, Careful, WorksWith;
    var w' := With(w, sid, s', id, r');
    assert RemoteStep(env, w, w', sid, id);
    StepArises(env, w, w', Move(sid, sid, id));
  }

  lemma StoreStepArises(env: Env, w: World, sid: StoreId, id: RemoteId, s': Store)
    requires Arises(env, w) && sid in w.stores && id in w.remotes && w.stores[sid].writer.unassigned == None
    requires var s := w.stores[sid]; EditStep(env, s, s') || CrashStep(s, s') || LegacyStep(s, s')
    ensures Arises(env, With(w, sid, s', id, w.remotes[id]))
  {
    CurrentIsCareful(env, w, sid, id);
    hide EditStep, CrashStep, LegacyStep, Careful;
    var w' := With(w, sid, s', id, w.remotes[id]);
    assert w'.remotes == w.remotes;
    assert StoreStep(env, w, w', sid);
    StepArises(env, w, w', Move(sid, sid, id));
  }

  lemma WithTwice(w: World, sid: StoreId, s: Store, s': Store, id: RemoteId, r: Remote, r': Remote)
    ensures With(With(w, sid, s, id, r), sid, s', id, r') == With(w, sid, s', id, r')
  {
  }

  lemma ThenPublishStep(env: Env, w: World, sid: StoreId, id: RemoteId, s: Store, r: Remote, s': Store, r': Remote)
    requires Arises(env, With(w, sid, s, id, r)) && s.writer.unassigned == None
    requires WorksWith(s, id) && PublishStep(env, sid, id, s, r, s', r')
    ensures Arises(env, With(w, sid, s', id, r'))
  {
    hide Arises, PublishStep;
    PublishStepArises(env, With(w, sid, s, id, r), sid, id, s', r');
    WithTwice(w, sid, s, s', id, r, r');
  }

  // ----- a publish without blobs, up to its pack -----

  ghost predicate ReadyToPublish(env: Env, w: World, sid: StoreId, id: RemoteId, tip: Option<Ref>) {
    sid in w.stores && id in w.remotes && ReadyStore(env, w.stores[sid], w.remotes[id], id, tip)
  }

  function NextOf(env: Env, s: Store, id: RemoteId, tip: Option<Ref>): Ref {
    NextRef(env, Attempt(id, s.writer, Here(tip, None), tip), s.logs)
  }

  /** The store with its pending ref saved and about to be claimed. */
  function Sending(env: Env, s: Store, id: RemoteId, tip: Option<Ref>): Store {
    var next := NextOf(env, s, id, tip);
    var state := SetRemote(s.writer, id, Here(tip, Some(next)));
    s.(writer := state, job := Claiming(Attempt(id, state, Here(tip, Some(next)), tip), next, false, Trying))
  }

  function WithPack(r: Remote, pack: Pack): Remote {
    r.(packs := r.packs + {pack})
  }

  lemma SendingArises(env: Env, w: World, sid: StoreId, id: RemoteId, tip: Option<Ref>)
    requires Arises(env, w) && ReadyToPublish(env, w, sid, id, tip)
    ensures var s, r := w.stores[sid], w.remotes[id];
            var next := NextOf(env, s, id, tip);
            Arises(env, With(w, sid, Sending(env, s, id, tip), id, WithPack(r, next.packs[|next.packs| - 1])))
  {
    var s, r := w.stores[sid], w.remotes[id];
    var at, next := Attempt(id, s.writer, Here(tip, None), tip), NextOf(env, s, id, tip);
    var r' := WithPack(r, next.packs[|next.packs| - 1]);
    var s1, s2, s3 := s.(job := Began(at)), s.(job := Settled(at)), s.(job := Uploading(at, s.logs, {}));
    var s4 := s.(job := Packed(at, next));
    hide Arises;
    SendingSteps(env, sid, id, s, r, tip, at, next);
    hide PublishStep, NextRef, LatestRef, NextOf, Sending, ReadyToPublish, WithPack;
    PublishStepArises(env, w, sid, id, s1, r);
    ThenPublishStep(env, w, sid, id, s1, r, s2, r);
    ThenPublishStep(env, w, sid, id, s2, r, s3, r);
    ThenPublishStep(env, w, sid, id, s3, r, s4, r');
    ThenPublishStep(env, w, sid, id, s4, r', Sending(env, s, id, tip), r');
  }

  ghost predicate ReadyStore(env: Env, s: Store, r: Remote, id: RemoteId, tip: Option<Ref>) {
    && s.job.Idle? && s.writer.unassigned == None && HereOf(s.writer, id) == Here(tip, None)
    && LatestRef(r, s.writer.id) == Success(tip) && BlobsOf(s.logs) == {}
    && (tip.Some? ==> Loadable(r, tip.value) && Contains(s.logs, LedgerOf(env, tip.value)))
    && var next := NextRef(env, Attempt(id, s.writer, Here(tip, None), tip), s.logs);
       && next.packs[|next.packs| - 1] != {} && RootedAt(next.root, next.packs[|next.packs| - 1])
       && (tip.Some? ==> tip.value.root != next.root)
  }

  lemma SendingSteps(env: Env, sid: StoreId, id: RemoteId, s: Store, r: Remote, tip: Option<Ref>, at: Attempt,
                     next: Ref)
    requires ReadyStore(env, s, r, id, tip)
    requires at == Attempt(id, s.writer, Here(tip, None), tip) && next == NextOf(env, s, id, tip)
    ensures var r' := WithPack(r, next.packs[|next.packs| - 1]);
            var s1, s2, s3 := s.(job := Began(at)), s.(job := Settled(at)), s.(job := Uploading(at, s.logs, {}));
            var s4 := s.(job := Packed(at, next));
            && PublishStep(env, sid, id, s, r, s1, r) && PublishStep(env, sid, id, s1, r, s2, r)
            && PublishStep(env, sid, id, s2, r, s3, r) && PublishStep(env, sid, id, s3, r, s4, r')
            && PublishStep(env, sid, id, s4, r', Sending(env, s, id, tip), r')
  {
    hide RootedAt, Contains;
  }

  /** The store once its ref is on the remote and recorded. */
  function Sent(env: Env, s: Store, id: RemoteId, tip: Option<Ref>): Store {
    s.(writer := SetRemote(s.writer, id, Here(Some(NextOf(env, s, id, tip)), None)))
  }

  function Holding(r: Remote, next: Ref): Remote
    requires next.packs != []
  {
    WithSlot(WithPack(r, next.packs[|next.packs| - 1]), next.writer, next.sequence, Complete(next))
  }

  lemma SentArises(env: Env, w: World, sid: StoreId, id: RemoteId, tip: Option<Ref>)
    requires Arises(env, w) && ReadyToPublish(env, w, sid, id, tip)
    requires var next := NextOf(env, w.stores[sid], id, tip); SlotAt(w.remotes[id], next.writer, next.sequence).Empty?
    ensures var s, r := w.stores[sid], w.remotes[id];
            Arises(env, With(w, sid, Sent(env, s, id, tip), id, Holding(r, NextOf(env, s, id, tip))))
  {
    SendingArises(env, w, sid, id, tip);
    hide Arises, LatestRef, RootedAt, BlobsOf, Contains, Loadable;
    var s, next := w.stores[sid], NextOf(env, w.stores[sid], id, tip);
    var r, r' := WithPack(w.remotes[id], next.packs[|next.packs| - 1]), Holding(w.remotes[id], next);
    var s5, s7 := Sending(env, s, id, tip), Sent(env, s, id, tip);
    var s6 := s5.(job := Claimed(s5.job.at, next, false));
    assert SlotAt(r, next.writer, next.sequence) == Empty && SlotAt(r', next.writer, next.sequence) == Complete(next);
    assert ClaimMove(sid, next, SlotAt(r, next.writer, next.sequence), Trying, SlotAt(r', next.writer, next.sequence),
           Won);
    assert PublishStep(env, sid, id, s5, r, s6, r');
    assert SetRemote(s5.writer, id, Here(Some(next), None)) == SetRemote(s.writer, id, Here(Some(next), None));
    assert PublishStep(env, sid, id, s6, r', s7, r');
    assert s5.writer.unassigned == None;
    hide PublishStep, NextRef, SetRemote, ReadyToPublish, WithPack, Holding, SlotAt, With;
    ThenPublishStep(env, w, sid, id, s5, r, s6, r');
    ThenPublishStep(env, w, sid, id, s6, r', s7, r');
  }

  /** A publish that crashes once its pending ref is saved. */
  lemma InterruptedArisesFrom(env: Env, w: World, sid: StoreId, id: RemoteId, tip: Option<Ref>, crashed: Store)
    requires Arises(env, w) && ReadyToPublish(env, w, sid, id, tip)
    requires CrashStep(Sending(env, w.stores[sid], id, tip), crashed)
    ensures var next := NextOf(env, w.stores[sid], id, tip);
            Arises(env, With(w, sid, crashed, id, WithPack(w.remotes[id], next.packs[|next.packs| - 1])))
  {
    SendingArises(env, w, sid, id, tip);
    var sending, next := Sending(env, w.stores[sid], id, tip), NextOf(env, w.stores[sid], id, tip);
    assert sending.writer.unassigned == None;
    hide Arises, ReadyToPublish, Sending, NextOf, CrashStep, WithPack;
    var r := WithPack(w.remotes[id], next.packs[|next.packs| - 1]);
    StoreStepArises(env, With(w, sid, sending, id, r), sid, id, crashed);
    assert With(With(w, sid, sending, id, r), sid, crashed, id, r) == With(w, sid, crashed, id, r);
  }

  // ----- one writer, two remotes -----

  const EMPTY_REMOTE: Remote := Remote(map[], {}, {})

  function FirstRef(env: Env, w: Writer): Ref {
    var root := env.champ.save(map[]);
    Ref(w, 1, None, root, [Reachable(root)])
  }

  function OneDocument(env: Env, create: Claim): Ledger {
    map[env.idOf(create) := map[env.idOf(create) := create]]
  }

  function SecondRef(env: Env, w: Writer, create: Claim): Ref {
    var root := env.champ.save(OneDocument(env, create));
    Ref(w, 2, Some(FirstRef(env, w)), root,
        [Reachable(env.champ.save(map[])), Reachable(root) - Reachable(env.champ.save(map[]))])
  }

  /** The remote with the first ref. */
  function FirstRemote(env: Env, w: Writer): Remote {
    Remote(map[w := map[1 := Complete(FirstRef(env, w))]], {}, {Reachable(env.champ.save(map[]))})
  }

  function StoreWith(w: Writer, remotes: map<RemoteId, Here>, logs: Ledger): Store {
    Store(WriterState(w, remotes, None), logs, {}, Idle)
  }

  /** A legal run of the map format, and a document to add. */
  ghost predicate Witness(env: Env, create: Claim) {
    && Lossless(env) && RootsStandAlone(env) && create.Create? && IsNormal(create)
    && ContainsSet(env.minted, map[env.idOf(create) := create])
  }

  lemma LedgersOk(env: Env, create: Claim)
    requires Witness(env, create)
    ensures LedgerOk(env, map[]) && LedgerOk(env, OneDocument(env, create))
    ensures BlobsOf(map[]) == {} && BlobsOf(OneDocument(env, create)) == {}
  {
    CreateLoads(env.idOf, create);
    assert Loaded(env.idOf, [create]) == map[env.idOf(create) := create];
  }

  lemma FirstIsNext(env: Env, w: Writer, remotes: map<RemoteId, Here>, id: RemoteId)
    requires id !in remotes
    ensures NextOf(env, StoreWith(w, remotes, map[]), id, None) == FirstRef(env, w)
    ensures RootedAt(env.champ.save(map[]), Reachable(env.champ.save(map[]))) && Reachable(env.champ.save(map[])) != {}
  {
    var root := env.champ.save(map[]);
    assert Reachable(root) - {} == Reachable(root);
    NewObjectsAreRooted({}, root);
    ReachableSelf(root);
  }

  lemma FirstRemoteIsHolding(env: Env, w: Writer)
    ensures Holding(EMPTY_REMOTE, FirstRef(env, w)) == FirstRemote(env, w)
  {
  }

  /** Publishing an empty ledger for the first time. */
  lemma FirstArises(env: Env, world: World, sid: StoreId, w: Writer, remotes: map<RemoteId, Here>, id: RemoteId)
    requires Lossless(env) && Arises(env, world) && sid in world.stores && id in world.remotes && id !in remotes
    requires world.stores[sid] == StoreWith(w, remotes, map[]) && world.remotes[id] == EMPTY_REMOTE
    ensures Arises(env, With(world, sid, StoreWith(w, remotes[id := Here(Some(FirstRef(env, w)), None)], map[]), id,
            FirstRemote(env, w)))
  {
    var s := StoreWith(w, remotes, map[]);
    FirstIsNext(env, w, remotes, id);
    FirstRemoteIsHolding(env, w);
    assert LatestRef(EMPTY_REMOTE, w) == Success(None);
    assert BlobsOf(map[]) == {};
    assert ReadyToPublish(env, world, sid, id, None);
    hide Arises, ReadyToPublish;
    SentArises(env, world, sid, id, None);
    assert Sent(env, s, id, None) == StoreWith(w, remotes[id := Here(Some(FirstRef(env, w)), None)], map[]);
  }

  function HereFirst(env: Env, w: Writer): Here {
    Here(Some(FirstRef(env, w)), None)
  }

  /** Both copies of a store have published the same first ref, one to each remote. */
  function TwoCopies(env: Env, w: Writer): World {
    World(map[0 := StoreWith(w, map["a" := HereFirst(env, w)], map[]),
              1 := StoreWith(w, map["a" := HereFirst(env, w)]["b" := HereFirst(env, w)], map[])],
          map["a" := FirstRemote(env, w), "b" := FirstRemote(env, w)])
  }

  lemma CopiesArise(env: Env, w: Writer)
    requires Lossless(env) && LedgerOk(env, map[])
    ensures Arises(env, TwoCopies(env, w))
  {
    var remotes := map["a" := EMPTY_REMOTE, "b" := EMPTY_REMOTE];
    var s0, s1 := StoreWith(w, map[], map[]), StoreWith(w, map["a" := HereFirst(env, w)], map[]);
    var s2 := StoreWith(w, map["a" := HereFirst(env, w)]["b" := HereFirst(env, w)], map[]);
    var first := FirstRemote(env, w);
    var w0, w1 := World(map[], remotes), World(map[0 := s0], remotes);
    var w2 := World(map[0 := s1], map["a" := first, "b" := EMPTY_REMOTE]);
    var w3 := World(map[0 := s1, 1 := s1], w2.remotes);
    InitialArises(env, w0);
    hide BlobsOf, LedgerOk;
    assert w1 == w0.(stores := w0.stores[0 := w1.stores[0]]);
    assert NewStoreStep(env, w0, w1, 0);
    StepArises(env, w0, w1, Move(0, 0, "a"));
    assert map[]["a" := HereFirst(env, w)] == map["a" := HereFirst(env, w)];
    hide Arises;
    FirstArises(env, w1, 0, w, map[], "a");
    assert With(w1, 0, s1, "a", first) == w2;
    assert w3 == w2.(stores := w2.stores[1 := w2.stores[0].(job := Idle)]);
    assert CopyStep(w2, w3, 1, 0);
    StepArises(env, w2, w3, Move(1, 0, "a"));
    FirstArises(env, w3, 1, w, map["a" := HereFirst(env, w)], "b");
    assert With(w3, 1, s2, "b", first) == TwoCopies(env, w);
  }

  /** The first ref is the tip. */
  lemma FirstIsTip(env: Env, w: Writer)
    ensures LatestRef(FirstRemote(env, w), w) == Success(Some(FirstRef(env, w)))
    ensures Loadable(FirstRemote(env, w), FirstRef(env, w))
    ensures Objects([Reachable(env.champ.save(map[]))]) == Reachable(env.champ.save(map[]))
  {
    var slots := FirstRemote(env, w).refs[w];
    var P := Reachable(env.champ.save(map[]));
    MinIs(1, {1});
    assert slots.Keys == {1} && {1} - {1} == {};
    assert ReadChain(w, slots, {1}, None) == ReadChain(w, slots, {1} - {1}, Some(FirstRef(env, w)));
    ObjectsAppend([], P);
    assert [] + [P] == [P];
    assert Objects([]) == {};
  }

  lemma MinIs(k: nat, s: set<nat>)
    requires IsMin(k, s)
    ensures Min(s) == k
  {
  }

  /** The second ref's pack is new. */
  lemma SecondIsNew(env: Env, w: Writer, create: Claim)
    requires Witness(env, create)
    ensures var first, root := Reachable(env.champ.save(map[])), env.champ.save(OneDocument(env, create));
            && root !in first && root != env.champ.save(map[]) && root in Reachable(root) - first
            && RootedAt(root, Reachable(root) - first)
  {
    LedgersOk(env, create);
    var root := env.champ.save(OneDocument(env, create));
    assert env.champ.load(root) == OneDocument(env, create) && env.champ.load(env.champ.save(map[])) == map[];
    assert env.idOf(create) in OneDocument(env, create);
    ReachableSelf(root);
    ReachableIsClosed(env.champ.save(map[]));
    NewObjectsAreRooted(Reachable(env.champ.save(map[])), root);
  }

  lemma SecondIsNext(env: Env, w: Writer, create: Claim)
    requires Witness(env, create)
    ensures NextOf(env, StoreWith(w, map["a" := HereFirst(env, w)], OneDocument(env, create)), "a",
            Some(FirstRef(env, w)))
         == SecondRef(env, w, create)
  {
    FirstIsTip(env, w);
  }

  /** The store whose second ref was interrupted on "a", as an old version would have kept its state. */
  function OldStore(env: Env, w: Writer, create: Claim): Store {
    var here := Here(Some(FirstRef(env, w)), Some(SecondRef(env, w, create)));
    Store(WriterState(w, map[], Some(here)), OneDocument(env, create), {}, Idle)
  }

  /** That store, the copy that published to "b", and both remotes; "a" has the second ref's pack. */
  function OldWorld(env: Env, w: Writer, create: Claim): World {
    var second := SecondRef(env, w, create);
    World(TwoCopies(env, w).stores[0 := OldStore(env, w, create)],
          map["a" := WithPack(FirstRemote(env, w), second.packs[1]), "b" := FirstRemote(env, w)])
  }

  lemma EditedArises(env: Env, w: Writer, create: Claim)
    requires Witness(env, create)
    ensures Arises(env, With(TwoCopies(env, w), 0,
            StoreWith(w, map["a" := HereFirst(env, w)], OneDocument(env, create)), "a", FirstRemote(env, w)))
  {
    LedgersOk(env, create);
    CopiesArise(env, w);
    hide Arises, LedgerOk, BlobsOf;
    var s := StoreWith(w, map["a" := HereFirst(env, w)], OneDocument(env, create));
    assert EditStep(env, TwoCopies(env, w).stores[0], s);
    StoreStepArises(env, TwoCopies(env, w), 0, "a", s);
  }

  lemma EditedIsReady(env: Env, w: Writer, create: Claim, world: World)
    requires Witness(env, create) && 0 in world.stores && "a" in world.remotes
    requires world.stores[0] == StoreWith(w, map["a" := HereFirst(env, w)], OneDocument(env, create))
    requires world.remotes["a"] == FirstRemote(env, w)
    ensures ReadyToPublish(env, world, 0, "a", Some(FirstRef(env, w)))
  {
    LedgersOk(env, create);
    FirstIsTip(env, w);
    SecondIsNew(env, w, create);
    SecondIsNext(env, w, create);
    hide LatestRef, NextRef, LedgerOk, BlobsOf, Loadable;
  }

  function HereSecond(env: Env, w: Writer, create: Claim): Here {
    Here(Some(FirstRef(env, w)), Some(SecondRef(env, w, create)))
  }

  /** The store as the crash left it, in the current format. */
  function Interrupted(env: Env, w: Writer, create: Claim): Store {
    StoreWith(w, map["a" := HereSecond(env, w, create)], OneDocument(env, create))
  }

  lemma InterruptedArises(env: Env, w: Writer, create: Claim)
    requires Witness(env, create)
    ensures Arises(env, OldWorld(env, w, create).(stores := TwoCopies(env, w).stores[0 := Interrupted(env, w, create)]))
  {
    var s := StoreWith(w, map["a" := HereFirst(env, w)], OneDocument(env, create));
    var w5 := With(TwoCopies(env, w), 0, s, "a", FirstRemote(env, w));
    EditedArises(env, w, create);
    EditedIsReady(env, w, create, w5);
    InterruptedIs(env, w, create, s);
    var crashed := Interrupted(env, w, create);
    var r := WithPack(FirstRemote(env, w), SecondRef(env, w, create).packs[1]);
    hide Arises, ReadyToPublish, Witness, NextOf, Sending, CrashStep, SecondRef, FirstRef, HereFirst, Interrupted,
         StoreWith;
    InterruptedArisesFrom(env, w5, 0, "a", Some(FirstRef(env, w)), crashed);
    InterruptedWorld(env, w, create, s, crashed, r);
  }

  lemma InterruptedWorld(env: Env, w: Writer, create: Claim, s: Store, crashed: Store, r: Remote)
    requires Witness(env, create) && r == WithPack(FirstRemote(env, w), SecondRef(env, w, create).packs[1])
    ensures With(With(TwoCopies(env, w), 0, s, "a", FirstRemote(env, w)), 0, crashed, "a", r)
         == OldWorld(env, w, create).(stores := TwoCopies(env, w).stores[0 := crashed])
  {
    hide SecondRef, FirstRemote, StoreWith, HereFirst, WithPack, Witness;
    var copies := TwoCopies(env, w);
    WithTwice(copies, 0, s, crashed, "a", FirstRemote(env, w), r);
    assert copies.remotes["a" := r] == OldWorld(env, w, create).remotes;
  }

  /** What the interrupted publish has saved and uploaded. */
  lemma InterruptedIs(env: Env, w: Writer, create: Claim, s: Store)
    requires Witness(env, create) && s == StoreWith(w, map["a" := HereFirst(env, w)], OneDocument(env, create))
    ensures CrashStep(Sending(env, s, "a", Some(FirstRef(env, w))), Interrupted(env, w, create))
    ensures var next := NextOf(env, s, "a", Some(FirstRef(env, w)));
            && next == SecondRef(env, w, create) && next.packs[|next.packs| - 1] == SecondRef(env, w, create).packs[1]
    ensures Sending(env, s, "a", Some(FirstRef(env, w))).writer.unassigned == None
  {
    SecondIsNext(env, w, create);
    hide NextRef, Witness;
    assert map["a" := HereFirst(env, w)]["a" := HereSecond(env, w, create)] == map["a" := HereSecond(env, w, create)];
  }

  lemma OldWorldArises(env: Env, w: Writer, create: Claim)
    requires Witness(env, create)
    ensures Arises(env, OldWorld(env, w, create))
  {
    hide *;
    var crashed := Interrupted(env, w, create);
    var w7 := OldWorld(env, w, create).(stores := TwoCopies(env, w).stores[0 := crashed]);
    InterruptedArises(env, w, create);
    FallsBack(env, w, create);
    BackInOldWorld(env, w, create, crashed);
    StoreStepArises(env, w7, 0, "a", OldStore(env, w, create));
  }

  lemma BackInOldWorld(env: Env, w: Writer, create: Claim, crashed: Store)
    ensures var w7 := OldWorld(env, w, create).(stores := TwoCopies(env, w).stores[0 := crashed]);
            && 0 in w7.stores && w7.stores[0] == crashed && "a" in w7.remotes
            && With(w7, 0, OldStore(env, w, create), "a", w7.remotes["a"]) == OldWorld(env, w, create)
  {
    hide SecondRef, FirstRemote, HereFirst, OldStore;
  }

  /** The interrupted store as an old version would have kept it. */
  lemma FallsBack(env: Env, w: Writer, create: Claim)
    ensures LegacyStep(Interrupted(env, w, create), OldStore(env, w, create))
    ensures Interrupted(env, w, create).writer.unassigned == None
  {
    hide SecondRef, FirstRef;
    assert "a" in Interrupted(env, w, create).writer.remotes;
  }

  lemma OldStateIsCareless(env: Env, w: Writer, create: Claim)
    requires Witness(env, create)
    ensures CarelessAt(env, OldWorld(env, w, create), 0, "b", Some(FirstRef(env, w)))
  {
    FirstIsTip(env, w);
    SecondIsNew(env, w, create);
    hide LatestRef, Loadable;
    var second := SecondRef(env, w, create);
    assert second.packs[1] in second.packs && second.packs[1] !in FirstRemote(env, w).packs;
    assert !Durable(env, FirstRemote(env, w), second);
  }

  /** "b" once the pending ref was sent there: the chain reads, but the pack of its tip is missing. */
  lemma SentToBIsStuck(env: Env, w: Writer, create: Claim)
    requires Witness(env, create)
    ensures !CanRecover(WithSlot(FirstRemote(env, w), w, 2, Complete(SecondRef(env, w, create))))
  {
    var first, second := FirstRef(env, w), SecondRef(env, w, create);
    var r := WithSlot(FirstRemote(env, w), w, 2, Complete(second));
    SecondIsNew(env, w, create);
    var slots := r.refs[w];
    MinIs(1, {1, 2});
    MinIs(2, {2});
    assert slots.Keys == {1, 2} && {1, 2} - {1} == {2} && {2} - {2} == {};
    assert Links(w, 1, None, first) && Links(w, 2, Some(first), second);
    assert ReadChain(w, slots, {1, 2}, None) == ReadChain(w, slots, {1, 2} - {1}, Some(first));
    assert ReadChain(w, slots, {2}, Some(first)) == ReadChain(w, slots, {2} - {2}, Some(second));
    assert LatestRef(r, w) == Success(Some(second));
    assert second.packs[1] in second.packs && second.packs[1] !in r.packs;
  }

  /** From empty remotes: two copies publish, one is interrupted and falls back to the old format, and its next call for
      the other remote sends its pending ref there. That remote then lacks the ref's pack and cannot be recovered. */
  lemma CarelessMoveLosesPack(env: Env, w: Writer, create: Claim) returns (before: World, path: seq<World>)
    requires Witness(env, create)
    ensures Arises(env, before) && CarelessAt(env, before, 0, "b", Some(FirstRef(env, w)))
    ensures CallPath(env, path, 0, "b") && path[0] == before
    ensures var after := path[|path| - 1]; "b" in after.remotes && !CanRecover(after.remotes["b"])
  {
    before := OldWorld(env, w, create);
    OldWorldArises(env, w, create);
    OldStateIsCareless(env, w, create);
    SentToBIsStuck(env, w, create);
    hide Arises, CallPath, CanRecover, Witness, CarelessAt;
    var second := SecondRef(env, w, create);
    assert SlotAt(FirstRemote(env, w), w, 2) == Empty;
    var w1, w2, w3 := CarelessCallSends(env, before, 0, "b", Some(FirstRef(env, w)), second);
    path := [before, w1, w2, w3];
  }
}
