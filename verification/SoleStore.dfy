/** A store that is the only one of its writer: after any crashes its next publish settles (src/replica.rs). */
module SoleStore {
  import opened Wrappers
  import opened Merkle
  import opened Slots
  import opened Replica
  import opened ReplicaSafety
  import opened ReplicaTheorems

  /** merkle-champ: the root of a ledger is never an inner node of another. */
  ghost predicate RootsStandAlone(env: Env) {
    forall a, b | LedgerOk(env, a) && LedgerOk(env, b) && env.champ.save(a) in Reachable(env.champ.save(b)) ::
      env.champ.save(a) == env.champ.save(b)
  }

  // ----- a changed ledger has a new root -----

  /** An object of a ref's packs belongs to the ledger of one of the refs up to it. */
  lemma {:induction false} ObjectOfSomeLedger(env: Env, reference: Ref, o: Object) returns (early: Ref)
    requires GoodRef(env, reference) && o in Objects(reference.packs)
    ensures GoodRef(env, early) && o in Reachable(early.root)
    ensures Contains(LedgerOf(env, reference), LedgerOf(env, early))
    decreases reference
  {
    early := reference;
    ContainsItself(LedgerOf(env, reference));
    if reference.previous.None? {
      assert reference.packs == [] + [Reachable(reference.root)];
      ObjectsAppend([], Reachable(reference.root));
      assert Objects([]) == {};
    } else {
      var p := reference.previous.value;
      ObjectsAppend(p.packs, Reachable(reference.root) - Objects(p.packs));
      if o !in Reachable(reference.root) {
        early := ObjectOfSomeLedger(env, p, o);
        ContainsTransitive(LedgerOf(env, reference), LedgerOf(env, p), LedgerOf(env, early));
      }
    }
  }

  lemma ContainsBothWays(a: Ledger, b: Ledger)
    requires Contains(a, b) && Contains(b, a)
    ensures a == b
  {
    forall doc | doc in a ensures a[doc] == b[doc] {
      assert ContainsSet(a[doc], b[doc]) && ContainsSet(b[doc], a[doc]);
    }
  }

  /** A ledger that holds all of the tip's either is the tip's or has a root the writer's packs do not hold. */
  lemma ChangedLedgerHasNewRoot(env: Env, tip: Ref, ledger: Ledger)
    requires Lossless(env) && RootsStandAlone(env) && GoodRef(env, tip)
    requires LedgerOk(env, ledger) && Contains(ledger, LedgerOf(env, tip))
    ensures env.champ.save(ledger) == tip.root || env.champ.save(ledger) !in Objects(tip.packs)
  {
    var root := env.champ.save(ledger);
    if root in Objects(tip.packs) {
      var early := ObjectOfSomeLedger(env, tip, root);
      assert root == env.champ.save(LedgerOf(env, early));
      assert env.champ.load(root) == ledger;
      ContainsBothWays(ledger, LedgerOf(env, tip));
    }
  }

  // ----- one store on one remote -----

  /** The remote's slots are only empty or complete, as with hard links. */
  ghost predicate Atomic(r: Remote, w: Writer) {
    forall k: nat :: SlotAt(r, w, k).Empty? || SlotAt(r, w, k).Complete?
  }

  /** writer.json agrees with the tip, up to one pending ref that is or is not there yet. */
  ghost predicate Consistent(here: Here, tip: Option<Ref>) {
    if here.pending.None? then here.last == tip else tip == here.last || tip == here.pending
  }

  /** What a publish under way on this remote knows about its tip. */
  ghost predicate StageKnows(env: Env, s: Store, tip: Option<Ref>)
    requires !s.job.Idle?
  {
    match s.job
    case Began(at) => at.tip == tip
    case Settled(at) => at.tip == tip == at.here.last
    case Uploading(at, _, _) => at.tip == tip == at.here.last
    case Packed(at, next) => at.tip == tip == at.here.last && at.here.pending == None &&
      next.root == env.champ.save(s.logs)
    case Claiming(at, next, retry, stage) => tip == at.here.last && stage.Trying? &&
      (retry || next.root == env.champ.save(s.logs))
    case Claimed(at, next, retry) => tip == Some(next) && (retry || next.root == env.champ.save(s.logs))
    case Rereading(at) => at.here.pending == None
  }

  /** The only store of its writer on this remote, at any point of a publish anywhere or after a crash. */
  ghost predicate Solo(env: Env, r: Remote, s: Store, id: RemoteId, tip: Option<Ref>) {
    && IsTip(r, s.writer.id, tip) && Atomic(r, s.writer.id)
    && s.writer.unassigned == None
    && Consistent(HereOf(s.writer, id), tip)
    && (s.job.Idle? || s.job.at.remote != id || StageKnows(env, s, tip))
  }

  /** Nothing is pending, the last ref is the tip, and the tip is the ledger of the logs. */
  ghost predicate SettledHere(env: Env, s: Store, id: RemoteId, tip: Option<Ref>) {
    HereOf(s.writer, id) == Here(tip, None) && tip.Some? && tip.value.root == env.champ.save(s.logs)
  }

  /** Claiming with an atomic conditional create. */
  ghost predicate AtomicStep(s: Store, s': Store) {
    s.job.Claiming? ==> !s'.job.Claiming?
  }

  /** Where a step starts: everything sound, and this store alone. */
  ghost predicate SoloAt(env: Env, sid: StoreId, remotes: map<RemoteId, Remote>, id: RemoteId, s: Store,
                         tip: Option<Ref>) {
    && id in remotes && RemoteOk(env, remotes[id]) && StoreOk(env, sid, remotes, s)
    && Coherent(s) && Solo(env, remotes[id], s, id, tip)
  }

  /** The ref just claimed is the new tip. */
  lemma ClaimMovesTip(env: Env, r: Remote, w: Writer, tip: Option<Ref>, next: Ref)
    requires RemoteOk(env, r) && IsTip(r, w, tip) && Atomic(r, w) && Ready(env, r, w, next) && next.previous == tip
    ensures SlotAt(r, w, next.sequence).Empty?
    ensures var r' := WithSlot(r, w, next.sequence, Complete(next));
            IsTip(r', w, Some(next)) && Atomic(r', w)
  {
    assert GoodRef(env, next);
    assert next.sequence == SequenceOf(tip) + 1;
    var r' := WithSlot(r, w, next.sequence, Complete(next));
    assert SlotAt(r, w, next.sequence).Complete? <==> 1 <= next.sequence <= SequenceOf(tip);
    forall k: nat ensures SlotAt(r', w, k) == if k == next.sequence then Complete(next) else SlotAt(r, w, k) {
    }
  }

  lemma SoloClaim(env: Env, sid: StoreId, remotes: map<RemoteId, Remote>, id: RemoteId, s: Store, s': Store, r': Remote,
                  tip: Option<Ref>)
    requires SoloAt(env, sid, remotes, id, s, tip)
    requires s.job.Claiming? && s.job.at.remote == id && ClaimStep(sid, s, remotes[id], s', r') && AtomicStep(s, s')
    ensures s'.job.Claimed? && Solo(env, r', s', id, Some(s.job.next))
  {
    ClaimMovesTip(env, remotes[id], s.writer.id, tip, s.job.next);
  }

  lemma SoloBegin(env: Env, sid: StoreId, remotes: map<RemoteId, Remote>, id: RemoteId, s: Store, s': Store,
                  tip: Option<Ref>)
    requires SoloAt(env, sid, remotes, id, s, tip) && s.job.Idle? && BeginStep(s, remotes[id], s', id)
    ensures Solo(env, remotes[id], s', id, tip) && !s'.job.Idle?
  {
    TipAgain(env, remotes[id], s.writer.id, tip);
  }

  lemma SoloReconcile(env: Env, sid: StoreId, remotes: map<RemoteId, Remote>, id: RemoteId, s: Store, s': Store,
                      tip: Option<Ref>)
    requires SoloAt(env, sid, remotes, id, s, tip) && s.job.Began? && s.job.at.remote == id && ReconcileStep(s, s')
    ensures Solo(env, remotes[id], s', id, tip) && !s'.job.Idle?
  {
    hide RemoteOk, IsTip, Atomic, LedgerOk;
  }

  lemma SoloCapture(env: Env, sid: StoreId, remotes: map<RemoteId, Remote>, id: RemoteId, s: Store, s': Store,
                    tip: Option<Ref>)
    requires SoloAt(env, sid, remotes, id, s, tip)
    requires s.job.Settled? && s.job.at.remote == id && CaptureStep(env, s, remotes[id], s')
    ensures Solo(env, remotes[id], s', id, tip) && !s'.job.Idle?
  {
    if tip.Some? {
      assert SlotOk(env, remotes[id], s.writer.id, tip.value.sequence);
      ReadyLoads(env, remotes[id], s.writer.id, tip.value);
    }
  }

  lemma SameSlotsSolo(env: Env, r: Remote, r': Remote, s: Store, id: RemoteId, tip: Option<Ref>)
    requires (forall k: nat :: SlotAt(r', s.writer.id, k) == SlotAt(r, s.writer.id, k)) && Solo(env, r, s, id, tip)
    ensures Solo(env, r', s, id, tip)
  {
    assert IsTip(r', s.writer.id, tip);
  }

  lemma SoloUpload(env: Env, sid: StoreId, remotes: map<RemoteId, Remote>, id: RemoteId, s: Store, s': Store,
                   r': Remote, tip: Option<Ref>)
    requires SoloAt(env, sid, remotes, id, s, tip)
    requires s.job.Uploading? && s.job.at.remote == id && BlobStep(s, remotes[id], s', r')
    ensures Solo(env, r', s', id, tip) && !s'.job.Idle?
  {
    TodoIsHere(env, sid, remotes, s);
    hide RemoteOk, StoreOk, Coherent, IsTip, Atomic, SlotAt;
    BlobStepSlots(env, s, remotes[id], s', r');
    SameSlotsSolo(env, remotes[id], r', s, id, tip);
    SoloHasBlobs(env, remotes[id], s, id, tip, s', r');
  }

  lemma TodoIsHere(env: Env, sid: StoreId, remotes: map<RemoteId, Remote>, s: Store)
    requires StoreOk(env, sid, remotes, s) && s.job.Uploading?
    ensures s.job.todo <= s.blobs
  {
    hide AttemptOk, StateOk, LedgerOk;
  }

  lemma BlobStepSlots(env: Env, s: Store, r: Remote, s': Store, r': Remote)
    requires BlobStep(s, r, s', r')
    ensures forall k: nat :: SlotAt(r', s.writer.id, k) == SlotAt(r, s.writer.id, k)
  {
  }

  /** A store that is alone holds every blob it is to upload. */
  lemma SoloHasBlobs(env: Env, r: Remote, s: Store, id: RemoteId, tip: Option<Ref>, s': Store, r': Remote)
    requires Solo(env, r', s, id, tip) && s.job.Uploading? && s.job.at.remote == id && BlobStep(s, r, s', r')
    requires s.job.todo <= s.blobs
    ensures Solo(env, r', s', id, tip) && !s'.job.Idle?
  {
    hide IsTip, Atomic, SlotAt;
  }

  lemma PackIsNew(env: Env, at: Attempt, ledger: Ledger)
    requires at.tip.Some? ==> GoodRef(env, at.tip.value)
    ensures var next := NextRef(env, at, ledger);
            next.packs[|next.packs| - 1] != {} <==> env.champ.save(ledger) !in PriorObjects(at.tip)
  {
    NewObjectsAreRooted(PriorObjects(at.tip), env.champ.save(ledger));
  }

  lemma SoloPack(env: Env, sid: StoreId, remotes: map<RemoteId, Remote>, id: RemoteId, s: Store, s': Store, r': Remote,
                 tip: Option<Ref>)
    requires Lossless(env) && RootsStandAlone(env) && SoloAt(env, sid, remotes, id, s, tip)
    requires s.job.Uploading? && s.job.at.remote == id && PackStep(env, s, remotes[id], s', r')
    ensures Solo(env, r', s', id, tip)
    ensures s'.job.Idle? ==> SettledHere(env, s', id, tip)
  {
    SameSlotsSolo(env, remotes[id], r', s, id, tip);
    if tip.Some? {
      assert SlotOk(env, remotes[id], s.writer.id, tip.value.sequence);
      ChangedLedgerHasNewRoot(env, tip.value, s.logs);
    }
    PackIsAlwaysWritable(env, s.job.at, s.job.ledger);
    PackIsNew(env, s.job.at, s.job.ledger);
  }

  /** Without competition a publish never fails: it goes on, or ends with nothing pending and its last ref the tip. */
  lemma SoloStep(env: Env, sid: StoreId, remotes: map<RemoteId, Remote>, id: RemoteId, s: Store, s': Store, r': Remote,
                 tip: Option<Ref>)
    returns (tip': Option<Ref>)
    requires Lossless(env) && RootsStandAlone(env) && SoloAt(env, sid, remotes, id, s, tip)
    requires WorksWith(s, id) && PublishStep(env, sid, id, s, remotes[id], s', r') && AtomicStep(s, s')
    ensures Solo(env, r', s', id, tip')
    ensures s'.job.Idle? ==> SettledHere(env, s', id, tip')
    ensures tip' == tip || (s.job.Claiming? && tip' == Some(s.job.next))
  {
    tip' := tip;
    match s.job
    case Idle => SoloBegin(env, sid, remotes, id, s, s', tip);
    case Began(_) => SoloReconcile(env, sid, remotes, id, s, s', tip);
    case Settled(_) => SoloCapture(env, sid, remotes, id, s, s', tip);
    case Uploading(_, _, _) =>
      if BlobStep(s, remotes[id], s', r') {
        SoloUpload(env, sid, remotes, id, s, s', r', tip);
      } else {
        SoloPack(env, sid, remotes, id, s, s', r', tip);
      }
    case Packed(_, _) => SoloSave(env, sid, remotes, id, s, s', tip);
    case Claiming(_, _, _, _) =>
      SoloClaim(env, sid, remotes, id, s, s', r', tip);
      tip' := Some(s.job.next);
    case Claimed(_, _, _) => SoloRecord(env, sid, remotes, id, s, s', tip);
    case Rereading(_) => SoloReread(env, sid, remotes, id, s, s', tip);
  }

  lemma SoloSave(env: Env, sid: StoreId, remotes: map<RemoteId, Remote>, id: RemoteId, s: Store, s': Store,
                 tip: Option<Ref>)
    requires SoloAt(env, sid, remotes, id, s, tip) && s.job.Packed? && s.job.at.remote == id && SaveStep(s, s')
    ensures Solo(env, remotes[id], s', id, tip) && !s'.job.Idle?
  {
    hide RemoteOk, IsTip, Atomic, LedgerOk;
  }

  lemma SoloRecord(env: Env, sid: StoreId, remotes: map<RemoteId, Remote>, id: RemoteId, s: Store, s': Store,
                   tip: Option<Ref>)
    requires SoloAt(env, sid, remotes, id, s, tip) && s.job.Claimed? && s.job.at.remote == id && RecordStep(s, s')
    ensures Solo(env, remotes[id], s', id, tip)
    ensures s'.job.Idle? ==> SettledHere(env, s', id, tip)
  {
    hide RemoteOk, IsTip, Atomic, LedgerOk;
  }

  lemma SoloReread(env: Env, sid: StoreId, remotes: map<RemoteId, Remote>, id: RemoteId, s: Store, s': Store,
                   tip: Option<Ref>)
    requires SoloAt(env, sid, remotes, id, s, tip) && s.job.Rereading? && s.job.at.remote == id &&
             RereadStep(s, remotes[id], s')
    ensures Solo(env, remotes[id], s', id, tip) && !s'.job.Idle?
  {
    TipAgain(env, remotes[id], s.writer.id, tip);
    hide RemoteOk, IsTip, Atomic, LedgerOk;
  }

  /** A crash at any point of a publish leaves the store alone and its files consistent. */
  lemma SoloCrash(env: Env, sid: StoreId, remotes: map<RemoteId, Remote>, id: RemoteId, s: Store, tip: Option<Ref>)
    requires SoloAt(env, sid, remotes, id, s, tip)
    ensures SoloAt(env, sid, remotes, id, s.(job := Idle), tip)
  {
  }

  // ----- whole runs, with every other store and writer at work -----

  ghost function TipOf(w: World, sid: StoreId, id: RemoteId): Option<Ref>
    requires sid in w.stores && id in w.remotes
  {
    var tip := LatestRef(w.remotes[id], w.stores[sid].writer.id);
    if tip.Success? then tip.value else None
  }

  ghost predicate SoloWorld(env: Env, w: World, sid: StoreId, id: RemoteId) {
    && Inv(env, w) && AllCoherent(w) && sid in w.stores && id in w.remotes
    && Solo(env, w.remotes[id], w.stores[sid], id, TipOf(w, sid, id))
  }

  /** Store `sid` has this writer ID, in the current format, and no other store has it. */
  ghost predicate SoleAt(w: World, sid: StoreId, writer: Writer) {
    && sid in w.stores && w.stores[sid].writer.id == writer && w.stores[sid].writer.unassigned == None
    && forall x | x in w.stores && x != sid :: w.stores[x].writer.id != writer
  }

  ghost predicate Unused(w: World, writer: Writer) {
    forall x | x in w.stores :: w.stores[x].writer.id != writer
  }

  /** The store claims this remote's slots atomically. */
  ghost predicate AtomicMove(w: World, w': World, m: Move, sid: StoreId, id: RemoteId) {
    m.store == sid && m.remote == id && sid in w.stores && sid in w'.stores ==>
        AtomicStep(w.stores[sid], w'.stores[sid])
  }

  /** From point `b` of the run on, `sid` alone has the writer ID that nobody had before, as a minted ID is. */
  ghost predicate Sole(run: seq<World>, moves: seq<Move>, sid: StoreId, writer: Writer, id: RemoteId, b: nat) {
    && 0 < b < |run| == |moves| + 1
    && (forall k | 0 <= k < b :: Unused(run[k], writer))
    && (forall k | b <= k < |run| :: SoleAt(run[k], sid, writer))
    && (forall k | b <= k < |moves| :: AtomicMove(run[k], run[k + 1], moves[k], sid, id))
  }

  /** A publish by one writer leaves every other writer's slots alone. */
  lemma OtherWritersSlotsStay(env: Env, sid: StoreId, remotes: map<RemoteId, Remote>, id: RemoteId, s: Store, s': Store,
                              r': Remote, writer: Writer)
    requires id in remotes && StoreOk(env, sid, remotes, s) && s.writer.id != writer
    requires WorksWith(s, id) && PublishStep(env, sid, id, s, remotes[id], s', r')
    ensures forall k: nat :: SlotAt(r', writer, k) == SlotAt(remotes[id], writer, k)
  {
    hide RemoteOk, LatestRef, LedgerOk, Contains, HereOk, Ready, GoodRef, ClaimMove;
  }

  ghost predicate NoSlots(r: Remote, writer: Writer) {
    forall k: nat :: SlotAt(r, writer, k) == Empty
  }

  lemma UnusedMove(env: Env, w: World, w': World, m: Move, writer: Writer, id: RemoteId)
    requires Inv(env, w) && Moved(env, w, w', m) && Unused(w, writer)
    requires id in w.remotes && NoSlots(w.remotes[id], writer)
    ensures id in w'.remotes && NoSlots(w'.remotes[id], writer)
  {
    hide PublishStep, StoreOk, RemoteOk, SlotAt, Careful, StoreContentOk;
    if RemoteStep(env, w, w', m.store, m.remote) && m.remote == id {
      OtherWritersSlotsStay(env, m.store, w.remotes, id, w.stores[m.store], w'.stores[m.store], w'.remotes[id], writer);
    }
  }

  lemma FreshRemoteHasNoSlots(env: Env, run: seq<World>, moves: seq<Move>, writer: Writer, id: RemoteId)
    requires Run(env, run, moves) && id in run[0].remotes
    ensures NoSlots(run[0].remotes[id], writer)
  {
    assert run[0].remotes[id] == Remote(map[], {}, {});
  }

  /** Nobody's writer has no refs anywhere. */
  lemma {:induction false} UnusedHasNoSlots(env: Env, run: seq<World>, moves: seq<Move>, k: nat, writer: Writer,
                                            id: RemoteId)
    requires Lossless(env) && Run(env, run, moves) && k < |run| && id in run[0].remotes
    requires forall i | 0 <= i < k :: Unused(run[i], writer)
    ensures id in run[k].remotes && NoSlots(run[k].remotes[id], writer)
  {
    hide *;
    if k == 0 {
      FreshRemoteHasNoSlots(env, run, moves, writer, id);
    } else {
      UnusedHasNoSlots(env, run, moves, k - 1, writer, id);
      var w, w' := StepOfRun(env, run, moves, k - 1);
      UnusedMove(env, w, w', moves[k - 1], writer, id);
    }
  }

  /** A store takes up an unused writer ID only by being created or by forking: with no publish state. */
  lemma TakesUpFresh(env: Env, w: World, w': World, m: Move, sid: StoreId, writer: Writer)
    requires Inv(env, w) && AllCoherent(w) && Moved(env, w, w', m) && Unused(w, writer) && SoleAt(w', sid, writer)
    ensures w'.stores[sid].job.Idle? && w'.stores[sid].writer.remotes == map[]
  {
    hide PublishStep, StoreOk, RemoteOk, Careful, StoreContentOk, Coherent;
    if m.store == sid && RemoteStep(env, w, w', m.store, m.remote) {
      PublishKeepsWriter(env, sid, m.remote, w.stores[sid], w.remotes[m.remote], w'.stores[sid], w'.remotes[m.remote]);
    }
  }

  lemma FreshIsSolo(env: Env, w: World, sid: StoreId, id: RemoteId)
    requires Inv(env, w) && AllCoherent(w) && sid in w.stores && id in w.remotes
    requires var s := w.stores[sid];
             && s.job.Idle? && s.writer.remotes == map[] && s.writer.unassigned == None
             && NoSlots(w.remotes[id], s.writer.id)
    ensures SoloWorld(env, w, sid, id)
  {
    var r, writer := w.remotes[id], w.stores[sid].writer.id;
    assert IsTip(r, writer, None);
    TipAgain(env, r, writer, None);
  }

  // ----- one step -----

  lemma SoleOwnStep(env: Env, w: World, w': World, sid: StoreId, id: RemoteId)
    requires Lossless(env) && RootsStandAlone(env) && SoloWorld(env, w, sid, id)
    requires RemoteStep(env, w, w', sid, id) && AtomicStep(w.stores[sid], w'.stores[sid]) && Inv(env, w') &&
             AllCoherent(w')
    ensures SoloWorld(env, w', sid, id)
    ensures w'.stores[sid].job.Idle? ==> SettledHere(env, w'.stores[sid], id, TipOf(w', sid, id))
  {
    hide Solo, SettledHere, RemoteOk, StoreOk, LatestRef, IsTip, PublishStep, RootsStandAlone, Lossless, Coherent;
    var s, s' := w.stores[sid], w'.stores[sid];
    assert StoreOk(env, sid, w.remotes, s) && Coherent(s);
    var tip := SoloStep(env, sid, w.remotes, id, s, s', w'.remotes[id], TipOf(w, sid, id));
    SoloHasTip(env, w'.remotes[id], s', id, tip);
    TipAgain(env, w'.remotes[id], s'.writer.id, tip);
  }

  lemma SoloHasTip(env: Env, r: Remote, s: Store, id: RemoteId, tip: Option<Ref>)
    requires Solo(env, r, s, id, tip)
    ensures IsTip(r, s.writer.id, tip)
  {
  }

  /** Publishing to another remote changes nothing that concerns this one. */
  lemma SoleStepAway(env: Env, sid: StoreId, remote: RemoteId, id: RemoteId, r: Remote, s: Store, s': Store,
                     other: Remote, other': Remote, tip: Option<Ref>)
    requires remote != id && Solo(env, r, s, id, tip) && Coherent(s)
    requires WorksWith(s, remote) && PublishStep(env, sid, remote, s, other, s', other')
    ensures Solo(env, r, s', id, tip)
  {
    hide LatestRef, RootedAt, NextRef, BlobsOf, SlotAt, Loadable, ClaimMove, IsTip, Atomic;
    assert HereOf(s'.writer, id) == HereOf(s.writer, id);
  }

  lemma SoleStoreStep(env: Env, w: World, w': World, sid: StoreId, id: RemoteId, writer: Writer, tip: Option<Ref>)
    requires sid in w.stores && id in w.remotes && Solo(env, w.remotes[id], w.stores[sid], id, tip) &&
             w.stores[sid].writer.id == writer
    requires StoreStep(env, w, w', sid) && SoleAt(w', sid, writer)
    ensures Solo(env, w'.remotes[id], w'.stores[sid], id, tip)
  {
    hide IsTip, Atomic, StoreContentOk, Contains;
  }

  /** Whatever step anyone takes, the store stays alone on the remote. */
  lemma SoleStep(env: Env, w: World, w': World, m: Move, sid: StoreId, id: RemoteId, writer: Writer)
    requires Lossless(env) && RootsStandAlone(env) && SoloWorld(env, w, sid, id) && Moved(env, w, w', m)
    requires SoleAt(w, sid, writer) && SoleAt(w', sid, writer) && AtomicMove(w, w', m, sid, id) && Inv(env, w') &&
             AllCoherent(w')
    ensures SoloWorld(env, w', sid, id)
  {
    hide Solo, RemoteOk, StoreOk, LatestRef, IsTip, PublishStep, RootsStandAlone, Lossless, Coherent, StoreContentOk,
         Careful, SlotAt;
    if m.store == sid && m.remote == id && RemoteStep(env, w, w', sid, id) {
      SoleOwnStep(env, w, w', sid, id);
    } else {
      var tip := TipOf(w, sid, id);
      SoleOtherStep(env, w, w', m, sid, id, writer, tip);
      SoloHasTip(env, w'.remotes[id], w'.stores[sid], id, tip);
      TipAgain(env, w'.remotes[id], writer, tip);
    }
  }

  lemma SoleOtherStep(env: Env, w: World, w': World, m: Move, sid: StoreId, id: RemoteId, writer: Writer,
                      tip: Option<Ref>)
    requires Inv(env, w) && AllCoherent(w) && Moved(env, w, w', m) && SoleAt(w, sid, writer) && SoleAt(w', sid, writer)
    requires id in w.remotes && Solo(env, w.remotes[id], w.stores[sid], id, tip)
    requires m.store != sid || m.remote != id || !RemoteStep(env, w, w', sid, id)
    ensures id in w'.remotes && Solo(env, w'.remotes[id], w'.stores[sid], id, tip)
  {
    hide Solo, RemoteOk, StoreOk, PublishStep, Coherent, StoreContentOk, Careful, SlotAt;
    if RemoteStep(env, w, w', m.store, m.remote) {
      if m.store == sid {
        assert Coherent(w.stores[sid]);
        SoleStepAway(env, sid, m.remote, id, w.remotes[id], w.stores[sid], w'.stores[sid], w.remotes[m.remote],
          w'.remotes[m.remote], tip);
      } else if m.remote == id {
        OtherWritersSlotsStay(env, m.store, w.remotes, id, w.stores[m.store], w'.stores[m.store], w'.remotes[id],
          writer);
        SameSlotsSolo(env, w.remotes[id], w'.remotes[id], w.stores[sid], id, tip);
      }
    } else if StoreStep(env, w, w', m.store) && m.store == sid {
      SoleStoreStep(env, w, w', sid, id, writer, tip);
    }
  }

  /** Over every run, whatever everyone else does: from the moment its writer ID is minted, the store is alone. */
  lemma {:induction false} SoleStaysSolo(env: Env, run: seq<World>, moves: seq<Move>, sid: StoreId, writer: Writer,
                                         id: RemoteId, b: nat, k: nat)
    requires Lossless(env) && RootsStandAlone(env) && Run(env, run, moves) && Sole(run, moves, sid, writer, id, b)
    requires id in run[0].remotes && b <= k < |run|
    ensures SoloWorld(env, run[k], sid, id)
    decreases k
  {
    hide *;
    RunKeepsInv(env, run, moves, k);
    RunIsCoherent(env, run, moves, k);
    if k == b {
      SoleBegins(env, run, moves, sid, writer, id, b);
    } else {
      SoleStaysSolo(env, run, moves, sid, writer, id, b, k - 1);
      var w, w' := StepOfRun(env, run, moves, k - 1);
      SoleSteps(run, moves, sid, writer, id, b, k - 1);
      SoleStep(env, w, w', moves[k - 1], sid, id, writer);
    }
  }

  lemma SoleSteps(run: seq<World>, moves: seq<Move>, sid: StoreId, writer: Writer, id: RemoteId, b: nat, k: nat)
    requires Sole(run, moves, sid, writer, id, b) && b <= k < |moves|
    ensures k + 1 < |run| && SoleAt(run[k], sid, writer) && SoleAt(run[k + 1], sid, writer)
    ensures AtomicMove(run[k], run[k + 1], moves[k], sid, id)
  {
  }

  lemma SoleBegins(env: Env, run: seq<World>, moves: seq<Move>, sid: StoreId, writer: Writer, id: RemoteId, b: nat)
    requires Lossless(env) && Run(env, run, moves) && Sole(run, moves, sid, writer, id, b) && id in run[0].remotes
    ensures SoloWorld(env, run[b], sid, id)
  {
    hide Inv, Moved, AllCoherent, Lossless, SoloWorld, NoSlots;
    UnusedHasNoSlots(env, run, moves, b, writer, id);
    RunKeepsInv(env, run, moves, b);
    RunIsCoherent(env, run, moves, b);
    var w, w' := StepOfRun(env, run, moves, b - 1);
    RunIsCoherent(env, run, moves, b - 1);
    TakesUpFresh(env, w, w', moves[b - 1], sid, writer);
    FreshIsSolo(env, run[b], sid, id);
  }

  // ----- one call of `publish`, while others go on -----

  /** From `i` to `j` the store makes one call of `publish` for remote `id` that is not interrupted by a crash; others'
      steps may come in between. */
  ghost predicate OneCall(env: Env, run: seq<World>, moves: seq<Move>, sid: StoreId, id: RemoteId, i: nat, j: nat) {
    && i < j < |run| == |moves| + 1
    && (forall k | i <= k <= j :: sid in run[k].stores)
    && run[i].stores[sid].job.Idle? && run[j].stores[sid].job.Idle?
    && (forall k | i < k < j :: !run[k].stores[sid].job.Idle? && run[k].stores[sid].job.at.remote == id)
    && moves[j - 1].store == sid && moves[j - 1].remote == id && RemoteStep(env, run[j - 1], run[j], sid, id)
  }

  /** The pending ref is waiting in writer.json or already on the remote. */
  ghost predicate Accounted(w: World, sid: StoreId, id: RemoteId, pending: Ref) {
    && sid in w.stores && id in w.remotes
    && (Published(w.remotes[id], pending) || HereOf(w.stores[sid].writer, id).pending == Some(pending))
  }

  /** A step of the store's own publish drops the pending ref only once it is on the remote. */
  lemma OwnStepAccounts(env: Env, sid: StoreId, remotes: map<RemoteId, Remote>, remote: RemoteId, id: RemoteId,
                        s: Store, s': Store, r': Remote, pending: Ref)
    requires remote in remotes && id in remotes && StoreOk(env, sid, remotes, s) && Coherent(s) &&
             s.writer.unassigned == None
    requires RemoteOk(env, remotes[remote])
    requires WorksWith(s, remote) && PublishStep(env, sid, remote, s, remotes[remote], s', r')
    requires HereOf(s.writer, id).pending == Some(pending)
    ensures HereOf(s'.writer, id).pending == Some(pending) || (remote == id && Published(remotes[id], pending))
  {
    hide LatestRef, RootedAt, BlobsOf, Loadable, ClaimMove, LedgerOk, Contains, SlotOk;
    if s.job.Packed? && remote == id { PackedHasNoPending(env, sid, remotes, s); }
  }

  lemma PackedHasNoPending(env: Env, sid: StoreId, remotes: map<RemoteId, Remote>, s: Store)
    requires StoreOk(env, sid, remotes, s) && s.job.Packed?
    ensures s.job.at.here.pending == None
  {
  }

  /** One step while the call is under way. */
  lemma CallStep(env: Env, w: World, w': World, m: Move, sid: StoreId, id: RemoteId, pending: Option<Ref>)
    requires Lossless(env) && Inv(env, w) && AllCoherent(w) && Moved(env, w, w', m)
    requires sid in w.stores && w.stores[sid].writer.unassigned == None && sid in w'.stores && id in w.remotes
    requires !w'.stores[sid].job.Idle? || RemoteStep(env, w, w', sid, id)
    requires pending.Some? ==> Accounted(w, sid, id, pending.value)
    ensures w'.stores[sid].logs == w.stores[sid].logs
    ensures pending.Some? ==> Accounted(w', sid, id, pending.value)
  {
    hide RemoteOk, StoreOk, PublishStep, Coherent, StoreContentOk, Lossless;
    if RemoteStep(env, w, w', sid, id) {
      CallOwnStep(env, w, w', sid, id, id, pending);
    } else if RemoteStep(env, w, w', m.store, m.remote) {
      if m.store == sid {
        CallOwnStep(env, w, w', sid, m.remote, id, pending);
      } else {
        RemoteStepKeeps(env, w, w', m.store, m.remote);
        if pending.Some? && m.remote == id && Published(w.remotes[id], pending.value) {
          PublishedStays(m.store, w.remotes[id], w'.remotes[id], pending.value);
        }
      }
    }
  }

  lemma CallOwnStep(env: Env, w: World, w': World, sid: StoreId, remote: RemoteId, id: RemoteId, pending: Option<Ref>)
    requires Lossless(env) && Inv(env, w) && AllCoherent(w) && RemoteStep(env, w, w', sid, remote)
    requires w.stores[sid].writer.unassigned == None && id in w.remotes
    requires pending.Some? ==> Accounted(w, sid, id, pending.value)
    ensures w'.stores[sid].logs == w.stores[sid].logs
    ensures pending.Some? ==> Accounted(w', sid, id, pending.value)
  {
    var s, s' := w.stores[sid], w'.stores[sid];
    assert StoreOk(env, sid, w.remotes, s) && Coherent(s) && RemoteOk(env, w.remotes[remote]);
    CurrentIsCareful(env, w, sid, remote);
    hide RemoteOk, StoreOk, PublishStep, Coherent, Lossless, Careful, Inv, AllCoherent, Grows, SlotAt;
    RemoteStepKeeps(env, w, w', sid, remote);
    PublishKeepsLogs(env, sid, remote, s, w.remotes[remote], s', w'.remotes[remote]);
    if pending.Some? {
      if HereOf(s.writer, id).pending == pending && !Published(w.remotes[id], pending.value) {
        OwnStepAccounts(env, sid, w.remotes, remote, id, s, s', w'.remotes[remote], pending.value);
      } else if remote == id {
        PublishedStays(sid, w.remotes[id], w'.remotes[id], pending.value);
      }
    }
  }

  lemma PublishKeepsLogs(env: Env, sid: StoreId, id: RemoteId, s: Store, r: Remote, s': Store, r': Remote)
    requires WorksWith(s, id) && PublishStep(env, sid, id, s, r, s', r')
    ensures s'.logs == s.logs
  {
    hide LatestRef;
  }

  ghost predicate CurrentAt(w: World, sid: StoreId, id: RemoteId) {
    sid in w.stores && id in w.remotes && w.stores[sid].writer.unassigned == None
  }

  lemma CallSteps(env: Env, run: seq<World>, moves: seq<Move>, sid: StoreId, id: RemoteId, i: nat, j: nat, k: nat)
    requires OneCall(env, run, moves, sid, id, i, j) && i <= k < j
    ensures sid in run[k + 1].stores &&
            (!run[k + 1].stores[sid].job.Idle? || RemoteStep(env, run[k], run[k + 1], sid, id))
  {
    hide RemoteStep;
  }

  ghost predicate CallKeeps(w: World, logs: Ledger, sid: StoreId, id: RemoteId, pending: Option<Ref>) {
    sid in w.stores && w.stores[sid].logs == logs && (pending.Some? ==> Accounted(w, sid, id, pending.value))
  }

  lemma {:induction false} CallAccounts(env: Env, run: seq<World>, moves: seq<Move>, sid: StoreId, id: RemoteId,
                                        i: nat, j: nat, k: nat, logs: Ledger, pending: Option<Ref>)
    requires Lossless(env) && Run(env, run, moves) && OneCall(env, run, moves, sid, id, i, j) && i <= k <= j < |run|
    requires forall n | i <= n <= j :: CurrentAt(run[n], sid, id)
    requires CallKeeps(run[i], logs, sid, id, pending)
    ensures CallKeeps(run[k], logs, sid, id, pending)
    decreases k
  {
    hide *;
    if k > i {
      CallAccounts(env, run, moves, sid, id, i, j, k - 1, logs, pending);
      var w, w' := StepOfRun(env, run, moves, k - 1);
      RunIsCoherent(env, run, moves, k - 1);
      CallSteps(env, run, moves, sid, id, i, j, k - 1);
      assert CurrentAt(w, sid, id);
      CallKeepsStep(env, w, w', moves[k - 1], sid, id, logs, pending);
    }
  }

  lemma CallKeepsStep(env: Env, w: World, w': World, m: Move, sid: StoreId, id: RemoteId, logs: Ledger,
                      pending: Option<Ref>)
    requires Lossless(env) && Inv(env, w) && AllCoherent(w) && Moved(env, w, w', m) && CurrentAt(w, sid, id) &&
             sid in w'.stores
    requires !w'.stores[sid].job.Idle? || RemoteStep(env, w, w', sid, id)
    requires CallKeeps(w, logs, sid, id, pending)
    ensures CallKeeps(w', logs, sid, id, pending)
  {
    hide Inv, Moved, AllCoherent, RemoteStep, Accounted;
    CallStep(env, w, w', m, sid, id, pending);
  }

  /** What a call that settles leaves: the store is alone, nothing is pending, its last ref is the tip and holds exactly
      the logs it had when the call began, and a ref that was pending then is on the remote. */
  ghost predicate SettledCall(env: Env, before: World, after: World, sid: StoreId, id: RemoteId) {
    && sid in before.stores && SoloWorld(env, after, sid, id)
    && SettledHere(env, after.stores[sid], id, TipOf(after, sid, id))
    && after.stores[sid].logs == before.stores[sid].logs
    && var pending := HereOf(before.stores[sid].writer, id).pending;
       pending.Some? ==> Published(after.remotes[id], pending.value)
  }

  /** After any crashes at any steps, the next call of `publish` settles, whoever else is at work meanwhile. */
  lemma PublishSettles(env: Env, run: seq<World>, moves: seq<Move>, sid: StoreId, writer: Writer, id: RemoteId,
                       b: nat, i: nat, j: nat)
    requires Lossless(env) && RootsStandAlone(env) && Run(env, run, moves) && id in run[0].remotes
    requires Sole(run, moves, sid, writer, id, b) && b <= i && OneCall(env, run, moves, sid, id, i, j)
    ensures SettledCall(env, run[i], run[j], sid, id)
  {
    hide *;
    CallBounds(env, run, moves, sid, id, i, j);
    SoleStaysSolo(env, run, moves, sid, writer, id, b, j - 1);
    SoleStaysSolo(env, run, moves, sid, writer, id, b, j);
    LastStepIsAtomic(env, run, moves, sid, writer, id, b, i, j);
    SoloHolds(env, run[j], sid, id);
    SoleOwnStep(env, run[j - 1], run[j], sid, id);
    CurrentThroughout(env, run, moves, sid, writer, id, b, i, j);
    var pending := HereOf(run[i].stores[sid].writer, id).pending;
    CallBegins(run[i], sid, id, pending);
    CallAccounts(env, run, moves, sid, id, i, j, j, run[i].stores[sid].logs, pending);
    CallEnds(env, run[i], run[j], sid, id, pending);
  }

  lemma CurrentThroughout(env: Env, run: seq<World>, moves: seq<Move>, sid: StoreId, writer: Writer, id: RemoteId,
                          b: nat, i: nat, j: nat)
    requires Lossless(env) && RootsStandAlone(env) && Run(env, run, moves) && id in run[0].remotes
    requires Sole(run, moves, sid, writer, id, b) && b <= i <= j < |run|
    ensures forall n | i <= n <= j :: CurrentAt(run[n], sid, id)
  {
    hide *;
    forall n | i <= n <= j ensures CurrentAt(run[n], sid, id) {
      SoleStaysSolo(env, run, moves, sid, writer, id, b, n);
      SoloIsCurrent(env, run[n], sid, id);
    }
  }

  lemma CallBounds(env: Env, run: seq<World>, moves: seq<Move>, sid: StoreId, id: RemoteId, i: nat, j: nat)
    requires OneCall(env, run, moves, sid, id, i, j)
    ensures i < j < |run| && sid in run[i].stores && sid in run[j].stores && run[j].stores[sid].job.Idle?
  {
  }

  lemma SoloHolds(env: Env, w: World, sid: StoreId, id: RemoteId)
    requires SoloWorld(env, w, sid, id)
    ensures Inv(env, w) && AllCoherent(w) && sid in w.stores && id in w.remotes
  {
  }

  lemma CallBegins(w: World, sid: StoreId, id: RemoteId, pending: Option<Ref>)
    requires CurrentAt(w, sid, id) && pending == HereOf(w.stores[sid].writer, id).pending
    ensures CallKeeps(w, w.stores[sid].logs, sid, id, pending)
  {
  }

  lemma CallEnds(env: Env, before: World, after: World, sid: StoreId, id: RemoteId, pending: Option<Ref>)
    requires sid in before.stores && pending == HereOf(before.stores[sid].writer, id).pending
    requires CallKeeps(after, before.stores[sid].logs, sid, id, pending) && SoloWorld(env, after, sid, id)
    requires SettledHere(env, after.stores[sid], id, TipOf(after, sid, id))
    ensures SettledCall(env, before, after, sid, id)
  {
    hide Inv, AllCoherent, Solo, TipOf;
  }

  lemma LastStepIsAtomic(env: Env, run: seq<World>, moves: seq<Move>, sid: StoreId, writer: Writer, id: RemoteId,
                         b: nat, i: nat, j: nat)
    requires Sole(run, moves, sid, writer, id, b) && b <= i && OneCall(env, run, moves, sid, id, i, j)
    ensures RemoteStep(env, run[j - 1], run[j], sid, id) && AtomicStep(run[j - 1].stores[sid], run[j].stores[sid])
    ensures run[j].stores[sid].job.Idle?
  {
    assert AtomicMove(run[j - 1], run[j - 1 + 1], moves[j - 1], sid, id);
  }

  lemma SoloIsCurrent(env: Env, w: World, sid: StoreId, id: RemoteId)
    requires SoloWorld(env, w, sid, id)
    ensures CurrentAt(w, sid, id)
  {
  }
}
