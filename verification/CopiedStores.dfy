/** Copies of one store publishing under one writer ID: the slower copy adds nothing until it forks. */
module CopiedStores {
  import opened Wrappers
  import opened Merkle
  import opened Slots
  import opened Replica
  import opened ReplicaSafety
  import opened ReplicaTheorems

  /** Somebody else's ref is where this state's next ref would go, or already beyond it. */
  ghost predicate Overtaken(r: Remote, w: Writer, here: Here) {
    var k := SequenceOf(here.last) + 1;
    || (SlotAt(r, w, k).Complete? && here.pending != Some(SlotAt(r, w, k).value))
    || SlotAt(r, w, k + 1).Complete?
  }

  /** Being overtaken means that the tip is neither the last ref nor the pending one. */
  lemma OvertakenIffTip(env: Env, r: Remote, w: Writer, logs: Ledger, here: Here, tip: Option<Ref>)
    requires RemoteOk(env, r) && HereOk(env, r, w, logs, here) && IsTip(r, w, tip)
    ensures Overtaken(r, w, here) <==> tip != here.last && tip != here.pending
  {
    var k := SequenceOf(here.last) + 1;
    LastIsBelowTip(env, r, w, logs, here, tip);
    if here.pending.Some? { PendingIsNext(env, r, w, logs, here); }
    hide RemoteOk, HereOk;
    assert SlotAt(r, w, k).Complete? <==> 1 <= k <= SequenceOf(tip);
    assert SlotAt(r, w, k + 1).Complete? <==> 1 <= k + 1 <= SequenceOf(tip);
    assert SequenceOf(tip) == k ==> SlotAt(r, w, k) == Complete(tip.value);
  }

  lemma PendingIsNext(env: Env, r: Remote, w: Writer, logs: Ledger, here: Here)
    requires HereOk(env, r, w, logs, here) && here.pending.Some?
    ensures here.pending.value.writer == w && here.pending.value.sequence == SequenceOf(here.last) + 1
  {
    assert GoodRef(env, here.pending.value);
  }

  lemma LastIsBelowTip(env: Env, r: Remote, w: Writer, logs: Ledger, here: Here, tip: Option<Ref>)
    requires RemoteOk(env, r) && HereOk(env, r, w, logs, here) && IsTip(r, w, tip)
    ensures SequenceOf(here.last) <= SequenceOf(tip)
    ensures SequenceOf(here.last) == SequenceOf(tip) ==> here.last == tip
  {
    if here.last.Some? {
      var k := here.last.value.sequence;
      assert SlotOk(env, r, w, k);
      assert SlotAt(r, w, k).Complete? <==> 1 <= k <= SequenceOf(tip);
    }
    if tip.Some? { assert SlotOk(env, r, w, tip.value.sequence); }
  }

  /** A copy that was overtaken on `id`, as its files tell: idle, or anywhere in a publish. */
  ghost predicate OvertakenStore(r: Remote, s: Store, id: RemoteId) {
    s.writer.unassigned == None && Overtaken(r, s.writer.id, HereOf(s.writer, id))
  }

  ghost predicate SameSlots(r: Remote, r': Remote) {
    forall w: Writer, k: nat :: SlotAt(r', w, k) == SlotAt(r, w, k)
  }

  /** The pending ref is, byte for byte, the tip that overtook the store. */
  ghost predicate PendingIsTip(r: Remote, w: Writer, here: Here) {
    && here.pending.Some? && here.pending.value.writer == w && Published(r, here.pending.value)
    && !SlotAt(r, w, here.pending.value.sequence + 1).Complete?
  }

  lemma OvertakenElsewhere(sid: StoreId, r: Remote, r': Remote, s: Store, id: RemoteId)
    requires OvertakenStore(r, s, id) && Grows(sid, r, r')
    ensures OvertakenStore(r', s, id)
  {
    var k := SequenceOf(HereOf(s.writer, id).last) + 1;
    assert SlotGrows(sid, SlotAt(r, s.writer.id, k), SlotAt(r', s.writer.id, k));
    assert SlotGrows(sid, SlotAt(r, s.writer.id, k + 1), SlotAt(r', s.writer.id, k + 1));
  }

  /** The facts about a publish in progress on `id` that its steps need. */
  lemma InFlight(env: Env, sid: StoreId, remotes: map<RemoteId, Remote>, s: Store)
    requires StoreOk(env, sid, remotes, s) && Coherent(s) && !s.job.Idle? && s.writer.unassigned == None
    ensures s.job.at.remote in remotes && s.job.at.state == s.writer &&
            s.job.at.here == HereOf(s.writer, s.job.at.remote)
    ensures HereOk(env, remotes[s.job.at.remote], s.writer.id, s.logs, s.job.at.here)
    ensures s.job.Claiming? || s.job.Claimed? ==> s.job.at.here.pending == Some(s.job.next)
    ensures s.job.Packed? ==>
              s.job.next.sequence == SequenceOf(s.job.at.here.last) + 1 && s.job.next.writer == s.writer.id
  {
    hide RemoteOk, LedgerOk, BlobsOf, Contains;
    if s.job.Packed? { assert GoodRef(env, s.job.next); }
  }

  /** On the slot it was overtaken at, an attempt finds the slot complete and leaves it so. */
  lemma OvertakenClaim(env: Env, sid: StoreId, remotes: map<RemoteId, Remote>, s: Store, s': Store, r': Remote)
    requires StoreOk(env, sid, remotes, s) && s.job.Claiming? && Coherent(s)
    requires s.job.at.remote in remotes && RemoteOk(env, remotes[s.job.at.remote])
    requires OvertakenStore(remotes[s.job.at.remote], s, s.job.at.remote)
    requires ClaimStep(sid, s, remotes[s.job.at.remote], s', r')
    ensures r' == remotes[s.job.at.remote]
  {
    var r, w, here, next := remotes[s.job.at.remote], s.writer.id, s.job.at.here, s.job.next;
    InFlight(env, sid, remotes, s);
    PendingIsNext(env, r, w, s.logs, here);
    assert SlotOk(env, r, w, next.sequence + 1);
  }

  lemma OvertakenSave(env: Env, sid: StoreId, remotes: map<RemoteId, Remote>, id: RemoteId, s: Store, s': Store)
    requires id in remotes && RemoteOk(env, remotes[id]) && StoreOk(env, sid, remotes, s) && Coherent(s)
    requires OvertakenStore(remotes[id], s, id) && s.job.Packed? && s.job.at.remote == id && SaveStep(s, s')
    ensures OvertakenStore(remotes[id], s', id) || PendingIsTip(remotes[id], s'.writer.id, HereOf(s'.writer, id))
  {
    InFlight(env, sid, remotes, s);
    hide RemoteOk, StoreOk;
    var k := SequenceOf(s.job.at.here.last) + 1;
    var here := s.job.at.here.(pending := Some(s.job.next));
    assert HereOf(s'.writer, id) == here;
    assert s'.writer.unassigned == None;
  }

  /** A saved step to the next ref: what overtook the pending ref lies beyond it. */
  lemma OvertakenAdvance(env: Env, r: Remote, w: Writer, logs: Ledger, here: Here, p: Ref)
    requires RemoteOk(env, r) && HereOk(env, r, w, logs, here) && here.pending == Some(p) && Published(r, p)
    requires Overtaken(r, w, here)
    ensures Overtaken(r, w, Here(Some(p), None))
  {
    PendingIsNext(env, r, w, logs, here);
  }

  /** A step of an overtaken store's publish leaves every slot alone, at every stage. */
  lemma OvertakenPublish(env: Env, sid: StoreId, remotes: map<RemoteId, Remote>, id: RemoteId, s: Store, s': Store,
                         r': Remote)
    requires id in remotes && RemoteOk(env, remotes[id]) && StoreOk(env, sid, remotes, s) && Coherent(s)
    requires OvertakenStore(remotes[id], s, id)
    requires WorksWith(s, id) && PublishStep(env, sid, id, s, remotes[id], s', r')
    ensures SameSlots(remotes[id], r')
    ensures OvertakenStore(r', s', id) || PendingIsTip(r', s'.writer.id, HereOf(s'.writer, id))
  {
    OvertakenStage(env, sid, remotes, id, s, s', r');
    hide *;
    SameSlotsOvertaken(remotes[id], r', s', id);
  }

  lemma SameSlotsOvertaken(r: Remote, r': Remote, s: Store, id: RemoteId)
    requires SameSlots(r, r')
    ensures OvertakenStore(r, s, id) ==> OvertakenStore(r', s, id)
    ensures PendingIsTip(r, s.writer.id, HereOf(s.writer, id)) ==> PendingIsTip(r', s.writer.id, HereOf(s.writer, id))
  {
    var k := SequenceOf(HereOf(s.writer, id).last) + 1;
    assert SlotAt(r', s.writer.id, k) == SlotAt(r, s.writer.id, k);
    assert SlotAt(r', s.writer.id, k + 1) == SlotAt(r, s.writer.id, k + 1);
  }

  lemma OvertakenStage(env: Env, sid: StoreId, remotes: map<RemoteId, Remote>, id: RemoteId, s: Store, s': Store,
                       r': Remote)
    requires id in remotes && RemoteOk(env, remotes[id]) && StoreOk(env, sid, remotes, s) && Coherent(s)
    requires OvertakenStore(remotes[id], s, id)
    requires WorksWith(s, id) && PublishStep(env, sid, id, s, remotes[id], s', r')
    ensures SameSlots(remotes[id], r')
    ensures OvertakenStore(remotes[id], s', id) || PendingIsTip(remotes[id], s'.writer.id, HereOf(s'.writer, id))
  {
    hide RootedAt, Loadable, LedgerOk, Contains, BlobsOf, Overtaken;
    var r, w := remotes[id], s.writer.id;
    if !s.job.Idle? {
      InFlight(env, sid, remotes, s);
      var at := s.job.at;
      if s.job.Claiming? {
        OvertakenClaim(env, sid, remotes, s, s', r');
      } else if s.job.Packed? {
        OvertakenSave(env, sid, remotes, id, s, s');
      } else if s.job.Claimed? || (s.job.Began? && at.here.pending.Some? && at.tip == at.here.pending) {
        OvertakenAdvance(env, r, w, s.logs, at.here, at.here.pending.value);
      }
    }
  }

  /** Publishing to another remote leaves this remote's state alone. */
  lemma OvertakenAway(env: Env, sid: StoreId, remote: RemoteId, id: RemoteId, r: Remote, s: Store, s': Store,
                      other: Remote, other': Remote)
    requires remote != id && OvertakenStore(r, s, id) && Coherent(s)
    requires WorksWith(s, remote) && PublishStep(env, sid, remote, s, other, s', other')
    ensures OvertakenStore(r, s', id)
  {
    hide Overtaken, LatestRef, RootedAt, NextRef, BlobsOf, SlotAt, Loadable, ClaimMove;
    assert s'.writer.id == s.writer.id && HereOf(s'.writer, id) == HereOf(s.writer, id);
  }

  ghost predicate OvertakenWorld(w: World, victim: StoreId, id: RemoteId) {
    victim in w.stores && id in w.remotes && OvertakenStore(w.remotes[id], w.stores[victim], id)
  }

  /** What can free a store: a fork, old publish state, or a pending ref that is the tip byte for byte. */
  ghost predicate Freed(w: World, victim: StoreId, writer: Writer, id: RemoteId) {
    && victim in w.stores && id in w.remotes
    && var s := w.stores[victim].writer;
       s.id != writer || s.unassigned.Some? || PendingIsTip(w.remotes[id], writer, HereOf(s, id))
  }

  /** A step of an overtaken store adds no ref to the remote; whatever step anyone takes, it stays overtaken or is
      freed. */
  lemma OvertakenAddsNothing(env: Env, w: World, w': World, m: Move, victim: StoreId, id: RemoteId)
    requires Lossless(env) && Inv(env, w) && AllCoherent(w) && Moved(env, w, w', m)
    requires OvertakenWorld(w, victim, id)
    ensures OvertakenWorld(w', victim, id) || Freed(w', victim, w.stores[victim].writer.id, id)
    ensures m.store == victim ==> SameSlots(w.remotes[id], w'.remotes[id])
  {
    hide RemoteOk, PublishStep, LedgerOk, Lossless, SlotAt, Overtaken, Coherent, PendingIsTip;
    if RemoteStep(env, w, w', m.store, m.remote) {
      RemoteStepKeeps(env, w, w', m.store, m.remote);
      assert StoreOk(env, victim, w.remotes, w.stores[victim]);
      if m.store == victim && m.remote == id {
        OvertakenPublish(env, victim, w.remotes, id, w.stores[victim], w'.stores[victim], w'.remotes[id]);
        PublishKeepsWriter(env, victim, id, w.stores[victim], w.remotes[id], w'.stores[victim], w'.remotes[id]);
      } else if m.store == victim {
        OvertakenAway(env, victim, m.remote, id, w.remotes[id], w.stores[victim], w'.stores[victim],
                      w.remotes[m.remote], w'.remotes[m.remote]);
      } else if m.remote == id {
        OvertakenElsewhere(m.store, w.remotes[id], w'.remotes[id], w'.stores[victim], id);
      }
    }
  }

  /** Over a whole run: once a copy is overtaken, at whatever stage, no step of it ever adds a ref until it is freed. */
  lemma {:induction false} OvertakenUntilFork(env: Env, run: seq<World>, moves: seq<Move>, i: nat, j: nat,
                                              victim: StoreId, writer: Writer, id: RemoteId)
    requires Lossless(env) && Run(env, run, moves) && i <= j < |run|
    requires OvertakenWorld(run[i], victim, id) && run[i].stores[victim].writer.id == writer
    requires forall k | i < k <= j :: !Freed(run[k], victim, writer, id)
    ensures OvertakenWorld(run[j], victim, id) && run[j].stores[victim].writer.id == writer
    ensures forall k | i <= k < j && moves[k].store == victim :: SlotsStay(run[k], run[k + 1], id)
    decreases j
  {
    hide *;
    if i < j {
      OvertakenUntilFork(env, run, moves, i, j - 1, victim, writer, id);
      var w, w' := StepOfRun(env, run, moves, j - 1);
      RunIsCoherent(env, run, moves, j - 1);
      OvertakenMove(env, w, w', moves[j - 1], victim, writer, id);
    }
  }

  ghost predicate SlotsStay(w: World, w': World, id: RemoteId) {
    id in w.remotes && id in w'.remotes && SameSlots(w.remotes[id], w'.remotes[id])
  }

  lemma OvertakenMove(env: Env, w: World, w': World, m: Move, victim: StoreId, writer: Writer, id: RemoteId)
    requires Lossless(env) && Inv(env, w) && AllCoherent(w) && Moved(env, w, w', m)
    requires OvertakenWorld(w, victim, id) && w.stores[victim].writer.id == writer
    requires !Freed(w', victim, writer, id)
    ensures OvertakenWorld(w', victim, id) && w'.stores[victim].writer.id == writer
    ensures m.store == victim ==> SlotsStay(w, w', id)
  {
    hide Moved, Inv, AllCoherent, OvertakenStore;
    OvertakenAddsNothing(env, w, w', m, victim, id);
  }
}
