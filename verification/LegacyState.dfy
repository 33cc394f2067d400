/** Old publish state without a remote: when assigning it to a remote is safe, and a case where it is not. */
module LegacyState {
  import opened Wrappers
  import opened Merkle
  import opened Slots
  import opened Replica
  import opened ReplicaSafety
  import opened ReplicaTheorems

  /** Unassigned state that moves to this remote fits it exactly when the move is careful. */
  lemma MoveFitsIff(env: Env, remotes: map<RemoteId, Remote>, state: WriterState, logs: Ledger, remote: RemoteId,
                    tip: Option<Ref>)
    requires StateOk(env, remotes, state, logs) && remote in remotes && RemoteOk(env, remotes[remote])
    requires tip.Some? ==> tip.value.writer == state.id && Published(remotes[remote], tip.value)
    ensures StateOk(env, remotes, Adopt(state, remote, tip), logs) <==>
              CarefulMove(env, remotes[remote], state, remote, tip)
  {
    if CarefulMove(env, remotes[remote], state, remote, tip) {
      AdoptOk(env, remotes, state, logs, remote, tip);
    } else {
      assert remote in Adopt(state, remote, tip).remotes;
    }
  }

  // ----- what a move can do to the remote -----

  /** Every complete ref has its packs and the blobs its claims name. */
  ghost predicate RefsAreWhole(env: Env, r: Remote) {
    forall w: Writer, k: nat :: SlotAt(r, w, k).Complete? ==> Durable(env, r, SlotAt(r, w, k).value)
  }

  /** The steps of one call of `publish`, as far as they get. */
  ghost predicate CallPath(env: Env, path: seq<World>, sid: StoreId, id: RemoteId) {
    && path != [] && sid in path[0].stores && id in path[0].remotes
    && forall i: nat :: i + 1 < |path| ==> CallMove(env, path, i, sid, id)
  }

  ghost predicate CallMove(env: Env, path: seq<World>, i: nat, sid: StoreId, id: RemoteId)
    requires i + 1 < |path|
  {
    RemoteStep(env, path[i], path[i + 1], sid, id) && (path[i].stores[sid].job.Idle? <==> i == 0)
  }

  /** However the next call goes, and wherever it stops, it leaves no ref without its packs and blobs. */
  ghost predicate CallsKeepRefsWhole(env: Env, w: World, sid: StoreId, id: RemoteId) {
    forall path: seq<World> :: path != [] && CallPath(env, path, sid, id) && path[0] == w ==>
             LeavesRefsWhole(env, path[|path| - 1], id)
  }

  ghost predicate LeavesRefsWhole(env: Env, w: World, id: RemoteId) {
    id in w.remotes && RefsAreWhole(env, w.remotes[id])
  }

  lemma SoundRefsAreWhole(env: Env, r: Remote)
    requires RemoteOk(env, r)
    ensures RefsAreWhole(env, r)
  {
    forall w: Writer, k: nat | SlotAt(r, w, k).Complete? ensures Durable(env, r, SlotAt(r, w, k).value) {
      assert SlotOk(env, r, w, k);
    }
  }

  lemma {:induction false} CarefulCallKeepsInv(env: Env, path: seq<World>, sid: StoreId, id: RemoteId)
    requires Lossless(env) && CallPath(env, path, sid, id) && Inv(env, path[0]) && Careful(env, path[0], sid, id)
    ensures Inv(env, path[|path| - 1]) && id in path[|path| - 1].remotes
    decreases |path|
  {
    hide RemoteStep, Inv, Careful, Lossless;
    if |path| > 1 {
      var front := path[..|path| - 1];
      FrontIsCall(env, path, sid, id);
      CarefulCallKeepsInv(env, front, sid, id);
      var k: nat := |path| - 2;
      assert CallMove(env, path, k, sid, id);
      if k > 0 { LaterStepIsCareful(env, path, k, sid, id); }
      RemoteStepKeeps(env, path[k], path[k + 1], sid, id);
      StepHasRemote(env, path[k], path[k + 1], sid, id);
    }
  }

  lemma FrontIsCall(env: Env, path: seq<World>, sid: StoreId, id: RemoteId)
    requires CallPath(env, path, sid, id) && |path| > 1
    ensures CallPath(env, path[..|path| - 1], sid, id)
  {
    hide RemoteStep;
    var front := path[..|path| - 1];
    forall i: nat | i + 1 < |front| ensures CallMove(env, front, i, sid, id) {
      assert CallMove(env, path, i, sid, id);
    }
  }

  lemma LaterStepIsCareful(env: Env, path: seq<World>, k: nat, sid: StoreId, id: RemoteId)
    requires 0 < k && k + 1 < |path| && CallMove(env, path, k, sid, id)
    ensures Careful(env, path[k], sid, id)
  {
    hide PublishStep, LatestRef;
  }

  lemma StepHasRemote(env: Env, w: World, w': World, sid: StoreId, id: RemoteId)
    requires RemoteStep(env, w, w', sid, id)
    ensures id in w'.remotes && sid in w'.stores
  {
    hide PublishStep;
  }

  /** The state in memory once the call has moved the old state here. */
  function MovedAttempt(s: WriterState, id: RemoteId, tip: Option<Ref>): Attempt
    requires Moves(s, id, tip)
  {
    Attempt(id, Adopt(s, id, tip), s.unassigned.value, tip)
  }

  /** Old state with a pending ref that this remote does not have what it takes for. */
  ghost predicate CarelessAt(env: Env, w: World, sid: StoreId, id: RemoteId, tip: Option<Ref>) {
    && sid in w.stores && id in w.remotes && w.stores[sid].job.Idle?
    && LatestRef(w.remotes[id], w.stores[sid].writer.id) == Success(tip)
    && Moves(w.stores[sid].writer, id, tip)
    && !CarefulMove(env, w.remotes[id], w.stores[sid].writer, id, tip)
  }

  /** What is known of such a ref: it comes right after the tip, and was built by `publish`. */
  lemma CarelessPending(env: Env, w: World, sid: StoreId, id: RemoteId, tip: Option<Ref>) returns (p: Ref)
    requires Inv(env, w) && CarelessAt(env, w, sid, id, tip)
    ensures w.stores[sid].writer.unassigned.value.pending == Some(p)
    ensures p.writer == w.stores[sid].writer.id && p.previous == tip == w.stores[sid].writer.unassigned.value.last
    ensures p.sequence == SequenceOf(tip) + 1 && tip != Some(p) && !Durable(env, w.remotes[id], p)
    ensures var slot := SlotAt(w.remotes[id], p.writer, p.sequence); !slot.Complete? && slot != Reserved(p)
  {
    var s, r := w.stores[sid], w.remotes[id];
    p := s.writer.unassigned.value.pending.value;
    assert StoreOk(env, sid, w.remotes, s);
    var x :| x in w.remotes && HereOk(env, w.remotes[x], s.writer.id, s.logs, s.writer.unassigned.value);
    assert GoodRef(env, p);
    LatestRefFindsTip(env, r, s.writer.id);
    assert SlotAt(r, s.writer.id, p.sequence).Complete? <==> 1 <= p.sequence <= SequenceOf(tip);
    assert SlotOk(env, r, s.writer.id, p.sequence);
  }

  /** Where a careless call is while it has not claimed anything. */
  ghost predicate CarelessStage(w: World, s: Store, sid: StoreId, id: RemoteId, r: Remote, tip: Option<Ref>, p: Ref)
    requires Moves(s.writer, id, tip)
  {
    && sid in w.stores && id in w.remotes && w.remotes[id] == r
    && var at, job := MovedAttempt(s.writer, id, tip), w.stores[sid].job;
       job.Idle? || (w.stores[sid].writer == s.writer && (job == Began(at) || job == Claiming(at, p, true, Trying)))
  }

  lemma CarelessStep(env: Env, w: World, w': World, s: Store, sid: StoreId, id: RemoteId, tip: Option<Ref>, p: Ref)
    requires Moves(s.writer, id, tip) && s.writer.unassigned.value.pending == Some(p)
    requires p.writer == s.writer.id && p.previous == tip == s.writer.unassigned.value.last && tip != Some(p)
    requires id in w.remotes && CarelessStage(w, s, sid, id, w.remotes[id], tip, p) && RemoteStep(env, w, w', sid, id)
    requires w.stores[sid].job.Idle? ==> w.stores[sid] == s && LatestRef(w.remotes[id], s.writer.id) == Success(tip)
    requires var slot := SlotAt(w.remotes[id], p.writer, p.sequence);
             !slot.Empty? && !slot.Complete? && slot != Reserved(p)
    ensures CarelessStage(w', s, sid, id, w.remotes[id], tip, p)
  {
    hide LatestRef;
  }

  lemma {:induction false} CarelessCallIsStopped(env: Env, path: seq<World>, sid: StoreId, id: RemoteId,
                                                 tip: Option<Ref>, p: Ref)
    requires CallPath(env, path, sid, id) && CarelessAt(env, path[0], sid, id, tip)
    requires var u := path[0].stores[sid].writer.unassigned.value;
             u.pending == Some(p) && p.writer == path[0].stores[sid].writer.id && p.previous == tip == u.last &&
               tip != Some(p)
    requires var slot := SlotAt(path[0].remotes[id], p.writer, p.sequence);
             !slot.Empty? && !slot.Complete? && slot != Reserved(p)
    ensures CarelessStage(path[|path| - 1], path[0].stores[sid], sid, id, path[0].remotes[id], tip, p)
    decreases |path|
  {
    hide RemoteStep, LatestRef, CarefulMove;
    if |path| > 1 {
      var front := path[..|path| - 1];
      FrontIsCall(env, path, sid, id);
      CarelessCallIsStopped(env, front, sid, id, tip, p);
      var k: nat := |path| - 2;
      assert CallMove(env, path, k, sid, id);
      CarelessStep(env, path[k], path[k + 1], path[0].stores[sid], sid, id, tip, p);
    }
  }

  /** The three steps that send a pending ref to a free slot. */
  lemma CarelessCallSends(env: Env, w: World, sid: StoreId, id: RemoteId, tip: Option<Ref>, p: Ref)
    returns (w1: World, w2: World, w3: World)
    requires CarelessAt(env, w, sid, id, tip)
    requires var u := w.stores[sid].writer.unassigned.value;
             u.pending == Some(p) && p.writer == w.stores[sid].writer.id && p.previous == tip == u.last &&
               tip != Some(p)
    requires SlotAt(w.remotes[id], p.writer, p.sequence).Empty?
    ensures CallPath(env, [w, w1, w2, w3], sid, id)
    ensures w3.remotes == w.remotes[id := WithSlot(w.remotes[id], p.writer, p.sequence, Complete(p))]
  {
    var s, r := w.stores[sid], w.remotes[id];
    var at := MovedAttempt(s.writer, id, tip);
    var s1, s2, s3 := s.(job := Began(at)), s.(job := Claiming(at, p, true, Trying)), s.(job := Claimed(at, p, true));
    var r' := WithSlot(r, p.writer, p.sequence, Complete(p));
    w1 := World(w.stores[sid := s1], w.remotes[id := r]);
    w2 := World(w1.stores[sid := s2], w1.remotes[id := r]);
    w3 := World(w2.stores[sid := s3], w2.remotes[id := r']);
    assert BeginStep(s, r, s1, id);
    assert ReconcileStep(s1, s2);
    assert ClaimMove(sid, p, SlotAt(r, p.writer, p.sequence), Trying, SlotAt(r', p.writer, p.sequence), Won);
    assert ClaimStep(sid, s2, r, s3, r');
    assert RemoteStep(env, w, w1, sid, id) && RemoteStep(env, w1, w2, sid, id) && RemoteStep(env, w2, w3, sid, id);
    var path := [w, w1, w2, w3];
    forall i: nat | i + 1 < |path| ensures CallMove(env, path, i, sid, id) {
      hide RemoteStep;
      assert i == 0 || i == 1 || i == 2;
    }
  }

  /** A call that moves old state leaves a ref without its packs or blobs, on some course, exactly when the move is not
      careful and the slot after the tip is free. */
  lemma MoveLosesIff(env: Env, w: World, sid: StoreId, id: RemoteId, tip: Option<Ref>)
    requires Lossless(env) && Inv(env, w) && sid in w.stores && id in w.remotes && w.stores[sid].job.Idle?
    requires LatestRef(w.remotes[id], w.stores[sid].writer.id) == Success(tip) && Moves(w.stores[sid].writer, id, tip)
    ensures CallsKeepRefsWhole(env, w, sid, id) <==>
            || CarefulMove(env, w.remotes[id], w.stores[sid].writer, id, tip)
            || !SlotAt(w.remotes[id], w.stores[sid].writer.id, SequenceOf(tip) + 1).Empty?
  {
    if CarefulMove(env, w.remotes[id], w.stores[sid].writer, id, tip) {
      CarefulCalls(env, w, sid, id);
    } else {
      var p := CarelessPending(env, w, sid, id, tip);
      if SlotAt(w.remotes[id], p.writer, p.sequence).Empty? {
        CarelessCalls(env, w, sid, id, tip, p);
      } else {
        StoppedCalls(env, w, sid, id, tip, p);
      }
    }
  }

  lemma CarefulCalls(env: Env, w: World, sid: StoreId, id: RemoteId)
    requires Lossless(env) && Inv(env, w) && Careful(env, w, sid, id)
    ensures CallsKeepRefsWhole(env, w, sid, id)
  {
    hide CallPath, Careful, RefsAreWhole;
    forall path: seq<World> | path != [] && CallPath(env, path, sid, id) && path[0] == w
      ensures LeavesRefsWhole(env, path[|path| - 1], id) {
      CarefulCallKeepsInv(env, path, sid, id);
      SoundRefsAreWhole(env, path[|path| - 1].remotes[id]);
    }
  }

  lemma CarelessCalls(env: Env, w: World, sid: StoreId, id: RemoteId, tip: Option<Ref>, p: Ref)
    requires CarelessAt(env, w, sid, id, tip) && !Durable(env, w.remotes[id], p)
    requires var u := w.stores[sid].writer.unassigned.value;
             u.pending == Some(p) && p.writer == w.stores[sid].writer.id && p.previous == tip == u.last &&
               tip != Some(p)
    requires SlotAt(w.remotes[id], p.writer, p.sequence).Empty?
    ensures !CallsKeepRefsWhole(env, w, sid, id)
  {
    var w1, w2, w3 := CarelessCallSends(env, w, sid, id, tip, p);
    hide CallPath, CarelessAt;
    var path := [w, w1, w2, w3];
    assert SlotAt(w3.remotes[id], p.writer, p.sequence) == Complete(p);
    assert !Durable(env, w3.remotes[id], p);
    assert !LeavesRefsWhole(env, path[|path| - 1], id);
    assert CallPath(env, path, sid, id) && path[0] == w;
  }

  lemma StoppedCalls(env: Env, w: World, sid: StoreId, id: RemoteId, tip: Option<Ref>, p: Ref)
    requires Inv(env, w) && CarelessAt(env, w, sid, id, tip)
    requires var u := w.stores[sid].writer.unassigned.value;
             u.pending == Some(p) && p.writer == w.stores[sid].writer.id && p.previous == tip == u.last &&
               tip != Some(p)
    requires var slot := SlotAt(w.remotes[id], p.writer, p.sequence);
             !slot.Empty? && !slot.Complete? && slot != Reserved(p)
    ensures CallsKeepRefsWhole(env, w, sid, id)
  {
    SoundRefsAreWhole(env, w.remotes[id]);
    hide CallPath, CarelessAt, RefsAreWhole, SlotAt;
    forall path: seq<World> | path != [] && CallPath(env, path, sid, id) && path[0] == w
      ensures LeavesRefsWhole(env, path[|path| - 1], id) {
      CarelessCallIsStopped(env, path, sid, id, tip, p);
    }
  }

  // ----- old state over runs -----

  /** A step after which the store's old state is no longer kept as such, the writer being the same. */
  ghost predicate GivesUp(w: World, w': World, sid: StoreId) {
    && sid in w.stores && sid in w'.stores && w.stores[sid].writer.id == w'.stores[sid].writer.id
    && w.stores[sid].writer.unassigned.Some? && w'.stores[sid].writer.unassigned.None?
  }

  /** Neither a fork nor a fall back to the old format. */
  ghost predicate SameFormat(w: World, w': World, sid: StoreId) {
    && sid in w.stores && sid in w'.stores && w.stores[sid].writer.id == w'.stores[sid].writer.id
    && (w.stores[sid].writer.unassigned.None? ==> w'.stores[sid].writer.unassigned.None?)
  }

  /** The step saved the old state, or what became of it, under the one remote it was publishing to. */
  ghost predicate GivenTo(w: World, w': World, sid: StoreId, remote: RemoteId) {
    && GivesUp(w, w', sid) && remote !in w.stores[sid].writer.remotes
    && remote in w'.stores[sid].writer.remotes
    && w'.stores[sid].writer.remotes == w.stores[sid].writer.remotes[remote := w'.stores[sid].writer.remotes[remote]]
    && var u, here := w.stores[sid].writer.unassigned.value, w'.stores[sid].writer.remotes[remote];
       here.last == u.last || here.last == u.pending
  }

  lemma PublishGives(env: Env, sid: StoreId, id: RemoteId, s: Store, r: Remote, s': Store, r': Remote)
    requires WorksWith(s, id) && PublishStep(env, sid, id, s, r, s', r') && Coherent(s) && s.writer.unassigned.Some?
    ensures s'.writer.unassigned == s.writer.unassigned || s'.writer.unassigned.None?
    ensures s'.writer.unassigned.None? ==>
              && id !in s.writer.remotes && id in s'.writer.remotes
              && s'.writer.remotes == s.writer.remotes[id := s'.writer.remotes[id]]
              && var u, here := s.writer.unassigned.value, s'.writer.remotes[id];
                 here.last == u.last || here.last == u.pending
  {
    hide LatestRef, RootedAt, NextRef, BlobsOf, SlotAt, Loadable, ClaimMove, Contains;
    if id in s'.writer.remotes {
      var here := s'.writer.remotes[id];
      assert s.writer.remotes[id := s.writer.unassigned.value][id := here] == s.writer.remotes[id := here];
    }
  }

  /** Old state stays what it is until one step saves it under the remote of that step. */
  lemma OldStateStep(env: Env, w: World, w': World, m: Move, sid: StoreId)
    requires NextBy(env, w, w', m) && AllCoherent(w) && SameFormat(w, w', sid)
    ensures GivesUp(w, w', sid) ==> m.store == sid && GivenTo(w, w', sid, m.remote)
    ensures !GivesUp(w, w', sid) ==> w'.stores[sid].writer.unassigned == w.stores[sid].writer.unassigned
  {
    hide PublishStep, StoreContentOk, Contains, Coherent;
    if m.store == sid && RemoteStep(env, w, w', sid, m.remote) && w.stores[sid].writer.unassigned.Some? {
      assert Coherent(w.stores[sid]);
      PublishGives(env, sid, m.remote, w.stores[sid], w.remotes[m.remote], w'.stores[sid], w'.remotes[m.remote]);
    }
  }

  /** From `i` to `j` the old state is still there, or one step has saved it, under one remote. */
  ghost predicate GivenOnce(run: seq<World>, moves: seq<Move>, sid: StoreId, i: nat, j: nat, given: Option<nat>)
    requires i <= j < |run| == |moves| + 1
  {
    && sid in run[i].stores && sid in run[j].stores
    && (given.None? ==> run[j].stores[sid].writer.unassigned == run[i].stores[sid].writer.unassigned)
    && (given.Some? ==>
          && i <= given.value < j && run[j].stores[sid].writer.unassigned == None
          && GivenTo(run[given.value], run[given.value + 1], sid, moves[given.value].remote))
    && forall k | i <= k < j :: GivesUp(run[k], run[k + 1], sid) <==> given == Some(k)
  }

  /** Over every run, through saves and crashes and whatever other stores do: old state reaches at most one remote. */
  lemma {:induction false} MovesOnce(env: Env, run: seq<World>, moves: seq<Move>, sid: StoreId, i: nat, j: nat)
    returns (given: Option<nat>)
    requires AnyRun(env, run, moves) && i <= j < |run| && sid in run[i].stores &&
             run[i].stores[sid].writer.unassigned.Some?
    requires forall k | i <= k < j :: SameFormat(run[k], run[k + 1], sid)
    ensures GivenOnce(run, moves, sid, i, j, given)
    decreases j
  {
    hide NextBy, AllCoherent, GivesUp, GivenTo;
    given := None;
    if i < j {
      var before := MovesOnce(env, run, moves, sid, i, j - 1);
      AnyRunIsCoherent(env, run, moves, j - 1);
      assert NextBy(env, run[j - 1], run[j - 1 + 1], moves[j - 1]);
      assert SameFormat(run[j - 1], run[j - 1 + 1], sid);
      OldStateStep(env, run[j - 1], run[j], moves[j - 1], sid);
      GivesUpIs(run[j - 1], run[j], sid);
      given := if GivesUp(run[j - 1], run[j], sid) then Some(j - 1) else before;
      forall k | i <= k < j ensures GivesUp(run[k], run[k + 1], sid) <==> given == Some(k) {
        if k == j - 1 { assert run[k + 1] == run[j]; }
      }
    }
  }

  lemma GivesUpIs(w: World, w': World, sid: StoreId)
    ensures GivesUp(w, w', sid) ==> sid in w.stores && sid in w'.stores
    ensures GivesUp(w, w', sid) ==> w.stores[sid].writer.unassigned.Some? && w'.stores[sid].writer.unassigned == None
  {
  }
}
