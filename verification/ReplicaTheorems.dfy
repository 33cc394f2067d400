/** What the protocol's invariant means for chains, copied stores and retries. */
module ReplicaTheorems {
  import opened Wrappers
  import opened Merkle
  import opened Slots
  import opened Replica
  import opened ReplicaSafety

  // ----- chains -----

  /** Along a writer's chain the pack list only extends and the claims only grow. */
  lemma {:induction false} ChainGrows(env: Env, r: Remote, w: Writer, j: nat, k: nat)
    requires RemoteOk(env, r) && j <= k && SlotAt(r, w, j).Complete? && SlotAt(r, w, k).Complete?
    ensures var early, late := SlotAt(r, w, j).value, SlotAt(r, w, k).value;
            && early.packs <= late.packs
            && Contains(LedgerOf(env, late), LedgerOf(env, early))
    decreases k
  {
    assert SlotOk(env, r, w, j);
    if j == k {
      ContainsItself(LedgerOf(env, SlotAt(r, w, k).value));
    } else {
      PredecessorIsBelow(env, r, w, k);
      ChainGrows(env, r, w, j, k - 1);
      assert SlotOk(env, r, w, k);
      var late, middle := SlotAt(r, w, k).value, SlotAt(r, w, k - 1).value;
      assert GoodRef(env, late) && late.previous == Some(middle);
      ContainsTransitive(LedgerOf(env, late), LedgerOf(env, middle), LedgerOf(env, SlotAt(r, w, j).value));
    }
  }

  /** Whole chain: numbered from 1 without gaps, each ref naming the one before it; only the end can be unfinished. */
  lemma ChainIsSound(env: Env, r: Remote, w: Writer, k: nat)
    requires RemoteOk(env, r) && SlotAt(r, w, k) != Empty
    ensures k >= 1 && forall j: nat | 1 <= j < k :: SlotAt(r, w, j).Complete?
    ensures SlotAt(r, w, k).Complete? ==>
              Links(w, k, if k > 1 then Some(SlotAt(r, w, k - 1).value) else None, SlotAt(r, w, k).value)
  {
    assert SlotOk(env, r, w, k);
    forall j: nat | 1 <= j < k ensures SlotAt(r, w, j).Complete? {
      ChainHasNoGaps(env, r, w, j, k);
    }
    if SlotAt(r, w, k).Complete? { PredecessorIsBelow(env, r, w, k); }
  }

  lemma TipIsUnique(r: Remote, w: Writer, a: Option<Ref>, b: Option<Ref>)
    requires IsTip(r, w, a) && IsTip(r, w, b)
    requires a.Some? ==> a.value.sequence >= 1
    requires b.Some? ==> b.value.sequence >= 1
    ensures a == b
  {
    assert SlotAt(r, w, SequenceOf(a)).Complete? <==> 1 <= SequenceOf(a) <= SequenceOf(b);
    assert SlotAt(r, w, SequenceOf(b)).Complete? <==> 1 <= SequenceOf(b) <= SequenceOf(a);
  }

  lemma TipAgain(env: Env, r: Remote, w: Writer, tip: Option<Ref>)
    requires RemoteOk(env, r) && IsTip(r, w, tip)
    ensures LatestRef(r, w) == Success(tip)
  {
    LatestRefFindsTip(env, r, w);
    var found := LatestRef(r, w).value;
    if tip.Some? { assert SlotOk(env, r, w, tip.value.sequence); }
    if found.Some? { assert SlotOk(env, r, w, found.value.sequence); }
    TipIsUnique(r, w, tip, found);
  }

  lemma StepOfRun(env: Env, run: seq<World>, moves: seq<Move>, k: nat) returns (w: World, w': World)
    requires Lossless(env) && Run(env, run, moves) && k + 1 < |run|
    ensures k < |moves| && w == run[k] && w' == run[k + 1] && Inv(env, w) && Moved(env, w, w', moves[k])
  {
    RunKeepsInv(env, run, moves, k);
    w, w' := run[k], run[k + 1];
  }

  /** What is published stays published, at every later point of a run. */
  lemma {:induction false} PublishedForever(env: Env, run: seq<World>, moves: seq<Move>, i: nat, j: nat, id: RemoteId,
                                            reference: Ref)
    requires Lossless(env) && Run(env, run, moves) && i <= j < |run|
    requires id in run[i].remotes && Published(run[i].remotes[id], reference)
    ensures id in run[j].remotes && Published(run[j].remotes[id], reference)
    decreases j
  {
    hide *;
    if i < j {
      PublishedForever(env, run, moves, i, j - 1, id, reference);
      var w, w' := StepOfRun(env, run, moves, j - 1);
      PublishedMove(env, w, w', moves[j - 1], id, reference);
    }
  }

  lemma PublishedMove(env: Env, w: World, w': World, m: Move, id: RemoteId, reference: Ref)
    requires Lossless(env) && Inv(env, w) && Moved(env, w, w', m)
    requires id in w.remotes && Published(w.remotes[id], reference)
    ensures id in w'.remotes && Published(w'.remotes[id], reference)
  {
    hide RemoteOk, StoreOk, PublishStep;
    if RemoteStep(env, w, w', m.store, m.remote) {
      RemoteStepKeeps(env, w, w', m.store, m.remote);
      if m.remote == id { PublishedStays(m.store, w.remotes[id], w'.remotes[id], reference); }
    }
  }

  /** A store without old publish state moves none. */
  lemma CurrentIsCareful(env: Env, w: World, sid: StoreId, remote: RemoteId)
    requires sid in w.stores && w.stores[sid].writer.unassigned == None
    ensures Careful(env, w, sid, remote)
  {
    hide RemoteOk, LatestRef;
  }

  // ----- a publish in progress is never refused for what it already published -----

  /** When the last ref is the tip, the prior ledger loads and `ensure_prior_claims` passes. */
  lemma CaptureProceeds(env: Env, w: World, sid: StoreId, s': Store)
    requires Inv(env, w) && sid in w.stores && w.stores[sid].job.Settled?
    requires w.stores[sid].job.at.tip == w.stores[sid].job.at.here.last
    requires CaptureStep(env, w.stores[sid], w.remotes[w.stores[sid].job.at.remote], s')
    ensures s'.job.Uploading?
  {
    var s := w.stores[sid];
    assert StoreOk(env, sid, w.remotes, s);
    var at := s.job.at;
    var r := w.remotes[at.remote];
    if at.tip.Some? {
      assert SlotOk(env, r, s.writer.id, at.tip.value.sequence);
      ReadyLoads(env, r, s.writer.id, at.tip.value);
    }
  }

  /** Every blob a publish still has to upload is stored locally. */
  lemma UploadProceeds(env: Env, w: World, sid: StoreId, s': Store, r': Remote)
    requires Inv(env, w) && sid in w.stores && w.stores[sid].job.Uploading?
    requires BlobStep(w.stores[sid], w.remotes[w.stores[sid].job.at.remote], s', r')
    ensures s'.job.Uploading?
  {
    assert StoreOk(env, sid, w.remotes, w.stores[sid]);
  }

  // ----- what a publish in progress holds in memory -----

  /** The writer state in memory is the saved one, or the saved one with its old state moved to the remote in hand;
      and a ref on its way to its slot is the pending one. */
  ghost predicate Coherent(s: Store) {
    s.job.Idle? ||
    (var at := s.job.at;
     && at.here == HereOf(at.state, at.remote)
     && (at.state == s.writer ||
        (s.writer.unassigned.Some? && at.remote !in s.writer.remotes && at.state == MovedTo(s.writer, at.remote)))
     && (s.job.Claiming? || s.job.Claimed? ==> at.here.pending == Some(s.job.next)))
  }

  function MovedTo(s: WriterState, remote: RemoteId): WriterState
    requires s.unassigned.Some?
  {
    s.(unassigned := None, remotes := s.remotes[remote := s.unassigned.value])
  }

  ghost predicate AllCoherent(w: World) {
    forall sid | sid in w.stores :: Coherent(w.stores[sid])
  }

  lemma PublishStaysCoherent(env: Env, sid: StoreId, id: RemoteId, s: Store, r: Remote, s': Store, r': Remote)
    requires WorksWith(s, id) && PublishStep(env, sid, id, s, r, s', r') && Coherent(s)
    ensures Coherent(s')
  {
    hide LatestRef, RootedAt, NextRef, BlobsOf, SlotAt, Loadable, ClaimMove;
  }

  lemma PublishKeepsWriter(env: Env, sid: StoreId, id: RemoteId, s: Store, r: Remote, s': Store, r': Remote)
    requires WorksWith(s, id) && PublishStep(env, sid, id, s, r, s', r') && Coherent(s)
    ensures s'.writer.id == s.writer.id
  {
    hide LatestRef, RootedAt, NextRef, BlobsOf, SlotAt, Loadable, ClaimMove;
  }

  lemma StepStaysCoherent(env: Env, w: World, w': World, m: Move)
    requires NextBy(env, w, w', m) && AllCoherent(w)
    ensures AllCoherent(w')
  {
    hide PublishStep, StoreContentOk, Contains, Coherent;
    forall x | x in w'.stores ensures Coherent(w'.stores[x]) {
      if x == m.store && RemoteStep(env, w, w', m.store, m.remote) {
        PublishStaysCoherent(env, x, m.remote, w.stores[x], w.remotes[m.remote], w'.stores[x], w'.remotes[m.remote]);
      } else {
        IdleIsCoherent(w'.stores[x]);
      }
    }
  }

  lemma IdleIsCoherent(s: Store)
    ensures s.job.Idle? ==> Coherent(s)
  {
  }

  lemma {:induction false} AnyRunIsCoherent(env: Env, run: seq<World>, moves: seq<Move>, i: nat)
    requires AnyRun(env, run, moves) && i < |run|
    ensures AllCoherent(run[i])
  {
    if i > 0 {
      AnyRunIsCoherent(env, run, moves, i - 1);
      assert NextBy(env, run[i - 1], run[i - 1 + 1], moves[i - 1]);
      hide Next, Coherent;
      StepStaysCoherent(env, run[i - 1], run[i], moves[i - 1]);
    }
  }

  lemma RunIsCoherent(env: Env, run: seq<World>, moves: seq<Move>, i: nat)
    requires Run(env, run, moves) && i < |run|
    ensures AllCoherent(run[i])
  {
    RunIsAnyRun(env, run, moves);
    AnyRunIsCoherent(env, run, moves, i);
  }

  // ----- what a crash inside a reservation leaves -----

  /** A process is about to complete the marker it has begun in this slot. */
  ghost predicate Marking(s: Store, id: RemoteId, writer: Writer, k: nat) {
    && s.job.Claiming? && s.job.stage.Created?
    && s.job.at.remote == id && s.job.at.state.id == writer && s.job.next.sequence == k
  }

  /** The marker in this slot was begun, and nobody is completing it. */
  ghost predicate Abandoned(w: World, id: RemoteId, writer: Writer, k: nat) {
    && id in w.remotes && SlotAt(w.remotes[id], writer, k).Torn?
    && forall sid | sid in w.stores :: !Marking(w.stores[sid], id, writer, k)
  }

  lemma AbandonedPublish(env: Env, sid: StoreId, remote: RemoteId, s: Store, r: Remote, s': Store, r': Remote,
                         writer: Writer, k: nat)
    requires WorksWith(s, remote) && PublishStep(env, sid, remote, s, r, s', r')
    requires SlotAt(r, writer, k).Torn? && !Marking(s, remote, writer, k)
    ensures SlotAt(r', writer, k).Torn? && !Marking(s', remote, writer, k)
  {
    hide LatestRef, RootedAt, NextRef, BlobsOf, Loadable, Contains;
  }

  lemma AbandonedElsewhere(env: Env, sid: StoreId, remote: RemoteId, id: RemoteId, s: Store, r: Remote, s': Store,
                           r': Remote, writer: Writer, k: nat)
    requires remote != id && WorksWith(s, remote) && PublishStep(env, sid, remote, s, r, s', r')
    ensures !Marking(s', id, writer, k)
  {
    hide LatestRef, RootedAt, NextRef, BlobsOf, Loadable, Contains, SlotAt;
  }

  lemma AbandonedMove(env: Env, w: World, w': World, m: Move, id: RemoteId, writer: Writer, k: nat)
    requires Moved(env, w, w', m) && Abandoned(w, id, writer, k)
    ensures Abandoned(w', id, writer, k)
  {
    hide PublishStep, SlotAt, StoreContentOk, Careful;
    if RemoteStep(env, w, w', m.store, m.remote) {
      var s, s', r, r' := w.stores[m.store], w'.stores[m.store], w.remotes[m.remote], w'.remotes[m.remote];
      if m.remote == id {
        AbandonedPublish(env, m.store, id, s, r, s', r', writer, k);
      } else {
        AbandonedElsewhere(env, m.store, m.remote, id, s, r, s', r', writer, k);
      }
    }
  }

  /** A crash between creating a reservation and completing its marker ends the writer's chain there: over the rest of
      any run, whatever anyone does, the slot stays as it is and no ref is ever published in it or after it. */
  lemma {:induction false} TornSlotStops(env: Env, run: seq<World>, moves: seq<Move>, i: nat, j: nat, id: RemoteId,
                                         writer: Writer, k: nat)
    requires Lossless(env) && Run(env, run, moves) && i <= j < |run| && Abandoned(run[i], id, writer, k)
    ensures Abandoned(run[j], id, writer, k)
    ensures forall n: nat | n >= k :: !SlotAt(run[j].remotes[id], writer, n).Complete?
    decreases j
  {
    hide *;
    if i < j {
      TornSlotStops(env, run, moves, i, j - 1, id, writer, k);
      var w, w' := StepOfRun(env, run, moves, j - 1);
      AbandonedMove(env, w, w', moves[j - 1], id, writer, k);
    }
    RunKeepsInv(env, run, moves, j);
    NothingAboveTorn(env, run[j], id, writer, k);
  }

  lemma NothingAboveTorn(env: Env, w: World, id: RemoteId, writer: Writer, k: nat)
    requires Inv(env, w) && Abandoned(w, id, writer, k)
    ensures forall n: nat | n >= k :: !SlotAt(w.remotes[id], writer, n).Complete?
  {
    var r := w.remotes[id];
    assert SlotOk(env, r, writer, k);
    forall n: nat | n >= k ensures !SlotAt(r, writer, n).Complete? {
      if n > k && SlotAt(r, writer, n).Complete? { ChainHasNoGaps(env, r, writer, k, n); }
    }
  }
}
