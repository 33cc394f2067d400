/** What every run of the publish protocol keeps, on every remote and in every store. */
module ReplicaSafety {
  import opened Wrappers
  import opened Merkle
  import opened Slots
  import opened Replica

  // ----- refs -----

  /** A ref whose whole history was built by `publish`. */
  ghost predicate GoodRef(env: Env, r: Ref) {
    && LedgerOk(env, LedgerOf(env, r))
    && env.champ.save(LedgerOf(env, r)) == r.root
    && Closed(Objects(r.packs)) && Reachable(r.root) <= Objects(r.packs)
    && Links(r.writer, r.sequence, r.previous, r)
    && RootedAt(r.root, r.packs[|r.packs| - 1]) && r.packs[|r.packs| - 1] != {}
    && match r.previous
       case None => r.packs == [Reachable(r.root)]
       case Some(p) =>
         && GoodRef(env, p) && p.writer == r.writer
         && r.packs == p.packs + [Reachable(r.root) - Objects(p.packs)]
         && Contains(LedgerOf(env, r), LedgerOf(env, p))
  }

  /** Everything a ref needs is on the remote. */
  ghost predicate Durable(env: Env, r: Remote, reference: Ref) {
    (forall pack | pack in reference.packs :: pack in r.packs) && BlobsOf(LedgerOf(env, reference)) <= r.blobs
  }

  ghost predicate Published(r: Remote, reference: Ref) {
    SlotAt(r, reference.writer, reference.sequence) == Complete(reference)
  }

  /** A ref that may be claimed: complete but for its slot. */
  ghost predicate Ready(env: Env, r: Remote, w: Writer, reference: Ref) {
    && GoodRef(env, reference) && reference.writer == w && Durable(env, r, reference)
    && (reference.previous.Some? ==> Published(r, reference.previous.value))
  }

  // ----- invariants -----

  ghost predicate SlotOk(env: Env, r: Remote, w: Writer, k: nat) {
    var slot := SlotAt(r, w, k);
    && (slot != Empty ==> k >= 1 && (k > 1 ==> SlotAt(r, w, k - 1).Complete?))
    && (slot.Reserved? || slot.Complete? ==> slot.value.sequence == k && Ready(env, r, w, slot.value))
  }

  ghost predicate RemoteOk(env: Env, r: Remote) {
    && (forall w: Writer, k: nat :: SlotOk(env, r, w, k))
    && (forall w, k | w in r.refs && k in r.refs[w] :: r.refs[w][k] != Empty)
  }

  ghost predicate HereOk(env: Env, r: Remote, w: Writer, logs: Ledger, here: Here) {
    && (here.last.Some? ==>
          here.last.value.writer == w && Published(r, here.last.value) &&
            Contains(logs, LedgerOf(env, here.last.value)))
    && (here.pending.Some? ==>
          Ready(env, r, w, here.pending.value) && here.pending.value.previous == here.last
          && Contains(logs, LedgerOf(env, here.pending.value)))
  }

  ghost predicate StateOk(env: Env, remotes: map<RemoteId, Remote>, state: WriterState, logs: Ledger) {
    && (forall id | id in state.remotes :: id in remotes && HereOk(env, remotes[id], state.id, logs, state.remotes[id]))
    && (state.unassigned.Some? ==>
          exists id :: id in remotes && HereOk(env, remotes[id], state.id, logs, state.unassigned.value))
  }

  ghost predicate AttemptOk(env: Env, remotes: map<RemoteId, Remote>, s: Store, at: Attempt) {
    && at.remote in remotes
    && at.state.id == s.writer.id
    && StateOk(env, remotes, at.state, s.logs)
    && HereOk(env, remotes[at.remote], s.writer.id, s.logs, at.here)
    && (at.tip.Some? ==> at.tip.value.writer == s.writer.id && Published(remotes[at.remote], at.tip.value))
  }

  ghost predicate SendOk(env: Env, sid: StoreId, r: Remote, s: Store, at: Attempt, next: Ref) {
    && Ready(env, r, s.writer.id, next) && next.previous == at.here.last
    && Contains(s.logs, LedgerOf(env, next))
  }

  ghost predicate JobOk(env: Env, sid: StoreId, remotes: map<RemoteId, Remote>, s: Store) {
    s.job.Idle? ||
    (AttemptOk(env, remotes, s, s.job.at) &&
    var r, at, w := remotes[s.job.at.remote], s.job.at, s.writer.id;
     match s.job
     case Settled(_) => at.here.pending == None
     case Rereading(_) => at.here.pending == None
     case Uploading(_, ledger, todo) =>
       && at.here.pending == None && at.tip == at.here.last && ledger == s.logs
       && (at.tip.Some? ==> Contains(ledger, LedgerOf(env, at.tip.value)))
       && todo <= BlobsOf(ledger) <= r.blobs + todo
     case Packed(_, next) => at.here.pending == None && SendOk(env, sid, r, s, at, next)
     case Claiming(_, next, _, stage) =>
       && SendOk(env, sid, r, s, at, next) && !stage.Won? && !stage.Lost?
       && (stage.Created? ==> SlotAt(r, w, next.sequence) == Torn(sid))
       && (stage.Finishing? ==>
             SlotAt(r, w, next.sequence) == Reserved(next) || SlotAt(r, w, next.sequence) == Complete(next))
     case Claimed(_, next, _) =>
       SendOk(env, sid, r, s, at, next) && Published(r, next)
     case _ => true)
  }

  ghost predicate StoreOk(env: Env, sid: StoreId, remotes: map<RemoteId, Remote>, s: Store) {
    && StoreContentOk(env, s)
    && StateOk(env, remotes, s.writer, s.logs)
    && JobOk(env, sid, remotes, s)
  }

  ghost predicate Inv(env: Env, w: World) {
    && (forall id | id in w.remotes :: RemoteOk(env, w.remotes[id]))
    && (forall sid | sid in w.stores :: StoreOk(env, sid, w.remotes, w.stores[sid]))
  }

  // ----- how one process may change a remote -----

  ghost predicate SlotGrows(sid: StoreId, a: Slot<Ref>, b: Slot<Ref>) {
    a == b || (SlotStep(a, b) && (a.Torn? ==> a.owner == sid))
  }

  /** Nothing is ever taken away, and a torn slot is its owner's. */
  ghost predicate Grows(sid: StoreId, r: Remote, r': Remote) {
    && r.blobs <= r'.blobs && r.packs <= r'.packs
    && forall w: Writer, k: nat :: SlotGrows(sid, SlotAt(r, w, k), SlotAt(r', w, k))
  }

  lemma PublishedStays(sid: StoreId, r: Remote, r': Remote, reference: Ref)
    requires Grows(sid, r, r') && Published(r, reference)
    ensures Published(r', reference)
  {
    assert SlotGrows(sid, SlotAt(r, reference.writer, reference.sequence),
           SlotAt(r', reference.writer, reference.sequence));
  }

  lemma ReadyStays(env: Env, sid: StoreId, r: Remote, r': Remote, w: Writer, reference: Ref)
    requires Grows(sid, r, r') && Ready(env, r, w, reference)
    ensures Ready(env, r', w, reference)
  {
    if reference.previous.Some? { PublishedStays(sid, r, r', reference.previous.value); }
  }

  lemma HereStays(env: Env, sid: StoreId, r: Remote, r': Remote, w: Writer, logs: Ledger, here: Here)
    requires Grows(sid, r, r') && HereOk(env, r, w, logs, here)
    ensures HereOk(env, r', w, logs, here)
  {
    if here.last.Some? { PublishedStays(sid, r, r', here.last.value); }
    if here.pending.Some? { ReadyStays(env, sid, r, r', w, here.pending.value); }
  }

  /** Only the remote in hand changes. */
  ghost predicate OnlyChanges(sid: StoreId, remotes: map<RemoteId, Remote>, remotes': map<RemoteId, Remote>,
                              id: RemoteId) {
    && id in remotes && id in remotes' && remotes' == remotes[id := remotes'[id]]
    && Grows(sid, remotes[id], remotes'[id])
  }

  lemma StateStays(env: Env, sid: StoreId, remotes: map<RemoteId, Remote>, remotes': map<RemoteId, Remote>,
                   id: RemoteId, state: WriterState, logs: Ledger)
    requires OnlyChanges(sid, remotes, remotes', id) && StateOk(env, remotes, state, logs)
    ensures StateOk(env, remotes', state, logs)
  {
    forall x | x in state.remotes ensures x in remotes' && HereOk(env, remotes'[x], state.id, logs, state.remotes[x]) {
      if x == id { HereStays(env, sid, remotes[x], remotes'[x], state.id, logs, state.remotes[x]); }
    }
    if state.unassigned.Some? {
      var x :| x in remotes && HereOk(env, remotes[x], state.id, logs, state.unassigned.value);
      if x == id { HereStays(env, sid, remotes[x], remotes'[x], state.id, logs, state.unassigned.value); }
      assert x in remotes' && HereOk(env, remotes'[x], state.id, logs, state.unassigned.value);
    }
  }

  lemma AttemptStays(env: Env, sid: StoreId, remotes: map<RemoteId, Remote>, remotes': map<RemoteId, Remote>,
                     id: RemoteId, s: Store, at: Attempt)
    requires OnlyChanges(sid, remotes, remotes', id) && AttemptOk(env, remotes, s, at)
    ensures AttemptOk(env, remotes', s, at)
  {
    StateStays(env, sid, remotes, remotes', id, at.state, s.logs);
    if at.remote == id {
      HereStays(env, sid, remotes[id], remotes'[id], s.writer.id, s.logs, at.here);
      if at.tip.Some? { PublishedStays(sid, remotes[id], remotes'[id], at.tip.value); }
    }
  }

  /** Another store's process is not disturbed. */
  lemma OtherStoreStays(env: Env, sid: StoreId, other: StoreId, remotes: map<RemoteId, Remote>,
                        remotes': map<RemoteId, Remote>, id: RemoteId, s: Store)
    requires OnlyChanges(sid, remotes, remotes', id) && StoreOk(env, other, remotes, s) && other != sid
    ensures StoreOk(env, other, remotes', s)
  {
    StateStays(env, sid, remotes, remotes', id, s.writer, s.logs);
    if !s.job.Idle? {
      AttemptStays(env, sid, remotes, remotes', id, s, s.job.at);
      if s.job.at.remote == id && !s.job.Began? && !s.job.Settled? && !s.job.Rereading? && !s.job.Uploading? {
        ReadyStays(env, sid, remotes[id], remotes'[id], s.writer.id, s.job.next);
        assert SlotGrows(sid, SlotAt(remotes[id], s.writer.id, s.job.next.sequence),
               SlotAt(remotes'[id], s.writer.id, s.job.next.sequence));
      }
    }
  }

  // ----- reading the chain -----

  lemma {:induction false} ReadChainPublished(r: Remote, w: Writer, rest: set<nat>, previous: Option<Ref>)
    requires w in r.refs && rest <= r.refs[w].Keys
    requires previous.Some? ==> previous.value.writer == w && Published(r, previous.value)
    ensures var tip := ReadChain(w, r.refs[w], rest, previous);
            tip.Success? && tip.value.Some? ==> tip.value.value.writer == w && Published(r, tip.value.value)
    decreases rest
  {
    if rest != {} {
      var k := Min(rest);
      var slot := r.refs[w][k];
      if slot.Complete? && Links(w, k, previous, slot.value) {
        ReadChainPublished(r, w, rest - {k}, Some(slot.value));
      }
    }
  }

  lemma TipIsPublished(r: Remote, w: Writer)
    ensures var tip := LatestRef(r, w);
            tip.Success? && tip.value.Some? ==> tip.value.value.writer == w && Published(r, tip.value.value)
  {
    if w in r.refs { ReadChainPublished(r, w, r.refs[w].Keys, None); }
  }

  /** `tip` is the last complete ref of the chain, and nothing beyond it is complete. */
  ghost predicate IsTip(r: Remote, w: Writer, tip: Option<Ref>) {
    && (tip.Some? ==> tip.value.writer == w && Published(r, tip.value))
    && forall k: nat :: SlotAt(r, w, k).Complete? <==> 1 <= k <= SequenceOf(tip)
  }

  /** Slots fill up from 1 without gaps; only the highest used slot can be incomplete. */
  lemma {:induction false} ChainHasNoGaps(env: Env, r: Remote, w: Writer, j: nat, k: nat)
    requires RemoteOk(env, r) && 1 <= j < k && SlotAt(r, w, k) != Empty
    ensures SlotAt(r, w, j).Complete?
    decreases k
  {
    assert SlotOk(env, r, w, k);
    if j < k - 1 { ChainHasNoGaps(env, r, w, j, k - 1); }
  }

  /** Each ref names the ref in the slot before it, on the same remote. */
  lemma PredecessorIsBelow(env: Env, r: Remote, w: Writer, k: nat)
    requires RemoteOk(env, r) && SlotAt(r, w, k).Complete?
    ensures k >= 1 && (k > 1 ==> SlotAt(r, w, k - 1).Complete?)
    ensures Links(w, k, if k > 1 then Some(SlotAt(r, w, k - 1).value) else None, SlotAt(r, w, k).value)
  {
    hide *;
    SlotIsOk(env, r, w, k);
    CompleteSlot(env, r, w, k);
    GoodRefLinks(env, SlotAt(r, w, k).value);
    LinkedBelow(r, w, k, SlotAt(r, w, k).value);
  }

  lemma CompleteSlot(env: Env, r: Remote, w: Writer, k: nat)
    requires SlotOk(env, r, w, k) && SlotAt(r, w, k).Complete?
    ensures k >= 1 && (k > 1 ==> SlotAt(r, w, k - 1).Complete?)
    ensures var value := SlotAt(r, w, k).value;
            && GoodRef(env, value) && value.writer == w && value.sequence == k
            && (value.previous.Some? ==> Published(r, value.previous.value))
  {
    hide GoodRef, Durable, SlotAt;
  }

  lemma LinkedBelow(r: Remote, w: Writer, k: nat, value: Ref)
    requires value.writer == w && value.sequence == k && Links(w, k, value.previous, value)
    requires value.previous.Some? ==>
               && Published(r, value.previous.value)
               && value.previous.value.writer == w && value.previous.value.sequence == k - 1 >= 1
    requires k > 1 ==> SlotAt(r, w, k - 1).Complete?
    ensures Links(w, k, if k > 1 then Some(SlotAt(r, w, k - 1).value) else None, value)
  {
    hide SlotAt;
  }

  lemma SlotIsOk(env: Env, r: Remote, w: Writer, k: nat)
    requires RemoteOk(env, r)
    ensures SlotOk(env, r, w, k)
  {
    hide SlotOk;
  }

  lemma GoodRefLinks(env: Env, reference: Ref)
    requires GoodRef(env, reference)
    ensures Links(reference.writer, reference.sequence, reference.previous, reference)
    ensures var previous := reference.previous;
            previous.Some? ==>
              previous.value.writer == reference.writer && previous.value.sequence == reference.sequence - 1 >= 1
  {
    hide LedgerOk, Contains, RootedAt, Reachable, Objects, Closed;
    if reference.previous.Some? { assert GoodRef(env, reference.previous.value); }
  }

  /** On a reachable remote the chain always reads, up to its highest complete ref. */
  lemma {:induction false} ReadChainSucceeds(env: Env, r: Remote, w: Writer, rest: set<nat>, previous: Option<Ref>)
    requires RemoteOk(env, r) && w in r.refs
    requires forall k :: k in rest <==> k in r.refs[w] && r.refs[w][k] != Empty && k > SequenceOf(previous)
    requires previous.Some? ==>
               previous.value.sequence >= 1 && SlotAt(r, w, previous.value.sequence) == Complete(previous.value)
    requires previous.Some? ==> previous.value.writer == w
    ensures var tip := ReadChain(w, r.refs[w], rest, previous);
            tip.Success? && IsTip(r, w, tip.value)
    decreases rest
  {
    forall k: nat | 1 <= k <= SequenceOf(previous) ensures SlotAt(r, w, k).Complete? {
      if k < SequenceOf(previous) { ChainHasNoGaps(env, r, w, k, SequenceOf(previous)); }
    }
    if rest == {} {
      forall k: nat | SlotAt(r, w, k).Complete? ensures 1 <= k <= SequenceOf(previous) {
        assert SlotOk(env, r, w, k);
      }
    } else {
      var k := Min(rest);
      assert SlotOk(env, r, w, k);
      assert k > 1 ==> SlotAt(r, w, k - 1).Complete?;
      assert k - 1 > SequenceOf(previous) ==> k - 1 in rest;
      if SlotAt(r, w, k).Complete? {
        PredecessorIsBelow(env, r, w, k);
        ReadChainSucceeds(env, r, w, rest - {k}, Some(r.refs[w][k].value));
      } else {
        forall j | j in rest ensures j == k {
          if j > k { ChainHasNoGaps(env, r, w, k, j); }
        }
        assert rest == {k};
        forall j: nat | SlotAt(r, w, j).Complete? ensures 1 <= j <= SequenceOf(previous) {
          assert SlotOk(env, r, w, j);
          assert j > SequenceOf(previous) ==> j in rest;
        }
      }
    }
  }

  /** `latest_ref` never fails on a reachable remote, and finds the tip. */
  lemma LatestRefFindsTip(env: Env, r: Remote, w: Writer)
    requires RemoteOk(env, r)
    ensures LatestRef(r, w).Success? && IsTip(r, w, LatestRef(r, w).value)
  {
    if w in r.refs {
      forall k ensures k in r.refs[w].Keys ==> k > 0 {
        if k in r.refs[w] { assert SlotOk(env, r, w, k); }
      }
      ReadChainSucceeds(env, r, w, r.refs[w].Keys, None);
    }
  }

  /** The tip's packs load: nothing it needs is missing. */
  lemma ReadyLoads(env: Env, r: Remote, w: Writer, reference: Ref)
    requires Ready(env, r, w, reference)
    ensures Loadable(r, reference)
  {
  }

  // ----- steps keep the invariant -----

  lemma SlotWritten(env: Env, sid: StoreId, r: Remote, w: Writer, k: nat, slot: Slot<Ref>)
    requires RemoteOk(env, r) && SlotGrows(sid, SlotAt(r, w, k), slot) && slot != Empty
    requires k >= 1 && (k > 1 ==> SlotAt(r, w, k - 1).Complete?)
    requires slot.Reserved? || slot.Complete? ==> slot.value.sequence == k && Ready(env, r, w, slot.value)
    ensures Grows(sid, r, WithSlot(r, w, k, slot)) && RemoteOk(env, WithSlot(r, w, k, slot))
  {
    var r' := WithSlot(r, w, k, slot);
    forall x: Writer, j: nat ensures SlotAt(r', x, j) == if x == w && j == k then slot else SlotAt(r, x, j) {
    }
    assert Grows(sid, r, r');
    forall x: Writer, j: nat ensures SlotOk(env, r', x, j) {
      assert SlotOk(env, r, x, j);
      assert j > 1 ==> SlotGrows(sid, SlotAt(r, x, j - 1), SlotAt(r', x, j - 1));
      var s := SlotAt(r', x, j);
      if s.Reserved? || s.Complete? { ReadyStays(env, sid, r, r', x, s.value); }
    }
  }

  lemma ContentGrows(env: Env, sid: StoreId, r: Remote, r': Remote)
    requires RemoteOk(env, r) && r'.refs == r.refs && r.blobs <= r'.blobs && r.packs <= r'.packs
    ensures Grows(sid, r, r') && RemoteOk(env, r')
  {
    forall w: Writer, k: nat ensures SlotAt(r', w, k) == SlotAt(r, w, k) {
    }
    assert Grows(sid, r, r');
    forall w: Writer, k: nat ensures SlotOk(env, r', w, k) {
      assert SlotOk(env, r, w, k);
      var s := SlotAt(r, w, k);
      if s.Reserved? || s.Complete? { ReadyStays(env, sid, r, r', w, s.value); }
    }
  }

  lemma SetRemoteOk(env: Env, remotes: map<RemoteId, Remote>, state: WriterState, logs: Ledger, id: RemoteId,
                    here: Here)
    requires StateOk(env, remotes, state, logs) && id in remotes && HereOk(env, remotes[id], state.id, logs, here)
    ensures StateOk(env, remotes, SetRemote(state, id, here), logs)
  {
    var next := SetRemote(state, id, here);
    forall x | x in next.remotes ensures x in remotes && HereOk(env, remotes[x], next.id, logs, next.remotes[x]) {
    }
  }

  /** Moving unassigned state is safe when nothing is pending, when the tip is the pending ref, or when this
      remote already holds what the pending ref needs. */
  ghost predicate CarefulMove(env: Env, r: Remote, state: WriterState, remote: RemoteId, tip: Option<Ref>) {
    Moves(state, remote, tip) && state.unassigned.value.pending.Some? ==>
      tip == state.unassigned.value.pending || Durable(env, r, state.unassigned.value.pending.value)
  }

  lemma AdoptOk(env: Env, remotes: map<RemoteId, Remote>, state: WriterState, logs: Ledger, remote: RemoteId,
                tip: Option<Ref>)
    requires StateOk(env, remotes, state, logs) && remote in remotes && RemoteOk(env, remotes[remote])
    requires tip.Some? ==> tip.value.writer == state.id && Published(remotes[remote], tip.value)
    requires CarefulMove(env, remotes[remote], state, remote, tip)
    ensures StateOk(env, remotes, Adopt(state, remote, tip), logs)
    ensures HereOk(env, remotes[remote], state.id, logs, HereOf(Adopt(state, remote, tip), remote))
  {
    if Moves(state, remote, tip) {
      var r, moved := remotes[remote], state.unassigned.value;
      assert SlotOk(env, r, state.id, tip.value.sequence);
      assert HereOk(env, r, state.id, logs, moved);
    }
  }

  lemma BeginKeeps(env: Env, sid: StoreId, remotes: map<RemoteId, Remote>, id: RemoteId, s: Store, s': Store)
    requires id in remotes && RemoteOk(env, remotes[id]) && StoreOk(env, sid, remotes, s)
    requires s.job.Idle? && BeginStep(s, remotes[id], s', id)
    requires CarefulMove(env, remotes[id], s.writer, id, LatestRef(remotes[id], s.writer.id).value)
    ensures StoreOk(env, sid, remotes, s')
  {
    TipIsPublished(remotes[id], s.writer.id);
    AdoptOk(env, remotes, s.writer, s.logs, id, LatestRef(remotes[id], s.writer.id).value);
  }

  lemma ReconcileKeeps(env: Env, sid: StoreId, remotes: map<RemoteId, Remote>, s: Store, s': Store)
    requires StoreOk(env, sid, remotes, s) && s.job.Began? && ReconcileStep(s, s')
    ensures StoreOk(env, sid, remotes, s')
  {
    var at := s.job.at;
    if at.here.pending.Some? && at.tip == at.here.pending {
      SetRemoteOk(env, remotes, at.state, s.logs, at.remote, Here(at.here.pending, None));
    }
  }

  lemma CaptureKeeps(env: Env, sid: StoreId, remotes: map<RemoteId, Remote>, s: Store, s': Store)
    requires StoreOk(env, sid, remotes, s) && s.job.Settled? && CaptureStep(env, s, remotes[s.job.at.remote], s')
    ensures StoreOk(env, sid, remotes, s')
  {
  }

  lemma SaveKeeps(env: Env, sid: StoreId, remotes: map<RemoteId, Remote>, s: Store, s': Store)
    requires StoreOk(env, sid, remotes, s) && s.job.Packed? && SaveStep(s, s')
    ensures StoreOk(env, sid, remotes, s')
  {
    var at := s.job.at;
    SetRemoteOk(env, remotes, at.state, s.logs, at.remote, at.here.(pending := Some(s.job.next)));
  }

  lemma RecordKeeps(env: Env, sid: StoreId, remotes: map<RemoteId, Remote>, s: Store, s': Store)
    requires StoreOk(env, sid, remotes, s) && s.job.Claimed? && RecordStep(s, s')
    ensures StoreOk(env, sid, remotes, s')
  {
    var at := s.job.at;
    SetRemoteOk(env, remotes, at.state, s.logs, at.remote, Here(Some(s.job.next), None));
  }

  lemma RereadKeeps(env: Env, sid: StoreId, remotes: map<RemoteId, Remote>, s: Store, s': Store)
    requires StoreOk(env, sid, remotes, s) && s.job.Rereading? && RereadStep(s, remotes[s.job.at.remote], s')
    ensures StoreOk(env, sid, remotes, s')
  {
    TipIsPublished(remotes[s.job.at.remote], s.writer.id);
  }

  /** What a step of `sid` on remote `id` must re-establish. */
  ghost predicate Kept(env: Env, sid: StoreId, remotes: map<RemoteId, Remote>, id: RemoteId, s': Store, r': Remote) {
    && id in remotes && Grows(sid, remotes[id], r') && RemoteOk(env, r')
    && StoreOk(env, sid, remotes[id := r'], s')
  }

  lemma BlobKeeps(env: Env, sid: StoreId, remotes: map<RemoteId, Remote>, s: Store, s': Store, r': Remote)
    requires StoreOk(env, sid, remotes, s) && s.job.Uploading? && RemoteOk(env, remotes[s.job.at.remote])
    requires BlobStep(s, remotes[s.job.at.remote], s', r')
    ensures Kept(env, sid, remotes, s.job.at.remote, s', r')
  {
    var id := s.job.at.remote;
    ContentGrows(env, sid, remotes[id], r');
    StateStays(env, sid, remotes, remotes[id := r'], id, s.writer, s.logs);
    AttemptStays(env, sid, remotes, remotes[id := r'], id, s, s.job.at);
  }

  lemma ObjectsAppend(packs: seq<Pack>, pack: Pack)
    ensures Objects(packs + [pack]) == Objects(packs) + pack
  {
    var all := packs + [pack];
    forall o ensures o in Objects(all) <==> o in Objects(packs) + pack {
      if o in Objects(packs) {
        var i :| 0 <= i < |packs| && o in packs[i];
        assert all[i] == packs[i];
      }
      if o in pack { assert all[|packs|] == pack; }
    }
  }

  lemma NextPacksClosed(env: Env, at: Attempt, ledger: Ledger)
    requires at.tip.Some? ==> Closed(Objects(at.tip.value.packs))
    ensures var next := NextRef(env, at, ledger);
            && Objects(next.packs) == PriorObjects(at.tip) + Reachable(next.root)
            && Closed(Objects(next.packs))
            && next.packs == (if at.tip.Some? then at.tip.value.packs else []) +
               [Reachable(next.root) - PriorObjects(at.tip)]
  {
    var root := env.champ.save(ledger);
    var packs: seq<Pack> := if at.tip.Some? then at.tip.value.packs else [];
    ObjectsAppend(packs, Reachable(root) - PriorObjects(at.tip));
    assert Objects(packs) == PriorObjects(at.tip);
    NewObjectsAreRooted(PriorObjects(at.tip), root);
  }

  /** The ref `publish` builds is good: its new pack is rooted, and with the old packs it is self-contained. */
  lemma NextRefIsGood(env: Env, at: Attempt, ledger: Ledger)
    requires Lossless(env) && LedgerOk(env, ledger)
    requires at.tip.Some? ==> GoodRef(env, at.tip.value) && at.tip.value.writer == at.state.id
                              && Contains(ledger, LedgerOf(env, at.tip.value))
    requires var pack := Reachable(env.champ.save(ledger)) - PriorObjects(at.tip);
             pack != {} && RootedAt(env.champ.save(ledger), pack)
    ensures GoodRef(env, NextRef(env, at, ledger))
  {
    var next := NextRef(env, at, ledger);
    NextRefIs(env, at, ledger);
    hide *;
    if at.tip.Some? { TipIsClosed(env, at.tip.value); }
    NextPacksClosed(env, at, ledger);
    GoodFrom(env, next, at.tip);
  }

  lemma NextRefIs(env: Env, at: Attempt, ledger: Ledger)
    requires Lossless(env)
    ensures var next := NextRef(env, at, ledger);
            && LedgerOf(env, next) == ledger && env.champ.save(ledger) == next.root && next.previous == at.tip
            && next.writer == at.state.id && next.sequence == SequenceOf(at.tip) + 1
  {
    hide Reachable, PriorObjects, SequenceOf;
  }

  lemma TipIsClosed(env: Env, tip: Ref)
    requires GoodRef(env, tip)
    ensures Closed(Objects(tip.packs)) && tip.packs != []
  {
    hide Closed, Contains, RootedAt, LedgerOk, Reachable, Objects;
  }

  /** A ref that extends a good one is good. */
  lemma GoodFrom(env: Env, next: Ref, tip: Option<Ref>)
    requires next.previous == tip && next.sequence == SequenceOf(tip) + 1
    requires LedgerOk(env, LedgerOf(env, next)) && env.champ.save(LedgerOf(env, next)) == next.root
    requires tip.Some? ==> GoodRef(env, tip.value) && tip.value.writer == next.writer
                           && Contains(LedgerOf(env, next), LedgerOf(env, tip.value))
    requires var pack := Reachable(next.root) - PriorObjects(tip);
             && pack != {} && RootedAt(next.root, pack)
             && next.packs == (if tip.Some? then tip.value.packs else []) + [pack]
    requires Objects(next.packs) == PriorObjects(tip) + Reachable(next.root) && Closed(Objects(next.packs))
    ensures GoodRef(env, next)
  {
    hide Closed, Contains, RootedAt, LedgerOk, Reachable, Objects;
    if tip.None? { assert Reachable(next.root) - {} == Reachable(next.root); }
  }

  /** The store never lacks a root for its pack, and never rejects it: both errors are unreachable. */
  lemma PackIsAlwaysWritable(env: Env, at: Attempt, ledger: Ledger)
    requires at.tip.Some? ==> GoodRef(env, at.tip.value)
    ensures RootedAt(env.champ.save(ledger), Reachable(env.champ.save(ledger)) - PriorObjects(at.tip))
  {
    NewObjectsAreRooted(PriorObjects(at.tip), env.champ.save(ledger));
  }

  lemma PackKeeps(env: Env, sid: StoreId, remotes: map<RemoteId, Remote>, s: Store, s': Store, r': Remote)
    requires Lossless(env)
    requires StoreOk(env, sid, remotes, s) && s.job.Uploading? && RemoteOk(env, remotes[s.job.at.remote])
    requires PackStep(env, s, remotes[s.job.at.remote], s', r')
    ensures Kept(env, sid, remotes, s.job.at.remote, s', r')
  {
    var id, at, ledger := s.job.at.remote, s.job.at, s.job.ledger;
    var r := remotes[id];
    if at.tip.Some? { assert SlotOk(env, r, s.writer.id, at.tip.value.sequence); }
    ContentGrows(env, sid, r, r');
    StateStays(env, sid, remotes, remotes[id := r'], id, s.writer, s.logs);
    StateStays(env, sid, remotes, remotes[id := r'], id, at.state, s.logs);
    AttemptStays(env, sid, remotes, remotes[id := r'], id, s, at);
    if s'.job.Packed? {
      NextRefIsGood(env, at, ledger);
      var next := NextRef(env, at, ledger);
      assert s.job.todo == {};
      assert Ready(env, r', s.writer.id, next);
    }
  }

  /** A ref that is ready has its place: the slot below it is complete. */
  lemma ReadyHasPlace(env: Env, r: Remote, w: Writer, next: Ref)
    requires Ready(env, r, w, next)
    ensures next.sequence >= 1 && (next.sequence > 1 ==> SlotAt(r, w, next.sequence - 1).Complete?)
  {
    if next.previous.Some? { assert GoodRef(env, next.previous.value); }
  }

  lemma ClaimGrows(env: Env, sid: StoreId, r: Remote, s: Store, s': Store, r': Remote)
    requires RemoteOk(env, r) && s.job.Claiming? && Ready(env, r, s.job.at.state.id, s.job.next)
    requires ClaimStep(sid, s, r, s', r')
    ensures Grows(sid, r, r') && RemoteOk(env, r')
  {
    var w, next := s.job.at.state.id, s.job.next;
    ReadyHasPlace(env, r, w, next);
    if r' == r {
      ContentGrows(env, sid, r, r');
    } else {
      SlotWritten(env, sid, r, w, next.sequence, SlotAt(r', w, next.sequence));
    }
  }

  lemma ClaimKeeps(env: Env, sid: StoreId, remotes: map<RemoteId, Remote>, s: Store, s': Store, r': Remote)
    requires StoreOk(env, sid, remotes, s) && s.job.Claiming? && RemoteOk(env, remotes[s.job.at.remote])
    requires ClaimStep(sid, s, remotes[s.job.at.remote], s', r')
    ensures Kept(env, sid, remotes, s.job.at.remote, s', r')
  {
    var id, at, next := s.job.at.remote, s.job.at, s.job.next;
    var r := remotes[id];
    ClaimGrows(env, sid, r, s, s', r');
    StateStays(env, sid, remotes, remotes[id := r'], id, s.writer, s.logs);
    AttemptStays(env, sid, remotes, remotes[id := r'], id, s, at);
    ReadyStays(env, sid, r, r', s.writer.id, next);
    assert SlotGrows(sid, SlotAt(r, s.writer.id, next.sequence), SlotAt(r', s.writer.id, next.sequence));
  }

  lemma ContainsTransitive(a: Ledger, b: Ledger, c: Ledger)
    requires Contains(a, b) && Contains(b, c)
    ensures Contains(a, c)
  {
    forall doc | doc in c ensures doc in a && ContainsSet(a[doc], c[doc]) {
      assert ContainsSet(b[doc], c[doc]) && ContainsSet(a[doc], b[doc]);
    }
  }

  lemma HereAfterEdit(env: Env, r: Remote, w: Writer, logs: Ledger, logs': Ledger, here: Here)
    requires HereOk(env, r, w, logs, here) && Contains(logs', logs)
    ensures HereOk(env, r, w, logs', here)
  {
    if here.last.Some? { ContainsTransitive(logs', logs, LedgerOf(env, here.last.value)); }
    if here.pending.Some? { ContainsTransitive(logs', logs, LedgerOf(env, here.pending.value)); }
  }

  lemma StateAfterEdit(env: Env, remotes: map<RemoteId, Remote>, state: WriterState, logs: Ledger, logs': Ledger)
    requires StateOk(env, remotes, state, logs) && Contains(logs', logs)
    ensures StateOk(env, remotes, state, logs')
  {
    forall id | id in state.remotes
      ensures id in remotes && HereOk(env, remotes[id], state.id, logs', state.remotes[id]) {
      HereAfterEdit(env, remotes[id], state.id, logs, logs', state.remotes[id]);
    }
    if state.unassigned.Some? {
      var id :| id in remotes && HereOk(env, remotes[id], state.id, logs, state.unassigned.value);
      HereAfterEdit(env, remotes[id], state.id, logs, logs', state.unassigned.value);
    }
  }

  lemma StoreStepKeeps(env: Env, w: World, w': World, sid: StoreId)
    requires Inv(env, w) && StoreStep(env, w, w', sid)
    ensures Inv(env, w')
  {
    var s, s' := w.stores[sid], w'.stores[sid];
    assert StoreOk(env, sid, w.remotes, s);
    if EditStep(env, s, s') {
      StateAfterEdit(env, w.remotes, s.writer, s.logs, s'.logs);
    } else if ForkStep(s, s') || CrashStep(s, s') {
    } else {
      var remote :| remote in s.writer.remotes
        && s' == s.(writer := WriterState(s.writer.id, map[], Some(s.writer.remotes[remote])));
      assert remote in w.remotes && HereOk(env, w.remotes[remote], s.writer.id, s.logs, s.writer.remotes[remote]);
    }
    assert StoreOk(env, sid, w'.remotes, s');
    forall x | x in w'.stores ensures StoreOk(env, x, w'.remotes, w'.stores[x]) {
      if x != sid { assert w'.stores[x] == w.stores[x]; }
    }
  }

  lemma NewOrCopyKeeps(env: Env, w: World, w': World, sid: StoreId, source: StoreId)
    requires Inv(env, w) && (NewStoreStep(env, w, w', sid) || CopyStep(w, w', sid, source))
    ensures Inv(env, w')
  {
    if CopyStep(w, w', sid, source) { assert StoreOk(env, source, w.remotes, w.stores[source]); }
    assert StoreOk(env, sid, w'.remotes, w'.stores[sid]);
    forall x | x in w'.stores ensures StoreOk(env, x, w'.remotes, w'.stores[x]) {
      if x != sid { assert w'.stores[x] == w.stores[x]; }
    }
  }

  /** A publish that begins on this remote moves unassigned state only when that is safe. */
  ghost predicate Careful(env: Env, w: World, sid: StoreId, remote: RemoteId) {
    sid in w.stores && remote in w.remotes && w.stores[sid].job.Idle? ==>
      LatestRef(w.remotes[remote], w.stores[sid].writer.id).Success? ==>
      CarefulMove(env, w.remotes[remote], w.stores[sid].writer, remote,
        LatestRef(w.remotes[remote], w.stores[sid].writer.id).value)
  }

  lemma PublishStepKeeps(env: Env, sid: StoreId, remotes: map<RemoteId, Remote>, id: RemoteId, s: Store, s': Store,
                         r': Remote)
    requires Lossless(env) && id in remotes && RemoteOk(env, remotes[id]) && StoreOk(env, sid, remotes, s)
    requires WorksWith(s, id) && PublishStep(env, sid, id, s, remotes[id], s', r')
    requires s.job.Idle? && LatestRef(remotes[id], s.writer.id).Success? ==>
               CarefulMove(env, remotes[id], s.writer, id, LatestRef(remotes[id], s.writer.id).value)
    ensures Kept(env, sid, remotes, id, s', r')
  {
    if s.job.Uploading? {
      if BlobStep(s, remotes[id], s', r') {
        BlobKeeps(env, sid, remotes, s, s', r');
      } else {
        PackKeeps(env, sid, remotes, s, s', r');
      }
    } else if s.job.Claiming? {
      ClaimKeeps(env, sid, remotes, s, s', r');
    } else {
      ContentGrows(env, sid, remotes[id], r');
      assert remotes[id := r'] == remotes;
      match s.job
      case Idle => BeginKeeps(env, sid, remotes, id, s, s');
      case Began(_) => ReconcileKeeps(env, sid, remotes, s, s');
      case Settled(_) => CaptureKeeps(env, sid, remotes, s, s');
      case Packed(_, _) => SaveKeeps(env, sid, remotes, s, s');
      case Claimed(_, _, _) => RecordKeeps(env, sid, remotes, s, s');
      case Rereading(_) => RereadKeeps(env, sid, remotes, s, s');
    }
  }

  lemma RemoteStepKeeps(env: Env, w: World, w': World, sid: StoreId, remote: RemoteId)
    requires Lossless(env) && Inv(env, w) && RemoteStep(env, w, w', sid, remote) && Careful(env, w, sid, remote)
    ensures Inv(env, w') && OnlyChanges(sid, w.remotes, w'.remotes, remote)
  {
    assert StoreOk(env, sid, w.remotes, w.stores[sid]);
    PublishStepKeeps(env, sid, w.remotes, remote, w.stores[sid], w'.stores[sid], w'.remotes[remote]);
    forall x | x in w'.stores ensures StoreOk(env, x, w'.remotes, w'.stores[x]) {
      if x != sid {
        assert w'.stores[x] == w.stores[x];
        OtherStoreStays(env, sid, x, w.remotes, w'.remotes, remote, w.stores[x]);
      }
    }
    forall x | x in w'.remotes ensures RemoteOk(env, w'.remotes[x]) {
      if x != remote { assert w'.remotes[x] == w.remotes[x]; }
    }
  }

  /** Every step of every store keeps every remote and every store consistent. */
  lemma NextKeepsInv(env: Env, w: World, w': World, sid: StoreId, source: StoreId, remote: RemoteId)
    requires Lossless(env) && Inv(env, w) && Next(env, w, w', sid, source, remote) && Careful(env, w, sid, remote)
    ensures Inv(env, w')
  {
    if NewStoreStep(env, w, w', sid) || CopyStep(w, w', sid, source) {
      NewOrCopyKeeps(env, w, w', sid, source);
    } else if StoreStep(env, w, w', sid) {
      StoreStepKeeps(env, w, w', sid);
    } else {
      RemoteStepKeeps(env, w, w', sid, remote);
    }
  }

  /** A complete ref of a sound remote lacks nothing there: neither an object its root reaches, nor the content of any
      version in its ledger. */
  lemma CompleteRefIsWhole(env: Env, r: Remote, w: Writer, k: nat)
    requires RemoteOk(env, r) && SlotAt(r, w, k).Complete?
    ensures var reference := SlotAt(r, w, k).value;
            && (forall o | o in Reachable(reference.root) :: exists pack :: pack in r.packs && o in pack)
            && (forall doc, id, c | HasClaim(LedgerOf(env, reference), doc, id, c) && c.Version? :: c.hash in r.blobs)
  {
    var reference := SlotAt(r, w, k).value;
    SlotIsOk(env, r, w, k);
    assert GoodRef(env, reference) && Durable(env, r, reference);
    BlobsAreTheVersions(LedgerOf(env, reference));
    hide RemoteOk, LedgerOf, BlobsOf, Reachable;
    forall o | o in Reachable(reference.root) ensures exists pack :: pack in r.packs && o in pack {
      var i :| 0 <= i < |reference.packs| && o in reference.packs[i];
      assert reference.packs[i] in reference.packs;
    }
  }

  // ----- runs -----

  datatype Move = Move(store: StoreId, source: StoreId, remote: RemoteId)

  /** No stores yet, and remotes nobody has published to. */
  ghost predicate Initial(w: World) {
    w.stores == map[] && forall id | id in w.remotes :: w.remotes[id] == Remote(map[], {}, {})
  }

  ghost predicate Moved(env: Env, w: World, w': World, m: Move) {
    Next(env, w, w', m.store, m.source, m.remote) && Careful(env, w, m.store, m.remote)
  }

  ghost predicate Run(env: Env, run: seq<World>, moves: seq<Move>) {
    && |run| == |moves| + 1 && Initial(run[0])
    && forall i | 0 <= i < |moves| :: Moved(env, run[i], run[i + 1], moves[i])
  }

  /** A run in which old publish state may also move when that is not safe. */
  ghost predicate AnyRun(env: Env, run: seq<World>, moves: seq<Move>) {
    && |run| == |moves| + 1 && Initial(run[0])
    && forall i | 0 <= i < |moves| :: NextBy(env, run[i], run[i + 1], moves[i])
  }

  ghost predicate NextBy(env: Env, w: World, w': World, m: Move) {
    Next(env, w, w', m.store, m.source, m.remote)
  }

  lemma RunIsAnyRun(env: Env, run: seq<World>, moves: seq<Move>)
    requires Run(env, run, moves)
    ensures AnyRun(env, run, moves)
  {
    forall i | 0 <= i < |moves| ensures NextBy(env, run[i], run[i + 1], moves[i]) {
      assert Moved(env, run[i], run[i + 1], moves[i]);
    }
  }

  lemma InitialInv(env: Env, w: World)
    requires Initial(w)
    ensures Inv(env, w)
  {
  }

  /** In every run, at every point, the invariant holds. */
  lemma {:induction false} RunKeepsInv(env: Env, run: seq<World>, moves: seq<Move>, i: nat)
    requires Lossless(env) && Run(env, run, moves) && i < |run|
    ensures Inv(env, run[i])
  {
    if i == 0 {
      InitialInv(env, run[0]);
    } else {
      RunKeepsInv(env, run, moves, i - 1);
      assert Moved(env, run[i - 1], run[i - 1 + 1], moves[i - 1]);
      var m := moves[i - 1];
      NextKeepsInv(env, run[i - 1], run[i], m.store, m.source, m.remote);
    }
  }

  /** Over every run, no complete ref lacks an object of its ledger or the content of any version in it. */
  lemma PublishedIsWhole(env: Env, run: seq<World>, moves: seq<Move>, i: nat, id: RemoteId, w: Writer, k: nat)
    requires Lossless(env) && Run(env, run, moves) && i < |run| && id in run[i].remotes
    requires SlotAt(run[i].remotes[id], w, k).Complete?
    ensures var r, reference := run[i].remotes[id], SlotAt(run[i].remotes[id], w, k).value;
            && (forall o | o in Reachable(reference.root) :: exists pack :: pack in r.packs && o in pack)
            && (forall doc, c, v | HasClaim(LedgerOf(env, reference), doc, c, v) && v.Version? :: v.hash in r.blobs)
  {
    RunKeepsInv(env, run, moves, i);
    hide *;
    SoundRemote(env, run[i], id);
    CompleteRefIsWhole(env, run[i].remotes[id], w, k);
  }

  lemma SoundRemote(env: Env, w: World, id: RemoteId)
    requires Inv(env, w) && id in w.remotes
    ensures RemoteOk(env, w.remotes[id])
  {
  }

  // ----- where the content on a remote comes from -----

  ghost predicate HeldBySome(stores: map<StoreId, Store>, h: Hash) {
    exists sid :: sid in stores && h in stores[sid].blobs
  }

  /** Stores lose neither content nor claims, and a publish sends only what its store holds. */
  lemma StepsKeepContent(env: Env, w: World, w': World, m: Move)
    requires NextBy(env, w, w', m)
    ensures forall sid | sid in w.stores ::
              && sid in w'.stores && w.stores[sid].blobs <= w'.stores[sid].blobs
              && Contains(w'.stores[sid].logs, w.stores[sid].logs)
    ensures forall id | id in w'.remotes ::
              && id in w.remotes
              && forall h | h in w'.remotes[id].blobs && h !in w.remotes[id].blobs :: HeldBySome(w'.stores, h)
  {
    if RemoteStep(env, w, w', m.store, m.remote) {
      SendsHeldContent(env, m.store, m.remote, w.stores[m.store], w.remotes[m.remote], w'.stores[m.store],
        w'.remotes[m.remote]);
    }
    hide PublishStep, StoreContentOk, Contains, LegacyStep;
    forall logs: Ledger ensures Contains(logs, logs) { ContainsItself(logs); }
  }

  lemma ContainsItself(logs: Ledger)
    ensures Contains(logs, logs)
  {
  }

  lemma SendsHeldContent(env: Env, sid: StoreId, id: RemoteId, s: Store, r: Remote, s': Store, r': Remote)
    requires PublishStep(env, sid, id, s, r, s', r')
    ensures s'.logs == s.logs && s'.blobs == s.blobs && r'.blobs <= r.blobs + s.blobs
  {
    hide LatestRef, Loadable, Contains, NextRef, BlobsOf, SlotAt, ClaimMove, Adopt;
  }

  /** Whatever content is on a remote, some store that published it still holds it. */
  lemma {:induction false} ContentIsHeld(env: Env, run: seq<World>, moves: seq<Move>, i: nat, id: RemoteId, h: Hash)
    requires AnyRun(env, run, moves) && i < |run| && id in run[i].remotes && h in run[i].remotes[id].blobs
    ensures HeldBySome(run[i].stores, h)
  {
    if i > 0 {
      assert NextBy(env, run[i - 1], run[i - 1 + 1], moves[i - 1]);
      StepsKeepContent(env, run[i - 1], run[i], moves[i - 1]);
      if h in run[i - 1].remotes[id].blobs {
        ContentIsHeld(env, run, moves, i - 1, id, h);
      }
    }
  }

  // ----- every call comes to an end -----

  function StepsOfStage(stage: Stage): nat {
    match stage
    case Trying => 3
    case Created => 2
    case Finishing => 1
    case _ => 0
  }

  /** A bound on the durable steps a publish still takes, with the blobs it has to send. */
  function StepsLeft(s: Store): nat {
    var blobs := |BlobsOf(s.logs)|;
    match s.job
    case Idle => 0
    case Claimed(_, _, retry) => if retry then 9 + blobs else 1
    case Claiming(_, _, retry, stage) => (if retry then 9 + blobs else 1) + StepsOfStage(stage)
    case Packed(_, _) => 5
    case Uploading(_, _, todo) => 6 + |todo|
    case Settled(_) => 7 + blobs
    case Rereading(_) => 8 + blobs
    case Began(_) => 13 + blobs
  }

  /** Each step of a publish brings it closer to its end. */
  lemma StepsRunOut(env: Env, sid: StoreId, id: RemoteId, s: Store, r: Remote, s': Store, r': Remote)
    requires !s.job.Idle? && PublishStep(env, sid, id, s, r, s', r')
    ensures StepsLeft(s') < StepsLeft(s) && s'.logs == s.logs
  {
    hide LatestRef, Loadable, Contains, NextRef, BlobsOf, SlotAt, WithSlot, BlobStep, ClaimStep;
    if s.job.Uploading? && BlobStep(s, r, s', r') {
      BlobsRunOut(s, r, s', r');
    } else if s.job.Claiming? {
      StagesRunOut(sid, s, r, s', r');
    }
  }

  lemma BlobsRunOut(s: Store, r: Remote, s': Store, r': Remote)
    requires s.job.Uploading? && BlobStep(s, r, s', r')
    ensures StepsLeft(s') < StepsLeft(s) && s'.logs == s.logs
  {
    hide BlobsOf;
    var h :| h in s.job.todo && (s' == s.(job := s.job.(todo := s.job.todo - {h})) || s' == s.(job := Idle));
  }

  lemma StagesRunOut(sid: StoreId, s: Store, r: Remote, s': Store, r': Remote)
    requires s.job.Claiming? && ClaimStep(sid, s, r, s', r')
    ensures StepsLeft(s') < StepsLeft(s) && s'.logs == s.logs
  {
    hide BlobsOf, SlotAt, WithSlot;
  }

  ghost predicate CanStep(env: Env, sid: StoreId, id: RemoteId, s: Store, r: Remote) {
    exists s', r' :: PublishStep(env, sid, id, s, r, s', r')
  }

  /** A move of the slot is always open to a caller that has not been told yet. */
  lemma ClaimCanMove(sid: StoreId, s: Store, r: Remote) returns (s': Store, r': Remote)
    requires s.job.Claiming? && !s.job.stage.Won? && !s.job.stage.Lost?
    requires var slot := SlotAt(r, s.job.at.state.id, s.job.next.sequence);
             && (s.job.stage.Created? ==> slot == Torn(sid))
             && (s.job.stage.Finishing? ==> slot == Reserved(s.job.next) || slot == Complete(s.job.next))
    ensures ClaimStep(sid, s, r, s', r')
  {
    var w, next := s.job.at.state.id, s.job.next;
    var slot := SlotAt(r, w, next.sequence);
    var slot', stage: Stage := slot, Lost;
    match s.job.stage {
      case Trying => if slot.Empty? { slot', stage := Complete(next), Won; }
      case Created => slot', stage := Reserved(next), Finishing;
      case Finishing => slot', stage := Complete(next), Won;
    }
    r' := if slot' == slot then r else WithSlot(r, w, next.sequence, slot');
    s' := s.(job := AfterClaim(s.job, stage));
    assert SlotAt(r', w, next.sequence) == slot';
    assert ClaimMove(sid, next, slot, s.job.stage, slot', stage);
  }

  lemma NotStuck(env: Env, sid: StoreId, remotes: map<RemoteId, Remote>, s: Store)
    requires JobOk(env, sid, remotes, s) && !s.job.Idle? && s.job.at.remote in remotes
    ensures CanStep(env, sid, s.job.at.remote, s, remotes[s.job.at.remote])
  {
    var id, r, at := s.job.at.remote, remotes[s.job.at.remote], s.job.at;
    hide Ready, HereOk, StateOk, LatestRef, Loadable, Contains, NextRef, BlobsOf, SlotAt, WithSlot;
    var s', r' := s, r;
    match s.job {
      case Began(_) =>
        match at.here.pending {
          case None => s' := s.(job := Settled(at));
          case Some(p) =>
            if p.writer != at.state.id || p.previous != at.here.last { s' := s.(job := Idle); }
            else if at.tip == Some(p) {
              var state := SetRemote(at.state, at.remote, Here(Some(p), None));
              s' := s.(writer := state, job := Settled(at.(state := state, here := Here(Some(p), None))));
            }
            else if at.tip != at.here.last { s' := s.(job := Idle); }
            else { s' := s.(job := Claiming(at, p, true, Trying)); }
        }
      case Settled(_) =>
        if && at.tip == at.here.last
           && (at.tip.Some? ==> Loadable(r, at.tip.value) && Contains(s.logs, LedgerOf(env, at.tip.value))) {
          s' := s.(job := Uploading(at, s.logs, BlobsOf(s.logs)));
        } else {
          s' := s.(job := Idle);
        }
      case Uploading(_, ledger, todo) =>
        if todo != {} {
          var h :| h in todo;
          if h in s.blobs {
            s', r' := s.(job := s.job.(todo := todo - {h})), r.(blobs := r.blobs + {h});
          } else {
            s' := s.(job := Idle);
          }
          assert BlobStep(s, r, s', r');
        } else {
          var next := NextRef(env, at, ledger);
          NextHasPack(env, at, ledger);
          var pack := next.packs[|next.packs| - 1];
          if at.tip.Some? && at.tip.value.root == next.root { s' := s.(writer := at.state, job := Idle); }
          else if pack == {} || !RootedAt(next.root, pack) { s' := s.(job := Idle); }
          else { s', r' := s.(job := Packed(at, next)), r.(packs := r.packs + {pack}); }
          assert PackStep(env, s, r, s', r');
        }
      case Packed(_, next) =>
        var here := at.here.(pending := Some(next));
        var state := SetRemote(at.state, at.remote, here);
        s' := s.(writer := state, job := Claiming(at.(state := state, here := here), next, false, Trying));
      case Claiming(_, _, _, _) =>
        s', r' := ClaimCanMove(sid, s, r);
      case Claimed(_, next, retry) =>
        var state := SetRemote(at.state, at.remote, Here(Some(next), None));
        var after := at.(state := state, here := Here(Some(next), None));
        s' := s.(writer := state, job := if retry then Rereading(after) else Idle);
      case Rereading(_) =>
        match LatestRef(r, at.state.id) {
          case Failure(_) => s' := s.(job := Idle);
          case Success(tip) => s' := s.(job := Settled(at.(tip := tip)));
        }
    }
    assert PublishStep(env, sid, id, s, r, s', r');
  }

  lemma NextHasPack(env: Env, at: Attempt, ledger: Ledger)
    ensures |NextRef(env, at, ledger).packs| > 0
  {
  }

  /** Over every run, a publish under way has a next step, whatever other stores did meanwhile, and each step it takes
      brings it closer to its end. */
  lemma PublishEnds(env: Env, run: seq<World>, moves: seq<Move>, i: nat, sid: StoreId)
    requires Lossless(env) && Run(env, run, moves) && i < |run|
    requires sid in run[i].stores && !run[i].stores[sid].job.Idle?
    ensures var s := run[i].stores[sid];
            && s.job.at.remote in run[i].remotes
            && CanStep(env, sid, s.job.at.remote, s, run[i].remotes[s.job.at.remote])
            && forall s', r' | PublishStep(env, sid, s.job.at.remote, s, run[i].remotes[s.job.at.remote], s', r') ::
                 StepsLeft(s') < StepsLeft(s)
  {
    RunKeepsInv(env, run, moves, i);
    hide *;
    var s := run[i].stores[sid];
    SoundJob(env, run[i], sid);
    NotStuck(env, sid, run[i].remotes, s);
    var r := run[i].remotes[s.job.at.remote];
    forall s', r' | PublishStep(env, sid, s.job.at.remote, s, r, s', r') ensures StepsLeft(s') < StepsLeft(s) {
      StepsRunOut(env, sid, s.job.at.remote, s, r, s', r');
    }
  }

  lemma SoundJob(env: Env, w: World, sid: StoreId)
    requires Inv(env, w) && sid in w.stores && !w.stores[sid].job.Idle?
    ensures JobOk(env, sid, w.remotes, w.stores[sid]) && w.stores[sid].job.at.remote in w.remotes
  {
    assert StoreOk(env, sid, w.remotes, w.stores[sid]);
    hide StateOk, HereOk, StoreContentOk, RemoteOk;
  }

  // ----- what a writer's packs hold -----

  /** No object is uploaded twice: the packs of a chain have nothing in common. */
  lemma {:induction false} PacksAreDisjoint(env: Env, reference: Ref, i: nat, j: nat)
    requires GoodRef(env, reference) && i < j < |reference.packs|
    ensures reference.packs[i] !! reference.packs[j]
    decreases reference
  {
    hide LedgerOk, Contains, RootedAt, Closed, Reachable;
    if reference.previous.Some? {
      var p := reference.previous.value;
      if j < |p.packs| {
        PacksAreDisjoint(env, p, i, j);
        assert reference.packs[i] == p.packs[i] && reference.packs[j] == p.packs[j];
      } else {
        assert reference.packs[i] == p.packs[i];
        assert p.packs[i] <= Objects(p.packs);
      }
    }
  }

  /** Nor is anything else uploaded: every object in them belongs to the ledger of the ref or of one before it. */
  lemma {:induction false} PacksHoldLedgers(env: Env, reference: Ref, o: Object)
    requires GoodRef(env, reference)
    ensures o in Objects(reference.packs) <==>
            o in Reachable(reference.root)
            || (reference.previous.Some? && o in Objects(reference.previous.value.packs))
    decreases reference
  {
    hide LedgerOk, Contains, RootedAt, Closed, Reachable;
    var packs: seq<Pack> := if reference.previous.Some? then reference.previous.value.packs else [];
    var last := reference.packs[|reference.packs| - 1];
    ObjectsAppend(packs, last);
    assert reference.packs == packs + [last];
    assert reference.previous.None? ==> Objects(packs) == {};
  }
}
