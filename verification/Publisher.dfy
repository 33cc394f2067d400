/**
 `publish` as the program runs it: one call, stopping at an error or at a crash between durable operations.
 Every call is a path of the transition system (src/replica.rs).
 */
module Publisher {
  import opened Wrappers
  import opened CausalGraph
  import opened Merkle
  import opened Slots
  import opened Replica
  import opened ReplicaSafety
  import opened ReplicaTheorems
  import opened SoleStore
  import opened Recovery

  /** A store's files and process, and one remote. */
  datatype Config = Config(store: Store, remote: Remote)

  /** A step of this process, or its crash. */
  ghost predicate Micro(env: Env, sid: StoreId, id: RemoteId, a: Config, b: Config) {
    || (WorksWith(a.store, id) && PublishStep(env, sid, id, a.store, a.remote, b.store, b.remote))
    || (CrashStep(a.store, b.store) && b.remote == a.remote)
  }

  ghost predicate Path(env: Env, sid: StoreId, id: RemoteId, path: seq<Config>) {
    path != [] && forall i: nat :: i + 1 < |path| ==> Micro(env, sid, id, path[i], path[i + 1])
  }

  ghost predicate Reaches(env: Env, sid: StoreId, id: RemoteId, a: Config, b: Config) {
    exists path :: Path(env, sid, id, path) && path[0] == a && path[|path| - 1] == b
  }

  lemma ReachesItself(env: Env, sid: StoreId, id: RemoteId, a: Config)
    ensures Reaches(env, sid, id, a, a)
  {
    assert Path(env, sid, id, [a]);
  }

  lemma ReachesStep(env: Env, sid: StoreId, id: RemoteId, a: Config, b: Config, c: Config)
    requires Reaches(env, sid, id, a, b) && Micro(env, sid, id, b, c)
    ensures Reaches(env, sid, id, a, c)
  {
    var path :| Path(env, sid, id, path) && path[0] == a && path[|path| - 1] == b;
    var more := path + [c];
    forall i: nat | i + 1 < |more| ensures Micro(env, sid, id, more[i], more[i + 1]) {
      if i + 1 < |path| { assert Micro(env, sid, id, path[i], path[i + 1]); }
    }
    assert Path(env, sid, id, more);
  }

  lemma ClaimReaches(env: Env, sid: StoreId, id: RemoteId, a: Config, b: Config, c: Config, stage: Stage)
    requires Reaches(env, sid, id, a, b) && WorksWith(b.store, id) && b.store.job.Claiming?
    requires var w, next := b.store.job.at.state.id, b.store.job.next;
             var slot, slot' := SlotAt(b.remote, w, next.sequence), SlotAt(c.remote, w, next.sequence);
             && c.remote == (if slot' == slot then b.remote else WithSlot(b.remote, w, next.sequence, slot'))
             && ClaimMove(sid, next, slot, b.store.job.stage, slot', stage)
             && c.store == b.store.(job := AfterClaim(b.store.job, stage))
    ensures Reaches(env, sid, id, a, c)
  {
    assert ClaimStep(sid, b.store, b.remote, c.store, c.remote);
    ReachesStep(env, sid, id, a, b, c);
  }

  /** If the call begins here, it moves old publish state only when that is safe. */
  ghost predicate CarefulConfig(env: Env, id: RemoteId, c: Config) {
    c.store.job.Idle? && LatestRef(c.remote, c.store.writer.id).Success? ==>
      CarefulMove(env, c.remote, c.store.writer, id, LatestRef(c.remote, c.store.writer.id).value)
  }

  /** The invariant holds wherever a call stops. */
  lemma {:induction false} PathKeeps(env: Env, sid: StoreId, remotes: map<RemoteId, Remote>, id: RemoteId,
                                     path: seq<Config>)
    requires Lossless(env) && Path(env, sid, id, path)
    requires id in remotes && path[0].remote == remotes[id] && RemoteOk(env, remotes[id]) &&
             StoreOk(env, sid, remotes, path[0].store)
    requires forall i: nat :: i < |path| ==> CarefulConfig(env, id, path[i])
    ensures var last := path[|path| - 1];
            RemoteOk(env, last.remote) && StoreOk(env, sid, remotes[id := last.remote], last.store)
    decreases |path|
  {
    hide RemoteOk, StoreOk, Micro, Lossless, CarefulConfig;
    if |path| == 1 {
      assert remotes[id := remotes[id]] == remotes;
    } else {
      var front := path[..|path| - 1];
      forall i: nat | i + 1 < |front| ensures Micro(env, sid, id, front[i], front[i + 1]) {
        assert Micro(env, sid, id, path[i], path[i + 1]);
      }
      PathKeeps(env, sid, remotes, id, front);
      var k: nat := |path| - 2;
      assert Micro(env, sid, id, path[k], path[k + 1]);
      MicroKeeps(env, sid, remotes[id := path[k].remote], id, path[k], path[k + 1]);
      assert remotes[id := path[k].remote][id := path[k + 1].remote] == remotes[id := path[k + 1].remote];
    }
  }

  lemma MicroKeeps(env: Env, sid: StoreId, remotes: map<RemoteId, Remote>, id: RemoteId, a: Config, b: Config)
    requires Lossless(env) && Micro(env, sid, id, a, b) && CarefulConfig(env, id, a)
    requires id in remotes && a.remote == remotes[id] && RemoteOk(env, a.remote) && StoreOk(env, sid, remotes, a.store)
    ensures RemoteOk(env, b.remote) && StoreOk(env, sid, remotes[id := b.remote], b.store)
  {
    hide RemoteOk, PublishStep, CarefulMove;
    if CrashStep(a.store, b.store) && b.remote == a.remote {
      assert remotes[id := b.remote] == remotes;
    } else {
      PublishStepKeeps(env, sid, remotes, id, a.store, b.store, b.remote);
    }
  }

  // ----- the only store of its writer -----

  /** Everything is sound, and this store is the only one of its writer on the remote. */
  ghost predicate AloneConfig(env: Env, sid: StoreId, others: map<RemoteId, Remote>, id: RemoteId, c: Config) {
    Lossless(env) && RootsStandAlone(env) && exists tip :: AloneAtTip(env, sid, others, id, c, tip)
  }

  ghost predicate AloneAtTip(env: Env, sid: StoreId, others: map<RemoteId, Remote>, id: RemoteId, c: Config,
                             tip: Option<Ref>) {
    SoloAt(env, sid, others[id := c.remote], id, c.store, tip)
  }

  /** Nothing is pending, and the last ref is the tip and holds exactly the logs. */
  ghost predicate SettledConfig(env: Env, id: RemoteId, c: Config) {
    && LatestRef(c.remote, c.store.writer.id).Success?
    && SettledHere(env, c.store, id, LatestRef(c.remote, c.store.writer.id).value)
  }

  /** In any run, between calls, a store that is alone makes its next call from here. */
  lemma SoloWorldIsAlone(env: Env, w: World, sid: StoreId, id: RemoteId)
    requires Lossless(env) && RootsStandAlone(env) && SoloWorld(env, w, sid, id)
    ensures AloneConfig(env, sid, w.remotes, id, Config(w.stores[sid], w.remotes[id]))
  {
    assert w.remotes[id := w.remotes[id]] == w.remotes;
    assert AloneAtTip(env, sid, w.remotes, id, Config(w.stores[sid], w.remotes[id]), TipOf(w, sid, id));
  }

  lemma AloneStep(env: Env, sid: StoreId, others: map<RemoteId, Remote>, id: RemoteId, a: Config, b: Config)
    requires AloneConfig(env, sid, others, id, a) && AtomicStep(a.store, b.store)
    requires WorksWith(a.store, id) && PublishStep(env, sid, id, a.store, a.remote, b.store, b.remote)
    ensures AloneConfig(env, sid, others, id, b)
    ensures b.store.job.Idle? ==> SettledConfig(env, id, b)
  {
    hide PublishStep, RemoteOk, StoreOk, Solo, Coherent, Lossless, RootsStandAlone, SettledHere;
    var remotes := others[id := a.remote];
    var tip :| AloneAtTip(env, sid, others, id, a, tip);
    SoloCareful(env, a, id, tip);
    PublishStepKeeps(env, sid, remotes, id, a.store, b.store, b.remote);
    PublishStaysCoherent(env, sid, id, a.store, a.remote, b.store, b.remote);
    var tip' := SoloStep(env, sid, remotes, id, a.store, b.store, b.remote, tip);
    assert remotes[id := b.remote] == others[id := b.remote];
    assert AloneAtTip(env, sid, others, id, b, tip');
    SoloHasTip(env, b.remote, b.store, id, tip');
    TipAgain(env, b.remote, b.store.writer.id, tip');
  }

  lemma SoloCareful(env: Env, c: Config, id: RemoteId, tip: Option<Ref>)
    requires Solo(env, c.remote, c.store, id, tip)
    ensures CarefulConfig(env, id, c)
  {
    hide LatestRef, IsTip, Atomic;
  }

  /** Nothing the call checks can fail. */
  lemma AloneReads(env: Env, sid: StoreId, others: map<RemoteId, Remote>, id: RemoteId, c: Config)
    requires AloneConfig(env, sid, others, id, c)
    ensures LatestRef(c.remote, c.store.writer.id).Success?
    ensures c.store.writer.unassigned == None
    ensures !c.store.job.Idle? ==> c.store.job.at.state == c.store.writer
  {
    hide StoreOk, RemoteOk, IsTip, Atomic;
    var tip :| AloneAtTip(env, sid, others, id, c, tip);
    TipAgain(env, c.remote, c.store.writer.id, tip);
  }

  lemma AloneReconciles(env: Env, sid: StoreId, others: map<RemoteId, Remote>, id: RemoteId, c: Config)
    requires AloneConfig(env, sid, others, id, c) && c.store.job.Began? && c.store.job.at.remote == id
    requires c.store.job.at.here.pending.Some?
    ensures var at, p := c.store.job.at, c.store.job.at.here.pending.value;
            p.writer == at.state.id && p.previous == at.here.last && (at.tip == Some(p) || at.tip == at.here.last)
  {
    var tip :| AloneAtTip(env, sid, others, id, c, tip);
    hide RemoteOk, IsTip, Atomic, LedgerOk, Contains;
  }

  lemma AloneCaptures(env: Env, sid: StoreId, others: map<RemoteId, Remote>, id: RemoteId, c: Config)
    requires AloneConfig(env, sid, others, id, c) && c.store.job.Settled? && c.store.job.at.remote == id
    ensures var at := c.store.job.at;
            && at.tip == at.here.last && (at.tip.Some? ==> Loadable(c.remote, at.tip.value))
            && (at.tip.Some? ==> Contains(c.store.logs, LedgerOf(env, at.tip.value)))
  {
    var tip :| AloneAtTip(env, sid, others, id, c, tip);
    if tip.Some? {
      assert SlotOk(env, c.remote, c.store.writer.id, tip.value.sequence);
      ReadyLoads(env, c.remote, c.store.writer.id, tip.value);
    }
  }

  lemma AloneUploads(env: Env, sid: StoreId, others: map<RemoteId, Remote>, id: RemoteId, c: Config)
    requires AloneConfig(env, sid, others, id, c)
    ensures BlobsOf(c.store.logs) <= c.store.blobs
  {
    hide RemoteOk, IsTip, Atomic, LedgerOk, Contains;
  }

  lemma AloneSends(env: Env, sid: StoreId, others: map<RemoteId, Remote>, id: RemoteId, c: Config)
    requires AloneConfig(env, sid, others, id, c) && c.store.job.Uploading? && c.store.job.at.remote == id
    ensures var at, next := c.store.job.at, NextRef(env, c.store.job.at, c.store.logs);
            var pack := next.packs[|next.packs| - 1];
            (at.tip.Some? && at.tip.value.root == next.root) || (pack != {} && RootedAt(next.root, pack))
  {
    var tip :| AloneAtTip(env, sid, others, id, c, tip);
    var at := c.store.job.at;
    if tip.Some? {
      assert SlotOk(env, c.remote, c.store.writer.id, tip.value.sequence);
      ChangedLedgerHasNewRoot(env, tip.value, c.store.logs);
    }
    PackIsAlwaysWritable(env, at, c.store.logs);
    PackIsNew(env, at, c.store.logs);
  }

  lemma AloneClaims(env: Env, sid: StoreId, others: map<RemoteId, Remote>, id: RemoteId, c: Config)
    requires AloneConfig(env, sid, others, id, c) && c.store.job.Claiming? && c.store.job.at.remote == id
    ensures SlotAt(c.remote, c.store.job.at.state.id, c.store.job.next.sequence).Empty?
  {
    var tip :| AloneAtTip(env, sid, others, id, c, tip);
    ClaimMovesTip(env, c.remote, c.store.writer.id, tip, c.store.job.next);
  }

  lemma AloneWins(env: Env, sid: StoreId, others: map<RemoteId, Remote>, id: RemoteId, a: Config, b: Config)
    requires AloneConfig(env, sid, others, id, a) && a.store.job.Claiming? && a.store.job.at.remote == id
    requires var w, next := a.store.job.at.state.id, a.store.job.next;
             && b.remote == WithSlot(a.remote, w, next.sequence, Complete(next)) && a.store.job.stage.Trying?
             && b.store == a.store.(job := AfterClaim(a.store.job, Won))
    ensures AloneConfig(env, sid, others, id, b)
  {
    AloneClaims(env, sid, others, id, a);
    hide AloneConfig;
    var w, next := a.store.job.at.state.id, a.store.job.next;
    assert ClaimMove(sid, next, SlotAt(a.remote, w, next.sequence), a.store.job.stage,
           SlotAt(b.remote, w, next.sequence), Won);
    AloneStep(env, sid, others, id, a, b);
  }

  datatype Outcome = Done | Failed | Crashed

  /** One call of `publish`. */
  class Session {
    const env: Env
    const sid: StoreId
    const id: RemoteId
    const logs: Ledger
    const blobs: set<Hash>
    const hardLinks: bool
    var writer: WriterState
    var remote: Remote
    var budget: nat                             // durable operations left before a crash
    ghost var start: Config                     // where the call began
    ghost const others: map<RemoteId, Remote>   // the remotes the store also publishes to

    constructor (env: Env, sid: StoreId, id: RemoteId, store: Store, remote: Remote, hardLinks: bool, budget: nat,
                 ghost others: map<RemoteId, Remote>)
      requires store.job.Idle?
      ensures this.env == env && this.sid == sid && this.id == id && this.hardLinks == hardLinks &&
              this.budget == budget
      ensures this.others == others && At(Idle) == start == Config(store, remote)
    {
      this.env, this.sid, this.id, this.logs, this.blobs := env, sid, id, store.logs, store.blobs;
      this.hardLinks, this.writer, this.remote, this.budget := hardLinks, store.writer, remote, budget;
      this.start, this.others := Config(store, remote), others;
    }

    ghost function At(job: Job): Config
      reads this
    {
      Config(Store(writer, logs, blobs, job), remote)
    }

    /** The call has got here through steps of the protocol. */
    ghost predicate Reached(job: Job)
      reads this
    {
      Reaches(env, sid, id, start, At(job))
    }

    /** This store is the only one of its writer. */
    ghost predicate Alone(job: Job)
      reads this
    {
      AloneConfig(env, sid, others, id, At(job))
    }

    /** File operations of a claim that finds its slot free: one link, or create, mark and replace. */
    ghost function ClaimOps(): nat {
      if hardLinks then 1 else 3
    }

    /** The content of every version in the logs is on the remote. */
    ghost predicate Uploaded()
      reads this
    {
      forall doc, c, v | HasClaim(logs, doc, c, v) && v.Version? :: v.hash in remote.blobs
    }

    /** Whether the next durable operation still happens. */
    method Spend() returns (alive: bool)
      modifies this`budget
      ensures alive ==> old(budget) > 0 && budget == old(budget) - 1
      ensures !alive ==> old(budget) == 0 && budget == 0
    {
      alive := budget > 0;
      if alive {
        budget := budget - 1;
      }
    }

    ghost method Stop(job: Job)
      requires Reached(job)
      ensures Reached(Idle)
    {
      ReachesStep(env, sid, id, start, At(job), At(Idle));
    }

    /** `publish_ref`. On a free slot it succeeds unless it crashes. */
    method PublishRef(at: Attempt, next: Ref, retry: bool) returns (outcome: Outcome)
      requires Reached(Claiming(at, next, retry, Trying)) && at.remote == id && next.writer == at.state.id
      modifies this`remote, this`budget
      ensures outcome == Done ==> Reached(Claimed(at, next, retry)) && Published(remote, next)
      ensures outcome != Done ==> Reached(Idle)
      ensures outcome == Crashed ==> budget == 0
      ensures remote.blobs == old(remote.blobs) && remote.packs == old(remote.packs)
      ensures var slot := old(SlotAt(remote, at.state.id, next.sequence));
              slot.Empty? || (slot == Reserved(next) && !hardLinks) ==>
                && outcome != Failed && (outcome == Crashed ==> old(budget) < ClaimOps())
                && budget + ClaimOps() >= old(budget)
      ensures old(Alone(Claiming(at, next, retry, Trying))) ==>
                && outcome != Failed && (outcome == Crashed ==> old(budget) < ClaimOps())
                && budget + ClaimOps() >= old(budget) && (outcome == Done ==> Alone(Claimed(at, next, retry)))
    {
      hide Reaches, AloneConfig, SlotAt, WithSlot;
      ghost var trying := At(Claiming(at, next, retry, Trying));
      ghost var alone := Alone(Claiming(at, next, retry, Trying));
      if alone { AloneClaims(env, sid, others, id, trying); }
      outcome := ClaimSlot(at, next, retry);
      if alone && outcome == Done {
        AloneWins(env, sid, others, id, trying, At(Claimed(at, next, retry)));
      }
    }

    /** `write_once_ref` as a path of the protocol. A ref found in place is recognised only in the form this device
        writes, framed or plain; a marker of the same ref only without hard links. */
    method ClaimSlot(at: Attempt, next: Ref, retry: bool) returns (outcome: Outcome)
      requires Reached(Claiming(at, next, retry, Trying)) && at.remote == id && next.writer == at.state.id
      modifies this`remote, this`budget
      ensures outcome == Done ==> Reached(Claimed(at, next, retry)) && Published(remote, next)
      ensures outcome != Done ==> Reached(Idle)
      ensures outcome == Crashed ==> budget == 0
      ensures remote.blobs == old(remote.blobs) && remote.packs == old(remote.packs)
      ensures var slot := old(SlotAt(remote, at.state.id, next.sequence));
              slot.Empty? || (slot == Reserved(next) && !hardLinks) ==>
                && outcome != Failed && (outcome == Crashed ==> old(budget) < ClaimOps())
                && budget + ClaimOps() >= old(budget)
                && (outcome == Done ==> remote == WithSlot(old(remote), at.state.id, next.sequence, Complete(next)))
    {
      hide Reaches;
      var w, k := at.state.id, next.sequence;
      ghost var trying := At(Claiming(at, next, retry, Trying));
      var slot := SlotAt(remote, w, k);
      var ownForm: bool := *;
      if slot.Torn? || (slot.Reserved? && (hardLinks || slot.value != next))
         || (slot.Complete? && (slot.value != next || !ownForm)) {
        ClaimReaches(env, sid, id, start, trying, At(Idle), Lost);
        return Failed;
      }
      if slot.Complete? {
        ClaimReaches(env, sid, id, start, trying, At(Claimed(at, next, retry)), Won);
        return Done;
      }
      if slot.Reserved? {
        ClaimReaches(env, sid, id, start, trying, At(Claiming(at, next, retry, Finishing)), Finishing);
        outcome := FinishClaim(at, next, retry);
        return;
      }
      if !hardLinks {
        outcome := ReserveSlot(at, next, retry);
        return;
      }
      var alive := Spend();
      if !alive {
        Stop(Claiming(at, next, retry, Trying));
        return Crashed;
      }
      remote := WithSlot(remote, w, k, Complete(next));
      ClaimReaches(env, sid, id, start, trying, At(Claimed(at, next, retry)), Won);
      return Done;
    }

    /** Creates the file, completes its marker, and replaces it by the ref. */
    method ReserveSlot(at: Attempt, next: Ref, retry: bool) returns (outcome: Outcome)
      requires Reached(Claiming(at, next, retry, Trying)) && at.remote == id && next.writer == at.state.id
      requires SlotAt(remote, at.state.id, next.sequence).Empty?
      modifies this`remote, this`budget
      ensures outcome == Done ==> Reached(Claimed(at, next, retry)) && Published(remote, next)
      ensures outcome == Done ==> remote == WithSlot(old(remote), at.state.id, next.sequence, Complete(next))
      ensures outcome != Done ==> outcome == Crashed && Reached(Idle) && budget == 0
      ensures remote.blobs == old(remote.blobs) && remote.packs == old(remote.packs)
      ensures (outcome == Crashed ==> old(budget) < 3) && budget + 3 >= old(budget)
    {
      hide Reaches;
      var w, k := at.state.id, next.sequence;
      ghost var trying := At(Claiming(at, next, retry, Trying));
      var alive := Spend();
      if !alive {
        Stop(Claiming(at, next, retry, Trying));
        return Crashed;
      }
      remote := WithSlot(remote, w, k, Torn(sid));
      ghost var created := At(Claiming(at, next, retry, Created));
      ClaimReaches(env, sid, id, start, trying, created, Created);
      alive := Spend();
      if !alive {
        Stop(Claiming(at, next, retry, Created));
        return Crashed;
      }
      remote := WithSlot(remote, w, k, Reserved(next));
      ClaimReaches(env, sid, id, start, created, At(Claiming(at, next, retry, Finishing)), Finishing);
      RewrittenSlot(trying.remote, w, k, sid, next);
      outcome := FinishClaim(at, next, retry);
    }

    static lemma RewrittenSlot(r: Remote, w: Writer, k: nat, sid: StoreId, next: Ref)
      ensures var torn := WithSlot(r, w, k, Torn(sid));
              WithSlot(WithSlot(torn, w, k, Reserved(next)), w, k, Complete(next)) == WithSlot(r, w, k, Complete(next))
    {
      var slots: map<nat, Slot<Ref>> := if w in r.refs then r.refs[w] else map[];
      var one: map<nat, Slot<Ref>> := slots[k := Torn(sid)];
      var two: map<nat, Slot<Ref>> := one[k := Reserved(next)];
      var three: map<nat, Slot<Ref>> := two[k := Complete(next)];
      assert three == slots[k := Complete(next)];
      assert r.refs[w := one][w := two][w := three] == r.refs[w := three];
    }

    /** Replaces the caller's own reservation by the ref. */
    method FinishClaim(at: Attempt, next: Ref, retry: bool) returns (outcome: Outcome)
      requires Reached(Claiming(at, next, retry, Finishing)) && at.remote == id && next.writer == at.state.id
      requires SlotAt(remote, at.state.id, next.sequence) == Reserved(next)
      modifies this`remote, this`budget
      ensures outcome == Done ==> Reached(Claimed(at, next, retry)) && Published(remote, next)
      ensures outcome == Done ==> remote == WithSlot(old(remote), at.state.id, next.sequence, Complete(next))
      ensures outcome != Done ==> outcome == Crashed && Reached(Idle) && budget == 0
      ensures remote.blobs == old(remote.blobs) && remote.packs == old(remote.packs)
      ensures (outcome == Crashed ==> old(budget) < 1) && budget + 1 >= old(budget)
    {
      hide Reaches;
      ghost var finishing := At(Claiming(at, next, retry, Finishing));
      var alive := Spend();
      if !alive {
        Stop(Claiming(at, next, retry, Finishing));
        return Crashed;
      }
      remote := WithSlot(remote, at.state.id, next.sequence, Complete(next));
      ClaimReaches(env, sid, id, start, finishing, At(Claimed(at, next, retry)), Won);
      return Done;
    }

    /** Saves this remote's state. */
    method SaveRemote(at: Attempt, here: Here) returns (alive: bool, after: Attempt)
      modifies this`writer, this`budget
      ensures !alive ==> writer == old(writer) && budget == old(budget) == 0
      ensures alive ==>
                && writer == SetRemote(at.state, at.remote, here) && budget + 1 == old(budget)
                && after == at.(state := SetRemote(at.state, at.remote, here), here := here)
    {
      after := at;
      alive := Spend();
      if alive {
        writer := SetRemote(at.state, at.remote, here);
        after := at.(state := writer, here := here);
      }
    }

    /** Sends a pending ref again, records it, and reads the tip once more. */
    method RetryPending(at: Attempt, pending: Ref) returns (outcome: Outcome, after: Attempt)
      requires Reached(Claiming(at, pending, true, Trying)) && at.remote == id && pending.writer == at.state.id
      modifies this`writer, this`remote, this`budget
      ensures outcome == Done ==>
                && Reached(Settled(after)) && after.remote == id && after.here == HereOf(after.state, id)
                && after.here.pending == None && (after.tip.Some? ==> Published(remote, after.tip.value))
      ensures outcome != Done ==> Reached(Idle)
      ensures outcome == Crashed ==> budget == 0
      ensures remote.blobs == old(remote.blobs)
      ensures old(Alone(Claiming(at, pending, true, Trying))) ==>
                && outcome != Failed && (outcome == Crashed ==> old(budget) < 1 + ClaimOps())
                && budget + 1 + ClaimOps() >= old(budget) && (outcome == Done ==> Alone(Settled(after)))
    {
      hide Reaches, AloneConfig, LatestRef;
      after := at;
      ghost var alone := Alone(Claiming(at, pending, true, Trying));
      outcome := PublishRef(at, pending, true);
      if outcome != Done {
        return;
      }
      ghost var claimed := At(Claimed(at, pending, true));
      var alive;
      alive, after := SaveRemote(at, Here(Some(pending), None));
      if !alive {
        Stop(Claimed(at, pending, true));
        return Crashed, at;
      }
      ghost var rereading := At(Rereading(after));
      ReachesStep(env, sid, id, start, claimed, rereading);
      if alone {
        AloneStep(env, sid, others, id, claimed, rereading);
        AloneReads(env, sid, others, id, rereading);
      }
      var tip := ReadLatestRef(remote, after.state.id);
      if tip.Failure? {
        Stop(Rereading(after));
        return Failed, after;
      }
      TipIsPublished(remote, after.state.id);
      after := after.(tip := tip.value);
      ReachesStep(env, sid, id, start, rereading, At(Settled(after)));
      if alone { AloneStep(env, sid, others, id, rereading, At(Settled(after))); }
      return Done, after;
    }

    /** `reconcile_pending`. */
    method ReconcilePending(at: Attempt) returns (outcome: Outcome, after: Attempt)
      requires Reached(Began(at)) && at.remote == id && at.here == HereOf(at.state, id)
      requires at.tip.Some? ==> Published(remote, at.tip.value)
      modifies this`writer, this`remote, this`budget
      ensures outcome == Done ==>
                && Reached(Settled(after)) && after.remote == id && after.here == HereOf(after.state, id)
                && after.here.pending == None && (after.tip.Some? ==> Published(remote, after.tip.value))
      ensures outcome != Done ==> Reached(Idle)
      ensures outcome == Crashed ==> budget == 0
      ensures at.here.pending.None? ==>
                outcome == Done && after == at && remote == old(remote) && writer == old(writer)
      ensures at.here.pending.Some? ==>
                var p := at.here.pending.value;
                && (p.writer != at.state.id || p.previous != at.here.last
                    || (at.tip != Some(p) && at.tip != at.here.last) ==>
                      outcome == Failed && remote == old(remote) && writer == old(writer))
                && (p.writer == at.state.id && p.previous == at.here.last && at.tip == Some(p) ==>
                      && outcome != Failed && remote == old(remote)
                      && (outcome == Done ==> writer == SetRemote(at.state, id, Here(Some(p), None))))
      ensures old(Alone(Began(at))) ==>
                && outcome != Failed && (outcome == Crashed ==> old(budget) < 1 + ClaimOps())
                && budget + 1 + ClaimOps() >= old(budget) && (outcome == Done ==> Alone(Settled(after)))
    {
      hide Reaches, AloneConfig, LatestRef;
      after := at;
      ghost var began := At(Began(at));
      ghost var alone := Alone(Began(at));
      if at.here.pending.None? {
        ReachesStep(env, sid, id, start, began, At(Settled(at)));
        if alone { AloneStep(env, sid, others, id, began, At(Settled(at))); }
        return Done, at;
      }
      if alone { AloneReconciles(env, sid, others, id, began); }
      var pending := at.here.pending.value;
      if pending.writer != at.state.id || pending.previous != at.here.last ||
         (at.tip != Some(pending) && at.tip != at.here.last) {
        Stop(Began(at));
        return Failed, at;
      }
      if at.tip == Some(pending) {
        var alive;
        alive, after := SaveRemote(at, Here(Some(pending), None));
        if !alive {
          Stop(Began(at));
          return Crashed, at;
        }
        ReachesStep(env, sid, id, start, began, At(Settled(after)));
        if alone { AloneStep(env, sid, others, id, began, At(Settled(after))); }
        return Done, after;
      }
      ghost var claiming := At(Claiming(at, pending, true, Trying));
      ReachesStep(env, sid, id, start, began, claiming);
      if alone { AloneStep(env, sid, others, id, began, claiming); }
      outcome, after := RetryPending(at, pending);
    }

    /** The content `ledger_from_logs` collects: of every version, log by log and claim by claim. */
    static method NamedContent(logs: Ledger) returns (all: set<Hash>)
      ensures all == BlobsOf(logs)
    {
      all := {};
      var docs := logs.Keys;
      while docs != {}
        invariant docs <= logs.Keys
        invariant all == set doc, c | doc in logs && doc !in docs && c in logs[doc] && logs[doc][c].Version? ::
                           logs[doc][c].hash
        decreases docs
      {
        var doc :| doc in docs;
        var named := VersionContent(logs[doc]);
        docs := docs - {doc};
        all := all + named;
      }
    }

    static method VersionContent(claims: CausalSet) returns (named: set<Hash>)
      ensures named == set c | c in claims && claims[c].Version? :: claims[c].hash
    {
      named := {};
      var rest := claims.Keys;
      while rest != {}
        invariant rest <= claims.Keys
        invariant named == set c | c in claims && c !in rest && claims[c].Version? :: claims[c].hash
        decreases rest
      {
        var c :| c in rest;
        rest := rest - {c};
        if claims[c].Version? {
          named := named + {claims[c].hash};
        }
      }
    }

    /** Uploads every blob the ledger names. */
    method UploadBlobs(at: Attempt) returns (outcome: Outcome)
      requires Reached(Uploading(at, logs, BlobsOf(logs))) && at.remote == id
      modifies this`remote, this`budget
      ensures outcome == Done ==> Reached(Uploading(at, logs, {})) && Uploaded()
      ensures outcome != Done ==> Reached(Idle)
      ensures outcome == Crashed ==> budget == 0
      ensures remote.refs == old(remote.refs) && remote.packs == old(remote.packs)
      ensures old(Alone(Uploading(at, logs, BlobsOf(logs)))) ==>
                && outcome != Failed && (outcome == Crashed ==> old(budget) < |BlobsOf(logs)|)
                && budget + |BlobsOf(logs)| >= old(budget)
                && (outcome == Done ==> Alone(Uploading(at, logs, {})))
    {
      hide Reaches, AloneConfig, BlobsOf;
      var all := NamedContent(logs);
      BlobsAreTheVersions(logs);
      var todo := all;
      ghost var alone := Alone(Uploading(at, logs, todo));
      if alone { AloneUploads(env, sid, others, id, At(Uploading(at, logs, todo))); }
      while todo != {}
        invariant todo <= all <= remote.blobs + todo
        invariant Reached(Uploading(at, logs, todo))
        invariant remote.refs == old(remote.refs) && remote.packs == old(remote.packs)
        invariant alone ==> Alone(Uploading(at, logs, todo)) && all <= blobs && budget + |all| == old(budget) + |todo|
        decreases todo
      {
        var h :| h in todo;
        outcome := SendBlob(at, todo, h);
        if outcome != Done {
          assert |todo| > 0;
          return;
        }
        todo := todo - {h};
      }
      return Done;
    }

    /** `put_blob` of one blob, if the store has it. */
    method SendBlob(at: Attempt, todo: set<Hash>, h: Hash) returns (outcome: Outcome)
      requires Reached(Uploading(at, logs, todo)) && at.remote == id && h in todo
      modifies this`remote, this`budget
      ensures outcome == Done ==>
                && Reached(Uploading(at, logs, todo - {h}))
                && remote == old(remote).(blobs := old(remote).blobs + {h}) && budget + 1 == old(budget)
      ensures outcome != Done ==> Reached(Idle) && remote == old(remote) && budget == old(budget)
      ensures outcome == Crashed ==> budget == 0
      ensures outcome == Failed <==> h !in blobs
      ensures old(Alone(Uploading(at, logs, todo))) && outcome == Done ==> Alone(Uploading(at, logs, todo - {h}))
    {
      hide Reaches, AloneConfig;
      ghost var before := At(Uploading(at, logs, todo));
      ghost var alone := Alone(Uploading(at, logs, todo));
      if h !in blobs {
        assert BlobStep(before.store, remote, At(Idle).store, remote);
        ReachesStep(env, sid, id, start, before, At(Idle));
        return Failed;
      }
      var alive := Spend();
      if !alive {
        Stop(Uploading(at, logs, todo));
        return Crashed;
      }
      remote := remote.(blobs := remote.blobs + {h});
      ghost var after := At(Uploading(at, logs, todo - {h}));
      assert BlobStep(before.store, before.remote, after.store, remote);
      ReachesStep(env, sid, id, start, before, after);
      if alone { AloneStep(env, sid, others, id, before, after); }
      return Done;
    }

    /** The last ref is on the remote and holds exactly the logs, and nothing is pending. */
    ghost predicate Recorded()
      reads this
    {
      && HereOf(writer, id).pending == None && HereOf(writer, id).last.Some?
      && var last := HereOf(writer, id).last.value;
         Published(remote, last) && last.root == env.champ.save(logs)
    }

    /** A ref of this writer loads from the remote, and the logs hold every claim of its ledger. */
    static ghost predicate Continues(env: Env, logs: Ledger, r: Remote, prior: Ref) {
      && (forall pack | pack in prior.packs :: pack in r.packs)
      && (forall o | o in Reachable(prior.root) :: exists pack :: pack in prior.packs && o in pack)
      && (forall doc, c, v | HasClaim(env.champ.load(prior.root), doc, c, v) :: HasClaim(logs, doc, c, v))
    }

    /** The last ref, or the one it was built on, was checked against remote and logs. */
    ghost predicate Checked()
      reads this
    {
      HereOf(writer, id).last.Some? ==>
        var last := HereOf(writer, id).last.value;
        Continues(env, logs, remote, last)
        || (last.previous.Some? ==> Continues(env, logs, remote, last.previous.value))
    }

    static lemma LoadedContinues(env: Env, logs: Ledger, r: Remote, r': Remote, prior: Ref)
      requires Loadable(r, prior) && Contains(logs, env.champ.load(prior.root)) && r.packs <= r'.packs
      ensures Continues(env, logs, r', prior)
    {
      hide Reachable;
      forall o | o in Reachable(prior.root) ensures exists pack :: pack in prior.packs && o in pack {
        var i :| 0 <= i < |prior.packs| && o in prior.packs[i];
        assert prior.packs[i] in prior.packs;
      }
      forall doc, c, v | HasClaim(env.champ.load(prior.root), doc, c, v) ensures HasClaim(logs, doc, c, v) {
        assert ContainsSet(logs[doc], env.champ.load(prior.root)[doc]);
      }
    }

    /** The new nodes' pack, the pending ref, the slot, and the last ref. */
    method SendLedger(at: Attempt) returns (outcome: Outcome)
      requires Reached(Uploading(at, logs, {})) && at.remote == id && at.here == HereOf(at.state, id)
      requires at.here == Here(at.tip, None) && (at.tip.Some? ==> Published(remote, at.tip.value))
      modifies this`writer, this`remote, this`budget
      ensures Reached(Idle)
      ensures outcome == Crashed ==> budget == 0
      ensures outcome == Done ==> Recorded()
      ensures remote.blobs == old(remote.blobs) && old(remote.packs) <= remote.packs
      ensures outcome == Done ==>
                HereOf(writer, id).last == at.tip || HereOf(writer, id).last.value.previous == at.tip
      ensures old(Alone(Uploading(at, logs, {}))) ==>
                && outcome != Failed && (outcome == Crashed ==> old(budget) < 3 + ClaimOps())
                && (outcome == Done ==> Alone(Idle) && SettledConfig(env, id, At(Idle)))
    {
      hide Reaches, AloneConfig, SettledConfig, BeginStep, ReconcileStep, CaptureStep, RereadStep, RootedAt;
      ghost var uploaded := At(Uploading(at, logs, {}));
      ghost var alone := Alone(Uploading(at, logs, {}));
      if alone { AloneSends(env, sid, others, id, uploaded); }
      var next := NextRef(env, at, logs);
      var pack := next.packs[|next.packs| - 1];
      var alive := Spend();
      if !alive {
        Stop(Uploading(at, logs, {}));
        return Crashed;
      }
      if at.tip.Some? && at.tip.value.root == next.root {
        writer := at.state;
        ReachesStep(env, sid, id, start, uploaded, At(Idle));
        if alone { AloneStep(env, sid, others, id, uploaded, At(Idle)); }
        return Done;
      }
      if pack == {} || !RootedAt(next.root, pack) {
        ReachesStep(env, sid, id, start, uploaded, At(Idle));
        return Failed;
      }
      remote := remote.(packs := remote.packs + {pack});
      ghost var packed := At(Packed(at, next));
      ReachesStep(env, sid, id, start, uploaded, packed);
      if alone { AloneStep(env, sid, others, id, uploaded, packed); }
      outcome := SendRef(at, next);
    }

    /** From the uploaded pack to the recorded ref. */
    method SendRef(at: Attempt, next: Ref) returns (outcome: Outcome)
      requires Reached(Packed(at, next)) && at.remote == id && next.writer == at.state.id
      requires next.root == env.champ.save(logs)
      modifies this`writer, this`remote, this`budget
      ensures Reached(Idle)
      ensures outcome == Crashed ==> budget == 0
      ensures outcome == Done ==> Recorded()
      ensures remote.blobs == old(remote.blobs) && old(remote.packs) <= remote.packs
      ensures outcome == Done ==> HereOf(writer, id).last == Some(next)
      ensures old(Alone(Packed(at, next))) ==>
                && outcome != Failed && (outcome == Crashed ==> old(budget) < 2 + ClaimOps())
                && (outcome == Done ==> Alone(Idle) && SettledConfig(env, id, At(Idle)))
    {
      hide Reaches, AloneConfig, SettledConfig, BeginStep, ReconcileStep, CaptureStep, RereadStep;
      ghost var packed := At(Packed(at, next));
      ghost var alone := Alone(Packed(at, next));
      var alive, after := SaveRemote(at, at.here.(pending := Some(next)));
      if !alive {
        Stop(Packed(at, next));
        return Crashed;
      }
      ghost var claiming := At(Claiming(after, next, false, Trying));
      ReachesStep(env, sid, id, start, packed, claiming);
      if alone { AloneStep(env, sid, others, id, packed, claiming); }
      outcome := PublishRef(after, next, false);
      if outcome != Done {
        return;
      }
      ghost var claimed := At(Claimed(after, next, false));
      alive, after := SaveRemote(after, Here(Some(next), None));
      if !alive {
        Stop(claimed.store.job);
        return Crashed;
      }
      ReachesStep(env, sid, id, start, claimed, At(Idle));
      if alone { AloneStep(env, sid, others, id, claimed, At(Idle)); }
      return Done;
    }

    /** `publish`: every call, however it ends, is a path of the protocol's steps. A call that is done leaves its ref
        recorded; the only store of a writer never fails, and given enough operations before a crash it settles. */
    method Publish() returns (outcome: Outcome)
      requires At(Idle) == start
      modifies this`writer, this`remote, this`budget
      ensures Reached(Idle)
      ensures outcome == Crashed ==> budget == 0
      ensures outcome == Done ==> Recorded() && Uploaded() && Checked()
      ensures old(Alone(Idle)) ==>
                && outcome != Failed && (old(budget) >= |BlobsOf(logs)| + 4 + 2 * ClaimOps() ==> outcome == Done)
                && (outcome == Done ==> Alone(Idle) && SettledConfig(env, id, At(Idle)))
    {
      hide Reaches, AloneConfig, SettledConfig, LatestRef, BlobsOf, Loadable, Contains;
      ghost var alone := Alone(Idle);
      ReachesItself(env, sid, id, start);
      if alone { AloneReads(env, sid, others, id, At(Idle)); }
      var tip := ReadLatestRef(remote, writer.id);
      if tip.Failure? {
        return Failed;
      }
      TipIsPublished(remote, writer.id);
      var state := Adopt(writer, id, tip.value);
      var at := Attempt(id, state, HereOf(state, id), tip.value);
      ghost var idle := At(Idle);
      ReachesStep(env, sid, id, start, idle, At(Began(at)));
      if alone { AloneStep(env, sid, others, id, idle, At(Began(at))); }
      outcome, at := ReconcilePending(at);
      if outcome != Done {
        return;
      }
      outcome := CaptureAndSend(at);
    }

    /** The rest of `publish`, once nothing is pending. */
    method CaptureAndSend(at: Attempt) returns (outcome: Outcome)
      requires Reached(Settled(at)) && at.remote == id && at.here == HereOf(at.state, id)
      requires at.here.pending == None && (at.tip.Some? ==> Published(remote, at.tip.value))
      modifies this`writer, this`remote, this`budget
      ensures Reached(Idle)
      ensures outcome == Crashed ==> budget == 0
      ensures outcome == Done ==> Recorded() && Uploaded() && Checked()
      ensures at.tip != at.here.last
              || (at.tip.Some? &&
                  !(Loadable(old(remote), at.tip.value) && Contains(logs, LedgerOf(env, at.tip.value)))) ==>
                outcome == Failed && remote == old(remote) && writer == old(writer)
      ensures old(Alone(Settled(at))) ==>
                && outcome != Failed && (outcome == Crashed ==> old(budget) < |BlobsOf(logs)| + 3 + ClaimOps())
                && (outcome == Done ==> Alone(Idle) && SettledConfig(env, id, At(Idle)))
    {
      hide Reaches, AloneConfig, SettledConfig, LatestRef, BlobsOf, Loadable, Contains;
      ghost var settled := At(Settled(at));
      ghost var alone := Alone(Settled(at));
      if alone { AloneCaptures(env, sid, others, id, settled); }
      if at.tip != at.here.last
         || (at.tip.Some? && !Loadable(remote, at.tip.value))
         || (at.tip.Some? && !Contains(logs, env.champ.load(at.tip.value.root))) {
        ReachesStep(env, sid, id, start, settled, At(Idle));
        return Failed;
      }
      ghost var uploading := At(Uploading(at, logs, BlobsOf(logs)));
      ReachesStep(env, sid, id, start, settled, uploading);
      if alone { AloneStep(env, sid, others, id, settled, uploading); }
      outcome := UploadBlobs(at);
      if outcome != Done {
        return;
      }
      outcome := SendLedger(at);
      if at.tip.Some? { LoadedContinues(env, logs, settled.remote, remote, at.tip.value); }
    }
  }
}
