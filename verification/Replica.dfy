/**
 Publishing checkpoints to passive remotes, as a transition system (src/replica.rs, src/writer.rs).

 One step is one durable operation of one process. Hashes stand for what they hash: a ref names its
 predecessor by value and its packs by their objects.
 */
module Replica {
  import opened Wrappers
  import opened Claims
  import opened CausalGraph
  import opened Convergence
  import opened Document
  import opened Merkle
  import opened Slots

  type Writer = string
  type RemoteId = string
  type StoreId = nat
  type Hash = string

  /** Document ID to that document's claims by ID. */
  type Ledger = map<Id, CausalSet>

  type Pack = set<Object>

  /** A writer ref. Its sequence is not bounded here; the program stops at 2^64 - 1. */
  datatype Ref = Ref(writer: Writer, sequence: nat, previous: Option<Ref>, root: Object, packs: seq<Pack>)

  /** The ledger's map format: a canonical tree of nodes per ledger. */
  datatype Champ = Champ(save: Ledger -> Object, load: Object -> Ledger)

  /** What a run takes as given: the map format, claim identity, and the claims ever minted in it, by ID. */
  datatype Env = Env(champ: Champ, idOf: Identity, minted: CausalSet)

  ghost predicate Lossless(env: Env) {
    forall l :: env.champ.load(env.champ.save(l)) == l
  }

  datatype Remote = Remote(refs: map<Writer, map<nat, Slot<Ref>>>, blobs: set<Hash>, packs: set<Pack>)

  /** `RemoteState` in writer.json. */
  datatype Here = Here(last: Option<Ref>, pending: Option<Ref>)

  /** writer.json. `unassigned` is publish state from before it was kept per remote. */
  datatype WriterState = WriterState(id: Writer, remotes: map<RemoteId, Here>, unassigned: Option<Here>)

  /** A publish in progress: which remote, the state in memory, and the tip it read. */
  datatype Attempt = Attempt(remote: RemoteId, state: WriterState, here: Here, tip: Option<Ref>)

  datatype Job =
    | Idle
    | Began(at: Attempt)
    | Settled(at: Attempt)
    | Uploading(at: Attempt, ledger: Ledger, todo: set<Hash>)
    | Packed(at: Attempt, next: Ref)
    | Claiming(at: Attempt, next: Ref, retry: bool, stage: Stage)
    | Claimed(at: Attempt, next: Ref, retry: bool)
    | Rereading(at: Attempt)

  /** A working store: writer.json, the logs, local content, and the process using it. */
  datatype Store = Store(writer: WriterState, logs: Ledger, blobs: set<Hash>, job: Job)

  datatype World = World(stores: map<StoreId, Store>, remotes: map<RemoteId, Remote>)

  // ----- ledgers -----

  predicate ContainsSet(big: CausalSet, small: CausalSet) {
    forall id | id in small :: id in big && big[id] == small[id]
  }

  /** `ensure_prior_claims` passes. */
  predicate Contains(big: Ledger, small: Ledger) {
    forall doc | doc in small :: doc in big && ContainsSet(big[doc], small[doc])
  }

  ghost predicate HasClaim(l: Ledger, doc: Id, id: Id, c: Claim) {
    doc in l && id in l[doc] && l[doc][id] == c
  }

  /** Content hashes the ledger's versions name. */
  function BlobsOf(l: Ledger): set<Hash> {
    set doc, id | doc in l && id in l[doc] && l[doc][id].Version? :: l[doc][id].hash
  }

  /** Exactly the content hash of every version of every document. */
  lemma BlobsAreTheVersions(l: Ledger)
    ensures forall h :: h in BlobsOf(l) <==> exists doc, id, c :: HasClaim(l, doc, id, c) && c.Version? && c.hash == h
  {
    forall h ensures h in BlobsOf(l) <==> exists doc, id, c :: HasClaim(l, doc, id, c) && c.Version? && c.hash == h {
      if h in BlobsOf(l) {
        var doc, id :| doc in l && id in l[doc] && l[doc][id].Version? && l[doc][id].hash == h;
        assert HasClaim(l, doc, id, l[doc][id]);
      }
    }
  }

  /** Every document folds, and every claim is one that was minted. */
  ghost predicate LedgerOk(env: Env, l: Ledger) {
    forall doc | doc in l :: IsDocument(env.idOf, doc, l[doc]) && ContainsSet(env.minted, l[doc])
  }

  function LedgerOf(env: Env, r: Ref): Ledger {
    env.champ.load(r.root)
  }

  // ----- reading a remote -----

  function SlotAt(r: Remote, w: Writer, k: nat): Slot<Ref> {
    if w in r.refs && k in r.refs[w] then r.refs[w][k] else Empty
  }

  function WithSlot(r: Remote, w: Writer, k: nat, slot: Slot<Ref>): Remote {
    r.(refs := r.refs[w := (if w in r.refs then r.refs[w] else map[])[k := slot]])
  }

  function Objects(packs: seq<Pack>): set<Object> {
    set i, o | 0 <= i < |packs| && o in packs[i] :: o
  }

  /** The checks `latest_ref` makes of one ref after its predecessor. */
  predicate Links(w: Writer, k: nat, previous: Option<Ref>, r: Ref) {
    && r.writer == w && r.sequence == k
    && k == (if previous.Some? then previous.value.sequence + 1 else 1)
    && r.previous == previous
    && r.packs != []
    && (previous.Some? ==> previous.value.packs <= r.packs)
  }

  ghost predicate IsMin(k: nat, s: set<nat>) {
    k in s && forall x | x in s :: k <= x
  }

  lemma {:induction false} MinExists(s: set<nat>)
    requires s != {}
    ensures exists k :: IsMin(k, s)
  {
    var x :| x in s;
    if s == {x} {
      assert IsMin(x, s);
    } else {
      MinExists(s - {x});
      var k :| IsMin(k, s - {x});
      var least := if x < k then x else k;
      assert forall y | y in s :: y == x || y in s - {x};
      assert IsMin(least, s);
    }
  }

  ghost function Min(s: set<nat>): (k: nat)
    requires s != {}
    ensures IsMin(k, s)
  {
    MinExists(s);
    var k :| IsMin(k, s);
    k
  }

  /** `refs_for` and `latest_ref`: refs in sequence order; only the highest may be unreadable. */
  ghost function ReadChain(w: Writer, slots: map<nat, Slot<Ref>>, rest: set<nat>,
                           previous: Option<Ref>): Result<Option<Ref>, ()>
    requires rest <= slots.Keys
  {
    if rest == {} then Success(previous)
    else
      var k := Min(rest);
      if !slots[k].Complete? then
        if rest == {k} then Success(previous) else Failure(())
      else if Links(w, k, previous, slots[k].value) then ReadChain(w, slots, rest - {k}, Some(slots[k].value))
      else Failure(())
  }

  ghost function LatestRef(r: Remote, w: Writer): Result<Option<Ref>, ()> {
    if w in r.refs then ReadChain(w, r.refs[w], r.refs[w].Keys, None) else Success(None)
  }

  /** The file in slot `k` is a whole ref of `w` that names the ref below it and keeps all its packs. */
  ghost predicate ChainedAt(w: Writer, slots: map<nat, Slot<Ref>>, k: nat) {
    && k >= 1 && k in slots && slots[k].Complete?
    && var r := slots[k].value;
       && r.writer == w && r.sequence == k && |r.packs| > 0
       && if k == 1 then r.previous == None
          else
            && k - 1 in slots && slots[k - 1].Complete? && r.previous == Some(slots[k - 1].value)
            && |slots[k - 1].value.packs| <= |r.packs|
            && forall i | 0 <= i < |slots[k - 1].value.packs| :: r.packs[i] == slots[k - 1].value.packs[i]
  }

  /** Slots 1 to `n` are such a chain; at most one more file exists, above them, and it is not a whole ref. */
  ghost predicate ChainOf(w: Writer, slots: map<nat, Slot<Ref>>, n: nat) {
    && (forall k | 1 <= k <= n :: ChainedAt(w, slots, k))
    && (forall k | k in slots && !(1 <= k <= n) :: !slots[k].Complete? && forall j | j in slots :: j <= k)
  }

  ghost function RefAt(slots: map<nat, Slot<Ref>>, n: nat): Option<Ref> {
    if n in slots && slots[n].Complete? && n >= 1 then Some(slots[n].value) else None
  }

  function SlotsOf(r: Remote, w: Writer): map<nat, Slot<Ref>> {
    if w in r.refs then r.refs[w] else map[]
  }

  lemma LinksChain(w: Writer, slots: map<nat, Slot<Ref>>, n: nat, k: nat)
    requires n >= 1 ==> ChainedAt(w, slots, n)
    requires k in slots && slots[k].Complete?
    ensures Links(w, k, if n >= 1 then RefAt(slots, n) else None, slots[k].value) <==>
            k == n + 1 && ChainedAt(w, slots, k)
  {
    var r := slots[k].value;
    if n >= 1 {
      var below := slots[n].value;
      assert RefAt(slots, n) == Some(below);
      assert below.packs <= r.packs <==>
             |below.packs| <= |r.packs| && forall i | 0 <= i < |below.packs| :: r.packs[i] == below.packs[i];
    }
  }

  /** From slot `n` on, with the files from there up still to read. */
  lemma {:induction false} ReadChainMeans(w: Writer, slots: map<nat, Slot<Ref>>, rest: set<nat>, n: nat, t: Option<Ref>)
    requires forall k | 1 <= k <= n :: ChainedAt(w, slots, k)
    requires rest <= slots.Keys && forall k | k in slots :: k in rest <==> !(1 <= k <= n)
    requires forall j, k | j in slots && j !in rest && k in rest :: j < k
    ensures ReadChain(w, slots, rest, if n >= 1 then RefAt(slots, n) else None) == Success(t) <==>
            exists m: nat :: m >= n && ChainOf(w, slots, m) && t == if m >= 1 then RefAt(slots, m) else None
    decreases rest
  {
    var previous := if n >= 1 then RefAt(slots, n) else None;
    if rest == {} {
      forall m: nat | m > n ensures !ChainOf(w, slots, m) {
        TopInSlots(w, slots, m);
      }
      assert ChainOf(w, slots, n);
    } else {
      var k := Min(rest);
      if slots[k].Complete? {
        LinksChain(w, slots, n, k);
        forall m: nat | m >= n && ChainOf(w, slots, m) ensures m >= n + 1 && k == n + 1 && ChainedAt(w, slots, k) {
          NextIsLeast(w, slots, rest, n, m, k);
        }
        if Links(w, k, previous, slots[k].value) {
          assert RefAt(slots, k) == Some(slots[k].value);
          ReadChainMeans(w, slots, rest - {k}, k, t);
        }
      } else {
        forall m: nat | m >= n && ChainOf(w, slots, m) ensures m == n && rest == {k} {
          EndIsLeast(w, slots, rest, n, m, k);
        }
        if rest == {k} { assert ChainOf(w, slots, n); }
      }
    }
  }

  lemma NextIsLeast(w: Writer, slots: map<nat, Slot<Ref>>, rest: set<nat>, n: nat, m: nat, k: nat)
    requires rest <= slots.Keys && (forall x | x in slots :: x in rest <==> !(1 <= x <= n)) && IsMin(k, rest)
    requires slots[k].Complete? && m >= n && ChainOf(w, slots, m)
    ensures m >= n + 1 && k == n + 1 && ChainedAt(w, slots, k)
  {
    hide ChainedAt;
    assert 1 <= k <= m;
    assert ChainedAt(w, slots, n + 1);
    assert n + 1 in slots by { InSlots(w, slots, n + 1); }
  }

  lemma EndIsLeast(w: Writer, slots: map<nat, Slot<Ref>>, rest: set<nat>, n: nat, m: nat, k: nat)
    requires rest <= slots.Keys && (forall x | x in slots :: x in rest <==> !(1 <= x <= n)) && IsMin(k, rest)
    requires !slots[k].Complete? && m >= n && ChainOf(w, slots, m)
    ensures m == n && rest == {k}
  {
    hide ChainedAt;
    if 1 <= k <= m { InSlots(w, slots, k); }
    if m > n { InSlots(w, slots, n + 1); }
    forall x | x in rest ensures x == k {
      assert x <= k && k <= x;
    }
  }

  lemma InSlots(w: Writer, slots: map<nat, Slot<Ref>>, k: nat)
    requires ChainedAt(w, slots, k)
    ensures k in slots && slots[k].Complete?
  {
  }

  lemma TopInSlots(w: Writer, slots: map<nat, Slot<Ref>>, n: nat)
    ensures ChainOf(w, slots, n) && n >= 1 ==> n in slots
  {
    if ChainOf(w, slots, n) && n >= 1 { assert ChainedAt(w, slots, n); }
  }

  /** What `latest_ref` accepts, on any remote whatever: a chain of whole refs from 1 up with no gap, and above it at
      the most one file that is not a whole ref. It returns the top of the chain. */
  lemma LatestRefMeans(r: Remote, w: Writer, t: Option<Ref>)
    ensures LatestRef(r, w) == Success(t) <==>
            exists n: nat :: ChainOf(w, SlotsOf(r, w), n) && t == if n >= 1 then RefAt(SlotsOf(r, w), n) else None
  {
    var slots := SlotsOf(r, w);
    ReadChainMeans(w, slots, slots.Keys, 0, t);
  }

  // ----- writer.json -----

  /** `WriterState::remote`: old unassigned state moves to the remote whose tip is its last or pending ref. */
  predicate Moves(s: WriterState, remote: RemoteId, tip: Option<Ref>) {
    && remote !in s.remotes && s.unassigned.Some? && tip.Some?
    && (tip == s.unassigned.value.last || tip == s.unassigned.value.pending)
  }

  function Adopt(s: WriterState, remote: RemoteId, tip: Option<Ref>): WriterState {
    if Moves(s, remote, tip) then s.(unassigned := None, remotes := s.remotes[remote := s.unassigned.value]) else s
  }

  function HereOf(s: WriterState, remote: RemoteId): Here {
    if remote in s.remotes then s.remotes[remote] else Here(None, None)
  }

  function SetRemote(s: WriterState, remote: RemoteId, here: Here): WriterState {
    s.(remotes := s.remotes[remote := here])
  }

  function Fork(s: WriterState, id: Writer): WriterState {
    WriterState(id, map[], None)
  }

  // ----- steps of one publish -----

  /** Takes the lock, reads the tip and this remote's state. */
  ghost predicate BeginStep(s: Store, r: Remote, s': Store, remote: RemoteId) {
    && s.job.Idle? && LatestRef(r, s.writer.id).Success?
    && var tip := LatestRef(r, s.writer.id).value;
       var state := Adopt(s.writer, remote, tip);
       s' == s.(job := Began(Attempt(remote, state, HereOf(state, remote), tip)))
  }

  function SequenceOf(previous: Option<Ref>): nat {
    if previous.Some? then previous.value.sequence else 0
  }

  /** `reconcile_pending` before it sends anything. */
  ghost predicate ReconcileStep(s: Store, s': Store) {
    && s.job.Began?
    && var at := s.job.at;
       match at.here.pending
       case None => s' == s.(job := Settled(at))
       case Some(p) =>
         if p.writer != at.state.id || p.previous != at.here.last then s' == s.(job := Idle)
         else if at.tip == Some(p) then
           var here := Here(Some(p), None);
           var state := SetRemote(at.state, at.remote, here);
           s' == s.(writer := state, job := Settled(at.(state := state, here := here)))
         else if at.tip != at.here.last then s' == s.(job := Idle)
         else s' == s.(job := Claiming(at, p, true, Trying))
  }

  /** `load_objects` and `ChampMap::load`: every pack and every node of the root is there. */
  predicate Loadable(r: Remote, reference: Ref) {
    && (forall pack | pack in reference.packs :: pack in r.packs)
    && Reachable(reference.root) <= Objects(reference.packs)
  }

  /** The tip check, `ledger_from_logs`, loading the prior ledger and `ensure_prior_claims`. */
  ghost predicate CaptureStep(env: Env, s: Store, r: Remote, s': Store) {
    && s.job.Settled?
    && var at := s.job.at;
       if at.tip != at.here.last then s' == s.(job := Idle)
       else if at.tip.Some? && !Loadable(r, at.tip.value) then s' == s.(job := Idle)
       else if at.tip.Some? && !Contains(s.logs, LedgerOf(env, at.tip.value)) then s' == s.(job := Idle)
       else s' == s.(job := Uploading(at, s.logs, BlobsOf(s.logs)))
  }

  /** `put_blob` for one referenced blob; a missing local blob stops the publish. */
  ghost predicate BlobStep(s: Store, r: Remote, s': Store, r': Remote) {
    && s.job.Uploading? && s.job.todo != {}
    && exists h ::
         && h in s.job.todo
         && if h in s.blobs then
              r' == r.(blobs := r.blobs + {h}) && s' == s.(job := s.job.(todo := s.job.todo - {h}))
            else r' == r && s' == s.(job := Idle)
  }

  /** The objects the remote has from this writer already. */
  function PriorObjects(tip: Option<Ref>): set<Object> {
    if tip.Some? then Objects(tip.value.packs) else {}
  }

  function NextRef(env: Env, at: Attempt, ledger: Ledger): Ref {
    var root := env.champ.save(ledger);
    var pack := Reachable(root) - PriorObjects(at.tip);
    Ref(at.state.id, SequenceOf(at.tip) + 1, at.tip, root, (if at.tip.Some? then at.tip.value.packs else []) + [pack])
  }

  /** Nothing changed, or the pack of new nodes is uploaded. */
  ghost predicate PackStep(env: Env, s: Store, r: Remote, s': Store, r': Remote) {
    && s.job.Uploading? && s.job.todo == {}
    && var at := s.job.at;
       var next := NextRef(env, at, s.job.ledger);
       var pack := next.packs[|next.packs| - 1];
       if at.tip.Some? && at.tip.value.root == next.root then r' == r && s' == s.(writer := at.state, job := Idle)
       else if pack == {} || !RootedAt(next.root, pack) then r' == r && s' == s.(job := Idle)
       else r' == r.(packs := r.packs + {pack}) && s' == s.(job := Packed(at, next))
  }

  /** The pending ref becomes durable before the remote sees it. */
  ghost predicate SaveStep(s: Store, s': Store) {
    && s.job.Packed?
    && var at := s.job.at;
       var here := at.here.(pending := Some(s.job.next));
       var state := SetRemote(at.state, at.remote, here);
       s' == s.(writer := state, job := Claiming(at.(state := state, here := here), s.job.next, false, Trying))
  }

  /** The publish after its attempt on the slot has come to `stage`. */
  function AfterClaim(job: Job, stage: Stage): Job
    requires job.Claiming?
  {
    match stage
    case Won => Claimed(job.at, job.next, job.retry)
    case Lost => Idle
    case _ => job.(stage := stage)
  }

  /** One step of `publish_ref`: a move of the write-once slot. */
  ghost predicate ClaimStep(sid: StoreId, s: Store, r: Remote, s': Store, r': Remote) {
    && s.job.Claiming?
    && var w, next := s.job.at.state.id, s.job.next;
       var slot, slot' := SlotAt(r, w, next.sequence), SlotAt(r', w, next.sequence);
       && r' == (if slot' == slot then r else WithSlot(r, w, next.sequence, slot'))
       && exists stage: Stage ::
            ClaimMove(sid, next, slot, s.job.stage, slot', stage) && s' == s.(job := AfterClaim(s.job, stage))
  }

  /** The claimed ref becomes this remote's last ref. */
  ghost predicate RecordStep(s: Store, s': Store) {
    && s.job.Claimed?
    && var at := s.job.at;
       var here := Here(Some(s.job.next), None);
       var state := SetRemote(at.state, at.remote, here);
       var after := at.(state := state, here := here);
       s' == s.(writer := state, job := if s.job.retry then Rereading(after) else Idle)
  }

  /** After a retried ref, the tip is read again. */
  ghost predicate RereadStep(s: Store, r: Remote, s': Store) {
    && s.job.Rereading?
    && match LatestRef(r, s.job.at.state.id)
       case Failure(_) => s' == s.(job := Idle)
       case Success(tip) => s' == s.(job := Settled(s.job.at.(tip := tip)))
  }

  ghost predicate PublishStep(env: Env, sid: StoreId, remote: RemoteId, s: Store, r: Remote, s': Store, r': Remote) {
    match s.job
    case Idle => BeginStep(s, r, s', remote) && r' == r
    case Began(_) => ReconcileStep(s, s') && r' == r
    case Settled(_) => CaptureStep(env, s, r, s') && r' == r
    case Uploading(_, _, _) => BlobStep(s, r, s', r') || PackStep(env, s, r, s', r')
    case Packed(_, _) => SaveStep(s, s') && r' == r
    case Claiming(_, _, _, _) => ClaimStep(sid, s, r, s', r')
    case Claimed(_, _, _) => RecordStep(s, s') && r' == r
    case Rereading(_) => RereadStep(s, r, s') && r' == r
  }

  // ----- what the checks let through -----

  /** A pending ref is sent again only by the writer it was made by, after the ref it was made after, and only while
      that ref is the tip. It is taken over only when it is the tip itself. Otherwise the publish stops. */
  lemma ReconcileMeans(s: Store, s': Store)
    requires ReconcileStep(s, s')
    ensures var at, pending := s.job.at, s.job.at.here.pending;
            var own := pending.Some? && pending.value.writer == at.state.id && pending.value.previous == at.here.last;
            && (s'.job.Claiming? <==> own && at.tip == at.here.last && at.tip != pending)
            && (s'.job.Settled? <==> pending.None? || (own && at.tip == pending))
            && (s'.job.Claiming? ==>
                  s'.job.next == pending.value && s'.job.retry && s'.job.stage == Trying && s'.job.at == at)
            && (s'.job.Settled? && pending.Some? ==>
                  && s'.writer == at.state.(remotes := at.state.remotes[at.remote := Here(pending, None)])
                  && s'.job.at == Attempt(at.remote, s'.writer, Here(pending, None), at.tip))
            && (s'.job.Settled? && pending.None? ==> s'.job.at == at)
            && (!s'.job.Claiming? && !s'.job.Settled? ==> s'.job == Idle)
            && (!s'.job.Settled? || pending.None? ==> s'.writer == s.writer)
            && s'.logs == s.logs && s'.blobs == s.blobs
  {
  }

  /** A publish goes on to sending exactly when the tip is the last ref this store knows, all of the tip's objects are
      on the remote, and this store has all of its claims. It then has the content of every version to send. */
  lemma CaptureMeans(env: Env, s: Store, r: Remote, s': Store)
    requires CaptureStep(env, s, r, s')
    ensures var tip := s.job.at.tip;
            s'.job.Uploading? <==>
            && tip == s.job.at.here.last
            && (tip.Some? ==>
                  && (forall pack | pack in tip.value.packs :: pack in r.packs)
                  && (forall o | o in Reachable(tip.value.root) :: exists pack :: pack in tip.value.packs && o in pack)
                  && (forall doc | doc in LedgerOf(env, tip.value) ::
                        && doc in s.logs
                        && forall id | id in LedgerOf(env, tip.value)[doc] ::
                             HasClaim(s.logs, doc, id, LedgerOf(env, tip.value)[doc][id])))
    ensures s'.job.Uploading? ==>
              && s' == s.(job := Uploading(s.job.at, s.logs, s'.job.todo))
              && forall h :: h in s'.job.todo <==>
                             exists doc, id, c :: HasClaim(s.logs, doc, id, c) && c.Version? && c.hash == h
    ensures !s'.job.Uploading? ==> s' == s.(job := Idle)
  {
    BlobsAreTheVersions(s.logs);
    if s.job.at.tip.Some? {
      LoadableMeans(r, s.job.at.tip.value);
      ContainsMeans(s.logs, LedgerOf(env, s.job.at.tip.value));
    }
    hide LedgerOf, Contains, Loadable, Reachable, BlobsOf;
  }

  lemma ContainsMeans(big: Ledger, small: Ledger)
    ensures Contains(big, small) <==>
            forall doc | doc in small ::
              doc in big && forall id | id in small[doc] :: HasClaim(big, doc, id, small[doc][id])
  {
    forall doc | doc in small && doc in big
      ensures ContainsSet(big[doc], small[doc]) <==>
              forall id | id in small[doc] :: HasClaim(big, doc, id, small[doc][id]) {
    }
  }

  lemma LoadableMeans(r: Remote, tip: Ref)
    ensures Loadable(r, tip) <==>
            && (forall pack | pack in tip.packs :: pack in r.packs)
            && (forall o | o in Reachable(tip.root) :: exists pack :: pack in tip.packs && o in pack)
  {
    InSomePack(Reachable(tip.root), tip.packs);
    var packed := forall o | o in Reachable(tip.root) :: exists pack :: pack in tip.packs && o in pack;
    assert packed <==> Reachable(tip.root) <= Objects(tip.packs);
  }

  lemma InSomePack(objects: set<Object>, packs: seq<Pack>)
    ensures objects <= Objects(packs) <==> forall o | o in objects :: exists pack :: pack in packs && o in pack
  {
    forall o ensures o in Objects(packs) <==> exists pack :: pack in packs && o in pack {
      if o in Objects(packs) {
        var i :| 0 <= i < |packs| && o in packs[i];
        assert packs[i] in packs;
      }
    }
  }

  // ----- steps of the world -----

  /** A new store, or one recovered elsewhere: no publish state yet. */
  ghost predicate NewStoreStep(env: Env, w: World, w': World, sid: StoreId) {
    && sid !in w.stores && sid in w'.stores && w' == w.(stores := w.stores[sid := w'.stores[sid]])
    && var s := w'.stores[sid];
       s.writer.remotes == map[] && s.writer.unassigned == None && s.job.Idle? && StoreContentOk(env, s)
  }

  /** A copy of a store's files, taken at any moment; the process is not copied. */
  ghost predicate CopyStep(w: World, w': World, sid: StoreId, source: StoreId) {
    && sid !in w.stores && source in w.stores
    && w' == w.(stores := w.stores[sid := w.stores[source].(job := Idle)])
  }

  /** Logs fold and stay within what was minted; content is stored before the claims that name it. */
  ghost predicate StoreContentOk(env: Env, s: Store) {
    LedgerOk(env, s.logs) && BlobsOf(s.logs) <= s.blobs
  }

  /** Appends to the logs; the store lock keeps a publish in progress out. */
  ghost predicate EditStep(env: Env, s: Store, s': Store) {
    && s.job.Idle? && s'.job.Idle? && s'.writer == s.writer
    && Contains(s'.logs, s.logs) && s.blobs <= s'.blobs && StoreContentOk(env, s')
  }

  /** `fork_writer`: a freshly minted ID. */
  ghost predicate ForkStep(s: Store, s': Store) {
    && s.job.Idle? && s'.writer.id != s.writer.id && s' == s.(writer := Fork(s.writer, s'.writer.id))
  }

  /** A crash forgets the process and keeps every file. */
  ghost predicate CrashStep(s: Store, s': Store) {
    s' == s.(job := Idle)
  }

  /** writer.json as an old version kept it: one unassigned state, here for a store with one remote. */
  ghost predicate LegacyStep(s: Store, s': Store) {
    && s.job.Idle? && s.writer.unassigned == None && |s.writer.remotes| == 1
    && exists remote ::
         && remote in s.writer.remotes
         && s' == s.(writer := WriterState(s.writer.id, map[], Some(s.writer.remotes[remote])))
  }

  ghost predicate StoreStep(env: Env, w: World, w': World, sid: StoreId) {
    && sid in w.stores && sid in w'.stores && w' == w.(stores := w.stores[sid := w'.stores[sid]])
    && var s, s' := w.stores[sid], w'.stores[sid];
       EditStep(env, s, s') || ForkStep(s, s') || CrashStep(s, s') || LegacyStep(s, s')
  }

  /** The remote a store's process is working with; an idle process may choose any. */
  predicate WorksWith(s: Store, remote: RemoteId) {
    s.job.Idle? || s.job.at.remote == remote
  }

  ghost predicate RemoteStep(env: Env, w: World, w': World, sid: StoreId, remote: RemoteId) {
    && sid in w.stores && remote in w.remotes && sid in w'.stores && remote in w'.remotes
    && WorksWith(w.stores[sid], remote)
    && w' == World(w.stores[sid := w'.stores[sid]], w.remotes[remote := w'.remotes[remote]])
    && PublishStep(env, sid, remote, w.stores[sid], w.remotes[remote], w'.stores[sid], w'.remotes[remote])
  }

  ghost predicate Next(env: Env, w: World, w': World, sid: StoreId, source: StoreId, remote: RemoteId) {
    || NewStoreStep(env, w, w', sid)
    || CopyStep(w, w', sid, source)
    || StoreStep(env, w, w', sid)
    || RemoteStep(env, w, w', sid, remote)
  }
}
