/** Rebuilding a store from everything its writers published (src/replica.rs, `recover` and `latest_ref`). */
module Recovery {
  import opened Wrappers
  import opened Order
  import opened Bytes
  import opened Claims
  import opened CausalGraph
  import opened Fold
  import opened Convergence
  import opened Document
  import opened Merkle
  import opened Slots
  import opened Replica
  import opened ReplicaSafety
  import opened ReplicaTheorems

  datatype Recovered = Recovered(ledger: Ledger, blobs: set<Hash>)

  /** Claim IDs are 64 lowercase hex digits. */
  ghost predicate HexIds(env: Env) {
    forall c :: IsHex(env.idOf(c), 64)
  }

  // ----- latest_ref -----

  method PopMin(s: set<nat>) returns (k: nat, rest: set<nat>)
    requires s != {}
    ensures k == Min(s) && rest == s - {k}
  {
    MinExists(s);
    k :| k in s && forall x | x in s :: k <= x;
    rest := s - {k};
  }

  /** Reads the refs in sequence order, checking each against the one before. */
  method ReadLatestRef(r: Remote, w: Writer) returns (tip: Result<Option<Ref>, ()>)
    ensures tip == LatestRef(r, w)
  {
    if w !in r.refs {
      return Success(None);
    }
    var slots := r.refs[w];
    var rest := slots.Keys;
    var previous: Option<Ref> := None;
    while rest != {}
      invariant rest <= slots.Keys
      invariant LatestRef(r, w) == ReadChain(w, slots, rest, previous)
      decreases rest
    {
      var k;
      k, rest := PopMin(rest);
      if !slots[k].Complete? {
        if rest == {} {
          return Success(previous);
        }
        return Failure(());
      }
      if !Links(w, k, previous, slots[k].value) {
        return Failure(());
      }
      previous := Some(slots[k].value);
    }
    return Success(previous);
  }

  // ----- merging ledgers -----

  function DocIn(l: Ledger, doc: Id): CausalSet {
    if doc in l then l[doc] else map[]
  }

  function Merge(a: Ledger, b: Ledger): Ledger {
    map doc | doc in a.Keys + b.Keys :: if doc in b then DocIn(a, doc) + b[doc] else a[doc]
  }

  /** The checks on one stored claim. */
  predicate Belongs(env: Env, doc: Id, id: Id, c: Claim) {
    IsHex(id, 64) && IsNormal(c) && env.idOf(c) == id && (!c.Create? ==> c.doc == doc)
  }

  ghost predicate Mergeable(env: Env, a: CausalSet, doc: Id, b: CausalSet) {
    Agree(a, b) && forall id | id in b :: Belongs(env, doc, id, b[id])
  }

  ghost function Part(b: CausalSet, ids: set<Id>): CausalSet {
    map id | id in ids && id in b :: b[id]
  }

  lemma PartStep(a: CausalSet, b: CausalSet, done: set<Id>, id: Id)
    requires id in b && id !in done
    ensures (a + Part(b, done))[id := b[id]] == a + Part(b, done + {id})
    ensures id in a + Part(b, done) <==> id in a
    ensures id in a ==> (a + Part(b, done))[id] == a[id]
  {
    assert Part(b, done + {id}) == Part(b, done)[id := b[id]];
    hide Part;
  }

  lemma PartEnds(a: CausalSet, b: CausalSet)
    ensures a + Part(b, {}) == a && Part(b, b.Keys) == b
  {
    assert Part(b, {}) == map[];
  }

  method MergeClaims(env: Env, doc: Id, a: CausalSet, b: CausalSet) returns (merged: Option<CausalSet>)
    ensures merged.Some? <==> Mergeable(env, a, doc, b)
    ensures merged.Some? ==> merged.value == a + b
  {
    hide Belongs, Part;
    var into := a;
    var rest := b.Keys;
    PartEnds(a, b);
    assert b.Keys - rest == {};
    while rest != {}
      invariant rest <= b.Keys
      invariant into == a + Part(b, b.Keys - rest)
      invariant forall id | id in b.Keys - rest :: Belongs(env, doc, id, b[id]) && (id in a ==> a[id] == b[id])
      decreases rest
    {
      var id;
      ghost var done := b.Keys - rest;
      id, rest := PopFirst(rest);
      PartStep(a, b, done, id);
      assert b.Keys - rest == done + {id};
      if !Belongs(env, doc, id, b[id]) || (id in into && into[id] != b[id]) {
        return None;
      }
      into := into[id := b[id]];
    }
    assert b.Keys - rest == b.Keys;
    return Some(into);
  }

  ghost predicate MergeableLedgers(env: Env, a: Ledger, b: Ledger) {
    forall doc | doc in b :: IsHex(doc, 64) && Mergeable(env, DocIn(a, doc), doc, b[doc])
  }

  method MergeLedger(env: Env, a: Ledger, b: Ledger) returns (merged: Option<Ledger>)
    ensures merged.Some? <==> MergeableLedgers(env, a, b)
    ensures merged.Some? ==> merged.value == Merge(a, b)
  {
    hide IsHex, Mergeable, Merge;
    var into := a;
    var rest := b.Keys;
    while rest != {}
      invariant rest <= b.Keys
      invariant into.Keys == a.Keys + (b.Keys - rest)
      invariant forall doc | doc in into ::
                  into[doc] == if doc in b && doc !in rest then DocIn(a, doc) + b[doc] else a[doc]
      invariant forall doc | doc in b && doc !in rest :: IsHex(doc, 64) && Mergeable(env, DocIn(a, doc), doc, b[doc])
      decreases rest
    {
      var doc;
      doc, rest := PopFirst(rest);
      if !IsHex(doc, 64) {
        return None;
      }
      assert DocIn(into, doc) == DocIn(a, doc);
      var claims := MergeClaims(env, doc, DocIn(into, doc), b[doc]);
      if claims.None? {
        return None;
      }
      into := into[doc := claims.value];
    }
    MergedInto(a, b, into);
    return Some(into);
  }

  lemma MergedInto(a: Ledger, b: Ledger, into: Ledger)
    requires into.Keys == a.Keys + b.Keys
    requires forall doc | doc in into :: into[doc] == if doc in b then DocIn(a, doc) + b[doc] else a[doc]
    ensures into == Merge(a, b)
  {
  }

  // ----- what merging ledgers keeps -----

  lemma MintedAgree(env: Env, a: CausalSet, b: CausalSet)
    requires ContainsSet(env.minted, a) && ContainsSet(env.minted, b)
    ensures Agree(a, b) && ContainsSet(env.minted, a + b)
  {
  }

  lemma DocumentsBelong(env: Env, doc: Id, m: CausalSet)
    requires HexIds(env) && IsDocument(env.idOf, doc, m)
    ensures IsHex(doc, 64) && forall id | id in m :: Belongs(env, doc, id, m[id])
  {
    assert env.idOf(m[doc]) == doc;
    forall id | id in m ensures Belongs(env, doc, id, m[id]) {
      assert env.idOf(m[id]) == id;
    }
  }

  lemma UnionOfMinted(env: Env, doc: Id, a: CausalSet, b: CausalSet)
    requires IsDocument(env.idOf, doc, a) && IsDocument(env.idOf, doc, b)
    requires ContainsSet(env.minted, a) && ContainsSet(env.minted, b)
    ensures IsDocument(env.idOf, doc, a + b) && ContainsSet(env.minted, a + b)
    ensures ContainsSet(a + b, a) && ContainsSet(a + b, b)
  {
    MintedAgree(env, a, b);
    UnionOfDocuments(env.idOf, doc, a, b);
  }

  lemma MergedDocument(env: Env, a: Ledger, b: Ledger, doc: Id)
    requires doc in a ==> IsDocument(env.idOf, doc, a[doc]) && ContainsSet(env.minted, a[doc])
    requires doc in b ==> IsDocument(env.idOf, doc, b[doc]) && ContainsSet(env.minted, b[doc])
    requires doc in a || doc in b
    ensures var m := Merge(a, b)[doc];
            && IsDocument(env.idOf, doc, m) && ContainsSet(env.minted, m)
            && (doc in a ==> ContainsSet(m, a[doc])) && (doc in b ==> ContainsSet(m, b[doc]))
  {
    if doc in a && doc in b {
      UnionOfMinted(env, doc, a[doc], b[doc]);
    } else if doc in b {
      assert map[] + b[doc] == b[doc];
    }
  }

  lemma MintedLedgersMerge(env: Env, a: Ledger, b: Ledger)
    requires HexIds(env) && LedgerOk(env, a) && LedgerOk(env, b)
    ensures MergeableLedgers(env, a, b)
  {
    forall doc | doc in b ensures IsHex(doc, 64) && Mergeable(env, DocIn(a, doc), doc, b[doc]) {
      DocumentsBelong(env, doc, b[doc]);
      MintedAgree(env, DocIn(a, doc), b[doc]);
    }
  }

  /** Ledgers of minted claims always merge, and the result is again such a ledger holding both. */
  lemma MergeOfOk(env: Env, a: Ledger, b: Ledger)
    requires LedgerOk(env, a) && LedgerOk(env, b)
    ensures LedgerOk(env, Merge(a, b)) && Contains(Merge(a, b), a) && Contains(Merge(a, b), b)
  {
    forall doc | doc in Merge(a, b)
      ensures IsDocument(env.idOf, doc, Merge(a, b)[doc]) && ContainsSet(env.minted, Merge(a, b)[doc])
    {
      MergedDocument(env, a, b, doc);
    }
    forall doc | doc in a ensures doc in Merge(a, b) && ContainsSet(Merge(a, b)[doc], a[doc]) {
      MergedDocument(env, a, b, doc);
    }
    forall doc | doc in b ensures doc in Merge(a, b) && ContainsSet(Merge(a, b)[doc], b[doc]) {
      MergedDocument(env, a, b, doc);
    }
  }

  // ----- what recovery returns -----

  /** Some complete ref on the remote holds this claim. */
  ghost predicate PublishedClaim(env: Env, r: Remote, doc: Id, id: Id, c: Claim) {
    exists w: Writer, k: nat :: SlotAt(r, w, k).Complete? && HasClaim(LedgerOf(env, SlotAt(r, w, k).value), doc, id, c)
  }

  /** The refs recovery reads: one tip per writer that has one. */
  ghost predicate TipsOf(r: Remote, writers: set<Writer>, refs: seq<Ref>) {
    && (forall t | t in refs :: t.writer in writers && Published(r, t) && LatestRef(r, t.writer) == Success(Some(t)))
    && (forall w | w in writers ::
          LatestRef(r, w).Success? && (LatestRef(r, w).value.Some? ==> LatestRef(r, w).value.value in refs))
  }

  /** The ledger is exactly the union of the ledgers of `refs`. */
  ghost predicate UnionOf(env: Env, refs: seq<Ref>, l: Ledger) {
    && (forall t | t in refs :: Contains(l, LedgerOf(env, t)))
    && (forall doc, id, c :: HasClaim(l, doc, id, c) ==>
         exists t :: t in refs && HasClaim(LedgerOf(env, t), doc, id, c))
    && (forall doc | doc in l :: exists t :: t in refs && doc in LedgerOf(env, t))
  }

  lemma MergedClaims(a: Ledger, b: Ledger, doc: Id, id: Id, c: Claim)
    requires HasClaim(Merge(a, b), doc, id, c)
    ensures HasClaim(a, doc, id, c) || HasClaim(b, doc, id, c)
  {
  }

  lemma MergeContains(env: Env, a: Ledger, b: Ledger)
    requires MergeableLedgers(env, a, b)
    ensures Contains(Merge(a, b), a) && Contains(Merge(a, b), b)
  {
    forall doc | doc in a ensures doc in Merge(a, b) && ContainsSet(Merge(a, b)[doc], a[doc]) {
      if doc in b { assert Mergeable(env, DocIn(a, doc), doc, b[doc]); }
    }
    forall doc | doc in b ensures doc in Merge(a, b) && ContainsSet(Merge(a, b)[doc], b[doc]) {
      assert Mergeable(env, DocIn(a, doc), doc, b[doc]);
    }
  }

  lemma UnionStepOf(env: Env, refs: seq<Ref>, l: Ledger, t: Ref, all: Ledger)
    requires UnionOf(env, refs, l)
    requires all == Merge(l, LedgerOf(env, t)) && Contains(all, l) && Contains(all, LedgerOf(env, t))
    ensures UnionOf(env, refs + [t], all)
  {
    var b, more := LedgerOf(env, t), refs + [t];
    assert t in more && forall x | x in refs :: x in more;
    forall x | x in more ensures Contains(all, LedgerOf(env, x)) {
      if x in refs { ContainsTransitive(all, l, LedgerOf(env, x)); }
    }
    forall doc, id, c | HasClaim(all, doc, id, c)
      ensures exists x :: x in more && HasClaim(LedgerOf(env, x), doc, id, c)
    {
      MergedClaims(l, b, doc, id, c);
      if HasClaim(l, doc, id, c) {
        var x :| x in refs && HasClaim(LedgerOf(env, x), doc, id, c);
      }
    }
    forall doc | doc in all ensures exists x :: x in more && doc in LedgerOf(env, x) {
      if doc !in b {
        var x :| x in refs && doc in LedgerOf(env, x);
      }
    }
  }

  /** The tips hold every claim any writer ever published, and nothing else. */
  lemma TipsHoldEverything(env: Env, r: Remote, refs: seq<Ref>, l: Ledger)
    requires RemoteOk(env, r) && TipsOf(r, r.refs.Keys, refs) && UnionOf(env, refs, l)
    ensures forall w: Writer, k: nat :: SlotAt(r, w, k).Complete? ==> Contains(l, LedgerOf(env, SlotAt(r, w, k).value))
    ensures forall doc, id, c :: HasClaim(l, doc, id, c) ==> PublishedClaim(env, r, doc, id, c)
  {
    forall w: Writer, k: nat | SlotAt(r, w, k).Complete?
      ensures Contains(l, LedgerOf(env, SlotAt(r, w, k).value))
    {
      LatestRefFindsTip(env, r, w);
      var tip := LatestRef(r, w).value.value;
      ChainGrows(env, r, w, k, tip.sequence);
      assert tip in refs;
      ContainsTransitive(l, LedgerOf(env, tip), LedgerOf(env, SlotAt(r, w, k).value));
    }
    forall doc, id, c | HasClaim(l, doc, id, c) ensures PublishedClaim(env, r, doc, id, c) {
      var t :| t in refs && HasClaim(LedgerOf(env, t), doc, id, c);
      assert SlotAt(r, t.writer, t.sequence) == Complete(t);
    }
  }

  // ----- recover -----

  /** `to_ascii_uppercase`. */
  function Uppercase(s: string): string {
    seq(|s|, i requires 0 <= i < |s| => Upper(s[i]))
  }

  function Upper(c: char): char {
    if 'a' <= c <= 'z' then c - 'a' + 'A' else c
  }

  lemma UpperLetter(a: char, b: char)
    ensures Upper(a) == Upper(b) <==> a == b || OtherCase(a, b) || OtherCase(b, a)
  {
    assert 'a' <= a <= 'z' ==> Upper(a) as int == a as int - 32;
    assert 'a' <= b <= 'z' ==> Upper(b) as int == b as int - 32;
    assert Upper(a) == Upper(b) <==> Upper(a) as int == Upper(b) as int;
  }

  /** Letter by letter the same, but for the case of ASCII letters. */
  ghost predicate SameButCase(a: string, b: string) {
    |a| == |b| && forall i | 0 <= i < |a| :: a[i] == b[i] || OtherCase(a[i], b[i]) || OtherCase(b[i], a[i])
  }

  ghost predicate OtherCase(lower: char, upper: char) {
    'a' <= lower <= 'z' && upper as int == lower as int - 32
  }

  lemma UppercaseMeans(a: string, b: string)
    ensures SameButCase(a, b) <==> Uppercase(a) == Uppercase(b)
  {
    if |a| == |b| {
      forall i | 0 <= i < |a|
        ensures Uppercase(a)[i] == Uppercase(b)[i] <==> a[i] == b[i] || OtherCase(a[i], b[i]) || OtherCase(b[i], a[i]) {
        UpperLetter(a[i], b[i]);
      }
    }
    assert |Uppercase(a)| == |a| && |Uppercase(b)| == |b|;
  }

  /** No two of these writer IDs differ only by case. */
  ghost predicate CasesDiffer(writers: set<Writer>) {
    forall a, b | a in writers && b in writers && a != b :: !SameButCase(a, b)
  }

  /** `writers`: the directories of the remote, refused when a file system could take two of them for one. */
  method ListWriters(r: Remote) returns (listed: bool)
    ensures listed <==> CasesDiffer(r.refs.Keys)
  {
    forall a, b ensures SameButCase(a, b) <==> Uppercase(a) == Uppercase(b) {
      UppercaseMeans(a, b);
    }
    hide Uppercase, SameButCase;
    var folded: set<string> := {};
    var rest := r.refs.Keys;
    while rest != {}
      invariant rest <= r.refs.Keys && CasesDiffer(r.refs.Keys - rest)
      invariant folded == set w | w in r.refs.Keys - rest :: Uppercase(w)
      decreases rest
    {
      var w :| w in rest;
      if Uppercase(w) in folded {
        return false;
      }
      folded := folded + {Uppercase(w)};
      rest := rest - {w};
    }
    assert r.refs.Keys - rest == r.refs.Keys;
    return true;
  }

  /** The latest ref of every writer that has one. */
  method CollectTips(r: Remote) returns (out: Result<seq<Ref>, ()>)
    ensures out.Success? <==> CasesDiffer(r.refs.Keys) && forall w | w in r.refs.Keys :: LatestRef(r, w).Success?
    ensures out.Success? ==> TipsOf(r, r.refs.Keys, out.value)
  {
    var listed := ListWriters(r);
    if !listed {
      return Failure(());
    }
    var refs: seq<Ref> := [];
    var rest := r.refs.Keys;
    while rest != {}
      invariant rest <= r.refs.Keys
      invariant TipsOf(r, r.refs.Keys - rest, refs)
      decreases rest
    {
      ghost var done := r.refs.Keys - rest;
      var w;
      w, rest := PopFirst(rest);
      assert r.refs.Keys - rest == done + {w};
      TipIsPublished(r, w);
      var tip := ReadLatestRef(r, w);
      if tip.Failure? {
        return Failure(());
      }
      if tip.value.Some? {
        refs := refs + [tip.value.value];
      }
    }
    assert r.refs.Keys - rest == r.refs.Keys;
    return Success(refs);
  }

  /** Every pack the refs name is fetched; every node of their roots must be among the objects. */
  predicate AllLoad(r: Remote, refs: seq<Ref>) {
    && (forall t | t in refs :: forall pack | pack in t.packs :: pack in r.packs)
    && (forall t | t in refs :: forall o | o in Reachable(t.root) ::
          exists x | x in refs :: exists pack | pack in x.packs :: o in pack)
  }

  ghost predicate AllOk(env: Env, refs: seq<Ref>) {
    HexIds(env) && forall t | t in refs :: LedgerOk(env, LedgerOf(env, t))
  }

  method MergeAll(env: Env, refs: seq<Ref>) returns (merged: Option<Ledger>)
    ensures merged.Some? ==> UnionOf(env, refs, merged.value) && AllBelong(env, merged.value)
    ensures merged.None? ==> forall l :: !(UnionOf(env, refs, l) && AllBelong(env, l))
    ensures AllOk(env, refs) ==> merged.Some? && LedgerOk(env, merged.value)
  {
    var l: Ledger := map[];
    var i := 0;
    while i < |refs|
      invariant 0 <= i <= |refs|
      invariant UnionOf(env, refs[..i], l) && AllBelong(env, l)
      invariant AllOk(env, refs) ==> LedgerOk(env, l)
    {
      var next := MergeLedger(env, l, env.champ.load(refs[i].root));
      OkStep(env, refs, i, l);
      if next.None? {
        forall all ensures !(UnionOf(env, refs, all) && AllBelong(env, all)) {
          UnionMerges(env, refs, i, l, all);
        }
        return None;
      }
      MergeKeeps(env, refs[..i], l, refs[i]);
      assert refs[..i + 1] == refs[..i] + [refs[i]];
      l := next.value;
      i := i + 1;
    }
    assert refs[..i] == refs;
    return Some(l);
  }

  lemma OkStep(env: Env, refs: seq<Ref>, i: nat, l: Ledger)
    requires i < |refs|
    ensures AllOk(env, refs) && LedgerOk(env, l) ==>
              MergeableLedgers(env, l, LedgerOf(env, refs[i])) && LedgerOk(env, Merge(l, LedgerOf(env, refs[i])))
  {
    if AllOk(env, refs) && LedgerOk(env, l) {
      assert refs[i] in refs;
      MintedLedgersMerge(env, l, LedgerOf(env, refs[i]));
      MergeOfOk(env, l, LedgerOf(env, refs[i]));
    }
  }

  ghost predicate AllBelong(env: Env, l: Ledger) {
    forall doc | doc in l :: IsHex(doc, 64) && forall id | id in l[doc] :: Belongs(env, doc, id, l[doc][id])
  }

  /** The ledgers merge if any ledger is their union. */
  lemma UnionMerges(env: Env, refs: seq<Ref>, i: nat, l: Ledger, all: Ledger)
    requires i < |refs| && UnionOf(env, refs[..i], l)
    ensures UnionOf(env, refs, all) && AllBelong(env, all) ==> MergeableLedgers(env, l, LedgerOf(env, refs[i]))
  {
    if UnionOf(env, refs, all) && AllBelong(env, all) {
      var b := LedgerOf(env, refs[i]);
      assert refs[i] in refs;
      forall doc | doc in b ensures IsHex(doc, 64) && Mergeable(env, DocIn(l, doc), doc, b[doc]) {
        assert ContainsSet(all[doc], b[doc]);
        forall id | id in b[doc] && id in DocIn(l, doc) ensures DocIn(l, doc)[id] == b[doc][id] {
          assert HasClaim(l, doc, id, l[doc][id]);
          var t :| t in refs[..i] && HasClaim(LedgerOf(env, t), doc, id, l[doc][id]);
          assert t in refs && ContainsSet(all[doc], LedgerOf(env, t)[doc]);
        }
      }
    }
  }

  /** There is one union at the most. */
  lemma OneUnion(env: Env, refs: seq<Ref>, a: Ledger, b: Ledger)
    requires UnionOf(env, refs, a) && UnionOf(env, refs, b)
    ensures a == b
  {
    hide *;
    UnionHolds(env, refs, a, b);
    UnionHolds(env, refs, b, a);
    EachHoldsTheOther(a, b);
  }

  lemma EachHoldsTheOther(a: Ledger, b: Ledger)
    requires Contains(a, b) && Contains(b, a)
    ensures a == b
  {
    assert a.Keys == b.Keys;
    forall doc | doc in a ensures a[doc] == b[doc] {
      assert ContainsSet(b[doc], a[doc]) && ContainsSet(a[doc], b[doc]);
      assert a[doc].Keys == b[doc].Keys;
    }
  }

  lemma UnionHolds(env: Env, refs: seq<Ref>, a: Ledger, b: Ledger)
    requires UnionOf(env, refs, a) && UnionOf(env, refs, b)
    ensures Contains(a, b)
  {
    forall doc | doc in b ensures doc in a && ContainsSet(a[doc], b[doc]) {
      var t :| t in refs && doc in LedgerOf(env, t);
      forall id | id in b[doc] ensures id in a[doc] && a[doc][id] == b[doc][id] {
        assert HasClaim(b, doc, id, b[doc][id]);
        var x :| x in refs && HasClaim(LedgerOf(env, x), doc, id, b[doc][id]);
        assert ContainsSet(a[doc], LedgerOf(env, x)[doc]);
      }
    }
  }

  lemma MergeKeeps(env: Env, refs: seq<Ref>, l: Ledger, t: Ref)
    requires UnionOf(env, refs, l) && AllBelong(env, l) && MergeableLedgers(env, l, LedgerOf(env, t))
    ensures UnionOf(env, refs + [t], Merge(l, LedgerOf(env, t))) && AllBelong(env, Merge(l, LedgerOf(env, t)))
  {
    hide *;
    var b := LedgerOf(env, t);
    MergeContains(env, l, b);
    UnionStepOf(env, refs, l, t, Merge(l, b));
    MergeBelongs(env, l, b);
  }

  lemma MergeBelongs(env: Env, a: Ledger, b: Ledger)
    requires AllBelong(env, a) && MergeableLedgers(env, a, b)
    ensures AllBelong(env, Merge(a, b))
  {
    hide Belongs, IsHex;
    forall doc | doc in b ensures forall id | id in b[doc] :: Belongs(env, doc, id, b[doc][id]) {
      assert Mergeable(env, DocIn(a, doc), doc, b[doc]);
    }
  }

  /** Ordering a canonical set's claims, create first, changes nothing about whether they load. */
  lemma OrderedLoads(env: Env, doc: Id, m: CausalSet, ordered: seq<Claim>)
    requires (forall id | id in m :: Belongs(env, doc, id, m[id])) && doc in m && m[doc].Create?
    requires ordered != [] && ordered[0] == m[doc]
    requires forall c :: c in ordered <==> exists id :: id in m && m[id] == c
    ensures Loads(env.idOf, doc, ordered) <==> IsDocument(env.idOf, doc, m)
  {
    forall c | c in ordered ensures Normalized(c) == Success(c) && env.idOf(c) in m && m[env.idOf(c)] == c {
      var id :| id in m && m[id] == c;
      assert Belongs(env, doc, id, m[id]);
    }
    assert Deliverable(env.idOf, map[], ordered);
    InsertAllSucceedsIff(env.idOf, map[], ordered);
    InsertAllDelivers(env.idOf, map[], ordered);
    forall id | id in m
      ensures exists c :: c in ordered && Normalized(c).Success? && env.idOf(Normalized(c).value) == id {
      assert m[id] in ordered && Belongs(env, doc, id, m[id]);
    }
    assert Delivered(env.idOf, map[], ordered, m);
    DeliveredIsUnique(env.idOf, map[], ordered, ordered, Loaded(env.idOf, ordered), m);
  }

  /** One document's claims, create first and then in ID order, with the content they name. */
  method OrderClaims(doc: Id, m: CausalSet) returns (ordered: seq<Claim>, blobs: set<Hash>)
    requires doc in m
    ensures ordered != [] && ordered[0] == m[doc]
    ensures forall c :: c in ordered <==> exists id :: id in m && m[id] == c
    ensures blobs == set id | id in m && m[id].Version? :: m[id].hash
  {
    ordered := [m[doc]];
    blobs := if m[doc].Version? then {m[doc].hash} else {};
    var rest := m.Keys - {doc};
    while rest != {}
      invariant rest <= m.Keys - {doc}
      invariant ordered != [] && ordered[0] == m[doc]
      invariant forall c :: c in ordered <==> exists id :: id in m && id !in rest && m[id] == c
      invariant blobs == set id | id in m && id !in rest && m[id].Version? :: m[id].hash
      decreases rest
    {
      ghost var before := rest;
      var id;
      id, rest := PopFirst(rest);
      OrderedStep(m, before, id, ordered);
      ordered := ordered + [m[id]];
      if m[id].Version? {
        blobs := blobs + {m[id].hash};
      }
    }
  }

  lemma OrderedStep(m: CausalSet, rest: set<Id>, id: Id, ordered: seq<Claim>)
    requires id in m && id in rest
    requires forall c :: c in ordered <==> exists x :: x in m && x !in rest && m[x] == c
    ensures forall c :: c in ordered + [m[id]] <==> exists x :: x in m && x !in rest - {id} && m[x] == c
  {
    forall c ensures c in ordered + [m[id]] <==> exists x :: x in m && x !in rest - {id} && m[x] == c {
      if c in ordered {
        var x :| x in m && x !in rest && m[x] == c;
        assert x !in rest - {id};
      }
    }
  }

  /** Folds one document, and collects the content its versions name. */
  method FoldOne(env: Env, doc: Id, m: CausalSet) returns (named: Option<set<Hash>>)
    requires forall id | id in m :: Belongs(env, doc, id, m[id])
    ensures named.Some? <==> IsDocument(env.idOf, doc, m)
    ensures named.Some? ==> named.value == set id | id in m && m[id].Version? :: m[id].hash
  {
    if doc !in m || !m[doc].Create? {
      return None;
    }
    var ordered, blobs := OrderClaims(doc, m);
    OrderedLoads(env, doc, m, ordered);
    hide IsDocument, Belongs;
    var folded := FoldDocument(env.idOf, doc, ordered);
    return if folded.Success? then Some(blobs) else None;
  }

  /** Folds every document, and collects the content their versions name. */
  method FoldAll(env: Env, l: Ledger) returns (blobs: Option<set<Hash>>)
    requires AllBelong(env, l)
    ensures blobs.Some? <==> forall doc | doc in l :: IsDocument(env.idOf, doc, l[doc])
    ensures blobs.Some? ==> blobs.value == BlobsOf(l)
  {
    hide IsDocument, Belongs;
    var all: set<Hash> := {};
    var rest := l.Keys;
    while rest != {}
      invariant rest <= l.Keys
      invariant forall doc | doc in l && doc !in rest :: IsDocument(env.idOf, doc, l[doc])
      invariant all == set doc, id | doc in l && doc !in rest && id in l[doc] && l[doc][id].Version? :: l[doc][id].hash
      decreases rest
    {
      var doc;
      doc, rest := PopFirst(rest);
      var named := FoldOne(env, doc, l[doc]);
      if named.None? {
        return None;
      }
      all := all + named.value;
    }
    return Some(all);
  }

  /** What recovery returns on a reachable remote. */
  ghost predicate RecoveredFrom(env: Env, r: Remote, l: Ledger) {
    && (forall doc | doc in l :: IsDocument(env.idOf, doc, l[doc]))
    && (forall w: Writer, k: nat :: SlotAt(r, w, k).Complete? ==> Contains(l, LedgerOf(env, SlotAt(r, w, k).value)))
    && (forall doc, id, c :: HasClaim(l, doc, id, c) ==> PublishedClaim(env, r, doc, id, c))
  }

  /** Writer IDs can be told apart, every writer's chain reads, and every pack its tip names is there. */
  ghost predicate CanRecover(r: Remote) {
    && CasesDiffer(r.refs.Keys)
    && forall w | w in r.refs ::
         && LatestRef(r, w).Success?
         && (LatestRef(r, w).value.Some? ==> forall pack | pack in LatestRef(r, w).value.value.packs :: pack in r.packs)
  }

  ghost predicate IsTipOf(r: Remote, w: Writer, t: Ref) {
    w in r.refs && LatestRef(r, w) == Success(Some(t))
  }

  /** Every node of every tip's root is in a pack that some tip names. */
  ghost predicate TipsLoad(r: Remote) {
    forall w, t, o | IsTipOf(r, w, t) && o in Reachable(t.root) :: InTipsPack(r, o)
  }

  ghost predicate InTipsPack(r: Remote, o: Object) {
    exists w, t, pack :: IsTipOf(r, w, t) && pack in t.packs && o in pack
  }

  ghost predicate HeldByTip(env: Env, r: Remote, doc: Id, id: Id, c: Claim) {
    exists w, t :: IsTipOf(r, w, t) && HasClaim(LedgerOf(env, t), doc, id, c)
  }

  lemma TipsOfAreTips(r: Remote, refs: seq<Ref>, t: Ref)
    requires TipsOf(r, r.refs.Keys, refs)
    ensures t in refs <==> exists w :: IsTipOf(r, w, t)
  {
    hide LatestRef, SlotAt;
    if t in refs { assert IsTipOf(r, t.writer, t); }
  }

  /** `l` is what the remote recovers to: every document and claim of every tip and nothing else, each document folding
      under its ID with claim IDs in hex, and everything that takes is on the remote. */
  ghost predicate RecoversTo(env: Env, r: Remote, l: Ledger) {
    && CanRecover(r) && TipsLoad(r) && (exists w, t :: IsTipOf(r, w, t))
    && (forall w, t, doc | IsTipOf(r, w, t) && doc in LedgerOf(env, t) :: doc in l)
    && (forall doc, id, c :: HasClaim(l, doc, id, c) <==> HeldByTip(env, r, doc, id, c))
    && (forall doc | doc in l :: IsDocument(env.idOf, doc, l[doc]) && forall id | id in l[doc] :: IsHex(id, 64))
    && (forall doc, id, c | HasClaim(l, doc, id, c) && c.Version? :: c.hash in r.blobs)
  }

  lemma AllLoadMeans(r: Remote, refs: seq<Ref>)
    requires TipsOf(r, r.refs.Keys, refs) && CasesDiffer(r.refs.Keys)
    ensures AllLoad(r, refs) <==> CanRecover(r) && TipsLoad(r)
  {
    forall t ensures t in refs <==> exists w :: IsTipOf(r, w, t) { TipsOfAreTips(r, refs, t); }
    hide Reachable, LatestRef, CasesDiffer;
    forall o ensures InTipsPack(r, o) <==> exists x | x in refs :: exists pack | pack in x.packs :: o in pack {
    }
    if TipsLoad(r) && CanRecover(r) {
      forall t, o | t in refs && o in Reachable(t.root)
        ensures exists x | x in refs :: exists pack | pack in x.packs :: o in pack {
        assert InTipsPack(r, o);
      }
    }
  }

  lemma UnionIsTips(env: Env, r: Remote, refs: seq<Ref>, l: Ledger)
    requires TipsOf(r, r.refs.Keys, refs)
    requires forall doc | doc in l :: doc in l[doc]
    ensures UnionOf(env, refs, l) <==>
            && (forall w, t, doc | IsTipOf(r, w, t) && doc in LedgerOf(env, t) :: doc in l)
            && (forall doc, id, c :: HasClaim(l, doc, id, c) <==> HeldByTip(env, r, doc, id, c))
  {
    forall t ensures t in refs <==> exists w :: IsTipOf(r, w, t) { TipsOfAreTips(r, refs, t); }
    hide TipsOf, IsTipOf, LedgerOf;
    if && (forall w, t, doc | IsTipOf(r, w, t) && doc in LedgerOf(env, t) :: doc in l)
       && (forall doc, id, c :: HasClaim(l, doc, id, c) <==> HeldByTip(env, r, doc, id, c)) {
      TipsMakeUnion(env, r, refs, l);
    }
  }

  lemma TipsMakeUnion(env: Env, r: Remote, refs: seq<Ref>, l: Ledger)
    requires forall t :: t in refs <==> exists w :: IsTipOf(r, w, t)
    requires forall doc | doc in l :: doc in l[doc]
    requires forall w, t, doc | IsTipOf(r, w, t) && doc in LedgerOf(env, t) :: doc in l
    requires forall doc, id, c :: HasClaim(l, doc, id, c) <==> HeldByTip(env, r, doc, id, c)
    ensures UnionOf(env, refs, l)
  {
    hide IsTipOf, LedgerOf;
    forall t | t in refs ensures Contains(l, LedgerOf(env, t)) {
      var w :| IsTipOf(r, w, t);
      var b := LedgerOf(env, t);
      forall doc, id | doc in b && id in b[doc] ensures HasClaim(l, doc, id, b[doc][id]) {
        assert HasClaim(b, doc, id, b[doc][id]);
      }
    }
    forall doc | doc in l ensures exists t :: t in refs && doc in LedgerOf(env, t) {
      assert HasClaim(l, doc, doc, l[doc][doc]);
      var w, t :| IsTipOf(r, w, t) && HasClaim(LedgerOf(env, t), doc, doc, l[doc][doc]);
    }
  }

  /** What the loops check. */
  ghost predicate Checks(env: Env, r: Remote, refs: seq<Ref>, l: Ledger) {
    && refs != [] && AllLoad(r, refs) && UnionOf(env, refs, l) && AllBelong(env, l)
    && (forall doc | doc in l :: IsDocument(env.idOf, doc, l[doc])) && BlobsOf(l) <= r.blobs
  }

  lemma RecoversToMeans(env: Env, r: Remote, refs: seq<Ref>, l: Ledger)
    requires TipsOf(r, r.refs.Keys, refs) && CasesDiffer(r.refs.Keys)
    ensures RecoversTo(env, r, l) <==> Checks(env, r, refs, l)
  {
    hide IsDocument, LatestRef, CasesDiffer, Reachable, CanRecover, TipsLoad, AllLoad, UnionOf, AllBelong, BlobsOf,
      TipsOf, IsHex, HeldByTip;
    AllLoadMeans(r, refs);
    HasTips(r, refs);
    BlobsThere(r, l);
    if forall doc | doc in l :: IsDocument(env.idOf, doc, l[doc]) {
      BelongMeans(env, l);
      UnionIsTips(env, r, refs, l);
    }
  }

  lemma HasTips(r: Remote, refs: seq<Ref>)
    requires TipsOf(r, r.refs.Keys, refs)
    ensures refs != [] <==> exists w, t :: IsTipOf(r, w, t)
  {
    forall t ensures t in refs <==> exists w :: IsTipOf(r, w, t) { TipsOfAreTips(r, refs, t); }
    hide TipsOf, IsTipOf;
    if refs != [] { assert refs[0] in refs; }
  }

  lemma BlobsThere(r: Remote, l: Ledger)
    ensures BlobsOf(l) <= r.blobs <==> forall doc, id, c | HasClaim(l, doc, id, c) && c.Version? :: c.hash in r.blobs
  {
    BlobsAreTheVersions(l);
    hide BlobsOf, HasClaim;
  }

  /** On documents only the form of the IDs is left to check. */
  lemma BelongMeans(env: Env, l: Ledger)
    requires forall doc | doc in l :: IsDocument(env.idOf, doc, l[doc])
    ensures forall doc | doc in l :: doc in l[doc]
    ensures AllBelong(env, l) <==> forall doc | doc in l :: forall id | id in l[doc] :: IsHex(id, 64)
  {
    hide Foldable, IsHex, IsNormal;
    forall doc | doc in l ensures doc in l[doc] {
      assert IsDocument(env.idOf, doc, l[doc]);
    }
  }

  ghost predicate AnyPublished(r: Remote) {
    exists w: Writer, k: nat :: SlotAt(r, w, k).Complete?
  }

  /** Rebuilds a store from the remote: succeeds on every reachable remote that has a complete ref and no writer IDs
      that differ only by case, with exactly the claims ever published there. On any remote at all it succeeds exactly
      when there is something to recover to, and returns that. */
  method Recover(env: Env, r: Remote) returns (out: Result<Recovered, ()>)
    ensures out.Success? ==>
              && (forall doc | doc in out.value.ledger :: IsDocument(env.idOf, doc, out.value.ledger[doc]))
              && out.value.blobs <= r.blobs
    ensures out.Success? ==> forall h :: h in out.value.blobs <==>
              exists doc, id, c :: HasClaim(out.value.ledger, doc, id, c) && c.Version? && c.hash == h
    ensures RemoteOk(env, r) && HexIds(env) ==> (out.Success? <==> AnyPublished(r) && CasesDiffer(r.refs.Keys))
    ensures RemoteOk(env, r) && out.Success? ==> RecoveredFrom(env, r, out.value.ledger)
    ensures out.Success? ==> RecoversTo(env, r, out.value.ledger)
    ensures out.Failure? ==> forall l :: !RecoversTo(env, r, l)
  {
    var tips := CollectTips(r);
    if RemoteOk(env, r) { ReachableTips(env, r); }
    if tips.Failure? {
      return Failure(());
    }
    var refs := tips.value;
    forall l ensures RecoversTo(env, r, l) <==> Checks(env, r, refs, l) { RecoversToMeans(env, r, refs, l); }
    if RemoteOk(env, r) { TipsAreReady(env, r, refs); }
    if refs == [] {
      return Failure(());
    }
    if !AllLoad(r, refs) {
      return Failure(());
    }
    var merged := MergeAll(env, refs);
    if merged.None? {
      return Failure(());
    }
    forall l | UnionOf(env, refs, l) ensures l == merged.value { OneUnion(env, refs, l, merged.value); }
    if RemoteOk(env, r) { TipsHoldEverything(env, r, refs, merged.value); }
    var blobs := FoldAll(env, merged.value);
    if blobs.None? {
      return Failure(());
    }
    if RemoteOk(env, r) { PublishedBlobs(env, r, merged.value); }
    BlobsAreTheVersions(merged.value);
    if !(blobs.value <= r.blobs) {
      return Failure(());
    }
    return Success(Recovered(merged.value, blobs.value));
  }

  lemma ReachableTips(env: Env, r: Remote)
    requires RemoteOk(env, r)
    ensures forall w :: LatestRef(r, w).Success?
  {
    forall w ensures LatestRef(r, w).Success? { LatestRefFindsTip(env, r, w); }
  }

  lemma TipsAreReady(env: Env, r: Remote, refs: seq<Ref>)
    requires RemoteOk(env, r) && TipsOf(r, r.refs.Keys, refs)
    ensures forall t | t in refs :: Ready(env, r, t.writer, t)
    ensures AllLoad(r, refs)
    ensures HexIds(env) ==> AllOk(env, refs)
    ensures refs != [] <==> AnyPublished(r)
  {
    forall t | t in refs ensures Ready(env, r, t.writer, t) {
      assert SlotOk(env, r, t.writer, t.sequence);
    }
    forall t, o | t in refs && o in Reachable(t.root)
      ensures exists x | x in refs :: exists pack | pack in x.packs :: o in pack {
      assert Ready(env, r, t.writer, t);
      assert o in Objects(t.packs);
      var i :| 0 <= i < |t.packs| && o in t.packs[i];
      assert t.packs[i] in t.packs;
    }
    if w: Writer, k: nat :| SlotAt(r, w, k).Complete? {
      LatestRefFindsTip(env, r, w);
    }
    if refs != [] {
      assert refs[0] in refs;
      assert SlotAt(r, refs[0].writer, refs[0].sequence).Complete?;
    }
  }

  /** Every blob a published claim names is on the remote. */
  lemma PublishedBlobs(env: Env, r: Remote, l: Ledger)
    requires RemoteOk(env, r)
    requires forall doc, id, c :: HasClaim(l, doc, id, c) ==> PublishedClaim(env, r, doc, id, c)
    ensures BlobsOf(l) <= r.blobs
  {
    forall doc, id | doc in l && id in l[doc] && l[doc][id].Version? ensures l[doc][id].hash in r.blobs {
      var c := l[doc][id];
      assert HasClaim(l, doc, id, c);
      var w: Writer, k: nat :| SlotAt(r, w, k).Complete? && HasClaim(LedgerOf(env, SlotAt(r, w, k).value), doc, id, c);
      assert SlotOk(env, r, w, k);
      assert c.hash in BlobsOf(LedgerOf(env, SlotAt(r, w, k).value));
    }
  }

  /** A recovered ledger can start a store: it folds and holds only minted claims. */
  lemma RecoveredStoreFits(env: Env, r: Remote, l: Ledger)
    requires RemoteOk(env, r)
    requires forall doc | doc in l :: IsDocument(env.idOf, doc, l[doc])
    requires forall doc, id, c :: HasClaim(l, doc, id, c) ==> PublishedClaim(env, r, doc, id, c)
    ensures LedgerOk(env, l)
  {
    forall doc | doc in l ensures ContainsSet(env.minted, l[doc]) {
      RecoveredIsMinted(env, r, l, doc);
    }
  }

  lemma RecoveredIsMinted(env: Env, r: Remote, l: Ledger, doc: Id)
    requires RemoteOk(env, r) && doc in l
    requires forall id, c :: HasClaim(l, doc, id, c) ==> PublishedClaim(env, r, doc, id, c)
    ensures ContainsSet(env.minted, l[doc])
  {
    forall id | id in l[doc] ensures id in env.minted && env.minted[id] == l[doc][id] {
      assert HasClaim(l, doc, id, l[doc][id]);
      PublishedIsMinted(env, r, doc, id, l[doc][id]);
    }
  }

  lemma PublishedIsMinted(env: Env, r: Remote, doc: Id, id: Id, c: Claim)
    requires RemoteOk(env, r) && PublishedClaim(env, r, doc, id, c)
    ensures id in env.minted && env.minted[id] == c
  {
    var w: Writer, k: nat :| SlotAt(r, w, k).Complete? && HasClaim(LedgerOf(env, SlotAt(r, w, k).value), doc, id, c);
    assert SlotOk(env, r, w, k);
    var l := LedgerOf(env, SlotAt(r, w, k).value);
    assert LedgerOk(env, l);
    assert ContainsSet(env.minted, l[doc]);
  }

  /** After a publish by the only writer, recovery gives back the very same documents. */
  lemma PublishThenRecover(env: Env, r: Remote, w: Writer, tip: Ref, logs: Ledger, l: Ledger)
    requires Lossless(env) && RemoteOk(env, r) && IsTip(r, w, Some(tip)) && tip.root == env.champ.save(logs)
    requires forall x: Writer, k: nat :: SlotAt(r, x, k).Complete? ==> x == w
    requires forall doc | doc in l :: IsDocument(env.idOf, doc, l[doc])
    requires forall x: Writer, k: nat :: SlotAt(r, x, k).Complete? ==> Contains(l, LedgerOf(env, SlotAt(r, x, k).value))
    requires forall doc, id, c :: HasClaim(l, doc, id, c) ==> PublishedClaim(env, r, doc, id, c)
    ensures l == logs
    ensures forall doc | doc in logs :: State(l[doc]) == State(logs[doc])
  {
    assert LedgerOf(env, tip) == logs;
    assert SlotAt(r, w, tip.sequence) == Complete(tip);
    assert forall doc | doc in l :: doc in l[doc];
    hide RemoteOk, State, Lossless, LedgerOf, IsDocument;
    forall doc, id, c | HasClaim(l, doc, id, c) ensures HasClaim(logs, doc, id, c) {
      TipHasClaim(env, r, w, tip, doc, id, c);
    }
    SameClaims(l, logs);
  }

  lemma TipHasClaim(env: Env, r: Remote, w: Writer, tip: Ref, doc: Id, id: Id, c: Claim)
    requires RemoteOk(env, r) && IsTip(r, w, Some(tip)) && PublishedClaim(env, r, doc, id, c)
    requires forall x: Writer, k: nat :: SlotAt(r, x, k).Complete? ==> x == w
    ensures HasClaim(LedgerOf(env, tip), doc, id, c)
  {
    hide RemoteOk, LedgerOf;
    var x: Writer, k: nat :| SlotAt(r, x, k).Complete? && HasClaim(LedgerOf(env, SlotAt(r, x, k).value), doc, id, c);
    ChainGrows(env, r, w, k, tip.sequence);
  }

  lemma SameClaims(l: Ledger, logs: Ledger)
    requires forall doc, id, c :: HasClaim(l, doc, id, c) ==> HasClaim(logs, doc, id, c)
    requires Contains(l, logs) && forall doc | doc in l :: doc in l[doc]
    ensures l == logs
  {
    forall doc ensures doc in l <==> doc in logs {
      if doc in l { assert HasClaim(l, doc, doc, l[doc][doc]); }
    }
    forall doc | doc in l ensures l[doc] == logs[doc] {
      assert ContainsSet(l[doc], logs[doc]);
      forall id | id in l[doc] ensures id in logs[doc] && logs[doc][id] == l[doc][id] {
        assert HasClaim(l, doc, id, l[doc][id]);
      }
    }
  }

  /** With any number of writers, a recovered document is the union of what all of them published of it. */
  lemma RecoveredIsTheUnion(env: Env, r: Remote, l: Ledger, doc: Id, id: Id, c: Claim)
    requires RecoveredFrom(env, r, l)
    ensures HasClaim(l, doc, id, c) <==> PublishedClaim(env, r, doc, id, c)
  {
    hide IsDocument, LedgerOf;
    if PublishedClaim(env, r, doc, id, c) {
      var w: Writer, k: nat :| SlotAt(r, w, k).Complete? && HasClaim(LedgerOf(env, SlotAt(r, w, k).value), doc, id, c);
      assert Contains(l, LedgerOf(env, SlotAt(r, w, k).value));
    }
  }

  /** Other writers published nothing of this document that the logs do not hold. */
  ghost predicate OnlyHere(env: Env, r: Remote, logs: Ledger, doc: Id) {
    forall id, c :: PublishedClaim(env, r, doc, id, c) ==> HasClaim(logs, doc, id, c)
  }

  /** A published document is in the recovered ledger, with at least the claims that were published. */
  lemma DocumentIsThere(env: Env, r: Remote, w: Writer, tip: Ref, logs: Ledger, l: Ledger, doc: Id)
    requires Lossless(env) && IsTip(r, w, Some(tip)) && tip.root == env.champ.save(logs)
    requires RecoveredFrom(env, r, l) && doc in logs
    ensures doc in l && ContainsSet(l[doc], logs[doc])
  {
    assert LedgerOf(env, tip) == logs && SlotAt(r, w, tip.sequence) == Complete(tip);
    hide IsDocument, LedgerOf, IsTip, Lossless;
    assert Contains(l, logs);
  }

  lemma OnlyOurClaims(env: Env, r: Remote, logs: Ledger, l: Ledger, doc: Id)
    requires RecoveredFrom(env, r, l) && OnlyHere(env, r, logs, doc)
    requires doc in logs && doc in l && ContainsSet(l[doc], logs[doc])
    ensures l[doc] == logs[doc]
  {
    hide PublishedClaim, RecoveredFrom;
    forall id | id in l[doc] ensures id in logs[doc] && logs[doc][id] == l[doc][id] {
      assert HasClaim(l, doc, id, l[doc][id]);
      RecoveredIsTheUnion(env, r, l, doc, id, l[doc][id]);
      assert HasClaim(logs, doc, id, l[doc][id]);
    }
  }

  /** With any number of writers, a published document comes back equal exactly when no other store has published more
      of it. */
  lemma OwnDocumentComesBack(env: Env, r: Remote, w: Writer, tip: Ref, logs: Ledger, l: Ledger, doc: Id)
    requires Lossless(env) && IsTip(r, w, Some(tip)) && tip.root == env.champ.save(logs)
    requires RecoveredFrom(env, r, l) && doc in logs
    ensures doc in l && (OnlyHere(env, r, logs, doc) <==> l[doc] == logs[doc])
    ensures OnlyHere(env, r, logs, doc) ==> State(l[doc]) == State(logs[doc])
  {
    hide Lossless, IsTip, RecoveredFrom, PublishedClaim, LedgerOf, State, ContainsSet;
    DocumentIsThere(env, r, w, tip, logs, l, doc);
    if OnlyHere(env, r, logs, doc) {
      OnlyOurClaims(env, r, logs, l, doc);
    }
    if l[doc] == logs[doc] {
      forall id, c | PublishedClaim(env, r, doc, id, c) ensures HasClaim(logs, doc, id, c) {
        RecoveredIsTheUnion(env, r, l, doc, id, c);
      }
    }
  }
}
