/** Insertion and union of claim sets, and what merging does to graphs and frontiers (src/causal.rs). */
module Convergence {
  import opened Wrappers
  import opened Order
  import opened Claims
  import opened CausalGraph
  import opened Fold

  /** `CanonicalClaim::id`: any function of the canonical claim. */
  type Identity = Claim -> Id

  datatype SetError = Invalid(error: ClaimError) | Collision(id: Id)

  // ----- insertion -----

  function Insert(idOf: Identity, m: CausalSet, c: Claim): Result<CausalSet, SetError> {
    match Normalized(c)
    case Failure(e) => Failure(Invalid(e))
    case Success(n) =>
      var id := idOf(n);
      if id in m then
        if m[id] == n then Success(m) else Failure(Collision(id))
      else Success(m[id := n])
  }

  function InsertAll(idOf: Identity, m: CausalSet, claims: seq<Claim>): Result<CausalSet, SetError>
    decreases |claims|
  {
    if claims == [] then Success(m)
    else
      match Insert(idOf, m, claims[0])
      case Failure(e) => Failure(e)
      case Success(next) => InsertAll(idOf, next, claims[1..])
  }

  /** Every claim is canonical and filed under its own ID: what `insert` builds. */
  ghost predicate ContentAddressed(idOf: Identity, m: CausalSet) {
    forall id | id in m :: IsNormal(m[id]) && idOf(m[id]) == id
  }

  ghost predicate Agree(a: CausalSet, b: CausalSet) {
    forall id | id in a && id in b :: a[id] == b[id]
  }

  ghost predicate Accepts(idOf: Identity, m: CausalSet, c: Claim) {
    && Normalized(c).Success?
    && var n := Normalized(c).value;
       idOf(n) in m ==> m[idOf(n)] == n
  }

  /** `r` holds `m` and every delivered claim, and nothing else. */
  ghost predicate Holds(idOf: Identity, r: CausalSet, c: Claim) {
    && Normalized(c).Success?
    && var n := Normalized(c).value;
       idOf(n) in r && r[idOf(n)] == n
  }

  ghost predicate Delivered(idOf: Identity, m: CausalSet, claims: seq<Claim>, r: CausalSet) {
    && (forall id | id in m :: id in r && r[id] == m[id])
    && (forall c | c in claims :: Holds(idOf, r, c))
    && (forall id | id in r && id !in m ::
          exists c :: c in claims && Normalized(c).Success? && idOf(Normalized(c).value) == id)
  }

  /** No two delivered claims, and no delivered and held claim, differ under one ID. */
  ghost predicate Deliverable(idOf: Identity, m: CausalSet, claims: seq<Claim>) {
    && (forall c | c in claims :: Accepts(idOf, m, c))
    && (forall c, d | c in claims && d in claims ::
          idOf(Normalized(c).value) == idOf(Normalized(d).value) ==> Normalized(c) == Normalized(d))
  }

  lemma {:induction false} InsertAllDelivers(idOf: Identity, m: CausalSet, claims: seq<Claim>)
    ensures InsertAll(idOf, m, claims).Success? ==> Delivered(idOf, m, claims, InsertAll(idOf, m, claims).value)
    ensures InsertAll(idOf, m, claims).Success? ==> Deliverable(idOf, m, claims)
    decreases |claims|
  {
    if claims != [] && Insert(idOf, m, claims[0]).Success? {
      var next := Insert(idOf, m, claims[0]).value;
      InsertAllDelivers(idOf, next, claims[1..]);
      if InsertAll(idOf, m, claims).Success? {
        var r := InsertAll(idOf, m, claims).value;
        assert InsertAll(idOf, next, claims[1..]) == Success(r);
        assert Holds(idOf, r, claims[0]);
        assert claims == [claims[0]] + claims[1..];
        forall c | c in claims ensures Holds(idOf, r, c) && Accepts(idOf, m, c) {
        }
        forall id | id in r && id !in m
          ensures exists c :: c in claims && Normalized(c).Success? && idOf(Normalized(c).value) == id
        {
          if id in next {
            assert claims[0] in claims;
          }
        }
      }
    }
  }

  lemma {:induction false} DeliverableSucceeds(idOf: Identity, m: CausalSet, claims: seq<Claim>)
    requires Deliverable(idOf, m, claims)
    ensures InsertAll(idOf, m, claims).Success?
    decreases |claims|
  {
    if claims != [] {
      assert claims[0] in claims;
      assert forall c | c in claims[1..] :: c in claims;
      DeliverableSucceeds(idOf, Insert(idOf, m, claims[0]).value, claims[1..]);
    }
  }

  /** Building a set fails only on an illegal claim or an ID collision. */
  lemma InsertAllSucceedsIff(idOf: Identity, m: CausalSet, claims: seq<Claim>)
    ensures InsertAll(idOf, m, claims).Success? <==> Deliverable(idOf, m, claims)
  {
    InsertAllDelivers(idOf, m, claims);
    if Deliverable(idOf, m, claims) { DeliverableSucceeds(idOf, m, claims); }
  }

  lemma DeliveredIsUnique(idOf: Identity, m: CausalSet, a: seq<Claim>, b: seq<Claim>, r: CausalSet, s: CausalSet)
    requires forall c :: c in a <==> c in b
    requires Delivered(idOf, m, a, r) && Delivered(idOf, m, b, s)
    ensures r == s
  {
    forall id ensures id in r <==> id in s {
      if id in r && id !in m {
        var c :| c in a && Normalized(c).Success? && idOf(Normalized(c).value) == id;
        assert Holds(idOf, s, c);
      }
      if id in s && id !in m {
        var c :| c in b && Normalized(c).Success? && idOf(Normalized(c).value) == id;
        assert Holds(idOf, r, c);
      }
    }
    forall id | id in r ensures r[id] == s[id] {
      if id !in m {
        var c :| c in a && Normalized(c).Success? && idOf(Normalized(c).value) == id;
        assert Holds(idOf, r, c) && Holds(idOf, s, c);
      }
    }
  }

  /** Reordered, repeated or duplicated delivery gives the same set, or fails alike. */
  lemma DeliveryOrderIsIrrelevant(idOf: Identity, m: CausalSet, a: seq<Claim>, b: seq<Claim>)
    requires forall c :: c in a <==> c in b
    ensures InsertAll(idOf, m, a).Success? <==> InsertAll(idOf, m, b).Success?
    ensures InsertAll(idOf, m, a).Success? ==> InsertAll(idOf, m, a) == InsertAll(idOf, m, b)
  {
    InsertAllSucceedsIff(idOf, m, a);
    InsertAllSucceedsIff(idOf, m, b);
    if InsertAll(idOf, m, a).Success? {
      InsertAllDelivers(idOf, m, a);
      InsertAllDelivers(idOf, m, b);
      DeliveredIsUnique(idOf, m, a, b, InsertAll(idOf, m, a).value, InsertAll(idOf, m, b).value);
    }
  }

  // ----- union -----

  function ValuesOf(m: CausalSet, ids: seq<Id>): seq<Claim>
    requires forall id | id in ids :: id in m
  {
    if ids == [] then [] else [m[ids[0]]] + ValuesOf(m, ids[1..])
  }

  lemma {:induction false} ValuesOfMembers(m: CausalSet, ids: seq<Id>, c: Claim)
    requires forall id | id in ids :: id in m
    ensures c in ValuesOf(m, ids) <==> exists id :: id in ids && m[id] == c
  {
    if ids != [] {
      ValuesOfMembers(m, ids[1..], c);
      assert ids == [ids[0]] + ids[1..];
    }
  }

  /** Claims in ID order. */
  ghost function ValuesIn(m: CausalSet, ids: set<Id>): seq<Claim>
    requires ids <= m.Keys
  {
    ListingLists(ids);
    ValuesOf(m, Listing(ids))
  }

  lemma ValuesInMembers(m: CausalSet, c: Claim)
    ensures c in ValuesIn(m, m.Keys) <==> exists id :: id in m && m[id] == c
  {
    ListingLists(m.Keys);
    ValuesOfMembers(m, Listing(m.Keys), c);
  }

  /** `union`: the other set's claims inserted in ID order. */
  ghost function Union(idOf: Identity, a: CausalSet, b: CausalSet): Result<CausalSet, SetError> {
    InsertAll(idOf, a, ValuesIn(b, b.Keys))
  }

  lemma AgreeingValuesDeliver(idOf: Identity, a: CausalSet, b: CausalSet)
    requires ContentAddressed(idOf, a) && ContentAddressed(idOf, b) && Agree(a, b)
    ensures Deliverable(idOf, a, ValuesIn(b, b.Keys))
  {
    var claims := ValuesIn(b, b.Keys);
    forall c | c in claims
      ensures Accepts(idOf, a, c) && Normalized(c) == Success(c) && idOf(c) in b && b[idOf(c)] == c {
      ValuesInMembers(b, c);
    }
  }

  lemma DeliveredUnion(idOf: Identity, a: CausalSet, b: CausalSet, r: CausalSet)
    requires ContentAddressed(idOf, a) && ContentAddressed(idOf, b)
    requires Delivered(idOf, a, ValuesIn(b, b.Keys), r)
    ensures r == a + b && Agree(a, b) && ContentAddressed(idOf, r)
  {
    hide ValuesIn, Normalized;
    forall id | id in b ensures id in r && r[id] == b[id] {
      ValuesInMembers(b, b[id]);
      assert Holds(idOf, r, b[id]);
    }
    forall id | id in r && id !in a ensures id in b {
      var c :| c in ValuesIn(b, b.Keys) && Normalized(c).Success? && idOf(Normalized(c).value) == id;
      ValuesInMembers(b, c);
    }
  }

  /** Union fails exactly when the replicas hold different claims under one ID. */
  lemma UnionIsMapUnion(idOf: Identity, a: CausalSet, b: CausalSet)
    requires ContentAddressed(idOf, a) && ContentAddressed(idOf, b)
    ensures Union(idOf, a, b).Success? <==> Agree(a, b)
    ensures Union(idOf, a, b).Success? ==> Union(idOf, a, b).value == a + b && ContentAddressed(idOf, a + b)
  {
    var claims := ValuesIn(b, b.Keys);
    InsertAllSucceedsIff(idOf, a, claims);
    if Agree(a, b) {
      AgreeingValuesDeliver(idOf, a, b);
    }
    if InsertAll(idOf, a, claims).Success? {
      InsertAllDelivers(idOf, a, claims);
      DeliveredUnion(idOf, a, b, InsertAll(idOf, a, claims).value);
    }
  }

  /** Replicas may be merged in any order, any grouping, any number of times. */
  lemma UnionLaws(idOf: Identity, a: CausalSet, b: CausalSet)
    requires ContentAddressed(idOf, a) && ContentAddressed(idOf, b)
    ensures Union(idOf, a, a) == Success(a)
    ensures Union(idOf, a, b).Success? <==> Union(idOf, b, a).Success?
    ensures Union(idOf, a, b).Success? ==> Union(idOf, a, b) == Union(idOf, b, a)
  {
    hide ContentAddressed, Union;
    UnionIsMapUnion(idOf, a, a);
    UnionIsMapUnion(idOf, a, b);
    UnionIsMapUnion(idOf, b, a);
    assert a + a == a;
    if Agree(a, b) {
      assert a + b == b + a;
    }
  }

  lemma AgreeRegroups(a: CausalSet, b: CausalSet, c: CausalSet)
    requires Agree(a, b) && Agree(a + b, c)
    ensures Agree(b, c) && Agree(a, b + c)
    ensures a + (b + c) == (a + b) + c
  {
    forall id | id in b && id in c ensures b[id] == c[id] {
      assert id in a + b && (a + b)[id] == b[id];
    }
    forall id | id in a && id in b + c ensures a[id] == (b + c)[id] {
      assert id in a + b && (a + b)[id] == a[id];
    }
  }

  lemma UnionAssociative(idOf: Identity, a: CausalSet, b: CausalSet, c: CausalSet)
    requires ContentAddressed(idOf, a) && ContentAddressed(idOf, b) && ContentAddressed(idOf, c)
    requires Union(idOf, a, b).Success? && Union(idOf, Union(idOf, a, b).value, c).Success?
    ensures Union(idOf, b, c).Success?
    ensures Union(idOf, a, Union(idOf, b, c).value) == Union(idOf, Union(idOf, a, b).value, c)
  {
    UnionIsMapUnion(idOf, a, b);
    UnionIsMapUnion(idOf, a + b, c);
    AgreeRegroups(a, b, c);
    UnionIsMapUnion(idOf, b, c);
    UnionIsMapUnion(idOf, a, b + c);
  }

  // ----- the merged graph -----

  lemma MergedRefers(a: CausalSet, b: CausalSet, id: Id, r: Id)
    requires Agree(a, b)
    ensures RefersTo(a + b, id, r) <==> RefersTo(a, id, r) || RefersTo(b, id, r)
  {
  }

  lemma MergedTargeted(a: CausalSet, b: CausalSet, id: Id)
    requires Agree(a, b)
    ensures Targeted(a + b, id) <==> Targeted(a, id) || Targeted(b, id)
  {
    if Targeted(a + b, id) {
      var c :| RefersTo(a + b, c, id);
      MergedRefers(a, b, c, id);
    }
    if c :| RefersTo(a, c, id) {
      MergedRefers(a, b, c, id);
    }
    if c :| RefersTo(b, c, id) {
      MergedRefers(a, b, c, id);
    }
  }

  /** References never leave a set whose references are all present, so walks cannot either. */
  lemma {:induction false} WalkStays(a: CausalSet, m: CausalSet, p: seq<Id>)
    requires RefsPresent(a) && a.Keys <= m.Keys && Agree(a, m)
    requires IsWalk(m, p) && p[0] in a
    ensures IsWalk(a, p)
    decreases |p|
  {
    if |p| > 1 {
      assert Follows(m, p, 0);
      assert RefersTo(a, p[0], p[1]);
      SubWalk(m, p, 1, |p|);
      WalkStays(a, m, p[1..|p|]);
      assert p == [p[0]] + p[1..|p|];
      forall i: nat ensures Follows(a, p, i) {
        if i > 0 { assert Follows(a, p[1..|p|], i - 1); }
      }
    } else {
      forall i: nat ensures Follows(a, p, i) {
      }
    }
  }

  lemma CycleStays(a: CausalSet, b: CausalSet, p: seq<Id>)
    requires Agree(a, b) && RefsPresent(a) && RefsPresent(b) && IsCycle(a + b, p)
    ensures IsCycle(a, p) || IsCycle(b, p)
  {
    assert p[0] in p;
    if p[0] in a {
      WalkStays(a, a + b, p);
    } else {
      WalkStays(b, a + b, p);
    }
  }

  lemma UnionAcyclic(a: CausalSet, b: CausalSet)
    requires Agree(a, b) && RefsPresent(a) && RefsPresent(b) && Acyclic(a) && Acyclic(b)
    ensures Acyclic(a + b)
  {
    forall p ensures !IsCycle(a + b, p) {
      if IsCycle(a + b, p) { CycleStays(a, b, p); }
    }
  }

  lemma UnionReferences(a: CausalSet, b: CausalSet)
    requires Agree(a, b) && RefsPresent(a) && RefsPresent(b) && RefsLegal(a) && RefsLegal(b)
    ensures RefsPresent(a + b) && RefsLegal(a + b)
  {
    forall id, r | RefersTo(a + b, id, r)
      ensures r in a + b && LegalReference((a + b)[id], (a + b)[r])
    {
      MergedRefers(a, b, id, r);
      if RefersTo(a, id, r) {
        assert r in a && LegalReference(a[id], a[r]);
      } else {
        assert r in b && LegalReference(b[id], b[r]);
      }
    }
  }

  /** Merging two foldable replicas folds exactly when they are of one document. */
  lemma UnionFoldable(a: CausalSet, b: CausalSet)
    requires Foldable(a) && Foldable(b) && Agree(a, b)
    ensures Foldable(a + b) <==> forall x, y | x in a && y in b :: Owner(x, a[x]) == Owner(y, b[y])
  {
    UnionReferences(a, b);
    UnionAcyclic(a, b);
    var m := a + b;
    if Foldable(m) {
      forall x, y | x in a && y in b ensures Owner(x, a[x]) == Owner(y, b[y]) {
        assert x in m && y in m;
      }
    }
  }

  /** A head of one replica survives a merge exactly when the other never refers to it. */
  lemma FrontiersOfUnion(a: CausalSet, b: CausalSet, id: Id)
    requires Agree(a, b)
    ensures id in HeadFrontier(a) ==> (id in HeadFrontier(a + b) <==> !Targeted(b, id))
    ensures id in NameFrontier(a) ==> (id in NameFrontier(a + b) <==> !Targeted(b, id))
    ensures id in TagFrontier(a) ==> (id in TagFrontier(a + b) <==> !Targeted(b, id))
    ensures id in HeadFrontier(a + b) ==> id in HeadFrontier(a) || id in HeadFrontier(b)
    ensures id in NameFrontier(a + b) ==> id in NameFrontier(a) || id in NameFrontier(b)
    ensures id in TagFrontier(a + b) ==> id in TagFrontier(a) || id in TagFrontier(b)
  {
    MergedTargeted(a, b, id);
  }

  // ----- every claim leads to the frontier -----

  lemma LongWalkMeansCycle(m: CausalSet, p: seq<Id>)
    requires IsWalk(m, p) && |p| > |m|
    ensures !Acyclic(m)
  {
    assert |m.Keys| == |m|;
    var i, j := Repeats(p, m.Keys);
    SubWalk(m, p, i, j + 1);
    assert IsCycle(m, p[i..j + 1]);
  }

  /** Follows child edges up from the start of `p` until nothing refers to it. */
  lemma {:induction false} Climb(m: CausalSet, p: seq<Id>) returns (q: seq<Id>)
    requires Acyclic(m) && IsWalk(m, p)
    ensures IsWalk(m, q) && q[|q| - 1] == p[|p| - 1] && !Targeted(m, q[0])
    decreases |m| - |p|
  {
    if |p| > |m| {
      LongWalkMeansCycle(m, p);
    }
    if c :| RefersTo(m, c, p[0]) {
      var next := [c] + p;
      forall i: nat ensures Follows(m, next, i) {
        if i > 0 { assert Follows(m, p, i - 1); }
      }
      if |next| > |m| {
        LongWalkMeansCycle(m, next);
      }
      q := Climb(m, next);
    } else {
      q := p;
    }
  }

  /** References between versions and between names stay within their kind, upwards as well. */
  lemma {:induction false} WalkKeepsKind(m: CausalSet, p: seq<Id>)
    requires RefsPresent(m) && RefsLegal(m) && IsWalk(m, p)
    ensures p[|p| - 1] in m && p[0] in m
    ensures m[p[|p| - 1]].Version? ==> m[p[0]].Version?
    ensures m[p[|p| - 1]].Name? ==> m[p[0]].Name?
    decreases |p|
  {
    assert p[0] in p && p[|p| - 1] in p;
    if |p| > 1 {
      assert Follows(m, p, 0);
      SubWalk(m, p, 1, |p|);
      WalkKeepsKind(m, p[1..|p|]);
    }
  }

  /** Every version is an ancestor of some head. */
  lemma VersionsReachHeads(m: CausalSet, id: Id) returns (q: seq<Id>)
    requires Foldable(m) && id in VersionIds(m)
    ensures IsWalk(m, q) && q[|q| - 1] == id && q[0] in HeadFrontier(m)
  {
    q := [id];
    forall i: nat ensures Follows(m, q, i) {
    }
    q := Climb(m, q);
    WalkKeepsKind(m, q);
  }

  /** Every name claim is behind some current name. */
  lemma NamesReachCurrent(m: CausalSet, id: Id) returns (q: seq<Id>)
    requires Foldable(m) && id in m && m[id].Name?
    ensures IsWalk(m, q) && q[|q| - 1] == id && q[0] in NameFrontier(m)
  {
    q := [id];
    forall i: nat ensures Follows(m, q, i) {
    }
    q := Climb(m, q);
    WalkKeepsKind(m, q);
  }

  /** A document with versions has a head, one with name claims has a name. */
  lemma FrontiersAreNotEmpty(m: CausalSet)
    requires Foldable(m)
    ensures VersionIds(m) != {} <==> State(m).heads != []
    ensures (exists id :: id in m && m[id].Name?) <==> State(m).names != []
  {
    ListingLists(HeadFrontier(m));
    ListingLists(NameFrontier(m));
    assert State(m).heads != [] <==> HeadFrontier(m) != {};
    assert State(m).names != [] <==> NameFrontier(m) != {};
    if id :| id in VersionIds(m) {
      var q := VersionsReachHeads(m, id);
    }
    if id :| id in m && m[id].Name? {
      var q := NamesReachCurrent(m, id);
    }
    if NameFrontier(m) != {} {
      var id :| id in NameFrontier(m);
      assert m[id].Name?;
    }
    if HeadFrontier(m) != {} {
      var id :| id in HeadFrontier(m);
      assert id in VersionIds(m);
    }
  }

  // ----- the mutable set -----

  /** `CausalSet` as the program holds it. */
  class ClaimSet {
    var claims: CausalSet

    constructor ()
      ensures claims == map[]
    {
      claims := map[];
    }

    /** A failed insertion changes nothing. */
    method InsertClaim(idOf: Identity, c: Claim) returns (r: Result<Id, SetError>)
      modifies this
      ensures match Insert(idOf, old(claims), c)
              case Success(next) => r == Success(idOf(Normalized(c).value)) && claims == next
              case Failure(e) => r == Failure(e) && claims == old(claims)
    {
      var normalized := Normalized(c);
      if normalized.Failure? {
        return Failure(Invalid(normalized.error));
      }
      var claim := normalized.value;
      var id := idOf(claim);
      if id in claims {
        if claims[id] != claim {
          return Failure(Collision(id));
        }
      } else {
        claims := claims[id := claim];
      }
      r := Success(id);
    }

    /** `from_claims`, into a set that is still empty. */
    method InsertSequence(idOf: Identity, delivered: seq<Claim>) returns (error: Option<SetError>)
      modifies this
      ensures match InsertAll(idOf, old(claims), delivered)
              case Success(all) => error == None && claims == all
              case Failure(e) => error == Some(e)
    {
      var i := 0;
      while i < |delivered|
        invariant 0 <= i <= |delivered|
        invariant InsertAll(idOf, old(claims), delivered) == InsertAll(idOf, claims, delivered[i..])
      {
        var r := InsertClaim(idOf, delivered[i]);
        if r.Failure? {
          return Some(r.error);
        }
        assert delivered[i..][1..] == delivered[i + 1..];
        i := i + 1;
      }
      error := None;
    }

    /** `union`: a copy of this set with the other's claims inserted in ID order. */
    method Merge(idOf: Identity, other: ClaimSet) returns (error: Option<SetError>, merged: ClaimSet)
      ensures fresh(merged)
      ensures match Union(idOf, claims, other.claims)
              case Success(all) => error == None && merged.claims == all
              case Failure(e) => error == Some(e)
    {
      merged := new ClaimSet();
      merged.claims := claims;
      error := None;
      var rest := other.claims.Keys;
      while rest != {}
        invariant rest <= other.claims.Keys
        invariant Union(idOf, claims, other.claims) == InsertAll(idOf, merged.claims, ValuesIn(other.claims, rest))
        decreases rest
      {
        ListingLists(rest);
        var id;
        id, rest := PopFirst(rest);
        var r := merged.InsertClaim(idOf, other.claims[id]);
        if r.Failure? {
          return Some(r.error), merged;
        }
      }
    }
  }
}
