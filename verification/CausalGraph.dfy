/** The reference graph of a claim set, its cycles, and what a topological order proves. */
module CausalGraph {
  import opened Tags
  import opened Claims

  /** `CausalSet.claims`. Keys are what the store says they are; nothing ties them to the claims. */
  type CausalSet = map<Id, Claim>

  /** `validate_reference`. */
  predicate LegalReference(c: Claim, parent: Claim) {
    match c
    case Create(_, _, _) => false
    case Version(_, _, _, _, _) => parent.Version?
    case Name(_, _, _, _, _) => parent.Name?
    case TagAdd(_, _, _, tag, scope, _) =>
      && parent.TagAdd?
      && match scope {
           case Some(key) => parent.tag == key || IsDescendant(key, parent.tag)
           case None => parent.tag == tag || IsDescendant(parent.tag, tag)
         }
    case TagRemove(_, _, _, tag, _) => parent.TagAdd? && parent.tag == tag
  }

  ghost function Owners(m: CausalSet): set<Id> {
    set id | id in m :: Owner(id, m[id])
  }

  ghost predicate OneDocument(m: CausalSet) {
    forall a, b | a in m && b in m :: Owner(a, m[a]) == Owner(b, m[b])
  }

  ghost predicate RefersTo(m: CausalSet, id: Id, r: Id) {
    id in m && r in Refs(m[id])
  }

  ghost predicate RefsPresent(m: CausalSet) {
    forall id, r | RefersTo(m, id, r) :: r in m
  }

  ghost predicate RefsLegal(m: CausalSet) {
    forall id, r | RefersTo(m, id, r) :: r in m ==> LegalReference(m[id], m[r])
  }

  ghost predicate Follows(m: CausalSet, p: seq<Id>, i: nat) {
    i + 1 < |p| ==> RefersTo(m, p[i], p[i + 1])
  }

  /** A walk follows references: each claim refers to the next. */
  ghost predicate IsWalk(m: CausalSet, p: seq<Id>) {
    && |p| >= 1
    && (forall id | id in p :: id in m)
    && (forall i: nat :: Follows(m, p, i))
  }

  ghost predicate IsCycle(m: CausalSet, p: seq<Id>) {
    IsWalk(m, p) && |p| >= 2 && p[0] == p[|p| - 1]
  }

  ghost predicate Acyclic(m: CausalSet) {
    forall p :: !IsCycle(m, p)
  }

  /** Exactly the sets `fold` accepts. */
  ghost predicate Foldable(m: CausalSet) {
    OneDocument(m) && RefsPresent(m) && RefsLegal(m) && Acyclic(m)
  }

  lemma SubWalk(m: CausalSet, p: seq<Id>, i: nat, j: nat)
    requires IsWalk(m, p) && i < j <= |p|
    ensures IsWalk(m, p[i..j])
  {
    forall k: nat ensures Follows(m, p[i..j], k) {
      assert Follows(m, p, i + k);
    }
  }

  // ----- soundness: an order in which references come first rules cycles out -----

  ghost predicate Topological(m: CausalSet, order: seq<Id>) {
    && (forall i | 0 <= i < |order| :: order[i] in m)
    && (forall i, j | 0 <= i < j < |order| :: order[i] != order[j])
    && (forall i, r | 0 <= i < |order| && RefersTo(m, order[i], r) :: r in order[..i])
  }

  ghost function Position(order: seq<Id>, id: Id): (i: nat)
    requires id in order
    ensures i < |order| && order[i] == id
  {
    var i :| 0 <= i < |order| && order[i] == id;
    i
  }

  lemma {:induction false} WalksDescend(m: CausalSet, order: seq<Id>, p: seq<Id>)
    requires Topological(m, order) && (forall id | id in m :: id in order)
    requires IsWalk(m, p)
    ensures |p| >= 2 ==> Position(order, p[|p| - 1]) < Position(order, p[0])
    decreases |p|
  {
    if |p| >= 2 {
      var i := Position(order, p[0]);
      assert Follows(m, p, 0);
      assert p[1] in order[..i];
      var tail := p[1..|p|];
      SubWalk(m, p, 1, |p|);
      WalksDescend(m, order, tail);
    }
  }

  lemma TopologicalMeansAcyclic(m: CausalSet, order: seq<Id>)
    requires Topological(m, order) && (forall id | id in m :: id in order)
    ensures Acyclic(m)
  {
    forall p | IsWalk(m, p) && |p| >= 2 ensures p[0] != p[|p| - 1] {
      WalksDescend(m, order, p);
    }
  }

  // ----- completeness: claims that never become ready contain a cycle -----

  /** Every claim in `stuck` waits for another claim in `stuck`. */
  ghost predicate Stuck(m: CausalSet, stuck: set<Id>) {
    stuck <= m.Keys && forall id {:trigger WaitsWithin(m, stuck, id)} :: id in stuck ==> WaitsWithin(m, stuck, id)
  }

  ghost predicate WaitsWithin(m: CausalSet, stuck: set<Id>, id: Id) {
    exists r :: r in stuck && RefersTo(m, id, r)
  }

  ghost function StuckWalk(m: CausalSet, stuck: set<Id>, start: Id, n: nat): (p: seq<Id>)
    requires Stuck(m, stuck) && start in stuck
    ensures IsWalk(m, p) && |p| == n + 1 && p[0] == start
    ensures forall id | id in p :: id in stuck
    decreases n
  {
    if n == 0 then [start]
    else
      assert WaitsWithin(m, stuck, start);
      var r :| r in stuck && RefersTo(m, start, r);
      var rest := StuckWalk(m, stuck, r, n - 1);
      assert forall i: nat :: Follows(m, [start] + rest, i) by {
        forall i: nat ensures Follows(m, [start] + rest, i) {
          if i > 0 { assert Follows(m, rest, i - 1); }
        }
      }
      [start] + rest
  }

  /** Pigeonhole: a sequence longer than the set it draws from repeats a value. */
  lemma {:induction false} Repeats(p: seq<Id>, s: set<Id>) returns (i: nat, j: nat)
    requires (forall id | id in p :: id in s) && |p| > |s|
    ensures i < j < |p| && p[i] == p[j]
  {
    assert p[0] in p;
    var rest := p[1..];
    assert forall id | id in rest :: id in p;
    if k :| 0 <= k < |rest| && rest[k] == p[0] {
      i, j := 0, k + 1;
    } else {
      i, j := Repeats(rest, s - {p[0]});
      i, j := i + 1, j + 1;
    }
  }

  lemma StuckMeansCycle(m: CausalSet, stuck: set<Id>)
    requires Stuck(m, stuck) && stuck != {}
    ensures !Acyclic(m)
  {
    var start :| start in stuck;
    var p := StuckWalk(m, stuck, start, |stuck|);
    var i, j := Repeats(p, stuck);
    SubWalk(m, p, i, j + 1);
    assert IsCycle(m, p[i..j + 1]);
  }

  /** What may refer to what, on the claims' own fields: versions to versions, names to names; a removal to assertions
      of its own path; a `set` to assertions of its key or below; a plain assertion to its own path or above it. */
  ghost predicate StaysInField(c: Claim, parent: Claim) {
    match c
    case Create(_, _, _) => false
    case Version(_, _, _, _, _) => parent.Version?
    case Name(_, _, _, _, _) => parent.Name?
    case TagRemove(_, _, _, tag, _) => parent.TagAdd? && parent.tag == tag
    case TagAdd(_, _, _, _, Some(key), _) => parent.TagAdd? && (parent.tag == key || key + "/" <= parent.tag)
    case TagAdd(_, _, _, tag, None, _) => parent.TagAdd? && (parent.tag == tag || parent.tag + "/" <= tag)
  }

  lemma LegalMeansInField(c: Claim, parent: Claim)
    ensures LegalReference(c, parent) <==> StaysInField(c, parent)
  {
    if c.TagAdd? && parent.TagAdd? {
      DescendantMeans(parent.tag, c.tag);
      if c.scope.Some? { DescendantMeans(c.scope.value, parent.tag); }
    }
  }
}
