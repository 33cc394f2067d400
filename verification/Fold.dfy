/** `CausalSet::fold`: reference checks, the worklist sort, and the frontiers (src/causal.rs). */
module Fold {
  import opened Wrappers
  import opened Order
  import opened Claims
  import opened CausalGraph

  datatype FieldValue = FieldValue(id: Id, value: string)
  datatype TagValue = TagValue(id: Id, value: string, scope: Option<string>)
  datatype VersionValue = VersionValue(id: Id, hash: string, parents: seq<Id>, ts: string)

  datatype CausalState = CausalState(
    names: seq<FieldValue>, tags: seq<TagValue>, versions: seq<VersionValue>, heads: seq<VersionValue>)

  datatype FoldError =
    | MixedDocuments
    | MissingReference(claim: Id, reference: Id)
    | IllegalReference(claim: Id, reference: Id)
    | CausalCycle

  // ----- what the state is: frontiers listed in ID order -----

  /** Some claim of the set refers to `id`. */
  ghost predicate Targeted(m: CausalSet, id: Id) {
    exists c :: RefersTo(m, c, id)
  }

  ghost function NameFrontier(m: CausalSet): set<Id> {
    set id | id in m && m[id].Name? && !Targeted(m, id)
  }

  ghost function TagFrontier(m: CausalSet): set<Id> {
    set id | id in m && m[id].TagAdd? && !Targeted(m, id)
  }

  ghost function VersionIds(m: CausalSet): set<Id> {
    set id | id in m && m[id].Version?
  }

  ghost function HeadFrontier(m: CausalSet): set<Id> {
    set id | id in m && m[id].Version? && !Targeted(m, id)
  }

  function NameOf(id: Id, c: Claim): FieldValue
    requires c.Name?
  {
    FieldValue(id, c.name)
  }

  function TagOf(id: Id, c: Claim): TagValue
    requires c.TagAdd?
  {
    TagValue(id, c.tag, c.scope)
  }

  function VersionOf(id: Id, c: Claim): VersionValue
    requires c.Version?
  {
    VersionValue(id, c.hash, c.parents, c.ts)
  }

  ghost function Names(m: CausalSet, ids: seq<Id>): (r: seq<FieldValue>)
    requires forall id | id in ids :: id in m && m[id].Name?
    ensures |r| == |ids| && forall i | 0 <= i < |ids| :: r[i] == NameOf(ids[i], m[ids[i]])
  {
    seq(|ids|, i requires 0 <= i < |ids| => NameOf(ids[i], m[ids[i]]))
  }

  ghost function TagValues(m: CausalSet, ids: seq<Id>): (r: seq<TagValue>)
    requires forall id | id in ids :: id in m && m[id].TagAdd?
    ensures |r| == |ids| && forall i | 0 <= i < |ids| :: r[i] == TagOf(ids[i], m[ids[i]])
  {
    seq(|ids|, i requires 0 <= i < |ids| => TagOf(ids[i], m[ids[i]]))
  }

  ghost function VersionValues(m: CausalSet, ids: seq<Id>): (r: seq<VersionValue>)
    requires forall id | id in ids :: id in m && m[id].Version?
    ensures |r| == |ids| && forall i | 0 <= i < |ids| :: r[i] == VersionOf(ids[i], m[ids[i]])
  {
    seq(|ids|, i requires 0 <= i < |ids| => VersionOf(ids[i], m[ids[i]]))
  }

  ghost function NameList(m: CausalSet, ids: set<Id>): seq<FieldValue>
    requires ids <= NameFrontier(m)
  {
    ListingLists(ids);
    Names(m, Listing(ids))
  }

  ghost function TagList(m: CausalSet, ids: set<Id>): seq<TagValue>
    requires ids <= TagFrontier(m)
  {
    ListingLists(ids);
    TagValues(m, Listing(ids))
  }

  ghost function VersionList(m: CausalSet, ids: set<Id>): seq<VersionValue>
    requires ids <= VersionIds(m)
  {
    ListingLists(ids);
    VersionValues(m, Listing(ids))
  }

  ghost function State(m: CausalSet): CausalState {
    CausalState(
      NameList(m, NameFrontier(m)),
      TagList(m, TagFrontier(m)),
      VersionList(m, VersionIds(m)),
      VersionList(m, HeadFrontier(m)))
  }

  // ----- the reference index -----

  /** How often each claim names `r`, as `dependents` records it. */
  ghost predicate Indexed(m: CausalSet, dependents: map<Id, seq<Id>>) {
    forall r, c :: Entries(dependents, r)[c] == if c in m then multiset(Refs(m[c]))[r] else 0
  }

  ghost function Entries(dependents: map<Id, seq<Id>>, r: Id): multiset<Id> {
    if r in dependents then multiset(dependents[r]) else multiset{}
  }

  ghost predicate Accepts(m: CausalSet, id: Id, r: Id)
    requires id in m
  {
    r in m && LegalReference(m[id], m[r])
  }

  /** `later` is `earlier` with `id` filed once under each of `refs`. */
  ghost predicate Filed(earlier: map<Id, seq<Id>>, later: map<Id, seq<Id>>, id: Id, refs: seq<Id>) {
    forall r, c :: Entries(later, r)[c] == Entries(earlier, r)[c] + if c == id then multiset(refs)[r] else 0
  }

  /** One claim's references: each must be present and legal. */
  method IndexClaim(m: CausalSet, id: Id, seen: set<Id>, filed: map<Id, seq<Id>>)
    returns (error: Option<FoldError>, targets: set<Id>, dependents: map<Id, seq<Id>>)
    requires id in m
    ensures error.Some? ==> BadReference(m, error.value)
    ensures error.None? ==> forall r | r in Refs(m[id]) :: Accepts(m, id, r)
    ensures error.None? ==> targets == seen + set r | r in Refs(m[id])
    ensures error.None? ==> Filed(filed, dependents, id, Refs(m[id]))
  {
    hide Filed, Entries, Accepts, RefersTo, LegalReference;
    error, targets, dependents := None, seen, filed;
    var refs := Refs(m[id]);
    FileNone(filed, id);
    var j := 0;
    while j < |refs|
      invariant 0 <= j <= |refs|
      invariant forall r | r in refs[..j] :: Accepts(m, id, r)
      invariant targets == seen + set r | r in refs[..j]
      invariant Filed(filed, dependents, id, refs[..j])
    {
      var r := refs[j];
      Judged(m, id, r);
      if r !in m {
        return Some(MissingReference(id, r)), targets, dependents;
      }
      if !LegalReference(m[id], m[r]) {
        return Some(IllegalReference(id, r)), targets, dependents;
      }
      assert refs[..j + 1] == refs[..j] + [r];
      ghost var before := dependents;
      targets := targets + {r};
      dependents := dependents[r := (if r in dependents then dependents[r] else []) + [id]];
      FileOne(filed, before, dependents, id, refs[..j], r);
      j := j + 1;
    }
    assert refs[..j] == refs;
  }

  lemma FileNone(filed: map<Id, seq<Id>>, id: Id)
    ensures Filed(filed, filed, id, [])
  {
  }

  lemma FileOne(first: map<Id, seq<Id>>, earlier: map<Id, seq<Id>>, later: map<Id, seq<Id>>, id: Id, refs: seq<Id>,
                r: Id)
    requires Filed(first, earlier, id, refs)
    requires later == earlier[r := (if r in earlier then earlier[r] else []) + [id]]
    ensures Filed(first, later, id, refs + [r])
  {
    hide Entries;
    forall q, c ensures Entries(later, q)[c] == Entries(first, q)[c] + if c == id then multiset(refs + [r])[q] else 0 {
      hide Filed;
      EntriesStep(earlier, later, id, r, q, c);
      OneMore(refs, r, q);
    }
  }

  lemma OneMore(refs: seq<Id>, r: Id, q: Id)
    ensures multiset(refs + [r])[q] == multiset(refs)[q] + if q == r then 1 else 0
  {
  }

  lemma EntriesStep(earlier: map<Id, seq<Id>>, later: map<Id, seq<Id>>, id: Id, r: Id, q: Id, c: Id)
    requires later == earlier[r := (if r in earlier then earlier[r] else []) + [id]]
    ensures Entries(later, q)[c] == Entries(earlier, q)[c] + if q == r && c == id then 1 else 0
  {
    OneMore(if r in earlier then earlier[r] else [], id, c);
  }

  lemma Judged(m: CausalSet, id: Id, r: Id)
    requires id in m && r in Refs(m[id])
    ensures r !in m ==> BadReference(m, MissingReference(id, r))
    ensures r in m && !LegalReference(m[id], m[r]) ==> BadReference(m, IllegalReference(id, r))
    ensures r in m && LegalReference(m[id], m[r]) ==> Accepts(m, id, r)
  {
    assert RefersTo(m, id, r);
  }

  /** The index after the claims in `done` have been read. */
  ghost predicate IndexedFor(m: CausalSet, done: set<Id>, targets: set<Id>, dependents: map<Id, seq<Id>>) {
    done <= m.Keys && AcceptedFor(m, done) && SeenFor(m, done, targets) && FiledFor(m, done, dependents)
  }

  ghost predicate AcceptedFor(m: CausalSet, done: set<Id>)
    requires done <= m.Keys
  {
    forall id | id in done :: forall r | r in Refs(m[id]) :: Accepts(m, id, r)
  }

  ghost predicate SeenFor(m: CausalSet, done: set<Id>, targets: set<Id>)
    requires done <= m.Keys
  {
    forall r :: r in targets <==> exists c :: c in done && RefersTo(m, c, r)
  }

  ghost predicate FiledFor(m: CausalSet, done: set<Id>, dependents: map<Id, seq<Id>>)
    requires done <= m.Keys
  {
    forall r, c :: Entries(dependents, r)[c] == if c in done then multiset(Refs(m[c]))[r] else 0
  }

  lemma IndexedStep(m: CausalSet, done: set<Id>, id: Id,
                    seen: set<Id>, filed: map<Id, seq<Id>>, targets: set<Id>, dependents: map<Id, seq<Id>>)
    requires IndexedFor(m, done, seen, filed) && id in m && id !in done
    requires forall r | r in Refs(m[id]) :: Accepts(m, id, r)
    requires targets == seen + set r | r in Refs(m[id])
    requires Filed(filed, dependents, id, Refs(m[id]))
    ensures IndexedFor(m, done + {id}, targets, dependents)
  {
    hide AcceptedFor, SeenFor, FiledFor, Accepts, Refs, Filed;
    AcceptedStep(m, done, id);
    SeenStep(m, done, id, seen, targets);
    FiledStep(m, done, id, filed, dependents);
  }

  lemma AcceptedStep(m: CausalSet, done: set<Id>, id: Id)
    requires done <= m.Keys && id in m && AcceptedFor(m, done)
    requires forall r | r in Refs(m[id]) :: Accepts(m, id, r)
    ensures AcceptedFor(m, done + {id})
  {
    hide Accepts;
  }

  lemma SeenStep(m: CausalSet, done: set<Id>, id: Id, seen: set<Id>, targets: set<Id>)
    requires done <= m.Keys && id in m && SeenFor(m, done, seen)
    requires targets == seen + set r | r in Refs(m[id])
    ensures SeenFor(m, done + {id}, targets)
  {
    forall r ensures r in targets <==> exists c :: c in done + {id} && RefersTo(m, c, r) {
      if r in targets {
        if r in seen {
          var c :| c in done && RefersTo(m, c, r);
          assert c in done + {id};
        } else {
          assert id in done + {id} && RefersTo(m, id, r);
        }
      }
    }
  }

  lemma FiledStep(m: CausalSet, done: set<Id>, id: Id, filed: map<Id, seq<Id>>, dependents: map<Id, seq<Id>>)
    requires done <= m.Keys && id in m && id !in done && Filed(filed, dependents, id, Refs(m[id]))
    requires FiledFor(m, done, filed)
    ensures FiledFor(m, done + {id}, dependents)
  {
    hide Entries, Refs;
  }

  lemma IndexedAll(m: CausalSet, targets: set<Id>, dependents: map<Id, seq<Id>>)
    requires IndexedFor(m, m.Keys, targets, dependents)
    ensures RefsPresent(m) && RefsLegal(m)
    ensures forall r :: r in targets <==> Targeted(m, r)
    ensures Indexed(m, dependents)
  {
    forall id, r | RefersTo(m, id, r) ensures Accepts(m, id, r) {
    }
    forall r ensures r in targets <==> Targeted(m, r) {
      if Targeted(m, r) {
        var c :| RefersTo(m, c, r);
        assert c in m.Keys && RefersTo(m, c, r);
      }
    }
  }

  lemma BadReferenceRejects(m: CausalSet, e: FoldError)
    requires BadReference(m, e)
    ensures !(RefsPresent(m) && RefsLegal(m))
  {
    assert RefersTo(m, e.claim, e.reference);
  }

  /** Reads every reference, in ID order, and stops at the first bad one. */
  method IndexReferences(m: CausalSet)
    returns (error: Option<FoldError>, targets: set<Id>, dependents: map<Id, seq<Id>>, remaining: map<Id, nat>)
    ensures error.None? <==> RefsPresent(m) && RefsLegal(m)
    ensures error.Some? ==> BadReference(m, error.value)
    ensures error.None? ==> (forall r :: r in targets <==> Targeted(m, r))
    ensures error.None? ==> Indexed(m, dependents)
    ensures error.None? ==> remaining.Keys == m.Keys && forall id | id in m :: remaining[id] == |Refs(m[id])|
  {
    error, targets, dependents, remaining := None, {}, map[], map[];
    var rest := m.Keys;
    while rest != {}
      invariant error.None? && rest <= m.Keys
      invariant remaining.Keys == m.Keys - rest
      invariant forall id | id in m.Keys - rest :: remaining[id] == |Refs(m[id])|
      invariant IndexedFor(m, m.Keys - rest, targets, dependents)
      decreases rest
    {
      ghost var done := m.Keys - rest;
      var id;
      id, rest := PopFirst(rest);
      remaining := remaining[id := |Refs(m[id])|];
      ghost var seen, filed := targets, dependents;
      error, targets, dependents := IndexClaim(m, id, targets, dependents);
      if error.Some? {
        BadReferenceRejects(m, error.value);
        return;
      }
      IndexedStep(m, done, id, seen, filed, targets, dependents);
      assert m.Keys - rest == done + {id};
    }
    assert m.Keys - rest == m.Keys;
    IndexedAll(m, targets, dependents);
  }

  /** The error names a reference that is missing or crosses fields. */
  ghost predicate BadReference(m: CausalSet, e: FoldError) {
    match e
    case MissingReference(c, r) => RefersTo(m, c, r) && r !in m
    case IllegalReference(c, r) => RefersTo(m, c, r) && r in m && !LegalReference(m[c], m[r])
    case _ => false
  }

  // ----- the worklist -----

  /** How many references, counted with repetition, are not in `done`. */
  ghost function Unmet(refs: seq<Id>, done: set<Id>): nat {
    if refs == [] then 0
    else (if refs[0] in done then 0 else 1) + Unmet(refs[1..], done)
  }

  lemma {:induction false} UnmetStart(refs: seq<Id>)
    ensures Unmet(refs, {}) == |refs|
  {
    if refs != [] { UnmetStart(refs[1..]); }
  }

  lemma {:induction false} UnmetZero(refs: seq<Id>, done: set<Id>)
    ensures Unmet(refs, done) == 0 <==> forall r | r in refs :: r in done
  {
    if refs != [] {
      UnmetZero(refs[1..], done);
      assert refs == [refs[0]] + refs[1..];
    }
  }

  /** Finishing `id` meets exactly the occurrences of `id`. */
  lemma {:induction false} UnmetAdd(refs: seq<Id>, done: set<Id>, id: Id)
    requires id !in done
    ensures multiset(refs)[id] <= Unmet(refs, done)
    ensures Unmet(refs, done + {id}) == Unmet(refs, done) - multiset(refs)[id]
  {
    if refs != [] {
      UnmetAdd(refs[1..], done, id);
      assert refs == [refs[0]] + refs[1..];
      assert multiset(refs) == multiset{refs[0]} + multiset(refs[1..]);
    }
  }

  /** The loop over a finished claim's dependents. */
  method Release(children: seq<Id>, before: map<Id, nat>, waiting: set<Id>)
    returns (remaining: map<Id, nat>, ready: set<Id>)
    requires forall c | c in children :: c in before && multiset(children)[c] <= before[c]
    ensures remaining.Keys == before.Keys
    ensures forall c | c in before :: remaining[c] + multiset(children)[c] == before[c]
    ensures ready == waiting + set c | c in children && before[c] == multiset(children)[c]
  {
    remaining, ready := before, waiting;
    var j := 0;
    while j < |children|
      invariant 0 <= j <= |children|
      invariant remaining.Keys == before.Keys
      invariant forall c | c in before :: remaining[c] + multiset(children[..j])[c] == before[c]
      invariant ready == waiting + set c | c in children[..j] && before[c] == multiset(children[..j])[c]
    {
      var child := children[j];
      SplitMultiset(children, j);
      var count := remaining[child] - 1;
      remaining := remaining[child := count];
      if count == 0 {
        ready := ready + {child};
      }
      ReadyStep(children, j, before);
      j := j + 1;
    }
    assert children[..j] == children;
  }

  lemma SplitMultiset(s: seq<Id>, j: nat)
    requires j < |s|
    ensures s[..j + 1] == s[..j] + [s[j]]
    ensures multiset(s[..j + 1]) == multiset(s[..j]) + multiset{s[j]}
    ensures forall c :: multiset(s[..j + 1])[c] <= multiset(s)[c]
  {
    assert s[..j + 1] == s[..j] + [s[j]];
    assert s == s[..j + 1] + s[j + 1..];
    assert multiset(s) == multiset(s[..j + 1]) + multiset(s[j + 1..]);
  }

  /** A child becomes ready at its last occurrence and stays ready. */
  lemma ReadyStep(children: seq<Id>, j: nat, before: map<Id, nat>)
    requires j < |children|
    requires forall c | c in children :: c in before && multiset(children)[c] <= before[c]
    ensures (set c | c in children[..j + 1] && before[c] == multiset(children[..j + 1])[c])
            == (set c | c in children[..j] && before[c] == multiset(children[..j])[c])
               + (if before[children[j]] == multiset(children[..j + 1])[children[j]] then {children[j]} else {})
  {
    SplitMultiset(children, j);
    var child := children[j];
    assert multiset(children[..j])[child] < before[child];
  }

  ghost predicate Counts(m: CausalSet, remaining: map<Id, nat>, done: set<Id>) {
    && remaining.Keys == m.Keys
    && (forall id | id in m :: remaining[id] == Unmet(Refs(m[id]), done))
    && (forall id | id in done && id in m :: remaining[id] == 0)
  }

  ghost function ReadySet(remaining: map<Id, nat>, done: set<Id>): set<Id> {
    set id | id in remaining && remaining[id] == 0 && id !in done
  }

  lemma StartCounts(m: CausalSet, counts: map<Id, nat>)
    requires counts.Keys == m.Keys && forall id | id in m :: counts[id] == |Refs(m[id])|
    ensures Counts(m, counts, {}) && Topological(m, [])
    ensures ReadySet(counts, {}) == set id | id in counts && counts[id] == 0
  {
    forall id | id in m ensures counts[id] == Unmet(Refs(m[id]), {}) {
      UnmetStart(Refs(m[id]));
    }
  }

  /** Pops ready claims until none is left. All are visited exactly when there is no cycle. */
  method Sort(m: CausalSet, dependents: map<Id, seq<Id>>, counts: map<Id, nat>) returns (visited: nat)
    requires RefsPresent(m) && Indexed(m, dependents)
    requires counts.Keys == m.Keys && forall id | id in m :: counts[id] == |Refs(m[id])|
    ensures visited == |m| <==> Acyclic(m)
  {
    var remaining := counts;
    var ready := set id | id in remaining && remaining[id] == 0;
    visited := 0;
    ghost var done: set<Id>, order: seq<Id> := {}, [];
    StartCounts(m, counts);
    hide Counts, ReadySet, Topological, Indexed, Refs, Acyclic;
    while ready != {}
      invariant Counts(m, remaining, done)
      invariant ready == ReadySet(remaining, done)
      invariant done <= m.Keys && visited == |done|
      invariant Topological(m, order) && forall id :: id in order <==> id in done
      decreases m.Keys - done
    {
      var id;
      id, ready := PopFirst(ready);
      visited := visited + 1;
      VisitNext(m, remaining, done, order, id);
      if id in dependents {
        ghost var was := remaining;
        ChildrenCounted(m, dependents, remaining, done, id);
        remaining, ready := Release(dependents[id], remaining, ready);
        Released(m, dependents, was, remaining, done, id);
      } else {
        NoChildren(m, dependents, remaining, done, id);
      }
      done, order := done + {id}, order + [id];
    }
    Finished(m, remaining, done, order);
  }

  /** A ready claim's references are all done, so it may come next. */
  lemma VisitNext(m: CausalSet, remaining: map<Id, nat>, done: set<Id>, order: seq<Id>, id: Id)
    requires Counts(m, remaining, done) && id in ReadySet(remaining, done)
    requires Topological(m, order) && forall c :: c in order <==> c in done
    ensures Topological(m, order + [id])
  {
    UnmetZero(Refs(m[id]), done);
    var next := order + [id];
    forall i, r | 0 <= i < |next| && RefersTo(m, next[i], r) ensures r in next[..i] {
      if i < |order| {
        assert next[..i] == order[..i];
      } else {
        assert next[..i] == order;
      }
    }
  }

  lemma ChildrenCounted(m: CausalSet, dependents: map<Id, seq<Id>>, remaining: map<Id, nat>, done: set<Id>, id: Id)
    requires Indexed(m, dependents) && Counts(m, remaining, done)
    requires id !in done && id in dependents
    ensures forall c | c in dependents[id] :: c in m && multiset(dependents[id])[c] <= remaining[c]
  {
    forall c | c in dependents[id] ensures c in m && multiset(dependents[id])[c] <= remaining[c] {
      assert multiset(dependents[id])[c] > 0;
      assert Entries(dependents, id)[c] == multiset(dependents[id])[c];
      UnmetAdd(Refs(m[c]), done, id);
    }
  }

  lemma ReleasedCounts(m: CausalSet, dependents: map<Id, seq<Id>>,
                       was: map<Id, nat>, remaining: map<Id, nat>, done: set<Id>, id: Id)
    requires Indexed(m, dependents) && Counts(m, was, done)
    requires id in ReadySet(was, done) && id in dependents
    requires remaining.Keys == was.Keys
    requires forall c | c in was :: remaining[c] + multiset(dependents[id])[c] == was[c]
    ensures Counts(m, remaining, done + {id})
  {
    forall c | c in m ensures remaining[c] == Unmet(Refs(m[c]), done + {id}) {
      assert Entries(dependents, id)[c] == multiset(dependents[id])[c];
      UnmetAdd(Refs(m[c]), done, id);
    }
  }

  lemma Released(m: CausalSet, dependents: map<Id, seq<Id>>,
                 was: map<Id, nat>, remaining: map<Id, nat>, done: set<Id>, id: Id)
    requires Indexed(m, dependents) && Counts(m, was, done)
    requires id in ReadySet(was, done) && id in dependents
    requires remaining.Keys == was.Keys
    requires forall c | c in was :: remaining[c] + multiset(dependents[id])[c] == was[c]
    ensures Counts(m, remaining, done + {id})
    ensures ReadySet(remaining, done + {id})
            == ReadySet(was, done) - {id}
               + set c | c in dependents[id] && c in was && was[c] == multiset(dependents[id])[c]
  {
    ReleasedCounts(m, dependents, was, remaining, done, id);
    hide Counts, Indexed;
    forall c ensures c in dependents[id] <==> multiset(dependents[id])[c] > 0 {
    }
    forall c ensures c in ReadySet(remaining, done + {id}) <==>
                     c in ReadySet(was, done) - {id}
                     || (c in dependents[id] && c in was && was[c] == multiset(dependents[id])[c]) {
    }
  }

  lemma NoChildren(m: CausalSet, dependents: map<Id, seq<Id>>, remaining: map<Id, nat>, done: set<Id>, id: Id)
    requires Indexed(m, dependents) && Counts(m, remaining, done)
    requires id in ReadySet(remaining, done) && id !in dependents
    ensures Counts(m, remaining, done + {id})
    ensures ReadySet(remaining, done + {id}) == ReadySet(remaining, done) - {id}
  {
    forall c | c in m ensures remaining[c] == Unmet(Refs(m[c]), done + {id}) {
      assert Entries(dependents, id)[c] == 0;
      UnmetAdd(Refs(m[c]), done, id);
    }
  }

  lemma Finished(m: CausalSet, remaining: map<Id, nat>, done: set<Id>, order: seq<Id>)
    requires RefsPresent(m) && Counts(m, remaining, done) && done <= m.Keys
    requires ReadySet(remaining, done) == {}
    requires Topological(m, order) && forall id :: id in order <==> id in done
    ensures |done| == |m| <==> Acyclic(m)
  {
    if done == m.Keys {
      TopologicalMeansAcyclic(m, order);
    } else {
      var stuck := m.Keys - done;
      assert |m.Keys| == |done| + |stuck|;
      forall id | id in stuck ensures WaitsWithin(m, stuck, id) {
        assert id !in ReadySet(remaining, done);
        UnmetZero(Refs(m[id]), done);
        var r :| r in Refs(m[id]) && r !in done;
        assert RefersTo(m, id, r);
        assert r in stuck;
      }
      StuckMeansCycle(m, stuck);
    }
  }

  // ----- reading the frontiers off the sorted claims -----

  /** The unread claims come after every claim already read. */
  ghost predicate Unread(m: CausalSet, rest: set<Id>) {
    rest <= m.Keys && forall y {:trigger Above(m, rest, y)} :: y in rest ==> Above(m, rest, y)
  }

  ghost predicate Above(m: CausalSet, rest: set<Id>, y: Id) {
    forall x | x in m && x !in rest :: Less(x, y)
  }

  lemma UnreadStep(m: CausalSet, rest: set<Id>)
    requires Unread(m, rest) && rest != {}
    ensures Unread(m, rest - {Least(rest)})
  {
    forall y | y in rest - {Least(rest)} ensures Above(m, rest - {Least(rest)}, y) {
      assert Above(m, rest, y);
    }
  }

  lemma ListingStep(m: CausalSet, rest: set<Id>, wanted: set<Id>)
    requires Unread(m, rest) && rest != {} && wanted <= m.Keys
    ensures var id := Least(rest);
            Listing(wanted - (rest - {id})) == Listing(wanted - rest) + if id in wanted then [id] else []
  {
    var id := Least(rest);
    assert Above(m, rest, id);
    if id in wanted {
      ListingExtends(wanted - rest, id);
      assert wanted - (rest - {id}) == wanted - rest + {id};
    } else {
      assert wanted - (rest - {id}) == wanted - rest;
    }
  }

  lemma ListingExtends(s: set<Id>, last: Id)
    requires forall x | x in s :: Less(x, last)
    ensures Listing(s + {last}) == Listing(s) + [last]
  {
    ListingLists(s);
    ListingIs(s + {last}, Listing(s) + [last]);
  }

  lemma NamesStep(m: CausalSet, rest: set<Id>)
    requires Unread(m, rest) && rest != {}
    ensures var id, all := Least(rest), NameFrontier(m);
            NameList(m, all - (rest - {id}))
            == NameList(m, all - rest) + if id in all then [NameOf(id, m[id])] else []
  {
    ListingStep(m, rest, NameFrontier(m));
    ListingLists(NameFrontier(m) - rest);
  }

  lemma TagsStep(m: CausalSet, rest: set<Id>)
    requires Unread(m, rest) && rest != {}
    ensures var id, all := Least(rest), TagFrontier(m);
            TagList(m, all - (rest - {id}))
            == TagList(m, all - rest) + if id in all then [TagOf(id, m[id])] else []
  {
    ListingStep(m, rest, TagFrontier(m));
    ListingLists(TagFrontier(m) - rest);
  }

  lemma VersionsStep(m: CausalSet, rest: set<Id>, all: set<Id>)
    requires Unread(m, rest) && rest != {} && all <= VersionIds(m)
    ensures var id := Least(rest);
            VersionList(m, all - (rest - {id}))
            == VersionList(m, all - rest) + if id in all then [VersionOf(id, m[id])] else []
  {
    ListingStep(m, rest, all);
    ListingLists(all - rest);
  }

  /** The state of the claims already read. */
  ghost function StateSoFar(m: CausalSet, rest: set<Id>): CausalState {
    CausalState(
      NameList(m, NameFrontier(m) - rest),
      TagList(m, TagFrontier(m) - rest),
      VersionList(m, VersionIds(m) - rest),
      VersionList(m, HeadFrontier(m) - rest))
  }

  /** What one claim adds to the state. */
  function Push(s: CausalState, id: Id, c: Claim, targeted: bool): CausalState {
    match c
    case Name(_, _, _, _, _) => if targeted then s else s.(names := s.names + [NameOf(id, c)])
    case TagAdd(_, _, _, _, _, _) => if targeted then s else s.(tags := s.tags + [TagOf(id, c)])
    case Version(_, _, _, _, _) =>
      s.(versions := s.versions + [VersionOf(id, c)],
         heads := if targeted then s.heads else s.heads + [VersionOf(id, c)])
    case _ => s
  }

  lemma StateStep(m: CausalSet, rest: set<Id>)
    requires Unread(m, rest) && rest != {}
    ensures var id := Least(rest);
            && Unread(m, rest - {id})
            && StateSoFar(m, rest - {id}) == Push(StateSoFar(m, rest), id, m[id], Targeted(m, id))
  {
    NamesStep(m, rest);
    TagsStep(m, rest);
    VersionsStep(m, rest, VersionIds(m));
    VersionsStep(m, rest, HeadFrontier(m));
    UnreadStep(m, rest);
  }

  /** The last loop: one pass over the claims in ID order. */
  method Frontiers(m: CausalSet, targets: set<Id>) returns (state: CausalState)
    requires forall r :: r in targets <==> Targeted(m, r)
    ensures state == State(m)
  {
    state := CausalState([], [], [], []);
    var rest := m.Keys;
    assert NameFrontier(m) - rest == TagFrontier(m) - rest == VersionIds(m) - rest == HeadFrontier(m) - rest == {};
    while rest != {}
      invariant Unread(m, rest)
      invariant state == StateSoFar(m, rest)
      decreases rest
    {
      StateStep(m, rest);
      var id;
      id, rest := PopFirst(rest);
      state := Push(state, id, m[id], id in targets);
    }
    assert NameFrontier(m) - rest == NameFrontier(m) && TagFrontier(m) - rest == TagFrontier(m);
    assert VersionIds(m) - rest == VersionIds(m) && HeadFrontier(m) - rest == HeadFrontier(m);
  }

  /** `document_ids.len() > 1`. */
  method CountOwners(m: CausalSet) returns (owners: set<Id>)
    ensures owners == Owners(m)
  {
    owners := {};
    var rest := m.Keys;
    while rest != {}
      invariant rest <= m.Keys
      invariant owners == set id | id in m.Keys - rest :: Owner(id, m[id])
      decreases rest
    {
      ghost var done := m.Keys - rest;
      var id;
      id, rest := PopFirst(rest);
      owners := owners + {Owner(id, m[id])};
      assert m.Keys - rest == done + {id};
    }
    assert m.Keys - rest == m.Keys;
  }

  lemma FewOwners(m: CausalSet)
    ensures |Owners(m)| <= 1 <==> OneDocument(m)
  {
    if OneDocument(m) && m != map[] {
      var id :| id in m;
      assert Owners(m) == {Owner(id, m[id])};
    } else if !OneDocument(m) {
      var a, b :| a in m && b in m && Owner(a, m[a]) != Owner(b, m[b]);
      assert {Owner(a, m[a]), Owner(b, m[b])} <= Owners(m);
      SubsetSize({Owner(a, m[a]), Owner(b, m[b])}, Owners(m));
    }
  }

  lemma {:induction false} SubsetSize(a: set<Id>, b: set<Id>)
    requires a <= b
    ensures |a| <= |b|
  {
    if a != {} {
      var x :| x in a;
      SubsetSize(a - {x}, b - {x});
    }
  }

  /** Why `fold` refuses a set: the first check that fails. */
  ghost predicate Refuses(m: CausalSet, e: FoldError) {
    match e
    case MixedDocuments => !OneDocument(m)
    case CausalCycle => OneDocument(m) && RefsPresent(m) && RefsLegal(m) && !Acyclic(m)
    case _ => OneDocument(m) && BadReference(m, e)
  }

  /** `CausalSet::fold` succeeds exactly on foldable sets. */
  method FoldClaims(m: CausalSet) returns (r: Result<CausalState, FoldError>)
    ensures r.Success? <==> Foldable(m)
    ensures r.Success? <==> (exists doc :: OfOneDocument(m, doc)) && PointersFit(m) && Acyclic(m)
    ensures r.Success? ==> r.value == State(m)
    ensures r.Failure? ==> Refuses(m, r.error)
  {
    FoldableMeans(m);
    hide OfOneDocument, PointersFit;
    var owners := CountOwners(m);
    FewOwners(m);
    if |owners| > 1 {
      return Failure(MixedDocuments);
    }
    var error, targets, dependents, remaining := IndexReferences(m);
    if error.Some? {
      return Failure(error.value);
    }
    var visited := Sort(m, dependents, remaining);
    if visited != |m| {
      return Failure(CausalCycle);
    }
    var state := Frontiers(m, targets);
    return Success(state);
  }

  /** A set is refused for one kind of reason only. */
  lemma FoldOutcomes(m: CausalSet)
    ensures Foldable(m) <==> !exists e :: Refuses(m, e)
  {
    if !RefsPresent(m) && OneDocument(m) {
      var id, r :| RefersTo(m, id, r) && r !in m;
      assert Refuses(m, MissingReference(id, r));
    } else if !RefsLegal(m) && OneDocument(m) {
      var id, r :| RefersTo(m, id, r) && r in m && !LegalReference(m[id], m[r]);
      assert Refuses(m, IllegalReference(id, r));
    } else if !Foldable(m) {
      assert Refuses(m, if OneDocument(m) then CausalCycle else MixedDocuments);
    }
    if Foldable(m) {
      forall e ensures !Refuses(m, e) {
        if BadReference(m, e) { BadReferenceRejects(m, e); }
      }
    }
  }

  // ----- what folding means, on the claims' own fields -----

  /** `c` names `x` as a parent, as superseded or as removed. */
  ghost predicate PointsAt(c: Claim, x: Id) {
    || (c.Version? && x in c.parents)
    || ((c.Name? || c.TagAdd?) && x in c.supersedes)
    || (c.TagRemove? && x in c.removes)
  }

  lemma RefsArePointers(c: Claim, x: Id)
    ensures x in Refs(c) <==> PointsAt(c, x)
  {
  }

  /** No claim of the set names `x`. */
  ghost predicate Current(m: CausalSet, x: Id) {
    forall c | c in m :: !PointsAt(m[c], x)
  }

  /** Every claim belongs to one document: creates by their ID, edits by what they are bound to. */
  ghost predicate OfOneDocument(m: CausalSet, doc: Id) {
    forall c | c in m :: if m[c].Create? then c == doc else m[c].doc == doc
  }

  /** References stay in the set, and in their field. */
  ghost predicate PointersFit(m: CausalSet) {
    forall c, x | c in m && PointsAt(m[c], x) :: x in m && StaysInField(m[c], m[x])
  }

  /** A set folds exactly when it is of one document, every reference is there and stays in its field, and no claim
      leads back to itself. */
  lemma FoldableMeans(m: CausalSet)
    ensures Foldable(m) <==> (exists doc :: OfOneDocument(m, doc)) && PointersFit(m) && Acyclic(m)
  {
    OneDocumentMeans(m);
    forall c, x ensures RefersTo(m, c, x) <==> c in m && PointsAt(m[c], x) {
      if c in m { RefsArePointers(m[c], x); }
    }
    forall c, x | c in m && x in m ensures LegalReference(m[c], m[x]) <==> StaysInField(m[c], m[x]) {
      LegalMeansInField(m[c], m[x]);
    }
    hide Refs, LegalReference, StaysInField, PointsAt, Acyclic, OneDocument, OfOneDocument;
  }

  lemma OneDocumentMeans(m: CausalSet)
    ensures OneDocument(m) <==> exists doc :: OfOneDocument(m, doc)
  {
    if OneDocument(m) {
      var doc := if a :| a in m then Owner(a, m[a]) else "";
      assert OfOneDocument(m, doc);
    }
  }

  /** What a folded state lists: the current names and tag assertions, every version, the current versions, with their
      fields, and each list in ID order. */
  lemma StateMeans(m: CausalSet)
    ensures var s := State(m);
            && (forall x, v :: FieldValue(x, v) in s.names <==> x in m && Current(m, x) && m[x].Name? && m[x].name == v)
            && (forall x, v, k :: TagValue(x, v, k) in s.tags <==>
                  x in m && Current(m, x) && m[x].TagAdd? && m[x].tag == v && m[x].scope == k)
            && (forall x, h, ps, ts :: VersionValue(x, h, ps, ts) in s.versions <==>
                  x in m && m[x].Version? && m[x].hash == h && m[x].parents == ps && m[x].ts == ts)
            && (forall v :: v in s.heads <==> v in s.versions && Current(m, v.id))
    ensures var s := State(m);
            && (forall i, j | 0 <= i < j < |s.names| :: Less(s.names[i].id, s.names[j].id))
            && (forall i, j | 0 <= i < j < |s.tags| :: Less(s.tags[i].id, s.tags[j].id))
            && (forall i, j | 0 <= i < j < |s.versions| :: Less(s.versions[i].id, s.versions[j].id))
            && (forall i, j | 0 <= i < j < |s.heads| :: Less(s.heads[i].id, s.heads[j].id))
  {
    NamesMean(m);
    TagsMean(m);
    VersionsMean(m);
    HeadsMean(m);
  }

  lemma CurrentMeans(m: CausalSet, x: Id)
    ensures Current(m, x) <==> !Targeted(m, x)
  {
    forall c | c in m ensures RefersTo(m, c, x) <==> PointsAt(m[c], x) {
      RefsArePointers(m[c], x);
    }
  }

  lemma NamesMean(m: CausalSet)
    ensures var names := State(m).names;
            && (forall x, v :: FieldValue(x, v) in names <==> x in m && Current(m, x) && m[x].Name? && m[x].name == v)
            && (forall i, j | 0 <= i < j < |names| :: Less(names[i].id, names[j].id))
  {
    var ids, names := Listing(NameFrontier(m)), State(m).names;
    ListingLists(NameFrontier(m));
    forall x ensures Current(m, x) <==> !Targeted(m, x) { CurrentMeans(m, x); }
    hide Targeted, Current, Less;
    forall x, v ensures FieldValue(x, v) in names <==> x in NameFrontier(m) && m[x].name == v {
      if x in NameFrontier(m) {
        assert x in ids;
        var i :| 0 <= i < |ids| && ids[i] == x;
        assert names[i] == NameOf(x, m[x]);
      }
      if FieldValue(x, v) in names {
        var i :| 0 <= i < |names| && names[i] == FieldValue(x, v);
        assert ids[i] in ids;
      }
    }
  }

  lemma TagsMean(m: CausalSet)
    ensures var tags := State(m).tags;
            && (forall x, v, k :: TagValue(x, v, k) in tags <==>
                  x in m && Current(m, x) && m[x].TagAdd? && m[x].tag == v && m[x].scope == k)
            && (forall i, j | 0 <= i < j < |tags| :: Less(tags[i].id, tags[j].id))
  {
    var ids, tags := Listing(TagFrontier(m)), State(m).tags;
    ListingLists(TagFrontier(m));
    forall x ensures Current(m, x) <==> !Targeted(m, x) { CurrentMeans(m, x); }
    hide Targeted, Current, Less;
    forall x, v, k ensures TagValue(x, v, k) in tags <==> x in TagFrontier(m) && m[x].tag == v && m[x].scope == k {
      if x in TagFrontier(m) {
        assert x in ids;
        var i :| 0 <= i < |ids| && ids[i] == x;
        assert tags[i] == TagOf(x, m[x]);
      }
      if TagValue(x, v, k) in tags {
        var i :| 0 <= i < |tags| && tags[i] == TagValue(x, v, k);
        assert ids[i] in ids;
      }
    }
  }

  lemma VersionsIn(m: CausalSet, some: set<Id>, v: VersionValue)
    requires some <= VersionIds(m)
    ensures v in VersionList(m, some) <==>
            v.id in some && m[v.id].hash == v.hash && m[v.id].parents == v.parents && m[v.id].ts == v.ts
    ensures var list := VersionList(m, some);
            forall i, j | 0 <= i < j < |list| :: Less(list[i].id, list[j].id)
  {
    var ids, list := Listing(some), VersionList(m, some);
    ListingLists(some);
    hide Less;
    if v.id in some {
      assert v.id in ids;
      var i :| 0 <= i < |ids| && ids[i] == v.id;
      assert list[i] == VersionOf(v.id, m[v.id]);
    }
    if v in list {
      var i :| 0 <= i < |list| && list[i] == v;
      assert ids[i] in ids;
    }
  }

  lemma VersionsMean(m: CausalSet)
    ensures var versions := State(m).versions;
            && (forall x, h, ps, ts :: VersionValue(x, h, ps, ts) in versions <==>
                  x in m && m[x].Version? && m[x].hash == h && m[x].parents == ps && m[x].ts == ts)
            && (forall i, j | 0 <= i < j < |versions| :: Less(versions[i].id, versions[j].id))
  {
    forall x, h, ps, ts ensures VersionValue(x, h, ps, ts) in State(m).versions <==>
        x in m && m[x].Version? && m[x].hash == h && m[x].parents == ps && m[x].ts == ts {
      VersionsIn(m, VersionIds(m), VersionValue(x, h, ps, ts));
    }
    VersionsIn(m, VersionIds(m), VersionValue("", "", [], ""));
  }

  lemma HeadsMean(m: CausalSet)
    ensures var s := State(m);
            && (forall v :: v in s.heads <==> v in s.versions && Current(m, v.id))
            && (forall i, j | 0 <= i < j < |s.heads| :: Less(s.heads[i].id, s.heads[j].id))
  {
    forall v ensures v in State(m).heads <==> v in State(m).versions && Current(m, v.id) {
      VersionsIn(m, VersionIds(m), v);
      VersionsIn(m, HeadFrontier(m), v);
      CurrentMeans(m, v.id);
    }
    VersionsIn(m, HeadFrontier(m), VersionValue("", "", [], ""));
  }

  /** An assertion of a foldable set is current, or was taken out in its own field: by a removal of its path, by a `set`
      on a key at or above it, or by a plain assertion of its path or below. */
  lemma TakenOutInField(m: CausalSet, x: Id)
    requires Foldable(m) && x in m && m[x].TagAdd?
    ensures Current(m, x) || exists c :: c in m && PointsAt(m[c], x) && MayTakeOut(m[c], m[x].tag)
  {
    FoldableMeans(m);
    hide Foldable;
    if !Current(m, x) {
      var c :| c in m && PointsAt(m[c], x);
      assert StaysInField(m[c], m[x]);
      assert MayTakeOut(m[c], m[x].tag);
    }
  }

  ghost predicate MayTakeOut(c: Claim, path: string) {
    || (c.TagRemove? && c.tag == path)
    || (c.TagAdd? && c.scope.Some? && (path == c.scope.value || c.scope.value + "/" <= path))
    || (c.TagAdd? && c.scope.None? && (path == c.tag || path + "/" <= c.tag))
  }
}
