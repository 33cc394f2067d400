/** Documents: the fold of one document's claims, and what its tags display (src/document.rs, src/causal.rs). */
module Document {
  import opened Wrappers
  import opened Order
  import opened Tags
  import opened Claims
  import opened CausalGraph
  import opened Fold
  import opened Convergence

  // ----- tag projection and conflicts -----

  function Paths(tags: seq<TagValue>): (r: set<string>)
    ensures forall t | t in tags :: t.value in r
  {
    set t | t in tags :: t.value
  }

  predicate IsLeaf(paths: set<string>, path: string) {
    forall other | other in paths :: !IsDescendant(path, other)
  }

  /** `projected_tags`: the deepest value on each lineage. */
  function ProjectedTags(tags: seq<TagValue>): set<string> {
    set path | path in Paths(tags) && IsLeaf(Paths(tags), path)
  }

  /** Projection hides a path only behind a deeper one that it keeps. */
  lemma {:induction false} ProjectionCovers(tags: seq<TagValue>, path: string, deeper: set<string>)
    returns (leaf: string)
    requires path in Paths(tags)
    requires forall other | other in Paths(tags) && other !in deeper :: !IsDescendant(path, other)
    ensures leaf in ProjectedTags(tags) && (leaf == path || IsDescendant(path, leaf))
    decreases deeper
  {
    if other :| other in Paths(tags) && IsDescendant(path, other) {
      forall x | x in Paths(tags) && x !in deeper - {other} ensures !IsDescendant(other, x) {
        if IsDescendant(other, x) { DescendantTransitive(path, other, x); }
      }
      leaf := ProjectionCovers(tags, other, deeper - {other});
      if leaf != other { DescendantTransitive(path, other, leaf); }
    } else {
      leaf := path;
    }
  }

  /** Every asserted path is displayed, itself or through a deeper path; displayed paths never nest. */
  lemma ProjectedTagsAreTheLeaves(tags: seq<TagValue>)
    ensures forall t | t in tags ::
              exists leaf :: leaf in ProjectedTags(tags) && (leaf == t.value || IsDescendant(t.value, leaf))
    ensures forall p, q | p in ProjectedTags(tags) && q in ProjectedTags(tags) :: !IsDescendant(p, q)
    ensures forall p | p in ProjectedTags(tags) :: exists t :: t in tags && t.value == p
  {
    forall t | t in tags
      ensures exists leaf :: leaf in ProjectedTags(tags) && (leaf == t.value || IsDescendant(t.value, leaf))
    {
      var leaf := ProjectionCovers(tags, t.value, Paths(tags));
    }
  }

  /** Asserted, and no other assertion extends it. */
  ghost predicate Deepest(tags: seq<TagValue>, path: string) {
    (exists t :: t in tags && t.value == path) && forall t | t in tags :: !(path + "/" <= t.value)
  }

  lemma DeepestAreProjected(tags: seq<TagValue>)
    ensures forall p :: p in ProjectedTags(tags) <==> Deepest(tags, p)
  {
    forall p, t | t in tags ensures IsDescendant(p, t.value) <==> p + "/" <= t.value {
      DescendantMeans(p, t.value);
    }
    forall p ensures IsLeaf(Paths(tags), p) <==> forall t | t in tags :: !(p + "/" <= t.value) {
    }
  }

  predicate Diverge(a: string, b: string) {
    a != b && !IsDescendant(a, b) && !IsDescendant(b, a)
  }

  /** The key two `set` assertions conflict on, if any. */
  function PairConflict(a: TagValue, b: TagValue): Option<string> {
    if a.scope.None? || b.scope.None? then None
    else
      var key, otherKey := a.scope.value, b.scope.value;
      if key == otherKey then Some(key)
      else if IsDescendant(key, otherKey) then
        if Diverge(a.value, b.value) then Some(key) else None
      else if IsDescendant(otherKey, key) then
        if Diverge(a.value, b.value) then Some(otherKey) else None
      else None
  }

  /** Neither value equals or extends the other. */
  ghost predicate Apart(a: string, b: string) {
    a != b && !(a + "/" <= b) && !(b + "/" <= a)
  }

  /** `a` was set on `key`, and `b` on `key` too, or below it to a value that does not lie on `a`'s lineage. */
  ghost predicate Disputes(a: TagValue, b: TagValue, key: string) {
    && a.scope == Some(key) && b.scope.Some?
    && (b.scope.value == key || (key + "/" <= b.scope.value && Apart(a.value, b.value)))
  }

  lemma PairConflictMeans(a: TagValue, b: TagValue, key: string)
    ensures PairConflict(a, b) == Some(key) <==> Disputes(a, b, key) || Disputes(b, a, key)
  {
    DescendantMeans(a.value, b.value);
    DescendantMeans(b.value, a.value);
    if a.scope.Some? && b.scope.Some? {
      DescendantMeans(a.scope.value, b.scope.value);
      DescendantMeans(b.scope.value, a.scope.value);
    }
  }

  /** Two current assertions dispute the key. */
  ghost predicate Disputed(tags: seq<TagValue>, key: string) {
    exists i, j :: 0 <= i < |tags| && 0 <= j < |tags| && i != j && Disputes(tags[i], tags[j], key)
  }

  lemma ConflictMeans(tags: seq<TagValue>, key: string)
    ensures Conflicted(tags, key) <==> Disputed(tags, key)
  {
    hide Disputes, PairConflict;
    if i: nat :| ConflictsAfter(tags, i, key) {
      var j :| i < j < |tags| && PairConflict(tags[i], tags[j]) == Some(key);
      PairConflictMeans(tags[i], tags[j], key);
    }
    if i, j :| 0 <= i < |tags| && 0 <= j < |tags| && i != j && Disputes(tags[i], tags[j], key) {
      var a: nat, b: nat := if i < j then i else j, if i < j then j else i;
      PairConflictMeans(tags[a], tags[b], key);
      assert ConflictsAfter(tags, a, key);
    }
  }

  /** Which of the two comes first in the listing does not matter. */
  lemma PairConflictSymmetric(a: TagValue, b: TagValue)
    ensures PairConflict(a, b) == PairConflict(b, a)
  {
  }

  /** Assertion `i` conflicts on `key` with a later one. */
  ghost predicate ConflictsAfter(tags: seq<TagValue>, i: nat, key: string) {
    exists j :: i < j < |tags| && PairConflict(tags[i], tags[j]) == Some(key)
  }

  ghost predicate Conflicted(tags: seq<TagValue>, key: string) {
    exists i: nat :: ConflictsAfter(tags, i, key)
  }

  function KeySet(conflict: Option<string>): set<string> {
    if conflict.Some? then {conflict.value} else {}
  }

  /** Conflicts of assertion `i` with the assertions in `i + 1..j`. */
  ghost function Row(tags: seq<TagValue>, i: nat, j: nat): set<string>
    requires i < j <= |tags|
  {
    if j == i + 1 then {} else Row(tags, i, j - 1) + KeySet(PairConflict(tags[i], tags[j - 1]))
  }

  ghost function Rows(tags: seq<TagValue>, i: nat): set<string>
    requires i <= |tags|
  {
    if i == 0 then {} else Rows(tags, i - 1) + Row(tags, i - 1, |tags|)
  }

  lemma {:induction false} RowIs(tags: seq<TagValue>, i: nat, j: nat, key: string)
    requires i < j <= |tags|
    ensures key in Row(tags, i, j) <==> exists q :: i < q < j && PairConflict(tags[i], tags[q]) == Some(key)
  {
    if j > i + 1 { RowIs(tags, i, j - 1, key); }
  }

  ghost predicate RowHas(tags: seq<TagValue>, p: nat, key: string) {
    p < |tags| && key in Row(tags, p, |tags|)
  }

  lemma {:induction false} RowsAre(tags: seq<TagValue>, i: nat, key: string)
    requires i <= |tags|
    ensures key in Rows(tags, i) <==> exists p: nat :: p < i && RowHas(tags, p, key)
  {
    if i > 0 {
      RowsAre(tags, i - 1, key);
      if key in Rows(tags, i) && key !in Rows(tags, i - 1) {
        assert RowHas(tags, i - 1, key);
      }
    }
  }

  lemma RowsAreConflicts(tags: seq<TagValue>, key: string)
    ensures key in Rows(tags, |tags|) <==> Conflicted(tags, key)
  {
    RowsAre(tags, |tags|, key);
    forall p: nat ensures RowHas(tags, p, key) <==> ConflictsAfter(tags, p, key) {
      if p < |tags| { RowIs(tags, p, |tags|, key); }
    }
  }

  /** `tag_conflict_keys`: every pair of assertions once. */
  method TagConflictKeys(tags: seq<TagValue>) returns (conflicts: set<string>)
    ensures forall key :: key in conflicts <==> Disputed(tags, key)
  {
    conflicts := {};
    var i := 0;
    while i < |tags|
      invariant 0 <= i <= |tags|
      invariant conflicts == Rows(tags, i)
    {
      var j := i + 1;
      while j < |tags|
        invariant i < j <= |tags|
        invariant conflicts == Rows(tags, i) + Row(tags, i, j)
      {
        var conflict := PairConflict(tags[i], tags[j]);
        if conflict.Some? {
          conflicts := conflicts + {conflict.value};
        }
        j := j + 1;
      }
      i := i + 1;
    }
    forall key ensures key in conflicts <==> Disputed(tags, key) {
      RowsAreConflicts(tags, key);
      ConflictMeans(tags, key);
    }
  }

  /** A key that some assertion was set on and that shows more than one value. */
  ghost predicate MultiValued(tags: seq<TagValue>, key: string) {
    && (exists t :: t in tags && t.scope == Some(key))
    && exists p, q :: p != q && ShownUnder(tags, key, p) && ShownUnder(tags, key, q)
  }

  predicate ShownUnder(tags: seq<TagValue>, key: string, path: string) {
    path in ProjectedTags(tags) && (path == key || IsDescendant(key, path))
  }

  function Under(tags: seq<TagValue>, key: string): set<string> {
    set path | path in ProjectedTags(tags) && ShownUnder(tags, key, path)
  }

  lemma ManyUnder(tags: seq<TagValue>, key: string)
    ensures |Under(tags, key)| > 1 <==> exists p, q :: p != q && ShownUnder(tags, key, p) && ShownUnder(tags, key, q)
  {
    var under := Under(tags, key);
    hide ProjectedTags;
    if |under| > 1 {
      var p :| p in under;
      assert |under - {p}| > 0;
      var q :| q in under - {p};
      assert ShownUnder(tags, key, p) && ShownUnder(tags, key, q);
    }
    if p, q :| p != q && ShownUnder(tags, key, p) && ShownUnder(tags, key, q) {
      assert {p, q} <= under && |{p, q}| == 2;
      SubsetIsSmaller({p, q}, under);
    }
  }

  lemma SubsetIsSmaller(a: set<string>, b: set<string>)
    requires a <= b
    ensures |a| <= |b|
  {
    assert b == a + (b - a);
  }

  /** The key was set, and more than one path at or below it is shown. */
  ghost predicate ShowsSeveral(tags: seq<TagValue>, key: string) {
    && (exists t :: t in tags && t.scope == Some(key))
    && exists p, q :: p != q && DeepestUnder(tags, key, p) && DeepestUnder(tags, key, q)
  }

  ghost predicate DeepestUnder(tags: seq<TagValue>, key: string, path: string) {
    Deepest(tags, path) && (path == key || key + "/" <= path)
  }

  lemma SeveralMeansMultiValued(tags: seq<TagValue>)
    ensures forall key :: MultiValued(tags, key) <==> ShowsSeveral(tags, key)
  {
    DeepestAreProjected(tags);
    hide ProjectedTags, Deepest;
    forall key, p ensures ShownUnder(tags, key, p) <==> DeepestUnder(tags, key, p) {
      DescendantMeans(key, p);
    }
  }

  /** `set_multi_value_keys`. */
  method SetMultiValueKeys(tags: seq<TagValue>) returns (keys: set<string>)
    ensures forall key :: key in keys <==> MultiValued(tags, key)
  {
    keys := {};
    var i := 0;
    while i < |tags|
      invariant 0 <= i <= |tags|
      invariant forall key ::
                  key in keys <==> |Under(tags, key)| > 1 && exists t :: t in tags[..i] && t.scope == Some(key)
    {
      var scope := tags[i].scope;
      assert tags[..i + 1] == tags[..i] + [tags[i]];
      if scope.Some? && |Under(tags, scope.value)| > 1 {
        keys := keys + {scope.value};
      }
      i := i + 1;
    }
    assert tags[..i] == tags;
    forall key ensures key in keys <==> MultiValued(tags, key) {
      ManyUnder(tags, key);
    }
  }

  // ----- document fold -----

  /** A canonical claim set that `Document::fold` accepts under `id`. */
  ghost predicate IsDocument(idOf: Identity, id: Id, m: CausalSet) {
    && ContentAddressed(idOf, m)
    && Foldable(m)
    && id in m && m[id].Create?
    && (forall c | c in m :: if m[c].Create? then c == id else m[c].doc == id)
  }

  datatype DocumentError =
    | FirstNotCreate
    | WrongDocument
    | BadClaim(cause: SetError)
    | NoUniqueCreate
    | BadGraph(reason: FoldError)

  /** The logs `Document::fold` accepts under `id`. */
  ghost predicate Loads(idOf: Identity, id: Id, claims: seq<Claim>) {
    && claims != [] && claims[0].Create?
    && (forall c | c in claims :: c.Create? || c.doc == id)
    && InsertAll(idOf, map[], claims).Success?
    && IsDocument(idOf, id, Loaded(idOf, claims))
  }

  ghost function Loaded(idOf: Identity, claims: seq<Claim>): CausalSet
    requires InsertAll(idOf, map[], claims).Success?
  {
    InsertAll(idOf, map[], claims).value
  }

  /** `creates` in `Document::fold`. */
  method Creates(m: CausalSet) returns (creates: seq<Id>)
    ensures |creates| == 1 <==> exists id :: id in m && m[id].Create? && forall c | c in m && m[c].Create? :: c == id
    ensures forall id :: id in creates <==> id in m && m[id].Create?
  {
    creates := [];
    var rest := m.Keys;
    while rest != {}
      invariant rest <= m.Keys
      invariant forall id :: id in creates <==> id in m && id !in rest && m[id].Create?
      invariant forall i, j | 0 <= i < j < |creates| :: creates[i] != creates[j]
      decreases rest
    {
      var id;
      id, rest := PopFirst(rest);
      if m[id].Create? {
        creates := creates + [id];
      }
    }
    if |creates| == 1 {
      assert creates[0] in creates;
    } else if |creates| > 1 {
      assert creates[0] in creates && creates[1] in creates;
    }
  }

  lemma InsertAllAddresses(idOf: Identity, m: CausalSet, claims: seq<Claim>)
    requires ContentAddressed(idOf, m) && InsertAll(idOf, m, claims).Success?
    ensures ContentAddressed(idOf, InsertAll(idOf, m, claims).value)
  {
    InsertAllDelivers(idOf, m, claims);
    var r := InsertAll(idOf, m, claims).value;
    forall id | id in r ensures IsNormal(r[id]) && idOf(r[id]) == id {
      if id !in m {
        var c :| c in claims && Normalized(c).Success? && idOf(Normalized(c).value) == id;
        assert Holds(idOf, r, c);
        NormalizedIsNormal(c);
      }
    }
  }

  /** Normalizing keeps a claim's kind and document, so the set is bound as its claims are. */
  lemma InsertAllBinds(idOf: Identity, id: Id, m: CausalSet, claims: seq<Claim>)
    requires InsertAll(idOf, m, claims).Success?
    requires forall c | c in m :: m[c].Create? || m[c].doc == id
    requires forall c | c in claims :: c.Create? || c.doc == id
    ensures var r := InsertAll(idOf, m, claims).value;
            forall c | c in r :: r[c].Create? || r[c].doc == id
  {
    hide ContentAddressed, InsertAll;
    InsertAllDelivers(idOf, m, claims);
    var r := InsertAll(idOf, m, claims).value;
    forall c | c in r ensures r[c].Create? || r[c].doc == id {
      if c !in m {
        var x :| x in claims && Normalized(x).Success? && idOf(Normalized(x).value) == c;
        assert Holds(idOf, r, x);
      }
    }
  }

  /** The checks after insertion, and the fold. */
  method FoldSet(idOf: Identity, id: Id, m: CausalSet) returns (r: Result<CausalState, DocumentError>)
    requires ContentAddressed(idOf, m) && forall c | c in m :: m[c].Create? || m[c].doc == id
    ensures r.Success? <==> IsDocument(idOf, id, m)
    ensures r.Success? ==> r.value == State(m)
  {
    var creates := Creates(m);
    if |creates| != 1 {
      return Failure(NoUniqueCreate);
    }
    assert creates[0] in creates;
    if creates[0] != id {
      return Failure(NoUniqueCreate);
    }
    var state := FoldClaims(m);
    if state.Failure? {
      return Failure(BadGraph(state.error));
    }
    return Success(state.value);
  }

  /** What `Document::fold` returns. */
  datatype Shown = Shown(
    id: Id, name: Option<string>, createdAt: string, state: CausalState,
    tags: set<string>, conflicts: set<string>, multiValued: set<string>)

  /** A document as its claims determine it: its name if there is just one, its creation time, the leaves of its tags,
      the keys whose assertions conflict, and the keys that were set and show several values. */
  ghost predicate Shows(m: CausalSet, id: Id, shown: Shown)
    requires id in m && m[id].Create?
  {
    var state := State(m);
    && shown.id == id && shown.state == state && shown.createdAt == m[id].ts
    && (forall n :: shown.name == Some(n) <==> exists v :: state.names == [v] && v.value == n)
    && (forall p :: p in shown.tags <==> Deepest(state.tags, p))
    && (forall key :: key in shown.conflicts <==> Disputed(state.tags, key))
    && (forall key :: key in shown.multiValued <==> ShowsSeveral(state.tags, key))
  }

  /** `Document::fold`. */
  method FoldDocument(idOf: Identity, id: Id, claims: seq<Claim>) returns (r: Result<Shown, DocumentError>)
    ensures r.Success? <==> Loads(idOf, id, claims)
    ensures r.Success? ==> Shows(Loaded(idOf, claims), id, r.value)
  {
    if claims == [] || !claims[0].Create? {
      return Failure(FirstNotCreate);
    }
    if exists c | c in claims :: !c.Create? && c.doc != id {
      return Failure(WrongDocument);
    }
    var claimSet := new ClaimSet();
    var error := claimSet.InsertSequence(idOf, claims);
    if error.Some? {
      return Failure(BadClaim(error.value));
    }
    InsertAllAddresses(idOf, map[], claims);
    InsertAllBinds(idOf, id, map[], claims);
    var folded := FoldSet(idOf, id, claimSet.claims);
    if folded.Failure? {
      return Failure(folded.error);
    }
    var shown := Display(claimSet.claims, id, folded.value);
    return Success(shown);
  }

  /** The fields for display. */
  method Display(m: CausalSet, id: Id, state: CausalState) returns (shown: Shown)
    requires id in m && m[id].Create? && state == State(m)
    ensures Shows(m, id, shown)
  {
    hide State, ProjectedTags, Disputed, MultiValued, Deepest, ShowsSeveral;
    DeepestAreProjected(state.tags);
    SeveralMeansMultiValued(state.tags);
    var name := if |state.names| == 1 then Some(state.names[0].value) else None;
    var conflicts := TagConflictKeys(state.tags);
    var multiValued := SetMultiValueKeys(state.tags);
    assert |state.names| == 1 ==> state.names == [state.names[0]];
    shown := Shown(id, name, m[id].ts, state, ProjectedTags(state.tags), conflicts, multiValued);
  }

  /** Two replicas of one document merge into that document. */
  lemma UnionOfDocuments(idOf: Identity, id: Id, a: CausalSet, b: CausalSet)
    requires IsDocument(idOf, id, a) && IsDocument(idOf, id, b) && Agree(a, b)
    ensures IsDocument(idOf, id, a + b)
  {
    UnionFoldable(a, b);
    UnionIsMapUnion(idOf, a, b);
  }
}
