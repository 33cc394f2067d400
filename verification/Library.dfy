/** Library edits: the claims each one builds from a snapshot, and what appending them does (src/library.rs). */
module Library {
  import opened Wrappers
  import opened Order
  import opened Tags
  import opened Claims
  import opened CausalGraph
  import opened Fold
  import opened Convergence
  import opened Document

  /** A loaded document: its ID and the state folded when it was read. */
  datatype Snapshot = Snapshot(id: Id, state: CausalState)

  datatype EditError = NoParent | AmbiguousParent(prefix: string) | EmptyKeyOrValue

  // ----- the claims each edit builds -----

  function NameIds(names: seq<FieldValue>): (r: seq<Id>) {
    if names == [] then [] else [names[0].id] + NameIds(names[1..])
  }

  function Rename(doc: Snapshot, name: string, nonce: string, ts: string): seq<Claim> {
    [Name(doc.id, nonce, ts, name, NameIds(doc.state.names))]
  }

  predicate AtOrUnder(key: string, path: string) {
    path == key || IsDescendant(key, path)
  }

  /** Which observed assertions an edit refers to: of one path, at or under a key, at or above a path. */
  datatype Filter = Exactly(path: string) | Under(key: string) | Above(path: string)

  predicate Wants(f: Filter, value: string) {
    match f
    case Exactly(path) => value == path
    case Under(key) => AtOrUnder(key, value)
    case Above(path) => AtOrUnder(value, path)
  }

  function Select(tags: seq<TagValue>, f: Filter): seq<Id> {
    if tags == [] then []
    else (if Wants(f, tags[0].value) then [tags[0].id] else []) + Select(tags[1..], f)
  }

  function SetTag(doc: Snapshot, rawKey: string, rawValue: string, nonce: string,
                  ts: string): Result<seq<Claim>, EditError> {
    var key, value := NormalizeTag(rawKey), NormalizeTag(rawValue);
    if key == "" || value == "" then Failure(EmptyKeyOrValue)
    else
      Success([TagAdd(doc.id, nonce, ts, key + "/" + value, Some(key),
                      Select(doc.state.tags, Under(key)))])
  }

  function NormalizeAll(paths: seq<string>): (r: seq<string>)
    ensures forall p | p in r :: p != "" && NormalizeTag(p) == p
  {
    if paths == [] then []
    else
      var p := NormalizeTag(paths[0]);
      NormalizeIdempotent(paths[0]);
      (if p != "" then [p] else []) + NormalizeAll(paths[1..])
  }

  /** `normalized_paths`: a `BTreeSet`, so in ascending order without repeats. */
  function NormalizedPaths(paths: seq<string>): (r: seq<string>)
    ensures forall p | p in r :: p != "" && NormalizeTag(p) == p
  {
    SortDedup(NormalizeAll(paths))
  }

  /** Exactly the path forms of the arguments that have one, each once and in order. */
  lemma NormalizedPathsAre(paths: seq<string>)
    ensures forall p :: p in NormalizedPaths(paths) <==> p != "" && exists q :: q in paths && p == NormalizeTag(q)
    ensures Ascending(NormalizedPaths(paths))
  {
    NormalizeAllHas(paths);
    SortDedupIs(NormalizeAll(paths));
  }

  lemma {:induction false} NormalizeAllHas(paths: seq<string>)
    ensures forall p :: p in NormalizeAll(paths) <==> p != "" && exists q :: q in paths && p == NormalizeTag(q)
  {
    hide NormalizeTag;
    if paths != [] {
      NormalizeAllHas(paths[1..]);
      assert paths == [paths[0]] + paths[1..];
    }
  }

  lemma SortDedupIs(ids: seq<string>)
    ensures Ascending(SortDedup(ids)) && forall x :: x in SortDedup(ids) <==> x in ids
  {
  }

  /** Removals name the observed assertions of exactly that path, and only if there are any. */
  function Removals(doc: Snapshot, paths: seq<string>, nonces: string -> string, ts: string): seq<Claim> {
    if paths == [] then []
    else
      var removes := Select(doc.state.tags, Exactly(paths[0]));
      (if removes == [] then [] else [TagRemove(doc.id, nonces("-" + paths[0]), ts, paths[0], removes)])
      + Removals(doc, paths[1..], nonces, ts)
  }

  function Additions(doc: Snapshot, paths: seq<string>, nonces: string -> string, ts: string): seq<Claim> {
    if paths == [] then []
    else
      [TagAdd(doc.id, nonces("+" + paths[0]), ts, paths[0], None,
              Select(doc.state.tags, Above(paths[0])))]
      + Additions(doc, paths[1..], nonces, ts)
  }

  /** `tag_at`; `nonces` stands for one fresh nonce per claim. */
  function Tag(doc: Snapshot, add: seq<string>, del: seq<string>, nonces: string -> string, ts: string): seq<Claim> {
    Removals(doc, NormalizedPaths(del), nonces, ts) + Additions(doc, NormalizedPaths(add), nonces, ts)
  }

  function Matches(versions: seq<VersionValue>, prefix: string): (r: seq<Id>)
    ensures forall id | id in r :: exists v :: v in versions && v.id == id && prefix <= v.id
  {
    if versions == [] then []
    else (if prefix <= versions[0].id then [versions[0].id] else []) + Matches(versions[1..], prefix)
  }

  /** Every prefix must match exactly one observed version. */
  function Resolve(versions: seq<VersionValue>, prefixes: seq<string>): Result<seq<Id>, EditError> {
    if prefixes == [] then Success([])
    else if |Matches(versions, prefixes[0])| != 1 then Failure(AmbiguousParent(prefixes[0]))
    else
      match Resolve(versions, prefixes[1..])
      case Failure(e) => Failure(e)
      case Success(rest) => Success([Matches(versions, prefixes[0])[0]] + rest)
  }

  /** `id` is the one version with this prefix. */
  ghost predicate OnlyMatch(versions: seq<VersionValue>, prefix: string, id: Id) {
    && (exists v :: v in versions && v.id == id && prefix <= id)
    && (forall v | v in versions && prefix <= v.id :: v.id == id)
  }

  ghost predicate DistinctIds(versions: seq<VersionValue>) {
    forall i, j | 0 <= i < j < |versions| :: versions[i].id != versions[j].id
  }

  lemma {:induction false} MatchesHas(versions: seq<VersionValue>, prefix: string, id: Id)
    ensures id in Matches(versions, prefix) <==> exists v :: v in versions && v.id == id && prefix <= id
  {
    if versions != [] {
      MatchesHas(versions[1..], prefix, id);
      assert versions == [versions[0]] + versions[1..];
    }
  }

  lemma {:induction false} MatchesNone(versions: seq<VersionValue>, prefix: string)
    requires forall v | v in versions :: !(prefix <= v.id)
    ensures Matches(versions, prefix) == []
  {
    if versions != [] {
      assert versions == [versions[0]] + versions[1..];
      MatchesNone(versions[1..], prefix);
    }
  }

  lemma {:induction false} MatchesOnce(versions: seq<VersionValue>, prefix: string, id: Id)
    requires DistinctIds(versions) && forall v | v in versions && prefix <= v.id :: v.id == id
    ensures |Matches(versions, prefix)| <= 1
  {
    if versions != [] {
      var rest := versions[1..];
      assert versions == [versions[0]] + rest;
      MatchesOnce(rest, prefix, id);
      if prefix <= versions[0].id {
        forall v | v in rest ensures !(prefix <= v.id) {
          var k :| 0 <= k < |rest| && rest[k] == v;
          assert versions[k + 1].id != versions[0].id;
        }
        MatchesNone(rest, prefix);
      }
    }
  }

  lemma MatchIs(versions: seq<VersionValue>, prefix: string)
    requires DistinctIds(versions)
    ensures |Matches(versions, prefix)| == 1 <==> exists id :: OnlyMatch(versions, prefix, id)
    ensures |Matches(versions, prefix)| == 1 ==> OnlyMatch(versions, prefix, Matches(versions, prefix)[0])
  {
    var found := Matches(versions, prefix);
    if |found| == 1 {
      forall v | v in versions && prefix <= v.id ensures v.id == found[0] {
        MatchesHas(versions, prefix, v.id);
      }
      MatchesHas(versions, prefix, found[0]);
      assert OnlyMatch(versions, prefix, found[0]);
    }
    if id :| OnlyMatch(versions, prefix, id) {
      MatchesOnce(versions, prefix, id);
      MatchesHas(versions, prefix, id);
    }
  }

  /** Prefixes resolve exactly when each fits one version, and then to those versions. */
  lemma {:induction false} ResolveFinds(versions: seq<VersionValue>, prefixes: seq<string>)
    requires DistinctIds(versions)
    ensures Resolve(versions, prefixes).Success? <==>
              forall p | p in prefixes :: exists id :: OnlyMatch(versions, p, id)
    ensures Resolve(versions, prefixes).Success? ==>
              var ids := Resolve(versions, prefixes).value;
              |ids| == |prefixes| && forall i | 0 <= i < |ids| :: OnlyMatch(versions, prefixes[i], ids[i])
  {
    if prefixes != [] {
      assert prefixes == [prefixes[0]] + prefixes[1..];
      MatchIs(versions, prefixes[0]);
      ResolveFinds(versions, prefixes[1..]);
      assert prefixes[0] in prefixes && forall p | p in prefixes[1..] :: p in prefixes;
      hide OnlyMatch, Matches;
    }
  }

  function AddVersion(doc: Snapshot, prefixes: seq<string>, hash: string, nonce: string,
                      ts: string): Result<seq<Claim>, EditError> {
    if prefixes == [] then Failure(NoParent)
    else
      match Resolve(doc.state.versions, prefixes)
      case Failure(e) => Failure(e)
      case Success(parents) => Success([Version(doc.id, nonce, ts, hash, parents)])
  }

  /** The three claims of a new document. */
  function Add(idOf: Identity, name: string, hash: string, nonce: string, nonces: string -> string,
               ts: string): seq<Claim> {
    var create := Create(2, nonce, ts);
    [create, Version(idOf(create), nonces("version"), ts, hash, []), Name(idOf(create), nonces("name"), ts, name, [])]
  }

  // ----- appending claims that refer only to what a snapshot saw -----

  /** `s` is an earlier state of the log `l`. */
  ghost predicate Earlier(s: CausalSet, l: CausalSet) {
    forall id | id in s :: id in l && l[id] == s[id]
  }

  ghost predicate Mentions(claims: seq<Claim>, id: Id) {
    exists c :: c in claims && id in Refs(c)
  }

  /** An edit of document `id` whose references were all observed in `s`. */
  ghost predicate Observes(s: CausalSet, id: Id, c: Claim) {
    && !c.Create? && c.doc == id
    && (forall r | r in Refs(c) :: r in s)
    && (Normalized(c).Success? ==> forall r | r in Refs(c) :: LegalReference(Normalized(c).value, s[r]))
  }

  lemma NormalizedKeepsReferences(c: Claim, r: Id)
    requires Normalized(c).Success?
    ensures r in Refs(Normalized(c).value) <==> r in Refs(c)
  {
  }

  lemma ExtendedRefers(l: CausalSet, id: Id, n: Claim, c: Id, r: Id)
    requires id !in l
    ensures RefersTo(l[id := n], c, r) <==> RefersTo(l, c, r) || (c == id && r in Refs(n))
  {
  }

  /** A new claim that nothing refers to cannot close a cycle. */
  lemma NewClaimAcyclic(l: CausalSet, id: Id, n: Claim)
    requires id !in l && RefsPresent(l) && Acyclic(l)
    requires forall r | r in Refs(n) :: r in l
    ensures Acyclic(l[id := n])
  {
    var next := l[id := n];
    forall p ensures !IsCycle(next, p) {
      if IsCycle(next, p) {
        NewClaimCycle(l, id, n, p);
      }
    }
  }

  lemma NewClaimCycle(l: CausalSet, id: Id, n: Claim, p: seq<Id>)
    requires id !in l && RefsPresent(l)
    requires forall r | r in Refs(n) :: r in l
    requires IsCycle(l[id := n], p)
    ensures IsCycle(l, p)
  {
    var next := l[id := n];
    assert p[0] in p;
    assert Follows(next, p, 0);
    if p[0] == id {
      SubWalk(next, p, 1, |p|);
      var tail := p[1..|p|];
      assert tail[|tail| - 1] in tail;
      WalkStays(l, next, tail);
    } else {
      WalkStays(l, next, p);
    }
  }

  lemma AppendOne(idOf: Identity, id: Id, s: CausalSet, l: CausalSet, c: Claim)
    requires IsDocument(idOf, id, l) && Earlier(s, l) && Observes(s, id, c)
    requires Insert(idOf, l, c).Success?
    ensures var next := Insert(idOf, l, c).value;
            && IsDocument(idOf, id, next)
            && Earlier(l, next)
            && next.Keys == l.Keys + {idOf(Normalized(c).value)}
            && next[idOf(Normalized(c).value)] == Normalized(c).value
            && forall x :: Targeted(next, x) <==> Targeted(l, x) || x in Refs(c)
  {
    InsertIs(idOf, l, c);
    NormalizedIsNormal(c);
    hide Normalized, Insert, IsNormal;
    var n := Normalized(c).value;
    var own := idOf(n);
    var next := Insert(idOf, l, c).value;
    forall r ensures r in Refs(n) <==> r in Refs(c) {
      NormalizedKeepsReferences(c, r);
    }
    if own !in l {
      NewClaimAcyclic(l, own, n);
      ExtendedDocument(idOf, id, l, own, n);
    } else {
      assert next == l;
    }
    TargetedAfter(l, own, n);
  }

  lemma InsertIs(idOf: Identity, l: CausalSet, c: Claim)
    requires Insert(idOf, l, c).Success?
    ensures Normalized(c).Success?
    ensures var n := Normalized(c).value;
            Insert(idOf, l, c).value == l[idOf(n) := n] && (idOf(n) in l ==> l[idOf(n)] == n)
  {
    hide Normalized;
  }

  lemma TargetedAfter(l: CausalSet, own: Id, n: Claim)
    requires own in l ==> l[own] == n
    ensures forall x :: Targeted(l[own := n], x) <==> Targeted(l, x) || x in Refs(n)
  {
    var next := l[own := n];
    forall x ensures Targeted(next, x) <==> Targeted(l, x) || x in Refs(n) {
      if Targeted(next, x) {
        var k :| RefersTo(next, k, x);
        if k != own { assert RefersTo(l, k, x); }
      }
      if k :| RefersTo(l, k, x) { assert RefersTo(next, k, x); }
      if x in Refs(n) { assert RefersTo(next, own, x); }
    }
  }

  lemma ExtendedDocument(idOf: Identity, id: Id, l: CausalSet, own: Id, n: Claim)
    requires IsDocument(idOf, id, l) && own !in l && IsNormal(n) && idOf(n) == own
    requires !n.Create? && n.doc == id
    requires forall r | r in Refs(n) :: r in l && LegalReference(n, l[r])
    requires Acyclic(l[own := n])
    ensures IsDocument(idOf, id, l[own := n])
  {
    var next := l[own := n];
    forall c, r | RefersTo(next, c, r) ensures r in next && LegalReference(next[c], next[r]) {
      ExtendedRefers(l, own, n, c, r);
      if c != own { assert RefersTo(l, c, r); }
    }
  }

  /** The IDs a batch files its claims under. */
  ghost predicate Files(idOf: Identity, claims: seq<Claim>, id: Id) {
    exists c :: c in claims && Normalized(c).Success? && idOf(Normalized(c).value) == id
  }

  /** An edit that fails leaves no trace; one that succeeds leaves a foldable document. */
  lemma {:induction false} AppendBatch(idOf: Identity, id: Id, s: CausalSet, l: CausalSet, claims: seq<Claim>)
    requires IsDocument(idOf, id, l) && Earlier(s, l)
    requires forall c | c in claims :: Observes(s, id, c)
    requires InsertAll(idOf, l, claims).Success?
    ensures var next := InsertAll(idOf, l, claims).value;
            && IsDocument(idOf, id, next)
            && Earlier(l, next)
            && (forall x :: Targeted(next, x) <==> Targeted(l, x) || Mentions(claims, x))
            && (forall x :: x in next <==> x in l || Files(idOf, claims, x))
    decreases |claims|
  {
    hide Observes, IsDocument, Targeted, Insert;
    if claims != [] {
      var c, rest := claims[0], claims[1..];
      assert claims == [c] + rest;
      InsertIs(idOf, l, c);
      AppendOne(idOf, id, s, l, c);
      var middle := Insert(idOf, l, c).value;
      AppendBatch(idOf, id, s, middle, rest);
      var next := InsertAll(idOf, l, claims).value;
      assert InsertAll(idOf, middle, rest) == Success(next);
      forall x ensures Mentions(claims, x) <==> x in Refs(c) || Mentions(rest, x) {
        if x in Refs(c) { assert c in claims; }
      }
      forall x ensures Files(idOf, claims, x) <==> x == idOf(Normalized(c).value) || Files(idOf, rest, x) {
        if x == idOf(Normalized(c).value) { assert c in claims; }
      }
    }
  }

  /** Frontier values the snapshot had not seen survive every edit made from it. */
  lemma UnseenSurvives(idOf: Identity, id: Id, s: CausalSet, l: CausalSet, claims: seq<Claim>, x: Id)
    requires IsDocument(idOf, id, l) && Earlier(s, l)
    requires forall c | c in claims :: Observes(s, id, c)
    requires InsertAll(idOf, l, claims).Success?
    requires x !in s
    ensures var next := InsertAll(idOf, l, claims).value;
            && (x in NameFrontier(l) ==> x in NameFrontier(next))
            && (x in TagFrontier(l) ==> x in TagFrontier(next))
            && (x in HeadFrontier(l) ==> x in HeadFrontier(next))
  {
    AppendBatch(idOf, id, s, l, claims);
    assert !Mentions(claims, x);
  }

  // ----- what each edit observes -----

  ghost predicate SnapshotOf(doc: Snapshot, s: CausalSet) {
    doc.state == State(s)
  }

  lemma {:induction false} NameIdsOf(names: seq<FieldValue>, x: Id)
    ensures x in NameIds(names) <==> exists i :: 0 <= i < |names| && names[i].id == x
  {
    if names != [] {
      NameIdsOf(names[1..], x);
      assert names == [names[0]] + names[1..];
    }
  }

  lemma {:induction false} SelectOf(tags: seq<TagValue>, f: Filter, x: Id)
    ensures x in Select(tags, f) <==> exists i :: 0 <= i < |tags| && tags[i].id == x && Wants(f, tags[i].value)
  {
    if tags != [] {
      SelectOf(tags[1..], f, x);
      assert tags == [tags[0]] + tags[1..];
    }
  }

  lemma ListingHas(ids: set<Id>, x: Id)
    requires x in ids
    ensures exists i :: 0 <= i < |Listing(ids)| && Listing(ids)[i] == x
  {
    ListingLists(ids);
  }

  /** Renaming supersedes exactly the names the snapshot shows. */
  lemma SnapshotNames(s: CausalSet, x: Id)
    ensures x in NameIds(State(s).names) <==> x in NameFrontier(s)
  {
    NameIdsOf(State(s).names, x);
    ListingLists(NameFrontier(s));
    if x in NameFrontier(s) { ListingHas(NameFrontier(s), x); }
  }

  /** Selection picks exactly the shown assertions with a wanted path. */
  lemma SnapshotTags(s: CausalSet, f: Filter, x: Id)
    ensures x in Select(State(s).tags, f) <==> x in TagFrontier(s) && Wants(f, s[x].tag)
  {
    SelectOf(State(s).tags, f, x);
    ListingLists(TagFrontier(s));
    if x in TagFrontier(s) { ListingHas(TagFrontier(s), x); }
  }

  lemma SnapshotVersions(s: CausalSet, v: VersionValue)
    requires v in State(s).versions
    ensures v.id in VersionIds(s)
  {
    ListingLists(VersionIds(s));
  }

  lemma {:induction false} ResolvedAreVersions(s: CausalSet, prefixes: seq<string>)
    requires Resolve(State(s).versions, prefixes).Success?
    ensures forall x | x in Resolve(State(s).versions, prefixes).value :: x in VersionIds(s)
  {
    if prefixes != [] {
      ResolvedAreVersions(s, prefixes[1..]);
      var ids := Matches(State(s).versions, prefixes[0]);
      assert ids[0] in ids;
      var v :| v in State(s).versions && v.id == ids[0];
      SnapshotVersions(s, v);
    }
  }

  lemma RenameObserves(s: CausalSet, doc: Snapshot, name: string, nonce: string, ts: string)
    requires SnapshotOf(doc, s)
    ensures Observes(s, doc.id, Rename(doc, name, nonce, ts)[0])
  {
    forall x | x in NameIds(doc.state.names) ensures x in NameFrontier(s) {
      SnapshotNames(s, x);
    }
  }

  lemma VersionObserves(s: CausalSet, doc: Snapshot, prefixes: seq<string>, hash: string, nonce: string, ts: string)
    requires SnapshotOf(doc, s) && AddVersion(doc, prefixes, hash, nonce, ts).Success?
    ensures Observes(s, doc.id, AddVersion(doc, prefixes, hash, nonce, ts).value[0])
  {
    ResolvedAreVersions(s, prefixes);
  }

  /** Paths already in normal form are kept as they are. */
  lemma NormalPathsAreKept(c: Claim)
    requires c.TagAdd? && NormalizeTag(c.tag) == c.tag
    requires c.scope.Some? ==> NormalizeTag(c.scope.value) == c.scope.value
    requires Normalized(c).Success?
    ensures var n := Normalized(c).value; n.TagAdd? && n.tag == c.tag && n.scope == c.scope
  {
  }

  lemma SetPath(rawKey: string, rawValue: string)
    requires NormalizeTag(rawKey) != "" && NormalizeTag(rawValue) != ""
    ensures var key, value := NormalizeTag(rawKey), NormalizeTag(rawValue);
            NormalizeTag(key) == key && NormalizeTag(key + "/" + value) == key + "/" + value
  {
    NormalizeIdempotent(rawKey);
    NormalizeIdempotent(rawValue);
    NormalizeExtend(NormalizeTag(rawKey), NormalizeTag(rawValue));
  }

  lemma SelectsUnder(s: CausalSet, key: string)
    ensures forall x :: x in Select(State(s).tags, Under(key)) <==> x in TagFrontier(s) && AtOrUnder(key, s[x].tag)
  {
    forall x ensures x in Select(State(s).tags, Under(key)) <==> x in TagFrontier(s) && Wants(Under(key), s[x].tag) {
      SnapshotTags(s, Under(key), x);
    }
  }

  /** `set` builds an assertion of its whole path, over everything at or under its key. */
  lemma SetClaim(doc: Snapshot, l: CausalSet, rawKey: string, rawValue: string, nonce: string, ts: string)
    requires SnapshotOf(doc, l) && SetTag(doc, rawKey, rawValue, nonce, ts).Success?
    ensures var c, key := SetTag(doc, rawKey, rawValue, nonce, ts).value[0], NormalizeTag(rawKey);
            && c.TagAdd? && c.doc == doc.id && c.scope == Some(key)
            && c.tag == key + "/" + NormalizeTag(rawValue) == NormalizeTag(c.tag)
            && NormalizeTag(key) == key
            && forall x :: x in Refs(c) <==> x in TagFrontier(l) && AtOrUnder(key, l[x].tag)
  {
    hide State, Select, NormalizeTag, TagFrontier, AtOrUnder;
    SetPath(rawKey, rawValue);
    SelectsUnder(l, NormalizeTag(rawKey));
  }

  lemma SetObserves(s: CausalSet, doc: Snapshot, key: string, value: string, nonce: string, ts: string)
    requires SnapshotOf(doc, s) && SetTag(doc, key, value, nonce, ts).Success?
    ensures Observes(s, doc.id, SetTag(doc, key, value, nonce, ts).value[0])
  {
    var c := SetTag(doc, key, value, nonce, ts).value[0];
    SetClaim(doc, s, key, value, nonce, ts);
    if Normalized(c).Success? { NormalPathsAreKept(c); }
  }

  lemma {:induction false} RemovalsObserve(s: CausalSet, doc: Snapshot, paths: seq<string>, nonces: string -> string,
                                           ts: string, c: Claim)
    requires SnapshotOf(doc, s) && c in Removals(doc, paths, nonces, ts)
    requires forall p | p in paths :: NormalizeTag(p) == p
    ensures Observes(s, doc.id, c)
  {
    if c !in Removals(doc, paths[1..], nonces, ts) {
      assert paths[0] in paths;
      forall x | x in Refs(c) ensures x in TagFrontier(s) && s[x].tag == paths[0] {
        SnapshotTags(s, Exactly(paths[0]), x);
      }
    } else {
      RemovalsObserve(s, doc, paths[1..], nonces, ts, c);
    }
  }

  lemma {:induction false} AdditionsObserve(s: CausalSet, doc: Snapshot, paths: seq<string>, nonces: string -> string,
                                            ts: string, c: Claim)
    requires SnapshotOf(doc, s) && c in Additions(doc, paths, nonces, ts)
    requires forall p | p in paths :: NormalizeTag(p) == p
    ensures Observes(s, doc.id, c)
  {
    if c !in Additions(doc, paths[1..], nonces, ts) {
      assert paths[0] in paths;
      forall x | x in Refs(c) ensures x in TagFrontier(s) && AtOrUnder(s[x].tag, paths[0]) {
        SnapshotTags(s, Above(paths[0]), x);
      }
    } else {
      AdditionsObserve(s, doc, paths[1..], nonces, ts, c);
    }
  }

  lemma TagObserves(s: CausalSet, doc: Snapshot, add: seq<string>, del: seq<string>, nonces: string -> string,
                    ts: string)
    requires SnapshotOf(doc, s)
    ensures forall c | c in Tag(doc, add, del, nonces, ts) :: Observes(s, doc.id, c)
  {
    forall c | c in Tag(doc, add, del, nonces, ts) ensures Observes(s, doc.id, c) {
      if c in Removals(doc, NormalizedPaths(del), nonces, ts) {
        RemovalsObserve(s, doc, NormalizedPaths(del), nonces, ts, c);
      } else {
        AdditionsObserve(s, doc, NormalizedPaths(add), nonces, ts, c);
      }
    }
  }

  /** A snapshot shows each version once, so `ResolveFinds` applies to it. */
  lemma SnapshotVersionsDiffer(s: CausalSet)
    ensures DistinctIds(State(s).versions)
  {
    var versions, ids := State(s).versions, Listing(VersionIds(s));
    ListingLists(VersionIds(s));
    forall i, j | 0 <= i < j < |versions| ensures versions[i].id != versions[j].id {
      assert versions[i].id == ids[i] && versions[j].id == ids[j];
      if ids[i] == ids[j] { AscendingHasNoDuplicates(ids, i, j); }
    }
  }

  // ----- edits from an up-to-date snapshot -----

  /** One claim, observed in full and filed under an ID the log does not have yet. */
  ghost predicate AppendsFresh(idOf: Identity, id: Id, l: CausalSet, c: Claim, next: CausalSet) {
    && IsDocument(idOf, id, l)
    && Observes(l, id, c)
    && InsertAll(idOf, l, [c]) == Success(next)
    && idOf(Normalized(c).value) !in l
  }

  lemma FreshFrontiers(idOf: Identity, id: Id, l: CausalSet, c: Claim, next: CausalSet) returns (own: Id)
    requires AppendsFresh(idOf, id, l, c, next)
    ensures own !in l && next == l[own := Normalized(c).value] && IsDocument(idOf, id, next)
    ensures forall x :: x in NameFrontier(next) <==> (x in NameFrontier(l) && x !in Refs(c)) || (x == own && c.Name?)
    ensures forall x :: x in TagFrontier(next) <==> (x in TagFrontier(l) && x !in Refs(c)) || (x == own && c.TagAdd?)
    ensures forall x :: x in HeadFrontier(next) <==> (x in HeadFrontier(l) && x !in Refs(c)) || (x == own && c.Version?)
  {
    own := idOf(Normalized(c).value);
    InsertOne(idOf, l, c);
    InsertIs(idOf, l, c);
    NormalizedKeepsKind(c);
    assert !Targeted(l, own);
    hide Insert, InsertAll, Observes, IsDocument, Normalized, Targeted;
    AppendOne(idOf, id, l, l, c);
    FrontiersAfter(l, own, Normalized(c).value, Refs(c));
  }

  lemma InsertOne(idOf: Identity, l: CausalSet, c: Claim)
    ensures InsertAll(idOf, l, [c]) == Insert(idOf, l, c)
  {
    hide Insert;
  }

  lemma NormalizedKeepsKind(c: Claim)
    requires Normalized(c).Success?
    ensures var n := Normalized(c).value;
            && n.Name? == c.Name? && n.TagAdd? == c.TagAdd? && n.Version? == c.Version?
            && (c.Name? ==> n.name == c.name) && (c.Version? ==> n.hash == c.hash)
  {
    hide NormalizeTag, CheckedTag, SortDedup;
  }

  lemma FrontiersAfter(l: CausalSet, own: Id, n: Claim, refs: seq<Id>)
    requires own !in l && !Targeted(l, own) && own !in refs
    requires forall x :: Targeted(l[own := n], x) <==> Targeted(l, x) || x in refs
    ensures var next := l[own := n];
            && (forall x :: x in NameFrontier(next) <==> (x in NameFrontier(l) && x !in refs) || (x == own && n.Name?))
            && (forall x :: x in TagFrontier(next) <==> (x in TagFrontier(l) && x !in refs) || (x == own && n.TagAdd?))
            && (forall x :: x in HeadFrontier(next) <==>
                 (x in HeadFrontier(l) && x !in refs) || (x == own && n.Version?))
  {
    hide Targeted;
  }

  lemma OneName(m: CausalSet, own: Id)
    requires NameFrontier(m) == {own}
    ensures State(m).names == [NameOf(own, m[own])]
  {
    ListingIs({own}, [own]);
  }

  lemma OneHead(m: CausalSet, own: Id)
    requires HeadFrontier(m) == {own}
    ensures State(m).heads == [VersionOf(own, m[own])]
  {
    ListingIs({own}, [own]);
  }

  /** After a rename that saw everything, the new name is the only one. */
  lemma RenameSettlesName(idOf: Identity, l: CausalSet, doc: Snapshot, name: string, nonce: string, ts: string,
                          next: CausalSet)
    requires SnapshotOf(doc, l)
    requires AppendsFresh(idOf, doc.id, l, Rename(doc, name, nonce, ts)[0], next)
    ensures |State(next).names| == 1 && State(next).names[0].value == name && State(next).names[0].id !in l
  {
    var c := Rename(doc, name, nonce, ts)[0];
    InsertOne(idOf, l, c);
    InsertIs(idOf, l, c);
    NormalizedKeepsKind(c);
    hide IsDocument, Observes, InsertAll, Insert, Normalized;
    var own := FreshFrontiers(idOf, doc.id, l, c, next);
    forall x ensures x in NameFrontier(next) <==> x == own {
      SnapshotNames(l, x);
    }
    OneName(next, own);
  }

  lemma HeadsLeft(l: CausalSet, next: CausalSet, own: Id, refs: seq<Id>)
    requires own !in l
    requires forall x :: x in HeadFrontier(next) <==> (x in HeadFrontier(l) && x !in refs) || x == own
    ensures |State(next).heads| == 1 <==> forall x | x in HeadFrontier(l) :: x in refs
    ensures own in HeadFrontier(next)
  {
    ListingLists(HeadFrontier(next));
    assert |State(next).heads| == |HeadFrontier(next)|;
    if x :| x in HeadFrontier(l) && x !in refs {
      SubsetSize({own, x}, HeadFrontier(next));
    } else {
      assert HeadFrontier(next) == {own};
    }
  }

  /** The parents of the claim are the versions the prefixes stand for. */
  lemma VersionParents(l: CausalSet, doc: Snapshot, prefixes: seq<string>, hash: string, nonce: string, ts: string)
    requires SnapshotOf(doc, l) && AddVersion(doc, prefixes, hash, nonce, ts).Success?
    requires Normalized(AddVersion(doc, prefixes, hash, nonce, ts).value[0]).Success?
    ensures var c := AddVersion(doc, prefixes, hash, nonce, ts).value[0];
            && c.Version? && c.doc == doc.id && c.hash == hash && |c.parents| == |prefixes|
            && (forall i | 0 <= i < |prefixes| :: OnlyMatch(doc.state.versions, prefixes[i], c.parents[i]))
            && Normalized(c).value.Version?
            && forall x :: x in Normalized(c).value.parents <==>
                 exists p :: p in prefixes && OnlyMatch(doc.state.versions, p, x)
  {
    var c := AddVersion(doc, prefixes, hash, nonce, ts).value[0];
    SnapshotVersionsDiffer(l);
    ResolveFinds(doc.state.versions, prefixes);
    hide OnlyMatch, Resolve;
    SortDedupIs(c.parents);
    forall x ensures x in c.parents <==> exists p :: p in prefixes && OnlyMatch(doc.state.versions, p, x) {
      if p :| p in prefixes && OnlyMatch(doc.state.versions, p, x) {
        var i :| 0 <= i < |prefixes| && prefixes[i] == p;
        MatchIsOne(doc.state.versions, p, x, c.parents[i]);
      }
    }
  }

  /** Edits are refused for a key or value with no path form, for no parent, and for a prefix that does not fit exactly
      one version the snapshot showed; for nothing else. */
  lemma EditsRefused(l: CausalSet, doc: Snapshot, key: string, value: string, prefixes: seq<string>, hash: string,
                     nonce: string, ts: string)
    requires SnapshotOf(doc, l)
    ensures SetTag(doc, key, value, nonce, ts).Failure? <==> NormalizeTag(key) == "" || NormalizeTag(value) == ""
    ensures AddVersion(doc, prefixes, hash, nonce, ts).Failure? <==>
            |prefixes| == 0 || exists p :: p in prefixes && forall x :: !OnlyMatch(doc.state.versions, p, x)
  {
    hide NormalizeTag, SnapshotOf, OnlyMatch, Resolve;
    if |prefixes| > 0 {
      ResolvesAll(l, doc, prefixes);
    }
  }

  lemma ResolvesAll(l: CausalSet, doc: Snapshot, prefixes: seq<string>)
    requires SnapshotOf(doc, l)
    ensures Resolve(doc.state.versions, prefixes).Success? <==>
            forall p | p in prefixes :: exists x :: OnlyMatch(doc.state.versions, p, x)
  {
    SnapshotVersionsDiffer(l);
    ResolveFinds(doc.state.versions, prefixes);
  }

  lemma MatchIsOne(versions: seq<VersionValue>, prefix: string, a: Id, b: Id)
    requires OnlyMatch(versions, prefix, a) && OnlyMatch(versions, prefix, b)
    ensures a == b
  {
  }

  /** A version becomes the only head exactly when its parents include every head. */
  lemma VersionJoinsHeads(idOf: Identity, l: CausalSet, doc: Snapshot, prefixes: seq<string>, hash: string,
                          nonce: string, ts: string, next: CausalSet) returns (own: Id)
    requires SnapshotOf(doc, l)
    requires AddVersion(doc, prefixes, hash, nonce, ts).Success?
    requires AppendsFresh(idOf, doc.id, l, AddVersion(doc, prefixes, hash, nonce, ts).value[0], next)
    ensures |State(next).heads| == 1
            <==> forall x | x in HeadFrontier(l) :: x in Resolve(doc.state.versions, prefixes).value
    ensures own !in l && own in HeadFrontier(next) && next[own].hash == hash
    ensures forall x :: x in HeadFrontier(next) <==>
              x == own || (x in HeadFrontier(l) && x !in Resolve(doc.state.versions, prefixes).value)
    ensures forall x :: x in next[own].parents <==> exists p :: p in prefixes && OnlyMatch(doc.state.versions, p, x)
  {
    VersionParents(l, doc, prefixes, hash, nonce, ts);
    var c := AddVersion(doc, prefixes, hash, nonce, ts).value[0];
    own := FreshFrontiers(idOf, doc.id, l, c, next);
    HeadsLeft(l, next, own, Resolve(doc.state.versions, prefixes).value);
  }

  /** `set` leaves one assertion at or under its key: the one it made. */
  lemma SetLeavesOneAssertion(idOf: Identity, l: CausalSet, doc: Snapshot, key: string, value: string,
                              nonce: string, ts: string, next: CausalSet) returns (own: Id)
    requires SnapshotOf(doc, l) && SetTag(doc, key, value, nonce, ts).Success?
    requires AppendsFresh(idOf, doc.id, l, SetTag(doc, key, value, nonce, ts).value[0], next)
    ensures own in TagFrontier(next) && next[own].tag == NormalizeTag(key) + "/" + NormalizeTag(value)
    ensures forall x | x in TagFrontier(next) && AtOrUnder(NormalizeTag(key), next[x].tag) :: x == own
  {
    var c := SetTag(doc, key, value, nonce, ts).value[0];
    SetClaim(doc, l, key, value, nonce, ts);
    NormalPathsAreKept(c);
    own := FreshFrontiers(idOf, doc.id, l, c, next);
  }

  /** Every scoped assertion lies under its own key. */
  lemma ScopeAboveTag(c: Claim)
    requires IsNormal(c) && c.TagAdd? && c.scope.Some?
    ensures IsDescendant(c.scope.value, c.tag)
  {
  }

  /** A conflict on `key` needs two assertions at or under it. */
  lemma ConflictNeedsTwo(a: TagValue, b: TagValue, key: string)
    requires PairConflict(a, b) == Some(key)
    requires IsDescendant(a.scope.value, a.value) && IsDescendant(b.scope.value, b.value)
    ensures AtOrUnder(key, a.value) && AtOrUnder(key, b.value)
  {
    var s, t := a.scope.value, b.scope.value;
    if s != t {
      if IsDescendant(s, t) {
        DescendantTransitive(s, t, b.value);
      } else {
        DescendantTransitive(t, s, a.value);
      }
    }
  }

  /** `set` clears its key from the conflicts. */
  lemma SetClearsConflict(idOf: Identity, l: CausalSet, doc: Snapshot, key: string, value: string,
                          nonce: string, ts: string, next: CausalSet)
    requires SnapshotOf(doc, l) && SetTag(doc, key, value, nonce, ts).Success?
    requires AppendsFresh(idOf, doc.id, l, SetTag(doc, key, value, nonce, ts).value[0], next)
    ensures !Disputed(State(next).tags, NormalizeTag(key))
  {
    var k := NormalizeTag(key);
    ConflictMeans(State(next).tags, k);
    var own := SetLeavesOneAssertion(idOf, l, doc, key, value, nonce, ts, next);
    var own' := FreshFrontiers(idOf, doc.id, l, SetTag(doc, key, value, nonce, ts).value[0], next);
    var tags, ids := State(next).tags, Listing(TagFrontier(next));
    ListingLists(TagFrontier(next));
    forall i, j | 0 <= i < j < |tags| ensures PairConflict(tags[i], tags[j]) != Some(k) {
      if PairConflict(tags[i], tags[j]) == Some(k) {
        assert ids[i] in ids && ids[j] in ids;
        ScopeAboveTag(next[ids[i]]);
        ScopeAboveTag(next[ids[j]]);
        ConflictNeedsTwo(tags[i], tags[j], k);
        AscendingHasNoDuplicates(ids, i, j);
      }
    }
  }

  // ----- `tag_at`, from any snapshot -----

  lemma {:induction false} RemovalsMention(s: CausalSet, doc: Snapshot, paths: seq<string>, nonces: string -> string,
                                           ts: string, x: Id)
    requires SnapshotOf(doc, s)
    ensures Mentions(Removals(doc, paths, nonces, ts), x) <==> x in TagFrontier(s) && s[x].tag in paths
  {
    var claims := Removals(doc, paths, nonces, ts);
    if paths != [] {
      var rest := Removals(doc, paths[1..], nonces, ts);
      var ids := Select(doc.state.tags, Exactly(paths[0]));
      RemovalsMention(s, doc, paths[1..], nonces, ts, x);
      SnapshotTags(s, Exactly(paths[0]), x);
      assert paths == [paths[0]] + paths[1..];
      if ids == [] {
        assert claims == rest;
      } else {
        MentionsHead(claims, x);
        assert claims[1..] == rest && Refs(claims[0]) == ids;
      }
    }
  }

  lemma {:induction false} AdditionsMention(s: CausalSet, doc: Snapshot, paths: seq<string>, nonces: string -> string,
                                            ts: string, x: Id)
    requires SnapshotOf(doc, s)
    ensures Mentions(Additions(doc, paths, nonces, ts), x)
            <==> x in TagFrontier(s) && exists p :: p in paths && AtOrUnder(s[x].tag, p)
  {
    if paths != [] {
      var claims := Additions(doc, paths, nonces, ts);
      AdditionsMention(s, doc, paths[1..], nonces, ts, x);
      SnapshotTags(s, Above(paths[0]), x);
      assert paths == [paths[0]] + paths[1..];
      MentionsHead(claims, x);
      assert claims[1..] == Additions(doc, paths[1..], nonces, ts);
    }
  }

  lemma MentionsHead(claims: seq<Claim>, x: Id)
    requires claims != []
    ensures Mentions(claims, x) <==> x in Refs(claims[0]) || Mentions(claims[1..], x)
  {
    assert claims == [claims[0]] + claims[1..];
    if x in Refs(claims[0]) { assert claims[0] in claims; }
  }

  lemma MentionsEither(a: seq<Claim>, b: seq<Claim>, x: Id)
    ensures Mentions(a + b, x) <==> Mentions(a, x) || Mentions(b, x)
  {
  }

  /** The observed assertion `x` is one that `tag_at` takes out. */
  ghost predicate TakenOut(s: CausalSet, add: seq<string>, del: seq<string>, x: Id) {
    && x in s && s[x].TagAdd? && Current(s, x) && s[x].tag != ""
    && (|| (exists q :: q in del && s[x].tag == NormalizeTag(q))
        || (exists q :: q in add && Reaches(s[x].tag, NormalizeTag(q))))
  }

  /** `path` is `tag` or lies below it. */
  ghost predicate Reaches(tag: string, path: string) {
    path == tag || tag + "/" <= path
  }

  /** A path lies at or above the path forms of the arguments, as the text says. */
  lemma TakenOutMeans(s: CausalSet, add: seq<string>, del: seq<string>, x: Id)
    requires x in s && s[x].TagAdd? ==> s[x].tag != ""
    ensures TakenOut(s, add, del, x) <==>
            x in TagFrontier(s) &&
            (s[x].tag in NormalizedPaths(del) || exists p :: p in NormalizedPaths(add) && AtOrUnder(s[x].tag, p))
  {
    CurrentMeans(s, x);
    NormalizedPathsAre(del);
    NormalizedPathsAre(add);
    hide NormalizedPaths, NormalizeTag, Current, Targeted;
    if x in s && s[x].TagAdd? {
      forall p ensures AtOrUnder(s[x].tag, p) <==> Reaches(s[x].tag, p) {
        DescendantMeans(s[x].tag, p);
      }
    }
  }

  lemma TagsAreNotEmpty(idOf: Identity, id: Id, l: CausalSet, x: Id)
    requires IsDocument(idOf, id, l) && x in l && l[x].TagAdd?
    ensures l[x].tag != ""
  {
    assert IsNormal(l[x]);
  }

  /** From any snapshot, `tag_at` takes out exactly the observed assertions it should; all others stay. */
  lemma TagTakesOutObserved(idOf: Identity, s: CausalSet, l: CausalSet, doc: Snapshot,
                            add: seq<string>, del: seq<string>, nonces: string -> string, ts: string,
                            next: CausalSet, x: Id)
    requires IsDocument(idOf, doc.id, l) && Earlier(s, l) && SnapshotOf(doc, s)
    requires InsertAll(idOf, l, Tag(doc, add, del, nonces, ts)) == Success(next)
    requires x in l
    ensures IsDocument(idOf, doc.id, next)
    ensures x in TagFrontier(next) <==> x in TagFrontier(l) && !TakenOut(s, add, del, x)
    ensures x in NameFrontier(next) <==> x in NameFrontier(l)
    ensures x in HeadFrontier(next) <==> x in HeadFrontier(l)
  {
    var removals := Removals(doc, NormalizedPaths(del), nonces, ts);
    var additions := Additions(doc, NormalizedPaths(add), nonces, ts);
    TagObserves(s, doc, add, del, nonces, ts);
    AppendBatch(idOf, doc.id, s, l, removals + additions);
    MentionsEither(removals, additions, x);
    RemovalsMention(s, doc, NormalizedPaths(del), nonces, ts, x);
    AdditionsMention(s, doc, NormalizedPaths(add), nonces, ts, x);
    if x in s && s[x].TagAdd? { TagsAreNotEmpty(idOf, doc.id, l, x); }
    TakenOutMeans(s, add, del, x);
    assert next[x] == l[x];
  }

  lemma {:induction false} RemovalsAre(doc: Snapshot, paths: seq<string>, nonces: string -> string, ts: string)
    ensures forall c | c in Removals(doc, paths, nonces, ts) :: c.TagRemove? && c.tag in paths && c.removes != []
  {
    if paths != [] {
      RemovalsAre(doc, paths[1..], nonces, ts);
    }
  }

  lemma {:induction false} AdditionsAre(doc: Snapshot, paths: seq<string>, nonces: string -> string, ts: string)
    ensures forall c | c in Additions(doc, paths, nonces, ts) :: c.TagAdd? && c.scope == None && c.tag in paths
    ensures forall p | p in paths :: exists c :: c in Additions(doc, paths, nonces, ts) && c.TagAdd? && c.tag == p
  {
    if paths != [] {
      AdditionsAre(doc, paths[1..], nonces, ts);
      var claims := Additions(doc, paths, nonces, ts);
      assert paths == [paths[0]] + paths[1..];
      assert claims == [claims[0]] + Additions(doc, paths[1..], nonces, ts);
      assert claims[0] in claims;
    }
  }

  /** A claim filed under an ID the log did not have is not referred to by its own batch. */
  lemma FreshIsUntargeted(idOf: Identity, id: Id, s: CausalSet, l: CausalSet, claims: seq<Claim>, c: Claim)
    requires IsDocument(idOf, id, l) && Earlier(s, l) && c in claims && InsertAll(idOf, l, claims).Success?
    requires forall x | x in claims :: Observes(s, id, x)
    requires Normalized(c).Success? ==> idOf(Normalized(c).value) !in l
    ensures Normalized(c).Success?
    ensures var n, next := Normalized(c).value, InsertAll(idOf, l, claims).value;
            idOf(n) in next && next[idOf(n)] == n && !Targeted(next, idOf(n))
  {
    AppendBatch(idOf, id, s, l, claims);
    InsertAllDelivers(idOf, l, claims);
    hide InsertAll, Normalized;
    assert Holds(idOf, InsertAll(idOf, l, claims).value, c);
  }

  /** A current assertion of the path that was not there before. */
  ghost predicate NewlyCurrent(l: CausalSet, next: CausalSet, path: string) {
    exists x :: x in TagFrontier(next) && x !in l && next[x].tag == path && next[x].scope == None
  }

  /** An unscoped assertion of one of the added paths, or a removal of assertions of one of the deleted ones. */
  ghost predicate PathEdit(c: Claim, add: seq<string>, del: seq<string>) {
    (c.TagAdd? && c.tag in add && c.scope == None) || (c.TagRemove? && c.tag in del && c.removes != [])
  }

  lemma EditOfMore(c: Claim, add: seq<string>, del: seq<string>, moreAdd: seq<string>, moreDel: seq<string>)
    requires PathEdit(c, add, del) && (forall p | p in add :: p in moreAdd) && forall p | p in del :: p in moreDel
    ensures PathEdit(c, moreAdd, moreDel)
  {
  }

  /** `tag_at` leaves a current assertion of every added path, and makes no other. */
  lemma TagAddsPaths(idOf: Identity, s: CausalSet, l: CausalSet, doc: Snapshot, add: seq<string>, del: seq<string>,
                     nonces: string -> string, ts: string, next: CausalSet)
    requires IsDocument(idOf, doc.id, l) && Earlier(s, l) && SnapshotOf(doc, s)
    requires InsertAll(idOf, l, Tag(doc, add, del, nonces, ts)) == Success(next)
    requires forall c | c in Tag(doc, add, del, nonces, ts) && Normalized(c).Success? :: idOf(Normalized(c).value) !in l
    ensures forall q | q in add && NormalizeTag(q) != "" :: NewlyCurrent(l, next, NormalizeTag(q))
    ensures forall x | x in next && x !in l :: TagEdit(next[x], add, del)
  {
    NormalizedPathsAre(add);
    NormalizedPathsAre(del);
    TagAddsNormalized(idOf, s, l, doc, add, del, nonces, ts, next);
    hide NewlyCurrent, NormalizedPaths, NormalizeTag;
  }

  /** An unscoped assertion of an added path, or a removal of some assertions of a deleted one. */
  ghost predicate TagEdit(c: Claim, add: seq<string>, del: seq<string>) {
    || (c.TagAdd? && c.scope == None && exists q :: q in add && c.tag == NormalizeTag(q))
    || (c.TagRemove? && c.removes != [] && exists q :: q in del && c.tag == NormalizeTag(q))
  }

  lemma TagAddsNormalized(idOf: Identity, s: CausalSet, l: CausalSet, doc: Snapshot, add: seq<string>, del: seq<string>,
                          nonces: string -> string, ts: string, next: CausalSet)
    requires IsDocument(idOf, doc.id, l) && Earlier(s, l) && SnapshotOf(doc, s)
    requires InsertAll(idOf, l, Tag(doc, add, del, nonces, ts)) == Success(next)
    requires forall c | c in Tag(doc, add, del, nonces, ts) && Normalized(c).Success? :: idOf(Normalized(c).value) !in l
    ensures forall p | p in NormalizedPaths(add) :: NewlyCurrent(l, next, p)
    ensures forall x | x in next && x !in l :: PathEdit(next[x], NormalizedPaths(add), NormalizedPaths(del))
  {
    hide InsertAll, Normalized, IsDocument, NewlyCurrent, PathEdit, NormalizedPaths;
    var claims, paths, gone := Tag(doc, add, del, nonces, ts), NormalizedPaths(add), NormalizedPaths(del);
    TagObserves(s, doc, add, del, nonces, ts);
    RemovalsAre(doc, gone, nonces, ts);
    AdditionsAre(doc, paths, nonces, ts);
    forall p | p in paths ensures NewlyCurrent(l, next, p) {
      var c :| c in Additions(doc, paths, nonces, ts) && c.TagAdd? && c.tag == p;
      AddedIsCurrent(idOf, doc.id, s, l, claims, c, next);
    }
    AppendBatch(idOf, doc.id, s, l, claims);
    forall x | x in next && x !in l ensures PathEdit(next[x], paths, gone) {
      var c :| c in claims && Normalized(c).Success? && idOf(Normalized(c).value) == x;
      if c.TagAdd? {
        AddedIsCurrent(idOf, doc.id, s, l, claims, c, next);
        EditOfMore(next[x], [c.tag], [], paths, gone);
      } else {
        assert c in Removals(doc, gone, nonces, ts);
        RemovedIsRemove(idOf, doc.id, s, l, claims, c, next);
        EditOfMore(next[x], [], [c.tag], paths, gone);
      }
    }
  }

  lemma AddedIsCurrent(idOf: Identity, id: Id, s: CausalSet, l: CausalSet, claims: seq<Claim>, c: Claim,
                       next: CausalSet)
    requires IsDocument(idOf, id, l) && Earlier(s, l) && c in claims && InsertAll(idOf, l, claims) == Success(next)
    requires forall x | x in claims :: Observes(s, id, x)
    requires Normalized(c).Success? ==> idOf(Normalized(c).value) !in l
    requires c.TagAdd? && c.scope == None && NormalizeTag(c.tag) == c.tag
    ensures Normalized(c).Success?
    ensures var x := idOf(Normalized(c).value);
            x in next && PathEdit(next[x], [c.tag], []) && NewlyCurrent(l, next, c.tag)
  {
    hide InsertAll, Normalized, IsDocument;
    FreshIsUntargeted(idOf, id, s, l, claims, c);
    NormalPathsAreKept(c);
  }

  lemma RemovedIsRemove(idOf: Identity, id: Id, s: CausalSet, l: CausalSet, claims: seq<Claim>, c: Claim,
                        next: CausalSet)
    requires IsDocument(idOf, id, l) && Earlier(s, l) && c in claims && InsertAll(idOf, l, claims) == Success(next)
    requires forall x | x in claims :: Observes(s, id, x)
    requires c.TagRemove? && (Normalized(c).Success? ==> idOf(Normalized(c).value) !in l)
    requires NormalizeTag(c.tag) == c.tag
    ensures Normalized(c).Success?
    ensures var x := idOf(Normalized(c).value); x in next && PathEdit(next[x], [], [c.tag])
  {
    FreshIsUntargeted(idOf, id, s, l, claims, c);
    hide InsertAll, IsDocument;
    NormalRemoval(c);
  }

  lemma NormalRemoval(c: Claim)
    requires c.TagRemove? && NormalizeTag(c.tag) == c.tag && Normalized(c).Success?
    ensures var n := Normalized(c).value; n.TagRemove? && n.tag == c.tag && n.removes != []
  {
    SortDedupIs(c.removes);
    assert c.removes[0] in SortDedup(c.removes);
  }

  // ----- whole logs -----

  lemma {:induction false} InsertAllAppend(idOf: Identity, m: CausalSet, a: seq<Claim>, b: seq<Claim>)
    ensures InsertAll(idOf, m, a + b) ==
            match InsertAll(idOf, m, a) case Failure(e) => Failure(e) case Success(r) => InsertAll(idOf, r, b)
    decreases |a|
  {
    if a == [] {
      assert a + b == b;
    } else {
      assert (a + b)[1..] == a[1..] + b;
      if Insert(idOf, m, a[0]).Success? {
        InsertAllAppend(idOf, Insert(idOf, m, a[0]).value, a[1..], b);
      }
    }
  }

  /** An edit made from any earlier snapshot is refused only for an illegal field or an ID collision. */
  lemma EditLoadsIff(idOf: Identity, id: Id, s: CausalSet, log: seq<Claim>, edit: seq<Claim>)
    requires Loads(idOf, id, log) && Earlier(s, Loaded(idOf, log))
    requires forall c | c in edit :: Observes(s, id, c)
    ensures Loads(idOf, id, log + edit) <==> Deliverable(idOf, Loaded(idOf, log), edit)
  {
    var l := Loaded(idOf, log);
    InsertAllAppend(idOf, map[], log, edit);
    InsertAllSucceedsIff(idOf, l, edit);
    if InsertAll(idOf, l, edit).Success? {
      AppendBatch(idOf, id, s, l, edit);
    }
  }

  /** Any prefix of an edit that was accepted leaves a log that loads. */
  lemma EditPrefixLoads(idOf: Identity, id: Id, s: CausalSet, log: seq<Claim>, edit: seq<Claim>, k: nat)
    requires Loads(idOf, id, log) && Earlier(s, Loaded(idOf, log))
    requires forall c | c in edit :: Observes(s, id, c)
    requires Loads(idOf, id, log + edit) && k <= |edit|
    ensures Loads(idOf, id, log + edit[..k])
  {
    EditLoadsIff(idOf, id, s, log, edit);
    EditLoadsIff(idOf, id, s, log, edit[..k]);
  }

  /** A new document loads from its create claim on. */
  lemma AddPrefixLoads(idOf: Identity, name: string, hash: string, nonce: string, nonces: string -> string, ts: string,
                       k: nat)
    requires Loads(idOf, idOf(Create(2, nonce, ts)), Add(idOf, name, hash, nonce, nonces, ts)) && k <= 3
    ensures k >= 1 <==> Loads(idOf, idOf(Create(2, nonce, ts)), Add(idOf, name, hash, nonce, nonces, ts)[..k])
  {
    AddObserves(idOf, name, hash, nonce, nonces, ts);
    CreateIsNormal(idOf, idOf(Create(2, nonce, ts)), Add(idOf, name, hash, nonce, nonces, ts));
    hide Add, Observes, InsertAll, IsDocument;
    var claims := Add(idOf, name, hash, nonce, nonces, ts);
    var create := claims[0];
    assert claims == [create] + claims[1..];
    if k >= 1 {
      CreateLoads(idOf, create);
      hide Loads, Loaded;
      EditPrefixLoads(idOf, idOf(create), Loaded(idOf, [create]), [create], claims[1..], k - 1);
      assert claims[..k] == [create] + claims[1..][..k - 1];
    }
  }

  /** A new document has the one name and the one version it was added with, and no tags. */
  lemma AddShowsFile(idOf: Identity, name: string, hash: string, nonce: string, nonces: string -> string, ts: string)
    requires Loads(idOf, idOf(Create(2, nonce, ts)), Add(idOf, name, hash, nonce, nonces, ts))
    ensures var state := State(Loaded(idOf, Add(idOf, name, hash, nonce, nonces, ts)));
            && |state.names| == 1 && state.names[0].value == name
            && |state.heads| == 1 && state.heads[0].hash == hash
            && state.tags == []
  {
    var claims := Add(idOf, name, hash, nonce, nonces, ts);
    var m := Loaded(idOf, claims);
    InsertAllDelivers(idOf, map[], claims);
    hide InsertAll, IsDocument, State;
    AddedClaims(idOf, m, claims);
    var v, n := idOf(Normalized(claims[1]).value), idOf(Normalized(claims[2]).value);
    OneName(m, n);
    OneHead(m, v);
    NoTags(m);
  }

  lemma NoTags(m: CausalSet)
    requires TagFrontier(m) == {}
    ensures State(m).tags == []
  {
  }

  lemma AddedClaims(idOf: Identity, m: CausalSet, claims: seq<Claim>)
    requires |claims| == 3 && claims[0].Create? && claims[1].Version? && claims[2].Name?
    requires forall c | c in claims :: Refs(c) == []
    requires Delivered(idOf, map[], claims, m)
    ensures Normalized(claims[1]).Success? && Normalized(claims[2]).Success?
    ensures var v, n := Normalized(claims[1]).value, Normalized(claims[2]).value;
            && idOf(v) in m && m[idOf(v)] == v && v.Version? && v.hash == claims[1].hash
            && idOf(n) in m && m[idOf(n)] == n && n.Name? && n.name == claims[2].name
            && HeadFrontier(m) == {idOf(v)} && NameFrontier(m) == {idOf(n)} && TagFrontier(m) == {}
  {
    hide Normalized, Targeted;
    assert claims[0] in claims && claims[1] in claims && claims[2] in claims;
    assert Holds(idOf, m, claims[1]) && Holds(idOf, m, claims[2]);
    NormalizedKeepsKind(claims[1]);
    NormalizedKeepsKind(claims[2]);
    var v, n := idOf(Normalized(claims[1]).value), idOf(Normalized(claims[2]).value);
    forall id | id in m ensures AddedKind(m[id], id, v, n) {
      var c :| c in claims && Normalized(c).Success? && idOf(Normalized(c).value) == id;
      assert Holds(idOf, m, c);
      NoReferences(c);
      NormalizedKeepsKind(c);
    }
    NothingTargeted(m);
    hide Holds, Delivered, Refs;
  }

  ghost predicate AddedKind(c: Claim, id: Id, v: Id, n: Id) {
    Refs(c) == [] && (c.Version? ==> id == v) && (c.Name? ==> id == n) && !c.TagAdd?
  }

  lemma NothingTargeted(m: CausalSet)
    requires forall id | id in m :: Refs(m[id]) == []
    ensures forall id :: !Targeted(m, id)
  {
  }

  lemma NoReferences(c: Claim)
    requires Normalized(c).Success? && Refs(c) == []
    ensures Refs(Normalized(c).value) == []
  {
    hide CheckedTag;
  }

  lemma CreateIsNormal(idOf: Identity, id: Id, log: seq<Claim>)
    requires Loads(idOf, id, log) && log != [] && log[0].Create?
    ensures IsNormal(log[0])
  {
    hide IsDocument;
    assert Insert(idOf, map[], log[0]).Success?;
  }

  lemma AddObserves(idOf: Identity, name: string, hash: string, nonce: string, nonces: string -> string, ts: string)
    ensures var claims := Add(idOf, name, hash, nonce, nonces, ts);
            && |claims| == 3 && claims[0] == Create(2, nonce, ts)
            && forall c | c in claims[1..] :: Observes(map[idOf(claims[0]) := claims[0]], idOf(claims[0]), c)
  {
  }

  lemma CreateLoads(idOf: Identity, create: Claim)
    requires create.Create? && IsNormal(create)
    ensures Loads(idOf, idOf(create), [create]) && Loaded(idOf, [create]) == map[idOf(create) := create]
  {
    var id := idOf(create);
    var m := map[id := create];
    assert InsertAll(idOf, map[], [create]) == Success(m);
    TopologicalMeansAcyclic(m, [id]);
  }

  // ----- two replicas set one key -----

  /** Two replicas that set the same key from one snapshot merge into a document in which the key is disputed, whatever
      the values. */
  lemma TwoSetsDispute(idOf: Identity, l: CausalSet, doc: Snapshot, key: string,
                       value1: string, nonce1: string, ts1: string, next1: CausalSet,
                       value2: string, nonce2: string, ts2: string, next2: CausalSet)
    requires SnapshotOf(doc, l)
    requires SetTag(doc, key, value1, nonce1, ts1).Success? && SetTag(doc, key, value2, nonce2, ts2).Success?
    requires AppendsFresh(idOf, doc.id, l, SetTag(doc, key, value1, nonce1, ts1).value[0], next1)
    requires AppendsFresh(idOf, doc.id, l, SetTag(doc, key, value2, nonce2, ts2).value[0], next2)
    requires next1.Keys != next2.Keys
    ensures Agree(next1, next2) && IsDocument(idOf, doc.id, next1 + next2)
    ensures Disputed(State(next1 + next2).tags, NormalizeTag(key))
  {
    var own1 := SetIsUntargeted(idOf, l, doc, key, value1, nonce1, ts1, next1);
    var own2 := SetIsUntargeted(idOf, l, doc, key, value2, nonce2, ts2, next2);
    var k, m := NormalizeTag(key), next1 + next2;
    assert own1 != own2;
    hide AppendsFresh, SetTag, NormalizeTag, Targeted, IsDocument, State, Disputed;
    MergedSets(l, next1, next2, own1, own2, k);
    UnionOfDocuments(idOf, doc.id, next1, next2);
    BothDispute(m, own1, own2, k);
  }

  /** The claim `set` made is current, and nothing the snapshot shows knows of it. */
  lemma SetIsUntargeted(idOf: Identity, l: CausalSet, doc: Snapshot, key: string, value: string, nonce: string,
                        ts: string, next: CausalSet) returns (own: Id)
    requires SnapshotOf(doc, l) && SetTag(doc, key, value, nonce, ts).Success?
    requires AppendsFresh(idOf, doc.id, l, SetTag(doc, key, value, nonce, ts).value[0], next)
    ensures IsDocument(idOf, doc.id, next)
    ensures own !in l && own in next && next == l[own := next[own]]
    ensures next[own].TagAdd? && next[own].scope == Some(NormalizeTag(key))
    ensures forall c, r | RefersTo(next, c, r) :: r in l
  {
    var c := SetTag(doc, key, value, nonce, ts).value[0];
    SetClaim(doc, l, key, value, nonce, ts);
    NormalPathsAreKept(c);
    own := FreshFrontiers(idOf, doc.id, l, c, next);
    forall x, r | RefersTo(next, x, r) ensures r in l {
      NormalizedKeepsReferences(c, r);
      if x != own { assert RefersTo(l, x, r); }
    }
  }

  lemma MergedSets(l: CausalSet, next1: CausalSet, next2: CausalSet, own1: Id, own2: Id, k: string)
    requires own1 != own2 && own1 !in l && own2 !in l && own1 in next1 && own2 in next2
    requires next1 == l[own1 := next1[own1]] && next2 == l[own2 := next2[own2]]
    requires next1[own1].TagAdd? && next1[own1].scope == Some(k) && next2[own2].TagAdd? && next2[own2].scope == Some(k)
    requires (forall c, r | RefersTo(next1, c, r) :: r in l) && forall c, r | RefersTo(next2, c, r) :: r in l
    ensures Agree(next1, next2)
    ensures var m := next1 + next2;
            && own1 in m && own2 in m && m[own1] == next1[own1] && m[own2] == next2[own2]
            && Current(m, own1) && Current(m, own2)
  {
    var m := next1 + next2;
    forall c, r | RefersTo(m, c, r) ensures r in l {
      assert RefersTo(next1, c, r) || RefersTo(next2, c, r);
    }
    CurrentMeans(m, own1);
    CurrentMeans(m, own2);
  }

  lemma BothDispute(m: CausalSet, a: Id, b: Id, key: string)
    requires a != b && a in m && b in m && Current(m, a) && Current(m, b)
    requires m[a].TagAdd? && m[a].scope == Some(key) && m[b].TagAdd? && m[b].scope == Some(key)
    ensures Disputed(State(m).tags, key)
  {
    TagsMean(m);
    hide State;
    var tags, x, y := State(m).tags, TagValue(a, m[a].tag, Some(key)), TagValue(b, m[b].tag, Some(key));
    assert x in tags && y in tags;
    var i :| 0 <= i < |tags| && tags[i] == x;
    var j :| 0 <= j < |tags| && tags[j] == y;
    assert Disputes(tags[i], tags[j], key);
  }
}
