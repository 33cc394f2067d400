/** File names in the mounted view (src/mount.rs, `leaves` and `disambiguate`). */
module Leaves {
  import opened Wrappers
  import opened Order

  datatype Head = Head(id: string, hash: string)

  /** What `leaves` reads of an index row: the document, its current names and its heads. */
  datatype Row = Row(id: string, names: seq<string>, heads: seq<Head>)

  datatype Leaf = Leaf(base: string, doc: string, head: Head)

  datatype Candidate = Candidate(leaf: Leaf, docSuffix: bool, versionSuffix: bool, docLen: nat, versionLen: nat)

  function Take(s: string, n: nat): string {
    if n <= |s| then s[..n] else s
  }

  function Names(row: Row): set<string> {
    if row.names == [] then {"untitled-" + Take(row.id, 8)} else set n | n in row.names
  }

  /** `rfind('.')`. */
  function LastDot(s: string): (d: Option<nat>)
    ensures d.Some? ==> d.value < |s| && s[d.value] == '.' && '.' !in s[d.value + 1..]
    ensures d.None? ==> '.' !in s
  {
    if s == [] then None
    else if s[|s| - 1] == '.' then Some(|s| - 1)
    else
      assert s == s[..|s| - 1] + [s[|s| - 1]];
      LastDot(s[..|s| - 1])
  }

  function Stem(base: string): string {
    match LastDot(base)
    case Some(dot) => if dot > 0 then base[..dot] else base
    case None => base
  }

  function Ext(base: string): string {
    match LastDot(base)
    case Some(dot) => if dot > 0 then base[dot..] else []
    case None => []
  }

  function Disambiguate(base: string, suffix: string): string {
    Stem(base) + suffix + Ext(base)
  }

  function Suffix(c: Candidate): string {
    (if c.docSuffix then "~" + Take(c.leaf.doc, c.docLen) else "")
    + if c.versionSuffix then "~" + Take(c.leaf.head.id, c.versionLen) else ""
  }

  function Label(c: Candidate): string {
    Disambiguate(c.leaf.base, Suffix(c))
  }

  // ----- the candidates -----

  /** The documents that carry a name. */
  function Owners(rows: seq<Row>, name: string): set<string> {
    set r | r in rows && name in Names(r) :: r.id
  }

  function Start(rows: seq<Row>, row: Row, name: string, head: Head): Candidate {
    Candidate(Leaf(name, row.id, head), |Owners(rows, name)| > 1, |row.heads| > 1, 4, 8)
  }

  function HeadCandidates(rows: seq<Row>, row: Row, name: string, heads: seq<Head>): seq<Candidate> {
    if heads == [] then [] else [Start(rows, row, name, heads[0])] + HeadCandidates(rows, row, name, heads[1..])
  }

  function NameCandidates(rows: seq<Row>, row: Row, names: seq<string>): seq<Candidate> {
    if names == [] then []
    else HeadCandidates(rows, row, names[0], row.heads) + NameCandidates(rows, row, names[1..])
  }

  /** One candidate for each current name and head of each document, in order. */
  ghost function Candidates(rows: seq<Row>, some: seq<Row>): seq<Candidate> {
    if some == [] then []
    else NameCandidates(rows, some[0], Listing(Names(some[0]))) + Candidates(rows, some[1..])
  }

  /** Documents have distinct IDs, versions of a document too, and no ID contains the separator. */
  ghost predicate Legal(rows: seq<Row>) {
    && (forall i, j | 0 <= i < j < |rows| :: rows[i].id != rows[j].id)
    && (forall r | r in rows :: '~' !in r.id && LegalHeads(r.heads))
  }

  ghost predicate LegalHeads(heads: seq<Head>) {
    && (forall i, j | 0 <= i < j < |heads| :: heads[i].id != heads[j].id)
    && (forall h | h in heads :: '~' !in h.id)
  }

  /** `c` is a candidate of `row`, with suffixes of any length. */
  ghost predicate Of(rows: seq<Row>, row: Row, c: Candidate) {
    && row in rows && c.leaf.doc == row.id && c.leaf.base in Names(row) && c.leaf.head in row.heads
    && c.docSuffix == (|Owners(rows, c.leaf.base)| > 1) && c.versionSuffix == (|row.heads| > 1)
  }

  ghost predicate OfSome(rows: seq<Row>, c: Candidate) {
    exists row :: Of(rows, row, c)
  }

  predicate SameKey(a: Candidate, b: Candidate) {
    a.leaf.base == b.leaf.base && a.leaf.doc == b.leaf.doc && a.leaf.head.id == b.leaf.head.id
  }

  ghost predicate Distinct(cs: seq<Candidate>) {
    forall i, j | 0 <= i < j < |cs| :: !SameKey(cs[i], cs[j])
  }

  lemma DistinctConcat(a: seq<Candidate>, b: seq<Candidate>)
    requires Distinct(a) && Distinct(b) && forall x, y | x in a && y in b :: !SameKey(x, y)
    ensures Distinct(a + b)
  {
    forall i, j | 0 <= i < j < |a + b| ensures !SameKey((a + b)[i], (a + b)[j]) {
      assert i < |a| ==> a[i] in a;
      assert j >= |a| ==> b[j - |a|] in b;
    }
  }

  lemma {:induction false} HeadCandidatesAre(rows: seq<Row>, row: Row, name: string, heads: seq<Head>)
    requires row in rows && name in Names(row) && LegalHeads(heads) && forall h | h in heads :: h in row.heads
    ensures var cs := HeadCandidates(rows, row, name, heads);
            Distinct(cs) && forall c | c in cs :: Of(rows, row, c) && c.leaf.base == name && c.leaf.head in heads
  {
    if heads != [] {
      assert heads == [heads[0]] + heads[1..];
      HeadCandidatesAre(rows, row, name, heads[1..]);
      forall h | h in heads[1..] ensures h.id != heads[0].id {
        var k :| 0 <= k < |heads[1..]| && heads[1..][k] == h;
        assert heads[k + 1] == h;
      }
      DistinctConcat([Start(rows, row, name, heads[0])], HeadCandidates(rows, row, name, heads[1..]));
    }
  }

  lemma {:induction false} NameCandidatesAre(rows: seq<Row>, row: Row, names: seq<string>)
    requires row in rows && LegalHeads(row.heads) && Ascending(names) && forall n | n in names :: n in Names(row)
    ensures var cs := NameCandidates(rows, row, names);
            && Distinct(cs)
            && (forall c | c in cs :: Of(rows, row, c) && c.leaf.base in names)
            && (forall c | c in cs :: OfSome(rows, c) && c.leaf.doc == row.id)
  {
    if names != [] {
      assert names == [names[0]] + names[1..];
      HeadCandidatesAre(rows, row, names[0], row.heads);
      NameCandidatesAre(rows, row, names[1..]);
      forall n | n in names[1..] ensures n != names[0] {
        TailMembers(names, n);
      }
      DistinctConcat(HeadCandidates(rows, row, names[0], row.heads), NameCandidates(rows, row, names[1..]));
    }
  }

  lemma {:induction false} CandidatesAre(rows: seq<Row>, some: seq<Row>)
    requires Legal(rows) && Legal(some) && forall r | r in some :: r in rows
    ensures var cs := Candidates(rows, some);
            && Distinct(cs)
            && (forall c | c in cs :: OfSome(rows, c))
            && (forall c | c in cs :: exists r :: r in some && c.leaf.doc == r.id)
  {
    hide NameCandidates, Of, OfSome;
    if some != [] {
      var row := some[0];
      assert some == [row] + some[1..];
      ListingLists(Names(row));
      NameCandidatesAre(rows, row, Listing(Names(row)));
      CandidatesAre(rows, some[1..]);
      var first, rest := NameCandidates(rows, row, Listing(Names(row))), Candidates(rows, some[1..]);
      forall c | c in rest ensures c.leaf.doc != row.id && exists r :: r in some && c.leaf.doc == r.id {
        var r :| r in some[1..] && c.leaf.doc == r.id;
        var k :| 0 <= k < |some[1..]| && some[1..][k] == r;
        assert some[k + 1] == r;
      }
      DistinctConcat(first, rest);
    }
  }

  // ----- when labels differ -----

  /** Suffixes that cannot grow any further. */
  predicate FullyGrown(c: Candidate) {
    && (c.docSuffix ==> c.docLen >= |c.leaf.doc|)
    && (c.versionSuffix ==> c.versionLen >= |c.leaf.head.id|)
  }

  lemma {:induction false} SplitAt(sep: char, a: string, x: string, b: string, y: string)
    requires sep !in a && sep !in b && a + x == b + y
    requires (x == [] || x[0] == sep) && (y == [] || y[0] == sep)
    ensures a == b && x == y
  {
    assert a != [] ==> (a + x)[0] == a[0] && a[0] in a;
    assert b != [] ==> (b + y)[0] == b[0] && b[0] in b;
    assert a == [] ==> a + x == x;
    assert b == [] ==> b + y == y;
    if a != [] && b != [] {
      assert (a + x)[1..] == a[1..] + x && (b + y)[1..] == b[1..] + y;
      SplitAt(sep, a[1..], x, b[1..], y);
      assert a == [a[0]] + a[1..] && b == [b[0]] + b[1..];
    }
  }

  /** A name is its stem and its extension: what follows the last dot, unless that is the first character. */
  lemma SplitsBase(base: string)
    ensures Stem(base) + Ext(base) == base
    ensures Ext(base) == [] || (Ext(base)[0] == '.' && '.' !in Ext(base)[1..])
    ensures Ext(base) != [] <==> base != [] && '.' in base[1..]
    ensures Stem(base) == [] ==> base == []
  {
    var d := LastDot(base);
    if d.Some? {
      assert d.value > 0 ==> base[1..][d.value - 1] == '.';
      assert d.value == 0 ==> base[1..] == base[d.value + 1..];
    } else if base != [] {
      assert forall c | c in base[1..] :: c in base;
    }
  }

  /** The suffix goes before the extension. A dot file has none: `.bashrc` becomes `.bashrc~1234`. */
  lemma LabelMeans(c: Candidate)
    ensures var doc, version := Take(c.leaf.doc, c.docLen), Take(c.leaf.head.id, c.versionLen);
            Label(c) == Stem(c.leaf.base) + (if c.docSuffix then "~" + doc else "")
                        + (if c.versionSuffix then "~" + version else "") + Ext(c.leaf.base)
    ensures Take(c.leaf.doc, c.docLen) <= c.leaf.doc
    ensures |Take(c.leaf.doc, c.docLen)| == Min(c.docLen, |c.leaf.doc|)
    ensures Take(c.leaf.head.id, c.versionLen) <= c.leaf.head.id
    ensures |Take(c.leaf.head.id, c.versionLen)| == Min(c.versionLen, |c.leaf.head.id|)
  {
    var stem, ext := Stem(c.leaf.base), Ext(c.leaf.base);
    var a := if c.docSuffix then "~" + Take(c.leaf.doc, c.docLen) else "";
    var b := if c.versionSuffix then "~" + Take(c.leaf.head.id, c.versionLen) else "";
    assert Suffix(c) == a + b;
    assert stem + (a + b) + ext == stem + a + b + ext;
  }

  lemma SameStem(base: string, s: string, t: string)
    requires Disambiguate(base, s) == Disambiguate(base, t)
    ensures s == t
  {
    var stem, ext := Stem(base), Ext(base);
    assert |s| == |t|;
    assert Disambiguate(base, s)[|stem|..|stem| + |s|] == s;
    assert Disambiguate(base, t)[|stem|..|stem| + |t|] == t;
  }

  lemma OneOwner(owners: set<string>, a: string, b: string)
    requires a in owners && b in owners && |owners| <= 1
    ensures a == b
  {
    var rest := owners - {a, b};
    assert owners == rest + {a, b};
    assert |owners| == |rest| + |{a, b}|;
    assert a != b ==> |{a, b}| == 2;
  }

  lemma SameRow(rows: seq<Row>, r: Row, s: Row)
    requires Legal(rows) && r in rows && s in rows && r.id == s.id
    ensures r == s
  {
    var i :| 0 <= i < |rows| && rows[i] == r;
    var j :| 0 <= j < |rows| && rows[j] == s;
    assert !(i < j) && !(j < i);
  }

  lemma OneHead(row: Row, a: Head, b: Head)
    requires a in row.heads && b in row.heads && |row.heads| <= 1
    ensures a == b
  {
  }

  function VersionPart(c: Candidate): string {
    if c.versionSuffix then "~" + c.leaf.head.id else ""
  }

  lemma SuffixParts(c: Candidate)
    requires FullyGrown(c)
    ensures Suffix(c) == (if c.docSuffix then "~" + c.leaf.doc else "") + VersionPart(c)
  {
  }

  lemma SameDoc(rows: seq<Row>, r: Row, s: Row, a: Candidate, b: Candidate)
    requires Legal(rows) && Of(rows, r, a) && Of(rows, s, b) && FullyGrown(a) && FullyGrown(b)
    requires a.leaf.base == b.leaf.base && Suffix(a) == Suffix(b)
    ensures a.leaf.doc == b.leaf.doc && VersionPart(a) == VersionPart(b)
  {
    SuffixParts(a);
    SuffixParts(b);
    assert '~' !in r.id && '~' !in s.id;
    if a.docSuffix {
      DocOf(a.leaf.doc, VersionPart(a), b.leaf.doc, VersionPart(b), Suffix(a));
    } else {
      assert Suffix(a) == VersionPart(a) && Suffix(b) == VersionPart(b);
      OneOwner(Owners(rows, a.leaf.base), r.id, s.id);
    }
  }

  /** Two fully grown leaves of one name with one label are one leaf. */
  lemma SameBaseSameLabel(rows: seq<Row>, a: Candidate, b: Candidate)
    requires Legal(rows) && OfSome(rows, a) && OfSome(rows, b)
    requires FullyGrown(a) && FullyGrown(b)
    requires a.leaf.base == b.leaf.base && Label(a) == Label(b)
    ensures SameKey(a, b)
  {
    var r :| Of(rows, r, a);
    var s :| Of(rows, s, b);
    SameStem(a.leaf.base, Suffix(a), Suffix(b));
    SameDoc(rows, r, s, a, b);
    SameRow(rows, r, s);
    if a.versionSuffix {
      assert VersionPart(a)[1..] == a.leaf.head.id && VersionPart(b)[1..] == b.leaf.head.id;
    } else {
      OneHead(r, a.leaf.head, b.leaf.head);
    }
  }

  lemma DocOf(d: string, v: string, e: string, w: string, suffix: string)
    requires '~' !in d && '~' !in e && (v == [] || v[0] == '~') && (w == [] || w[0] == '~')
    requires suffix == "~" + d + v == "~" + e + w
    ensures d == e && v == w
  {
    assert suffix[1..] == d + v && suffix[1..] == e + w;
    SplitAt('~', d, v, e, w);
  }

  /** No current name contains the separator, and no ID contains a dot: true of IDs, which are hex digests. */
  ghost predicate Clean(rows: seq<Row>) {
    forall r | r in rows ::
      && (forall n | n in r.names :: '~' !in n)
      && '.' !in r.id && forall h | h in r.heads :: '.' !in h.id
  }

  lemma CleanParts(rows: seq<Row>, c: Candidate)
    requires Legal(rows) && Clean(rows) && OfSome(rows, c)
    ensures '~' !in c.leaf.base && '.' !in Suffix(c)
    ensures Suffix(c) == [] || Suffix(c)[0] == '~'
  {
    var r :| Of(rows, r, c);
    assert c.leaf.head in r.heads;
  }

  /** With no separator in a name, a label determines the name it was made from. */
  lemma LabelDeterminesBase(rows: seq<Row>, a: Candidate, b: Candidate)
    requires Legal(rows) && Clean(rows) && OfSome(rows, a) && OfSome(rows, b)
    requires Label(a) == Label(b)
    ensures a.leaf.base == b.leaf.base
  {
    CleanParts(rows, a);
    CleanParts(rows, b);
    SplitsBase(a.leaf.base);
    SplitsBase(b.leaf.base);
    BasesAgree(a.leaf.base, Suffix(a), b.leaf.base, Suffix(b));
  }

  lemma BasesAgree(p: string, s: string, q: string, t: string)
    requires '~' !in p && '~' !in q && '.' !in s && '.' !in t
    requires (s == [] || s[0] == '~') && (t == [] || t[0] == '~')
    requires Disambiguate(p, s) == Disambiguate(q, t)
    ensures p == q
  {
    SplitsBase(p);
    SplitsBase(q);
    SuffixShows(p, s);
    SuffixShows(q, t);
    if s != [] && t != [] {
      Avoids(p);
      Avoids(q);
      PartsAgree(Stem(p), s, Ext(p), Stem(q), t, Ext(q));
    }
  }

  lemma Avoids(base: string)
    requires '~' !in base
    ensures '~' !in Stem(base)
  {
    SplitsBase(base);
    assert forall c | c in Stem(base) :: c in Stem(base) + Ext(base);
  }

  lemma PartsAgree(a: string, s: string, x: string, b: string, t: string, y: string)
    requires '~' !in a && '~' !in b && '.' !in s && '.' !in t
    requires s != [] && t != [] && s[0] == '~' && t[0] == '~'
    requires (x == [] || x[0] == '.') && (y == [] || y[0] == '.')
    requires a + s + x == b + t + y
    ensures a == b && s == t && x == y
  {
    assert a + s + x == a + (s + x) && b + t + y == b + (t + y);
    SplitAt('~', a, s + x, b, t + y);
    SplitAt('.', s, x, t, y);
  }

  lemma SuffixShows(base: string, suffix: string)
    requires suffix == [] || suffix[0] == '~'
    ensures suffix == [] ==> Disambiguate(base, suffix) == base
    ensures suffix != [] ==> '~' in Disambiguate(base, suffix)
  {
    SplitsBase(base);
    assert suffix != [] ==> Disambiguate(base, suffix)[|Stem(base)|] == '~';
    assert suffix == [] ==> Stem(base) + suffix == Stem(base);
  }

  // ----- the loops -----

  /** The first loop of `leaves`: which documents carry each name. */
  method CollectOwners(rows: seq<Row>) returns (owners: map<string, set<string>>)
    ensures OwnersSoFar(owners, rows)
  {
    owners := map[];
    var i := 0;
    while i < |rows|
      invariant 0 <= i <= |rows| && OwnersSoFar(owners, rows[..i])
    {
      ghost var before := owners;
      owners := AddOwner(owners, rows[i]);
      OwnersStep(rows, i, before, owners);
      i := i + 1;
    }
    assert rows[..i] == rows;
  }

  method AddOwner(before: map<string, set<string>>, row: Row) returns (owners: map<string, set<string>>)
    ensures forall n :: n in owners <==> n in before || n in Names(row)
    ensures forall n | n in owners ::
              owners[n] == (if n in before then before[n] else {}) + if n in Names(row) then {row.id} else {}
  {
    owners := before;
    ghost var all := Names(row);
    var names := Names(row);
    while names != {}
      invariant names <= all
      invariant forall n :: n in owners <==> n in before || n in all - names
      invariant forall n | n in owners ::
                  owners[n] == (if n in before then before[n] else {}) + if n in all - names then {row.id} else {}
      decreases names
    {
      var name;
      name, names := PopFirst(names);
      owners := owners[name := (if name in owners then owners[name] else {}) + {row.id}];
    }
  }

  ghost predicate OwnersSoFar(owners: map<string, set<string>>, rows: seq<Row>) {
    && (forall n :: n in owners <==> Owners(rows, n) != {})
    && (forall n | n in owners :: owners[n] == Owners(rows, n))
  }

  lemma OwnersAppend(rows: seq<Row>, row: Row, n: string)
    ensures Owners(rows + [row], n) == Owners(rows, n) + if n in Names(row) then {row.id} else {}
  {
    assert row in rows + [row];
  }

  lemma OwnersStep(rows: seq<Row>, i: nat, before: map<string, set<string>>, after: map<string, set<string>>)
    requires i < |rows| && OwnersSoFar(before, rows[..i])
    requires forall n :: n in after <==> n in before || n in Names(rows[i])
    requires forall n | n in after ::
               after[n] == (if n in before then before[n] else {}) + if n in Names(rows[i]) then {rows[i].id} else {}
    ensures OwnersSoFar(after, rows[..i + 1])
  {
    assert rows[..i + 1] == rows[..i] + [rows[i]];
    forall n
      ensures (n in after <==> Owners(rows[..i + 1], n) != {}) &&
              (n in after ==> after[n] == Owners(rows[..i + 1], n)) {
      OwnersAppend(rows[..i], rows[i], n);
    }
  }

  /** The second loop: a candidate for each row, name and head. */
  method CollectCandidates(rows: seq<Row>, owners: map<string, set<string>>) returns (cs: seq<Candidate>)
    requires OwnersSoFar(owners, rows)
    ensures cs == Candidates(rows, rows)
  {
    cs := [];
    var i := 0;
    while i < |rows|
      invariant 0 <= i <= |rows|
      invariant cs + Candidates(rows, rows[i..]) == Candidates(rows, rows)
    {
      var more := RowCandidates(rows, i, owners);
      assert rows[i..][1..] == rows[i + 1..];
      cs := cs + more;
      i := i + 1;
    }
  }

  method RowCandidates(rows: seq<Row>, i: nat, owners: map<string, set<string>>) returns (cs: seq<Candidate>)
    requires OwnersSoFar(owners, rows) && i < |rows|
    ensures cs == NameCandidates(rows, rows[i], Listing(Names(rows[i])))
  {
    var row := rows[i];
    var names := Iterate(Names(row));
    ListingLists(Names(row));
    forall n | n in names ensures n in owners && owners[n] == Owners(rows, n) {
      assert row.id in Owners(rows, n);
    }
    cs := NameLoop(rows, row, names, owners);
  }

  method NameLoop(rows: seq<Row>, row: Row, names: seq<string>, owners: map<string, set<string>>)
    returns (cs: seq<Candidate>)
    requires forall n | n in names :: n in owners && owners[n] == Owners(rows, n)
    ensures cs == NameCandidates(rows, row, names)
  {
    cs := [];
    var j := 0;
    while j < |names|
      invariant 0 <= j <= |names|
      invariant cs + NameCandidates(rows, row, names[j..]) == NameCandidates(rows, row, names)
    {
      assert names[j] in names;
      var more := HeadLoop(rows, row, names[j], |owners[names[j]]| > 1);
      assert names[j..][1..] == names[j + 1..];
      assert cs + (more + NameCandidates(rows, row, names[j + 1..])) ==
             cs + more + NameCandidates(rows, row, names[j + 1..]);
      cs := cs + more;
      j := j + 1;
    }
  }

  method HeadLoop(rows: seq<Row>, row: Row, name: string, shared: bool) returns (cs: seq<Candidate>)
    requires shared == (|Owners(rows, name)| > 1)
    ensures cs == HeadCandidates(rows, row, name, row.heads)
  {
    cs := [];
    var k := 0;
    while k < |row.heads|
      invariant 0 <= k <= |row.heads|
      invariant cs + HeadCandidates(rows, row, name, row.heads[k..]) == HeadCandidates(rows, row, name, row.heads)
    {
      assert row.heads[k..][1..] == row.heads[k + 1..];
      cs := cs + [Candidate(Leaf(name, row.id, row.heads[k]), shared, |row.heads| > 1, 4, 8)];
      k := k + 1;
    }
  }

  /** Another position has this one's text. */
  ghost predicate Clashes(texts: seq<string>, i: int) {
    0 <= i < |texts| && exists j :: 0 <= j < |texts| && j != i && texts[j] == texts[i]
  }

  /** The positions below `n` with this text, in order. */
  ghost predicate IsGroup(group: seq<nat>, texts: seq<string>, text: string, n: nat)
    requires n <= |texts|
  {
    && (forall a, b | 0 <= a < b < |group| :: group[a] < group[b])
    && (forall i | i in group :: i < n && texts[i] == text)
    && (forall i | 0 <= i < n && texts[i] == text :: i in group)
  }

  ghost predicate Grouped(seen: map<string, seq<nat>>, texts: seq<string>, n: nat)
    requires n <= |texts|
  {
    && (forall t | t in seen :: IsGroup(seen[t], texts, t, n))
    && (forall i | 0 <= i < n :: texts[i] in seen)
  }

  lemma GroupStep(group: seq<nat>, texts: seq<string>, text: string, i: nat)
    requires i < |texts| && IsGroup(group, texts, text, i)
    ensures IsGroup(if texts[i] == text then group + [i] else group, texts, text, i + 1)
  {
    assert i in group + [i];
    assert forall k | 0 <= k < |group| :: group[k] in group;
  }

  lemma GroupedStep(seen: map<string, seq<nat>>, texts: seq<string>, i: nat, group: seq<nat>)
    requires i < |texts| && Grouped(seen, texts, i)
    requires group == if texts[i] in seen then seen[texts[i]] else []
    ensures Grouped(seen[texts[i] := group + [i]], texts, i + 1)
  {
    var text := texts[i];
    var next := seen[text := group + [i]];
    GroupStep(group, texts, text, i);
    forall t | t in next ensures IsGroup(next[t], texts, t, i + 1) {
      if t != text {
        GroupStep(seen[t], texts, t, i);
      }
    }
  }

  method Group(texts: seq<string>) returns (seen: map<string, seq<nat>>)
    ensures Grouped(seen, texts, |texts|)
  {
    seen := map[];
    var i := 0;
    while i < |texts|
      invariant 0 <= i <= |texts| && Grouped(seen, texts, i)
    {
      var text := texts[i];
      var group := if text in seen then seen[text] else [];
      GroupedStep(seen, texts, i, group);
      seen := seen[text := group + [i]];
      i := i + 1;
    }
  }

  lemma GroupClashes(group: seq<nat>, texts: seq<string>, text: string)
    requires IsGroup(group, texts, text, |texts|)
    ensures forall i | i in group :: Clashes(texts, i) <==> |group| > 1
  {
    forall i | i in group ensures Clashes(texts, i) <==> |group| > 1 {
      if |group| > 1 {
        var j := if group[0] == i then group[1] else group[0];
        assert j in group && j != i;
      }
    }
  }

  ghost predicate NoRepeats(s: seq<nat>) {
    forall a, b | 0 <= a < b < |s| :: s[a] != s[b]
  }

  lemma AppendNoRepeats(s: seq<nat>, t: seq<nat>)
    requires NoRepeats(s) && NoRepeats(t) && forall i | i in t :: i !in s
    ensures NoRepeats(s + t)
  {
    forall a, b | 0 <= a < b < |s + t| ensures (s + t)[a] != (s + t)[b] {
      assert a < |s| ==> s[a] in s;
      assert b >= |s| ==> t[b - |s|] in t;
    }
  }

  /** The positions of the texts that occur more than once, grouped by text. */
  method Duplicates(texts: seq<string>) returns (dups: seq<nat>)
    ensures (forall i :: i in dups <==> Clashes(texts, i)) && NoRepeats(dups)
  {
    var seen := Group(texts);
    dups := [];
    var left := seen.Keys;
    while left != {}
      invariant left <= seen.Keys && NoRepeats(dups)
      invariant forall i | i in dups :: i < |texts| && texts[i] !in left
      invariant forall i | i in dups :: Clashes(texts, i)
      invariant forall i | Clashes(texts, i) :: i in dups || texts[i] in left
      decreases left
    {
      var text;
      text, left := PopFirst(left);
      GroupClashes(seen[text], texts, text);
      if |seen[text]| > 1 {
        AppendNoRepeats(dups, seen[text]);
        dups := dups + seen[text];
      }
    }
  }

  // ----- growing the suffixes -----

  /** How far the suffixes of a candidate can still grow. */
  function Room(c: Candidate): nat {
    (if c.docSuffix && c.docLen < |c.leaf.doc| then |c.leaf.doc| - c.docLen else 0)
    + if c.versionSuffix && c.versionLen < |c.leaf.head.id| then |c.leaf.head.id| - c.versionLen else 0
  }

  function TotalRoom(cs: seq<Candidate>): nat {
    if cs == [] then 0 else Room(cs[0]) + TotalRoom(cs[1..])
  }

  lemma {:induction false} RoomAfter(cs: seq<Candidate>, i: nat, c: Candidate)
    requires i < |cs|
    ensures TotalRoom(cs[i := c]) == TotalRoom(cs) - Room(cs[i]) + Room(c)
  {
    if i == 0 {
      assert cs[i := c][1..] == cs[1..];
    } else {
      assert cs[i := c][1..] == cs[1..][i - 1 := c];
      RoomAfter(cs[1..], i - 1, c);
    }
  }

  /** The same leaf with suffixes at least as long. */
  predicate Extends(a: Candidate, b: Candidate) {
    && a.leaf == b.leaf && a.docSuffix == b.docSuffix && a.versionSuffix == b.versionSuffix
    && a.docLen >= b.docLen && a.versionLen >= b.versionLen
  }

  function Min(a: nat, b: nat): nat {
    if a < b then a else b
  }

  /** One pass over a duplicate: both suffixes take four more characters, if they have them. */
  function Grown(c: Candidate): Candidate {
    c.(docLen := if c.docSuffix && c.docLen < |c.leaf.doc| then Min(c.docLen + 4, |c.leaf.doc|) else c.docLen,
       versionLen := if c.versionSuffix && c.versionLen < |c.leaf.head.id| then Min(c.versionLen + 4, |c.leaf.head.id|)
                     else c.versionLen)
  }

  lemma GrownIs(c: Candidate)
    ensures Extends(Grown(c), c) && Room(Grown(c)) <= Room(c)
    ensures if FullyGrown(c) then Grown(c) == c else Room(Grown(c)) < Room(c)
  {
  }

  method GrowOne(start: Candidate) returns (c: Candidate, grew: bool)
    ensures c == Grown(start) && (grew <==> c != start)
  {
    c, grew := start, false;
    if c.docSuffix && c.docLen < |c.leaf.doc| {
      c := c.(docLen := Min(c.docLen + 4, |c.leaf.doc|));
      grew := true;
    }
    if c.versionSuffix && c.versionLen < |c.leaf.head.id| {
      c := c.(versionLen := Min(c.versionLen + 4, |c.leaf.head.id|));
      grew := true;
    }
  }

  /** Another candidate has this one's label. */
  ghost predicate Taken(cs: seq<Candidate>, i: nat) {
    i < |cs| && exists j :: 0 <= j < |cs| && j != i && Label(cs[j]) == Label(cs[i])
  }

  /** One round of the loop: every candidate whose label is taken grows. */
  ghost function Pass(cs: seq<Candidate>): (next: seq<Candidate>)
    ensures |next| == |cs| && forall i | 0 <= i < |cs| :: next[i] == if Taken(cs, i) then Grown(cs[i]) else cs[i]
  {
    seq(|cs|, i requires 0 <= i < |cs| => if Taken(cs, i) then Grown(cs[i]) else cs[i])
  }

  lemma {:induction false} RoomPointwise(a: seq<Candidate>, b: seq<Candidate>)
    requires |a| == |b| && forall i | 0 <= i < |a| ::
               Room(b[i]) <= Room(a[i]) && (b[i] != a[i] ==> Room(b[i]) < Room(a[i]))
    ensures TotalRoom(b) <= TotalRoom(a) && (b != a ==> TotalRoom(b) < TotalRoom(a))
  {
    if a != [] {
      RoomPointwise(a[1..], b[1..]);
      assert a == [a[0]] + a[1..] && b == [b[0]] + b[1..];
    }
  }

  lemma PassShrinks(cs: seq<Candidate>)
    ensures Pass(cs) != cs ==> TotalRoom(Pass(cs)) < TotalRoom(cs)
  {
    forall i | 0 <= i < |cs|
      ensures Room(Pass(cs)[i]) <= Room(cs[i]) && (Pass(cs)[i] != cs[i] ==> Room(Pass(cs)[i]) < Room(cs[i])) {
      GrownIs(cs[i]);
    }
    hide Pass, Room;
    RoomPointwise(cs, Pass(cs));
  }

  /** The loop: rounds until one changes nothing. */
  ghost function Final(cs: seq<Candidate>): seq<Candidate>
    decreases TotalRoom(cs)
  {
    PassShrinks(cs);
    if Pass(cs) == cs then cs else Final(Pass(cs))
  }

  method Grow(cs: seq<Candidate>, dups: seq<nat>) returns (longer: seq<Candidate>, grew: bool)
    requires NoRepeats(dups) && forall i: nat :: i in dups <==> Taken(cs, i)
    ensures longer == Pass(cs) && (grew <==> longer != cs)
  {
    hide Taken, Grown;
    longer, grew := cs, false;
    var k := 0;
    while k < |dups|
      invariant 0 <= k <= |dups| && |longer| == |cs|
      invariant forall i | 0 <= i < |cs| :: longer[i] == if i in dups[..k] then Grown(cs[i]) else cs[i]
      invariant grew <==> longer != cs
    {
      var i := dups[k];
      assert i in dups && dups[..k + 1] == dups[..k] + [i];
      TakenIsThere(cs, i);
      assert i !in dups[..k];
      var c, more := GrowOne(longer[i]);
      assert longer[i := c][i] == c;
      assert !more ==> longer[i := c] == longer;
      longer := longer[i := c];
      grew := grew || more;
      k := k + 1;
    }
    assert dups[..k] == dups;
  }

  lemma TakenIsThere(cs: seq<Candidate>, i: nat)
    requires Taken(cs, i)
    ensures i < |cs|
  {
  }

  method Labels(cs: seq<Candidate>) returns (texts: seq<string>)
    ensures |texts| == |cs| && forall i | 0 <= i < |cs| :: texts[i] == Label(cs[i])
  {
    hide Label;
    texts := [];
    var i := 0;
    while i < |cs|
      invariant 0 <= i <= |cs| && |texts| == i
      invariant forall k | 0 <= k < i :: texts[k] == Label(cs[k])
    {
      texts := texts + [Label(cs[i])];
      i := i + 1;
    }
  }

  /** The loop of `leaves`. */
  method Settle(start: seq<Candidate>) returns (cs: seq<Candidate>)
    ensures cs == Final(start)
  {
    hide Label, Taken, Grown, Pass;
    cs := start;
    while true
      invariant Final(cs) == Final(start)
      decreases TotalRoom(cs)
    {
      var texts := Labels(cs);
      var dups := Duplicates(texts);
      ClashesAreTaken(cs, texts);
      PassShrinks(cs);
      if dups == [] {
        NobodyGrows(cs);
        break;
      }
      var longer, grew := Grow(cs, dups);
      if !grew {
        break;
      }
      cs := longer;
    }
  }

  lemma ClashesAreTaken(cs: seq<Candidate>, texts: seq<string>)
    requires |texts| == |cs| && forall i | 0 <= i < |cs| :: texts[i] == Label(cs[i])
    ensures forall i: nat :: Clashes(texts, i) <==> Taken(cs, i)
  {
    hide Label;
  }

  lemma NobodyGrows(cs: seq<Candidate>)
    requires forall i: nat :: !Taken(cs, i)
    ensures Pass(cs) == cs
  {
    hide Taken, Grown;
  }

  /** The loop has ended: labels still taken belong to candidates that cannot grow. */
  ghost predicate Settled(cs: seq<Candidate>) {
    forall i, j | 0 <= i < |cs| && 0 <= j < |cs| && i != j && Label(cs[i]) == Label(cs[j]) :: FullyGrown(cs[i])
  }

  lemma FixedIsSettled(cs: seq<Candidate>)
    requires Pass(cs) == cs
    ensures Settled(cs)
  {
    forall i, j | 0 <= i < |cs| && 0 <= j < |cs| && i != j && Label(cs[i]) == Label(cs[j]) ensures FullyGrown(cs[i]) {
      assert Taken(cs, i) && Pass(cs)[i] == Grown(cs[i]);
      GrownIs(cs[i]);
    }
  }

  /** Lengths the loop can give a suffix: steps of four, up to the whole ID. */
  predicate Aligned(c: Candidate) {
    && (c.docLen % 4 == 0 || c.docLen == |c.leaf.doc|) && (c.docLen <= 4 || c.docLen <= |c.leaf.doc|)
  }

  /** The loop only lengthens suffixes, in steps of four, and ends settled; labels that differ at once are kept. */
  lemma {:induction false} FinalIs(cs: seq<Candidate>)
    requires forall c | c in cs :: Aligned(c)
    ensures var last := Final(cs);
            && |last| == |cs| && Settled(last)
            && forall i | 0 <= i < |cs| :: Extends(last[i], cs[i]) && Aligned(last[i])
    decreases TotalRoom(cs)
  {
    hide Label, Taken, Settled;
    PassShrinks(cs);
    if Pass(cs) == cs {
      FixedIsSettled(cs);
    } else {
      var next := Pass(cs);
      forall i | 0 <= i < |cs| ensures Extends(next[i], cs[i]) && Aligned(next[i]) {
        GrownIs(cs[i]);
        assert cs[i] in cs;
      }
      hide Grown;
      FinalIs(next);
    }
  }

  lemma DistinctIsFinal(cs: seq<Candidate>)
    requires forall i, j | 0 <= i < j < |cs| :: Label(cs[i]) != Label(cs[j])
    ensures Final(cs) == cs
  {
    forall i: nat ensures !Taken(cs, i) {
    }
    NobodyGrows(cs);
  }

  /** The lengths every suffix starts with. */
  predicate Short(c: Candidate) {
    c.docLen == 4 && c.versionLen == 8
  }

  lemma {:induction false} HeadStarts(rows: seq<Row>, row: Row, name: string, heads: seq<Head>)
    ensures forall c | c in HeadCandidates(rows, row, name, heads) :: Short(c)
    ensures forall h | h in heads :: Start(rows, row, name, h) in HeadCandidates(rows, row, name, heads)
  {
    if heads != [] {
      HeadStarts(rows, row, name, heads[1..]);
      assert heads == [heads[0]] + heads[1..];
    }
  }

  lemma {:induction false} NameStarts(rows: seq<Row>, row: Row, names: seq<string>)
    ensures forall c | c in NameCandidates(rows, row, names) :: Short(c)
    ensures forall n, h | n in names && h in row.heads :: Start(rows, row, n, h) in NameCandidates(rows, row, names)
  {
    if names != [] {
      HeadStarts(rows, row, names[0], row.heads);
      NameStarts(rows, row, names[1..]);
      assert names == [names[0]] + names[1..];
      hide Short, Start;
    }
  }

  /** Every current name of every head has its candidate. */
  lemma {:induction false} Starts(rows: seq<Row>, some: seq<Row>)
    ensures forall c | c in Candidates(rows, some) :: Short(c)
    ensures forall r, n, h | r in some && n in Names(r) && h in r.heads ::
              Start(rows, r, n, h) in Candidates(rows, some)
  {
    hide Short, Start;
    if some != [] {
      ListingLists(Names(some[0]));
      NameStarts(rows, some[0], Listing(Names(some[0])));
      Starts(rows, some[1..]);
      assert some == [some[0]] + some[1..];
    }
  }

  /** What the loop leaves for these rows. */
  ghost function Ends(rows: seq<Row>): seq<Candidate> {
    Final(Candidates(rows, rows))
  }

  lemma EndsAre(rows: seq<Row>)
    ensures var starts, cs := Candidates(rows, rows), Ends(rows);
            && |cs| == |starts| && Settled(cs)
            && forall i | 0 <= i < |cs| :: Extends(cs[i], starts[i]) && Aligned(cs[i])
  {
    Starts(rows, rows);
    FinalIs(Candidates(rows, rows));
  }

  /** The two leaves of a pair, as the loop left them. */
  lemma EndsOfRows(rows: seq<Row>, i: nat)
    requires Legal(rows) && i < |Ends(rows)|
    ensures OfSome(rows, Ends(rows)[i]) && |Ends(rows)| == |Candidates(rows, rows)|
    ensures Extends(Ends(rows)[i], Candidates(rows, rows)[i])
  {
    hide Label, Settled, Final;
    EndsAre(rows);
    CandidatesAre(rows, rows);
    var starts := Candidates(rows, rows);
    assert starts[i] in starts;
    StillOfSome(rows, starts[i], Ends(rows)[i]);
  }

  /** No two leaves of one name share a label. */
  lemma SameNameLabelsDiffer(rows: seq<Row>, i: nat, j: nat)
    requires Legal(rows) && i < j < |Ends(rows)| && Ends(rows)[i].leaf.base == Ends(rows)[j].leaf.base
    ensures Label(Ends(rows)[i]) != Label(Ends(rows)[j])
  {
    var starts, cs := Candidates(rows, rows), Ends(rows);
    EndsAre(rows);
    EndsOfRows(rows, i);
    EndsOfRows(rows, j);
    CandidatesAre(rows, rows);
    hide Ends, Candidates, OfSome, Legal;
    assert !SameKey(starts[i], starts[j]);
    if Label(cs[i]) == Label(cs[j]) {
      SameBaseSameLabel(rows, cs[i], cs[j]);
    }
  }

  /** A leaf's label with its suffixes whole. */
  function WholeLabel(c: Candidate): string {
    Label(c.(docLen := |c.leaf.doc|, versionLen := |c.leaf.head.id|))
  }

  /** No two leaves have the same label with whole suffixes: a condition on the rows alone. */
  ghost predicate WholeLabelsDiffer(rows: seq<Row>) {
    var starts := Candidates(rows, rows);
    forall i, j | 0 <= i < j < |starts| :: WholeLabel(starts[i]) != WholeLabel(starts[j])
  }

  lemma FullyGrownIsWhole(c: Candidate, start: Candidate)
    requires Extends(c, start) && FullyGrown(c)
    ensures Label(c) == WholeLabel(start)
  {
    assert Suffix(c) == Suffix(start.(docLen := |start.leaf.doc|, versionLen := |start.leaf.head.id|));
  }

  /** When whole labels differ, so do the labels the loop settles on: it stops at whole suffixes or without clashes. */
  lemma WholeLabelsSettle(rows: seq<Row>, i: nat, j: nat)
    requires WholeLabelsDiffer(rows) && i < j < |Ends(rows)|
    ensures Label(Ends(rows)[i]) != Label(Ends(rows)[j])
  {
    var starts, cs := Candidates(rows, rows), Ends(rows);
    EndsAre(rows);
    hide Ends, Candidates, Label, WholeLabel;
    if Label(cs[i]) == Label(cs[j]) {
      FullyGrownIsWhole(cs[i], starts[i]);
      FullyGrownIsWhole(cs[j], starts[j]);
    }
  }

  /** When no name contains the separator, whole labels differ. */
  lemma CleanWholeLabelsDiffer(rows: seq<Row>)
    requires Legal(rows) && Clean(rows)
    ensures WholeLabelsDiffer(rows)
  {
    var starts := Candidates(rows, rows);
    CandidatesAre(rows, rows);
    hide Candidates, Label, Legal, Clean;
    forall i, j | 0 <= i < j < |starts| ensures WholeLabel(starts[i]) != WholeLabel(starts[j]) {
      assert starts[i] in starts && starts[j] in starts && !SameKey(starts[i], starts[j]);
      CleanPairDiffers(rows, starts[i], starts[j]);
    }
  }

  lemma CleanPairDiffers(rows: seq<Row>, a: Candidate, b: Candidate)
    requires Legal(rows) && Clean(rows) && OfSome(rows, a) && OfSome(rows, b) && !SameKey(a, b)
    ensures WholeLabel(a) != WholeLabel(b)
  {
    var x := a.(docLen := |a.leaf.doc|, versionLen := |a.leaf.head.id|);
    var y := b.(docLen := |b.leaf.doc|, versionLen := |b.leaf.head.id|);
    WholeOfSome(rows, a);
    WholeOfSome(rows, b);
    hide Label, Legal, Clean, OfSome;
    if Label(x) == Label(y) {
      LabelDeterminesBase(rows, x, y);
      SameBaseSameLabel(rows, x, y);
    }
  }

  lemma WholeOfSome(rows: seq<Row>, a: Candidate)
    requires OfSome(rows, a)
    ensures OfSome(rows, a.(docLen := |a.leaf.doc|, versionLen := |a.leaf.head.id|))
  {
    var row :| Of(rows, row, a);
    assert Of(rows, row, a.(docLen := |a.leaf.doc|, versionLen := |a.leaf.head.id|));
  }

  lemma StillOfSome(rows: seq<Row>, a: Candidate, b: Candidate)
    requires OfSome(rows, a) && Extends(b, a)
    ensures OfSome(rows, b)
  {
    var row :| Of(rows, row, a);
    assert Of(rows, row, b);
  }

  ghost predicate AllDistinct(texts: seq<(string, Leaf)>) {
    forall i, j | 0 <= i < j < |texts| :: texts[i].0 != texts[j].0
  }

  ghost predicate DistinctByName(texts: seq<(string, Leaf)>) {
    forall i, j | 0 <= i < j < |texts| && texts[i].1.base == texts[j].1.base :: texts[i].0 != texts[j].0
  }

  /** The listing is that of these candidates. */
  ghost predicate Lists(out: seq<(string, Leaf)>, cs: seq<Candidate>) {
    |out| == |cs| && forall i | 0 <= i < |cs| :: out[i] == (Label(cs[i]), cs[i].leaf)
  }

  /** `leaves`: every current name of every head, under the labels the loop settles on. */
  method Leaves(rows: seq<Row>) returns (out: seq<(string, Leaf)>)
    ensures Lists(out, Ends(rows))
    ensures Legal(rows) ==> DistinctByName(out)
    ensures WholeLabelsDiffer(rows) ==> AllDistinct(out)
    ensures Legal(rows) && Clean(rows) ==> AllDistinct(out)
  {
    hide Label, Final, Legal, Clean, WholeLabelsDiffer;
    var owners := CollectOwners(rows);
    var starts := CollectCandidates(rows, owners);
    var cs := Settle(starts);
    var texts := Labels(cs);
    out := [];
    var i := 0;
    while i < |cs|
      invariant 0 <= i <= |cs| && |out| == i
      invariant forall k | 0 <= k < i :: out[k] == (Label(cs[k]), cs[k].leaf)
    {
      out := out + [(texts[i], cs[i].leaf)];
      i := i + 1;
    }
    ListingIsDistinct(rows, out);
  }

  lemma ListingIsDistinct(rows: seq<Row>, out: seq<(string, Leaf)>)
    requires Lists(out, Ends(rows))
    ensures Legal(rows) ==> DistinctByName(out)
    ensures WholeLabelsDiffer(rows) ==> AllDistinct(out)
    ensures Legal(rows) && Clean(rows) ==> AllDistinct(out)
  {
    hide Label, Final, Ends, Clean, WholeLabelsDiffer, Legal;
    if Legal(rows) {
      forall i, j | 0 <= i < j < |out| && out[i].1.base == out[j].1.base ensures out[i].0 != out[j].0 {
        SameNameLabelsDiffer(rows, i, j);
      }
      if Clean(rows) { CleanWholeLabelsDiffer(rows); }
    }
    if WholeLabelsDiffer(rows) {
      forall i, j | 0 <= i < j < |out| ensures out[i].0 != out[j].0 {
        WholeLabelsSettle(rows, i, j);
      }
    }
  }

  // ----- labels that do collide, and that do not -----

  ghost predicate SharesLabel(rows: seq<Row>, i: nat, j: nat) {
    i != j && i < |Ends(rows)| && j < |Ends(rows)| && Label(Ends(rows)[i]) == Label(Ends(rows)[j])
  }

  /** The position of a leaf, and how far the loop can have taken it. */
  lemma Position(rows: seq<Row>, row: Row, name: string, head: Head) returns (i: nat)
    requires row in rows && name in Names(row) && head in row.heads
    ensures i < |Ends(rows)| && Extends(Ends(rows)[i], Start(rows, row, name, head)) && Aligned(Ends(rows)[i])
  {
    EndsAre(rows);
    Starts(rows, rows);
    hide Ends, Candidates, Aligned, Start;
    var start := Start(rows, row, name, head);
    i :| 0 <= i < |Candidates(rows, rows)| && Candidates(rows, rows)[i] == start;
  }

  lemma NoSuffixLabel(c: Candidate)
    requires !c.docSuffix && !c.versionSuffix
    ensures Label(c) == c.leaf.base
  {
    SuffixShows(c.leaf.base, "");
  }

  /** `a~` and every start of an ID that the loop can show. */
  function PrefixNames(id: string): seq<string> {
    seq(16, k requires 0 <= k < 16 => "a~" + Take(id, 4 * k + 4))
  }

  predicate TwoIds(d1: string, d2: string, h1: Head, h2: Head) {
    |d1| == |d2| == 64 && d1 != d2 && '~' !in d1 && '~' !in d2 && '~' !in h1.id && '~' !in h2.id
  }

  /** Two documents share the name `a`, and the second one also carries every label the first one's can grow to. */
  function TildeRows(d1: string, d2: string, h1: Head, h2: Head): seq<Row> {
    [Row(d1, ["a"], [h1]), Row(d2, ["a"] + PrefixNames(d1), [h2])]
  }

  lemma TwoOwners(rows: seq<Row>, name: string, d1: string, d2: string)
    requires Owners(rows, name) == {d1, d2} && d1 != d2
    ensures |Owners(rows, name)| == 2
  {
  }

  /** With a separator in names, two leaves of documents with 64-digit IDs keep one label, whatever the IDs are. */
  lemma TildeNamesCollide(d1: string, d2: string, h1: Head, h2: Head) returns (i: nat, j: nat)
    requires TwoIds(d1, d2, h1, h2)
    ensures Legal(TildeRows(d1, d2, h1, h2)) && SharesLabel(TildeRows(d1, d2, h1, h2), i, j)
  {
    var rows := TildeRows(d1, d2, h1, h2);
    TildeOwners(d1, d2, h1, h2);
    assert rows[0] in rows && rows[1] in rows;
    hide Ends, Owners, Label, Aligned, PrefixNames, Take;
    i := Position(rows, rows[0], "a", h1);
    var first := Ends(rows)[i];
    ShownName(first, d1);
    PrefixIsName(d1, d2, h1, h2, first.docLen);
    j := Position(rows, rows[1], "a~" + Take(d1, first.docLen), h2);
    NoSuffixLabel(Ends(rows)[j]);
  }

  lemma PrefixIsName(d1: string, d2: string, h1: Head, h2: Head, n: nat)
    requires n % 4 == 0 && 4 <= n <= 64
    ensures "a~" + Take(d1, n) in PrefixNames(d1) && "a~" + Take(d1, n) in Names(TildeRows(d1, d2, h1, h2)[1])
  {
    assert PrefixNames(d1)[n / 4 - 1] == "a~" + Take(d1, n);
    assert (["a"] + PrefixNames(d1))[n / 4] == "a~" + Take(d1, n);
  }

  lemma TildeOwners(d1: string, d2: string, h1: Head, h2: Head)
    requires TwoIds(d1, d2, h1, h2)
    ensures var rows := TildeRows(d1, d2, h1, h2);
            && Legal(rows) && "a" in Names(rows[0]) && |Owners(rows, "a")| == 2
            && forall n | n in PrefixNames(d1) :: |Owners(rows, n)| == 1
  {
    var rows := TildeRows(d1, d2, h1, h2);
    assert rows[0] in rows && rows[1] in rows;
    assert rows[1].names[0] == "a";
    assert "a" in Names(rows[0]) && "a" in Names(rows[1]);
    TwoOwners(rows, "a", d1, d2);
    forall n | n in PrefixNames(d1) ensures |Owners(rows, n)| == 1 {
      var k :| 0 <= k < 16 && PrefixNames(d1)[k] == n;
      assert rows[1].names[k + 1] == n;
      assert Owners(rows, n) == {d2};
    }
  }

  lemma ShownName(c: Candidate, doc: string)
    requires c.leaf.base == "a" && c.leaf.doc == doc && |doc| == 64 && c.docSuffix && !c.versionSuffix
    requires Aligned(c) && c.docLen >= 4
    ensures Label(c) == "a~" + Take(doc, c.docLen) && c.docLen % 4 == 0 && 4 <= c.docLen <= 64
  {
    assert LastDot("a") == None;
  }

  /** Two documents share the name `a`, and the second one also carries the first one's whole label. */
  function WholeRows(d1: string, d2: string, h1: Head, h2: Head): seq<Row> {
    [Row(d1, ["a"], [h1]), Row(d2, ["a", "a~" + d1], [h2])]
  }

  /** Equal whole labels need not show: the loop stops as soon as the suffixes tell the leaves apart. */
  lemma EqualWholeLabelsMaySettle(d1: string, d2: string, h1: Head, h2: Head)
    requires TwoIds(d1, d2, h1, h2) && d1[..4] != d2[..4]
    ensures var rows := WholeRows(d1, d2, h1, h2);
            && Legal(rows) && !WholeLabelsDiffer(rows)
            && forall i, j | i != j :: !SharesLabel(rows, i, j)
  {
    var rows := WholeRows(d1, d2, h1, h2);
    WholeOwners(d1, d2, h1, h2);
    WholeLabelsMeet(d1, d2, h1, h2);
    hide Candidates, Label, Owners, Legal, OfSome, Names, Start, Final;
    CandidatesAre(rows, rows);
    Starts(rows, rows);
    var starts := Candidates(rows, rows);
    forall i, j | 0 <= i < j < |starts| ensures Label(starts[i]) != Label(starts[j]) {
      assert starts[i] in starts && starts[j] in starts;
      ShortLabelsDiffer(d1, d2, h1, h2, starts[i], starts[j]);
    }
    DistinctIsFinal(starts);
  }

  lemma ShortLabelsDiffer(d1: string, d2: string, h1: Head, h2: Head, a: Candidate, b: Candidate)
    requires TwoIds(d1, d2, h1, h2) && d1[..4] != d2[..4] && !SameKey(a, b)
    requires OfSome(WholeRows(d1, d2, h1, h2), a) && Short(a)
    requires OfSome(WholeRows(d1, d2, h1, h2), b) && Short(b)
    ensures Label(a) != Label(b)
  {
    hide Label, OfSome;
    ShortLabel(d1, d2, h1, h2, a);
    ShortLabel(d1, d2, h1, h2, b);
    var x, y, z := "a~" + d1[..4], "a~" + d2[..4], "a~" + d1;
    assert x[2..] == d1[..4] && y[2..] == d2[..4] && |z| == 66;
  }

  lemma WholeOwners(d1: string, d2: string, h1: Head, h2: Head)
    requires TwoIds(d1, d2, h1, h2)
    ensures var rows := WholeRows(d1, d2, h1, h2);
            && Legal(rows) && |Owners(rows, "a")| == 2 && |Owners(rows, "a~" + d1)| == 1
            && Names(rows[0]) == {"a"} && Names(rows[1]) == {"a", "a~" + d1}
  {
    var rows := WholeRows(d1, d2, h1, h2);
    assert rows[0] in rows && rows[1] in rows;
    assert rows[1].names[0] == "a" && rows[1].names[1] == "a~" + d1;
    assert Names(rows[0]) == {"a"} && Names(rows[1]) == {"a", "a~" + d1};
    TwoOwners(rows, "a", d1, d2);
    assert Owners(rows, "a~" + d1) == {d2};
  }

  lemma WholeLabelsMeet(d1: string, d2: string, h1: Head, h2: Head)
    requires TwoIds(d1, d2, h1, h2)
    ensures !WholeLabelsDiffer(WholeRows(d1, d2, h1, h2))
  {
    var rows := WholeRows(d1, d2, h1, h2);
    WholeOwners(d1, d2, h1, h2);
    assert rows[0] in rows && rows[1] in rows;
    hide Owners, Names, Legal, Candidates, Label;
    Starts(rows, rows);
    var a, b := Start(rows, rows[0], "a", h1), Start(rows, rows[1], "a~" + d1, h2);
    assert a in Candidates(rows, rows) && b in Candidates(rows, rows);
    ShownName(a.(docLen := 64, versionLen := |h1.id|), d1);
    NoSuffixLabel(b.(docLen := 64, versionLen := |h2.id|));
    assert WholeLabel(a) == "a~" + d1 && WholeLabel(b) == "a~" + d1;
    hide WholeLabel, Start;
    var i :| 0 <= i < |Candidates(rows, rows)| && Candidates(rows, rows)[i] == a;
    var j :| 0 <= j < |Candidates(rows, rows)| && Candidates(rows, rows)[j] == b;
    assert i < j || j < i;
  }

  /** The three leaves and their first labels. */
  lemma ShortLabel(d1: string, d2: string, h1: Head, h2: Head, c: Candidate)
    requires TwoIds(d1, d2, h1, h2) && OfSome(WholeRows(d1, d2, h1, h2), c) && Short(c)
    ensures var l := c.leaf;
            || (l == Leaf("a", d1, h1) && Label(c) == "a~" + d1[..4])
            || (l == Leaf("a", d2, h2) && Label(c) == "a~" + d2[..4])
            || (l == Leaf("a~" + d1, d2, h2) && Label(c) == "a~" + d1)
  {
    var rows := WholeRows(d1, d2, h1, h2);
    WholeOwners(d1, d2, h1, h2);
    var row :| Of(rows, row, c);
    hide Owners, Names;
    assert row == rows[0] || row == rows[1];
    assert LastDot("a") == None;
    if c.leaf.base != "a" {
      NoSuffixLabel(c);
    }
  }

  /** Rows whose IDs hold a dot. */
  function DottedRows(h: Head): seq<Row> {
    [Row("x.b", ["a"], [h]), Row("x", ["a.b"], [h]), Row("y", ["a", "a.b"], [h])]
  }

  /** A dot in an ID can be taken for the name's extension. */
  lemma DottedIdsCollide(h: Head) returns (i: nat, j: nat)
    requires '~' !in h.id
    ensures Legal(DottedRows(h)) && SharesLabel(DottedRows(h), i, j)
  {
    var rows := DottedRows(h);
    DottedOwners(h);
    assert rows[0] in rows && rows[1] in rows;
    hide Ends, Owners, Names, Aligned, Label, Legal;
    i := Position(rows, rows[0], "a", h);
    j := Position(rows, rows[1], "a.b", h);
    hide Start;
    DottedLabel(Ends(rows)[i]);
    DottedLabel(Ends(rows)[j]);
  }

  lemma DottedLabel(c: Candidate)
    requires c.docSuffix && !c.versionSuffix && c.docLen >= 4
    ensures c.leaf.base == "a" && c.leaf.doc == "x.b" ==> Label(c) == "a~x.b"
    ensures c.leaf.base == "a.b" && c.leaf.doc == "x" ==> Label(c) == "a~x.b"
  {
    assert LastDot("a") == None && LastDot("a.b") == Some(1);
  }

  lemma DottedOwners(h: Head)
    requires '~' !in h.id
    ensures var rows := DottedRows(h);
            && Legal(rows) && "a" in Names(rows[0]) && "a.b" in Names(rows[1])
            && |Owners(rows, "a")| == 2 && |Owners(rows, "a.b")| == 2
  {
    var rows := DottedRows(h);
    assert rows[0] in rows && rows[1] in rows && rows[2] in rows;
    assert rows[0].names[0] == "a" && rows[1].names[0] == "a.b" && rows[2].names[0] == "a" && rows[2].names[1] == "a.b";
    TwoOwners(rows, "a", "x.b", "y");
    TwoOwners(rows, "a.b", "x", "y");
  }

  // ----- which leaves there are -----

  /** The names a document is listed under: its current names, or one made from the first eight digits of its ID. */
  ghost predicate ListedUnder(row: Row, base: string) {
    if row.names == [] then base == "untitled-" + if |row.id| <= 8 then row.id else row.id[..8]
    else base in row.names
  }

  ghost predicate LeafOf(rows: seq<Row>, leaf: Leaf) {
    exists row :: row in rows && leaf.doc == row.id && leaf.head in row.heads && ListedUnder(row, leaf.base)
  }

  lemma NamesMean(row: Row, base: string)
    ensures base in Names(row) <==> ListedUnder(row, base)
  {
    assert |row.id| == 8 ==> row.id[..8] == row.id;
    assert Take(row.id, 8) == if |row.id| <= 8 then row.id else row.id[..8];
  }

  /** The listing has exactly one leaf for each document, name and head. */
  lemma LeavesAre(rows: seq<Row>)
    requires Legal(rows)
    ensures forall leaf :: LeafOf(rows, leaf) <==> exists i :: 0 <= i < |Ends(rows)| && Ends(rows)[i].leaf == leaf
    ensures forall i, j | 0 <= i < j < |Ends(rows)| :: Ends(rows)[i].leaf != Ends(rows)[j].leaf
  {
    var starts, ends := Candidates(rows, rows), Ends(rows);
    CandidatesAre(rows, rows);
    EndsAre(rows);
    hide Candidates, Ends, Legal, Settled, Aligned, Names, ListedUnder, Start, Owners;
    forall leaf ensures LeafOf(rows, leaf) <==> exists i :: 0 <= i < |ends| && ends[i].leaf == leaf {
      if LeafOf(rows, leaf) {
        var row :| row in rows && leaf.doc == row.id && leaf.head in row.heads && ListedUnder(row, leaf.base);
        NamesMean(row, leaf.base);
        var i := Position(rows, row, leaf.base, leaf.head);
        StartLeaf(rows, row, leaf.base, leaf.head);
        assert ends[i].leaf == leaf;
      }
      if i :| 0 <= i < |ends| && ends[i].leaf == leaf {
        assert starts[i] in starts;
        LeafOfStart(rows, starts[i]);
      }
    }
  }

  lemma StartLeaf(rows: seq<Row>, row: Row, name: string, head: Head)
    ensures Start(rows, row, name, head).leaf == Leaf(name, row.id, head)
  {
  }

  lemma LeafOfStart(rows: seq<Row>, c: Candidate)
    requires OfSome(rows, c)
    ensures LeafOf(rows, c.leaf)
  {
    var row :| Of(rows, row, c);
    NamesMean(row, c.leaf.base);
  }
}
