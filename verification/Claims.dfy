/** Causal claims: their checked form and the bytes whose hash is the claim ID (src/causal.rs). */
module Claims {
  import opened Wrappers
  import opened Order
  import opened Bytes
  import opened Tags

  type Id = string

  /** Timestamps are their RFC 3339 text with nine fractional digits. */
  datatype Claim =
    | Create(format: Byte, nonce: string, ts: string)
    | Version(doc: Id, nonce: string, ts: string, hash: string, parents: seq<Id>)
    | Name(doc: Id, nonce: string, ts: string, name: string, supersedes: seq<Id>)
    | TagAdd(doc: Id, nonce: string, ts: string, tag: string, scope: Option<string>, supersedes: seq<Id>)
    | TagRemove(doc: Id, nonce: string, ts: string, tag: string, removes: seq<Id>)

  datatype ClaimError =
    | UnsupportedFormat
    | InvalidHex
    | InvalidName
    | InvalidTag
    | TagOutsideKey
    | NoObservedTargets

  function Refs(c: Claim): seq<Id> {
    match c
    case Create(_, _, _) => []
    case Version(_, _, _, _, parents) => parents
    case Name(_, _, _, _, supersedes) => supersedes
    case TagAdd(_, _, _, _, _, supersedes) => supersedes
    case TagRemove(_, _, _, _, removes) => removes
  }

  /** The document a claim is bound to; a create claim's own ID otherwise. */
  function Owner(id: Id, c: Claim): Id {
    if c.Create? then id else c.doc
  }

  predicate ValidName(name: string) {
    name != "" && name != "." && name != ".." && '/' !in name && '\0' !in name
  }

  predicate AllIds(ids: seq<Id>) {
    forall id | id in ids :: IsHex(id, 64)
  }

  /** `normalized`: checks every field, puts tags in path form, sorts and dedups references. */
  function Normalized(c: Claim): Result<Claim, ClaimError> {
    match c
    case Create(format, nonce, _) =>
      if format != 2 then Failure(UnsupportedFormat)
      else if !IsHex(nonce, 32) then Failure(InvalidHex)
      else Success(c)
    case Version(doc, nonce, _, hash, parents) =>
      if !IsHex(doc, 64) || !IsHex(nonce, 32) || !IsHex(hash, 64) || !AllIds(parents) then Failure(InvalidHex)
      else Success(c.(parents := SortDedup(parents)))
    case Name(doc, nonce, ts, name, supersedes) =>
      if !IsHex(doc, 64) || !IsHex(nonce, 32) then Failure(InvalidHex)
      else if !ValidName(name) then Failure(InvalidName)
      else if !AllIds(supersedes) then Failure(InvalidHex)
      else Success(Name(doc, nonce, ts, name, SortDedup(supersedes)))
    case TagAdd(doc, nonce, _, tag, scope, supersedes) =>
      if !IsHex(doc, 64) || !IsHex(nonce, 32) then Failure(InvalidHex)
      else if CheckedTag(tag).None? then Failure(InvalidTag)
      else
        var path := CheckedTag(tag).value;
        if scope.Some? && CheckedTag(scope.value).None? then Failure(InvalidTag)
        else
          var key := if scope.Some? then CheckedTag(scope.value) else None;
          if key.Some? && !IsDescendant(key.value, path) then Failure(TagOutsideKey)
          else if !AllIds(supersedes) then Failure(InvalidHex)
          else Success(c.(tag := path, scope := key, supersedes := SortDedup(supersedes)))
    case TagRemove(doc, nonce, _, tag, removes) =>
      if !IsHex(doc, 64) || !IsHex(nonce, 32) then Failure(InvalidHex)
      else if CheckedTag(tag).None? then Failure(InvalidTag)
      else if !AllIds(removes) then Failure(InvalidHex)
      else if removes == [] then Failure(NoObservedTargets)
      else Success(c.(tag := CheckedTag(tag).value, removes := SortDedup(removes)))
  }

  /** A claim as `normalized` leaves it; `CanonicalClaim` holds only these. */
  predicate IsNormal(c: Claim) {
    Normalized(c) == Success(c)
  }

  function WithRefs(c: Claim, refs: seq<Id>): Claim {
    match c
    case Create(_, _, _) => c
    case Version(_, _, _, _, _) => c.(parents := refs)
    case Name(doc, nonce, ts, name, _) => Name(doc, nonce, ts, name, refs)
    case TagAdd(doc, nonce, ts, tag, scope, _) => TagAdd(doc, nonce, ts, tag, scope, refs)
    case TagRemove(_, _, _, _, _) => c.(removes := refs)
  }

  lemma CheckedTagIdempotent(tag: string)
    requires CheckedTag(tag).Some?
    ensures CheckedTag(CheckedTag(tag).value) == CheckedTag(tag)
  {
    NormalizeIdempotent(tag);
  }

  /** Normalizing again changes nothing. */
  lemma NormalizedIsNormal(c: Claim)
    requires Normalized(c).Success?
    ensures IsNormal(Normalized(c).value)
  {
    var n := Normalized(c).value;
    SortDedupFixesAscending(Refs(n));
    if c.TagAdd? {
      CheckedTagIdempotent(c.tag);
      if c.scope.Some? {
        CheckedTagIdempotent(c.scope.value);
      }
    } else if c.TagRemove? {
      CheckedTagIdempotent(c.tag);
      assert c.removes[0] in n.removes;
    }
  }

  /** What a claim that needs no normalizing looks like, field by field. */
  ghost predicate WellFormed(c: Claim) {
    && IsHex(c.nonce, 32) && (if c.Create? then c.format == 2 else IsHex(c.doc, 64))
    && (c.Version? ==> IsHex(c.hash, 64))
    && (c.Name? ==> |c.name| > 0 && c.name != ['.'] && c.name != ['.', '.'] && '/' !in c.name && '\0' !in c.name)
    && (c.TagAdd? || c.TagRemove? ==> IsPath(c.tag))
    && (c.TagAdd? && c.scope.Some? ==> IsPath(c.scope.value) && IsDescendant(c.scope.value, c.tag))
    && (c.TagRemove? ==> c.removes != [])
    && (forall id | id in Refs(c) :: IsHex(id, 64)) && Ascending(Refs(c))
  }

  lemma NormalMeansWellFormed(c: Claim)
    ensures IsNormal(c) <==> WellFormed(c)
  {
    hide CheckedTag, IsHex, IsPath, SortDedup;
    SortedFixesIff(Refs(c));
    if c.TagAdd? || c.TagRemove? {
      CheckedMeansPath(c.tag);
    }
    if c.TagAdd? && c.scope.Some? {
      CheckedMeansPath(c.scope.value);
    }
  }

  lemma SortedFixesIff(ids: seq<Id>)
    ensures SortDedup(ids) == ids <==> Ascending(ids)
  {
    if Ascending(ids) {
      SortDedupFixesAscending(ids);
    }
  }

  /** Normalizing changes nothing but the spelling of tag paths and the order and repetition of references. */
  lemma NormalizedKeepsMeaning(c: Claim)
    requires Normalized(c).Success?
    ensures var n := Normalized(c).value;
            && WithRefs(n, []) == WithRefs(WithPaths(c), [])
            && forall r :: r in Refs(n) <==> r in Refs(c)
  {
    hide NormalizeTag, IsHex;
  }

  /** The claim with its tag paths spelled with single slashes. */
  function WithPaths(c: Claim): Claim {
    match c
    case TagAdd(doc, nonce, ts, tag, scope, refs) =>
      TagAdd(doc, nonce, ts, NormalizeTag(tag), if scope.Some? then Some(NormalizeTag(scope.value)) else None, refs)
    case TagRemove(doc, nonce, ts, tag, removes) => TagRemove(doc, nonce, ts, NormalizeTag(tag), removes)
    case _ => c
  }

  /** The order and repetition of references never matter. */
  lemma NormalizedIgnoresReferenceOrder(c: Claim, a: seq<Id>, b: seq<Id>)
    requires forall x :: x in a <==> x in b
    ensures Normalized(WithRefs(c, a)) == Normalized(WithRefs(c, b))
  {
    SortDedupDependsOnMembersOnly(a, b);
    assert a != [] ==> a[0] in b;
    assert b != [] ==> b[0] in a;
  }

  // ----- identity bytes (docs/claim-format-v2.md, "Identity bytes") -----

  /** merkle-champ's one-byte type tags for strings, byte strings and numbers. */
  datatype TypeTags = TypeTags(str: Byte, bytes: Byte, num: Byte)

  function Delimited(t: Byte, b: seq<Byte>): seq<Byte> { [t] + (Le64(|b|) + b) }

  function Str(t: TypeTags, s: string): seq<Byte> { Delimited(t.str, Utf8(s)) }

  function Num(t: TypeTags, n: nat): seq<Byte> { Delimited(t.num, Le64(n)) }

  function Hex16(t: TypeTags, s: string): seq<Byte>
    requires IsHex(s, 32)
  {
    Delimited(t.bytes, HexDecode(s))
  }

  /** A 32-byte identity: '#' and the decoded digest. */
  function Hash32(s: string): (r: seq<Byte>)
    requires IsHex(s, 64)
    ensures |r| == 33
  {
    [35] + HexDecode(s)
  }

  function Hashes(ids: seq<Id>): seq<Byte>
    requires AllIds(ids)
  {
    if ids == [] then [] else Hash32(ids[0]) + Hashes(ids[1..])
  }

  function RefBytes(t: TypeTags, ids: seq<Id>): seq<Byte>
    requires AllIds(ids)
  {
    Num(t, |ids|) + Hashes(ids)
  }

  function Operation(c: Claim): nat {
    match c
    case Create(_, _, _) => 0
    case Version(_, _, _, _, _) => 1
    case Name(_, _, _, _, _) => 2
    case TagAdd(_, _, _, _, _, _) => 3
    case TagRemove(_, _, _, _, _) => 4
  }

  /** The fields every edit claim starts with. */
  function Head(t: TypeTags, c: Claim, rest: seq<Byte>): seq<Byte>
    requires IsNormal(c) && !c.Create?
  {
    Hash32(c.doc) + (Hex16(t, c.nonce) + (Str(t, c.ts) + rest))
  }

  function ScopeBytes(t: TypeTags, scope: Option<string>, rest: seq<Byte>): seq<Byte> {
    match scope
    case None => Num(t, 0) + rest
    case Some(key) => Num(t, 1) + (Str(t, key) + rest)
  }

  lemma NormalRefsAreIds(c: Claim)
    requires IsNormal(c)
    ensures AllIds(Refs(c))
  {
  }

  function Fields(t: TypeTags, c: Claim): seq<Byte>
    requires IsNormal(c)
  {
    NormalRefsAreIds(c);
    match c
    case Create(format, nonce, ts) => Num(t, format) + (Hex16(t, nonce) + Str(t, ts))
    case Version(_, _, _, hash, parents) => Head(t, c, Hash32(hash) + RefBytes(t, parents))
    case Name(_, _, _, name, supersedes) => Head(t, c, Str(t, name) + RefBytes(t, supersedes))
    case TagAdd(_, _, _, tag, scope, supersedes) =>
      Head(t, c, Str(t, tag) + ScopeBytes(t, scope, RefBytes(t, supersedes)))
    case TagRemove(_, _, _, tag, removes) => Head(t, c, Str(t, tag) + RefBytes(t, removes))
  }

  /** `Identify` for a canonical claim: 'C', the domain string, the operation, the fields. */
  function Identify(t: TypeTags, c: Claim): seq<Byte>
    requires IsNormal(c)
  {
    [67] + (Str(t, "transfs/claim/v2") + (Num(t, Operation(c)) + Fields(t, c)))
  }

  /** Lengths a Rust `usize` can hold, so that none is truncated to a `u64`. */
  ghost predicate Fits(c: Claim) {
    && |Utf8(c.ts)| < U64
    && |Refs(c)| < U64
    && (c.Name? ==> |Utf8(c.name)| < U64)
    && (c.TagAdd? || c.TagRemove? ==> |Utf8(c.tag)| < U64)
    && (c.TagAdd? && c.scope.Some? ==> |Utf8(c.scope.value)| < U64)
  }

  lemma CutEqual(x: seq<Byte>, y: seq<Byte>, s: seq<Byte>, t: seq<Byte>)
    requires |x| == |y| && x + s == y + t
    ensures x == y && s == t
  {
    assert x == (x + s)[..|x|];
    assert s == (x + s)[|x|..];
  }

  lemma DelimitedPrefix(tag: Byte, x: seq<Byte>, y: seq<Byte>, s: seq<Byte>, t: seq<Byte>)
    requires |x| < U64 && |y| < U64
    requires Delimited(tag, x) + s == Delimited(tag, y) + t
    ensures x == y && s == t
  {
    assert Delimited(tag, x) + s == [tag] + (Le64(|x|) + (x + s));
    assert Delimited(tag, y) + t == [tag] + (Le64(|y|) + (y + t));
    CutEqual([tag], [tag], Le64(|x|) + (x + s), Le64(|y|) + (y + t));
    CutEqual(Le64(|x|), Le64(|y|), x + s, y + t);
    Le64Injective(|x|, |y|);
    CutEqual(x, y, s, t);
  }

  lemma StrPrefix(t: TypeTags, a: string, b: string, r: seq<Byte>, s: seq<Byte>)
    requires |Utf8(a)| < U64 && |Utf8(b)| < U64
    requires Str(t, a) + r == Str(t, b) + s
    ensures a == b && r == s
  {
    DelimitedPrefix(t.str, Utf8(a), Utf8(b), r, s);
    Utf8Injective(a, b);
  }

  lemma NumPrefix(t: TypeTags, a: nat, b: nat, r: seq<Byte>, s: seq<Byte>)
    requires a < U64 && b < U64
    requires Num(t, a) + r == Num(t, b) + s
    ensures a == b && r == s
  {
    DelimitedPrefix(t.num, Le64(a), Le64(b), r, s);
    Le64Injective(a, b);
  }

  lemma Hex16Prefix(t: TypeTags, a: string, b: string, r: seq<Byte>, s: seq<Byte>)
    requires IsHex(a, 32) && IsHex(b, 32)
    requires Hex16(t, a) + r == Hex16(t, b) + s
    ensures a == b && r == s
  {
    DelimitedPrefix(t.bytes, HexDecode(a), HexDecode(b), r, s);
    HexDecodeInjective(a, b);
  }

  lemma Hash32Prefix(a: string, b: string, r: seq<Byte>, s: seq<Byte>)
    requires IsHex(a, 64) && IsHex(b, 64)
    requires Hash32(a) + r == Hash32(b) + s
    ensures a == b && r == s
  {
    CutEqual(Hash32(a), Hash32(b), r, s);
    assert HexDecode(a) == Hash32(a)[1..] == Hash32(b)[1..] == HexDecode(b);
    HexDecodeInjective(a, b);
  }

  lemma {:induction false} HashesPrefix(a: seq<Id>, b: seq<Id>, r: seq<Byte>, s: seq<Byte>)
    requires |a| == |b| && AllIds(a) && AllIds(b)
    requires Hashes(a) + r == Hashes(b) + s
    ensures a == b && r == s
  {
    if a == [] {
      assert Hashes(a) + r == r && Hashes(b) + s == s;
    } else {
      assert a[0] in a && b[0] in b;
      assert Hashes(a) + r == Hash32(a[0]) + (Hashes(a[1..]) + r);
      assert Hashes(b) + s == Hash32(b[0]) + (Hashes(b[1..]) + s);
      Hash32Prefix(a[0], b[0], Hashes(a[1..]) + r, Hashes(b[1..]) + s);
      HashesPrefix(a[1..], b[1..], r, s);
      assert a == [a[0]] + a[1..] && b == [b[0]] + b[1..];
    }
  }

  lemma RefBytesInjective(t: TypeTags, a: seq<Id>, b: seq<Id>)
    requires |a| < U64 && |b| < U64 && AllIds(a) && AllIds(b)
    requires RefBytes(t, a) == RefBytes(t, b)
    ensures a == b
  {
    NumPrefix(t, |a|, |b|, Hashes(a), Hashes(b));
    assert Hashes(a) + [] == Hashes(a) && Hashes(b) + [] == Hashes(b);
    HashesPrefix(a, b, [], []);
  }

  lemma HeadPrefix(t: TypeTags, a: Claim, b: Claim, r: seq<Byte>, s: seq<Byte>)
    requires IsNormal(a) && IsNormal(b) && Fits(a) && Fits(b) && !a.Create? && !b.Create?
    requires Head(t, a, r) == Head(t, b, s)
    ensures a.doc == b.doc && a.nonce == b.nonce && a.ts == b.ts && r == s
  {
    Hash32Prefix(a.doc, b.doc, Hex16(t, a.nonce) + (Str(t, a.ts) + r), Hex16(t, b.nonce) + (Str(t, b.ts) + s));
    Hex16Prefix(t, a.nonce, b.nonce, Str(t, a.ts) + r, Str(t, b.ts) + s);
    StrPrefix(t, a.ts, b.ts, r, s);
  }

  lemma ScopePrefix(t: TypeTags, a: Option<string>, b: Option<string>, r: seq<Byte>, s: seq<Byte>)
    requires a.Some? ==> |Utf8(a.value)| < U64
    requires b.Some? ==> |Utf8(b.value)| < U64
    requires ScopeBytes(t, a, r) == ScopeBytes(t, b, s)
    ensures a == b && r == s
  {
    var x := if a.Some? then Str(t, a.value) + r else r;
    var y := if b.Some? then Str(t, b.value) + s else s;
    NumPrefix(t, if a.Some? then 1 else 0, if b.Some? then 1 else 0, x, y);
    if a.Some? {
      StrPrefix(t, a.value, b.value, r, s);
    }
  }

  lemma FieldsInjective(t: TypeTags, a: Claim, b: Claim)
    requires IsNormal(a) && IsNormal(b) && Fits(a) && Fits(b)
    requires Operation(a) == Operation(b) && Fields(t, a) == Fields(t, b)
    ensures a == b
  {
    NormalRefsAreIds(a);
    NormalRefsAreIds(b);
    match a
    case Create(format, nonce, ts) =>
      NumPrefix(t, format, b.format, Hex16(t, nonce) + Str(t, ts), Hex16(t, b.nonce) + Str(t, b.ts));
      Hex16Prefix(t, nonce, b.nonce, Str(t, ts), Str(t, b.ts));
      assert Str(t, ts) + [] == Str(t, ts) && Str(t, b.ts) + [] == Str(t, b.ts);
      StrPrefix(t, ts, b.ts, [], []);
    case Version(_, _, _, hash, parents) =>
      HeadPrefix(t, a, b, Hash32(hash) + RefBytes(t, parents), Hash32(b.hash) + RefBytes(t, b.parents));
      Hash32Prefix(hash, b.hash, RefBytes(t, parents), RefBytes(t, b.parents));
      RefBytesInjective(t, parents, b.parents);
    case Name(_, _, _, name, supersedes) =>
      HeadPrefix(t, a, b, Str(t, name) + RefBytes(t, supersedes), Str(t, b.name) + RefBytes(t, b.supersedes));
      StrPrefix(t, name, b.name, RefBytes(t, supersedes), RefBytes(t, b.supersedes));
      RefBytesInjective(t, supersedes, b.supersedes);
    case TagAdd(_, _, _, tag, scope, supersedes) =>
      var r, s := RefBytes(t, supersedes), RefBytes(t, b.supersedes);
      HeadPrefix(t, a, b, Str(t, tag) + ScopeBytes(t, scope, r), Str(t, b.tag) + ScopeBytes(t, b.scope, s));
      StrPrefix(t, tag, b.tag, ScopeBytes(t, scope, r), ScopeBytes(t, b.scope, s));
      ScopePrefix(t, scope, b.scope, r, s);
      RefBytesInjective(t, supersedes, b.supersedes);
    case TagRemove(_, _, _, tag, removes) =>
      HeadPrefix(t, a, b, Str(t, tag) + RefBytes(t, removes), Str(t, b.tag) + RefBytes(t, b.removes));
      StrPrefix(t, tag, b.tag, RefBytes(t, removes), RefBytes(t, b.removes));
      RefBytesInjective(t, removes, b.removes);
  }

  /** Two canonical claims with the same identity bytes are the same claim. */
  lemma IdentifyInjective(t: TypeTags, a: Claim, b: Claim)
    requires IsNormal(a) && IsNormal(b) && Fits(a) && Fits(b)
    requires Identify(t, a) == Identify(t, b)
    ensures a == b
  {
    var domain := Str(t, "transfs/claim/v2");
    var x, y := Num(t, Operation(a)) + Fields(t, a), Num(t, Operation(b)) + Fields(t, b);
    CutEqual([67], [67], domain + x, domain + y);
    CutEqual(domain, domain, x, y);
    NumPrefix(t, Operation(a), Operation(b), Fields(t, a), Fields(t, b));
    FieldsInjective(t, a, b);
  }

  // ----- the identity bytes as the format's table lists them -----

  /** One entry of the table, encoded as merkle-champ encodes its type. */
  datatype Item = Number(n: nat) | Text(s: string) | Nonce(hex: string) | Digest(hex: string)

  /** The operation number and the fields after it, in the table's order. */
  ghost function Listed(c: Claim): seq<Item> {
    match c
    case Create(format, nonce, ts) => [Number(0), Number(format), Nonce(nonce), Text(ts)]
    case Version(doc, nonce, ts, hash, parents) =>
      [Number(1), Digest(doc), Nonce(nonce), Text(ts), Digest(hash)] + Set(parents)
    case Name(doc, nonce, ts, name, supersedes) =>
      [Number(2), Digest(doc), Nonce(nonce), Text(ts), Text(name)] + Set(supersedes)
    case TagAdd(doc, nonce, ts, tag, None, supersedes) =>
      [Number(3), Digest(doc), Nonce(nonce), Text(ts), Text(tag), Number(0)] + Set(supersedes)
    case TagAdd(doc, nonce, ts, tag, Some(key), supersedes) =>
      [Number(3), Digest(doc), Nonce(nonce), Text(ts), Text(tag), Number(1), Text(key)] + Set(supersedes)
    case TagRemove(doc, nonce, ts, tag, removes) =>
      [Number(4), Digest(doc), Nonce(nonce), Text(ts), Text(tag)] + Set(removes)
  }

  /** A set of references: how many, and each. */
  ghost function Set(ids: seq<Id>): seq<Item> {
    [Number(|ids|)] + seq(|ids|, i requires 0 <= i < |ids| => Digest(ids[i]))
  }

  ghost predicate Encodable(x: Item) {
    match x
    case Nonce(hex) => IsHex(hex, 32)
    case Digest(hex) => IsHex(hex, 64)
    case _ => true
  }

  /** Strings, byte strings and numbers carry their tag and length; a digest is `#` and its 32 bytes. */
  ghost function Encoded(t: TypeTags, x: Item): seq<Byte>
    requires Encodable(x)
  {
    match x
    case Number(n) => [t.num] + LittleEndian(8, 8) + LittleEndian(n, 8)
    case Text(s) => [t.str] + LittleEndian(|Utf8(s)|, 8) + Utf8(s)
    case Nonce(hex) => [t.bytes] + LittleEndian(16, 8) + HexDecode(hex)
    case Digest(hex) => ['#' as int] + HexDecode(hex)
  }

  ghost function AllEncoded(t: TypeTags, items: seq<Item>): seq<Byte>
    requires forall x | x in items :: Encodable(x)
  {
    if items == [] then [] else Encoded(t, items[0]) + AllEncoded(t, items[1..])
  }

  lemma {:induction false} EncodedAppend(t: TypeTags, a: seq<Item>, b: seq<Item>)
    requires (forall x | x in a :: Encodable(x)) && forall x | x in b :: Encodable(x)
    ensures AllEncoded(t, a + b) == AllEncoded(t, a) + AllEncoded(t, b)
  {
    if a == [] {
      assert a + b == b;
    } else {
      assert (a + b)[1..] == a[1..] + b;
      EncodedAppend(t, a[1..], b);
    }
  }

  lemma {:induction false} SetIsEncoded(t: TypeTags, ids: seq<Id>)
    requires AllIds(ids)
    ensures forall x | x in Set(ids) :: Encodable(x)
    ensures RefBytes(t, ids) == AllEncoded(t, Set(ids))
  {
    assert Set(ids)[1..] == seq(|ids|, i requires 0 <= i < |ids| => Digest(ids[i]));
    DigestsAreEncoded(t, ids);
  }

  lemma {:induction false} DigestsAreEncoded(t: TypeTags, ids: seq<Id>)
    requires AllIds(ids)
    ensures var items := seq(|ids|, i requires 0 <= i < |ids| => Digest(ids[i]));
            (forall x | x in items :: Encodable(x)) && Hashes(ids) == AllEncoded(t, items)
  {
    var items := seq(|ids|, i requires 0 <= i < |ids| => Digest(ids[i]));
    if ids != [] {
      DigestsAreEncoded(t, ids[1..]);
      assert items[1..] == seq(|ids[1..]|, i requires 0 <= i < |ids[1..]| => Digest(ids[1..][i]));
    }
  }

  lemma ConsEncoded(t: TypeTags, x: Item, rest: seq<Item>)
    requires Encodable(x) && forall y | y in rest :: Encodable(y)
    ensures forall y | y in [x] + rest :: Encodable(y)
    ensures AllEncoded(t, [x] + rest) == Encoded(t, x) + AllEncoded(t, rest)
  {
    assert ([x] + rest)[1..] == rest;
  }

  lemma NumberIs(t: TypeTags, n: nat)
    ensures Encoded(t, Number(n)) == Num(t, n)
  {
    assert Encoded(t, Number(n)) == [t.num] + (Le64(8) + Le64(n));
  }

  lemma TextIs(t: TypeTags, s: string)
    ensures Encoded(t, Text(s)) == Str(t, s)
  {
    assert Encoded(t, Text(s)) == [t.str] + (Le64(|Utf8(s)|) + Utf8(s));
  }

  lemma NonceIs(t: TypeTags, s: string)
    requires IsHex(s, 32)
    ensures Encoded(t, Nonce(s)) == Hex16(t, s)
  {
    assert Encoded(t, Nonce(s)) == [t.bytes] + (Le64(16) + HexDecode(s));
  }

  /** The fields every edit starts with, before the rest of its items. */
  lemma HeadIsEncoded(t: TypeTags, c: Claim, rest: seq<Item>)
    requires IsNormal(c) && !c.Create? && forall x | x in rest :: Encodable(x)
    ensures var items := [Number(Operation(c))] + ([Digest(c.doc)] + ([Nonce(c.nonce)] + ([Text(c.ts)] + rest)));
            && (forall x | x in items :: Encodable(x))
            && AllEncoded(t, items) == Num(t, Operation(c)) + Head(t, c, AllEncoded(t, rest))
  {
    hide AllEncoded, Encoded, HexDecode;
    assert IsHex(c.doc, 64) && IsHex(c.nonce, 32);
    var r1 := [Text(c.ts)] + rest;
    var r2 := [Nonce(c.nonce)] + r1;
    var r3 := [Digest(c.doc)] + r2;
    ConsEncoded(t, Text(c.ts), rest);
    ConsEncoded(t, Nonce(c.nonce), r1);
    ConsEncoded(t, Digest(c.doc), r2);
    ConsEncoded(t, Number(Operation(c)), r3);
    TextIs(t, c.ts);
    NonceIs(t, c.nonce);
    DigestIs(t, c.doc);
    NumberIs(t, Operation(c));
  }

  lemma DigestIs(t: TypeTags, s: string)
    requires IsHex(s, 64)
    ensures Encoded(t, Digest(s)) == Hash32(s)
  {
  }

  lemma ScopeIsEncoded(t: TypeTags, scope: Option<string>, rest: seq<Item>)
    requires forall x | x in rest :: Encodable(x)
    ensures var items := match scope
                         case None => [Number(0)] + rest
                         case Some(key) => [Number(1)] + ([Text(key)] + rest);
            (forall x | x in items :: Encodable(x)) && AllEncoded(t, items) == ScopeBytes(t, scope, AllEncoded(t, rest))
  {
    hide AllEncoded, Encoded, Str, Num;
    NumberIs(t, 0);
    NumberIs(t, 1);
    match scope
    case None => ConsEncoded(t, Number(0), rest);
    case Some(key) =>
      TextIs(t, key);
      ConsEncoded(t, Text(key), rest);
      ConsEncoded(t, Number(1), [Text(key)] + rest);
  }

  lemma CreateIsEncoded(t: TypeTags, c: Claim)
    requires IsNormal(c) && c.Create?
    ensures forall x | x in Listed(c) :: Encodable(x)
    ensures Num(t, 0) + Fields(t, c) == AllEncoded(t, Listed(c))
  {
    hide Encoded, HexDecode, Str, Num, Hex16;
    var r0: seq<Item> := [Text(c.ts)];
    var r1 := [Nonce(c.nonce)] + r0;
    var r2 := [Number(c.format)] + r1;
    assert Listed(c) == [Number(0)] + r2 && r0 == [Text(c.ts)] + [];
    ConsEncoded(t, Text(c.ts), []);
    ConsEncoded(t, Nonce(c.nonce), r0);
    ConsEncoded(t, Number(c.format), r1);
    ConsEncoded(t, Number(0), r2);
    NumberIs(t, 0);
    NumberIs(t, c.format);
    NonceIs(t, c.nonce);
    TextIs(t, c.ts);
    hide AllEncoded;
    assert Str(t, c.ts) + [] == Str(t, c.ts);
  }

  lemma EditIsEncoded(t: TypeTags, c: Claim, rest: seq<Item>)
    requires IsNormal(c) && !c.Create? && (forall x | x in rest :: Encodable(x))
    requires Listed(c) == [Number(Operation(c)), Digest(c.doc), Nonce(c.nonce), Text(c.ts)] + rest
    requires Fields(t, c) == Head(t, c, AllEncoded(t, rest))
    ensures forall x | x in Listed(c) :: Encodable(x)
    ensures Num(t, Operation(c)) + Fields(t, c) == AllEncoded(t, Listed(c))
  {
    hide AllEncoded, Fields, Head, Num;
    HeadIsEncoded(t, c, rest);
    assert [Number(Operation(c))] + ([Digest(c.doc)] + ([Nonce(c.nonce)] + ([Text(c.ts)] + rest))) == Listed(c);
  }

  lemma VersionIsEncoded(t: TypeTags, c: Claim)
    requires IsNormal(c) && c.Version? && AllIds(c.parents) && IsHex(c.hash, 64)
    ensures forall x | x in Listed(c) :: Encodable(x)
    ensures Num(t, 1) + Fields(t, c) == AllEncoded(t, Listed(c))
  {
    hide AllEncoded, Encoded, Set, RefBytes, Str, Num, Head, Hash32, IsNormal, Normalized;
    SetIsEncoded(t, c.parents);
    ConsEncoded(t, Digest(c.hash), Set(c.parents));
    DigestIs(t, c.hash);
    EditIsEncoded(t, c, [Digest(c.hash)] + Set(c.parents));
  }

  lemma NameIsEncoded(t: TypeTags, c: Claim)
    requires IsNormal(c) && c.Name? && AllIds(c.supersedes)
    ensures forall x | x in Listed(c) :: Encodable(x)
    ensures Num(t, 2) + Fields(t, c) == AllEncoded(t, Listed(c))
  {
    hide AllEncoded, Encoded, Set, RefBytes, Str, Num, Head, IsNormal, Normalized;
    SetIsEncoded(t, c.supersedes);
    ConsEncoded(t, Text(c.name), Set(c.supersedes));
    TextIs(t, c.name);
    EditIsEncoded(t, c, [Text(c.name)] + Set(c.supersedes));
  }

  lemma TagRemoveIsEncoded(t: TypeTags, c: Claim)
    requires IsNormal(c) && c.TagRemove? && AllIds(c.removes)
    ensures forall x | x in Listed(c) :: Encodable(x)
    ensures Num(t, 4) + Fields(t, c) == AllEncoded(t, Listed(c))
  {
    hide AllEncoded, Encoded, Set, RefBytes, Str, Num, Head, IsNormal, Normalized;
    SetIsEncoded(t, c.removes);
    ConsEncoded(t, Text(c.tag), Set(c.removes));
    TextIs(t, c.tag);
    EditIsEncoded(t, c, [Text(c.tag)] + Set(c.removes));
  }

  lemma TagAddIsEncoded(t: TypeTags, c: Claim)
    requires IsNormal(c) && c.TagAdd? && AllIds(c.supersedes)
    ensures forall x | x in Listed(c) :: Encodable(x)
    ensures Num(t, 3) + Fields(t, c) == AllEncoded(t, Listed(c))
  {
    hide AllEncoded, Encoded, Set, RefBytes, ScopeBytes, Str, Num, Head, IsNormal, Normalized;
    SetIsEncoded(t, c.supersedes);
    ScopeIsEncoded(t, c.scope, Set(c.supersedes));
    var rest := match c.scope
                case None => [Number(0)] + Set(c.supersedes)
                case Some(key) => [Number(1)] + ([Text(key)] + Set(c.supersedes));
    ConsEncoded(t, Text(c.tag), rest);
    TextIs(t, c.tag);
    assert Listed(c) == [Number(3), Digest(c.doc), Nonce(c.nonce), Text(c.ts)] + ([Text(c.tag)] + rest);
    EditIsEncoded(t, c, [Text(c.tag)] + rest);
  }

  lemma OperationIsEncoded(t: TypeTags, c: Claim)
    requires IsNormal(c)
    ensures forall x | x in Listed(c) :: Encodable(x)
    ensures Num(t, Operation(c)) + Fields(t, c) == AllEncoded(t, Listed(c))
  {
    NormalRefsAreIds(c);
    assert c.Version? ==> IsHex(c.hash, 64);
    hide AllEncoded, Fields, Num, Listed, Encodable, IsNormal, Normalized;
    match c
    case Create(_, _, _) => CreateIsEncoded(t, c);
    case Version(_, _, _, _, _) => VersionIsEncoded(t, c);
    case Name(_, _, _, _, _) => NameIsEncoded(t, c);
    case TagAdd(_, _, _, _, _, _) => TagAddIsEncoded(t, c);
    case TagRemove(_, _, _, _, _) => TagRemoveIsEncoded(t, c);
  }

  /** The identity bytes are the type mark `C`, the domain, and the table's items. */
  lemma IdentifyFollowsTheTable(t: TypeTags, c: Claim)
    requires IsNormal(c)
    ensures forall x | x in Listed(c) :: Encodable(x)
    ensures Identify(t, c) == ['C' as int] + Encoded(t, Text("transfs/claim/v2")) + AllEncoded(t, Listed(c))
  {
    hide *;
    OperationIsEncoded(t, c);
    TextIs(t, "transfs/claim/v2");
    IdentifyParts(t, c);
    Regroup([67], Str(t, "transfs/claim/v2"), AllEncoded(t, Listed(c)));
  }

  lemma IdentifyParts(t: TypeTags, c: Claim)
    requires IsNormal(c)
    ensures Identify(t, c) == ['C' as int] + (Str(t, "transfs/claim/v2") + (Num(t, Operation(c)) + Fields(t, c)))
  {
    hide Str, Num, Fields, IsNormal, Utf8, Operation;
  }

  lemma Regroup(x: seq<Byte>, y: seq<Byte>, z: seq<Byte>)
    ensures x + y + z == x + (y + z)
  {
  }
}
