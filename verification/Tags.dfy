/** Tag paths: `normalize_tag`, its checked form, and the ancestor relation on paths. */
module Tags {
  import opened Wrappers

  /** `str::split('/')`: always at least one part. */
  function Split(s: string): (parts: seq<string>)
    ensures |parts| >= 1
    ensures forall p | p in parts :: '/' !in p && forall c | c in p :: c in s
  {
    if s == [] then [[]]
    else
      var rest := Split(s[1..]);
      assert s == [s[0]] + s[1..];
      if s[0] == '/' then
        [[]] + rest
      else
        assert rest[0] in rest;
        assert forall p | p in rest[1..] :: p in rest;
        [[s[0]] + rest[0]] + rest[1..]
  }

  /** `join("/")`. */
  function Join(parts: seq<string>): string {
    if parts == [] then []
    else if |parts| == 1 then parts[0]
    else parts[0] + "/" + Join(parts[1..])
  }

  /** `replace('=', "/")`. */
  function Slashed(s: string): (r: string)
    ensures '=' !in r
    ensures '=' !in s ==> r == s
  {
    if s == [] then []
    else [if s[0] == '=' then '/' else s[0]] + Slashed(s[1..])
  }

  function NonEmpty(parts: seq<string>): (r: seq<string>)
    ensures forall p | p in r :: p != [] && p in parts
  {
    if parts == [] then []
    else if parts[0] == [] then NonEmpty(parts[1..])
    else [parts[0]] + NonEmpty(parts[1..])
  }

  function Segments(tag: string): seq<string> {
    NonEmpty(Split(Slashed(tag)))
  }

  function NormalizeTag(tag: string): string {
    Join(Segments(tag))
  }

  /** One path segment: not empty and free of both separators. */
  predicate IsSegment(p: string) {
    p != [] && '/' !in p && '=' !in p
  }

  /** The checked form claims carry: nothing for an empty, NUL or dot path. */
  function CheckedTag(tag: string): Option<string> {
    var t := NormalizeTag(tag);
    if t == [] || '\0' in t || (exists p | p in Split(t) :: p == "." || p == "..") then None
    else Some(t)
  }

  /** `path.strip_prefix(prefix)` leaves a suffix that starts with '/'. */
  predicate IsDescendant(prefix: string, path: string) {
    |prefix| < |path| && path[..|prefix|] == prefix && path[|prefix|] == '/'
  }

  lemma DescendantTransitive(a: string, b: string, c: string)
    requires IsDescendant(a, b) && IsDescendant(b, c)
    ensures IsDescendant(a, c)
  {
    assert c[..|a|] == c[..|b|][..|a|];
    assert c[|a|] == c[..|b|][|a|];
  }

  lemma {:induction false} NonEmptyKeepsAll(parts: seq<string>)
    requires forall p | p in parts :: p != []
    ensures NonEmpty(parts) == parts
  {
    if parts != [] {
      assert parts[0] in parts;
      assert forall p | p in parts[1..] :: p in parts;
      NonEmptyKeepsAll(parts[1..]);
      assert parts == [parts[0]] + parts[1..];
    }
  }

  lemma {:induction false} SplitOfPart(p: string)
    requires '/' !in p
    ensures Split(p) == [p]
  {
    if p != [] {
      SplitOfPart(p[1..]);
      assert p == [p[0]] + p[1..];
    }
  }

  lemma {:induction false} SplitAtSlash(p: string, rest: string)
    requires '/' !in p
    ensures Split(p + "/" + rest) == [p] + Split(rest)
  {
    var s := p + "/" + rest;
    if p == [] {
      assert s[0] == '/' && s[1..] == rest;
    } else {
      SplitAtSlash(p[1..], rest);
      assert s[1..] == p[1..] + "/" + rest;
      assert p == [p[0]] + p[1..];
    }
  }

  /** Splitting undoes joining. */
  lemma {:induction false} SplitJoin(parts: seq<string>)
    requires parts != [] && forall p | p in parts :: '/' !in p
    ensures Split(Join(parts)) == parts
  {
    if |parts| == 1 {
      SplitOfPart(parts[0]);
    } else {
      SplitAtSlash(parts[0], Join(parts[1..]));
      SplitJoin(parts[1..]);
    }
  }

  lemma {:induction false} JoinHasNoEquals(parts: seq<string>)
    requires forall p | p in parts :: '=' !in p
    ensures '=' !in Join(parts)
  {
    if |parts| > 1 {
      JoinHasNoEquals(parts[1..]);
    }
  }

  lemma SegmentsAreSegments(tag: string)
    ensures forall p | p in Segments(tag) :: IsSegment(p)
  {
  }

  /** A joined list of segments has exactly those segments. */
  lemma SegmentsOfJoin(parts: seq<string>)
    requires forall p | p in parts :: IsSegment(p)
    ensures Segments(Join(parts)) == parts
  {
    JoinHasNoEquals(parts);
    if parts != [] {
      SplitJoin(parts);
      NonEmptyKeepsAll(parts);
    }
  }

  lemma NormalizeIdempotent(tag: string)
    ensures NormalizeTag(NormalizeTag(tag)) == NormalizeTag(tag)
  {
    SegmentsAreSegments(tag);
    SegmentsOfJoin(Segments(tag));
  }

  lemma {:induction false} JoinAppend(a: seq<string>, b: seq<string>)
    requires a != [] && b != []
    ensures Join(a + b) == Join(a) + "/" + Join(b)
  {
    if |a| == 1 {
      assert (a + b)[1..] == b;
    } else {
      JoinAppend(a[1..], b);
      assert (a + b)[1..] == a[1..] + b;
    }
  }

  /** Two normalized paths joined by a slash are normalized, with the segments of both. */
  lemma NormalizeExtend(key: string, value: string)
    requires NormalizeTag(key) == key != [] && NormalizeTag(value) == value != []
    ensures Segments(key + "/" + value) == Segments(key) + Segments(value)
    ensures NormalizeTag(key + "/" + value) == key + "/" + value
  {
    var parts := Segments(key) + Segments(value);
    SegmentsAreSegments(key);
    SegmentsAreSegments(value);
    JoinAppend(Segments(key), Segments(value));
    SegmentsOfJoin(parts);
  }

  /** `set` accepts a key and value exactly when each is a legal tag path. */
  lemma CheckedExtend(key: string, value: string)
    requires NormalizeTag(key) == key != [] && NormalizeTag(value) == value != []
    ensures CheckedTag(key + "/" + value).Some? <==> CheckedTag(key).Some? && CheckedTag(value).Some?
    ensures CheckedTag(key + "/" + value).Some? ==> CheckedTag(key + "/" + value).value == key + "/" + value
  {
    var tag := key + "/" + value;
    NormalizeExtend(key, value);
    SplitOfNormal(key);
    SplitOfNormal(value);
    SplitOfNormal(tag);
    var a, b := Segments(key), Segments(value);
    assert forall p :: p in a + b <==> p in a || p in b;
    assert '\0' in tag <==> '\0' in key || '\0' in value;
  }

  lemma SplitOfNormal(tag: string)
    requires NormalizeTag(tag) == tag != []
    ensures Split(tag) == Segments(tag)
  {
    SegmentsAreSegments(tag);
    SplitJoin(Segments(tag));
  }

  /** A tag path as documents show it: nonempty parts between single slashes, none of them a dot name. */
  ghost predicate IsPath(p: string) {
    '=' !in p && '\0' !in p && forall part | part in Split(p) :: part != "" && part != "." && part != ".."
  }

  lemma {:induction false} JoinSplit(s: string)
    ensures Join(Split(s)) == s
  {
    if s != [] {
      var rest := Split(s[1..]);
      JoinSplit(s[1..]);
      assert s == [s[0]] + s[1..];
      if s[0] == '/' {
        assert ([[]] + rest)[1..] == rest;
      } else {
        assert ([[s[0]] + rest[0]] + rest[1..])[1..] == rest[1..];
      }
    }
  }

  /** The checked form leaves exactly the tag paths alone. */
  lemma CheckedMeansPath(p: string)
    ensures CheckedTag(p) == Some(p) <==> IsPath(p)
  {
    if IsPath(p) {
      NonEmptyKeepsAll(Split(p));
      JoinSplit(p);
      assert p == "" ==> "" in Split(p);
    }
    if CheckedTag(p) == Some(p) {
      SplitOfNormal(p);
      SegmentsAreSegments(p);
      JoinHasNoEquals(Segments(p));
    }
  }

  // ----- what the definitions mean, on the text itself -----

  lemma DescendantMeans(prefix: string, path: string)
    ensures IsDescendant(prefix, path) <==> prefix + "/" <= path
  {
    if prefix + "/" <= path {
      assert path[..|prefix|] == (prefix + "/")[..|prefix|];
      assert path[|prefix|] == (prefix + "/")[|prefix|];
    }
  }

  lemma {:induction false} SlashedAround(a: string, c: char, b: string)
    ensures Slashed(a + [c] + b) == Slashed(a) + [if c == '=' then '/' else c] + Slashed(b)
  {
    var s := a + [c] + b;
    if a == [] {
      assert s[1..] == b;
    } else {
      assert s[1..] == a[1..] + [c] + b;
      SlashedAround(a[1..], c, b);
    }
  }

  lemma {:induction false} SplitAround(a: string, b: string)
    ensures Split(a + "/" + b) == Split(a) + Split(b)
  {
    var s := a + "/" + b;
    if a == [] {
      assert s[0] == '/' && s[1..] == b;
    } else {
      assert s[1..] == a[1..] + "/" + b;
      SplitAround(a[1..], b);
    }
  }

  lemma {:induction false} NonEmptyAppend(a: seq<string>, b: seq<string>)
    ensures NonEmpty(a + b) == NonEmpty(a) + NonEmpty(b)
  {
    if a == [] {
      assert a + b == b;
    } else {
      assert (a + b)[1..] == a[1..] + b;
      NonEmptyAppend(a[1..], b);
    }
  }

  /** Either separator cuts a tag in two, and empty parts vanish: with `NormalizePlain` this fixes the path form. */
  lemma NormalizeCuts(a: string, c: char, b: string)
    requires c == '/' || c == '='
    ensures NormalizeTag(a + [c] + b) ==
            if NormalizeTag(a) == "" then NormalizeTag(b)
            else if NormalizeTag(b) == "" then NormalizeTag(a)
            else NormalizeTag(a) + "/" + NormalizeTag(b)
  {
    SlashedAround(a, c, b);
    SplitAround(Slashed(a), Slashed(b));
    NonEmptyAppend(Split(Slashed(a)), Split(Slashed(b)));
    assert Segments(a + [c] + b) == Segments(a) + Segments(b);
    EmptyPath(a);
    EmptyPath(b);
    if Segments(a) == [] {
      assert Segments(a) + Segments(b) == Segments(b);
    } else if Segments(b) == [] {
      assert Segments(a) + Segments(b) == Segments(a);
    } else {
      JoinAppend(Segments(a), Segments(b));
    }
  }

  lemma EmptyPath(tag: string)
    ensures NormalizeTag(tag) == "" <==> Segments(tag) == []
  {
    SegmentsAreSegments(tag);
    var parts := Segments(tag);
    assert parts != [] ==> IsSegment(parts[0]);
  }

  /** Text without separators is its own path. */
  lemma NormalizePlain(p: string)
    requires '/' !in p && '=' !in p
    ensures NormalizeTag(p) == p
  {
    SplitOfPart(p);
    assert Slashed(p) == p && NonEmpty([p]) == if p == "" then [] else [p];
  }

  /** The checked form is the path form, when that is a path. */
  lemma CheckedMeans(tag: string)
    ensures CheckedTag(tag) == if IsPath(NormalizeTag(tag)) then Some(NormalizeTag(tag)) else None
  {
    NormalizeIdempotent(tag);
    CheckedMeansPath(NormalizeTag(tag));
  }
}
