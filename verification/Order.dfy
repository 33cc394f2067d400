/**
 The order of Rust's `String` keys, and the ascending listings that `BTreeMap` and
 `BTreeSet` iteration, `sort` and `dedup` produce.
 */
module Order {

  /** Lexicographic order. On UTF-8 text, byte order and code point order agree. */
  predicate Less(a: string, b: string) {
    if b == [] then false
    else if a == [] then true
    else if a[0] == b[0] then Less(a[1..], b[1..])
    else a[0] < b[0]
  }

  lemma {:induction false} LessTransitive(a: string, b: string, c: string)
    requires Less(a, b) && Less(b, c)
    ensures Less(a, c)
  {
    if a != [] && a[0] == b[0] && b[0] == c[0] {
      LessTransitive(a[1..], b[1..], c[1..]);
    }
  }

  lemma {:induction false} LessTrichotomy(a: string, b: string)
    ensures Less(a, b) || a == b || Less(b, a)
    ensures !(Less(a, b) && Less(b, a))
    ensures !Less(a, a)
  {
    if a != [] {
      LessTrichotomy(a[1..], a[1..]);
      if b != [] && a[0] == b[0] {
        LessTrichotomy(a[1..], b[1..]);
        assert a == [a[0]] + a[1..] && b == [b[0]] + b[1..];
      }
    }
  }

  ghost predicate IsLeast(m: string, s: set<string>) {
    m in s && forall x | x in s :: x == m || Less(m, x)
  }

  lemma {:induction false} LeastExists(s: set<string>)
    requires s != {}
    ensures exists m :: IsLeast(m, s)
  {
    var x :| x in s;
    if s == {x} {
      assert IsLeast(x, s);
    } else {
      LeastExists(s - {x});
      var m :| IsLeast(m, s - {x});
      LessTrichotomy(x, m);
      if Less(m, x) {
        assert IsLeast(m, s);
      } else {
        forall y | y in s && y != x ensures Less(x, y) {
          if y != m { LessTransitive(x, m, y); }
        }
        assert IsLeast(x, s);
      }
    }
  }

  lemma LeastIsUnique(s: set<string>, m: string, n: string)
    requires IsLeast(m, s) && IsLeast(n, s)
    ensures m == n
  {
    LessTrichotomy(m, n);
  }

  ghost function Least(s: set<string>): (m: string)
    requires s != {}
    ensures IsLeast(m, s)
  {
    LeastExists(s);
    var m :| IsLeast(m, s);
    m
  }

  /** `BTreeSet::pop_first`. */
  method PopFirst(s: set<string>) returns (m: string, rest: set<string>)
    requires s != {}
    ensures m == Least(s) && rest == s - {m}
  {
    LeastExists(s);
    m :| m in s && forall x | x in s :: x == m || Less(m, x);
    LeastIsUnique(s, m, Least(s));
    rest := s - {m};
  }

  ghost predicate Ascending(s: seq<string>) {
    forall i, j | 0 <= i < j < |s| :: Less(s[i], s[j])
  }

  /** The keys of a `BTreeMap` in iteration order. */
  ghost function Listing(s: set<string>): seq<string> {
    if s == {} then [] else [Least(s)] + Listing(s - {Least(s)})
  }

  lemma {:induction false} ListingLists(s: set<string>)
    ensures Ascending(Listing(s))
    ensures forall x :: x in Listing(s) <==> x in s
    ensures |Listing(s)| == |s|
  {
    hide Less;
    if s != {} { ListingLists(s - {Least(s)}); }
  }

  /** A listing is the only ascending sequence with its members. */
  lemma ListingIs(s: set<string>, r: seq<string>)
    requires Ascending(r) && forall x :: x in r <==> x in s
    ensures Listing(s) == r
  {
    ListingLists(s);
    AscendingUnique(r, Listing(s));
  }

  /** Collecting a `BTreeMap`'s keys in iteration order. */
  method Iterate(s: set<string>) returns (r: seq<string>)
    ensures r == Listing(s)
  {
    var rest := s;
    r := [];
    while rest != {}
      invariant rest <= s
      invariant Ascending(r)
      invariant forall x :: x in r <==> x in s - rest
      invariant forall x, y | x in r && y in rest :: Less(x, y)
      decreases rest
    {
      var m;
      m, rest := PopFirst(rest);
      r := r + [m];
    }
    ListingIs(s, r);
  }

  /** An ascending sequence is determined by its members. */
  lemma {:induction false} AscendingUnique(a: seq<string>, b: seq<string>)
    requires Ascending(a) && Ascending(b)
    requires forall x :: x in a <==> x in b
    ensures a == b
  {
    assert a != [] ==> a[0] in a;
    assert b != [] ==> b[0] in b;
    if a != [] {
      assert a[0] in b;
      assert b[0] in a;
      var i :| 0 <= i < |b| && b[i] == a[0];
      var j :| 0 <= j < |a| && a[j] == b[0];
      LessTrichotomy(a[0], b[0]);
      assert a[0] == b[0];
      forall x ensures x in a[1..] <==> x in b[1..] {
        TailMembers(a, x);
        TailMembers(b, x);
      }
      AscendingUnique(a[1..], b[1..]);
      assert a == [a[0]] + a[1..] && b == [b[0]] + b[1..];
    }
  }

  lemma TailMembers(a: seq<string>, x: string)
    requires a != [] && Ascending(a)
    ensures x in a[1..] <==> x in a && x != a[0]
  {
    LessTrichotomy(a[0], a[0]);
    assert a == [a[0]] + a[1..];
  }

  lemma {:induction false} AscendingHasNoDuplicates(a: seq<string>, i: nat, j: nat)
    requires Ascending(a) && i < |a| && j < |a| && a[i] == a[j]
    ensures i == j
  {
    LessTrichotomy(a[i], a[j]);
  }

  /** `sort` followed by `dedup`: insertion keeps the result ascending and drops repeats. */
  function SortDedup(ids: seq<string>): (r: seq<string>)
    ensures Ascending(r)
    ensures forall x :: x in r <==> x in ids
  {
    if ids == [] then [] else InsertSorted(ids[0], SortDedup(ids[1..]))
  }

  function InsertSorted(x: string, s: seq<string>): (r: seq<string>)
    requires Ascending(s)
    ensures Ascending(r)
    ensures forall y :: y in r <==> y == x || y in s
  {
    if s == [] then [x]
    else if x == s[0] then s
    else if Less(x, s[0]) then
      assert forall i | 0 <= i < |s| :: Less(x, s[i]) by {
        forall i | 0 <= i < |s| ensures Less(x, s[i]) {
          if i > 0 { LessTransitive(x, s[0], s[i]); }
        }
      }
      [x] + s
    else
      LessTrichotomy(x, s[0]);
      assert s == [s[0]] + s[1..];
      var rest := InsertSorted(x, s[1..]);
      assert forall i | 0 <= i < |rest| :: Less(s[0], rest[i]) by {
        forall i | 0 <= i < |rest| ensures Less(s[0], rest[i]) {
          assert rest[i] in rest;
        }
      }
      [s[0]] + rest
  }

  /** Reordering or repeating references changes nothing. */
  lemma SortDedupDependsOnMembersOnly(a: seq<string>, b: seq<string>)
    requires forall x :: x in a <==> x in b
    ensures SortDedup(a) == SortDedup(b)
  {
    AscendingUnique(SortDedup(a), SortDedup(b));
  }

  lemma SortDedupFixesAscending(a: seq<string>)
    requires Ascending(a)
    ensures SortDedup(a) == a
  {
    AscendingUnique(SortDedup(a), a);
  }

  /** The first position that differs decides; a proper prefix comes first. */
  lemma {:induction false} LessMeans(a: string, b: string)
    ensures Less(a, b) <==> a < b || exists i :: 0 <= i < |a| && i < |b| && a[..i] == b[..i] && a[i] < b[i]
  {
    if a == [] || b == [] {
    } else if a[0] != b[0] {
      assert Less(a, b) ==> a[..0] == b[..0] && a[0] < b[0];
      if i :| 0 < i < |a| && i < |b| && a[..i] == b[..i] && a[i] < b[i] {
        SameHead(a, b, i);
        assert false;
      }
    } else {
      LessMeans(a[1..], b[1..]);
      LessTails(a, b);
    }
  }

  lemma SameHead(a: string, b: string, i: nat)
    requires 0 < i < |a| && i < |b| && a[..i] == b[..i]
    ensures a[0] == b[0]
  {
    assert a[..i][0] == a[0] && b[..i][0] == b[0];
  }

  lemma LessTails(a: string, b: string)
    requires a != [] && b != [] && a[0] == b[0]
    ensures a < b <==> a[1..] < b[1..]
    ensures (exists i :: 0 <= i < |a| && i < |b| && a[..i] == b[..i] && a[i] < b[i]) <==>
            exists i :: 0 <= i < |a[1..]| && i < |b[1..]| && a[1..][..i] == b[1..][..i] && a[1..][i] < b[1..][i]
  {
    assert a == [a[0]] + a[1..] && b == [b[0]] + b[1..];
    if i :| 0 <= i < |a| && i < |b| && a[..i] == b[..i] && a[i] < b[i] {
      assert i > 0;
      assert a[1..][..i - 1] == a[..i][1..] && b[1..][..i - 1] == b[..i][1..];
      assert a[1..][i - 1] < b[1..][i - 1];
    }
    if i :| 0 <= i < |a[1..]| && i < |b[1..]| && a[1..][..i] == b[1..][..i] && a[1..][i] < b[1..][i] {
      assert a[..i + 1] == [a[0]] + a[1..][..i] && b[..i + 1] == [b[0]] + b[1..][..i];
      assert a[i + 1] < b[i + 1];
    }
  }
}
