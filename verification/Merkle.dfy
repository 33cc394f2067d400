/** Content-addressed objects. An object stands for its own identity: equal identities, equal objects. */
module Merkle {
  import opened Bytes

  /** A chunk's bytes, or a node that names its children by identity. */
  datatype Object = Blob(bytes: seq<Byte>) | Node(data: seq<Byte>, kids: seq<Object>)

  function Kids(o: Object): seq<Object> {
    if o.Node? then o.kids else []
  }

  /** Everything reachable from an object, itself included. */
  function Reachable(o: Object): set<Object> {
    match o
    case Blob(_) => {o}
    case Node(_, kids) => {o} + set k, x | k in kids && x in Reachable(k) :: x
  }

  /** A stored node has its children stored. */
  predicate Closed(objects: set<Object>) {
    forall o, k | o in objects && k in Kids(o) :: k in objects
  }

  /** `to` can be reached from `from` without leaving `within`. */
  predicate ReachesWithin(within: set<Object>, from: Object, to: Object)
    decreases from
  {
    from in within && (from == to || exists k :: k in Kids(from) && ReachesWithin(within, k, to))
  }

  /** What the pack format demands of its members. */
  predicate RootedAt(root: Object, members: set<Object>) {
    forall o | o in members :: ReachesWithin(members, root, o)
  }

  /** A closed set holds everything reachable from its members. */
  lemma {:induction false} ClosedHoldsReachable(objects: set<Object>, o: Object)
    requires Closed(objects) && o in objects
    ensures Reachable(o) <= objects
    decreases o
  {
    if o.Node? {
      forall x | x in Reachable(o) ensures x in objects {
        if x != o {
          var k :| k in o.kids && x in Reachable(k);
          assert k in Kids(o);
          ClosedHoldsReachable(objects, k);
        }
      }
    }
  }

  lemma {:induction false} ReachableIsClosed(o: Object)
    ensures Closed(Reachable(o))
    decreases o
  {
    if o.Node? {
      forall x, k | x in Reachable(o) && k in Kids(x) ensures k in Reachable(o) {
        if x == o {
          ReachableSelf(k);
        } else {
          var kid :| kid in o.kids && x in Reachable(kid);
          ReachableIsClosed(kid);
          assert k in Reachable(kid);
        }
      }
    }
  }

  lemma ReachableSelf(o: Object)
    ensures o in Reachable(o)
  {
  }

  /** Objects a closed store lacks are reachable through objects it lacks: no path to them enters the store. */
  lemma {:induction false} NewObjectsAreConnected(prior: set<Object>, added: set<Object>, from: Object, to: Object)
    requires Closed(prior) && Reachable(from) - prior <= added
    requires to in Reachable(from) && to !in prior
    ensures ReachesWithin(added, from, to)
    decreases from
  {
    ReachableSelf(from);
    if from in prior {
      ClosedHoldsReachable(prior, from);
    } else if from != to {
      var k :| k in from.kids && to in Reachable(k);
      assert Reachable(k) <= Reachable(from) by {
        ReachableIsClosed(from);
        ReachableSelf(from);
        assert k in Kids(from);
        ClosedHoldsReachable(Reachable(from), k);
      }
      NewObjectsAreConnected(prior, added, k, to);
    }
  }

  /** The pack of new objects is rooted at its root, and contains it unless there is nothing new. */
  lemma NewObjectsAreRooted(prior: set<Object>, root: Object)
    requires Closed(prior)
    ensures RootedAt(root, Reachable(root) - prior)
    ensures Reachable(root) - prior != {} <==> root !in prior
    ensures Closed(prior + Reachable(root))
  {
    var added := Reachable(root) - prior;
    forall o | o in added ensures ReachesWithin(added, root, o) {
      NewObjectsAreConnected(prior, added, root, o);
    }
    ReachableSelf(root);
    ReachableIsClosed(root);
    if root in prior {
      ClosedHoldsReachable(prior, root);
      assert added == {};
    } else {
      assert root in added;
    }
  }

  // ----- rooted packs, member by member -----

  /** Every member but the root is named by another member. */
  predicate HasParents(root: Object, members: set<Object>) {
    forall o | o in members && o != root :: exists p :: p in members && o in Kids(p)
  }

  lemma {:induction false} ReachableIsBelow(o: Object, x: Object)
    requires x in Reachable(o)
    ensures x == o || x < o
    decreases o
  {
    if x != o {
      var k :| k in o.kids && x in Reachable(k);
      ReachableIsBelow(k, x);
    }
  }

  lemma ParentReachesMore(p: Object, o: Object)
    requires o in Kids(p)
    ensures Reachable(o) < Reachable(p) && p !in Reachable(o)
  {
    ReachableSelf(p);
    assert o < p;
    if p in Reachable(o) {
      ReachableIsBelow(o, p);
    }
    assert Reachable(o) <= Reachable(p);
  }

  lemma {:induction false} EdgeAppended(within: set<Object>, from: Object, p: Object, to: Object)
    requires ReachesWithin(within, from, p) && to in Kids(p) && to in within
    ensures ReachesWithin(within, from, to)
    decreases from
  {
    if from == p {
      assert ReachesWithin(within, to, to);
    } else {
      var k :| k in Kids(from) && ReachesWithin(within, k, p);
      EdgeAppended(within, k, p, to);
    }
  }

  lemma {:induction false} LastEdge(within: set<Object>, from: Object, to: Object) returns (p: Object)
    requires ReachesWithin(within, from, to) && from != to
    ensures p in within && to in Kids(p)
    decreases from
  {
    var k :| k in Kids(from) && ReachesWithin(within, k, to);
    if k == to {
      p := from;
    } else {
      p := LastEdge(within, k, to);
    }
  }

  lemma {:induction false} ClimbsToRoot(root: Object, members: set<Object>, o: Object)
    requires members <= Reachable(root) && HasParents(root, members) && o in members
    ensures ReachesWithin(members, root, o)
    decreases Reachable(root) - Reachable(o)
  {
    ReachableIsClosed(root);
    if o != root {
      var p :| p in members && o in Kids(p);
      ParentReachesMore(p, o);
      ClosedHoldsReachable(Reachable(root), p);
      ReachableSelf(p);
      assert p in Reachable(root) - Reachable(o);
      ClimbsToRoot(root, members, p);
      EdgeAppended(members, root, p, o);
    }
  }

  /** Objects of one tree form a rooted pack exactly when each but the root has a parent among them. */
  lemma RootedMeansParents(root: Object, members: set<Object>)
    requires members <= Reachable(root)
    ensures RootedAt(root, members) <==> HasParents(root, members)
  {
    if RootedAt(root, members) {
      forall o | o in members && o != root ensures exists p :: p in members && o in Kids(p) {
        var _ := LastEdge(members, root, o);
      }
    }
    if HasParents(root, members) {
      forall o | o in members ensures ReachesWithin(members, root, o) {
        ClimbsToRoot(root, members, o);
      }
    }
  }
}
