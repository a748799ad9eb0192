/** Breadth-first traversal of a container and everything nested in it. */
module ContainerIteration {
  import opened Wrappers
  import opened ItemForest

  /** The contents of some containers, one after the other. */
  ghost function Level(xs: seq<Item>): seq<Item>
    reads xs
  {
    if xs == [] then [] else xs[0].itemlist + Level(xs[1..])
  }

  /** Everything inside `c`, at any depth. */
  ghost function Inside(c: Item, S: set<Item>): set<Item>
    reads S
  {
    set i | i in S && c in i.anc
  }

  /** What a cursor has still to read of the containers it holds. */
  ghost function Pending(over: seq<Item>, cur: nat): seq<Item>
    reads over
  {
    if over == [] || cur > |over[0].itemlist| then [] else over[0].itemlist[cur..] + Level(over[1..])
  }

  /** The cursor: containers still to be read, and a position in the first of them. */
  class ContainerIterator {
    var over: seq<Item>
    var cur: nat
    const root: Item
    ghost var visited: seq<Item>

    /** `Container::iterator` */
    constructor (c: Item, ghost S: set<Item>)
      requires Linked(S) && c in S
      ensures Valid(S) && root == c && visited == []
    {
      root := c;
      over := if c.itemlist == [] then [] else [c];
      cur := 0;
      visited := [];
      new;
      assert Level([c]) == c.itemlist;
      assert [] + Pending(over, cur) == Level([root] + visited);
    }

    /** What was visited, then what the cursor still holds, is the contents of the root
        followed by the contents of everything visited, in that order. */
    ghost predicate Valid(S: set<Item>)
      reads this, S
    {
      && Linked(S) && root in S && (forall k :: 0 <= k < |over| ==> over[k] in S && over[k].itemlist != [])
      && (forall k :: 0 <= k < |visited| ==> visited[k] in S)
      && (over != [] ==> cur < |over[0].itemlist|)
      && visited + Pending(over, cur) == Level([root] + visited)
    }

    predicate HasNext()
      reads this
    {
      over != []
    }

    /** `operator*` */
    function Current(ghost S: set<Item>): (item: Item)
      requires Valid(S) && HasNext()
      reads this, S
      ensures item in S && item == Pending(over, cur)[0]
    {
      assert over[0].LinkedAt(S);
      over[0].itemlist[cur]
    }

    /** `advance` */
    method Advance(ghost S: set<Item>)
      requires Valid(S) && HasNext()
      modifies this
      ensures Valid(S) && visited == old(visited) + [old(Current(S))]
    {
      var i := Current(S);
      var queue, next := Successor(i, S);
      VisitStep(root, visited, Pending(over, cur), Pending(queue, next), i);
      over, cur, visited := queue, next, visited + [i];
    }

    /** The two fields of the cursor after a step over `i`. */
    method Successor(i: Item, ghost S: set<Item>) returns (queue: seq<Item>, next: nat)
      requires over != [] && cur < |over[0].itemlist| && over[0].itemlist[cur] == i && i in S
      requires forall k :: 0 <= k < |over| ==> over[k] in S && over[k].itemlist != []
      ensures forall k :: 0 <= k < |queue| ==> queue[k] in S && queue[k].itemlist != []
      ensures queue != [] ==> next < |queue[0].itemlist|
      ensures Pending(queue, next) == Pending(over, cur)[1..] + i.itemlist
    {
      queue, next := over, cur + 1;
      if i.itemlist != [] {
        PendingPush(over, cur, i);
        queue := over + [i];
      } else {
        PendingSkip(over, cur);
      }
      if next == |queue[0].itemlist| {
        PendingPop(queue);
        queue, next := queue[1..], 0;
      }
    }
  }

  lemma VisitStep(root: Item, visited: seq<Item>, pending: seq<Item>, after: seq<Item>, i: Item)
    requires visited + pending == Level([root] + visited)
    requires pending != [] && pending[0] == i && after == pending[1..] + i.itemlist
    ensures visited + [i] + after == Level([root] + (visited + [i]))
  {
    LevelConcat([root] + visited, [i]);
    assert [root] + (visited + [i]) == [root] + visited + [i];
  }

  /** Stepping over an item and queueing it moves its contents to the end of what is pending. */
  lemma PendingPush(over: seq<Item>, cur: nat, i: Item)
    requires over != [] && cur < |over[0].itemlist| && over[0].itemlist[cur] == i
    ensures Pending(over + [i], cur + 1) == Pending(over, cur)[1..] + i.itemlist
  {
    var p, later := over[0].itemlist, over[1..];
    LevelConcat(later, [i]);
    assert (over + [i])[1..] == later + [i];
    PushSplit(p[cur + 1..], Level(later), i.itemlist);
    assert p[cur..][1..] == p[cur + 1..];
  }

  lemma PushSplit(p: seq<Item>, l: seq<Item>, c: seq<Item>)
    ensures p + (l + c) == (p + l) + c
  {
  }

  /** As `PendingPush` for an item with nothing in it, which is not queued. */
  lemma PendingSkip(over: seq<Item>, cur: nat)
    requires over != [] && cur < |over[0].itemlist|
    ensures Pending(over, cur + 1) == Pending(over, cur)[1..]
  {
    assert over[0].itemlist[cur..][1..] == over[0].itemlist[cur + 1..];
  }

  /** A container that has been read to its end can leave the queue. */
  lemma PendingPop(over: seq<Item>)
    requires over != []
    ensures Pending(over[1..], 0) == Pending(over, |over[0].itemlist|)
  {
    if over[1..] != [] {
      assert over[1..][0].itemlist[0..] == over[1..][0].itemlist;
    }
  }

  lemma {:induction false} LevelConcat(a: seq<Item>, b: seq<Item>)
    ensures Level(a + b) == Level(a) + Level(b)
  {
    if a == [] {
      assert a + b == b;
    } else {
      assert (a + b)[1..] == a[1..] + b;
      LevelConcat(a[1..], b);
    }
  }

  /** Position `a` of a level lies in the contents of some container `xs[m]`. */
  lemma {:induction false} Locate(xs: seq<Item>, a: nat) returns (m: nat, o: nat)
    requires a < |Level(xs)|
    ensures m < |xs| && o < |xs[m].itemlist| && xs[m].itemlist[o] == Level(xs)[a]
    ensures a == |Level(xs[..m])| + o
  {
    if a < |xs[0].itemlist| {
      m, o := 0, a;
    } else {
      m, o := Locate(xs[1..], a - |xs[0].itemlist|);
      m := m + 1;
      assert xs[..m][1..] == xs[1..][..m - 1];
    }
  }

  /** A later container's contents come later. */
  lemma LevelPrefix(xs: seq<Item>, m: nat, n: nat)
    requires m < n <= |xs|
    ensures |Level(xs[..m])| + |xs[m].itemlist| <= |Level(xs[..n])|
  {
    LevelConcat(xs[..m], xs[m..n]);
    assert xs[..m] + xs[m..n] == xs[..n];
  }

  lemma {:induction false} InLevel(xs: seq<Item>, p: Item, c: Item)
    requires p in xs && c in p.itemlist
    ensures c in Level(xs)
  {
    if xs[0] != p {
      InLevel(xs[1..], p, c);
    }
  }

  /** `full` is what a breadth-first walk from `roots` has met so far: a prefix of the roots and
      of the contents of everything met.  No root lies inside another. */
  ghost predicate Walk(roots: seq<Item>, full: seq<Item>, S: set<Item>)
    reads S, full
  {
    && Linked(S) && NoDup(roots) && (forall r :: r in roots ==> r in S)
    && (forall r, q :: r in roots && q in roots ==> q !in r.anc)
    && (forall k :: 0 <= k < |full| ==> full[k] in S)
    && full <= roots + Level(full)
  }

  ghost predicate FromRoot(roots: seq<Item>, i: Item)
    reads i
  {
    exists r :: r in roots && r in i.anc
  }

  /** Everything met is a root or lies inside one, and nothing is met twice. */
  lemma {:induction false} WalkMeetsOnce(roots: seq<Item>, full: seq<Item>, b: nat, S: set<Item>)
    requires Walk(roots, full, S) && b < |full|
    ensures if b < |roots| then full[b] == roots[b] else FromRoot(roots, full[b])
    ensures forall a :: 0 <= a < b ==> full[a] != full[b]
    decreases full[b].anc
  {
    var p := |roots|;
    if b >= p {
      var n, o := Locate(full, b - p);
      assert full[n].LinkedAt(S) && full[b].LinkedAt(S);
      WalkMeetsOnce(roots, full, n, S);
      assert FromRoot(roots, full[b]);
      forall a | 0 <= a < b
        ensures full[a] != full[b]
      {
        if a < p {
          assert full[a] == roots[a];
        } else {
          MeetsApart(full, a - p, b - p, n, o, S);
        }
      }
    }
  }

  /** Two positions of a level hold different things if the later one's container is met once. */
  lemma MeetsApart(full: seq<Item>, a: nat, b: nat, n: nat, o: nat, S: set<Item>)
    requires Linked(S) && (forall k :: 0 <= k < |full| ==> full[k] in S)
    requires a < b < |Level(full)| && n < |full| && o < |full[n].itemlist|
    requires full[n].itemlist[o] == Level(full)[b] && b == |Level(full[..n])| + o
    requires forall j :: 0 <= j < n ==> full[j] != full[n]
    ensures Level(full)[a] != Level(full)[b]
  {
    var m, u := Locate(full, a);
    assert full[m].LinkedAt(S) && full[n].LinkedAt(S);
    assert full[m].itemlist[u] in full[m].itemlist && full[n].itemlist[o] in full[n].itemlist;
    if m > n {
      LevelPrefix(full, n, m);
    }
  }

  /** A walk that has met everything there is to meet has met all that lies inside a root. */
  lemma {:induction false} WalkMeetsAll(roots: seq<Item>, full: seq<Item>, r: Item, i: Item, S: set<Item>)
    requires Walk(roots, full, S) && full == roots + Level(full)
    requires r in roots && i in S && r in i.anc
    ensures i in full
    decreases i.anc
  {
    assert i.LinkedAt(S);
    if i.parent != r {
      assert i.parent.LinkedAt(S);
      WalkMeetsAll(roots, full, r, i.parent, S);
    } else {
      assert full[..|roots|] == roots && r in full[..|roots|];
    }
    InLevel(full, i.parent, i);
    assert i in roots + Level(full);
  }

  lemma WalkLinked(root: Item, full: seq<Item>, S: set<Item>)
    requires Walk([root], full, S)
    ensures Linked(S) && forall k :: 0 <= k < |full| ==> full[k] in S
    ensures forall b :: 0 <= b < |full| ==> (if b == 0 then full[b] == root else
      b - 1 < |Level(full)| && full[b] == Level(full)[b - 1])
  {
  }

  /** Breadth-first: below a single root no thing is met before one that is nested less deeply. */
  lemma {:induction false} WalkByDepth(root: Item, full: seq<Item>, a: nat, b: nat, S: set<Item>)
    requires Walk([root], full, S) && a <= b < |full|
    ensures |full[a].anc| <= |full[b].anc|
    decreases full[b].anc
  {
    hide Walk, NoDup;
    WalkLinked(root, full, S);
    WalkMeetsOnce([root], full, b, S);
    if a == 0 {
      if b > 0 {
        assert full[b].LinkedAt(S);
      }
      SetSizes(full[0].anc, full[b].anc);
    } else {
      var m, u := Locate(full, a - 1);
      var n, o := Locate(full, b - 1);
      assert full[m].LinkedAt(S) && full[n].LinkedAt(S) && full[a].LinkedAt(S) && full[b].LinkedAt(S);
      if n < m {
        LevelPrefix(full, n, m);
      }
      WalkByDepth(root, full, m, n, S);
    }
  }

  lemma {:induction false} SetSizes<T>(a: set<T>, b: set<T>)
    requires a <= b
    ensures |a| <= |b|
  {
    assert b == a + (b - a);
  }

  lemma {:induction false} SeqSize<T>(s: seq<T>, t: set<T>)
    requires NoDup(s) && forall x :: x in t <==> x in s
    ensures |t| == |s|
  {
    if s == [] {
      assert t == {};
    } else {
      var rest := s[..|s| - 1];
      var last := s[|s| - 1];
      assert s == rest + [last];
      SeqSize(rest, t - {last});
    }
  }

  /** What an iterator has visited so far lies inside the root, without repetition. */
  lemma VisitOnce(root: Item, visited: seq<Item>, S: set<Item>)
    requires Walk([root], [root] + visited, S)
    ensures NoDup(visited) && forall i :: i in visited ==> i in Inside(root, S)
  {
    hide Item.LinkedAt, Level;
    var full := [root] + visited;
    forall b | 0 <= b < |visited|
      ensures visited[b] in S && root in visited[b].anc
      ensures forall a :: 0 <= a < b ==> visited[a] != visited[b]
    {
      assert full[b + 1] == visited[b] && visited[b] in S;
      WalkMeetsOnce([root], full, b + 1, S);
      forall a | 0 <= a < b
        ensures visited[a] != visited[b]
      {
        assert full[a + 1] == visited[a];
      }
    }
  }

  /** An iterator at its end has visited everything inside the root. */
  lemma VisitAll(root: Item, visited: seq<Item>, S: set<Item>)
    requires Walk([root], [root] + visited, S) && visited == Level([root] + visited)
    ensures forall i :: i in Inside(root, S) ==> i in visited
  {
    forall i | i in Inside(root, S)
      ensures i in visited
    {
      WalkMeetsAll([root], [root] + visited, root, i, S);
      assert i.LinkedAt(S);
    }
  }

  /** What an iterator has visited so far, against the set of things to visit. */
  lemma VisitBounds(root: Item, visited: seq<Item>, S: set<Item>)
    requires Linked(S) && root in S && (forall k :: 0 <= k < |visited| ==> visited[k] in S)
    requires visited <= Level([root] + visited)
    ensures Walk([root], [root] + visited, S)
    ensures NoDup(visited) && |visited| <= |Inside(root, S)|
    ensures forall i :: i in visited ==> i in Inside(root, S)
    ensures visited == Level([root] + visited) ==>
      (forall i :: i in Inside(root, S) ==> i in visited) && |visited| == |Inside(root, S)|
  {
    hide Inside, NoDup;
    RootWalk(root, visited, S);
    VisitOnce(root, visited, S);
    var seen := set i | i in visited;
    SeqSize(visited, seen);
    SetSizes(seen, Inside(root, S));
    if visited == Level([root] + visited) {
      VisitAll(root, visited, S);
      assert seen == Inside(root, S);
    }
  }

  lemma RootWalk(root: Item, visited: seq<Item>, S: set<Item>)
    requires Linked(S) && root in S && (forall k :: 0 <= k < |visited| ==> visited[k] in S)
    requires visited <= Level([root] + visited)
    ensures Walk([root], [root] + visited, S)
  {
    hide Level;
    assert root.LinkedAt(S);
    PrefixBehind(root, visited, Level([root] + visited));
  }

  lemma PrefixBehind<T>(x: T, a: seq<T>, b: seq<T>)
    requires a <= b
    ensures [x] + a <= [x] + b
  {
  }

  /** `getItemHoldingCount`: the number of things inside, at any depth. */
  method GetItemHoldingCount(c: Item, ghost S: set<Item>) returns (counter: nat)
    requires Linked(S) && c in S
    ensures counter == |Inside(c, S)|
  {
    hide Item.LinkedAt, Walk, NoDup, Inside;
    counter := 0;
    var it := new ContainerIterator(c, S);
    while it.HasNext()
      invariant it.Valid(S) && it.root == c && counter == |it.visited|
      decreases |Inside(c, S)| - counter
    {
      it.Advance(S);
      VisitBounds(c, it.visited, S);
      counter := counter + 1;
    }
    VisitBounds(c, it.visited, S);
  }

  /** `isHoldingItem`: whether the item is somewhere inside. */
  method IsHoldingItem(c: Item, item: Item, ghost S: set<Item>) returns (holding: bool)
    requires Linked(S) && c in S && item in S
    ensures holding <==> c in item.anc
  {
    hide Item.LinkedAt, Walk, NoDup;
    var it := new ContainerIterator(c, S);
    while it.HasNext()
      invariant it.Valid(S) && it.root == c && item !in it.visited
      decreases |Inside(c, S)| - |it.visited|
    {
      var current := it.Current(S);
      it.Advance(S);
      VisitBounds(c, it.visited, S);
      if current == item {
        assert item in it.visited;
        return true;
      }
    }
    VisitBounds(c, it.visited, S);
    return false;
  }

  /** `getItems(true)`: everything inside, in breadth-first order. */
  method GetItems(c: Item, ghost S: set<Item>) returns (items: seq<Item>)
    requires Linked(S) && c in S
    ensures items == Level([c] + items)
    ensures NoDup(items) && forall i :: i in items <==> i in Inside(c, S)
    ensures forall a, b :: 0 <= a < b < |items| ==> |items[a].anc| <= |items[b].anc|
  {
    hide Item.LinkedAt, Walk, NoDup, Inside;
    items := [];
    var it := new ContainerIterator(c, S);
    while it.HasNext()
      invariant it.Valid(S) && it.root == c && items == it.visited
      decreases |Inside(c, S)| - |items|
    {
      items := items + [it.Current(S)];
      it.Advance(S);
      VisitBounds(c, it.visited, S);
    }
    VisitBounds(c, items, S);
    VisitedByDepth(c, items, S);
  }

  lemma VisitedByDepth(root: Item, visited: seq<Item>, S: set<Item>)
    requires Walk([root], [root] + visited, S)
    ensures forall a, b :: 0 <= a < b < |visited| ==> |visited[a].anc| <= |visited[b].anc|
  {
    hide Walk;
    var full := [root] + visited;
    forall a, b | 0 <= a < b < |visited|
      ensures |visited[a].anc| <= |visited[b].anc|
    {
      WalkByDepth(root, full, a + 1, b + 1, S);
      assert full[a + 1] == visited[a] && full[b + 1] == visited[b];
    }
  }
}
