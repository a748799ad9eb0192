/** Searches that queue the containers they come across, from some containers side by side. */
module ContainerSearch {
  import opened Wrappers
  import opened ItemForest
  import opened ContainerIteration

  /** Containers of a forest, none inside another. */
  ghost predicate Roots(roots: seq<Item>, S: set<Item>)
    reads S
  {
    && Linked(S) && NoDup(roots) && (forall r :: r in roots ==> r in S)
    && (forall r, q :: r in roots && q in roots ==> q !in r.anc)
  }

  /** The walk of a search: what was met, what is left of the container at hand, and the queue. */
  ghost predicate Searching(roots: seq<Item>, met: seq<Item>, rest: seq<Item>, containers: seq<Item>, S: set<Item>)
    reads S
  {
    && Roots(roots, S)
    && (forall k :: 0 <= k < |met| ==> met[k] in S) && (forall k :: 0 <= k < |rest| ==> rest[k] in S)
    && (forall k :: 0 <= k < |containers| ==> containers[k] in S)
    && roots <= met && met + rest + Level(containers) == roots + Level(met)
  }

  lemma Regroup(a: seq<Item>, b: seq<Item>, c: seq<Item>)
    ensures a + b + c == a + (b + c)
  {
  }

  lemma StartSearch(roots: seq<Item>, S: set<Item>)
    requires Roots(roots, S)
    ensures Searching(roots, roots, [], roots, S) && |roots| <= |S|
  {
    assert roots + [] == roots;
    var seen := set i | i in roots;
    SeqSize(roots, seen);
    SetSizes(seen, S);
  }

  /** Take the next container out of the queue. */
  lemma PopContainer(roots: seq<Item>, met: seq<Item>, containers: seq<Item>, S: set<Item>)
    requires Searching(roots, met, [], containers, S) && containers != []
    ensures Searching(roots, met, containers[0].itemlist, containers[1..], S)
  {
    var c := containers[0];
    assert c.LinkedAt(S);
    assert met + [] == met;
    Regroup(met, c.itemlist, Level(containers[1..]));
  }

  /** The next item is a new one, inside one of the roots, and meeting it keeps the search going; it
      has to be queued if there is something in it. */
  lemma MeetNext(roots: seq<Item>, met: seq<Item>, rest: seq<Item>, containers: seq<Item>, S: set<Item>)
    requires Searching(roots, met, rest, containers, S) && rest != []
    ensures rest[0] in S && rest[0] !in met && FromRoot(roots, rest[0]) && |met| < |S|
    ensures Searching(roots, met + [rest[0]], rest[1..], containers + [rest[0]], S)
    ensures rest[0].itemlist == [] ==> Searching(roots, met + [rest[0]], rest[1..], containers, S)
  {
    hide Item.LinkedAt;
    var full, x := met + [rest[0]], rest[0];
    LevelConcat(met, [x]);
    LevelConcat(containers, [x]);
    assert Level([x]) == x.itemlist;
    assert full + rest[1..] == met + rest;
    Regroup(full + rest[1..], Level(containers), x.itemlist);
    Regroup(roots, Level(met), x.itemlist);
    assert x.itemlist == [] ==> Level(containers) == Level(containers) + x.itemlist;
    assert full == (full + rest[1..] + Level(containers))[..|full|];
    NewlyMet(roots, met, x, S);
  }

  lemma NewlyMet(roots: seq<Item>, met: seq<Item>, x: Item, S: set<Item>)
    requires Walk(roots, met + [x], S) && roots <= met
    ensures x !in met && FromRoot(roots, x) && |met| < |S|
  {
    hide Walk, FromRoot;
    var full := met + [x];
    WalkMeetsOnce(roots, full, |met|, S);
    forall b | 0 <= b < |full|
      ensures full[b] in S && forall a :: 0 <= a < b ==> full[a] != full[b]
    {
      WalkMeetsOnce(roots, full, b, S);
      WalkInside(roots, full, S);
    }
    forall a | 0 <= a < |met|
      ensures met[a] != x
    {
      assert full[a] == met[a] && full[|met|] == x;
    }
    var seen := set i | i in full;
    SeqSize(full, seen);
    SetSizes(seen, S);
  }

  lemma WalkInside(roots: seq<Item>, full: seq<Item>, S: set<Item>)
    requires Walk(roots, full, S)
    ensures forall k :: 0 <= k < |full| ==> full[k] in S
  {
  }

  /** An empty queue means that everything was met. */
  lemma MetAll(roots: seq<Item>, met: seq<Item>, S: set<Item>)
    requires Searching(roots, met, [], [], S)
    ensures forall i :: i in S && FromRoot(roots, i) ==> i in met
  {
    assert met + [] + [] == met;
    forall i | i in S && FromRoot(roots, i)
      ensures i in met
    {
      var r :| r in roots && r in i.anc;
      WalkMeetsAll(roots, met, r, i, S);
    }
  }
}
