/** The decay wheel: four buckets of items, one of which is swept every quarter of a second. */
module DecayWheel {
  import opened Wrappers

  const INTERVAL := 250
  const BUCKETS := 4
  const ROUND := INTERVAL * BUCKETS

  type Id = nat

  /** What the wheel knows about an item: milliseconds left, whether it is decaying, whether it still
      may (`canDecay`), and the references that the wheel holds. */
  datatype Clock = Clock(duration: int, decaying: bool, lasting: bool, refs: nat)

  datatype Fate = Dropped | Fired | Moved | Kept

  /** A sweep takes off a full round, or what is left. */
  function Later(d: int): int {
    d - if ROUND < d then ROUND else d
  }

  /** What a sweep does with an item in the bucket at hand. */
  function FateOf(c: Clock): Fate {
    var d := Later(c.duration);
    if !c.lasting then Dropped
    else if d <= 0 then Fired
    else if d < ROUND then (if (d + INTERVAL / 2) / 1000 % BUCKETS == 0 then Fired else Moved)
    else Kept
  }

  /** Ticks from the next sweep of an item to its end, if it may decay all the time. */
  function After(d: int): nat {
    if d <= ROUND then 0
    else if d < 2 * ROUND then (if d - ROUND < 875 then 0 else 1)
    else 4 + After(d - ROUND)
  }

  /** Ticks left to an item whose bucket is `offset` ticks behind the next one. */
  function TicksLeft(offset: nat, d: int): nat {
    offset + 1 + After(d)
  }

  /** The bucket that a newly registered item goes to. */
  function FirstBucket(lastBucket: nat, d: int): nat {
    if d >= ROUND then lastBucket else if d >= 0 then (lastBucket + 1 + d / 1000) % BUCKETS else 0
  }

  function Offset(bucket: int, lastBucket: int): nat {
    (bucket + 3 - lastBucket) % BUCKETS
  }

  /** In closed form: an item that is registered with `d` milliseconds left ends after this many ticks. */
  lemma {:induction false} FireTick(d: int, lastBucket: nat)
    requires d > 0 && lastBucket < BUCKETS
    ensures TicksLeft(Offset(FirstBucket(lastBucket, d), lastBucket), d) == Ticks(d)
  {
    if d >= 2 * ROUND {
      FireTick(d - ROUND, lastBucket);
    }
  }

  /** Ticks from registration to the end. */
  function Ticks(d: int): nat {
    if d < ROUND then 1 else 4 * (d / ROUND) + if d % ROUND >= 875 then 1 else 0
  }

  /** The timing bound: an item of a second or more ends less than 875 ms early and never late. */
  lemma TimingBound(d: int)
    requires d > 0
    ensures if d < ROUND then Ticks(d) == 1 else d - 875 < INTERVAL * Ticks(d) <= d
  {
  }

  /** The items of a list that meet a fate, in order. */
  function Pick(list: seq<Id>, items: map<Id, Clock>, f: Fate): seq<Id> {
    if list == [] then []
    else
      var i := list[|list| - 1];
      Pick(list[..|list| - 1], items, f) + if i in items && FateOf(items[i]) == f then [i] else []
  }

  lemma {:induction false} PickIn(list: seq<Id>, items: map<Id, Clock>, f: Fate)
    ensures forall i :: i in Pick(list, items, f) <==> i in list && i in items && FateOf(items[i]) == f
    ensures NoDup(list) ==> NoDup(Pick(list, items, f))
  {
    if list != [] {
      var front, i := list[..|list| - 1], list[|list| - 1];
      PickIn(front, items, f);
      assert list == front + [i];
      assert forall k :: 0 <= k < |Pick(front, items, f)| ==> Pick(front, items, f)[k] in front;
    }
  }

  /** Items that leave the wheel, in order. */
  function Gone(list: seq<Id>, items: map<Id, Clock>): seq<Id> {
    if list == [] then []
    else
      var i := list[|list| - 1];
      Gone(list[..|list| - 1], items) +
        if i in items && (FateOf(items[i]) == Fired || FateOf(items[i]) == Dropped) then [i] else []
  }

  predicate Leaves(i: Id, list: seq<Id>, items: map<Id, Clock>) {
    i in list && i in items && (FateOf(items[i]) == Fired || FateOf(items[i]) == Dropped)
  }

  lemma {:induction false} GoneIn(list: seq<Id>, items: map<Id, Clock>)
    requires NoDup(list)
    ensures forall i :: multiset(Gone(list, items))[i] == if Leaves(i, list, items) then 1 else 0
  {
    if list != [] {
      var front, i := list[..|list| - 1], list[|list| - 1];
      GoneIn(front, items);
      assert list == front + [i];
      assert i !in front;
    }
  }

  lemma PickLast(list: seq<Id>, k: nat, items: map<Id, Clock>, f: Fate)
    requires k < |list|
    ensures Pick(list[..k + 1], items, f) ==
      if list[k] in items && FateOf(items[list[k]]) == f then Pick(list[..k], items, f) + [list[k]] else Pick(list[..k], items, f)
    ensures Gone(list[..k + 1], items) ==
      if Leaves(list[k], list, items) then Gone(list[..k], items) + [list[k]] else Gone(list[..k], items)
  {
    assert list[..k + 1][..k] == list[..k];
  }

  /** Without the element at `at`. */
  function Erased(s: seq<Id>, at: nat): seq<Id>
    requires at < |s|
  {
    s[..at] + s[at + 1..]
  }

  /** An item after a sweep over it. */
  function Swept(c: Clock): Clock {
    if !c.lasting then c.(decaying := false) else c.(duration := Later(c.duration))
  }

  // ----- the state of the wheel

  datatype State = State(clocks: map<Id, Clock>, buckets: seq<seq<Id>>, waiting: seq<Id>, last: nat,
                         released: seq<Id>, ended: seq<Id>)

  /** In one of the buckets. */
  predicate Turning(s: State, i: Id) {
    exists b :: 0 <= b < |s.buckets| && i in s.buckets[b]
  }

  predicate Registered(s: State, i: Id) {
    i in s.waiting || Turning(s, i)
  }

  /** Every registered item is in one place once, is decaying, and is held by one reference, apart
      from those that are about to be released. */
  ghost predicate Ok(s: State) {
    && |s.buckets| == BUCKETS && s.last < BUCKETS
    && (forall b :: 0 <= b < BUCKETS ==> NoDup(s.buckets[b])) && NoDup(s.waiting)
    && (forall b, i :: 0 <= b < BUCKETS && i in s.buckets[b] ==> i !in s.waiting)
    && (forall b, c, i :: 0 <= b < c < BUCKETS && i in s.buckets[b] ==> i !in s.buckets[c])
    && (forall i :: Registered(s, i) ==> i in s.clocks && s.clocks[i].decaying && s.clocks[i].duration > 0)
    && (forall i :: i in s.clocks ==> s.clocks[i].refs == (if Registered(s, i) then 1 else 0) + multiset(s.released)[i])
    && (forall i :: i in s.released ==> i in s.clocks)
  }

  /** In the wheel, allowed to decay, and `n` ticks before its end. */
  ghost predicate Ends(s: State, i: Id, n: nat) {
    && i in s.clocks && s.clocks[i].lasting && |s.buckets| == BUCKETS
    && exists b :: 0 <= b < BUCKETS && i in s.buckets[b] && TicksLeft(Offset(b, s.last), s.clocks[i].duration) == n
  }

  /** Ended: no longer registered, and it cannot be registered again. */
  ghost predicate Over(s: State, i: Id) {
    i in s.clocks && s.clocks[i].decaying && s.clocks[i].lasting && !Registered(s, i)
  }

  /** The state after a sweep of the next bucket. */
  ghost predicate SweptTo(s: State, t: State) {
    && |s.buckets| == BUCKETS == |t.buckets| && s.last < BUCKETS && t.last == (s.last + 1) % BUCKETS && t.waiting == s.waiting
    && var list, next := s.buckets[t.last], (t.last + 1) % BUCKETS;
    && t.buckets[t.last] == Pick(list, s.clocks, Kept) && t.buckets[next] == s.buckets[next] + Pick(list, s.clocks, Moved)
    && (forall b :: 0 <= b < BUCKETS && b != t.last && b != next ==> t.buckets[b] == s.buckets[b])
    && t.released == s.released + Gone(list, s.clocks) && t.ended == s.ended + Pick(list, s.clocks, Fired)
    && t.clocks.Keys == s.clocks.Keys
    && forall i :: i in t.clocks ==> t.clocks[i] == if i in list then Swept(s.clocks[i]) else s.clocks[i]
  }

  /** Where an item is after a sweep. */
  lemma SweptPlace(s: State, t: State, i: Id)
    requires Ok(s) && SweptTo(s, t)
    ensures i in s.buckets[t.last] ==> i in s.clocks && s.clocks[i].duration > 0
    ensures forall b :: 0 <= b < BUCKETS ==> (i in t.buckets[b] <==>
      if i !in s.buckets[t.last] then i in s.buckets[b]
      else (FateOf(s.clocks[i]) == Kept && b == t.last) || (FateOf(s.clocks[i]) == Moved && b == (t.last + 1) % BUCKETS))
  {
    var list, next := s.buckets[t.last], (t.last + 1) % BUCKETS;
    PickIn(list, s.clocks, Kept);
    PickIn(list, s.clocks, Moved);
    assert i in list ==> Turning(s, i);
  }

  lemma SweptOk(s: State, t: State)
    requires Ok(s) && SweptTo(s, t)
    ensures Ok(t)
  {
    hide SweptTo, Pick, Gone, Swept, FateOf, NoDup, Registered, Turning;
    SweptPlaces(s, t);
    SweptClocks(s, t);
    SweptHeld(s, t);
  }

  lemma SweptPlaces(s: State, t: State)
    requires Ok(s) && SweptTo(s, t)
    ensures |t.buckets| == BUCKETS && t.last < BUCKETS && NoDup(t.waiting)
    ensures forall b :: 0 <= b < BUCKETS ==> NoDup(t.buckets[b])
    ensures forall b, i :: 0 <= b < BUCKETS && i in t.buckets[b] ==> i !in t.waiting
    ensures forall b, c, i :: 0 <= b < c < BUCKETS && i in t.buckets[b] ==> i !in t.buckets[c]
  {
    hide Pick, Gone, Swept, FateOf, NoDup, Registered, Leaves;
    SweptNoDup(s, t);
    forall b, i | 0 <= b < BUCKETS && i in t.buckets[b]
      ensures i !in t.waiting
    {
      SweptWhere(s, t, i);
      assert Turning(t, i);
    }
    forall b, c, i | 0 <= b < c < BUCKETS && i in t.buckets[b]
      ensures i !in t.buckets[c]
    {
      SweptWhere(s, t, i);
    }
  }

  lemma SweptClocks(s: State, t: State)
    requires Ok(s) && SweptTo(s, t)
    ensures forall i :: Registered(t, i) ==> i in t.clocks && t.clocks[i].decaying && t.clocks[i].duration > 0
  {
    hide Ok, SweptTo, Registered, Turning, Leaves;
    forall i | Registered(t, i)
      ensures i in t.clocks && t.clocks[i].decaying && t.clocks[i].duration > 0
    {
      SweptWhere(s, t, i);
      SweptClock(s, t, i);
    }
  }

  lemma SweptHeld(s: State, t: State)
    requires Ok(s) && SweptTo(s, t)
    ensures forall i :: i in t.clocks ==> t.clocks[i].refs == (if Registered(t, i) then 1 else 0) + multiset(t.released)[i]
    ensures forall i :: i in t.released ==> i in t.clocks
  {
    hide Pick, Gone, Swept, FateOf, NoDup, Turning, Registered;
    var list := s.buckets[t.last];
    GoneIn(list, s.clocks);
    LeavesWas(s, t.last);
    forall i | i in t.clocks
      ensures t.clocks[i].refs == (if Registered(t, i) then 1 else 0) + multiset(t.released)[i]
    {
      SweptWhere(s, t, i);
      SweptRefs(s, t, i);
    }
    assert forall i :: i in Gone(list, s.clocks) ==> multiset(Gone(list, s.clocks))[i] > 0;
  }

  lemma LeavesWas(s: State, b: nat)
    requires Ok(s) && b < BUCKETS
    ensures forall i :: Leaves(i, s.buckets[b], s.clocks) ==> Registered(s, i)
  {
    assert forall i :: i in s.buckets[b] ==> Turning(s, i);
  }

  lemma SweptRefs(s: State, t: State, i: Id)
    requires Ok(s) && SweptTo(s, t) && i in t.clocks
    ensures t.clocks[i].refs == s.clocks[i].refs
    ensures multiset(t.released)[i] == multiset(s.released)[i] + multiset(Gone(s.buckets[t.last], s.clocks))[i]
  {
  }

  lemma SweptClock(s: State, t: State, i: Id)
    requires Ok(s) && SweptTo(s, t) && Registered(s, i) && !Leaves(i, s.buckets[t.last], s.clocks)
    ensures i in t.clocks && t.clocks[i].decaying && t.clocks[i].duration > 0
  {
  }

  lemma SweptWhere(s: State, t: State, i: Id)
    requires Ok(s) && SweptTo(s, t)
    ensures Registered(t, i) <==> Registered(s, i) && !Leaves(i, s.buckets[t.last], s.clocks)
    ensures i in s.waiting ==> !Turning(t, i)
    ensures forall b, c :: 0 <= b < c < BUCKETS && i in t.buckets[b] ==> i !in t.buckets[c]
  {
    hide Pick, Gone, Swept, NoDup;
    SweptPlace(s, t, i);
    if i in s.buckets[t.last] {
      OneBucket(s, i, t.last);
      if FateOf(s.clocks[i]) == Moved {
        assert i in t.buckets[(t.last + 1) % BUCKETS];
      }
    } else if b :| 0 <= b < BUCKETS && i in s.buckets[b] {
      OneBucket(s, i, b);
      assert i in t.buckets[b];
    }
  }

  lemma SweptNoDup(s: State, t: State)
    requires Ok(s) && SweptTo(s, t)
    ensures forall b :: 0 <= b < BUCKETS ==> NoDup(t.buckets[b])
  {
    hide Gone, Swept, Pick, NoDup;
    var list, next := s.buckets[t.last], (t.last + 1) % BUCKETS;
    PickIn(list, s.clocks, Kept);
    PickIn(list, s.clocks, Moved);
    ConcatNoDup(s.buckets[next], Pick(list, s.clocks, Moved));
  }

  lemma ConcatNoDup(a: seq<Id>, b: seq<Id>)
    requires NoDup(a) && NoDup(b) && forall i :: i in a ==> i !in b
    ensures NoDup(a + b)
  {
    var c := a + b;
    forall j, k | 0 <= j < k < |c|
      ensures c[j] != c[k]
    {
      assert j < |a| ==> c[j] in a;
      assert k >= |a| ==> c[k] in b;
    }
  }

  /** What a fate means for the ticks that are left. */
  lemma FateTicks(c: Clock, last: nat)
    requires c.lasting && c.duration > 0 && last < BUCKETS
    ensures match FateOf(c)
      case Fired => After(c.duration) == 0
      case Moved => TicksLeft(Offset((last + 1) % BUCKETS, last), Later(c.duration)) == After(c.duration)
      case Kept => TicksLeft(Offset(last, last), Later(c.duration)) == After(c.duration)
      case Dropped => false
  {
  }

  /** A sweep brings every item one tick closer to its end, and ends exactly those that are due. */
  lemma SweptTicks(s: State, t: State, i: Id, n: nat)
    requires Ok(s) && SweptTo(s, t) && Ends(s, i, n)
    ensures n >= 1
    ensures if n == 1 then Over(t, i) && multiset(t.ended)[i] == multiset(s.ended)[i] + 1
      else Ends(t, i, n - 1) && multiset(t.ended)[i] == multiset(s.ended)[i]
  {
    hide Ok, Pick, Gone, FateOf, After, Later;
    var b :| 0 <= b < BUCKETS && i in s.buckets[b] && TicksLeft(Offset(b, s.last), s.clocks[i].duration) == n;
    SweptPlace(s, t, i);
    SweptEnded(s, t, i);
    OneBucket(s, i, b);
    var next := (t.last + 1) % BUCKETS;
    if b == t.last {
      FateTicks(s.clocks[i], t.last);
      match FateOf(s.clocks[i])
      case Kept => assert i in t.buckets[t.last];
      case Moved => assert i in t.buckets[next];
      case Fired =>
      case Dropped =>
    } else {
      assert i in t.buckets[b] && Offset(b, t.last) == Offset(b, s.last) - 1;
    }
  }

  lemma OneBucket(s: State, i: Id, b: nat)
    requires Ok(s) && b < BUCKETS && i in s.buckets[b]
    ensures i in s.clocks && s.clocks[i].decaying && s.clocks[i].duration > 0 && i !in s.waiting
    ensures forall c :: 0 <= c < BUCKETS && c != b ==> i !in s.buckets[c]
  {
    assert Turning(s, i);
  }

  lemma SweptEnded(s: State, t: State, i: Id)
    requires Ok(s) && SweptTo(s, t)
    ensures multiset(t.ended)[i] == multiset(s.ended)[i] +
      (if i in s.buckets[t.last] && i in s.clocks && FateOf(s.clocks[i]) == Fired then 1 else 0)
  {
    PickIn(s.buckets[t.last], s.clocks, Fired);
    OnceIn(Pick(s.buckets[t.last], s.clocks, Fired), i);
  }

  lemma {:induction false} OnceIn(list: seq<Id>, i: Id)
    requires NoDup(list)
    ensures multiset(list)[i] == if i in list then 1 else 0
  {
    if list != [] {
      var front := list[..|list| - 1];
      assert list == front + [list[|list| - 1]];
      OnceIn(front, i);
    }
  }

  lemma SweptOver(s: State, t: State, i: Id)
    requires Ok(s) && SweptTo(s, t) && Over(s, i)
    ensures Over(t, i) && multiset(t.ended)[i] == multiset(s.ended)[i]
  {
    hide Ok, Pick, Gone;
    SweptPlace(s, t, i);
    SweptEnded(s, t, i);
    assert i !in s.buckets[t.last] by {
      assert !Turning(s, i);
    }
  }

  // ----- registering

  /** `startDecay`, for an item that the wheel knows of. */
  function Started(s: State, i: Id): State {
    if i !in s.clocks || !s.clocks[i].lasting || s.clocks[i].decaying then s
    else if s.clocks[i].duration > 0 then
      s.(clocks := s.clocks[i := s.clocks[i].(decaying := true, refs := s.clocks[i].refs + 1)], waiting := [i] + s.waiting)
    else s.(ended := s.ended + [i])
  }

  lemma StartedOk(s: State, i: Id)
    requires Ok(s)
    ensures Ok(Started(s, i))
  {
    var t := Started(s, i);
    assert forall j :: Turning(t, j) == Turning(s, j);
    assert Registered(s, i) ==> t == s;
  }

  lemma StartedOnce(s: State, i: Id)
    requires Ok(s)
    ensures var t := Started(s, i);
      && |t.buckets| == BUCKETS
      && (Fresh(s, i) ==>
            && !Registered(s, i) && Registered(t, i) && multiset(t.waiting)[i] == 1
            && forall b :: 0 <= b < BUCKETS ==> i !in t.buckets[b])
      && forall j :: j != i ==> (Registered(t, j) <==> Registered(s, j))
  {
    var t := Started(s, i);
    assert forall j :: Turning(t, j) == Turning(s, j);
    if Fresh(s, i) {
      assert !Registered(s, i);
      forall b | 0 <= b < BUCKETS
        ensures i !in t.buckets[b]
      {
        assert !Turning(s, i);
      }
    }
  }

  lemma StartedTicks(s: State, j: Id, i: Id)
    requires Ok(s)
    ensures forall n :: Ends(s, i, n) ==> Ends(Started(s, j), i, n)
    ensures Over(s, i) ==> Over(Started(s, j), i)
    ensures (exists n :: Ends(s, i, n)) || Over(s, i) ==> multiset(Started(s, j).ended)[i] == multiset(s.ended)[i]
  {
    var t := Started(s, j);
    assert Turning(t, i) == Turning(s, i);
    forall n | Ends(s, i, n)
      ensures Ends(t, i, n) && (i == j ==> t == s)
    {
      var b :| 0 <= b < BUCKETS && i in s.buckets[b] && TicksLeft(Offset(b, s.last), s.clocks[i].duration) == n;
      OneBucket(s, i, b);
      assert i in t.buckets[b];
    }
  }

  /** The items of a list that go to bucket `b`, in order. */
  function Sent(list: seq<Id>, s: State, b: nat): seq<Id> {
    if list == [] then []
    else
      var i := list[|list| - 1];
      Sent(list[..|list| - 1], s, b) + if i in s.clocks && FirstBucket(s.last, s.clocks[i].duration) == b then [i] else []
  }

  lemma {:induction false} SentIn(list: seq<Id>, s: State, b: nat)
    ensures forall i :: i in Sent(list, s, b) <==> i in list && i in s.clocks && FirstBucket(s.last, s.clocks[i].duration) == b
    ensures NoDup(list) ==> NoDup(Sent(list, s, b))
  {
    if list != [] {
      var front, i := list[..|list| - 1], list[|list| - 1];
      SentIn(front, s, b);
      assert list == front + [i];
      assert forall k :: 0 <= k < |Sent(front, s, b)| ==> Sent(front, s, b)[k] in front;
    }
  }

  lemma NoneSent(s: State)
    ensures forall b {:trigger Sent([], s, b)} :: Sent([], s, b) == []
  {
  }

  lemma SentLast(list: seq<Id>, k: nat, s: State, b: nat)
    requires k < |list|
    ensures Sent(list[..k + 1], s, b) ==
      Sent(list[..k], s, b) + if list[k] in s.clocks && FirstBucket(s.last, s.clocks[list[k]].duration) == b then [list[k]] else []
  {
    assert list[..k + 1][..k] == list[..k];
  }

  /** The state after `cleanup`. */
  ghost predicate CleanedTo(s: State, t: State) {
    && |s.buckets| == BUCKETS == |t.buckets| && t.waiting == [] && t.released == [] && t.last == s.last && t.ended == s.ended
    && (forall b :: 0 <= b < BUCKETS ==> t.buckets[b] == s.buckets[b] + Sent(s.waiting, s, b))
    && t.clocks.Keys == s.clocks.Keys
    && forall i :: i in t.clocks ==> (
      && t.clocks[i] == s.clocks[i].(refs := t.clocks[i].refs)
      && t.clocks[i].refs == s.clocks[i].refs - multiset(s.released)[i])
  }

  lemma CleanedOk(s: State, t: State)
    requires Ok(s) && CleanedTo(s, t)
    ensures Ok(t)
  {
    forall b | 0 <= b < BUCKETS
      ensures NoDup(t.buckets[b])
      ensures forall i :: i in t.buckets[b] <==> i in s.buckets[b] || (i in s.waiting && i in s.clocks && FirstBucket(s.last, s.clocks[i].duration) == b)
    {
      SentIn(s.waiting, s, b);
      ConcatNoDup(s.buckets[b], Sent(s.waiting, s, b));
    }
    forall i
      ensures Registered(t, i) <==> Registered(s, i)
    {
      if i in s.waiting {
        assert Registered(s, i);
        assert i in t.buckets[FirstBucket(s.last, s.clocks[i].duration)];
      }
    }
  }

  lemma CleanedTicks(s: State, t: State, i: Id)
    requires Ok(s) && CleanedTo(s, t)
    ensures forall n :: Ends(s, i, n) ==> Ends(t, i, n)
    ensures Over(s, i) ==> Over(t, i)
    ensures i in s.waiting && s.clocks[i].lasting ==> Ends(t, i, Ticks(s.clocks[i].duration))
  {
    forall b | 0 <= b < BUCKETS
      ensures i in t.buckets[b] <==> i in s.buckets[b] || (i in s.waiting && i in s.clocks && FirstBucket(s.last, s.clocks[i].duration) == b)
    {
      SentIn(s.waiting, s, b);
    }
    forall n | Ends(s, i, n)
      ensures Ends(t, i, n)
    {
      var b :| 0 <= b < BUCKETS && i in s.buckets[b] && TicksLeft(Offset(b, s.last), s.clocks[i].duration) == n;
      assert i in t.buckets[b];
    }
    if i in s.waiting {
      assert Registered(s, i);
      FireTick(s.clocks[i].duration, s.last);
      assert i in t.buckets[FirstBucket(s.last, s.clocks[i].duration)];
    }
  }

  // ----- one tick

  /** An item that was `n` ticks before its end is one tick closer to it, or it has ended now. */
  ghost predicate Ticked(s: State, t: State, i: Id, n: nat) {
    if n == 1 then Over(t, i) && multiset(t.ended)[i] == multiset(s.ended)[i] + 1
    else n > 1 && Ends(t, i, n - 1) && multiset(t.ended)[i] == multiset(s.ended)[i]
  }

  ghost predicate StaysOver(s: State, t: State, i: Id) {
    Over(t, i) && multiset(t.ended)[i] == multiset(s.ended)[i]
  }

  ghost predicate StaysEnding(s: State, t: State, i: Id, n: nat) {
    Ends(t, i, n) && multiset(t.ended)[i] == multiset(s.ended)[i]
  }

  /** Known, allowed to decay, and not decaying yet. */
  predicate Fresh(s: State, i: Id) {
    i in s.clocks && s.clocks[i].lasting && !s.clocks[i].decaying && s.clocks[i].duration > 0
  }

  /** Known, allowed to decay, and not decaying, but with no time left. */
  predicate Spent(s: State, i: Id) {
    i in s.clocks && s.clocks[i].lasting && !s.clocks[i].decaying && s.clocks[i].duration <= 0
  }

  /** Not registered, and not allowed to decay. */
  predicate Idle(s: State, i: Id) {
    i in s.clocks && !s.clocks[i].lasting && !s.clocks[i].decaying && !Registered(s, i)
  }

  /** Every start of an item with no time left ends it. */
  ghost predicate EndsByStarts(s: State, t: State, i: Id, list: seq<Id>) {
    Spent(t, i) && multiset(t.ended)[i] == multiset(s.ended)[i] + multiset(list)[i]
  }

  ghost predicate StaysIdle(s: State, t: State, i: Id) {
    Idle(t, i) && multiset(t.ended)[i] == multiset(s.ended)[i]
  }

  /** Waiting for a bucket, with the duration it had. */
  predicate Waits(s: State, t: State, i: Id) {
    i in t.waiting && i in s.clocks && i in t.clocks && t.clocks[i].lasting && t.clocks[i].duration == s.clocks[i].duration
  }

  /** Between the sweep and the cleanup, after some starts. */
  ghost predicate AfterStarts(was: State, swept: State, list: seq<Id>, now: State) {
    && (forall i, n {:trigger Ends(swept, i, n)} :: Ends(swept, i, n) ==> StaysEnding(swept, now, i, n))
    && (forall i {:trigger Over(swept, i)} :: Over(swept, i) ==> StaysOver(swept, now, i))
    && (forall i {:trigger Fresh(was, i)} :: Fresh(was, i) ==> (
          if i in list then Waits(was, now, i) else Fresh(now, i) && now.clocks[i].duration == was.clocks[i].duration))
    && (forall i :: i in was.waiting && i in was.clocks && was.clocks[i].lasting ==> Waits(was, now, i))
    && (forall i {:trigger Spent(swept, i)} :: Spent(swept, i) ==> EndsByStarts(swept, now, i, list))
    && (forall i {:trigger Idle(swept, i)} :: Idle(swept, i) ==> StaysIdle(swept, now, i))
    && (forall i {:trigger Fresh(was, i)} :: Fresh(was, i) ==> multiset(now.ended)[i] == multiset(swept.ended)[i])
  }

  lemma NoStarts(was: State, swept: State)
    requires Ok(was) && SweptTo(was, swept)
    ensures AfterStarts(was, swept, [], swept)
  {
    hide Pick, Gone;
    forall i | i in was.buckets[swept.last]
      ensures i !in was.waiting && i in was.clocks && was.clocks[i].decaying
    {
      OneBucket(was, i, swept.last);
    }
  }

  lemma OneStart(was: State, swept: State, list: seq<Id>, now: State, j: Id)
    requires Ok(now) && AfterStarts(was, swept, list, now)
    ensures AfterStarts(was, swept, list + [j], Started(now, j))
  {
    hide Ok, Ends, Over;
    var t := Started(now, j);
    forall i, n: nat | Ends(swept, i, n)
      ensures StaysEnding(swept, t, i, n)
    {
      assert StaysEnding(swept, now, i, n);
      StartedTicks(now, j, i);
    }
    forall i | Over(swept, i)
      ensures StaysOver(swept, t, i)
    {
      assert StaysOver(swept, now, i);
      StartedTicks(now, j, i);
    }
    forall i | Spent(swept, i)
      ensures EndsByStarts(swept, t, i, list + [j])
    {
      assert EndsByStarts(swept, now, i, list);
      StartedSpent(now, j, i);
    }
    forall i | Idle(swept, i)
      ensures StaysIdle(swept, t, i)
    {
      assert StaysIdle(swept, now, i);
      StartedIdle(now, j, i);
    }
    forall i | Fresh(was, i)
      ensures multiset(t.ended)[i] == multiset(swept.ended)[i]
    {
      assert Fresh(now, i) || Waits(was, now, i);
      StartedFresh(now, j, i);
    }
  }

  lemma StartedSpent(s: State, j: Id, i: Id)
    requires Spent(s, i)
    ensures Spent(Started(s, j), i)
    ensures multiset(Started(s, j).ended)[i] == multiset(s.ended)[i] + if i == j then 1 else 0
  {
  }

  lemma StartedIdle(s: State, j: Id, i: Id)
    requires Idle(s, i)
    ensures Idle(Started(s, j), i) && multiset(Started(s, j).ended)[i] == multiset(s.ended)[i]
  {
    assert Turning(Started(s, j), i) == Turning(s, i);
  }

  lemma StartedFresh(s: State, j: Id, i: Id)
    requires Ok(s) && (Fresh(s, i) || i in s.waiting)
    ensures multiset(Started(s, j).ended)[i] == multiset(s.ended)[i]
  {
    assert i in s.waiting ==> Registered(s, i);
  }

  /** What a sweep does not end: items that are not registered, or only waiting. */
  lemma SweptApart(s: State, t: State, i: Id)
    requires Ok(s) && SweptTo(s, t)
    ensures Spent(s, i) ==> Spent(t, i) && multiset(t.ended)[i] == multiset(s.ended)[i]
    ensures Fresh(s, i) || Idle(s, i) || i in s.waiting ==> multiset(t.ended)[i] == multiset(s.ended)[i]
    ensures Idle(s, i) ==> Idle(t, i)
  {
    hide Pick, Gone, FateOf, Swept;
    SweptEnded(s, t, i);
    SweptPlace(s, t, i);
    if i in s.buckets[t.last] {
      OneBucket(s, i, t.last);
    }
    if Idle(s, i) {
      assert !Turning(s, i);
      assert !Turning(t, i);
    }
  }

  /** An item in the swept bucket that must not decay any more leaves the wheel without ending; it is
      not decaying, so that it can be started again. */
  lemma SweptDrops(s: State, t: State, i: Id)
    requires Ok(s) && SweptTo(s, t) && i in s.buckets[t.last] && i in s.clocks && !s.clocks[i].lasting
    ensures Idle(t, i) && multiset(t.ended)[i] == multiset(s.ended)[i]
  {
    hide Pick, Gone;
    SweptEnded(s, t, i);
    SweptPlace(s, t, i);
    OneBucket(s, i, t.last);
    assert !Turning(t, i);
  }

  /** A sweep takes a second off what is left to an item in its bucket, and nothing off any other. */
  lemma SweptTime(s: State, t: State, i: Id)
    requires Ok(s) && SweptTo(s, t) && i in s.clocks
    ensures i in t.clocks && t.clocks[i].lasting == s.clocks[i].lasting
    ensures t.clocks[i].duration ==
      if i in s.buckets[t.last] && s.clocks[i].lasting then (if s.clocks[i].duration <= 1000 then 0 else s.clocks[i].duration - 1000)
      else s.clocks[i].duration
  {
    hide Pick, Gone, FateOf;
    SweptPlace(s, t, i);
  }

  lemma TickDone(was: State, swept: State, starting: seq<Id>, started: State, t: State)
    requires Ok(was) && SweptTo(was, swept) && AfterStarts(was, swept, starting, started) && Ok(started) && CleanedTo(started, t)
    ensures forall i, n {:trigger Ends(was, i, n)} :: Ends(was, i, n) ==> n >= 1 && Ticked(was, t, i, n)
    ensures forall i {:trigger Over(was, i)} :: Over(was, i) ==> StaysOver(was, t, i)
    ensures forall i :: i in starting && Fresh(was, i) ==> Ends(t, i, Ticks(was.clocks[i].duration))
    ensures forall i :: i in was.waiting && i in was.clocks && was.clocks[i].lasting ==> Ends(t, i, Ticks(was.clocks[i].duration))
    ensures forall i {:trigger Spent(was, i)} :: Spent(was, i) ==> EndsByStarts(was, t, i, starting)
    ensures forall i {:trigger Fresh(was, i)} :: Fresh(was, i) ==> multiset(t.ended)[i] == multiset(was.ended)[i]
    ensures forall i {:trigger Idle(was, i)} :: Idle(was, i) ==> StaysIdle(was, t, i)
    ensures forall i :: DropsNow(was, i) ==> StaysIdle(was, t, i)
  {
    hide Ok, Ends, Over, SweptTo, Pick, Ticks, Registered;
    CleanedEnded(started, t);
    forall i, n: nat | Ends(was, i, n)
      ensures n >= 1 && Ticked(was, t, i, n)
    {
      SweptTicks(was, swept, i, n);
      CleanedTicks(started, t, i);
      if n == 1 {
        assert Over(swept, i) && StaysOver(swept, started, i);
      } else {
        assert Ends(swept, i, n - 1) && StaysEnding(swept, started, i, n - 1);
      }
    }
    forall i | Over(was, i)
      ensures StaysOver(was, t, i)
    {
      SweptOver(was, swept, i);
      CleanedTicks(started, t, i);
      assert StaysOver(swept, started, i);
    }
    forall i | Waits(was, started, i)
      ensures Ends(t, i, Ticks(was.clocks[i].duration))
    {
      CleanedTicks(started, t, i);
    }
    forall i | Spent(was, i)
      ensures EndsByStarts(was, t, i, starting)
    {
      SweptApart(was, swept, i);
      assert EndsByStarts(swept, started, i, starting);
      CleanedApart(started, t, i);
    }
    forall i | Fresh(was, i)
      ensures multiset(t.ended)[i] == multiset(was.ended)[i]
    {
      SweptApart(was, swept, i);
    }
    forall i | Idle(was, i)
      ensures StaysIdle(was, t, i)
    {
      SweptApart(was, swept, i);
      assert StaysIdle(swept, started, i);
      CleanedApart(started, t, i);
    }
    forall i | DropsNow(was, i)
      ensures StaysIdle(was, t, i)
    {
      DropsNowMeans(was, swept, i);
      SweptDrops(was, swept, i);
      assert StaysIdle(swept, started, i);
      CleanedApart(started, t, i);
    }
  }

  /** In the bucket of the next sweep, and not allowed to decay any more. */
  predicate DropsNow(s: State, i: Id) {
    && |s.buckets| == BUCKETS && i in s.buckets[(s.last + 1) % BUCKETS] && i in s.clocks && !s.clocks[i].lasting
  }

  lemma DropsNowMeans(s: State, t: State, i: Id)
    requires SweptTo(s, t) && DropsNow(s, i)
    ensures i in s.buckets[t.last] && i in s.clocks && !s.clocks[i].lasting
  {
  }

  lemma CleanedApart(s: State, t: State, i: Id)
    requires Ok(s) && CleanedTo(s, t)
    ensures Spent(s, i) ==> Spent(t, i)
    ensures Idle(s, i) ==> Idle(t, i)
  {
    if Idle(s, i) {
      forall b | 0 <= b < BUCKETS
        ensures i !in t.buckets[b]
      {
        SentIn(s.waiting, s, b);
        assert !Turning(s, i);
      }
      assert !Turning(t, i);
    }
  }

  lemma CleanedEnded(s: State, t: State)
    requires CleanedTo(s, t)
    ensures t.ended == s.ended
  {
  }

  // ----- the wheel

  class Wheel {
    var items: map<Id, Clock>
    var decayItems: seq<seq<Id>>
    var toDecayItems: seq<Id>
    var lastBucket: nat
    var toRelease: seq<Id>
    var decayed: seq<Id>

    constructor (items: map<Id, Clock>)
      requires forall i :: i in items ==> !items[i].decaying && items[i].refs == 0
      ensures Valid() && Now() == State(items, [[], [], [], []], [], 0, [], [])
    {
      this.items, decayItems, toDecayItems, lastBucket, toRelease, decayed := items, [[], [], [], []], [], 0, [], [];
    }

    function Now(): State
      reads this
    {
      State(items, decayItems, toDecayItems, lastBucket, toRelease, decayed)
    }

    ghost predicate Valid()
      reads this
    {
      Ok(Now())
    }

    /** `startDecay`: an item that is not decaying yet is registered, once, for one more reference;
        nothing is done to one that is, and one that has no time left ends. */
    method StartDecay(i: Id)
      requires Valid()
      modifies this
      ensures Valid() && Now() == Started(old(Now()), i)
      ensures decayed == old(decayed) + if Spent(old(Now()), i) then [i] else []
      ensures Fresh(old(Now()), i) ==>
        && toDecayItems == [i] + old(toDecayItems) && items[i].decaying && !Registered(old(Now()), i) && Registered(Now(), i) && items[i].refs == old(items[i].refs) + 1
        && multiset(toDecayItems)[i] == 1 && forall b :: 0 <= b < BUCKETS ==> i !in decayItems[b]
      ensures !Fresh(old(Now()), i) ==> items == old(items) && toDecayItems == old(toDecayItems)
      ensures forall j :: j != i ==> (Registered(Now(), j) <==> Registered(old(Now()), j))
    {
      hide Ok;
      StartedOk(Now(), i);
      StartedOnce(Now(), i);
      if i !in items || !items[i].lasting || items[i].decaying {
        return;
      }
      if items[i].duration > 0 {
        items := items[i := items[i].(refs := items[i].refs + 1, decaying := true)];
        toDecayItems := [i] + toDecayItems;
      } else {
        InternalDecayItem(i);
      }
    }

    /** `internalDecayItem`: the end of an item. */
    method InternalDecayItem(i: Id)
      modifies `decayed
      ensures decayed == old(decayed) + [i]
    {
      decayed := decayed + [i];
    }

    /** The loop of `checkDecay` over the next bucket: every item in it meets its fate. */
    method Sweep()
      requires Valid()
      modifies this
      ensures SweptTo(old(Now()), Now())
    {
      hide Ok, Wheel.Midway, SweptTo, Pick, Gone;
      var bucket := (lastBucket + 1) % BUCKETS;
      var next := (bucket + 1) % BUCKETS;
      ghost var was := Now();
      var it := 0;
      ghost var k := 0;
      StartMidway(bucket, next);
      while it < |decayItems[bucket]|
        invariant Midway(was, k, it, bucket, next)
        invariant |decayItems| == BUCKETS && lastBucket == old(lastBucket) && toDecayItems == old(toDecayItems)
        decreases |was.buckets[bucket]| - k
      {
        MidwayItem(was, k, it, bucket, next);
        var stays := SweepOne(decayItems[bucket][it], it, bucket, next, was, k);
        k := k + 1;
        if stays {
          it := it + 1;
        }
      }
      lastBucket := bucket;
      EndMidway(was, k, it, bucket, next);
    }

    /** The first `k` items of the bucket have met their fates, and `it` of them are still there. */
    ghost predicate Midway(was: State, k: nat, it: nat, bucket: nat, next: nat)
      reads this`items, this`decayItems, this`toRelease, this`decayed
    {
      && bucket < BUCKETS && next == (bucket + 1) % BUCKETS && |decayItems| == BUCKETS == |was.buckets|
      && var list, clocks := was.buckets[bucket], was.clocks;
      && k <= |list| && it == |Pick(list[..k], clocks, Kept)| && NoDup(list)
      && (forall j :: j in list ==> j in clocks && clocks[j].duration > 0)
      && decayItems[bucket] == Pick(list[..k], clocks, Kept) + list[k..]
      && decayItems[next] == was.buckets[next] + Pick(list[..k], clocks, Moved)
      && (forall b :: 0 <= b < BUCKETS && b != bucket && b != next ==> decayItems[b] == was.buckets[b])
      && toRelease == was.released + Gone(list[..k], clocks) && decayed == was.ended + Pick(list[..k], clocks, Fired)
      && items.Keys == clocks.Keys && forall i :: i in items ==> items[i] == if i in list[..k] then Swept(clocks[i]) else clocks[i]
    }

    lemma StartMidway(bucket: nat, next: nat)
      requires Valid() && bucket < BUCKETS && next == (bucket + 1) % BUCKETS
      ensures Midway(Now(), 0, 0, bucket, next) && |decayItems| == BUCKETS && lastBucket < BUCKETS
    {
      var list := decayItems[bucket];
      assert list[..0] == [] && list[0..] == list;
      NothingPicked(items);
      assert forall j :: j in list ==> Turning(Now(), j);
    }

    lemma MidwayItem(was: State, k: nat, it: nat, bucket: nat, next: nat)
      requires Midway(was, k, it, bucket, next) && it < |decayItems[bucket]|
      ensures k < |was.buckets[bucket]| && decayItems[bucket][it] == was.buckets[bucket][k] && decayItems[bucket][it] in items
      ensures items[decayItems[bucket][it]] == was.clocks[decayItems[bucket][it]]
      ensures items[decayItems[bucket][it]].duration > 0
    {
      Front(was.buckets[bucket], k);
    }

    lemma EndMidway(was: State, k: nat, it: nat, bucket: nat, next: nat)
      requires Midway(was, k, it, bucket, next) && it >= |decayItems[bucket]|
      requires lastBucket == bucket == (was.last + 1) % BUCKETS && toDecayItems == was.waiting && was.last < BUCKETS
      ensures SweptTo(was, Now())
    {
      var list := was.buckets[bucket];
      assert list[..k] == list && list[k..] == [];
    }

    /** One turn of the loop. */
    method SweepOne(i: Id, it: nat, bucket: nat, next: nat, ghost was: State, ghost k: nat) returns (stays: bool)
      requires Midway(was, k, it, bucket, next) && it < |decayItems[bucket]| && decayItems[bucket][it] == i
      modifies `items, `decayItems, `toRelease, `decayed
      ensures Midway(was, k + 1, if stays then it + 1 else it, bucket, next) && |decayItems| == BUCKETS
    {
      hide Pick, Gone, FateOf, Swept, Erased, NoDup;
      MidwayItem(was, k, it, bucket, next);
      NextFate(was, was.buckets[bucket], next, k);
      stays := MeetFate(i, it, bucket, next);
    }

    /** What happens to one item. */
    method MeetFate(i: Id, it: nat, bucket: nat, next: nat) returns (stays: bool)
      requires i in items && |decayItems| == BUCKETS && bucket < BUCKETS && next == (bucket + 1) % BUCKETS
      requires it < |decayItems[bucket]| && decayItems[bucket][it] == i && items[i].duration > 0
      modifies `items, `decayItems, `toRelease, `decayed
      ensures stays <==> FateOf(old(items[i])) == Kept
      ensures var c := old(items[i]);
        && items == old(items)[i := Swept(c)]
        && |decayItems| == BUCKETS
        && decayItems[bucket] == (if FateOf(c) == Kept then old(decayItems[bucket]) else Erased(old(decayItems[bucket]), it))
        && decayItems[next] == (if FateOf(c) == Moved then old(decayItems[next]) + [i] else old(decayItems[next]))
        && (forall b :: 0 <= b < BUCKETS && b != bucket && b != next ==> decayItems[b] == old(decayItems[b]))
        && toRelease == (if FateOf(c) == Fired || FateOf(c) == Dropped then old(toRelease) + [i] else old(toRelease))
        && decayed == if FateOf(c) == Fired then old(decayed) + [i] else old(decayed)
    {
      var list := decayItems[bucket];
      stays := false;
      if !items[i].lasting {
        items := items[i := items[i].(decaying := false)];
        toRelease := toRelease + [i];
        decayItems := decayItems[bucket := Erased(list, it)];
        return false;
      }
      var duration := items[i].duration;
      var decreaseTime := if ROUND < duration then ROUND else duration;
      duration := duration - decreaseTime;
      items := items[i := items[i].(duration := items[i].duration - decreaseTime)];
      if duration <= 0 {
        decayItems := decayItems[bucket := Erased(list, it)];
        InternalDecayItem(i);
        toRelease := toRelease + [i];
      } else if duration < ROUND {
        decayItems := decayItems[bucket := Erased(list, it)];
        var newBucket := (bucket + (duration + INTERVAL / 2) / 1000) % BUCKETS;
        if newBucket == bucket {
          InternalDecayItem(i);
          toRelease := toRelease + [i];
        } else {
          decayItems := decayItems[newBucket := decayItems[newBucket] + [i]];
        }
      } else {
        stays := true;
      }
    }

    /** `cleanup`: drop the references to what has left, and put what is waiting into its bucket. */
    method Cleanup()
      requires Valid()
      modifies this
      ensures Valid() && CleanedTo(old(Now()), Now()) && toDecayItems == [] && toRelease == []
    {
      hide Ok, Sent, FirstBucket;
      ghost var was := Now();
      OkBounds(was);
      Release();
      PlaceAll(was);
      CleanedOk(was, Now());
    }

    /** The loop of `cleanup` over what has left. */
    method Release()
      requires Valid()
      modifies `items, `toRelease
      ensures items.Keys == old(items.Keys) && toRelease == []
      ensures forall i :: i in items ==> (
        && items[i] == old(items[i]).(refs := items[i].refs)
        && items[i].refs == old(items[i].refs) - multiset(old(toRelease))[i])
    {
      hide Ok;
      HeldAtLeast(Now());
      while toRelease != []
        invariant items.Keys == old(items.Keys) && forall i :: i in toRelease ==> i in items
        invariant forall i :: i in items ==> (
          && items[i] == old(items[i]).(refs := items[i].refs)
          && items[i].refs == old(items[i].refs) - multiset(old(toRelease))[i] + multiset(toRelease)[i])
        decreases |toRelease|
      {
        var i := toRelease[0];
        FirstOut(toRelease);
        items := items[i := items[i].(refs := items[i].refs - 1)];
        toRelease := toRelease[1..];
      }
    }

    /** The loop of `cleanup` over what is waiting. */
    method PlaceAll(ghost was: State)
      requires |decayItems| == BUCKETS && lastBucket < BUCKETS && lastBucket == was.last && toDecayItems == was.waiting
      requires items.Keys == was.clocks.Keys && forall i :: i in items ==> items[i].duration == was.clocks[i].duration
      requires forall i :: i in toDecayItems ==> i in items && items[i].duration > 0
      modifies `decayItems, `toDecayItems
      ensures |decayItems| == BUCKETS && toDecayItems == []
      ensures forall b :: 0 <= b < BUCKETS ==> decayItems[b] == old(decayItems[b]) + Sent(was.waiting, was, b)
    {
      hide Sent;
      ghost var list := toDecayItems;
      assert list[..0] == [];
      NoneSent(was);
      for k := 0 to |toDecayItems|
        invariant |decayItems| == BUCKETS && toDecayItems == list
        invariant forall b :: 0 <= b < BUCKETS ==> decayItems[b] == old(decayItems[b]) + Sent(list[..k], was, b)
      {
        var i := toDecayItems[k];
        var dur := items[i].duration;
        var at := if dur >= ROUND then lastBucket else (lastBucket + 1 + dur / 1000) % BUCKETS;
        forall b | 0 <= b < BUCKETS
          ensures Sent(list[..k + 1], was, b) == if b == at then Sent(list[..k], was, b) + [i] else Sent(list[..k], was, b)
        {
          SentLast(list, k, was, b);
        }
        Regroup(old(decayItems[at]), Sent(list[..k], was, at), [i]);
        decayItems := decayItems[at := decayItems[at] + [i]];
      }
      assert list[..|list|] == list;
      toDecayItems := [];
    }

    /** `checkDecay`, with the items whose decay is started while it runs.  Every item in the wheel comes
        one tick closer to its end, those that are due end once and are let go, those that have ended
        stay so, and what was waiting or has been started is in the wheel for as long as its duration says.
        What has no time left when it is started ends there and then; what must not decay any more is let
        go without an end. */
    method CheckDecay(starting: seq<Id>)
      requires Valid()
      modifies this
      ensures Valid() && toDecayItems == [] && toRelease == []
      ensures forall i, n {:trigger Ends(old(Now()), i, n)} :: Ends(old(Now()), i, n) ==> n >= 1 && Ticked(old(Now()), Now(), i, n)
      ensures forall i {:trigger Over(old(Now()), i)} :: Over(old(Now()), i) ==> StaysOver(old(Now()), Now(), i)
      ensures forall i :: i in starting && Fresh(old(Now()), i) ==> Ends(Now(), i, Ticks(old(items[i].duration)))
      ensures forall i :: i in old(toDecayItems) && old(items[i].lasting) ==> Ends(Now(), i, Ticks(old(items[i].duration)))
      ensures forall i {:trigger Spent(old(Now()), i)} :: Spent(old(Now()), i) ==> EndsByStarts(old(Now()), Now(), i, starting)
      ensures forall i {:trigger Fresh(old(Now()), i)} :: Fresh(old(Now()), i) ==> multiset(decayed)[i] == multiset(old(decayed))[i]
      ensures forall i {:trigger Idle(old(Now()), i)} :: Idle(old(Now()), i) ==> StaysIdle(old(Now()), Now(), i)
      ensures forall i :: DropsNow(old(Now()), i) ==> StaysIdle(old(Now()), Now(), i)
    {
      hide Ok, Ends, Over, SweptTo, CleanedTo, Started, Fresh, Registered, Spent, Idle, DropsNow, EndsByStarts, StaysIdle;
      ghost var was := Now();
      OkBounds(was);
      Sweep();
      ghost var swept := Now();
      SweptOk(was, swept);
      NoStarts(was, swept);
      assert starting[..0] == [];
      for k := 0 to |starting|
        invariant Valid() && AfterStarts(was, swept, starting[..k], Now())
      {
        ghost var before := Now();
        assert starting[..k + 1] == starting[..k] + [starting[k]];
        StartDecay(starting[k]);
        OneStart(was, swept, starting[..k], before, starting[k]);
      }
      assert starting[..|starting|] == starting;
      ghost var started := Now();
      Cleanup();
      TickDone(was, swept, starting, started, Now());
    }

    /** Any number of ticks, with any starts and cleanups in between: an item that is `n` ticks before
        its end ends exactly once, at the `n`-th of them. */
    method Run(events: seq<Event>)
      requires Valid()
      modifies this
      ensures Valid()
      ensures forall i, n {:trigger Ends(old(Now()), i, n)} :: Ends(old(Now()), i, n) ==>
        RanTo(old(Now()), Now(), i, n, TicksIn(events))
    {
      hide Ok, Ends, Over, Ticks, TicksIn, CleanedTo, Started, Fresh, Registered;
      ghost var was := Now();
      assert events[..0] == [];
      NotRun(was);
      for k := 0 to |events|
        invariant Valid()
        invariant forall i, n {:trigger Ends(was, i, n)} :: Ends(was, i, n) ==> RanTo(was, Now(), i, n, TicksIn(events[..k]))
      {
        ghost var before := Now();
        NextEvent(events, k);
        match events[k] {
          case Start(j) => StartDecay(j);
          case Clean => Cleanup();
          case Tick(starting) => CheckDecay(starting);
        }
        forall i, n: nat | Ends(was, i, n)
          ensures RanTo(was, Now(), i, n, TicksIn(events[..k + 1]))
        {
          match events[k] {
            case Start(j) => RunStart(was, before, j, i, n, TicksIn(events[..k]));
            case Clean => RunClean(was, before, Now(), i, n, TicksIn(events[..k]));
            case Tick(_) => RunOn(was, before, Now(), i, n, TicksIn(events[..k]));
          }
        }
      }
      assert events[..|events|] == events;
    }

    /** From the start of an item's decay: it ends once, after the number of ticks that its duration
        says, however many starts and cleanups come in between. */
    method RunFromStart(i: Id, events: seq<Event>)
      requires Valid() && Fresh(Now(), i)
      modifies this
      ensures Valid()
      ensures var n := Ticks(old(items[i].duration));
        if TicksIn(events) < n then Ends(Now(), i, n - TicksIn(events)) && multiset(decayed)[i] == multiset(old(decayed))[i]
        else Over(Now(), i) && multiset(decayed)[i] == multiset(old(decayed))[i] + 1
    {
      hide Ok, Ends, Over, Ticks, Registered;
      StartDecay(i);
      ghost var started := Now();
      Cleanup();
      CleanedTicks(started, Now(), i);
      assert Ends(Now(), i, Ticks(old(items[i].duration)));
      Run(events);
    }
  }

  /** What happens to the wheel. */
  datatype Event = Start(i: Id) | Clean | Tick(starting: seq<Id>)

  function TicksIn(events: seq<Event>): nat {
    if events == [] then 0 else TicksIn(events[..|events| - 1]) + if events[|events| - 1].Tick? then 1 else 0
  }

  lemma NextEvent(events: seq<Event>, k: nat)
    requires k < |events|
    ensures TicksIn(events[..k + 1]) == TicksIn(events[..k]) + if events[k].Tick? then 1 else 0
  {
    assert events[..k + 1][..k] == events[..k];
  }

  /** After `k` ticks. */
  ghost predicate RanTo(s: State, t: State, i: Id, n: nat, k: nat) {
    if k < n then Ends(t, i, n - k) && multiset(t.ended)[i] == multiset(s.ended)[i]
    else Over(t, i) && multiset(t.ended)[i] == multiset(s.ended)[i] + 1
  }

  lemma NotRun(s: State)
    requires Ok(s)
    ensures TicksIn([]) == 0
    ensures forall i, n {:trigger Ends(s, i, n)} :: Ends(s, i, n) ==> RanTo(s, s, i, n, 0)
  {
  }

  lemma RunStart(s: State, before: State, j: Id, i: Id, n: nat, k: nat)
    requires RanTo(s, before, i, n, k) && Ok(before)
    ensures RanTo(s, Started(before, j), i, n, k)
  {
    hide Ok, Ends, Over, Started;
    StartedTicks(before, j, i);
  }

  lemma RunClean(s: State, before: State, t: State, i: Id, n: nat, k: nat)
    requires RanTo(s, before, i, n, k) && Ok(before) && CleanedTo(before, t)
    ensures RanTo(s, t, i, n, k)
  {
    hide Ok, Ends, Over, CleanedTo;
    CleanedTicks(before, t, i);
    CleanedEnded(before, t);
  }

  lemma RunOn(s: State, before: State, t: State, i: Id, n: nat, k: nat)
    requires RanTo(s, before, i, n, k)
    requires k < n ==> Ticked(before, t, i, n - k)
    requires k >= n ==> StaysOver(before, t, i)
    ensures RanTo(s, t, i, n, k + 1)
  {
  }

  lemma OkBounds(s: State)
    requires Ok(s)
    ensures |s.buckets| == BUCKETS && s.last < BUCKETS
    ensures forall i :: i in s.waiting ==> i in s.clocks && s.clocks[i].duration > 0
  {
    assert forall i :: i in s.waiting ==> Registered(s, i);
  }

  lemma HeldAtLeast(s: State)
    requires Ok(s)
    ensures forall i :: i in s.clocks ==> s.clocks[i].refs >= multiset(s.released)[i]
    ensures forall i :: i in s.released ==> i in s.clocks
  {
  }

  lemma FirstOut(list: seq<Id>)
    requires list != []
    ensures forall i :: multiset(list)[i] == multiset(list[1..])[i] + if i == list[0] then 1 else 0
    ensures forall i :: i in list[1..] ==> i in list
  {
    assert list == [list[0]] + list[1..];
  }

  lemma NothingPicked(items: map<Id, Clock>)
    ensures Pick([], items, Kept) == [] && Pick([], items, Moved) == [] && Pick([], items, Fired) == [] && Gone([], items) == []
  {
  }

  lemma Regroup(a: seq<Id>, b: seq<Id>, c: seq<Id>)
    ensures a + b + c == a + (b + c)
  {
  }

  lemma Front(list: seq<Id>, k: nat)
    requires k < |list| && NoDup(list)
    ensures list[k] !in list[..k] && forall i :: i in list[..k + 1] <==> i in list[..k] || i == list[k]
  {
    assert list[..k + 1] == list[..k] + [list[k]];
  }

  /** What the fate of item `k` of a list adds to what the first `k` have met with. */
  lemma NextFate(was: State, list: seq<Id>, next: nat, k: nat)
    requires k < |list| && NoDup(list) && list[k] in was.clocks && next < |was.buckets|
    ensures var i, fate := list[k], FateOf(was.clocks[list[k]]);
      var front, kept := Pick(list[..k], was.clocks, Kept) + list[k..], Pick(list[..k], was.clocks, Kept);
      && Pick(list[..k + 1], was.clocks, Kept) == (if fate == Kept then kept + [i] else kept)
      && |kept| < |front| && front[|kept|] == i
      && (if fate == Kept then front else Erased(front, |kept|)) == Pick(list[..k + 1], was.clocks, Kept) + list[k + 1..]
      && was.buckets[next] + Pick(list[..k + 1], was.clocks, Moved) ==
           (if fate == Moved then was.buckets[next] + Pick(list[..k], was.clocks, Moved) + [i]
            else was.buckets[next] + Pick(list[..k], was.clocks, Moved))
      && was.ended + Pick(list[..k + 1], was.clocks, Fired) ==
           (if fate == Fired then was.ended + Pick(list[..k], was.clocks, Fired) + [i]
            else was.ended + Pick(list[..k], was.clocks, Fired))
      && was.released + Gone(list[..k + 1], was.clocks) ==
           (if fate == Fired || fate == Dropped then was.released + Gone(list[..k], was.clocks) + [i]
            else was.released + Gone(list[..k], was.clocks))
      && list[k] !in list[..k] && forall j :: j in list[..k + 1] <==> j in list[..k] || j == i
  {
    hide Pick, Gone, FateOf, NoDup, Erased;
    var i := list[k];
    Regroup(was.released, Gone(list[..k], was.clocks), [i]);
    Regroup(was.ended, Pick(list[..k], was.clocks, Fired), [i]);
    Regroup(was.buckets[next], Pick(list[..k], was.clocks, Moved), [i]);
    EraseMiddle(Pick(list[..k], was.clocks, Kept), list, k);
    Front(list, k);
    PickLast(list, k, was.clocks, Kept);
    PickLast(list, k, was.clocks, Moved);
    PickLast(list, k, was.clocks, Fired);
  }

  lemma EraseMiddle(front: seq<Id>, list: seq<Id>, k: nat)
    requires k < |list|
    ensures Erased(front + list[k..], |front|) == front + list[k + 1..]
    ensures (front + list[k..])[|front|] == list[k] && front + list[k..] == front + [list[k]] + list[k + 1..]
  {
  }
}
