/** Trades between two players: offer, counter-offer, acceptance by both, transfer, cancellation. */
module Trade {
  import opened Wrappers

  type Id = nat
  type ItemId = nat

  datatype TradeState = Idle | Initiated | Accept | Acknowledge | Transfer

  /** What a player knows of a trade. */
  datatype Side = Side(state: TradeState, partner: Option<Id>, item: Option<ItemId>)

  const OUT := Side(Idle, None, None)

  /** The players, the table of items on offer, the references held for trades, and the references
      that the next cleanup drops. */
  datatype State = State(players: map<Id, Side>, tradeItems: map<ItemId, Id>, extra: map<ItemId, nat>, toRelease: seq<ItemId>)

  /** Something that happens to the trades. */
  datatype Step =
    | Start(player: Id, partner: Id, item: ItemId)
    | AcceptTrade(player: Id, inSight: bool, allowed: bool, during: seq<Id>)
    | CloseTrade(player: Id)
    | Cleanup

  function Extra(s: State, i: ItemId): nat {
    if i in s.extra then s.extra[i] else 0
  }

  // ----- what is always the case

  /** A player is in a trade with a partner who is in it with that player, or in none. */
  predicate SideOk(s: State, p: Id)
    requires p in s.players
  {
    var me := s.players[p];
    if me.state == Idle then me == OUT else
      && me.partner.Some? && me.partner.value in s.players && me.partner.value != p
      && var other := s.players[me.partner.value];
      && other.partner == Some(p) && other.state != Idle && (me.state == Transfer <==> other.state == Transfer)
  }

  /** An offer that was initiated has an item, one that was only acknowledged has none, and items on
      offer are registered for the player who offers them until the transfer begins. */
  predicate OfferOk(s: State, p: Id)
    requires p in s.players
  {
    var me := s.players[p];
    && (me.state == Initiated ==> me.item.Some?) && (me.state == Acknowledge ==> me.item.None?)
    && (me.item.Some? && me.state != Transfer ==> me.item.value in s.tradeItems && s.tradeItems[me.item.value] == p)
  }

  /** An item is registered for the player who offers it, and it has one extra reference for being
      registered, apart from those about to be released. */
  predicate ItemOk(s: State, i: ItemId) {
    && (i in s.tradeItems ==> (
          && s.tradeItems[i] in s.players && s.players[s.tradeItems[i]].item == Some(i)
          && s.players[s.tradeItems[i]].state != Transfer))
    && Extra(s, i) == (if i in s.tradeItems then 1 else 0) + multiset(s.toRelease)[i]
  }

  ghost predicate Ok(s: State) {
    && (forall p {:trigger SideOk(s, p)} {:trigger OfferOk(s, p)} :: p in s.players ==> SideOk(s, p) && OfferOk(s, p))
    && forall i {:trigger ItemOk(s, i)} :: ItemOk(s, i)
  }

  /** No transfer is going on: the state between two steps. */
  predicate Settled(s: State) {
    forall p :: p in s.players ==> s.players[p].state != Transfer
  }

  /** The registered items are exactly those on offer, and no two players offer the same. */
  lemma OffersAreRegistered(s: State)
    requires Ok(s) && Settled(s)
    ensures forall i :: i in s.tradeItems <==> exists p :: p in s.players && s.players[p].item == Some(i)
    ensures forall i :: i in s.tradeItems ==> s.tradeItems[i] in s.players && s.players[s.tradeItems[i]].item == Some(i)
    ensures forall p, q :: p in s.players && q in s.players && s.players[p].item.Some? && s.players[p].item == s.players[q].item ==> p == q
  {
    forall p | p in s.players
      ensures s.players[p].item.Some? ==> s.players[p].item.value in s.tradeItems && s.tradeItems[s.players[p].item.value] == p
    {
      assert OfferOk(s, p);
    }
    forall i | i in s.tradeItems
      ensures exists p :: p in s.players && s.players[p].item == Some(i)
    {
      assert ItemOk(s, i);
    }
  }

  // ----- the steps

  /** `internalStartTrade` lets the trade begin. */
  predicate MayStart(s: State, p: Id, q: Id)
    requires p in s.players && q in s.players
  {
    && (s.players[p].state == Idle || (s.players[p].state == Acknowledge && s.players[p].partner == Some(q)))
    && (s.players[q].state == Idle || s.players[q].partner == Some(p))
  }

  function Started(s: State, p: Id, q: Id, i: ItemId): State
    requires p in s.players && q in s.players
  {
    if !MayStart(s, p, q) then s else
      var other := if s.players[q].state == Idle then s.players[q].(state := Acknowledge, partner := Some(p)) else s.players[q];
      s.(players := s.players[p := Side(Initiated, Some(q), Some(i))][q := other],
         tradeItems := s.tradeItems[i := p], extra := s.extra[i := Extra(s, i) + 1])
  }

  /** The item of one player is released, if it is registered. */
  function Released(s: State, p: Id): State
    requires p in s.players
  {
    var item := s.players[p].item;
    if item.Some? && item.value in s.tradeItems
    then s.(tradeItems := s.tradeItems - {item.value}, toRelease := s.toRelease + [item.value]) else s
  }

  function Left(s: State, p: Id): State {
    s.(players := s.players[p := OUT])
  }

  predicate InTransfer(s: State, p: Id)
    requires p in s.players
  {
    var me := s.players[p];
    me.state == Transfer || (me.partner.Some? && me.partner.value in s.players && s.players[me.partner.value].state == Transfer)
  }

  /** `internalCloseTrade` */
  function Closed(s: State, p: Id): State
    requires p in s.players
  {
    if InTransfer(s, p) then s else
      var partner := s.players[p].partner;
      var t := Left(Released(s, p), p);
      if partner.Some? && partner.value in t.players then Left(Released(t, partner.value), partner.value) else t
  }

  function ClosedAll(s: State, ps: seq<Id>): State
    decreases |ps|
  {
    if ps == [] then s
    else ClosedAll(if ps[0] in s.players then Closed(s, ps[0]) else s, ps[1..])
  }

  /** `playerAcceptTrade` finds something to accept. */
  predicate MayAccept(s: State, p: Id) {
    p in s.players && (s.players[p].state == Acknowledge || s.players[p].state == Initiated) &&
    s.players[p].partner.Some? && s.players[p].partner.value in s.players
  }

  function WithState(s: State, p: Id, state: TradeState): State
    requires p in s.players
  {
    s.(players := s.players[p := s.players[p].(state := state)])
  }

  /** Both have accepted: the transfer begins, and neither item is on offer any more. */
  function Begun(s: State, p: Id, q: Id): State
    requires p in s.players && q in s.players
  {
    Released(Released(WithState(WithState(s, p, Transfer), q, Transfer), p), q)
  }

  /** `playerAcceptTrade`.  Whatever is moved may make the trades of some players close: `during`. */
  function Accepted(s: State, p: Id, inSight: bool, allowed: bool, during: seq<Id>): State {
    if !MayAccept(s, p) then s else
      var q := s.players[p].partner.value;
      var t := WithState(s, p, Accept);
      if t.players[q].state != Accept then t
      else if !inSight || !allowed then Closed(t, p)
      else Left(Left(ClosedAll(Begun(t, p, q), during), p), q)
  }

  /** `cleanup` drops the references. */
  function Cleaned(s: State): State
    decreases |s.toRelease|
  {
    if s.toRelease == [] then s else
      var i := s.toRelease[0];
      Cleaned(s.(toRelease := s.toRelease[1..],
                 extra := s.extra[i := if Extra(s, i) > 0 then Extra(s, i) - 1 else 0]))
  }

  function Next(s: State, st: Step): State {
    match st
    case Start(p, q, i) => if Offerable(s, p, q, i) then Started(s, p, q, i) else s
    case AcceptTrade(p, inSight, allowed, during) => Accepted(s, p, inSight, allowed, during)
    case CloseTrade(p) => if p in s.players then Closed(s, p) else s
    case Cleanup => Cleaned(s)
  }

  /** The checks before a trade is started: two players, and an item that is not being traded. */
  predicate Offerable(s: State, p: Id, q: Id, i: ItemId) {
    p in s.players && q in s.players && p != q && i !in s.tradeItems
  }

  // ----- what every step keeps

  lemma StartedOk(s: State, p: Id, q: Id, i: ItemId)
    requires Ok(s) && Settled(s) && Offerable(s, p, q, i)
    ensures Ok(Started(s, p, q, i)) && Settled(Started(s, p, q, i))
  {
    var t := Started(s, p, q, i);
    forall r | r in t.players
      ensures SideOk(t, r) && OfferOk(t, r)
    {
      assert SideOk(s, r) && OfferOk(s, r) && SideOk(s, p) && SideOk(s, q) && OfferOk(s, q);
    }
    forall j
      ensures ItemOk(t, j)
    {
      assert ItemOk(s, j) && OfferOk(s, p) && OfferOk(s, q) && SideOk(s, p);
    }
  }

  /** Two players who are in no transfer leave their trade, and their items are released. */
  function PairLeft(s: State, p: Id, q: Id): State
    requires p in s.players && q in s.players && p != q
  {
    var t := Left(Released(s, p), p);
    Left(Released(t, q), q)
  }

  predicate Pair(s: State, p: Id, q: Id) {
    p in s.players && q in s.players && p != q && s.players[p].partner == Some(q) && s.players[q].partner == Some(p)
  }

  lemma PairLeftSides(s: State, p: Id, q: Id)
    requires Ok(s) && Pair(s, p, q) && s.players[p].state != Transfer && s.players[q].state != Transfer
    ensures forall r :: r in PairLeft(s, p, q).players ==> SideOk(PairLeft(s, p, q), r) && OfferOk(PairLeft(s, p, q), r)
  {
    var t := PairLeft(s, p, q);
    assert OfferOk(s, p) && OfferOk(s, q) && SideOk(s, p) && SideOk(s, q);
    forall r | r in t.players
      ensures SideOk(t, r) && OfferOk(t, r)
    {
      assert SideOk(s, r) && OfferOk(s, r);
    }
  }

  lemma PairLeftItems(s: State, p: Id, q: Id)
    requires Ok(s) && Pair(s, p, q) && s.players[p].state != Transfer && s.players[q].state != Transfer
    ensures forall j :: ItemOk(PairLeft(s, p, q), j)
  {
    hide ItemOk, PairLeft;
    forall j
      ensures ItemOk(PairLeft(s, p, q), j)
    {
      PairLeftItem(s, p, q, j);
    }
  }

  lemma PairLeftItem(s: State, p: Id, q: Id, j: ItemId)
    requires Ok(s) && Pair(s, p, q) && s.players[p].state != Transfer && s.players[q].state != Transfer
    ensures ItemOk(PairLeft(s, p, q), j)
  {
    hide Ok, SideOk;
    SidesOf(s, p);
    SidesOf(s, q);
    ItemOf(s, j);
  }

  lemma PairLeftOk(s: State, p: Id, q: Id)
    requires Ok(s) && Pair(s, p, q) && s.players[p].state != Transfer && s.players[q].state != Transfer
    ensures Ok(PairLeft(s, p, q))
  {
    PairLeftSides(s, p, q);
    PairLeftItems(s, p, q);
  }

  /** Closing does nothing to a trade in transfer, and takes both players out of any other. */
  lemma ClosedIs(s: State, p: Id)
    requires Ok(s) && p in s.players
    ensures s.players[p].state == Transfer ==> Closed(s, p) == s
    ensures s.players[p].state == Idle ==> Closed(s, p) == s
    ensures s.players[p].state != Transfer && s.players[p].state != Idle ==>
      && s.players[p].partner.Some? && Pair(s, p, s.players[p].partner.value)
      && Closed(s, p) == PairLeft(s, p, s.players[p].partner.value)
  {
    assert SideOk(s, p);
    if s.players[p].state == Idle {
      assert s.players[p := OUT] == s.players;
    } else {
      assert SideOk(s, s.players[p].partner.value);
    }
  }

  lemma ClosedOk(s: State, p: Id)
    requires Ok(s) && p in s.players
    ensures Ok(Closed(s, p)) && (Settled(s) ==> Settled(Closed(s, p)))
  {
    hide Ok;
    ClosedIs(s, p);
    if s.players[p].state != Transfer && s.players[p].state != Idle {
      var q := s.players[p].partner.value;
      SidesOf(s, p);
      PairLeftOk(s, p, q);
    }
  }

  lemma SidesOf(s: State, p: Id)
    requires Ok(s) && p in s.players
    ensures SideOk(s, p) && OfferOk(s, p)
  {
  }

  lemma ItemOf(s: State, i: ItemId)
    requires Ok(s)
    ensures ItemOk(s, i)
  {
  }

  /** Closing leaves a pair in transfer as it is. */
  lemma {:induction false} ClosedAllKeeps(s: State, ps: seq<Id>, p: Id, q: Id)
    requires Ok(s) && Pair(s, p, q) && s.players[p].state == s.players[q].state == Transfer
    requires forall r :: r in s.players && r != p && r != q ==> s.players[r].state != Transfer
    ensures var t := ClosedAll(s, ps);
      && Ok(t) && t.players.Keys == s.players.Keys && t.players[p] == s.players[p] && t.players[q] == s.players[q]
      && forall r :: r in t.players && r != p && r != q ==> t.players[r].state != Transfer
    decreases |ps|
  {
    hide Ok;
    if ps != [] && ps[0] in s.players {
      var r := ps[0];
      ClosedOk(s, r);
      ClosedIs(s, r);
      SidesOf(s, r);
      SidesOf(s, p);
      SidesOf(s, q);
      ClosedAllKeeps(Closed(s, r), ps[1..], p, q);
    } else if ps != [] {
      ClosedAllKeeps(s, ps[1..], p, q);
    }
  }

  lemma BegunSides(s: State, p: Id, q: Id)
    requires Ok(s) && Settled(s) && Pair(s, p, q)
    ensures forall r :: r in Begun(s, p, q).players ==> SideOk(Begun(s, p, q), r) && OfferOk(Begun(s, p, q), r)
  {
    var t := Begun(s, p, q);
    assert OfferOk(s, p) && OfferOk(s, q) && SideOk(s, p) && SideOk(s, q);
    forall r | r in t.players
      ensures SideOk(t, r) && OfferOk(t, r)
    {
      assert SideOk(s, r) && OfferOk(s, r);
    }
  }

  lemma BegunItems(s: State, p: Id, q: Id)
    requires Ok(s) && Settled(s) && Pair(s, p, q)
    ensures forall j :: ItemOk(Begun(s, p, q), j)
  {
    hide ItemOk, Begun, Settled;
    forall j
      ensures ItemOk(Begun(s, p, q), j)
    {
      BegunItem(s, p, q, j);
    }
  }

  /** A release takes one item off the table and notes one reference to drop. */
  lemma ReleasedItem(s: State, p: Id, j: ItemId)
    requires p in s.players
    ensures var t := Released(s, p);
      && t.players == s.players && Extra(t, j) == Extra(s, j)
      && (if s.players[p].item == Some(j) && j in s.tradeItems
          then j !in t.tradeItems && multiset(t.toRelease)[j] == multiset(s.toRelease)[j] + 1
          else (j in t.tradeItems <==> j in s.tradeItems) && (j in t.tradeItems ==> t.tradeItems[j] == s.tradeItems[j])
               && multiset(t.toRelease)[j] == multiset(s.toRelease)[j])
  {
  }

  lemma BegunItem(s: State, p: Id, q: Id, j: ItemId)
    requires Ok(s) && Settled(s) && Pair(s, p, q)
    ensures ItemOk(Begun(s, p, q), j)
  {
    hide Ok, SideOk, Released;
    SidesOf(s, p);
    SidesOf(s, q);
    ItemOf(s, j);
    var t := WithState(WithState(s, p, Transfer), q, Transfer);
    ReleasedItem(t, p, j);
    ReleasedItem(Released(t, p), q, j);
  }

  lemma BegunOk(s: State, p: Id, q: Id)
    requires Ok(s) && Settled(s) && Pair(s, p, q)
    ensures Ok(Begun(s, p, q)) && Pair(Begun(s, p, q), p, q)
    ensures Begun(s, p, q).players == s.players[p := s.players[p].(state := Transfer)][q := s.players[q].(state := Transfer)]
  {
    BegunSides(s, p, q);
    BegunItems(s, p, q);
  }

  lemma TransferredOk(s: State, p: Id, q: Id)
    requires Ok(s) && Pair(s, p, q) && s.players[p].state == s.players[q].state == Transfer
    requires forall r :: r in s.players && r != p && r != q ==> s.players[r].state != Transfer
    ensures Ok(Left(Left(s, p), q)) && Settled(Left(Left(s, p), q))
  {
    var t := Left(Left(s, p), q);
    assert SideOk(s, p) && SideOk(s, q);
    forall r | r in t.players
      ensures SideOk(t, r) && OfferOk(t, r)
    {
      assert SideOk(s, r) && OfferOk(s, r);
    }
    forall j
      ensures ItemOk(t, j)
    {
      assert ItemOk(s, j);
    }
  }

  lemma AcceptingOk(s: State, p: Id)
    requires Ok(s) && Settled(s) && MayAccept(s, p)
    ensures Ok(WithState(s, p, Accept)) && Settled(WithState(s, p, Accept))
    ensures Pair(WithState(s, p, Accept), p, s.players[p].partner.value)
  {
    var t := WithState(s, p, Accept);
    assert SideOk(s, p);
    forall r | r in t.players
      ensures SideOk(t, r) && OfferOk(t, r)
    {
      assert SideOk(s, r) && OfferOk(s, r);
    }
    forall j
      ensures ItemOk(t, j)
    {
      assert ItemOk(s, j);
    }
  }

  /** Accepting: only the second acceptance does more than note it, and then, whatever happens in
      between, both players end up in no trade and their items are not on offer any more. */
  lemma AcceptedOk(s: State, p: Id, inSight: bool, allowed: bool, during: seq<Id>)
    requires Ok(s) && Settled(s)
    ensures var t := Accepted(s, p, inSight, allowed, during);
      && Ok(t) && Settled(t)
      && (!MayAccept(s, p) ==> t == s)
      && (MayAccept(s, p) && s.players[s.players[p].partner.value].state != Accept ==> t == WithState(s, p, Accept))
      && (MayAccept(s, p) && s.players[s.players[p].partner.value].state == Accept ==>
            p in t.players && t.players[p] == OUT && s.players[p].partner.value in t.players && t.players[s.players[p].partner.value] == OUT)
  {
    hide Ok, SideOk, Begun, ClosedAll, Closed, Settled;
    if MayAccept(s, p) {
      AcceptingOk(s, p);
      var q := s.players[p].partner.value;
      var t := WithState(s, p, Accept);
      if t.players[q].state == Accept {
        if !inSight || !allowed {
          ClosedOk(t, p);
          ClosedIs(t, p);
        } else {
          BegunOk(t, p, q);
          SettledMeans(t);
          ClosedAllKeeps(Begun(t, p, q), during, p, q);
          TransferredOk(ClosedAll(Begun(t, p, q), during), p, q);
        }
      }
    }
  }

  lemma SettledMeans(s: State)
    requires Settled(s)
    ensures forall p :: p in s.players ==> s.players[p].state != Transfer
  {
  }

  lemma {:induction false} CleanedOk(s: State)
    requires Ok(s)
    ensures Ok(Cleaned(s)) && Cleaned(s).players == s.players && Cleaned(s).tradeItems == s.tradeItems
    ensures Cleaned(s).toRelease == []
    decreases |s.toRelease|
  {
    if s.toRelease != [] {
      var i := s.toRelease[0];
      var t := s.(toRelease := s.toRelease[1..], extra := s.extra[i := if Extra(s, i) > 0 then Extra(s, i) - 1 else 0]);
      assert s.toRelease == [i] + s.toRelease[1..];
      forall r | r in t.players
        ensures SideOk(t, r) && OfferOk(t, r)
      {
        assert SideOk(s, r) && OfferOk(s, r);
      }
      forall j
        ensures ItemOk(t, j)
      {
        assert ItemOk(s, j);
      }
      CleanedOk(t);
    }
  }

  lemma NextOk(s: State, st: Step)
    requires Ok(s) && Settled(s)
    ensures Ok(Next(s, st)) && Settled(Next(s, st))
  {
    hide Ok, Settled, Started, Accepted, Closed, Cleaned;
    match st
    case Start(p, q, i) =>
      if Offerable(s, p, q, i) {
        StartedOk(s, p, q, i);
      }
    case AcceptTrade(p, inSight, allowed, during) => AcceptedOk(s, p, inSight, allowed, during);
    case CloseTrade(p) =>
      if p in s.players {
        ClosedOk(s, p);
      }
    case Cleanup =>
      CleanedOk(s);
      SettledAlike(s, Cleaned(s));
  }

  lemma SettledAlike(s: State, t: State)
    requires Settled(s) && t.players == s.players
    ensures Settled(t)
  {
  }

  function Run(s: State, steps: seq<Step>): State
    decreases |steps|
  {
    if steps == [] then s else Run(Next(s, steps[0]), steps[1..])
  }

  /** In every reachable state partners are partners of each other, the registered items are exactly
      those on offer, each for one player, and after a cleanup exactly they have an extra reference. */
  lemma {:induction false} Reachable(s: State, steps: seq<Step>)
    requires Ok(s) && Settled(s)
    ensures var t := Run(s, steps);
      && Ok(t) && Settled(t)
      && (forall i :: Extra(Cleaned(t), i) == if i in t.tradeItems then 1 else 0)
    decreases |steps|
  {
    hide Ok, Settled, Next, Cleaned, Extra;
    if steps == [] {
      CleanedOk(s);
      ExtraOf(Cleaned(s));
    } else {
      NextOk(s, steps[0]);
      Reachable(Next(s, steps[0]), steps[1..]);
    }
  }

  lemma ExtraOf(s: State)
    requires Ok(s) && s.toRelease == []
    ensures forall i :: Extra(s, i) == if i in s.tradeItems then 1 else 0
  {
    forall i
      ensures Extra(s, i) == if i in s.tradeItems then 1 else 0
    {
      assert ItemOk(s, i);
    }
  }

  /** Nobody trading is a state from which to start. */
  lemma Beginning(players: set<Id>)
    ensures var s := State(map p | p in players :: OUT, map[], map[], []); Ok(s) && Settled(s)
  {
  }

  /** Who accepts with nothing on offer is exactly who has only been asked for a trade. */
  lemma ItemOnAccept(s: State, p: Id)
    requires Ok(s) && MayAccept(s, p)
    ensures s.players[p].item.Some? <==> s.players[p].state == Initiated
  {
    assert OfferOk(s, p);
  }

  // ----- what a step means for each player

  /** Closing the trades of these players takes this one out of a trade. */
  predicate Closes(s: State, ps: seq<Id>, r: Id)
    requires r in s.players
  {
    r in ps || (s.players[r].partner.Some? && s.players[r].partner.value in ps)
  }

  lemma {:induction false} ClosedAllEach(s: State, ps: seq<Id>, r: Id)
    requires Ok(s) && r in s.players && s.players[r].state != Transfer
    ensures var t := ClosedAll(s, ps); r in t.players && t.players[r] == if Closes(s, ps, r) then OUT else s.players[r]
    decreases |ps|
  {
    hide Ok, Closed;
    SidesOf(s, r);
    if ps != [] {
      var x := ps[0];
      if x in s.players {
        var t := Closed(s, x);
        ClosedOk(s, x);
        ClosedIs(s, x);
        SidesOf(s, x);
        LeftOrSame(s, x, r);
        ClosedEach(s, x, r);
        ClosedAllEach(t, ps[1..], r);
      } else {
        ClosedAllEach(s, ps[1..], r);
      }
    }
  }

  lemma ClosedEach(s: State, x: Id, r: Id)
    requires Ok(s) && x in s.players && r in s.players && s.players[r].state != Transfer
    ensures var t := Closed(s, x); r in t.players && t.players[r] == if r == x || s.players[r].partner == Some(x) then OUT else s.players[r]
  {
    hide Ok, Closed;
    ClosedIs(s, x);
    SidesOf(s, x);
    SidesOf(s, r);
  }

  /** What each step makes of each player: who has begun, countered, accepted or left a trade; nobody
      else is touched. */
  lemma EachSide(s: State, st: Step, r: Id)
    requires Ok(s) && Settled(s) && r in s.players
    ensures var t := Next(s, st);
      && r in t.players
      && match st
         case Start(p, q, i) =>
           t.players[r] ==
             if !Offerable(s, p, q, i) || !MayStart(s, p, q) then s.players[r]
             else if r == p then Side(Initiated, Some(q), Some(i))
             else if r == q && s.players[q].state == Idle then Side(Acknowledge, Some(p), None)
             else s.players[r]
         case AcceptTrade(p, inSight, allowed, during) =>
           t.players[r] ==
             if !MayAccept(s, p) then s.players[r]
             else if s.players[s.players[p].partner.value].state != Accept then
               if r == p then s.players[r].(state := Accept) else s.players[r]
             else if r == p || s.players[r].partner == Some(p) || (inSight && allowed && Closes(s, during, r)) then OUT
             else s.players[r]
         case CloseTrade(p) => t.players[r] == if p in s.players && (r == p || s.players[r].partner == Some(p)) then OUT else s.players[r]
         case Cleanup => t.players[r] == s.players[r]
  {
    SidesOf(s, r);
    SettledMeans(s);
    hide Ok, Settled, Closed, Cleaned, ClosedAll, Begun, Accepted;
    match st
    case Start(p, q, i) =>
    case Cleanup => CleanedOk(s);
    case CloseTrade(p) =>
      if p in s.players {
        ClosedEach(s, p, r);
      }
    case AcceptTrade(p, inSight, allowed, during) => EachAccept(s, p, inSight, allowed, during, r);
  }

  lemma EachAccept(s: State, p: Id, inSight: bool, allowed: bool, during: seq<Id>, r: Id)
    requires Ok(s) && Settled(s) && r in s.players
    ensures var t := Accepted(s, p, inSight, allowed, during);
      && r in t.players
      && t.players[r] ==
           if !MayAccept(s, p) then s.players[r]
           else if s.players[s.players[p].partner.value].state != Accept then
             if r == p then s.players[r].(state := Accept) else s.players[r]
           else if r == p || s.players[r].partner == Some(p) || (inSight && allowed && Closes(s, during, r)) then OUT
           else s.players[r]
  {
    hide Ok, Settled, Closed, ClosedAll, Begun;
    SidesOf(s, r);
    SettledMeans(s);
    AcceptedOk(s, p, inSight, allowed, during);
    if MayAccept(s, p) {
      SidesOf(s, p);
      AcceptingOk(s, p);
      var q := s.players[p].partner.value;
      var t := WithState(s, p, Accept);
      if t.players[q].state == Accept && r != p && r != q {
        if !inSight || !allowed {
          ClosedEach(t, p, r);
        } else {
          BegunOk(t, p, q);
          ClosedAllEach(Begun(t, p, q), during, r);
        }
      }
    }
  }

  /** The references that are held for trades: one more for a new offer, fewer by a cleanup only. */
  lemma EachReference(s: State, st: Step, i: ItemId)
    requires Ok(s) && Settled(s)
    ensures var t := Next(s, st);
      Extra(t, i) ==
        match st
        case Start(p, q, j) => Extra(s, i) + (if Offerable(s, p, q, j) && MayStart(s, p, q) && i == j then 1 else 0)
        case Cleanup => Extra(s, i) - multiset(s.toRelease)[i]
        case _ => Extra(s, i)
  {
    hide Ok, Settled, Closed, ClosedAll, Begun, Cleaned;
    match st
    case Start(p, q, j) =>
    case Cleanup =>
      CleanedOk(s);
      ItemOf(s, i);
      ItemOf(Cleaned(s), i);
    case CloseTrade(p) =>
      if p in s.players {
        ClosedExtra(s, p);
      }
    case AcceptTrade(p, inSight, allowed, during) =>
      if MayAccept(s, p) {
        var q, t := s.players[p].partner.value, WithState(s, p, Accept);
        ClosedExtra(t, p);
        BegunExtra(t, p, q);
        ClosedAllExtra(Begun(t, p, q), during);
      }
  }

  lemma ClosedExtra(s: State, p: Id)
    requires p in s.players
    ensures Closed(s, p).extra == s.extra
  {
  }

  lemma BegunExtra(s: State, p: Id, q: Id)
    requires p in s.players && q in s.players
    ensures Begun(s, p, q).extra == s.extra
  {
  }

  lemma {:induction false} ClosedAllExtra(s: State, ps: seq<Id>)
    ensures ClosedAll(s, ps).extra == s.extra
    decreases |ps|
  {
    hide Closed;
    if ps != [] {
      if ps[0] in s.players {
        ClosedExtra(s, ps[0]);
        ClosedAllExtra(Closed(s, ps[0]), ps[1..]);
      } else {
        ClosedAllExtra(s, ps[1..]);
      }
    }
  }

  // ----- which transfers have both items

  /** From which state each player has accepted last. */
  type History = map<Id, TradeState>

  function Noting(s: State, st: Step, h: History): History {
    if st.AcceptTrade? && MayAccept(s, st.player) then h[st.player := s.players[st.player].state] else h
  }

  function HistoryOf(s: State, steps: seq<Step>, h: History): History
    decreases |steps|
  {
    if steps == [] then h else HistoryOf(Next(s, steps[0]), steps[1..], Noting(s, steps[0], h))
  }

  /** Whoever has accepted has still on offer what was on offer then. */
  ghost predicate Noted(s: State, h: History) {
    forall p {:trigger s.players[p]} :: p in s.players && s.players[p].state == Accept ==>
      p in h && (h[p] == Initiated <==> s.players[p].item.Some?)
  }

  lemma LeftOrSame(s: State, p: Id, r: Id)
    requires p in s.players && r in s.players
    ensures var t := Closed(s, p); r in t.players && (t.players[r] == s.players[r] || t.players[r] == OUT)
  {
  }

  lemma {:induction false} AllLeftOrSame(s: State, ps: seq<Id>, r: Id)
    requires r in s.players
    ensures var t := ClosedAll(s, ps); r in t.players && (t.players[r] == s.players[r] || t.players[r] == OUT)
    decreases |ps|
  {
    hide Closed;
    if ps != [] {
      if ps[0] in s.players {
        LeftOrSame(s, ps[0], r);
        AllLeftOrSame(Closed(s, ps[0]), ps[1..], r);
      } else {
        AllLeftOrSame(s, ps[1..], r);
      }
    }
  }

  /** Who has accepted after a step has done so before, or by this step; the item stays. */
  lemma AcceptsAfter(s: State, st: Step, r: Id)
    requires Ok(s) && Settled(s) && r in Next(s, st).players && Next(s, st).players[r].state == Accept
    ensures r in s.players
    ensures var side := Next(s, st).players[r];
      || side == s.players[r]
      || (st.AcceptTrade? && r == st.player && MayAccept(s, r) && side == s.players[r].(state := Accept))
  {
    hide Ok, Settled, Closed, Cleaned, ClosedAll, Begun;
    match st
    case Start(p, q, i) =>
    case Cleanup => CleanedOk(s);
    case CloseTrade(p) =>
      if p in s.players {
        ClosedKeys(s, p);
        LeftOrSame(s, p, r);
      }
    case AcceptTrade(p, inSight, allowed, during) => AcceptsAfterAccept(s, p, inSight, allowed, during, r);
  }

  lemma ClosedKeys(s: State, p: Id)
    requires p in s.players
    ensures Closed(s, p).players.Keys <= s.players.Keys + {p}
  {
  }

  lemma AcceptsAfterAccept(s: State, p: Id, inSight: bool, allowed: bool, during: seq<Id>, r: Id)
    requires Ok(s) && Settled(s)
    requires var t := Accepted(s, p, inSight, allowed, during); r in t.players && t.players[r].state == Accept
    ensures r in s.players
    ensures var side := Accepted(s, p, inSight, allowed, during).players[r];
      || side == s.players[r]
      || (r == p && MayAccept(s, r) && side == s.players[r].(state := Accept))
  {
    hide Ok, Settled, Closed, Cleaned, ClosedAll, Begun;
    AcceptedOk(s, p, inSight, allowed, during);
    if MayAccept(s, p) {
      AcceptingOk(s, p);
      var q := s.players[p].partner.value;
      var t := WithState(s, p, Accept);
      if t.players[q].state == Accept {
        if !inSight || !allowed {
          ClosedKeys(t, p);
          LeftOrSame(t, p, r);
        } else {
          BegunOk(t, p, q);
          SettledMeans(t);
          ClosedAllKeeps(Begun(t, p, q), during, p, q);
          AllLeftOrSame(Begun(t, p, q), during, r);
        }
      }
    }
  }

  lemma NotedStep(s: State, st: Step, h: History)
    requires Ok(s) && Settled(s) && Noted(s, h)
    ensures Noted(Next(s, st), Noting(s, st, h))
  {
    hide Ok, Settled, Next;
    var t, now := Next(s, st), Noting(s, st, h);
    forall r | r in t.players && t.players[r].state == Accept
      ensures r in now && (now[r] == Initiated <==> t.players[r].item.Some?)
    {
      AcceptsAfter(s, st, r);
      if st.AcceptTrade? && r == st.player && MayAccept(s, r) {
        ItemOnAccept(s, r);
      }
    }
  }

  lemma {:induction false} NotedOnRuns(s: State, steps: seq<Step>, h: History)
    requires Ok(s) && Settled(s) && Noted(s, h)
    ensures Ok(Run(s, steps)) && Settled(Run(s, steps)) && Noted(Run(s, steps), HistoryOf(s, steps, h))
    decreases |steps|
  {
    hide Ok, Settled, Noted, Next, Noting;
    if steps != [] {
      NextOk(s, steps[0]);
      NotedStep(s, steps[0], h);
      NotedOnRuns(Next(s, steps[0]), steps[1..], Noting(s, steps[0], h));
    }
  }

  /** Over every run: a transfer begins with two items if and only if both players had made an offer when
      they accepted. */
  lemma BothItems(s: State, steps: seq<Step>, p: Id)
    requires Ok(s) && Settled(s) && forall r :: r in s.players ==> s.players[r].state != Accept
    requires var t := Run(s, steps); MayAccept(t, p) && t.players[t.players[p].partner.value].state == Accept
    ensures var t, h := Run(s, steps), HistoryOf(s, steps, map[]);
      var q := t.players[p].partner.value;
      var begun := Begun(WithState(t, p, Accept), p, q);
      && p in begun.players && q in begun.players && q in h
      && (begun.players[p].item.Some? && begun.players[q].item.Some? <==> t.players[p].state == Initiated && h[q] == Initiated)
  {
    hide Run, HistoryOf, Ok, Settled;
    NotedOnRuns(s, steps, map[]);
    ItemOnAccept(Run(s, steps), p);
  }

  /** So a trade can be accepted by both with one item only: the player who was asked accepts first,
      and the acceptance of the other begins the transfer. */
  lemma OneSided()
    ensures var s := Run(State(map[1 := OUT, 2 := OUT], map[], map[], []), [Start(1, 2, 7), AcceptTrade(2, true, true, [])]);
      MayAccept(s, 1) && s.players[1].partner == Some(2) && s.players[2] == Side(Accept, Some(1), None)
  {
    var s := State(map[1 := OUT, 2 := OUT], map[], map[], []);
    var t := Next(s, Start(1, 2, 7));
    assert t.players[2] == Side(Acknowledge, Some(1), None) && t.players[1] == Side(Initiated, Some(2), Some(7));
    var u := Next(t, AcceptTrade(2, true, true, []));
    assert u.players[1] == t.players[1];
    var rest := [AcceptTrade(2, true, true, [])];
    assert rest[1..] == [] && ([Start(1, 2, 7)] + rest)[1..] == rest;
    assert [Start(1, 2, 7)] + rest == [Start(1, 2, 7), AcceptTrade(2, true, true, [])];
    assert Run(t, rest) == Run(u, []) == u;
  }

  // ----- the operations

  class Trades {
    var players: map<Id, Side>
    var tradeItems: map<ItemId, Id>
    var extra: map<ItemId, nat>
    var toRelease: seq<ItemId>

    constructor (ids: set<Id>)
      ensures Ok(Now()) && Settled(Now()) && players.Keys == ids
    {
      players, tradeItems, extra, toRelease := map p | p in ids :: OUT, map[], map[], [];
      new;
      Beginning(ids);
    }

    function Now(): State
      reads this
    {
      State(players, tradeItems, extra, toRelease)
    }

    /** `internalStartTrade`, after the checks that its callers make. */
    method InternalStartTrade(player: Id, tradePartner: Id, tradeItem: ItemId) returns (ok: bool)
      requires Ok(Now()) && Settled(Now()) && Offerable(Now(), player, tradePartner, tradeItem)
      modifies this
      ensures Now() == Started(old(Now()), player, tradePartner, tradeItem) && Ok(Now()) && Settled(Now())
      ensures ok <==> MayStart(old(Now()), player, tradePartner)
      ensures ok ==>
        && player in players && players[player] == Side(Initiated, Some(tradePartner), Some(tradeItem))
        && tradeItem in tradeItems && tradeItems[tradeItem] == player
        && Extra(Now(), tradeItem) == old(Extra(Now(), tradeItem)) + 1
        && tradePartner in players && players[tradePartner] ==
             (if old(players[tradePartner].state) == Idle then Side(Acknowledge, Some(player), None) else old(players[tradePartner]))
        && (forall r :: r in old(players) && r != player && r != tradePartner ==> r in players && players[r] == old(players[r]))
        && (forall i :: i in old(tradeItems) ==> i in tradeItems && tradeItems[i] == old(tradeItems[i]))
      ensures !ok ==> Now() == old(Now())
    {
      ghost var was := Now();
      SidesOf(was, tradePartner);
      hide Ok, Settled;
      StartedOk(Now(), player, tradePartner, tradeItem);
      var me, other := players[player], players[tradePartner];
      if me.state != Idle && !(me.state == Acknowledge && me.partner == Some(tradePartner)) {
        return false;
      }
      if other.state != Idle && other.partner != Some(player) {
        return false;
      }
      players := players[player := Side(Initiated, Some(tradePartner), Some(tradeItem))];
      extra := extra[tradeItem := Extra(Now(), tradeItem) + 1];
      tradeItems := tradeItems[tradeItem := player];
      players := players[tradePartner := if other.state == Idle then other.(state := Acknowledge, partner := Some(player)) else other];
      ok := true;
    }

    /** Release the item of a player and take the player out of the trade. */
    method Leave(player: Id)
      requires player in players
      modifies this
      ensures Now() == Left(Released(old(Now()), player), player)
    {
      var item := players[player].item;
      if item.Some? && item.value in tradeItems {
        toRelease := toRelease + [item.value];
        tradeItems := tradeItems - {item.value};
      }
      players := players[player := OUT];
    }

    /** `internalCloseTrade` */
    method InternalCloseTrade(player: Id)
      requires Ok(Now()) && player in players
      modifies this
      ensures Now() == Closed(old(Now()), player) && Ok(Now())
      ensures old(players[player].state) != Transfer ==>
        && player in players && players[player] == OUT
        && (old(players[player].partner).Some? ==>
              old(players[player].partner.value) in players && players[old(players[player].partner.value)] == OUT)
      ensures forall r :: r in old(players) && r != player && old(players[r]).partner != Some(player) ==>
        r in players && players[r] == old(players[r])
    {
      hide Ok;
      ClosedOk(Now(), player);
      SidesOf(Now(), player);
      var tradePartner := players[player].partner;
      if players[player].state == Transfer ||
         (tradePartner.Some? && tradePartner.value in players && players[tradePartner.value].state == Transfer) {
        return;
      }
      Leave(player);
      if tradePartner.Some? && tradePartner.value in players {
        Leave(tradePartner.value);
      }
    }

    /** `playerAcceptTrade`; `during` are the players whose trades the moves of the transfer try to close. */
    method PlayerAcceptTrade(player: Id, inSight: bool, allowed: bool, during: seq<Id>)
      requires Ok(Now()) && Settled(Now())
      modifies this
      ensures Now() == Accepted(old(Now()), player, inSight, allowed, during) && Ok(Now()) && Settled(Now())
    {
      hide Ok, Settled, Begun, Closed, ClosedAll;
      AcceptedOk(Now(), player, inSight, allowed, during);
      if !MayAccept(Now(), player) {
        return;
      }
      AcceptingOk(Now(), player);
      var tradePartner := players[player].partner.value;
      players := players[player := players[player].(state := Accept)];
      if players[tradePartner].state == Accept {
        if !inSight || !allowed {
          InternalCloseTrade(player);
          return;
        }
        BegunOk(Now(), player, tradePartner);
        SettledMeans(Now());
        ClosedAllKeeps(Begun(Now(), player, tradePartner), during, player, tradePartner);
        BeginTransfer(player, tradePartner);
        CloseDuring(during);
        players := players[player := OUT];
        players := players[tradePartner := OUT];
      }
    }

    /** Both are in transfer, and their items are not on offer any more. */
    method BeginTransfer(player: Id, tradePartner: Id)
      requires player in players && tradePartner in players
      modifies this
      ensures Now() == Begun(old(Now()), player, tradePartner)
    {
      players := players[player := players[player].(state := Transfer)];
      players := players[tradePartner := players[tradePartner].(state := Transfer)];
      Unregister(player);
      Unregister(tradePartner);
    }

    method Unregister(player: Id)
      requires player in players
      modifies this
      ensures Now() == Released(old(Now()), player)
    {
      var item := players[player].item;
      if item.Some? && item.value in tradeItems {
        toRelease := toRelease + [item.value];
        tradeItems := tradeItems - {item.value};
      }
    }

    method CloseDuring(during: seq<Id>)
      requires Ok(Now())
      modifies this
      ensures Now() == ClosedAll(old(Now()), during)
    {
      hide Ok, Closed;
      for k := 0 to |during|
        invariant Ok(Now()) && ClosedAll(Now(), during[k..]) == ClosedAll(old(Now()), during)
      {
        assert during[k..][1..] == during[k + 1..];
        if during[k] in players {
          InternalCloseTrade(during[k]);
        }
      }
      assert during[|during|..] == [];
    }

    /** `cleanup` */
    method Cleanup()
      modifies this
      ensures Now() == Cleaned(old(Now()))
    {
      while toRelease != []
        invariant Cleaned(Now()) == Cleaned(old(Now()))
        decreases |toRelease|
      {
        var item := toRelease[0];
        extra := extra[item := if Extra(Now(), item) > 0 then Extra(Now(), item) - 1 else 0];
        toRelease := toRelease[1..];
      }
    }
  }
}
