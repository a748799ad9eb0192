/** The market: offers hold money or wares in escrow until they are accepted, cancelled or expire. */
module Market {
  import opened Wrappers
  import opened Totals

  const MAX_AMOUNT := 64000
  const MAX_PRICE := 999999999
  const MAX_UNSTACKABLE := 2000
  const ITEM_STACK_SIZE := 100

  type Id = nat

  datatype Kind = Kind(wareId: nat, stackable: bool, pickupable: bool)

  /** What no market operation changes: the item table, the table from client ids to item ids, and the
      account of every player. */
  datatype World = World(types: map<nat, Kind>, clientIds: map<nat, nat>, accounts: map<Id, nat>)

  datatype Offer = Offer(owner: Id, sell: bool, itemId: nat, amount: nat, price: nat)

  /** A row of the query for expired offers: an offer as it was when the query was made. */
  datatype Row = Row(id: nat, offer: Offer)

  /** `goods` are the units of each ware in a player's depot and inbox. */
  datatype State = State(cash: map<Id, nat>, bank: map<Id, nat>, goods: map<Id, map<nat, nat>>,
                         offers: map<nat, Offer>, nextId: nat, rows: seq<Row>)

  /** One thing that happens.  `allowed` stands for the checks on the player that need nothing from
      this state, `loads` for the success of loading a player who is not online, and `found` for the
      units that the search of depot and inbox finds. */
  datatype Step =
    | Create(p: Id, sell: bool, spriteId: nat, amount: nat, price: nat, allowed: bool, found: nat)
    | Cancel(p: Id, id: nat)
    | Accept(p: Id, id: nat, amount: nat, loads: bool, found: nat)
    | Query(ids: seq<nat>)
    | Expire(loads: bool)

  // ----- pieces of a step

  /** A hundredth of the price, within limits. */
  function Fee(price: nat, amount: nat): nat {
    var fee := price * amount / 100;
    if fee < 20 then 20 else if fee > 1000 then 1000 else fee
  }

  function Funds(s: State, p: Id): nat {
    (if p in s.cash then s.cash[p] else 0) + (if p in s.bank then s.bank[p] else 0)
  }

  /** The same players, offers and rows. */
  predicate SameBooks(s: State, now: State) {
    && now.cash.Keys == s.cash.Keys && now.bank.Keys == s.bank.Keys && now.goods.Keys == s.goods.Keys
    && now.offers == s.offers && now.nextId == s.nextId && now.rows == s.rows
  }

  /** Cash first, the rest from the bank. */
  function Pay(s: State, p: Id, n: nat): State
    requires p in s.cash && p in s.bank && n <= Funds(s, p)
  {
    var debitCash := if s.cash[p] < n then s.cash[p] else n;
    s.(cash := s.cash[p := s.cash[p] - debitCash], bank := s.bank[p := s.bank[p] - (n - debitCash)])
  }

  function Credit(s: State, p: Id, n: nat): State {
    if p in s.bank then s.(bank := s.bank[p := s.bank[p] + n]) else s
  }

  function Held(s: State, p: Id, w: nat): nat {
    if p in s.goods && w in s.goods[p] then s.goods[p][w] else 0
  }

  /** What the search for wares to sell comes up with: never more than there is. */
  function Sellable(s: State, p: Id, w: nat, found: nat): nat {
    if found < Held(s, p, w) then found else Held(s, p, w)
  }

  function SetHeld(s: State, p: Id, w: nat, n: nat): State {
    if p !in s.goods then s else
      var own: map<nat, nat> := s.goods[p][w := n];
      s.(goods := s.goods[p := own])
  }

  /** Units that arrive in a player's inbox; what cannot be picked up does not arrive. */
  function Give(s: State, p: Id, kind: Kind, n: nat): State {
    if kind.pickupable && n > 0 then SetHeld(s, p, kind.wareId, Held(s, p, kind.wareId) + n) else s
  }

  /** The item that an offer for a client id is about. */
  function Ware(world: World, spriteId: nat): (id: Option<nat>)
    ensures id.Some? ==> id.value in world.types && world.types[id.value].wareId != 0
  {
    if spriteId !in world.clientIds || world.clientIds[spriteId] !in world.types then None else
      var itt := world.types[world.clientIds[spriteId]];
      if itt.wareId == 0 || itt.wareId !in world.clientIds || world.clientIds[itt.wareId] !in world.types then None else
        var id := world.clientIds[itt.wareId];
        if world.types[id].wareId == 0 then None else Some(id)
  }

  /** All the checks on a new offer. */
  predicate MayCreate(world: World, s: State, st: Step)
    requires st.Create?
  {
    && 0 < st.amount <= MAX_AMOUNT && 0 < st.price <= MAX_PRICE
    && st.allowed && st.p in s.bank && st.p in s.cash && Ware(world, st.spriteId).Some?
    && var kind := world.types[Ware(world, st.spriteId).value];
    && (!kind.stackable ==> st.amount <= MAX_UNSTACKABLE)
    && (if st.sell then Fee(st.price, st.amount) <= Funds(s, st.p) && st.amount <= Sellable(s, st.p, kind.wareId, st.found)
        else st.price * st.amount + Fee(st.price, st.amount) <= Funds(s, st.p))
  }

  function Created(world: World, s: State, st: Step): State
    requires st.Create? && MayCreate(world, s, st)
  {
    var itemId := Ware(world, st.spriteId).value;
    var w := world.types[itemId].wareId;
    var paid :=
      if st.sell then Pay(SetHeld(s, st.p, w, Held(s, st.p, w) - st.amount), st.p, Fee(st.price, st.amount))
      else Pay(s, st.p, st.price * st.amount + Fee(st.price, st.amount));
    paid.(offers := paid.offers[s.nextId := Offer(st.p, st.sell, itemId, st.amount, st.price)], nextId := s.nextId + 1)
  }

  predicate MayCancel(world: World, s: State, p: Id, id: nat) {
    id in s.offers && s.offers[id].owner == p && p in s.bank && (s.offers[id].sell ==> s.offers[id].itemId in world.types)
  }

  function Cancelled(world: World, s: State, id: nat): State
    requires id in s.offers && (s.offers[id].sell ==> s.offers[id].itemId in world.types)
  {
    var o := s.offers[id];
    var back := if o.sell then Give(s, o.owner, world.types[o.itemId], o.amount) else Credit(s, o.owner, o.price * o.amount);
    back.(offers := back.offers - {id})
  }

  predicate MayAccept(world: World, s: State, p: Id, id: nat, amount: nat, loads: bool, found: nat) {
    && 0 < amount <= MAX_AMOUNT && p in s.bank && p in s.cash && p in world.accounts && id in s.offers
    && var o := s.offers[id];
    && o.owner in world.accounts && world.accounts[o.owner] != world.accounts[p]
    && amount <= o.amount && o.itemId in world.types
    && (if o.sell then o.price * amount <= Funds(s, p) else loads && amount <= Sellable(s, p, world.types[o.itemId].wareId, found))
  }

  /** The exchange of money and wares. */
  function Traded(world: World, s: State, p: Id, o: Offer, amount: nat): State
    requires p in s.cash && p in s.bank && o.itemId in world.types
    requires if o.sell then o.price * amount <= Funds(s, p) else amount <= Held(s, p, world.types[o.itemId].wareId)
  {
    var kind := world.types[o.itemId];
    if o.sell then Credit(Give(Pay(s, p, o.price * amount), p, kind, amount), o.owner, o.price * amount)
    else
      var sold := SetHeld(s, p, kind.wareId, Held(s, p, kind.wareId) - amount);
      Give(Credit(sold, p, o.price * amount), o.owner, kind, amount)
  }

  function Accepted(world: World, s: State, p: Id, id: nat, amount: nat): State
    requires p in s.cash && p in s.bank && id in s.offers && amount <= s.offers[id].amount && s.offers[id].itemId in world.types
    requires var o := s.offers[id];
      if o.sell then o.price * amount <= Funds(s, p) else amount <= Held(s, p, world.types[o.itemId].wareId)
  {
    var o := s.offers[id];
    Traded(world, s, p, o, amount).(offers :=
      if o.amount == amount then s.offers - {id} else s.offers[id := o.(amount := o.amount - amount)])
  }

  /** The rows that the query finds. */
  function RowsOf(s: State, ids: seq<nat>): seq<Row> {
    if ids == [] then []
    else (if ids[0] in s.offers then [Row(ids[0], s.offers[ids[0]])] else []) + RowsOf(s, ids[1..])
  }

  /** One turn of the loop over expired rows.  It pays out what the row says. */
  function Expired(world: World, s: State, loads: bool): State
    requires s.rows != []
  {
    var row, rest := s.rows[0], s.(rows := s.rows[1..]);
    if row.id !in s.offers then rest else
      var o := row.offer;
      var back :=
        if !o.sell then Credit(rest, o.owner, o.price * o.amount)
        else if o.itemId !in world.types || !loads then rest
        else Give(rest, o.owner, world.types[o.itemId], o.amount);
      back.(offers := back.offers - {row.id})
  }

  function Next(world: World, s: State, st: Step): State {
    match st
    case Create(_, _, _, _, _, _, _) => if MayCreate(world, s, st) then Created(world, s, st) else s
    case Cancel(p, id) => if MayCancel(world, s, p, id) then Cancelled(world, s, id) else s
    case Accept(p, id, amount, loads, found) => if MayAccept(world, s, p, id, amount, loads, found) then Accepted(world, s, p, id, amount) else s
    case Query(ids) => s.(rows := s.rows + RowsOf(s, ids))
    case Expire(loads) => if s.rows == [] then s else Expired(world, s, loads)
  }

  function Run(world: World, s: State, steps: seq<Step>): State
    decreases |steps|
  {
    if steps == [] then s else Run(world, Next(world, s, steps[0]), steps[1..])
  }

  // ----- totals

  function MoneyIn(o: Offer): int {
    if o.sell then 0 else o.price * o.amount
  }

  function UnitsIn(world: World, o: Offer, w: nat): int {
    if o.sell && o.itemId in world.types && world.types[o.itemId].wareId == w then o.amount else 0
  }

  function EscrowMoney(offers: map<nat, Offer>): map<nat, int> {
    map id | id in offers :: MoneyIn(offers[id])
  }

  function EscrowUnits(world: World, offers: map<nat, Offer>, w: nat): map<nat, int> {
    map id | id in offers :: UnitsIn(world, offers[id], w)
  }

  function GoodsOf(s: State, w: nat): map<nat, int> {
    map p | p in s.goods :: Held(s, p, w)
  }

  /** All money: cash, bank balances, and what buy offers hold. */
  ghost function Money(s: State): int {
    Total(s.cash) + Total(s.bank) + Total(EscrowMoney(s.offers))
  }

  /** All units of a ware: what players hold and what sell offers hold. */
  ghost function Units(world: World, s: State, w: nat): int {
    Total(GoodsOf(s, w)) + Total(EscrowUnits(world, s.offers, w))
  }

  // ----- what the pieces do to the totals

  lemma PayTotals(world: World, s: State, p: Id, n: nat, w: nat)
    requires p in s.cash && p in s.bank && n <= Funds(s, p)
    ensures Money(Pay(s, p, n)) == Money(s) - n && Units(world, Pay(s, p, n), w) == Units(world, s, w)
  {
    TotalSet(s.cash, p, Pay(s, p, n).cash[p]);
    TotalSet(s.bank, p, Pay(s, p, n).bank[p]);
    assert GoodsOf(Pay(s, p, n), w) == GoodsOf(s, w);
  }

  lemma CreditTotals(world: World, s: State, p: Id, n: nat, w: nat)
    requires p in s.bank
    ensures Money(Credit(s, p, n)) == Money(s) + n && Units(world, Credit(s, p, n), w) == Units(world, s, w)
  {
    TotalSet(s.bank, p, s.bank[p] + n);
    assert GoodsOf(Credit(s, p, n), w) == GoodsOf(s, w);
  }

  lemma HeldTotals(world: World, s: State, p: Id, v: nat, n: nat, w: nat)
    requires p in s.goods
    ensures Money(SetHeld(s, p, v, n)) == Money(s)
    ensures Units(world, SetHeld(s, p, v, n), w) == Units(world, s, w) + if v == w then n - Held(s, p, v) else 0
  {
    var now := SetHeld(s, p, v, n);
    TotalSet(GoodsOf(s, w), p, Held(now, p, w));
    assert GoodsOf(now, w) == GoodsOf(s, w)[p := Held(now, p, w)];
  }

  lemma GiveTotals(world: World, s: State, p: Id, kind: Kind, n: nat, w: nat)
    requires p in s.goods
    ensures Money(Give(s, p, kind, n)) == Money(s)
    ensures Units(world, Give(s, p, kind, n), w) ==
      Units(world, s, w) + if kind.pickupable && kind.wareId == w then n else 0
  {
    if kind.pickupable && n > 0 {
      HeldTotals(world, s, p, kind.wareId, Held(s, p, kind.wareId) + n, w);
    }
  }

  lemma OfferTotals(world: World, s: State, id: nat, o: Offer, w: nat)
    ensures var now := s.(offers := s.offers[id := o]);
      && Money(now) == Money(s) + MoneyIn(o) - (if id in s.offers then MoneyIn(s.offers[id]) else 0)
      && Units(world, now, w) ==
         Units(world, s, w) + UnitsIn(world, o, w) - (if id in s.offers then UnitsIn(world, s.offers[id], w) else 0)
  {
    hide MoneyIn, UnitsIn, Total;
    var now := s.(offers := s.offers[id := o]);
    TotalSet(EscrowMoney(s.offers), id, MoneyIn(o));
    TotalSet(EscrowUnits(world, s.offers, w), id, UnitsIn(world, o, w));
    assert EscrowMoney(now.offers) == EscrowMoney(s.offers)[id := MoneyIn(o)];
    assert EscrowUnits(world, now.offers, w) == EscrowUnits(world, s.offers, w)[id := UnitsIn(world, o, w)];
    assert GoodsOf(now, w) == GoodsOf(s, w);
  }

  lemma ClosedTotals(world: World, s: State, id: nat, w: nat)
    requires id in s.offers
    ensures var now := s.(offers := s.offers - {id});
      && Money(now) == Money(s) - MoneyIn(s.offers[id])
      && Units(world, now, w) == Units(world, s, w) - UnitsIn(world, s.offers[id], w)
  {
    var now := s.(offers := s.offers - {id});
    TotalWithout(EscrowMoney(s.offers), id);
    TotalWithout(EscrowUnits(world, s.offers, w), id);
    assert EscrowMoney(now.offers) == EscrowMoney(s.offers) - {id};
    assert EscrowUnits(world, now.offers, w) == EscrowUnits(world, s.offers, w) - {id};
    assert GoodsOf(now, w) == GoodsOf(s, w);
  }

  lemma RowsTotals(world: World, s: State, rows: seq<Row>, nextId: nat, w: nat)
    ensures var now := s.(rows := rows, nextId := nextId); Money(now) == Money(s) && Units(world, now, w) == Units(world, s, w)
  {
    assert GoodsOf(s.(rows := rows, nextId := nextId), w) == GoodsOf(s, w);
  }

  // ----- what every step keeps

  predicate OfferOk(world: World, s: State, o: Offer) {
    && o.owner in s.bank && 0 < o.amount <= MAX_AMOUNT && 0 < o.price <= MAX_PRICE && o.itemId in world.types
  }

  /** A row remembers an offer as it was once: since then some of it may have been accepted. */
  predicate RowOk(s: State, row: Row) {
    && row.id < s.nextId
    && (row.id in s.offers ==>
          s.offers[row.id] == row.offer.(amount := s.offers[row.id].amount) && s.offers[row.id].amount <= row.offer.amount)
  }

  predicate Ok(world: World, s: State) {
    && s.cash.Keys == s.bank.Keys == s.goods.Keys
    && (forall id :: id in s.offers ==> id < s.nextId && OfferOk(world, s, s.offers[id]))
    && (forall k :: 0 <= k < |s.rows| ==> RowOk(s, s.rows[k]))
  }

  lemma {:induction false} RowsOfOk(s: State, ids: seq<nat>)
    requires forall id :: id in s.offers ==> id < s.nextId
    ensures forall k :: 0 <= k < |RowsOf(s, ids)| ==> RowOk(s, RowsOf(s, ids)[k])
  {
    if ids != [] {
      RowsOfOk(s, ids[1..]);
      var rest := RowsOf(s, ids[1..]);
      assert RowsOf(s, ids) == (if ids[0] in s.offers then [Row(ids[0], s.offers[ids[0]])] else []) + rest;
    }
  }

  lemma CreateOk(world: World, s: State, st: Step)
    requires Ok(world, s) && st.Create? && MayCreate(world, s, st)
    ensures Ok(world, Created(world, s, st))
  {
  }

  /** Fewer rows, fewer offers and smaller offers are in order if more were. */
  lemma FewerOk(world: World, s: State, now: State)
    requires Ok(world, s) && now.nextId == s.nextId
    requires now.cash.Keys == s.cash.Keys && now.bank.Keys == s.bank.Keys && now.goods.Keys == s.goods.Keys
    requires forall id :: id in now.offers ==> (
      && id in s.offers && 0 < now.offers[id].amount <= s.offers[id].amount
      && now.offers[id] == s.offers[id].(amount := now.offers[id].amount))
    requires forall k :: 0 <= k < |now.rows| ==> now.rows[k] in s.rows
    ensures Ok(world, now)
  {
  }

  lemma OkMeans(world: World, s: State)
    requires Ok(world, s)
    ensures s.cash.Keys == s.bank.Keys == s.goods.Keys
    ensures forall id :: id in s.offers ==> s.offers[id].owner in s.bank && s.offers[id].amount > 0
  {
  }

  lemma PayBooks(s: State, p: Id, n: nat)
    requires p in s.cash && p in s.bank && n <= Funds(s, p)
    ensures SameBooks(s, Pay(s, p, n))
  {
  }

  lemma CreditBooks(s: State, p: Id, n: nat)
    ensures SameBooks(s, Credit(s, p, n))
  {
  }

  lemma GiveBooks(s: State, p: Id, kind: Kind, n: nat, v: nat, m: nat)
    ensures SameBooks(s, Give(s, p, kind, n)) && SameBooks(s, SetHeld(s, p, v, m))
  {
  }

  lemma CancelOk(world: World, s: State, p: Id, id: nat)
    requires Ok(world, s) && MayCancel(world, s, p, id)
    ensures Ok(world, Cancelled(world, s, id))
  {
    OkMeans(world, s);
    hide Ok, Held, Give, Credit;
    var o := s.offers[id];
    CreditBooks(s, o.owner, o.price * o.amount);
    if o.sell {
      GiveBooks(s, o.owner, world.types[o.itemId], o.amount, 0, 0);
    }
    FewerOk(world, s, Cancelled(world, s, id));
  }

  lemma TradedBooks(world: World, s: State, p: Id, o: Offer, amount: nat)
    requires p in s.cash && p in s.bank && o.itemId in world.types
    requires if o.sell then o.price * amount <= Funds(s, p) else amount <= Held(s, p, world.types[o.itemId].wareId)
    ensures SameBooks(s, Traded(world, s, p, o, amount))
  {
    hide Held, Funds, Give, Credit, Pay, SetHeld;
    var kind, price, left := world.types[o.itemId], o.price * amount, Held(s, p, world.types[o.itemId].wareId) - amount;
    if o.sell {
      PayBooks(s, p, price);
      GiveBooks(Pay(s, p, price), p, kind, amount, 0, 0);
      CreditBooks(Give(Pay(s, p, price), p, kind, amount), o.owner, price);
    } else {
      var sold := SetHeld(s, p, kind.wareId, left);
      GiveBooks(s, p, kind, 0, kind.wareId, left);
      CreditBooks(sold, p, price);
      GiveBooks(Credit(sold, p, price), o.owner, kind, amount, 0, 0);
    }
  }

  lemma AcceptOk(world: World, s: State, p: Id, id: nat, amount: nat, loads: bool, found: nat)
    requires Ok(world, s) && MayAccept(world, s, p, id, amount, loads, found)
    ensures Ok(world, Accepted(world, s, p, id, amount))
  {
    OkMeans(world, s);
    hide Ok, Held, Funds, Traded;
    TradedBooks(world, s, p, s.offers[id], amount);
    FewerOk(world, s, Accepted(world, s, p, id, amount));
  }

  lemma ExpireOk(world: World, s: State, loads: bool)
    requires Ok(world, s) && s.rows != []
    ensures Ok(world, Expired(world, s, loads))
  {
    OkMeans(world, s);
    hide Ok, Expired;
    ExpireBooks(world, s, loads);
    FewerOk(world, s, Expired(world, s, loads));
  }

  lemma KeepsOk(world: World, s: State, st: Step)
    requires Ok(world, s)
    ensures Ok(world, Next(world, s, st))
  {
    hide Ok, Created, Cancelled, Accepted, Expired;
    match st
    case Create(_, _, _, _, _, _, _) =>
      if MayCreate(world, s, st) {
        CreateOk(world, s, st);
      }
    case Cancel(p, id) =>
      if MayCancel(world, s, p, id) {
        CancelOk(world, s, p, id);
      }
    case Accept(p, id, amount, loads, found) =>
      if MayAccept(world, s, p, id, amount, loads, found) {
        AcceptOk(world, s, p, id, amount, loads, found);
      }
    case Query(ids) => QueryOk(world, s, ids);
    case Expire(loads) =>
      if s.rows != [] {
        ExpireOk(world, s, loads);
      }
  }

  lemma QueryOk(world: World, s: State, ids: seq<nat>)
    requires Ok(world, s)
    ensures Ok(world, s.(rows := s.rows + RowsOf(s, ids)))
  {
    RowsOfOk(s, ids);
  }

  // ----- conservation, step by step

  /** Money that a step takes out of the world: the fee of a new offer. */
  function FeeOf(world: World, s: State, st: Step): nat {
    if st.Create? && MayCreate(world, s, st) then Fee(st.price, st.amount) else 0
  }

  /** The next row is about an offer that is still there, and the units it pays out too many: those
      that were accepted after the query. */
  predicate Due(s: State) {
    s.rows != [] && s.rows[0].id in s.offers
  }

  function Excess(s: State): int
    requires Due(s)
  {
    s.rows[0].offer.amount - s.offers[s.rows[0].id].amount
  }

  /** Money that a step brings into the world. */
  function MoneyMade(s: State, st: Step): int {
    if st.Expire? && Due(s) && !s.rows[0].offer.sell then s.rows[0].offer.price * Excess(s) else 0
  }

  /** Units of a ware that a step brings into the world, or takes out of it. */
  function UnitsMade(world: World, s: State, st: Step, w: nat): int {
    match st
    case Create(_, _, _, _, _, _, _) => 0
    case Cancel(p, id) =>
      if MayCancel(world, s, p, id) && s.offers[id].sell && !world.types[s.offers[id].itemId].pickupable
      then 0 - UnitsIn(world, s.offers[id], w) else 0
    case Accept(p, id, amount, loads, found) =>
      if MayAccept(world, s, p, id, amount, loads, found)
        && var kind := world.types[s.offers[id].itemId]; !kind.pickupable && kind.wareId == w
      then 0 - amount else 0
    case Query(ids) => 0
    case Expire(loads) =>
      if !Due(s) || UnitsIn(world, s.rows[0].offer, w) == 0 then 0
      else if loads && world.types[s.rows[0].offer.itemId].pickupable then Excess(s)
      else 0 - s.offers[s.rows[0].id].amount
  }

  lemma CreateTotals(world: World, s: State, st: Step, w: nat)
    requires Ok(world, s) && st.Create? && MayCreate(world, s, st)
    ensures Money(Created(world, s, st)) == Money(s) - Fee(st.price, st.amount)
    ensures Units(world, Created(world, s, st), w) == Units(world, s, w)
  {
    hide Money, Units, Total;
    var itemId := Ware(world, st.spriteId).value;
    var v := world.types[itemId].wareId;
    var o := Offer(st.p, st.sell, itemId, st.amount, st.price);
    var paid;
    if st.sell {
      HeldTotals(world, s, st.p, v, Held(s, st.p, v) - st.amount, w);
      var taken := SetHeld(s, st.p, v, Held(s, st.p, v) - st.amount);
      PayTotals(world, taken, st.p, Fee(st.price, st.amount), w);
      paid := Pay(taken, st.p, Fee(st.price, st.amount));
    } else {
      PayTotals(world, s, st.p, st.price * st.amount + Fee(st.price, st.amount), w);
      paid := Pay(s, st.p, st.price * st.amount + Fee(st.price, st.amount));
    }
    OfferTotals(world, paid, s.nextId, o, w);
    var posted := paid.(offers := paid.offers[s.nextId := o]);
    RowsTotals(world, posted, posted.rows, s.nextId + 1, w);
  }

  lemma CancelTotals(world: World, s: State, p: Id, id: nat, w: nat)
    requires Ok(world, s) && MayCancel(world, s, p, id)
    ensures Money(Cancelled(world, s, id)) == Money(s)
    ensures Units(world, Cancelled(world, s, id), w) == Units(world, s, w) + UnitsMade(world, s, Cancel(p, id), w)
  {
    hide Money, Units, Total;
    var o := s.offers[id];
    var back;
    if o.sell {
      back := Give(s, o.owner, world.types[o.itemId], o.amount);
      GiveTotals(world, s, o.owner, world.types[o.itemId], o.amount, w);
    } else {
      back := Credit(s, o.owner, o.price * o.amount);
      CreditTotals(world, s, o.owner, o.price * o.amount, w);
    }
    ClosedTotals(world, back, id, w);
  }

  /** A trade moves money between its sides, and units that can be picked up. */
  lemma TradedTotals(world: World, s: State, p: Id, id: nat, amount: nat, loads: bool, found: nat, w: nat)
    requires Ok(world, s) && MayAccept(world, s, p, id, amount, loads, found)
    ensures var o, t := s.offers[id], Traded(world, s, p, s.offers[id], amount);
      var kind := world.types[o.itemId];
      && t.offers == s.offers && Money(t) == Money(s) + (if o.sell then 0 else o.price * amount)
      && Units(world, t, w) == Units(world, s, w) +
           (if kind.wareId != w then 0 else (if kind.pickupable then amount else 0) - if o.sell then 0 else amount)
  {
    hide Money, Units, Total;
    var o := s.offers[id];
    var kind, price := world.types[o.itemId], o.price * amount;
    if o.sell {
      PayTotals(world, s, p, price, w);
      GiveTotals(world, Pay(s, p, price), p, kind, amount, w);
      CreditTotals(world, Give(Pay(s, p, price), p, kind, amount), o.owner, price, w);
    } else {
      var sold := SetHeld(s, p, kind.wareId, Held(s, p, kind.wareId) - amount);
      HeldTotals(world, s, p, kind.wareId, Held(s, p, kind.wareId) - amount, w);
      CreditTotals(world, sold, p, price, w);
      GiveTotals(world, Credit(sold, p, price), o.owner, kind, amount, w);
    }
  }

  lemma AcceptTotals(world: World, s: State, p: Id, id: nat, amount: nat, loads: bool, found: nat, w: nat)
    requires Ok(world, s) && MayAccept(world, s, p, id, amount, loads, found)
    ensures Money(Accepted(world, s, p, id, amount)) == Money(s)
    ensures Units(world, Accepted(world, s, p, id, amount), w) ==
      Units(world, s, w) + UnitsMade(world, s, Accept(p, id, amount, loads, found), w)
  {
    hide Money, Units, Total, Traded;
    var o := s.offers[id];
    var traded := Traded(world, s, p, o, amount);
    TradedTotals(world, s, p, id, amount, loads, found, w);
    if o.amount == amount {
      ClosedTotals(world, traded, id, w);
    } else {
      OfferTotals(world, traded, id, o.(amount := o.amount - amount), w);
      assert o.price * (o.amount - amount) == o.price * o.amount - o.price * amount;
    }
  }

  lemma ExpireTotals(world: World, s: State, loads: bool, w: nat)
    requires Ok(world, s) && s.rows != []
    ensures Money(Expired(world, s, loads)) == Money(s) + MoneyMade(s, Expire(loads))
    ensures Units(world, Expired(world, s, loads), w) == Units(world, s, w) + UnitsMade(world, s, Expire(loads), w)
  {
    hide Money, Units, Total;
    var row, rest := s.rows[0], s.(rows := s.rows[1..]);
    RowsTotals(world, s, s.rows[1..], s.nextId, w);
    assert RowOk(s, s.rows[0]);
    if row.id in s.offers {
      var o, cur := row.offer, s.offers[row.id];
      var back;
      if !o.sell {
        back := Credit(rest, o.owner, o.price * o.amount);
        CreditTotals(world, rest, o.owner, o.price * o.amount, w);
        assert o.price * (o.amount - cur.amount) == o.price * o.amount - o.price * cur.amount;
      } else if o.itemId !in world.types || !loads {
        back := rest;
      } else {
        back := Give(rest, o.owner, world.types[o.itemId], o.amount);
        GiveTotals(world, rest, o.owner, world.types[o.itemId], o.amount, w);
      }
      ClosedTotals(world, back, row.id, w);
    }
  }

  /** What every step does to all the money and to all the units of every ware. */
  lemma StepTotals(world: World, s: State, st: Step, w: nat)
    requires Ok(world, s)
    ensures Money(Next(world, s, st)) == Money(s) - FeeOf(world, s, st) + MoneyMade(s, st)
    ensures Units(world, Next(world, s, st), w) == Units(world, s, w) + UnitsMade(world, s, st, w)
  {
    hide Money, Units, Created, Cancelled, Accepted, Expired;
    match st
    case Create(_, _, _, _, _, _, _) =>
      if MayCreate(world, s, st) {
        CreateTotals(world, s, st, w);
      }
    case Cancel(p, id) =>
      if MayCancel(world, s, p, id) {
        CancelTotals(world, s, p, id, w);
      }
    case Accept(p, id, amount, loads, found) =>
      if MayAccept(world, s, p, id, amount, loads, found) {
        AcceptTotals(world, s, p, id, amount, loads, found, w);
      }
    case Query(ids) => RowsTotals(world, s, s.rows + RowsOf(s, ids), s.nextId, w);
    case Expire(loads) =>
      if s.rows != [] {
        ExpireTotals(world, s, loads, w);
      }
  }

  // ----- conservation, exactly

  /** Something was accepted from the offer after the query for expired offers, before its row. */
  predicate Stale(s: State, st: Step) {
    st.Expire? && Due(s) && s.rows[0].offer.amount != s.offers[s.rows[0].id].amount
  }

  /** The owner of an expired sell offer cannot be loaded. */
  predicate Ownerless(s: State, st: Step) {
    st.Expire? && Due(s) && !st.loads
  }

  /** The ware that a step would hand over, if it hands over any. */
  function HandedOver(world: World, s: State, st: Step): Option<nat> {
    match st
    case Cancel(p, id) => if MayCancel(world, s, p, id) && s.offers[id].sell then Some(s.offers[id].itemId) else None
    case Accept(p, id, amount, loads, found) => if MayAccept(world, s, p, id, amount, loads, found) then Some(s.offers[id].itemId) else None
    case Expire(_) => if Due(s) && s.rows[0].offer.sell then Some(s.rows[0].offer.itemId) else None
    case _ => None
  }

  predicate HandsOver(world: World, s: State, st: Step, w: nat) {
    var id := HandedOver(world, s, st);
    id.Some? && id.value in world.types && world.types[id.value].wareId == w
  }

  /** Apart from the fee of a new offer, a step keeps all money if and only if it does not pay back a
      buy offer from a stale row; and it keeps the units of every ware if and only if it does not hand
      some over that cannot be picked up, or from a stale row, or to nobody. */
  lemma KeptExactly(world: World, s: State, st: Step, w: nat)
    requires Ok(world, s)
    ensures Money(Next(world, s, st)) == Money(s) - FeeOf(world, s, st) <==> !(Stale(s, st) && !s.rows[0].offer.sell)
    ensures Units(world, Next(world, s, st), w) == Units(world, s, w) <==>
      (HandsOver(world, s, st, w) ==>
         world.types[HandedOver(world, s, st).value].pickupable && !Stale(s, st) && !Ownerless(s, st))
  {
    hide Money, Units, Next, FeeOf;
    StepTotals(world, s, st, w);
    if st.Expire? && Due(s) {
      var o := s.rows[0].offer;
      assert RowOk(s, s.rows[0]) && OfferOk(world, s, s.offers[s.rows[0].id]);
      NonZero(o.price, Excess(s));
    }
  }

  lemma NonZero(a: int, b: int)
    requires a > 0
    ensures a * b == 0 <==> b == 0
    ensures b >= 0 ==> a * b >= 0
  {
  }

  // ----- conservation over runs

  function Fees(world: World, s: State, steps: seq<Step>): nat
    decreases |steps|
  {
    if steps == [] then 0 else FeeOf(world, s, steps[0]) + Fees(world, Next(world, s, steps[0]), steps[1..])
  }

  /** How many offers a run creates. */
  function Creations(world: World, s: State, steps: seq<Step>): nat
    decreases |steps|
  {
    if steps == [] then 0 else
      (if FeeOf(world, s, steps[0]) > 0 then 1 else 0) + Creations(world, Next(world, s, steps[0]), steps[1..])
  }

  /** No step of the run meets a stale row, a player who cannot be loaded, or a ware that cannot be
      picked up. */
  predicate Clean(world: World, s: State, steps: seq<Step>)
    decreases |steps|
  {
    steps == [] ||
    (&& !Stale(s, steps[0]) && !Ownerless(s, steps[0])
     && (var id := HandedOver(world, s, steps[0]); id.Some? && id.value in world.types ==> world.types[id.value].pickupable)
     && Clean(world, Next(world, s, steps[0]), steps[1..]))
  }

  /** Whatever happens, the books stay in order and money is never lost but for the fees, of which
      every new offer costs between 20 and 1000; a clean run keeps the rest of the money and all
      units of every ware. */
  lemma {:induction false} RunConserves(world: World, s: State, steps: seq<Step>, w: nat)
    requires Ok(world, s)
    ensures Ok(world, Run(world, s, steps))
    ensures Money(Run(world, s, steps)) >= Money(s) - Fees(world, s, steps)
    ensures 20 * Creations(world, s, steps) <= Fees(world, s, steps) <= 1000 * Creations(world, s, steps)
    ensures Clean(world, s, steps) ==>
      && Money(Run(world, s, steps)) == Money(s) - Fees(world, s, steps)
      && Units(world, Run(world, s, steps), w) == Units(world, s, w)
    decreases |steps|
  {
    hide Ok, Money, Units, Next, Stale, HandedOver, FeeOf;
    if steps != [] {
      KeepsOk(world, s, steps[0]);
      KeptExactly(world, s, steps[0], w);
      FeeBounds(world, s, steps[0]);
      MoneyNotLost(world, s, steps[0]);
      RunConserves(world, Next(world, s, steps[0]), steps[1..], w);
    }
  }

  lemma FeeBounds(world: World, s: State, st: Step)
    ensures FeeOf(world, s, st) == 0 || 20 <= FeeOf(world, s, st) <= 1000
  {
  }

  lemma MoneyNotLost(world: World, s: State, st: Step)
    requires Ok(world, s)
    ensures Money(Next(world, s, st)) >= Money(s) - FeeOf(world, s, st)
  {
    hide Money, Units, Next, FeeOf;
    StepTotals(world, s, st, 0);
    if st.Expire? && Due(s) {
      assert RowOk(s, s.rows[0]);
      NonZero(s.offers[s.rows[0].id].price, Excess(s)) by {
        assert OfferOk(world, s, s.offers[s.rows[0].id]);
      }
    }
  }

  /** A buy offer for two units, of which one is sold between the query for expired offers and the
      turn of its row: the buyer is paid back the price of both. */
  lemma StaleRowMakesMoney() returns (world: World, s: State, steps: seq<Step>)
    ensures Ok(world, s) && Money(Run(world, s, steps)) == Money(s) - Fees(world, s, steps) + 100
  {
    hide Money, Units, Run, Fees, Next, Ok, FeeOf, MoneyMade;
    var s1, s2;
    world, s, steps, s1, s2 := StaleSteps();
    KeepsOk(world, s, steps[0]);
    KeepsOk(world, s1, steps[1]);
    StepTotals(world, s, steps[0], 0);
    StepTotals(world, s1, steps[1], 0);
    StepTotals(world, s2, steps[2], 0);
    RunThree(world, s, steps);
  }

  lemma StaleSteps() returns (world: World, s: State, steps: seq<Step>, s1: State, s2: State)
    ensures Ok(world, s) && |steps| == 3 && s1 == Next(world, s, steps[0]) && s2 == Next(world, s1, steps[1])
    ensures MoneyMade(s, steps[0]) == 0 && MoneyMade(s1, steps[1]) == 0 && MoneyMade(s2, steps[2]) == 100
  {
    hide Fees, Run;
    world := World(map[1 := Kind(1, true, true)], map[1 := 1], map[1 := 1, 2 := 2]);
    s := State(map[1 := 0, 2 := 0], map[1 := 780, 2 := 1000], map[1 := map[], 2 := map[1 := 5]],
               map[0 := Offer(1, false, 1, 2, 100)], 1, []);
    steps := [Query([0]), Accept(2, 0, 1, true, 5), Expire(true)];
    assert RowsOf(s, [0]) == [Row(0, s.offers[0])] + RowsOf(s, []);
    s1 := Next(world, s, steps[0]);
    assert s1.rows == [Row(0, Offer(1, false, 1, 2, 100))];
    assert MayAccept(world, s1, 2, 0, 1, true, 5);
    s2 := Next(world, s1, steps[1]);
    assert s2.offers[0] == Offer(1, false, 1, 1, 100) && s2.rows == s1.rows;
  }

  lemma RunThree(world: World, s: State, steps: seq<Step>)
    requires |steps| == 3
    ensures var s1 := Next(world, s, steps[0]); var s2 := Next(world, s1, steps[1]);
      && Run(world, s, steps) == Next(world, s2, steps[2])
      && Fees(world, s, steps) == FeeOf(world, s, steps[0]) + FeeOf(world, s1, steps[1]) + FeeOf(world, s2, steps[2])
  {
    hide Next, FeeOf;
    var s1 := Next(world, s, steps[0]);
    var s2 := Next(world, s1, steps[1]);
    var s3 := Next(world, s2, steps[2]);
    assert steps[1..][1..] == steps[2..] && steps[2..][1..] == [];
    assert Run(world, s3, []) == s3 && Run(world, s2, steps[2..]) == s3;
    assert Fees(world, s3, []) == 0 && Fees(world, s2, steps[2..]) == FeeOf(world, s2, steps[2]);
  }

  // ----- who gets what

  /** What a step makes a player richer by. */
  function FundsMade(world: World, s: State, st: Step, q: Id): int {
    match st
    case Create(p, sell, _, amount, price, _, _) =>
      if MayCreate(world, s, st) && q == p then 0 - Fee(price, amount) - (if sell then 0 else price * amount) else 0
    case Cancel(p, id) =>
      if MayCancel(world, s, p, id) && !s.offers[id].sell && q == p then s.offers[id].price * s.offers[id].amount else 0
    case Accept(p, id, amount, loads, found) =>
      if !MayAccept(world, s, p, id, amount, loads, found) then 0
      else if s.offers[id].sell then
        (if q == p then 0 - (s.offers[id].price * amount) else if q == s.offers[id].owner then s.offers[id].price * amount else 0)
      else if q == p then s.offers[id].price * amount else 0
    case Query(_) => 0
    case Expire(_) =>
      if Due(s) && !s.rows[0].offer.sell && q == s.rows[0].offer.owner then s.rows[0].offer.price * s.rows[0].offer.amount else 0
  }

  /** The units of a ware that a player gets or gives in a step. */
  function HeldMade(world: World, s: State, st: Step, q: Id, w: nat): int {
    match st
    case Create(p, sell, spriteId, amount, _, _, _) =>
      if MayCreate(world, s, st) && sell && q == p && world.types[Ware(world, spriteId).value].wareId == w then 0 - amount else 0
    case Cancel(p, id) =>
      if MayCancel(world, s, p, id) && s.offers[id].sell && q == p && Arrives(world, s.offers[id], w) then s.offers[id].amount else 0
    case Accept(p, id, amount, loads, found) =>
      if !MayAccept(world, s, p, id, amount, loads, found) then 0
      else
        var o := s.offers[id];
        var buyer, seller := if o.sell then p else o.owner, if o.sell then o.owner else p;
        (if q == buyer && Arrives(world, o, w) then amount else 0) -
        (if !o.sell && q == seller && world.types[o.itemId].wareId == w then amount else 0)
    case Query(_) => 0
    case Expire(loads) =>
      if Due(s) && loads && s.rows[0].offer.sell && q == s.rows[0].offer.owner && Arrives(world, s.rows[0].offer, w)
      then s.rows[0].offer.amount else 0
  }

  /** The offer is about this ware, and an inbox takes it. */
  predicate Arrives(world: World, o: Offer, w: nat) {
    o.itemId in world.types && world.types[o.itemId].wareId == w && world.types[o.itemId].pickupable
  }

  /** Gains go to the bank; payments come out of the cash, and out of the bank once there is none. */
  predicate CashFirst(s: State, t: State, q: Id) {
    q in s.cash && q in s.bank ==>
      && q in t.cash && q in t.bank && t.cash[q] <= s.cash[q] && (t.bank[q] < s.bank[q] ==> t.cash[q] == 0)
      && (Funds(t, q) >= Funds(s, q) ==> t.cash[q] == s.cash[q])
  }

  lemma PayEach(s: State, p: Id, n: nat, q: Id, w: nat)
    requires p in s.cash && p in s.bank && n <= Funds(s, p)
    ensures var t := Pay(s, p, n);
      Funds(t, q) == Funds(s, q) - (if q == p then n else 0) && Held(t, q, w) == Held(s, q, w) && CashFirst(s, t, q)
  {
  }

  lemma CreditEach(s: State, p: Id, n: nat, q: Id, w: nat)
    requires p in s.bank
    ensures var t := Credit(s, p, n);
      Funds(t, q) == Funds(s, q) + (if q == p then n else 0) && Held(t, q, w) == Held(s, q, w) && CashFirst(s, t, q) && t.cash == s.cash
  {
  }

  lemma SetEach(s: State, p: Id, v: nat, n: nat, q: Id, w: nat)
    requires p in s.goods
    ensures var t := SetHeld(s, p, v, n);
      && t.cash == s.cash && t.bank == s.bank && Funds(t, q) == Funds(s, q)
      && Held(t, q, w) == if q == p && w == v then n else Held(s, q, w)
  {
  }

  lemma GiveEach(s: State, p: Id, kind: Kind, n: nat, q: Id, w: nat)
    requires p in s.goods
    ensures var t := Give(s, p, kind, n);
      && t.cash == s.cash && t.bank == s.bank && Funds(t, q) == Funds(s, q)
      && Held(t, q, w) == Held(s, q, w) + if q == p && kind.wareId == w && kind.pickupable then n else 0
  {
    hide Funds;
    if kind.pickupable && n > 0 {
      SetEach(s, p, kind.wareId, Held(s, p, kind.wareId) + n, q, w);
    }
  }

  lemma CreateEach(world: World, s: State, st: Step, q: Id, w: nat)
    requires Ok(world, s) && st.Create? && MayCreate(world, s, st)
    ensures var t := Created(world, s, st);
      && Funds(t, q) == Funds(s, q) + FundsMade(world, s, st, q) && Held(t, q, w) == Held(s, q, w) + HeldMade(world, s, st, q, w)
      && CashFirst(s, t, q)
  {
    hide Pay, SetHeld, Fee, Ware;
    var p, v := st.p, world.types[Ware(world, st.spriteId).value].wareId;
    if st.sell {
      var taken := SetHeld(s, p, v, Held(s, p, v) - st.amount);
      SetEach(s, p, v, Held(s, p, v) - st.amount, q, w);
      SetEach(s, p, v, Held(s, p, v) - st.amount, p, w);
      PayEach(taken, p, Fee(st.price, st.amount), q, w);
    } else {
      PayEach(s, p, st.price * st.amount + Fee(st.price, st.amount), q, w);
    }
  }

  lemma SellEach(world: World, s: State, p: Id, id: nat, amount: nat, loads: bool, found: nat, q: Id, w: nat)
    requires Ok(world, s) && MayAccept(world, s, p, id, amount, loads, found) && s.offers[id].sell
    ensures var t, st := Accepted(world, s, p, id, amount), Accept(p, id, amount, loads, found);
      && Funds(t, q) == Funds(s, q) + FundsMade(world, s, st, q) && Held(t, q, w) == Held(s, q, w) + HeldMade(world, s, st, q, w)
      && CashFirst(s, t, q)
  {
    hide Pay, Give, Credit, Funds, Held, CashFirst;
    var o := s.offers[id];
    var kind, price := world.types[o.itemId], o.price * amount;
    var paid := Pay(s, p, price);
    var given := Give(paid, p, kind, amount);
    PayEach(s, p, price, q, w);
    PayBooks(s, p, price);
    GiveEach(paid, p, kind, amount, q, w);
    CreditEach(given, o.owner, price, q, w);
    PurseChain(s, paid, given, Credit(given, o.owner, price), q, p, o.owner, price);
    PurseSame(s, Credit(given, o.owner, price), Accepted(world, s, p, id, amount), q, w);
  }

  /** A payment by one player and a credit for another. */
  lemma PurseChain(s: State, paid: State, given: State, t: State, q: Id, p: Id, owner: Id, n: nat)
    requires p != owner && p in s.cash && p in s.bank && n <= Funds(s, p) && owner in given.bank
    requires paid == Pay(s, p, n) && given.cash == paid.cash && given.bank == paid.bank && t == Credit(given, owner, n)
    ensures CashFirst(s, t, q)
  {
  }

  lemma PurseSame(s: State, t: State, u: State, q: Id, w: nat)
    requires t.cash == u.cash && t.bank == u.bank && t.goods == u.goods
    ensures Funds(t, q) == Funds(u, q) && Held(t, q, w) == Held(u, q, w) && (CashFirst(s, t, q) <==> CashFirst(s, u, q))
  {
  }

  lemma BuyEach(world: World, s: State, p: Id, id: nat, amount: nat, loads: bool, found: nat, q: Id, w: nat)
    requires Ok(world, s) && MayAccept(world, s, p, id, amount, loads, found) && !s.offers[id].sell
    ensures var t, st := Accepted(world, s, p, id, amount), Accept(p, id, amount, loads, found);
      && Funds(t, q) == Funds(s, q) + FundsMade(world, s, st, q) && Held(t, q, w) == Held(s, q, w) + HeldMade(world, s, st, q, w)
      && CashFirst(s, t, q)
  {
    OkMeans(world, s);
    hide Ok, SetHeld, Give, Credit, Funds, Held, CashFirst;
    var o := s.offers[id];
    var kind, price := world.types[o.itemId], o.price * amount;
    var sold := SetHeld(s, p, kind.wareId, Held(s, p, kind.wareId) - amount);
    var paid := Credit(sold, p, price);
    GiveBooks(s, p, kind, 0, kind.wareId, Held(s, p, kind.wareId) - amount);
    CreditBooks(sold, p, price);
    SetEach(s, p, kind.wareId, Held(s, p, kind.wareId) - amount, q, w);
    CreditEach(sold, p, price, q, w);
    GiveEach(paid, o.owner, kind, amount, q, w);
    PurseCredit(s, sold, Give(paid, o.owner, kind, amount), q, p, price);
    PurseSame(s, Give(paid, o.owner, kind, amount), Accepted(world, s, p, id, amount), q, w);
  }

  lemma PurseCredit(s: State, before: State, t: State, q: Id, p: Id, n: nat)
    requires before.cash == s.cash && before.bank == s.bank && p in s.bank
    requires t.cash == Credit(before, p, n).cash && t.bank == Credit(before, p, n).bank
    ensures CashFirst(s, t, q)
  {
  }

  lemma CancelEach(world: World, s: State, p: Id, id: nat, q: Id, w: nat)
    requires Ok(world, s) && MayCancel(world, s, p, id)
    ensures var t, st := Cancelled(world, s, id), Cancel(p, id);
      && Funds(t, q) == Funds(s, q) + FundsMade(world, s, st, q) && Held(t, q, w) == Held(s, q, w) + HeldMade(world, s, st, q, w)
      && CashFirst(s, t, q)
  {
    hide Give, Credit;
    var o := s.offers[id];
    if o.sell {
      GiveEach(s, p, world.types[o.itemId], o.amount, q, w);
    } else {
      CreditEach(s, p, o.price * o.amount, q, w);
    }
  }

  lemma ExpireEach(world: World, s: State, loads: bool, q: Id, w: nat)
    requires Ok(world, s) && s.rows != []
    ensures var t, st := Expired(world, s, loads), Expire(loads);
      && Funds(t, q) == Funds(s, q) + FundsMade(world, s, st, q) && Held(t, q, w) == Held(s, q, w) + HeldMade(world, s, st, q, w)
      && CashFirst(s, t, q)
  {
    hide Give, Credit;
    var o, rest := s.rows[0].offer, s.(rows := s.rows[1..]);
    if Due(s) {
      assert RowOk(s, s.rows[0]) && OfferOk(world, s, s.offers[s.rows[0].id]);
      if !o.sell {
        CreditEach(rest, o.owner, o.price * o.amount, q, w);
      } else if loads {
        GiveEach(rest, o.owner, world.types[o.itemId], o.amount, q, w);
      }
    }
  }

  /** What each step means for every player: who pays, who is paid, who gets the wares and who gives
      them; nobody else and no other ware is touched. */
  lemma EachPlayer(world: World, s: State, st: Step, q: Id, w: nat)
    requires Ok(world, s)
    ensures var t := Next(world, s, st);
      && Funds(t, q) == Funds(s, q) + FundsMade(world, s, st, q) && Held(t, q, w) == Held(s, q, w) + HeldMade(world, s, st, q, w)
      && CashFirst(s, t, q)
  {
    hide Ok, Created, Cancelled, Accepted, Expired;
    match st
    case Create(_, _, _, _, _, _, _) =>
      if MayCreate(world, s, st) {
        CreateEach(world, s, st, q, w);
      }
    case Cancel(p, id) =>
      if MayCancel(world, s, p, id) {
        CancelEach(world, s, p, id, q, w);
      }
    case Accept(p, id, amount, loads, found) =>
      if MayAccept(world, s, p, id, amount, loads, found) {
        if s.offers[id].sell {
          SellEach(world, s, p, id, amount, loads, found, q, w);
        } else {
          BuyEach(world, s, p, id, amount, loads, found, q, w);
        }
      }
    case Query(ids) =>
    case Expire(loads) =>
      if s.rows != [] {
        ExpireEach(world, s, loads, q, w);
      }
  }

  /** The case of an accepted sell offer, spelled out: the one who accepts pays and gets the wares, and
      the owner's bank account gets the price. */
  lemma AcceptedSale(world: World, s: State, p: Id, id: nat, amount: nat, loads: bool, found: nat)
    requires Ok(world, s) && MayAccept(world, s, p, id, amount, loads, found) && s.offers[id].sell
    ensures var o, t := s.offers[id], Next(world, s, Accept(p, id, amount, loads, found));
      var kind := world.types[o.itemId];
      && Funds(t, p) == Funds(s, p) - o.price * amount
      && o.owner in s.bank && o.owner in t.bank && t.bank[o.owner] == s.bank[o.owner] + o.price * amount
      && Held(t, p, kind.wareId) == Held(s, p, kind.wareId) + (if kind.pickupable then amount else 0)
      && Held(t, o.owner, kind.wareId) == Held(s, o.owner, kind.wareId)
  {
    hide Next;
    var o, st := s.offers[id], Accept(p, id, amount, loads, found);
    EachPlayer(world, s, st, p, world.types[o.itemId].wareId);
    EachPlayer(world, s, st, o.owner, world.types[o.itemId].wareId);
    NonZero(o.price, amount) by {
      assert OfferOk(world, s, o);
    }
  }

  /** And of an accepted buy offer: the one who accepts gives the wares and is paid into the bank, out of
      what the offer held; the owner gets the wares and pays nothing more. */
  lemma AcceptedPurchase(world: World, s: State, p: Id, id: nat, amount: nat, loads: bool, found: nat)
    requires Ok(world, s) && MayAccept(world, s, p, id, amount, loads, found) && !s.offers[id].sell
    ensures var o, t := s.offers[id], Next(world, s, Accept(p, id, amount, loads, found));
      var kind := world.types[o.itemId];
      && p in t.bank && t.bank[p] == s.bank[p] + o.price * amount && Funds(t, o.owner) == Funds(s, o.owner)
      && Held(t, p, kind.wareId) == Held(s, p, kind.wareId) - amount
      && Held(t, o.owner, kind.wareId) == Held(s, o.owner, kind.wareId) + (if kind.pickupable then amount else 0)
  {
    hide Next;
    var o, st := s.offers[id], Accept(p, id, amount, loads, found);
    EachPlayer(world, s, st, p, world.types[o.itemId].wareId);
    EachPlayer(world, s, st, o.owner, world.types[o.itemId].wareId);
    NonZero(o.price, amount) by {
      assert OfferOk(world, s, o);
    }
  }

  /** What each step means for an offer, old or new. */
  lemma EachOffer(world: World, s: State, st: Step, j: nat)
    requires Ok(world, s)
    ensures var t := Next(world, s, st);
      var posted := st.Create? && MayCreate(world, s, st) && j == s.nextId;
      var closed :=
        match st
        case Cancel(p, id) => MayCancel(world, s, p, id) && j == id
        case Accept(p, id, amount, loads, found) =>
          MayAccept(world, s, p, id, amount, loads, found) && j == id && amount == s.offers[id].amount
        case Expire(_) => Due(s) && j == s.rows[0].id
        case _ => false;
      var taken :=
        if st.Accept? && MayAccept(world, s, st.p, st.id, st.amount, st.loads, st.found) && j == st.id then st.amount else 0;
      && (j in t.offers <==> posted || (j in s.offers && !closed))
      && (posted ==> t.offers[j] == Offer(st.p, st.sell, Ware(world, st.spriteId).value, st.amount, st.price))
      && (j in s.offers && !closed ==> t.offers[j] == s.offers[j].(amount := s.offers[j].amount - taken))
      && t.nextId == s.nextId + (if st.Create? && MayCreate(world, s, st) then 1 else 0)
  {
    hide Fee, Ware, Held, Funds;
    match st
    case Create(p, _, _, _, _, _, _) =>
    case Cancel(p, id) =>
      if MayCancel(world, s, p, id) {
        CancelBooks(world, s, p, id);
      }
    case Accept(p, id, amount, loads, found) =>
      if MayAccept(world, s, p, id, amount, loads, found) {
        TradedBooks(world, s, p, s.offers[id], amount);
      }
    case Query(ids) =>
    case Expire(loads) =>
      if s.rows != [] {
        ExpireBooks(world, s, loads);
      }
  }

  /** The rows of the query, too: new ones come last, and the first one goes. */
  lemma EachRow(world: World, s: State, st: Step)
    requires Ok(world, s)
    ensures Next(world, s, st).rows ==
      if st.Query? then s.rows + RowsOf(s, st.ids) else if st.Expire? && s.rows != [] then s.rows[1..] else s.rows
  {
    hide Fee, Ware, Held, Funds;
    match st
    case Create(p, _, _, _, _, _, _) =>
    case Cancel(p, id) =>
      if MayCancel(world, s, p, id) {
        CancelBooks(world, s, p, id);
      }
    case Accept(p, id, amount, loads, found) =>
      if MayAccept(world, s, p, id, amount, loads, found) {
        TradedBooks(world, s, p, s.offers[id], amount);
      }
    case Query(ids) =>
    case Expire(loads) =>
      if s.rows != [] {
        ExpireBooks(world, s, loads);
      }
  }

  lemma CancelBooks(world: World, s: State, p: Id, id: nat)
    requires Ok(world, s) && MayCancel(world, s, p, id)
    ensures var t := Cancelled(world, s, id); t.offers == s.offers - {id} && t.nextId == s.nextId && t.rows == s.rows
  {
  }

  lemma ExpireBooks(world: World, s: State, loads: bool)
    requires s.rows != []
    ensures var t := Expired(world, s, loads);
      && t.offers == s.offers - {s.rows[0].id} && t.nextId == s.nextId && t.rows == s.rows[1..]
      && t.cash.Keys == s.cash.Keys && t.bank.Keys == s.bank.Keys && t.goods.Keys == s.goods.Keys
  {
    hide Held, Give, Credit;
    var rest, o := s.(rows := s.rows[1..]), s.rows[0].offer;
    CreditBooks(rest, o.owner, o.price * o.amount);
    if o.itemId in world.types {
      GiveBooks(rest, o.owner, world.types[o.itemId], o.amount, 0, 0);
    }
    assert s.rows[0].id !in s.offers ==> s.offers - {s.rows[0].id} == s.offers;
  }

  /** A query finds those of the given offers that are there, as they are, in the order asked for. */
  lemma {:induction false} QueryFinds(s: State, ids: seq<nat>, k: nat)
    requires k < |ids| && ids[k] in s.offers
    ensures exists m :: 0 <= m < |RowsOf(s, ids)| && RowsOf(s, ids)[m] == Row(ids[k], s.offers[ids[k]])
    ensures forall m :: 0 <= m < |RowsOf(s, ids)| ==>
      RowsOf(s, ids)[m].id in ids && RowsOf(s, ids)[m].id in s.offers && RowsOf(s, ids)[m].offer == s.offers[RowsOf(s, ids)[m].id]
    decreases |ids|
  {
    var first, rest := if ids[0] in s.offers then [Row(ids[0], s.offers[ids[0]])] else [], RowsOf(s, ids[1..]);
    assert RowsOf(s, ids) == first + rest;
    FoundOnly(s, ids[1..]);
    if k == 0 {
      assert RowsOf(s, ids)[0] == Row(ids[k], s.offers[ids[k]]);
    } else {
      QueryFinds(s, ids[1..], k - 1);
      var m :| 0 <= m < |rest| && rest[m] == Row(ids[k], s.offers[ids[k]]);
      assert RowsOf(s, ids)[|first| + m] == rest[m];
    }
  }

  lemma {:induction false} FoundOnly(s: State, ids: seq<nat>)
    ensures forall m :: 0 <= m < |RowsOf(s, ids)| ==>
      RowsOf(s, ids)[m].id in ids && RowsOf(s, ids)[m].id in s.offers && RowsOf(s, ids)[m].offer == s.offers[RowsOf(s, ids)[m].id]
    decreases |ids|
  {
    if ids != [] {
      FoundOnly(s, ids[1..]);
      var first, rest := if ids[0] in s.offers then [Row(ids[0], s.offers[ids[0]])] else [], RowsOf(s, ids[1..]);
      assert RowsOf(s, ids) == first + rest;
    }
  }

  /** The fee is a hundredth of the whole price, rounded down, between its bounds. */
  lemma FeeIsPercent(price: nat, amount: nat)
    ensures var whole := price * amount;
      if whole < 2000 then Fee(price, amount) == 20
      else if whole >= 100000 then Fee(price, amount) == 1000
      else whole - 100 < 100 * Fee(price, amount) <= whole
  {
  }

  /** An offer for a client id is about the item that the client shows for the ware of the item with
      that id; there are none without a ware. */
  lemma WareMeans(world: World, spriteId: nat, id: nat)
    ensures Ware(world, spriteId) == Some(id) <==>
      && spriteId in world.clientIds && world.clientIds[spriteId] in world.types
      && var w := world.types[world.clientIds[spriteId]].wareId;
      w != 0 && w in world.clientIds && world.clientIds[w] == id && id in world.types && world.types[id].wareId != 0
  {
  }

  // ----- the operations

  /** Goods and money are kept apart. */
  lemma HeldAside(s: State, p: Id, w: nat, n: nat)
    ensures var now := SetHeld(s, p, w, n); now.cash == s.cash && now.bank == s.bank && Funds(now, p) == Funds(s, p)
  {
  }

  class Ledger {
    const world: World
    var cash: map<Id, nat>
    var bank: map<Id, nat>
    var goods: map<Id, map<nat, nat>>
    var offers: map<nat, Offer>
    var nextId: nat
    var rows: seq<Row>

    constructor (world: World, s: State)
      ensures this.world == world && Books() == s
    {
      this.world := world;
      cash, bank, goods, offers, nextId, rows := s.cash, s.bank, s.goods, s.offers, s.nextId, s.rows;
    }

    function Books(): State
      reads this
    {
      State(cash, bank, goods, offers, nextId, rows)
    }

    /** Units of a ware go out of a player's depot. */
    method TakeGoods(p: Id, w: nat, n: nat)
      requires 0 < n <= Held(Books(), p, w)
      modifies this
      ensures Books() == SetHeld(old(Books()), p, w, old(Held(Books(), p, w)) - n) && nextId == old(nextId)
    {
      var own: map<nat, nat> := goods[p][w := goods[p][w] - n];
      goods := goods[p := own];
    }

    /** `getMoney` and the bank balance cover the price: cash goes first. */
    method Debit(p: Id, n: nat)
      requires p in cash && p in bank && n <= Funds(Books(), p)
      modifies this
      ensures Books() == Pay(old(Books()), p, n) && nextId == old(nextId)
      ensures Funds(Books(), p) == old(Funds(Books(), p)) - n && p in cash && p in bank
      ensures cash[p] <= old(cash[p]) && bank[p] <= old(bank[p]) && (bank[p] < old(bank[p]) ==> cash[p] == 0)
      ensures forall q :: q != p ==> Funds(Books(), q) == old(Funds(Books(), q))
    {
      var playerMoney := cash[p];
      var debitCash := if playerMoney < n then playerMoney else n;
      var debitBank := n - debitCash;
      cash := cash[p := cash[p] - debitCash];
      bank := bank[p := bank[p] - debitBank];
    }

    method AddToBank(p: Id, n: nat)
      modifies this
      ensures Books() == Credit(old(Books()), p, n)
    {
      if p in bank {
        bank := bank[p := bank[p] + n];
      }
    }

    /** One new item of some units into a player's inbox. */
    method AddToInbox(p: Id, kind: Kind, n: nat) returns (ok: bool)
      requires n > 0
      modifies this
      ensures ok == kind.pickupable && Books() == Give(old(Books()), p, kind, n)
    {
      if !kind.pickupable {
        return false;
      }
      if p in goods {
        var own: map<nat, nat> := goods[p][kind.wareId := Held(Books(), p, kind.wareId) + n];
        goods := goods[p := own];
      }
      return true;
    }

    /** The loops that hand over wares: full stacks first, or one item after the other, until all are
        there or one does not go in. */
    method Deliver(p: Id, kind: Kind, amount: nat)
      modifies this
      ensures Books() == Give(old(Books()), p, kind, amount)
    {
      var tmpAmount := amount;
      while tmpAmount > 0
        invariant 0 <= tmpAmount <= amount
        invariant kind.pickupable ==> Books() == Give(old(Books()), p, kind, amount - tmpAmount)
        invariant !kind.pickupable ==> Books() == old(Books())
      {
        var stackCount := if !kind.stackable then 1 else if ITEM_STACK_SIZE < tmpAmount then ITEM_STACK_SIZE else tmpAmount;
        GiveTwice(old(Books()), p, kind, amount - tmpAmount, stackCount);
        var ok := AddToInbox(p, kind, stackCount);
        if !ok {
          break;
        }
        tmpAmount := tmpAmount - stackCount;
      }
    }

    /** `playerCreateMarketOffer` */
    method CreateOffer(p: Id, sell: bool, spriteId: nat, amount: nat, price: nat, allowed: bool, found: nat)
      modifies this
      ensures Books() == Next(world, old(Books()), Create(p, sell, spriteId, amount, price, allowed, found))
    {
      hide Fee, Ware, Cancelled, Accepted, Expired, RowsOf, MayCancel, MayAccept, Pay, SetHeld;
      if amount == 0 || amount > MAX_AMOUNT || price == 0 || price > MAX_PRICE || !allowed || p !in bank || p !in cash {
        return;
      }
      var ware := Ware(world, spriteId);
      if ware.None? {
        return;
      }
      var kind := world.types[ware.value];
      if !kind.stackable && amount > MAX_UNSTACKABLE {
        return;
      }
      var fee := Fee(price, amount);
      if sell {
        if fee > Funds(Books(), p) || Sellable(Books(), p, kind.wareId, found) < amount {
          return;
        }
        HeldAside(Books(), p, kind.wareId, Held(Books(), p, kind.wareId) - amount);
        TakeGoods(p, kind.wareId, amount);
        Debit(p, fee);
      } else {
        var totalPrice := price * amount + fee;
        if totalPrice > Funds(Books(), p) {
          return;
        }
        Debit(p, totalPrice);
      }
      offers := offers[nextId := Offer(p, sell, ware.value, amount, price)];
      nextId := nextId + 1;
    }

    /** `playerCancelMarketOffer` */
    method CancelOffer(p: Id, id: nat)
      modifies this
      ensures Books() == Next(world, old(Books()), Cancel(p, id))
    {
      if p !in bank || id !in offers || offers[id].owner != p {
        return;
      }
      var offer := offers[id];
      if !offer.sell {
        AddToBank(p, offer.price * offer.amount);
      } else {
        if offer.itemId !in world.types {
          return;
        }
        Deliver(p, world.types[offer.itemId], offer.amount);
      }
      offers := offers - {id};
    }

    /** `playerAcceptMarketOffer` */
    method AcceptOffer(p: Id, id: nat, amount: nat, loads: bool, found: nat)
      modifies this
      ensures Books() == Next(world, old(Books()), Accept(p, id, amount, loads, found))
    {
      hide Fee, Ware, Created, Cancelled, Expired, RowsOf, MayCreate, MayCancel, Traded;
      if amount == 0 || amount > MAX_AMOUNT || p !in bank || p !in cash || p !in world.accounts || id !in offers {
        return;
      }
      var offer := offers[id];
      if offer.owner !in world.accounts || world.accounts[offer.owner] == world.accounts[p] || amount > offer.amount
         || offer.itemId !in world.types {
        return;
      }
      if !offer.sell {
        if Sellable(Books(), p, world.types[offer.itemId].wareId, found) < amount || !loads {
          return;
        }
        SellTo(p, offer, amount);
      } else {
        if offer.price * amount > Funds(Books(), p) {
          return;
        }
        BuyFrom(p, offer, amount);
      }
      offers := if offer.amount == amount then offers - {id} else offers[id := offer.(amount := offer.amount - amount)];
    }

    /** The branch for a buy offer. */
    method SellTo(p: Id, offer: Offer, amount: nat)
      requires p in cash && p in bank && offer.itemId in world.types && !offer.sell
      requires 0 < amount <= Held(Books(), p, world.types[offer.itemId].wareId)
      modifies this
      ensures Books() == Traded(world, old(Books()), p, offer, amount) && offers == old(offers)
    {
      hide Give, Credit, SetHeld, Funds;
      ghost var was := Books();
      var kind := world.types[offer.itemId];
      TakeGoods(p, kind.wareId, amount);
      AddToBank(p, offer.price * amount);
      Deliver(offer.owner, kind, amount);
      TradedBooks(world, was, p, offer, amount);
    }

    /** The branch for a sell offer. */
    method BuyFrom(p: Id, offer: Offer, amount: nat)
      requires p in cash && p in bank && offer.itemId in world.types && offer.sell
      requires offer.price * amount <= Funds(Books(), p)
      modifies this
      ensures Books() == Traded(world, old(Books()), p, offer, amount) && offers == old(offers)
    {
      hide Give, Credit, SetHeld, Pay, Held;
      ghost var was := Books();
      var totalPrice := offer.price * amount;
      Debit(p, totalPrice);
      Deliver(p, world.types[offer.itemId], amount);
      AddToBank(offer.owner, totalPrice);
      TradedBooks(world, was, p, offer, amount);
    }

    /** `processExpiredOffers`, on as many rows as `loads` has answers. */
    method ProcessExpiredOffers(loads: seq<bool>)
      requires |loads| <= |rows|
      modifies this
      ensures Books() == Run(world, old(Books()), Expiries(loads))
    {
      var k := 0;
      while k < |loads|
        invariant 0 <= k <= |loads| && |rows| == old(|rows|) - k
        invariant Run(world, Books(), Expiries(loads[k..])) == Run(world, old(Books()), Expiries(loads))
      {
        assert loads[k..][0] == loads[k] && loads[k..][1..] == loads[k + 1..];
        ProcessRow(loads[k]);
        k := k + 1;
      }
      assert loads[k..] == [];
    }

    /** One turn of the loop. */
    method ProcessRow(loads: bool)
      requires rows != []
      modifies this
      ensures Books() == Next(world, old(Books()), Expire(loads))
    {
      var row := rows[0];
      rows := rows[1..];
      if row.id !in offers {
        return;
      }
      offers := offers - {row.id};
      var offer := row.offer;
      if offer.sell {
        if offer.itemId in world.types && loads {
          Deliver(offer.owner, world.types[offer.itemId], offer.amount);
        }
      } else {
        AddToBank(offer.owner, offer.price * offer.amount);
      }
    }
  }

  function Expiries(loads: seq<bool>): seq<Step> {
    if loads == [] then [] else [Expire(loads[0])] + Expiries(loads[1..])
  }

  lemma GiveTwice(s: State, p: Id, kind: Kind, a: nat, b: nat)
    ensures Give(Give(s, p, kind, a), p, kind, b) == Give(s, p, kind, a + b)
  {
    if p in s.goods {
      var w, own := kind.wareId, s.goods[p];
      assert own[w := Held(s, p, w) + a][w := Held(s, p, w) + a + b] == own[w := Held(s, p, w) + a + b];
      assert s.goods[p := own] == s.goods;
    }
  }
}
