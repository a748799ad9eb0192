# The item world and the ledgers of the game server

The server keeps things inside things: containers with parent pointers and a cached weight, walked by a
breadth-first iterator, merged into stacks, saved in two unrelated formats. On these rest the coins, the
market, trades and decay. This project models that logic and proves what it promises.

How it is layered:

- `Streams`, `Items`, `ItemCodec`: the byte streams, item types and values, and the attribute section that
  both save formats share. The writers and readers are methods over mutable streams; each is proved equal to
  a function on bytes, and the round trips are lemmas about those functions.
- `ItemForest`: items as objects with parent pointer, content list and cached weight. A ghost
  set of ancestors makes a set of items a forest (`Linked`); `Forest` adds that all caches are right. A set
  `S` of items is passed along as the world in which an operation happens.
- `ContainerIteration`, `ContainerSearch`, `Depots`, `ItemRemoval`, `StackAdding`, `Money`, `MarketStock`:
  operations on that forest, each on top of the contracts of the ones below it.
- `PlayerItems`, `PlayerLoad`, `HouseItems`: the two save formats, the rows by (slot or parent, number) and
  the recursive bytes.
- `Market` with `Totals`: the ledger of the market as a state machine over its steps, and a class whose
  methods are those steps. Totals are sums over maps.
- `Trade`, `DecayWheel`, `Conditions`: state machines with invariants over every run, and classes with the
  fields of the source whose methods are proved to be the steps.
- `Otb`, `ConditionStream`, `Base32`, `DamageList`, `ItemAttributeList`: the remaining formats and
  algorithms, as loops against specifications.
- `TaskQueue`: the queue of database jobs as atomic steps of any number of threads under one mutex and one
  condition variable.

Where the code does not do what one would expect of it, the model follows the code, and the exact condition
is proved:

- The damage list amounts to more than asked for unless the amount is at least start(start+1)/2. With the
  default first hit it is exact for amounts up to 760 and for 780 (`DamageList.DefaultExact`).
- An expired market offer is settled from the row of an earlier query. If the offer was partly accepted in
  between, money or units appear from nothing; units vanish if they cannot be picked up or if no owner can
  be loaded (`Market.KeptExactly` with `Market.StaleRowMakesMoney`).
- `addMoney` counts coins in 32 bits. It gives too little if and only if the most valuable coin alone would
  be needed 2^32 times or more (`Money.AddMoney`, `Money.TooMuchMoney`).
- The OTB loader turns away the shortest well-formed file, a root without properties and children, because
  its size check is too strict by one byte (`Otb.LoadsExactly`, `Otb.BareRoot`). It accepts bytes without marks
  between children and after the root (`Otb.AcceptsExactly`).
- The worker of the job queue misses the notification of a shutdown if and only if that comes between the
  worker's look at the state and its wait (`TaskQueue.ShutdownEndsExactly`, `TaskQueue.MissedShutdown`).
- A player who was asked for a trade can accept it without offering anything. A transfer begins with two
  items if and only if both players had made an offer when they accepted (`Trade.BothItems`); otherwise it
  begins with a null item (`Trade.OneSided`).
- A depot chest that stands nowhere, because its locker was not opened yet, is not asked when something is
  put into a container inside it, so its limit holds if and only if it stands on a tile or is itself the
  target (`Depots.AddToDepot`, `Depots.DepotAsked`, `Depots.PastTheLimit`).

Choices that the code leaves to clocks, random numbers, scripts or other players are parameters of the steps
(`drawn`, `outcomes`, `during`, `loads`, `found`, `allowed`), so that every statement holds for all of them.
Script hooks allow everything. Fields that only output or statistics use are not there.

## Model

| member | source | states |
|---|---|---|
| ItemForest.Item.UpdateItemWeight | src/container.cpp:143-152 | Adding a difference here and in every ancestor restores true caches: if only this container's counter was off by `diff`, afterwards every counter in the forest equals the sum of its contents' weights modulo 2^32. |
| ItemForest.Item.AddThing | src/container.cpp:504-522 | The item goes to the front with this parent, or nothing happens past the last slot; the forest stays acyclic, all caches stay right, everything else keeps its place. |
| ItemForest.Item.AddItemBack | src/container.cpp:524-532 | The same at the back of the list. |
| ItemForest.Item.InternalAddThing | src/container.cpp:707-716 | The same at the front, whatever the capacity. |
| ItemForest.Item.UpdateThing | src/container.cpp:534-554 | A child gets another type and sub type; shape and all caches, here and above, stay right. |
| ItemForest.Item.ReplaceThing | src/container.cpp:556-581 | Another item stands exactly where the old one stood, which is loose now; all caches stay right. |
| ItemForest.Item.RemoveThing | src/container.cpp:583-619 | A partial count of a stack leaves a smaller stack; any other count takes exactly this child out of the list; all caches stay right; ancestors change only for what was inside the removed item. |
| ItemForest.Item.IsInside | src/container.cpp:263-348 | The walk up the parents finds a container exactly if it is an ancestor. |
| ItemForest.CacheIsTrue | src/container.cpp:143-156 | In every forest each cached weight is the recursively defined true weight of the contents, in 32 bits. |
| ItemForest.CacheIsExact | src/container.cpp:143-156 | Below 2^32 the cache is that weight itself. |
| ItemForest.Item.OwnWeightMeans | src/item.cpp:874-880 | A thing weighs its count times what one of its kind weighs, and at least as much as one; its own weight goes before that of its type. |
| ItemForest.Item.GetThingIndex | src/container.cpp:621-630 | The position of a child, or -1 exactly if it is none. |
| ContainerIteration.ContainerIterator.Advance | src/container.cpp:739-756 | One step: the visited things grow by the current one and what is pending is the rest of the breadth-first order. |
| ContainerIteration.WalkMeetsOnce | src/container.cpp:726-756 | A breadth-first walk from any roots meets only roots and things inside them, and nothing twice. |
| ContainerIteration.WalkMeetsAll | src/container.cpp:726-756 | A finished walk has met everything that lies inside a root, at any depth. |
| ContainerIteration.WalkByDepth | src/container.cpp:726-756 | Nothing is met before a thing that is nested less deeply. |
| ContainerIteration.VisitBounds | src/container.cpp:726-756 | What an iterator has visited is a subset of the descendants without repetition, and all of them exactly at its end. |
| ContainerIteration.GetItemHoldingCount | src/container.cpp:195-201 | The loop ends and counts the proper descendants. |
| ContainerIteration.IsHoldingItem | src/container.cpp:203-210 | True exactly for proper descendants. |
| ContainerIteration.GetItems | src/container.cpp:649-661 | The recursive content list is the set of descendants, without repetition, ordered by depth. |
| Depots.GetTopParent | src/item.cpp:255-291 | The walk answers the outermost container if that stands on a tile, and otherwise the one below it, or the item itself; there is never another candidate. |
| Depots.DepotAsked | src/container.cpp:325-347 | A depot chest around a target is asked if and only if it stands on a tile or is itself the target. |
| Depots.DepotLimit | src/depotchest.cpp:15-43 | A depot admits a thing exactly if the things inside, and those the thing adds unless its top parent is this depot, stay within the limit, or the limit is waived. |
| Depots.QueryAdd | src/container.cpp:263-348 | A container accepts a thing if and only if capacity, cycle and pick-up conditions stated outright hold, and the limits of itself and of its top parent. |
| Depots.AddToDepot | src/depotchest.cpp:15-43 | A depot that stands on a tile or is itself the target accepts from outside if and only if it is within its limit afterwards, counting all descendants; one that stands nowhere has no say for a nested target. |
| Depots.PastTheLimit | src/container.cpp:325-347 | A full depot that stands nowhere, with a bag in it, from empty: one more thing is accepted into the bag, and the depot is past its limit. |
| StackAdding.QueryDestination | src/container.cpp:434-502 | A stackable ware for which some stack has room is sent to the first equal stack below 100; anything else to the slot asked for. |
| StackAdding.QueryMaxCount | src/container.cpp:350-398 | For any place: the room for a stackable ware is 100 per free slot and, if the container admits it, what is missing to 100 on every equal stack; for other things the free slots; the exact answer in every case. |
| StackAdding.Merge | src/game.cpp:1325-1338 | Putting `n` units on a stack raises the ware's units by `n` and lowers its room by `n`. |
| StackAdding.RemainderAccepted | src/game.cpp:1340-1361 | Once an item was accepted, the clone that carries its remainder is accepted by the recursive call. |
| StackAdding.Questions | src/game.cpp:1281-1304 | The three questions before any change answer yes if and only if the up-front condition holds, and then the place and the stack chosen are such that all units fit. |
| StackAdding.AddRemainder | src/game.cpp:1340-1361 | What did not go onto the stack goes in completely; nothing remains. |
| StackAdding.MergeAndGoOn | src/game.cpp:1320-1361 | The merging branch adds exactly the item's count of units. |
| StackAdding.InternalAddItem | src/game.cpp:1281-1361 | The recursion ends; the item is accepted if and only if an up-front condition holds; then the ware's units grow by exactly its count, what fits goes onto the stacks that are there and only the rest makes a new one, no stack exceeds 100, the capacity is kept and nothing remains; otherwise nothing changes at all. |
| ItemRemoval.InternalRemoveItem | src/game.cpp:1363-1410 | A partial count of a stack shrinks it; any other removes the item with everything in it from its parent and from all its ancestors; the exact condition of success; forest and caches are kept. |
| ContainerSearch.MeetNext | src/game.cpp:5455-5493 | The two-queue search meets every next item for the first time, and inside one of its roots. |
| ContainerSearch.MetAll | src/game.cpp:5455-5493 | When the queue is empty everything inside the roots was met. |
| Money.Emplace | src/game.cpp:1500-1526 | Insertion behind all entries that are worth no more keeps the list sorted. |
| Money.CollectCoins | src/game.cpp:1475-1530 | The sorted list holds every item of worth that the holder has, once each, and the counted sum is what they are worth together. |
| Money.ToBreak | src/game.cpp:1535-1543 | The rounded-up number of coins never exceeds the stack, and the change is less than one of them. |
| Money.BreakCoin | src/game.cpp:1535-1543 | Giving change and breaking a stack lowers the wealth by exactly the money. |
| Money.PayWith | src/game.cpp:1533-1551 | The loop always reaches an entry that suffices; all before it are gone, none behind it is touched, and the wealth drops by exactly the price. |
| Money.RemoveMoney | src/game.cpp:1475-1551 | Succeeds if and only if the holder has the price; then holder and ground together lose exactly the price, and whatever is taken from, all that is worth less is gone; otherwise nothing changes. |
| Money.Coins | src/game.cpp:1559-1566 | The coins of one worth, counted in 32 bits, leave less than one coin, or at least 2^32 of them if the count did not fit. |
| Money.AddCoins | src/game.cpp:1566-1578 | Stacks of at most 100, on the holder or else on the ground, add exactly the coins' worth. |
| Money.AddStack | src/game.cpp:1568-1575 | A stack goes to the holder exactly if there is room, stated before the call, and to the ground otherwise. |
| Money.AddMoney | src/game.cpp:1553-1580 | Adds exactly the money if and only if the number of the most valuable coins fits into 32 bits, and never more, with as many of every coin as go into what is left, the most valuable first; only stacks of coins worth no more than the money change. |
| Money.TooMuchMoney | src/game.cpp:1553-1580 | An amount for which some of the money is lost: 2^32 of the most valuable coin. |
| Money.GroundAccepts | src/game.cpp:1571-1574 | With the capacity limit waived, the ground takes every stack. |
| MarketStock.GetMarketItemList | src/game.cpp:5455-5493 | Empty if and only if the sellable stock does not suffice; otherwise different items of the ware whose counts suffice, and would not without the last one; the 16-bit counter never wraps. |
| MarketStock.TakeFrom | src/game.cpp:1363-1410 | Removing `n` units of one item lowers the stock by `n`. |
| MarketStock.TakeWares | src/game.cpp:5152-5167 | The removal loops take exactly `amount` units out of the stock: whole items from the front of the list, the last one perhaps in part, and touch no other item. |
| Market.FeeBounds | src/game.cpp:5126-5131 | The fee lies between 20 and 1000. |
| Market.StepTotals | src/game.cpp:5080-5433 | The exact effect of every step on all money (cash, bank, escrow of buy offers) and on all units of every ware (stock and escrow of sell offers). |
| Market.KeptExactly | src/iomarket.cpp:102-173 | A step keeps money up to the fee, or units, if and only if it does not pay out a stale snapshot row, hand over something that cannot be picked up, or find no owner. |
| Market.RunConserves | src/game.cpp:5080-5433 | Over every run: escrow stays in order, balances never underflow, money is never lost but for fees of 20 to 1000 per offer; runs without the named exceptions conserve money and units exactly. |
| Market.StaleRowMakesMoney | src/iomarket.cpp:102-173 | A concrete run in which an offer partly accepted between the query and the turn of its row is refunded in full: money appears. |
| Market.MoneyNotLost | src/game.cpp:5080-5433 | No step destroys money beyond the fee. |
| Market.Ledger.Debit | src/game.cpp:5169-5172 | The player is poorer by exactly the price, the bank is touched only once the cash is at zero, neither underflows, and nobody else pays. |
| Market.Ledger.Deliver | src/iomarket.cpp:127-158 | The delivery loops hand over all units, in full stacks or one by one, or none if the first does not go in. |
| Market.Ledger.CreateOffer | src/game.cpp:5080-5192 | The method is the create step of the ledger: same checks, same escrow, same fee. |
| Market.Ledger.CancelOffer | src/game.cpp:5194-5253 | The method is the cancel step of the ledger. |
| Market.Ledger.AcceptOffer | src/game.cpp:5255-5433 | The method is the accept step, for a part of an offer or all of it, whose effect on every player and offer is stated below. |
| Market.Ledger.ProcessExpiredOffers | src/iomarket.cpp:102-173 | The loop over a query result is a run of expire steps. |
| Market.EachPlayer | src/game.cpp:5080-5433 | For every step and every player, involved or not: the change of the player's funds and of the units of every ware held, given by who pays, who is paid and to whom the wares go; the bank is touched only once the cash is at zero. |
| Market.AcceptedSale | src/game.cpp:5366-5412 | An accepted offer to sell: the one who accepts pays the price and holds the units if they can be picked up; the owner's bank grows by the price and the owner's stock stays. |
| Market.AcceptedPurchase | src/game.cpp:5290-5365 | An accepted offer to buy: the one who accepts gives the units away and the price comes to that bank account; the owner holds the units if they can be picked up and pays nothing more. |
| Market.EachOffer | src/game.cpp:5080-5433 | For every step: which offers there are afterwards, with which contents, and what number the next one has. |
| Market.EachRow | src/iomarket.cpp:102-180 | Rows of a result are appended by a query and used up one by one, from the front. |
| Market.QueryFinds | src/iomarket.cpp:175-180 | A query finds every named offer as it is at that time, and nothing else. |
| Market.FeeIsPercent | src/game.cpp:5126-5131 | The fee is a hundredth of the whole price, rounded down, from 20 up to 1000. |
| Market.WareMeans | src/game.cpp:5107-5115 | A ware is known exactly if the client's number leads to a type of which the ware's number leads to a type with one. |
| Trade.StartedOk | src/game.cpp:2678-2706 | Starting or countering an offer keeps partners symmetric and registers the item for its player with one reference. |
| Trade.ClosedIs | src/game.cpp:2897-2942 | Closing does nothing during a transfer or outside a trade, and otherwise takes exactly both partners out and unregisters both items. |
| Trade.ClosedAllKeeps | src/game.cpp:2897-2942 | Attempts to close trades while items move leave the pair in transfer alone. |
| Trade.AcceptedOk | src/game.cpp:2708-2821 | A second acceptance, however it ends, leaves both players out of any trade; a first one only notes it; the invariants hold. |
| Trade.CleanedOk | src/game.cpp:4649-4659 | Cleanup drops exactly the pending references. |
| Trade.Reachable | src/game.cpp:2678-2821 | Every state reached by any steps keeps the invariants, and after a cleanup exactly the registered items have one extra reference. |
| Trade.OffersAreRegistered | src/game.cpp:2678-2706 | In every reachable state the registered items are exactly those on offer, each with the one player who offers it. |
| Trade.EachSide | src/game.cpp:2678-2942 | For every step and every player: state, partner and item afterwards, for offers, acceptances, transfers and closings. |
| Trade.EachReference | src/game.cpp:2678-2942 | For every step and every item: how the references held change; only offers add one and only cleanup drops them. |
| Trade.ItemOnAccept | src/game.cpp:2708-2723 | Who accepts has an item on offer exactly if the player has made an offer and was not merely asked. |
| Trade.OneSided | src/game.cpp:2708-2748 | A concrete run that reaches a transfer in which one player offers nothing. |
| Trade.AcceptsAfter | src/game.cpp:2708-2821 | Whoever is in the accepted state has been there before the step with the same item, or has come there by it with the item on offer. |
| Trade.BothItems | src/game.cpp:2708-2748 | Over every run: a transfer begins with two items if and only if both players had made an offer when they accepted. |
| Trade.Trades.InternalStartTrade | src/game.cpp:2678-2706 | Exactly if both are free for each other, the offer is made: state, partner and item of the player, the registration and one more reference, a partner asked who keeps an offer already made; otherwise, and for everybody else, nothing changes. |
| Trade.Trades.PlayerAcceptTrade | src/game.cpp:2708-2821 | The method is the accept step. |
| Trade.Trades.InternalCloseTrade | src/game.cpp:2897-2942 | The method is the close step: player and partner are out of the trade, unless a transfer is on, and nobody else changes. |
| DecayWheel.TimingBound | src/game.h:47-48 | An item of a second or more ends after `t` ticks with `d - 875 < 250 t <= d`, a shorter one at the next tick. |
| DecayWheel.FireTick | src/game.cpp:4661-4669 | The bucket chosen at registration and the rounds still to go yield exactly that number of ticks. |
| DecayWheel.SweptTicks | src/game.cpp:4548-4591 | A sweep brings every registered item one tick closer to its end and ends exactly those due, once. |
| DecayWheel.SweptOk | src/game.cpp:4548-4591 | After a sweep every registered item is still in exactly one bucket and holds one wheel reference. |
| DecayWheel.SweptDrops | src/game.cpp:4553-4560 | An item that cannot decay any more is dropped when its bucket comes, is not decaying then and does not end. |
| DecayWheel.SweptTime | src/game.cpp:4562-4570 | Every item that is met has a second less to go, but not less than nothing; the others keep their time. |
| DecayWheel.CleanedTicks | src/game.cpp:4649-4670 | Cleanup registers what waits with the right number of ticks and moves nothing else. |
| DecayWheel.CleanedOk | src/game.cpp:4649-4670 | Cleanup keeps one bucket and one reference per registered item, and drops what was released. |
| DecayWheel.TickDone | src/game.cpp:4517-4591 | Sweep, starts and cleanup together are one tick for every item. |
| DecayWheel.Wheel.StartDecay | src/game.cpp:4517-4534 | An item with no time left ends at once, and nothing ends otherwise; an item that is not decaying yet is put to the front of what waits, in one place, which it was not before, for one more reference; an item that cannot decay or is decaying is left alone; the wheel invariant is kept. |
| DecayWheel.Wheel.Sweep | src/game.cpp:4548-4591 | The list loop over one bucket yields the swept state, order included. |
| DecayWheel.Wheel.Cleanup | src/game.cpp:4649-4670 | Both loops yield the cleaned state. |
| DecayWheel.Wheel.CheckDecay | src/game.cpp:4548-4591 | One whole tick: items due end once, all others come one tick closer, started ones are in for their duration; one with no time left ends exactly once if it is started; one that stopped decaying leaves the wheel without ending; one that waits for nothing stays as it is. |
| DecayWheel.Wheel.Run | src/game.cpp:4517-4591 | Over any sequence of ticks, starts and cleanups, an item `n` ticks before its end ends exactly once, at the `n`-th tick. |
| DecayWheel.Wheel.RunFromStart | src/game.cpp:4517-4591 | From the start of its decay and the next cleanup on, an item ends exactly once, after the number of ticks that the timing bound is about. |
| DecayWheel.FateTicks | src/game.cpp:4566-4586 | Whether an item ends, moves or stays in its bucket agrees with the ticks it has left. |
| DamageList.CloserMeans | src/condition.cpp:1457-1474 | The comparison of quotients that ends the inner loop means that more than half a hit is missing. |
| DamageList.GenerateDamageList | src/condition.cpp:1457-1474 | Ends for all inputs; never rising; every value from `start` to 1 and no other; the sum is at least the amount, and equal to it if and only if amount >= start(start+1)/2. |
| DamageList.Hits | src/condition.cpp:1463-1472 | The inner loop adds at least one hit and stops at the sum closest to the part of the amount due. |
| DamageList.DefaultExact | src/condition.cpp:1221-1247 | With the default first hit the list is exact for amounts up to 760, for 780, and for no other. |
| DamageList.ConditionDamage.Init | src/condition.cpp:1221-1247 | After `init` the intervals amount to at least the drawn damage, exactly under the same condition, and the ticks are the sum of the intervals. |
| DamageList.ConditionDamage.AddDamage | src/condition.cpp:1190-1219 | The given number of intervals is appended and the ticks grow by their sum, unless ticks are endless; -1 rounds make the damage periodic and endless; refused only while periodic damage is on. |
| DamageList.ConditionDamage.GetTotalDamage | src/condition.cpp:1403-1414 | The absolute sum of the intervals still to come, or without any the mean of the bounds in any order, rounded towards the lower bound. |
| Conditions.RunKeeps | src/creature.cpp:989-1153 | Over every run of additions, removals and executions, no key is active twice and the speed is its baseline plus the active deltas. |
| Conditions.AllUndone | src/condition.cpp:1547-1597 | Once no condition is active, the speed is what it was without any. |
| Conditions.ActedKeeps | src/creature.cpp:989-1115 | The same for one addition or removal. |
| Conditions.ExecutedKeeps | src/creature.cpp:1135-1153 | The same for one pass of `executeConditions`, whatever conditions do meanwhile. |
| Conditions.KeptIn | src/creature.cpp:1031-1081 | Removal by type or by type and id leaves exactly the others. |
| Conditions.RemovedMeans | src/creature.cpp:1031-1081 | For both removals: put off for a paralysed player on the way, and otherwise exactly those of the type, or of type and id, are gone. |
| Conditions.RemovedOneMeans | src/creature.cpp:1096-1115 | The one condition is cut out of the list and its delta out of the speed, or the removal is put off. |
| Conditions.Creature.GetCondition | src/creature.cpp:1126-1133 | The first condition of the key, if there is one. |
| Conditions.Creature.AddCondition | src/creature.cpp:989-1017 | An active condition of the key takes over the new ticks and the new or drawn delta, and the speed moves by the difference, unless it is endless and the new one is not; a new one is appended with its delta; a postponed one changes nothing; all others stay. It answers whether a condition of that key is active afterwards, but for one postponed. |
| Conditions.RenewedMeans | src/condition.cpp:1574-1597 | What a renewed condition of either kind becomes, what the speed becomes, and that all else stays. |
| Conditions.StartedMeans | src/condition.cpp:1547-1572 | What a new condition is appended with, or that nothing happens if it does not start. |
| Conditions.PutOffMeans | src/creature.cpp:995-998 | An addition that is put off changes nothing but what is scheduled. |
| Conditions.Creature.RemoveCondition | src/creature.cpp:1031-1081 | The erasing loop removes exactly the matching conditions and undoes their deltas, or nothing while a paralysed player walks. |
| Conditions.Creature.RemoveOneCondition | src/creature.cpp:1096-1115 | The method is the removal of one condition. |
| Conditions.Creature.ExecuteConditions | src/creature.cpp:1135-1153 | The loop over a copy of the list is the execution step. |
| Conditions.QuietExecution | src/creature.cpp:1135-1153 | If conditions do nothing else meanwhile, a pass leaves exactly those with time left, in order, each with its ticks lowered by the interval. |
| ConditionStream.RecBack | src/condition.cpp:126-144 | One attribute and its values are read back, and what follows is left. |
| ConditionStream.CreateBack | src/condition.cpp:223-280 | The header is read back and selects a blank condition of the saved type. |
| ConditionStream.BodyBack | src/condition.cpp:1134-1175 | The records of each kind of body fill a blank one with what was saved. |
| ConditionStream.IntervalsBack | src/condition.cpp:1134-1160 | Intervals come back in order and the ticks are their sum. |
| ConditionStream.SavedBack | src/condition.cpp:58-144 | A saved condition comes back with every field its type writes, and exactly what follows it stays unread. |
| ConditionStream.LoadBack | src/iologindata.cpp:228-240 | Loading a saved list yields the persistent conditions in reverse order. |
| ConditionStream.UnknownTypeStops | src/condition.cpp:161-280 | A header of an unknown type ends the load. |
| ConditionStream.PersistentMeans | src/condition.cpp:289-299 | Saved are exactly those that end and come from nothing worn, or from a mute. |
| ConditionStream.HeaderBytes | src/condition.cpp:126-144 | The header, byte for byte. |
| ConditionStream.DamageBytes | src/condition.cpp:1162-1175 | The records of a damage condition, byte for byte. |
| ConditionStream.LightBytes | src/condition.h:14-48 | Those of light and regeneration. |
| ConditionStream.AttributeCodes | src/condition.h:14-48 | Number, order and codes of the records of an attributes condition. |
| ConditionStream.TypesOfBodies | src/condition.cpp:161-221 | Which type has which kind of body. |
| ConditionStream.KnownCodes | src/condition.h:14-48 | Which codes each kind of body knows. |
| ConditionStream.FillEnds | src/condition.cpp:58-66 | The loop ends well at the end mark and at the end of the bytes, and badly at an unknown code or a cut value. |
| ConditionStream.LoadEnds | src/iologindata.cpp:228-240 | A bad header ends the load; a condition with bad attributes is dropped and the load goes on behind it. |
| ConditionStream.SaveConditions | src/iologindata.cpp:594-601 | The save loop appends exactly the records and END marks of the persistent conditions. |
| ConditionStream.CreateCondition | src/condition.cpp:223-280 | The method reads the header as specified, failing exactly where the specification does. |
| ConditionStream.Unserialize | src/condition.cpp:58-66 | The attribute loop is the specified fill, including failures. |
| ConditionStream.LoadConditions | src/iologindata.cpp:228-240 | The load loop yields the specified list for every stream of bytes. |
| ItemCodec.FieldsBack | src/item.cpp:697-712 | Reading written fields applies them one by one, whatever follows. |
| ItemCodec.SavedBack | src/item.cpp:714-871 | Reading the attributes of any storable item leaves the reader behind its last field with those attributes applied. |
| ItemCodec.NormalFormRestored | src/item.cpp:697-712 | An item in normal form comes back equal from whatever sub type it is created with. |
| ItemCodec.CustomBack | src/item.h:271-313 | A custom attribute of any type is read back. |
| ItemCodec.SavedOnly | src/item.cpp:714-871 | An item with one attribute is saved as the one field for it. |
| ItemCodec.TextTags | src/item.h:45-90 | The codes of the texts, byte for byte. |
| ItemCodec.NumberTags | src/item.h:45-90 | The codes and widths of the numbers, byte for byte. |
| ItemCodec.MoreNumberTags | src/item.h:45-90 | The same for the other numbers that are always written. |
| ItemCodec.SomeNumberTags | src/item.cpp:714-760 | The same for those that are written under a condition, with that condition. |
| ItemCodec.CountTag | src/item.cpp:714-720 | Stacks and fluids are saved with their count or sub type behind code 15. |
| ItemCodec.CustomTag | src/item.cpp:860-871 | The bytes of a list of custom attributes. |
| ItemCodec.CustomTags | src/item.h:271-290 | The kinds and widths of custom values, byte for byte. |
| ItemCodec.SkippedTags | src/item.cpp:602-661 | How many bytes the codes of beds, doors, depots and containers are skipped by. |
| ItemCodec.UnknownTags | src/item.cpp:663-693 | The codes that are refused. |
| ItemCodec.BoundedNumbers | src/item.cpp:371-460 | The bounds put on ids, durations, decay states and attack speed when they are read. |
| ItemCodec.SubTypeNumbers | src/item.cpp:357-440 | Counts, rune charges and charges are read as sub types. |
| ItemCodec.SoFarIsAll | src/item.cpp:697-712 | What was read up to a failure is everything if there is none. |
| ItemCodec.SerializeAttr | src/item.cpp:714-871 | Every branch of `serializeAttr` appends its field exactly if its condition holds. |
| ItemCodec.UnserializeAttr | src/item.cpp:697-712 | The loop over attribute codes is the specified reader for every stream of bytes, failures included. |
| ItemCodec.ReadAttribute | src/item.cpp:357-695 | Every attribute code is read, skipped or refused as specified. |
| Items.SubTypeBack | src/item.cpp:319-356 | A sub type that was set is the one read back, for every kind of item. |
| Items.CreatedMeans | src/item.cpp:24-149 | What a new item has: count, fluid, charges and duration, and nothing else. |
| Streams.PropStream.ReadNumber | src/fileloader.h:64-73 | A number of the given width, or nothing read exactly if too few bytes are left. |
| Streams.PropStream.ReadString | src/fileloader.h:75-88 | A length and that many bytes, or a failure exactly if there are too few of either. |
| Streams.PropStream.Skip | src/fileloader.h:90-97 | Moves on by `n` bytes, or not at all. |
| Streams.PropWriteStream.WriteString | src/fileloader.h:126-136 | Appends length and bytes, or an empty string if the length does not fit into 16 bits. |
| Streams.NumberBack | src/fileloader.h:64-73 | A written number is read back. |
| Streams.StringBack | src/fileloader.h:75-88 | A written string is read back, or an empty one if it was too long. |
| Streams.ByteOrder | src/fileloader.h:64-73 | Numbers have their lowest byte first. |
| Streams.TextBytes | src/fileloader.h:126-136 | The bytes of a short string. |
| Streams.Enough | src/fileloader.h:64-97 | When a number or string can be read. |
| HouseItems.ItemBack | src/iomapserialize.cpp:95-142 | Loading a saved tree of any depth yields the tree it stands for and leaves exactly the suffix. |
| HouseItems.KidsBack | src/iomapserialize.cpp:95-110 | Children written from back to front and pushed to the front are in their old order. |
| HouseItems.HouseRoundTrip | src/iomapserialize.cpp:194-211 | A tree in normal form comes back equal, with the suffix unread. |
| HouseItems.BagBytes | src/iomapserialize.cpp:194-211 | The bytes of a bag with two things in it: id, mark, number of children, last child first, end mark. |
| HouseItems.NotAnItem | src/iomapserialize.cpp:112-142 | Too few bytes or bad attributes fail; an unknown id is no item, and only its two bytes are read. |
| HouseItems.NoEndMark | src/iomapserialize.cpp:95-110 | A container without its end mark, or with a bad child, fails. |
| HouseItems.SaveItemTo | src/iomapserialize.cpp:194-211 | The recursive writer appends the specified bytes. |
| HouseItems.LoadItemFrom | src/iomapserialize.cpp:112-142 | The recursive reader is the specified one for every stream of bytes, failures included. |
| HouseItems.LoadContainerFrom | src/iomapserialize.cpp:95-110 | The counting loop is the specified reader of `n` children and an end mark. |
| PlayerItems.SaveItems | src/iologindata.cpp:529-576 | Rows are numbered from 101 in breadth-first order, roots first with their slots, and the rows of a container's children form one block that names it. |
| PlayerItems.SaveContainers | src/iologindata.cpp:552-573 | The loop over the growing container list ends and writes one block per container. |
| PlayerLoad.LoadItems | src/iologindata.cpp:895-917 | One new item for every row of a known type, with the attributes of the row that can be read. |
| PlayerLoad.Rebuild | src/iologindata.cpp:384-405 | Descending row numbers and `push_front` put every item into the container or slot its row names, in ascending order, in a forest with right caches. |
| PlayerLoad.SavedKidAt | src/iologindata.cpp:552-573 | The rows that name a container are those of its children in their order. |
| PlayerLoad.LoadedBack | src/iologindata.cpp:895-917 | A row made from an item in normal form is loaded as that item. |
| PlayerLoad.SameTree | src/iologindata.cpp:384-405 | Every loaded item holds the same tree as the saved one. |
| PlayerLoad.SaveAndReload | src/iologindata.cpp:384-405 | For any forest on slots below 100: saving and loading gives, on every slot, equal trees in equal order, with right cached weights. |
| Otb.RunSound | src/fileloader.cpp:35-86 | What is accepted is one balanced encoding followed by bytes without START or END. |
| Otb.AcceptsExactly | src/fileloader.cpp:35-86 | A file is parsed to a node if and only if it is that node's encoding and such a tail. |
| Otb.ParseInvertsWrite | src/fileloader.cpp:35-102 | Parsing and unescaping the encoding of any document yields the document. |
| Otb.LoadsExactly | src/fileloader.cpp:14-33 | A written document loads exactly if its identifier is accepted and it is more than a bare root. |
| Otb.BareRoot | src/fileloader.cpp:14-33 | The file of a bare root parses, and is turned away by the size check under any identifier. |
| Otb.ParseTree | src/fileloader.cpp:35-86 | The loop with its stack of node pointers succeeds exactly if the specification does, and its node tree is the specified one, property ranges included. |
| Otb.GetProps | src/fileloader.cpp:88-102 | The unescaping loop returns the unescaped bytes, and false exactly if there are none. |
| Otb.Marks | src/fileloader.h:20-30 | The three marks, and a document with a byte to be escaped, byte for byte. |
| TaskQueue.NextInv | src/databasetasks.cpp:17-85 | Every atomic step of any thread keeps mutual exclusion, order, ownership, wakeup and shutdown invariants. |
| TaskQueue.EveryTaskOnce | src/databasetasks.cpp:17-48 | In every interleaving the tasks taken and queued are together the accepted ones in order, and each one taken is executed or in one thread's hands; which ones are accepted is stated below. |
| TaskQueue.AddStep | src/databasetasks.cpp:36-48 | The look of an added job: accepted and queue grow by exactly it if the state is running, and stay otherwise. |
| TaskQueue.AcceptedAreLooks | src/databasetasks.cpp:36-48 | Over every run, the accepted jobs are those whose look met a running state, in the order of the looks. |
| TaskQueue.AddAlone | src/databasetasks.cpp:36-48 | A call of `addTask` undisturbed: the job is queued while running, and the worker notified exactly if the queue was empty. |
| TaskQueue.FlushAlone | src/databasetasks.cpp:68-77 | A flush undisturbed executes everything queued, in order. |
| TaskQueue.ShutdownAlone | src/databasetasks.cpp:79-85 | A shutdown undisturbed terminates, executes everything queued and notifies. |
| TaskQueue.WorkAlone | src/databasetasks.cpp:17-34 | The worker undisturbed executes everything queued, in order, and waits. |
| TaskQueue.NoLostWakeupStep | src/databasetasks.cpp:17-48 | A waiting worker with a non-empty queue always has a thread about to notify it. |
| TaskQueue.WorkerIsWoken | src/databasetasks.cpp:17-48 | That thread wakes the worker by one or two steps of its own. |
| TaskQueue.NothingAfterShutdown | src/databasetasks.cpp:68-85 | Once the flush of a shutdown has ended, the queue is empty and stays so, and nothing is accepted. |
| TaskQueue.WorkerEndsExactly | src/databasetasks.cpp:17-34 | After a shutdown, with nothing else going on, the worker comes to its end by its own steps if and only if it is not in its wait or between its look at the state and the wait. |
| TaskQueue.ShutdownEndsExactly | src/databasetasks.cpp:79-85 | The notification of a shutdown lets the worker end if and only if it does not come between the look and the wait. |
| TaskQueue.MissedShutdown | src/databasetasks.cpp:79-85 | Such a state is reached: a concrete interleaving after which only a spurious wakeup can end the sleep. |
| ItemAttributeList.Attributes.GetExistingAttr | src/item.cpp:1716-1725 | The position of the entry, or none exactly if the map has no such key. |
| ItemAttributeList.Attributes.GetAttr | src/item.cpp:1727-1739 | Finds the entry or appends one and sets its bit. |
| ItemAttributeList.Attributes.SetIntAttr | src/item.cpp:1700-1714 | The map is updated at this key, attack speed no lower than 100; other types of attribute are left alone; bitmask and list agree. |
| ItemAttributeList.Attributes.SetStrAttr | src/item.cpp:1653-1665 | The same for strings, of which empty ones are ignored. |
| ItemAttributeList.Attributes.RemoveAttribute | src/item.cpp:1667-1686 | Swapping with the last entry removes exactly this key from the map and its bit from the mask. |
| ItemAttributeList.Attributes.SetCustomAttribute | src/item.h:436-460 | The table of custom attributes is updated at the lower-case key. |
| ItemAttributeList.Attributes.RemoveCustomAttribute | src/item.h:480-495 | Exactly this key leaves the table, and the answer says whether it was there. |
| ItemAttributeList.MaskIsDomain | src/item.cpp:171-211 | Equal masks mean equal sets of keys. |
| ItemAttributeList.Equals | src/item.cpp:171-211 | True if and only if ids and attribute maps are equal, a missing list counting as an empty one. |
| ItemAttributeList.TypeKinds | src/item.h:497-505 | Which attributes are numbers and which are texts. |
| Base32.DecodesOneWay | src/iologindata.cpp:18-44 | A secret has at most one decoding. |
| Base32.DecodeInvertsEncode | src/iologindata.cpp:18-44 | Decoding the unpadded encoding (section 6 of RFC 4648) of any bytes gives them back. |
| Base32.DecodeSecret | src/iologindata.cpp:18-44 | The loop with its wrapping 32-bit buffer returns the decoding, or nothing exactly if a character is outside A-Z2-7. |
| Base32.TestVector | src/iologindata.cpp:18-44 | A test vector of section 10 of RFC 4648, without its padding: `MZXW6YTBOI` decodes to `foobar` and to nothing else. |
| Base32.AlphabetOrder | src/iologindata.cpp:18-44 | The digits are the letters and then 2 to 7, in order. |

## Left out

- StackAdding.InternalAddItem: for containers without a nested receiver at the index, items without a duration, and without the flag for children of owners; the container's own `queryDestination` is modelled, not the player's or the tile's. The refusals of an inbox and of a carrying player are left out as for `Depots.QueryAdd`.
- Money.RemoveMoney: the holder and the tile beneath are containers, the tile one without a capacity; coin worths are such that a stack of 255 is worth less than 2^32, the bound under which `getWorth` does not wrap; the rounding of the ceiling on doubles is exact here.
- Money.AddMoney: the same holder, and coins that can be made, stacked and picked up and do not decay.
- Money.GroundAccepts: the tile beneath the holder is a container without a capacity; what a tile itself refuses is not modelled.
- Depots.QueryAdd: no store items, houses or browse fields, and the flag for children of owners is off; the item comes from outside. Two more refusals are not modelled: without the no-limit flag nothing goes into an inbox or a container inside one (src/container.cpp:311-313), and a player who carries the container refuses what exceeds the capacity; containers carried by players are otherwise like those on a tile.
- PlayerLoad.SaveAndReload: the four tables of rows are loaded by the same code and are one table here; items have attributes in normal form, that is such as the setters and one save and load produce: no string longer than 65535 bytes, no charges on stackable items, no decay under way.
- PlayerLoad.Rebuild: rows come sorted by the query, so `ORDER BY sid DESC` is the order in which they arrive.
- HouseItems.LoadItemFrom: moveable items only; the branch for items that stand on the map already needs the map, which is not part of this model. Beds and doors are not modelled.
- ItemCodec.ReadAttribute: attributes of beds, doors, depot ids and teleports are skipped or refused as the base class does; unique ids are not kept.
- ItemCodec.NormalFormRestored: the remapping of a few ids in `CreateItem` (rings and lights in use) is not modelled, so an item type is its own creation type.
- Depots.AddToDepot: one depot; the count limit is that of the depot chest, without the premium variants that decide it.
- ItemForest.Item.UpdateThing: the resets of corpse owner and decay that come with a new id are not modelled.
- ItemForest.CacheIsExact: weights of 2^32 and more wrap, which `ItemForest.CacheIsTrue` states.
- Market.RunConserves: cash, stock and inboxes are numbers per player and ware here; that the coins and items behave so is proved in `Money` and `MarketStock`. One depot per player. The limit on offers, premium status and presence at the market are the flag `allowed`. The lookup of an offer by time stamp and counter is its id.
- Market.FeeBounds: the fee is computed with exact fractions instead of doubles.
- Market.Ledger.ProcessExpiredOffers: the asynchronous query is the step that takes the snapshot; history tables are not kept.
- Trade.AcceptedOk: what the moves of the transfer do with the two items is not stated, only which trades they may try to close; the result of the second move is ignored by the code, so a transfer need not be atomic.
- Trade.Trades.PlayerAcceptTrade: the same; item moves and their results are left out.
- DecayWheel.Wheel.Run: `transformItem` on an item in the wheel, and the durations of what an item turns into, are separate starts; durations do not change from outside while an item is in the wheel.
- DamageList.GenerateDamageList: exact fractions instead of floats.
- Conditions.RunKeeps: the effects of conditions other than changes of speed are not modelled; a condition is known by a number of its own, so that a freed one is never mistaken for a new one at its address.
- ConditionStream.LoadBack: doubles and floats are their bits; attributes conditions hold seven skills, four stats and six special skills, since more records would be written behind the arrays.
- ItemAttributeList.Equals: custom attributes compare by value; a double that is not a number is equal to itself here.
- ItemAttributeList.Attributes.SetCustomAttribute: lower case of ASCII letters only.
- Otb.ParseTree: node iterators are positions in the file; the file is read as a whole.
- TaskQueue.EveryTaskOnce: sequentially consistent steps; callbacks and results of jobs are not modelled. The worker's own last flush after its loop does not exist in the code, so nothing is said of it.
- Partial moves between containers (`internalMoveItem`): the branch re-adds the original object, and no conservation is claimed.
- Sockets, chat, scripts, houses, beds, spectators, SQL text, combat tables and descriptions: input, output or flat tables.
