/** The conditions of a creature: which are active, and what the active ones do to its speed. */
module Conditions {
  import opened Wrappers

  const HASTE := 16
  const PARALYZE := 32

  /** A condition object.  Only haste and paralysis have a speed delta; a delta of zero is drawn from a
      formula when the condition starts. */
  datatype Cond = Cond(oid: nat, typ: nat, id: int, subId: nat, ticks: int, delta: int)

  /** Something that is scheduled for when the creature has finished its step. */
  datatype Event = ForceAdd(c: Cond) | ForceRemove(typ: nat)

  datatype State = State(conditions: seq<Cond>, varSpeed: int, events: seq<Event>)

  /** A change of the list.  `walking` says that a step is still going on, `paralyzed` is the answer of
      `hasCondition`, `starts` whether a condition that is not about speed starts, `later` whether the
      active one ends later than the new one would, and `drawn` the draw from the formula. */
  datatype Act =
    | Add(c: Cond, force: bool, walking: bool, paralyzed: bool, starts: bool, later: bool, drawn: int)
    | RemoveType(typ: nat, force: bool, walking: bool)
    | RemoveId(typ: nat, id: int, force: bool, walking: bool)
    | RemoveOne(oid: nat, force: bool, walking: bool)

  /** How the execution of one condition goes: what it makes happen, and whether its time has not come. */
  datatype Outcome = Outcome(acts: seq<Act>, inTime: bool)

  datatype Step = Change(act: Act) | Execute(interval: int, outcomes: map<nat, Outcome>)

  predicate IsSpeed(typ: nat) {
    typ == HASTE || typ == PARALYZE
  }

  /** What an active condition does to the speed. */
  function Effect(c: Cond): int {
    if IsSpeed(c.typ) then c.delta else 0
  }

  function Effects(cs: seq<Cond>): int {
    if cs == [] then 0 else Effects(cs[..|cs| - 1]) + Effect(cs[|cs| - 1])
  }

  predicate SameKey(a: Cond, b: Cond) {
    a.typ == b.typ && a.id == b.id && a.subId == b.subId
  }

  /** `getCondition`, as a position; none is the length of the list. */
  function Find(cs: seq<Cond>, c: Cond): (k: nat)
    ensures k <= |cs| && (k < |cs| ==> SameKey(cs[k], c)) && forall j :: 0 <= j < k ==> !SameKey(cs[j], c)
  {
    if cs == [] then 0 else if SameKey(cs[0], c) then 0 else 1 + Find(cs[1..], c)
  }

  function FindOid(cs: seq<Cond>, oid: nat): (k: nat)
    ensures k <= |cs| && (k < |cs| ==> cs[k].oid == oid) && forall j :: 0 <= j < k ==> cs[j].oid != oid
  {
    if cs == [] then 0 else if cs[0].oid == oid then 0 else 1 + FindOid(cs[1..], oid)
  }

  function Delta(c: Cond, drawn: int): int {
    if c.delta == 0 then drawn else c.delta
  }

  /** `ConditionSpeed::addCondition`, and for other conditions the time if `updateCondition` allows it. */
  function Updated(was: Cond, c: Cond, later: bool, drawn: int): Cond {
    if !IsSpeed(c.typ) then
      if (was.ticks == -1 && c.ticks > 0) || (c.ticks >= 0 && later) then was else was.(ticks := c.ticks)
    else if was.ticks == -1 && c.ticks > 0 then was
    else was.(ticks := c.ticks, delta := Delta(c, drawn))
  }

  function Started(c: Cond, drawn: int): Cond {
    if IsSpeed(c.typ) then c.(delta := Delta(c, drawn)) else c
  }

  /** Whether `addCondition` puts the condition off. */
  predicate PutOff(act: Act)
    requires act.Add?
  {
    !act.force && act.c.typ == HASTE && act.paralyzed && act.walking
  }

  function Added(s: State, act: Act): State
    requires act.Add?
  {
    var c, k := act.c, Find(s.conditions, act.c);
    if PutOff(act) then s.(events := s.events + [ForceAdd(c)])
    else if k < |s.conditions| then
      var now := Updated(s.conditions[k], c, act.later, act.drawn);
      s.(conditions := s.conditions[k := now], varSpeed := s.varSpeed + Effect(now) - Effect(s.conditions[k]))
    else if IsSpeed(c.typ) || act.starts then
      var now := Started(c, act.drawn);
      s.(conditions := s.conditions + [now], varSpeed := s.varSpeed + Effect(now))
    else s
  }

  /** The conditions that a removal leaves. */
  function Kept(cs: seq<Cond>, typ: nat, id: Option<int>): seq<Cond> {
    if cs == [] then []
    else
      var c := cs[|cs| - 1];
      Kept(cs[..|cs| - 1], typ, id) + if c.typ != typ || (id.Some? && c.id != id.value) then [c] else []
  }

  /** Removal of all conditions of a type, or of a type and an id. */
  function Removed(s: State, typ: nat, id: Option<int>, force: bool, walking: bool): State {
    var left := Kept(s.conditions, typ, id);
    if !force && typ == PARALYZE && walking && left != s.conditions then s.(events := s.events + [ForceRemove(typ)])
    else s.(conditions := left, varSpeed := s.varSpeed - Effects(s.conditions) + Effects(left))
  }

  function Erased(cs: seq<Cond>, k: nat): seq<Cond>
    requires k < |cs|
  {
    cs[..k] + cs[k + 1..]
  }

  function RemovedOne(s: State, oid: nat, force: bool, walking: bool): State {
    var k := FindOid(s.conditions, oid);
    if k == |s.conditions| then s
    else if !force && s.conditions[k].typ == PARALYZE && walking then s.(events := s.events + [ForceRemove(PARALYZE)])
    else s.(conditions := Erased(s.conditions, k), varSpeed := s.varSpeed - Effect(s.conditions[k]))
  }

  function Acted(s: State, act: Act): State {
    match act
    case Add(_, _, _, _, _, _, _) => Added(s, act)
    case RemoveType(typ, force, walking) => Removed(s, typ, None, force, walking)
    case RemoveId(typ, id, force, walking) => Removed(s, typ, Some(id), force, walking)
    case RemoveOne(oid, force, walking) => RemovedOne(s, oid, force, walking)
  }

  function ActedAll(s: State, acts: seq<Act>): State
    decreases |acts|
  {
    if acts == [] then s else ActedAll(Acted(s, acts[0]), acts[1..])
  }

  function Oids(cs: seq<Cond>): (s: seq<nat>)
    ensures |s| == |cs|
  {
    seq(|cs|, k requires 0 <= k < |cs| => cs[k].oid)
  }

  /** Time passes for one condition; at its end it goes. */
  function Passed(s: State, oid: nat, interval: int, inTime: bool): State {
    var k := FindOid(s.conditions, oid);
    if k == |s.conditions| || s.conditions[k].ticks == -1 then s
    else
      var left := s.conditions[k].ticks - interval;
      var t := s.(conditions := s.conditions[k := s.conditions[k].(ticks := if left < 0 then 0 else left)]);
      if inTime then t
      else t.(conditions := Erased(t.conditions, k), varSpeed := t.varSpeed - Effect(t.conditions[k]))
  }

  /** `executeConditions`, over a copy of the list. */
  function Executed(s: State, oids: seq<nat>, interval: int, outcomes: map<nat, Outcome>): State
    decreases |oids|
  {
    if oids == [] then s
    else if FindOid(s.conditions, oids[0]) == |s.conditions| then Executed(s, oids[1..], interval, outcomes)
    else
      var o := if oids[0] in outcomes then outcomes[oids[0]] else Outcome([], true);
      Executed(Passed(ActedAll(s, o.acts), oids[0], interval, o.inTime), oids[1..], interval, outcomes)
  }

  function Next(s: State, st: Step): State {
    match st
    case Change(act) => Acted(s, act)
    case Execute(interval, outcomes) => Executed(s, Oids(s.conditions), interval, outcomes)
  }

  function Run(s: State, steps: seq<Step>): State
    decreases |steps|
  {
    if steps == [] then s else Run(Next(s, steps[0]), steps[1..])
  }

  // ----- what every step keeps

  /** No two active conditions have the same type, id and sub id. */
  ghost predicate Unique(cs: seq<Cond>) {
    forall j, k :: 0 <= j < k < |cs| ==> !SameKey(cs[j], cs[k])
  }

  /** The speed without the active conditions. */
  function Baseline(s: State): int {
    s.varSpeed - Effects(s.conditions)
  }

  lemma {:induction false} EffectsConcat(a: seq<Cond>, b: seq<Cond>)
    ensures Effects(a + b) == Effects(a) + Effects(b)
  {
    if b == [] {
      assert a + b == a;
    } else {
      assert (a + b)[..|a + b| - 1] == a + b[..|b| - 1];
      EffectsConcat(a, b[..|b| - 1]);
    }
  }

  lemma EffectsUpdate(cs: seq<Cond>, k: nat, c: Cond)
    requires k < |cs|
    ensures Effects(cs[k := c]) == Effects(cs) - Effect(cs[k]) + Effect(c)
  {
    SplitAt(cs, k);
    SplitAt(cs[k := c], k);
    assert cs[k := c][..k] == cs[..k] && cs[k := c][k + 1..] == cs[k + 1..];
  }

  lemma EffectOfOne(c: Cond)
    ensures Effects([c]) == Effect(c)
  {
    assert [c][..0] == [];
  }

  lemma SplitAt(cs: seq<Cond>, k: nat)
    requires k < |cs|
    ensures Effects(cs) == Effects(cs[..k]) + Effect(cs[k]) + Effects(cs[k + 1..])
    ensures Effects(Erased(cs, k)) == Effects(cs) - Effect(cs[k])
  {
    hide Effects, Effect;
    EffectOfOne(cs[k]);
    EffectsConcat(cs[..k], [cs[k]]);
    EffectsConcat(cs[..k] + [cs[k]], cs[k + 1..]);
    EffectsConcat(cs[..k], cs[k + 1..]);
    assert cs == cs[..k] + [cs[k]] + cs[k + 1..];
  }

  lemma {:induction false} KeptIn(cs: seq<Cond>, typ: nat, id: Option<int>)
    ensures forall c :: c in Kept(cs, typ, id) <==> c in cs && (c.typ != typ || (id.Some? && c.id != id.value))
    ensures Unique(cs) ==> Unique(Kept(cs, typ, id))
  {
    if cs != [] {
      var front, last := cs[..|cs| - 1], cs[|cs| - 1];
      KeptIn(front, typ, id);
      assert cs == front + [last];
      assert forall k :: 0 <= k < |Kept(front, typ, id)| ==> Kept(front, typ, id)[k] in front;
    }
  }

  lemma AddedUnique(s: State, act: Act)
    requires Unique(s.conditions) && act.Add?
    ensures Unique(Added(s, act).conditions)
  {
    hide Find, Effects, Effect, Delta, PutOff;
    var cs, k := s.conditions, Find(s.conditions, act.c);
    if k < |cs| {
      UpdateUnique(cs, k, Updated(cs[k], act.c, act.later, act.drawn));
    } else {
      PushUnique(cs, Started(act.c, act.drawn));
    }
  }

  lemma UpdateUnique(cs: seq<Cond>, k: nat, c: Cond)
    requires Unique(cs) && k < |cs| && SameKey(cs[k], c)
    ensures Unique(cs[k := c])
  {
  }

  lemma PushUnique(cs: seq<Cond>, c: Cond)
    requires Unique(cs) && forall j :: 0 <= j < |cs| ==> !SameKey(cs[j], c)
    ensures Unique(cs + [c])
  {
  }

  lemma AddedBaseline(s: State, act: Act)
    requires act.Add?
    ensures Baseline(Added(s, act)) == Baseline(s)
  {
    hide Find, Effect, Updated, Started, Effects;
    var cs, k := s.conditions, Find(s.conditions, act.c);
    if k < |cs| {
      EffectsUpdate(cs, k, Updated(cs[k], act.c, act.later, act.drawn));
    } else {
      EffectsPush(cs, Started(act.c, act.drawn));
    }
  }

  lemma EffectsPush(cs: seq<Cond>, c: Cond)
    ensures Effects(cs + [c]) == Effects(cs) + Effect(c)
  {
    assert (cs + [c])[..|cs|] == cs;
  }

  lemma ErasedUnique(cs: seq<Cond>, k: nat)
    requires Unique(cs) && k < |cs|
    ensures Unique(Erased(cs, k))
  {
  }

  lemma ActedKeeps(s: State, act: Act)
    requires Unique(s.conditions)
    ensures Unique(Acted(s, act).conditions) && Baseline(Acted(s, act)) == Baseline(s)
  {
    match act
    case Add(_, _, _, _, _, _, _) =>
      AddedUnique(s, act);
      AddedBaseline(s, act);
    case RemoveType(typ, force, walking) => KeptIn(s.conditions, typ, None);
    case RemoveId(typ, id, force, walking) => KeptIn(s.conditions, typ, Some(id));
    case RemoveOne(oid, force, walking) =>
      var k := FindOid(s.conditions, oid);
      if k < |s.conditions| {
        SplitAt(s.conditions, k);
        ErasedUnique(s.conditions, k);
      }
  }

  lemma {:induction false} ActedAllKeeps(s: State, acts: seq<Act>)
    requires Unique(s.conditions)
    ensures Unique(ActedAll(s, acts).conditions) && Baseline(ActedAll(s, acts)) == Baseline(s)
    decreases |acts|
  {
    hide Acted, Unique, Baseline;
    if acts != [] {
      ActedKeeps(s, acts[0]);
      ActedAllKeeps(Acted(s, acts[0]), acts[1..]);
    }
  }

  lemma PassedKeeps(s: State, oid: nat, interval: int, inTime: bool)
    requires Unique(s.conditions)
    ensures Unique(Passed(s, oid, interval, inTime).conditions) && Baseline(Passed(s, oid, interval, inTime)) == Baseline(s)
  {
    var k := FindOid(s.conditions, oid);
    if k < |s.conditions| {
      var left := s.conditions[k].ticks - interval;
      var c := s.conditions[k].(ticks := if left < 0 then 0 else left);
      EffectsUpdate(s.conditions, k, c);
      SplitAt(s.conditions[k := c], k);
      assert Unique(s.conditions[k := c]);
      ErasedUnique(s.conditions[k := c], k);
    }
  }

  lemma {:induction false} ExecutedKeeps(s: State, oids: seq<nat>, interval: int, outcomes: map<nat, Outcome>)
    requires Unique(s.conditions)
    ensures var t := Executed(s, oids, interval, outcomes); Unique(t.conditions) && Baseline(t) == Baseline(s)
    decreases |oids|
  {
    hide Acted, Unique, Baseline, ActedAll, Passed;
    if oids != [] {
      if FindOid(s.conditions, oids[0]) == |s.conditions| {
        ExecutedKeeps(s, oids[1..], interval, outcomes);
      } else {
        var o := if oids[0] in outcomes then outcomes[oids[0]] else Outcome([], true);
        var t := ActedAll(s, o.acts);
        ActedAllKeeps(s, o.acts);
        PassedKeeps(t, oids[0], interval, o.inTime);
        ExecutedKeeps(Passed(t, oids[0], interval, o.inTime), oids[1..], interval, outcomes);
      }
    }
  }

  /** Over any run no condition becomes active twice, and the speed is what it would be without
      conditions plus the deltas of those that are active. */
  lemma {:induction false} RunKeeps(s: State, steps: seq<Step>)
    requires Unique(s.conditions)
    ensures var t := Run(s, steps); Unique(t.conditions) && t.varSpeed == Baseline(s) + Effects(t.conditions)
    decreases |steps|
  {
    hide Acted, Unique, Executed;
    if steps != [] {
      var t := Next(s, steps[0]);
      match steps[0] {
        case Change(act) => ActedKeeps(s, act);
        case Execute(interval, outcomes) => ExecutedKeeps(s, Oids(s.conditions), interval, outcomes);
      }
      RunKeeps(t, steps[1..]);
    }
  }

  /** So whenever a creature has no conditions left, its speed is what it was without any. */
  lemma AllUndone(s: State, steps: seq<Step>)
    requires s.conditions == [] && Run(s, steps).conditions == []
    ensures Run(s, steps).varSpeed == s.varSpeed
  {
    RunKeeps(s, steps);
  }

  // ----- what a step does to each condition

  /** Speed is a matter of haste and paralysis. */
  lemma SpeedTypes(c: Cond)
    ensures IsSpeed(c.typ) <==> c.typ == 0x10 || c.typ == 0x20
    ensures Effect(c) == if c.typ == 0x10 || c.typ == 0x20 then c.delta else 0
  {
  }

  /** A condition put off changes nothing now, and is scheduled. */
  lemma PutOffMeans(s: State, act: Act)
    requires act.Add? && PutOff(act)
    ensures var t := Acted(s, act);
      t.conditions == s.conditions && t.varSpeed == s.varSpeed && t.events == s.events + [ForceAdd(act.c)]
  {
  }

  /** Adding a condition of a key that is active renews that one and leaves all others alone.  Haste and
      paralysis take over time and delta, which is drawn if it is zero, and the speed follows; only an
      endless one stays against one that ends.  Others take over the time, unless the active one lasts
      longer. */
  lemma RenewedMeans(s: State, act: Act, k: nat)
    requires act.Add? && !PutOff(act) && k < |s.conditions| && SameKey(s.conditions[k], act.c)
    requires forall j :: 0 <= j < k ==> !SameKey(s.conditions[j], act.c)
    ensures var t, was := Acted(s, act), s.conditions[k];
      && |t.conditions| == |s.conditions| && t.events == s.events
      && (forall j :: 0 <= j < |s.conditions| && j != k ==> t.conditions[j] == s.conditions[j])
      && SameKey(t.conditions[k], was) && t.conditions[k].oid == was.oid
      && (was.ticks == -1 && act.c.ticks > 0 ==> t == s)
      && (IsSpeed(act.c.typ) && !(was.ticks == -1 && act.c.ticks > 0) ==>
            && t.conditions[k].ticks == act.c.ticks
            && t.conditions[k].delta == (if act.c.delta == 0 then act.drawn else act.c.delta)
            && t.varSpeed == s.varSpeed + t.conditions[k].delta - was.delta)
      && (!IsSpeed(act.c.typ) && !(was.ticks == -1 && act.c.ticks > 0) ==>
            && t.varSpeed == s.varSpeed && t.conditions[k].delta == was.delta
            && t.conditions[k].ticks == if act.c.ticks >= 0 && act.later then was.ticks else act.c.ticks)
  {
    hide Effects;
    FindIs(s.conditions, act.c, k);
    assert s.conditions[k := s.conditions[k]] == s.conditions;
  }

  /** Adding a condition of a new key appends it, if it starts, and haste and paralysis always do. */
  lemma StartedMeans(s: State, act: Act)
    requires act.Add? && !PutOff(act) && forall j :: 0 <= j < |s.conditions| ==> !SameKey(s.conditions[j], act.c)
    ensures var t := Acted(s, act);
      && (!IsSpeed(act.c.typ) && !act.starts ==> t == s)
      && (!IsSpeed(act.c.typ) && act.starts ==> t == s.(conditions := s.conditions + [act.c]))
      && (IsSpeed(act.c.typ) ==>
            var delta := if act.c.delta == 0 then act.drawn else act.c.delta;
            t == s.(conditions := s.conditions + [act.c.(delta := delta)], varSpeed := s.varSpeed + delta))
  {
    var k := Find(s.conditions, act.c);
  }

  lemma AddedMeans(s: State, act: Act)
    requires act.Add?
    ensures var k := Find(s.conditions, act.c);
      && (!PutOff(act) && k < |s.conditions| ==> (
            var t, was := Added(s, act), s.conditions[k];
            && |t.conditions| == |s.conditions| && SameKey(t.conditions[k], act.c)
            && (forall j :: 0 <= j < |t.conditions| && j != k ==> t.conditions[j] == s.conditions[j])
            && (was.ticks == -1 && act.c.ticks > 0 ==> t == s)
            && (IsSpeed(act.c.typ) && !(was.ticks == -1 && act.c.ticks > 0) ==>
                  && t.conditions[k].ticks == act.c.ticks
                  && t.conditions[k].delta == (if act.c.delta == 0 then act.drawn else act.c.delta)
                  && t.varSpeed == s.varSpeed + t.conditions[k].delta - was.delta)))
      && (!PutOff(act) && k == |s.conditions| ==> (
            var t := Added(s, act);
            if IsSpeed(act.c.typ) then
              var delta := if act.c.delta == 0 then act.drawn else act.c.delta;
              t.conditions == s.conditions + [act.c.(delta := delta)] && t.varSpeed == s.varSpeed + delta
            else t.conditions == (if act.starts then s.conditions + [act.c] else s.conditions) && t.varSpeed == s.varSpeed))
  {
    hide Find;
    var k := Find(s.conditions, act.c);
    if !PutOff(act) {
      if k < |s.conditions| {
        RenewedMeans(s, act, k);
      } else {
        StartedMeans(s, act);
      }
    }
  }

  lemma {:induction false} FindIs(cs: seq<Cond>, c: Cond, k: nat)
    requires k < |cs| && SameKey(cs[k], c) && forall j :: 0 <= j < k ==> !SameKey(cs[j], c)
    ensures Find(cs, c) == k
  {
    var f := Find(cs, c);
    assert f == k || f < k || f > k;
  }

  /** Removal by type, or by type and id, takes out exactly the matching conditions; while a paralysed
      creature is still walking it takes out none and is scheduled instead. */
  lemma RemovedMeans(s: State, act: Act)
    requires act.RemoveType? || act.RemoveId?
    ensures var t := Acted(s, act);
      var id := if act.RemoveId? then Some(act.id) else None;
      if !act.force && act.typ == PARALYZE && act.walking && exists j :: 0 <= j < |s.conditions| && Goes(s.conditions[j], act.typ, id)
      then t == s.(events := s.events + [ForceRemove(act.typ)])
      else
        && t.events == s.events
        && forall c :: c in t.conditions <==> c in s.conditions && !Goes(c, act.typ, id)
  {
    var id := if act.RemoveId? then Some(act.id) else None;
    KeptIn(s.conditions, act.typ, id);
    KeptLength(s.conditions, act.typ, id);
  }

  /** Removal of one condition takes out just that one and its delta. */
  lemma RemovedOneMeans(s: State, act: Act, k: nat)
    requires act.RemoveOne? && k < |s.conditions| && s.conditions[k].oid == act.oid
    requires forall j :: 0 <= j < k ==> s.conditions[j].oid != act.oid
    ensures var t := Acted(s, act);
      if !act.force && s.conditions[k].typ == PARALYZE && act.walking then t == s.(events := s.events + [ForceRemove(PARALYZE)])
      else t == s.(conditions := s.conditions[..k] + s.conditions[k + 1..], varSpeed := s.varSpeed - Effect(s.conditions[k]))
  {
    var f := FindOid(s.conditions, act.oid);
    assert f == k || f < k || f > k;
  }

  ghost predicate DistinctOids(cs: seq<Cond>) {
    forall j, k :: 0 <= j < k < |cs| ==> cs[j].oid != cs[k].oid
  }

  /** A condition after some time, if it is not over then; one that is endless is never over. */
  function Later(c: Cond, interval: int, outcomes: map<nat, Outcome>): Option<Cond> {
    if c.ticks == -1 then Some(c)
    else if c.oid in outcomes && !outcomes[c.oid].inTime then None
    else Some(c.(ticks := if c.ticks - interval < 0 then 0 else c.ticks - interval))
  }

  /** Nothing but the passing of time happens while the conditions are executed. */
  predicate NoActs(outcomes: map<nat, Outcome>) {
    forall oid :: oid in outcomes ==> outcomes[oid].acts == []
  }

  /** One pass over all conditions, in which time passes for each of them, and those whose time has
      come go. */
  lemma {:induction false} PassMeans(s: State, from: nat, interval: int, outcomes: map<nat, Outcome>, done: seq<Cond>)
    requires from <= |s.conditions| && DistinctOids(s.conditions) && NoActs(outcomes)
    requires |done| == from && s.conditions[..from] == done
    ensures Executed(s, Oids(s.conditions[from..]), interval, outcomes).conditions == done + AllLater(s.conditions[from..], interval, outcomes)
    ensures Executed(s, Oids(s.conditions[from..]), interval, outcomes).events == s.events
    decreases |s.conditions| - from
  {
    hide AllLater, Effects, Passed, Later, DistinctOids, FindOid;
    var cs := s.conditions;
    if from == |cs| {
      assert cs[from..] == [] && cs[..from] == cs;
      NoneLater(interval, outcomes);
      assert done + [] == done;
    } else {
      var c, oids := cs[from], Oids(cs[from..]);
      assert cs[from..][0] == c && cs[from..][1..] == cs[from + 1..] && oids[0] == c.oid && oids[1..] == Oids(cs[from + 1..]);
      OidAt(cs, from);
      FirstLater(cs[from..], interval, outcomes);
      PassedAt(s, from, interval, outcomes);
      assert ActedAll(s, []) == s;
      var t := Passed(s, c.oid, interval, if c.oid in outcomes then outcomes[c.oid].inTime else true);
      var l := Later(c, interval, outcomes);
      if l.Some? {
        PassMeans(t, from + 1, interval, outcomes, done + [l.value]);
        Rejoin(done, [l.value], AllLater(cs[from + 1..], interval, outcomes));
      } else {
        assert [] + AllLater(cs[from + 1..], interval, outcomes) == AllLater(cs[from + 1..], interval, outcomes);
        PassMeans(t, from, interval, outcomes, done);
      }
    }
  }

  /** Time passes for the condition at `from`, and for no other. */
  lemma PassedAt(s: State, from: nat, interval: int, outcomes: map<nat, Outcome>)
    requires from < |s.conditions| && DistinctOids(s.conditions)
    ensures var cs, c := s.conditions, s.conditions[from];
      var t, l := Passed(s, c.oid, interval, if c.oid in outcomes then outcomes[c.oid].inTime else true), Later(c, interval, outcomes);
      && t.events == s.events && DistinctOids(t.conditions)
      && (if l.Some? then
            |t.conditions| == |cs| && t.conditions[..from + 1] == cs[..from] + [l.value] && t.conditions[from + 1..] == cs[from + 1..]
          else |t.conditions| == |cs| - 1 && t.conditions[..from] == cs[..from] && t.conditions[from..] == cs[from + 1..])
  {
    hide FindOid, Effect;
    OidAt(s.conditions, from);
    var cs, c := s.conditions, s.conditions[from];
    var now := cs[from := c.(ticks := if c.ticks - interval < 0 then 0 else c.ticks - interval)];
    assert now[..from] == cs[..from] && now[from + 1..] == cs[from + 1..];
  }

  /** What is left of a list of conditions after some time. */
  function AllLater(cs: seq<Cond>, interval: int, outcomes: map<nat, Outcome>): seq<Cond> {
    if cs == [] then []
    else
      var l := Later(cs[0], interval, outcomes);
      (if l.Some? then [l.value] else []) + AllLater(cs[1..], interval, outcomes)
  }

  lemma NoneLater(interval: int, outcomes: map<nat, Outcome>)
    ensures AllLater([], interval, outcomes) == []
  {
  }

  lemma FirstLater(cs: seq<Cond>, interval: int, outcomes: map<nat, Outcome>)
    requires cs != []
    ensures var l := Later(cs[0], interval, outcomes);
      AllLater(cs, interval, outcomes) == (if l.Some? then [l.value] else []) + AllLater(cs[1..], interval, outcomes)
  {
  }

  lemma Rejoin(a: seq<Cond>, b: seq<Cond>, c: seq<Cond>)
    ensures a + b + c == a + (b + c)
  {
  }

  lemma OidAt(cs: seq<Cond>, k: nat)
    requires k < |cs| && DistinctOids(cs)
    ensures FindOid(cs, cs[k].oid) == k
  {
    var f := FindOid(cs, cs[k].oid);
    assert f == k || f < k || f > k;
  }

  /** A whole execution in which nothing else happens. */
  lemma QuietExecution(s: State, interval: int, outcomes: map<nat, Outcome>)
    requires DistinctOids(s.conditions) && NoActs(outcomes)
    ensures var t := Next(s, Execute(interval, outcomes));
      t.conditions == AllLater(s.conditions, interval, outcomes) && t.events == s.events
  {
    hide Executed, AllLater;
    assert s.conditions[0..] == s.conditions && s.conditions[..0] == [];
    PassMeans(s, 0, interval, outcomes, []);
    assert [] + AllLater(s.conditions, interval, outcomes) == AllLater(s.conditions, interval, outcomes);
  }

  // ----- the operations

  predicate Goes(c: Cond, typ: nat, id: Option<int>) {
    c.typ == typ && (id.None? || c.id == id.value)
  }

  lemma KeptNext(cs: seq<Cond>, k: nat, typ: nat, id: Option<int>)
    requires k < |cs|
    ensures Kept(cs[..k + 1], typ, id) == if Goes(cs[k], typ, id) then Kept(cs[..k], typ, id) else Kept(cs[..k], typ, id) + [cs[k]]
    ensures Effects(cs[..k + 1]) == Effects(cs[..k]) + Effect(cs[k])
  {
    assert cs[..k + 1][..k] == cs[..k];
  }

  lemma {:induction false} KeptLength(cs: seq<Cond>, typ: nat, id: Option<int>)
    ensures |Kept(cs, typ, id)| <= |cs|
    ensures (exists k :: 0 <= k < |cs| && Goes(cs[k], typ, id)) <==> Kept(cs, typ, id) != cs
  {
    if cs != [] {
      var front, last := cs[..|cs| - 1], |cs| - 1;
      KeptLength(front, typ, id);
      assert cs == front + [cs[last]];
      if k :| 0 <= k < |cs| && Goes(cs[k], typ, id) {
        assert k < last ==> Goes(front[k], typ, id);
        assert |Kept(cs, typ, id)| < |cs| || Kept(front, typ, id) != front;
      } else {
        assert Kept(front, typ, id) == front;
      }
    }
  }

  lemma EraseMiddle(front: seq<Cond>, cs: seq<Cond>, k: nat)
    requires k < |cs|
    ensures (front + cs[k..])[|front|] == cs[k]
    ensures Erased(front + cs[k..], |front|) == front + cs[k + 1..] && front + cs[k..] == front + [cs[k]] + cs[k + 1..]
  {
  }

  /** The condition that comes after those kept of the first `k`: it goes, or it is kept, too. */
  lemma Meets(cs: seq<Cond>, k: nat, typ: nat, id: Option<int>)
    requires k < |cs|
    ensures var kept, next := Kept(cs[..k], typ, id), Kept(cs[..k + 1], typ, id);
      && (kept + cs[k..])[|kept|] == cs[k]
      && (Goes(cs[k], typ, id) ==> next == kept && Erased(kept + cs[k..], |kept|) == next + cs[k + 1..])
      && (!Goes(cs[k], typ, id) ==>
          |next| == |kept| + 1 && kept + cs[k..] == next + cs[k + 1..] && Effects(next) == Effects(kept) + Effect(cs[k]))
      && Effects(cs[..k + 1]) == Effects(cs[..k]) + Effect(cs[k])
  {
    hide Kept, Effects, Erased, Effect, Goes;
    EraseMiddle(Kept(cs[..k], typ, id), cs, k);
    KeptNext(cs, k, typ, id);
    EffectsPush(Kept(cs[..k], typ, id), cs[k]);
  }

  /** The first `k` conditions have been looked at, and `it` of them kept. */
  ghost predicate Halfway(was: State, cs: seq<Cond>, varSpeed: int, k: nat, it: nat, typ: nat, id: Option<int>) {
    && k <= |was.conditions| && it == |Kept(was.conditions[..k], typ, id)|
    && cs == Kept(was.conditions[..k], typ, id) + was.conditions[k..]
    && varSpeed == was.varSpeed - Effects(was.conditions[..k]) + Effects(Kept(was.conditions[..k], typ, id))
  }

  lemma HalfwayStarts(was: State, typ: nat, id: Option<int>)
    ensures Halfway(was, was.conditions, was.varSpeed, 0, 0, typ, id)
  {
    assert was.conditions[..0] == [] && was.conditions[0..] == was.conditions;
    KeptNone(typ, id);
  }

  lemma HalfwayOn(was: State, cs: seq<Cond>, varSpeed: int, k: nat, it: nat, typ: nat, id: Option<int>)
    requires Halfway(was, cs, varSpeed, k, it, typ, id) && it < |cs|
    ensures k < |was.conditions| && cs[it] == was.conditions[k]
    ensures if Goes(cs[it], typ, id) then Halfway(was, Erased(cs, it), varSpeed - Effect(cs[it]), k + 1, it, typ, id)
      else Halfway(was, cs, varSpeed, k + 1, it + 1, typ, id)
  {
    hide Kept, Effects, Erased, Effect, Goes;
    Meets(was.conditions, k, typ, id);
  }

  lemma HalfwayEnds(was: State, cs: seq<Cond>, varSpeed: int, k: nat, it: nat, typ: nat, id: Option<int>, force: bool, walking: bool)
    requires Halfway(was, cs, varSpeed, k, it, typ, id) && it >= |cs|
    requires !force && typ == PARALYZE && walking ==> cs == was.conditions
    ensures Removed(was, typ, id, force, walking) == was.(conditions := cs, varSpeed := varSpeed)
  {
    hide Kept, Effects;
    assert was.conditions[..k] == was.conditions && was.conditions[k..] == [];
  }

  lemma PutOffRemoval(was: State, k: nat, typ: nat, id: Option<int>, force: bool, walking: bool)
    requires k < |was.conditions| && Goes(was.conditions[k], typ, id) && !force && typ == PARALYZE && walking
    ensures Removed(was, typ, id, force, walking) == was.(events := was.events + [ForceRemove(typ)])
  {
    KeptLength(was.conditions, typ, id);
  }

  lemma {:induction false} FindPushed(cs: seq<Cond>, now: Cond, c: Cond)
    requires SameKey(now, c)
    ensures Find(cs + [now], c) <= |cs|
  {
    if cs != [] {
      assert (cs + [now])[1..] == cs[1..] + [now];
      FindPushed(cs[1..], now, c);
    }
  }

  lemma {:induction false} FindUpdated(cs: seq<Cond>, k: nat, now: Cond, c: Cond)
    requires k < |cs| && SameKey(now, c)
    ensures Find(cs[k := now], c) < |cs|
  {
    if k > 0 {
      assert cs[k := now][1..] == cs[1..][k - 1 := now];
      FindUpdated(cs[1..], k - 1, now, c);
    }
  }

  class Creature {
    var conditions: seq<Cond>
    var varSpeed: int
    var events: seq<Event>

    constructor (varSpeed: int)
      ensures Now() == State([], varSpeed, [])
    {
      conditions, this.varSpeed, events := [], varSpeed, [];
    }

    function Now(): State
      reads this
    {
      State(conditions, varSpeed, events)
    }

    /** `changeSpeed` */
    method ChangeSpeed(delta: int)
      modifies `varSpeed
      ensures varSpeed == old(varSpeed) + delta
    {
      varSpeed := varSpeed + delta;
    }

    /** `getCondition` */
    method GetCondition(c: Cond) returns (k: nat)
      ensures k == Find(conditions, c)
    {
      k := 0;
      while k < |conditions| && !SameKey(conditions[k], c)
        invariant k <= |conditions| && Find(conditions, c) == k + Find(conditions[k..], c)
      {
        assert conditions[k..][1..] == conditions[k + 1..];
        k := k + 1;
      }
    }

    /** `std::find` in the list */
    method FindCondition(oid: nat) returns (k: nat)
      ensures k == FindOid(conditions, oid)
    {
      k := 0;
      while k < |conditions| && conditions[k].oid != oid
        invariant k <= |conditions| && FindOid(conditions, oid) == k + FindOid(conditions[k..], oid)
      {
        assert conditions[k..][1..] == conditions[k + 1..];
        k := k + 1;
      }
    }

    /** `addCondition`: the answer is whether a condition of this key is active now, but for one put off. */
    method AddCondition(c: Cond, force: bool, walking: bool, paralyzed: bool, starts: bool, later: bool, drawn: int) returns (added: bool)
      modifies this
      ensures Now() == Added(old(Now()), Add(c, force, walking, paralyzed, starts, later, drawn))
      ensures added <==> !PutOff(Add(c, force, walking, paralyzed, starts, later, drawn)) && Find(conditions, c) < |conditions|
      ensures PutOff(Add(c, force, walking, paralyzed, starts, later, drawn)) ==> conditions == old(conditions) && varSpeed == old(varSpeed)
      ensures var k := Find(old(conditions), c);
        !PutOff(Add(c, force, walking, paralyzed, starts, later, drawn)) && k < |old(conditions)| ==>
          var was := old(conditions)[k];
          && |conditions| == |old(conditions)| && SameKey(conditions[k], c)
          && (forall j :: 0 <= j < |conditions| && j != k ==> conditions[j] == old(conditions)[j])
          && (was.ticks == -1 && c.ticks > 0 ==> conditions == old(conditions) && varSpeed == old(varSpeed))
          && (IsSpeed(c.typ) && !(was.ticks == -1 && c.ticks > 0) ==>
                && conditions[k].ticks == c.ticks && conditions[k].delta == (if c.delta == 0 then drawn else c.delta)
                && varSpeed == old(varSpeed) + conditions[k].delta - was.delta)
      ensures !PutOff(Add(c, force, walking, paralyzed, starts, later, drawn)) && Find(old(conditions), c) == |old(conditions)| ==>
        if IsSpeed(c.typ) then
          var delta := if c.delta == 0 then drawn else c.delta;
          conditions == old(conditions) + [c.(delta := delta)] && varSpeed == old(varSpeed) + delta
        else conditions == (if starts then old(conditions) + [c] else old(conditions)) && varSpeed == old(varSpeed)
    {
      hide Find;
      AddedMeans(Now(), Add(c, force, walking, paralyzed, starts, later, drawn));
      if !force && c.typ == HASTE && paralyzed && walking {
        events := events + [ForceAdd(c)];
        return false;
      }
      var prev := GetCondition(c);
      if prev < |conditions| {
        var was := conditions[prev];
        var now := Updated(was, c, later, drawn);
        conditions := conditions[prev := now];
        if Effect(now) != Effect(was) {
          ChangeSpeed(Effect(now) - Effect(was));
        }
        FindUpdated(old(conditions), prev, now, c);
        return true;
      }
      if IsSpeed(c.typ) || starts {
        var now := Started(c, drawn);
        ChangeSpeed(Effect(now));
        FindPushed(conditions, now, c);
        conditions := conditions + [now];
        return true;
      }
      return false;
    }

    /** `removeCondition` for a type, or for a type and an id. */
    method RemoveCondition(typ: nat, id: Option<int>, force: bool, walking: bool)
      modifies this
      ensures Now() == Removed(old(Now()), typ, id, force, walking)
    {
      hide Kept, Effects, Erased, Effect, Goes, Halfway, Removed;
      ghost var was, k := Now(), 0;
      var it := 0;
      HalfwayStarts(was, typ, id);
      while it < |conditions|
        invariant Halfway(was, conditions, varSpeed, k, it, typ, id) && events == old(events)
        invariant !force && typ == PARALYZE && walking ==> Now() == was
        decreases |was.conditions| - k
      {
        HalfwayOn(was, conditions, varSpeed, k, it, typ, id);
        var c := conditions[it];
        if !Goes(c, typ, id) {
          it := it + 1;
        } else {
          if !force && typ == PARALYZE && walking {
            PutOffRemoval(was, k, typ, id, force, walking);
            events := events + [ForceRemove(typ)];
            return;
          }
          conditions := Erased(conditions, it);
          ChangeSpeed(-Effect(c));
        }
        k := k + 1;
      }
      HalfwayEnds(was, conditions, varSpeed, k, it, typ, id, force, walking);
    }

    /** `removeCondition` for one condition. */
    method RemoveOneCondition(oid: nat, force: bool, walking: bool)
      modifies this
      ensures Now() == RemovedOne(old(Now()), oid, force, walking)
    {
      hide FindOid;
      var k := FindCondition(oid);
      if k == |conditions| {
        return;
      }
      var c := conditions[k];
      if !force && c.typ == PARALYZE && walking {
        events := events + [ForceRemove(PARALYZE)];
        return;
      }
      conditions := Erased(conditions, k);
      ChangeSpeed(-Effect(c));
    }

    /** Any one change. */
    method Perform(act: Act)
      modifies this
      ensures Now() == Acted(old(Now()), act)
    {
      match act
      case Add(c, force, walking, paralyzed, starts, later, drawn) =>
        var added := AddCondition(c, force, walking, paralyzed, starts, later, drawn);
      case RemoveType(typ, force, walking) => RemoveCondition(typ, None, force, walking);
      case RemoveId(typ, id, force, walking) => RemoveCondition(typ, Some(id), force, walking);
      case RemoveOne(oid, force, walking) => RemoveOneCondition(oid, force, walking);
    }

    method PerformAll(acts: seq<Act>)
      modifies this
      ensures Now() == ActedAll(old(Now()), acts)
    {
      hide Acted;
      for k := 0 to |acts|
        invariant ActedAll(Now(), acts[k..]) == ActedAll(old(Now()), acts)
      {
        assert acts[k..][1..] == acts[k + 1..];
        Perform(acts[k]);
      }
      assert acts[|acts|..] == [];
    }

    /** `executeConditions`: over a copy of the list, as conditions come and go meanwhile. */
    method ExecuteConditions(interval: int, outcomes: map<nat, Outcome>)
      modifies this
      ensures Now() == Executed(old(Now()), Oids(old(conditions)), interval, outcomes)
    {
      hide FindOid, ActedAll, Passed;
      var temp := Oids(conditions);
      for k := 0 to |temp|
        invariant Executed(Now(), temp[k..], interval, outcomes) == Executed(old(Now()), temp, interval, outcomes)
      {
        assert temp[k..][1..] == temp[k + 1..];
        var at := FindCondition(temp[k]);
        if at < |conditions| {
          var outcome := if temp[k] in outcomes then outcomes[temp[k]] else Outcome([], true);
          PerformAll(outcome.acts);
          Pass(temp[k], interval, outcome.inTime);
        }
      }
      assert temp[|temp|..] == [];
    }

    /** `executeCondition`, and the end of a condition whose time has come. */
    method Pass(oid: nat, interval: int, inTime: bool)
      modifies this
      ensures Now() == Passed(old(Now()), oid, interval, inTime)
    {
      hide FindOid;
      var k := FindCondition(oid);
      if k == |conditions| || conditions[k].ticks == -1 {
        return;
      }
      var left := conditions[k].ticks - interval;
      conditions := conditions[k := conditions[k].(ticks := if left < 0 then 0 else left)];
      if !inTime {
        var c := conditions[k];
        conditions := Erased(conditions, k);
        ChangeSpeed(-Effect(c));
      }
    }
  }

  lemma KeptNone(typ: nat, id: Option<int>)
    ensures Kept([], typ, id) == [] && Effects([]) == 0
  {
  }
}
