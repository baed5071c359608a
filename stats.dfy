/** The stat table of an entity (src/entity/stats.rs): six stat slots and a
    map from a source id to a timed change of one stat, which is undone when
    its duration runs out. */
module Stats {
  import opened Common
  import opened EffectMaps

  datatype StatType = Health | Defence | MagicDefence | Attack | Magic | Speed

  datatype Stat = Stat(statType: StatType, statValue: real)

  /** A timed change (`StatChangeDuration`): the amount actually added and
      the time it has left. */
  datatype StatChange = StatChange(statType: StatType, amount: real, duration: real)

  /** The value of every field of a `Stats` component. */
  datatype StatsData = StatsData(stats: seq<Stat>, effects: map<nat, StatChange>)

  /** The slot the source's `find` stops at: the first one of the type. */
  function FindStat(s: seq<Stat>, t: StatType): (r: Option<nat>)
    ensures r.Some? ==> r.value < |s| && s[r.value].statType == t
    ensures r.Some? ==> forall j :: 0 <= j < r.value ==> s[j].statType != t
    ensures r.None? <==> forall j :: 0 <= j < |s| ==> s[j].statType != t
  {
    if s == [] then None
    else if s[0].statType == t then Some(0)
    else match FindStat(s[1..], t)
      case None => None
      case Some(i) => Some(i + 1)
  }

  /** `get_stat`: the value of the first slot of the type, if any. */
  function GetStatSpec(s: seq<Stat>, t: StatType): Option<real> {
    match FindStat(s, t)
    case None => None
    case Some(i) => Some(s[i].statValue)
  }

  /** `add_stat`: the amount is added to the first slot of the type; nothing
      happens when there is none. */
  function AddStatSpec(s: seq<Stat>, t: StatType, amount: real): seq<Stat> {
    match FindStat(s, t)
    case None => s
    case Some(i) => s[i := s[i].(statValue := s[i].statValue + amount)]
  }

  /** `add_stat` changes the value of the named stat by `amount` and leaves
      every slot's type and every other stat alone. */
  lemma AddStatFacts(s: seq<Stat>, t: StatType, amount: real, u: StatType)
    ensures var r := AddStatSpec(s, t, amount);
      && |r| == |s|
      && (forall j :: 0 <= j < |s| ==> r[j].statType == s[j].statType)
      && FindStat(r, u) == FindStat(s, u)
      && GetStatSpec(r, t) == (match GetStatSpec(s, t) case None => None case Some(v) => Some(v + amount))
      && (u != t ==> GetStatSpec(r, u) == GetStatSpec(s, u))
      && (GetStatSpec(s, t).None? ==> r == s)
  {
    match FindStat(s, t)
    case None =>
    case Some(i) =>
      var r := s[i := s[i].(statValue := s[i].statValue + amount)];
      assert AddStatSpec(s, t, amount) == r;
      SameTypesSameFind(s, r, u);
      SameTypesSameFind(s, r, t);
      assert GetStatSpec(r, t) == Some(s[i].statValue + amount);
      if u != t {
        match FindStat(s, u)
        case None =>
        case Some(j) =>
          assert j != i && r[j] == s[j];
      }
  }

  /** Slot lookup only looks at the slots' types. */
  lemma {:induction false} SameTypesSameFind(s: seq<Stat>, r: seq<Stat>, u: StatType)
    requires |r| == |s|
    requires forall j :: 0 <= j < |s| ==> r[j].statType == s[j].statType
    ensures FindStat(r, u) == FindStat(s, u)
  {
    if s != [] && s[0].statType != u {
      SameTypesSameFind(s[1..], r[1..], u);
    }
  }

  /** Adding an amount and then its negation restores the table. */
  lemma AddStatUndo(s: seq<Stat>, t: StatType, amount: real)
    ensures AddStatSpec(AddStatSpec(s, t, amount), t, -amount) == s
  {
    var r := AddStatSpec(s, t, amount);
    AddStatFacts(s, t, amount, t);
    match FindStat(s, t)
    case None =>
    case Some(i) =>
      assert AddStatSpec(r, t, -amount) == r[i := r[i].(statValue := r[i].statValue - amount)];
      assert r[i].statValue - amount == s[i].statValue;
  }

  /** `f32::signum` on a number: 1 for zero and above, -1 below. */
  function Signum(x: real): real {
    if x >= 0.0 then 1.0 else -1.0
  }

  /** `add_duration_change`: nothing happens when the id already has a
      change. Otherwise, when the sign may not change, the stat must exist
      (else nothing happens) and the amount becomes 0 if adding it would flip
      the stat's sign; the amount is then added to the stat and recorded. */
  function AddChangeSpec(d: StatsData, t: StatType, amount: real, duration: real, id: nat, canChangeSign: bool): StatsData {
    if id in d.effects then d
    else if !canChangeSign && GetStatSpec(d.stats, t).None? then d
    else
      var applied :=
        if canChangeSign then amount
        else
          var current := GetStatSpec(d.stats, t).value;
          if Signum(current + amount) == Signum(current) then amount else 0.0;
      StatsData(AddStatSpec(d.stats, t, applied), d.effects[id := StatChange(t, applied, duration)])
  }

  /** What one `add_duration_change` call does: at most one change per id;
      a recorded change carries exactly the amount added to the stat; a
      sign-preserving change keeps the stat's sign and records nothing for a
      missing stat. */
  lemma AddChangeFacts(d: StatsData, t: StatType, amount: real, duration: real, id: nat, canChangeSign: bool)
    ensures var r := AddChangeSpec(d, t, amount, duration, id, canChangeSign);
      && (id in d.effects ==> r == d)
      && (!canChangeSign && GetStatSpec(d.stats, t).None? ==> r == d)
      && (id !in d.effects && (canChangeSign || GetStatSpec(d.stats, t).Some?) ==>
            && r.effects.Keys == d.effects.Keys + {id}
            && (forall k :: k in d.effects ==> r.effects[k] == d.effects[k])
            && r.effects[id].statType == t && r.effects[id].duration == duration
            && r.stats == AddStatSpec(d.stats, t, r.effects[id].amount)
            && (canChangeSign ==> r.effects[id].amount == amount))
      && (id !in d.effects && !canChangeSign && GetStatSpec(d.stats, t).Some? ==>
            var v := GetStatSpec(d.stats, t).value;
            r.effects[id].amount == (if Signum(v + amount) == Signum(v) then amount else 0.0))
      && (!canChangeSign && GetStatSpec(d.stats, t).Some? ==>
            GetStatSpec(r.stats, t).Some? &&
            Signum(GetStatSpec(r.stats, t).value) == Signum(GetStatSpec(d.stats, t).value))
  {
    var r := AddChangeSpec(d, t, amount, duration, id, canChangeSign);
    if id !in d.effects && GetStatSpec(d.stats, t).Some? {
      AddStatFacts(d.stats, t, r.effects[id].amount, t);
    }
  }

  /** A timed change after one tick: its duration drops by `dt`, clamped at 0. */
  function TickChange(c: StatChange, dt: real): (r: StatChange)
    requires 0.0 <= dt
    ensures r == c.(duration := r.duration) && 0.0 <= r.duration
    ensures r.duration == 0.0 <==> c.duration <= dt
    ensures 0.0 < r.duration ==> r.duration == c.duration - dt
  {
    c.(duration := Max(0.0, c.duration - dt))
  }

  /** The change map after ticking the listed changes one after the other. */
  function TickListed(effects: map<nat, StatChange>, order: seq<nat>, dt: real): (r: map<nat, StatChange>)
    requires 0.0 <= dt
    requires forall i :: 0 <= i < |order| ==> order[i] in effects
    ensures r.Keys == effects.Keys
  {
    if order == [] then effects
    else
      var id := order[|order| - 1];
      TickListed(effects, order[..|order| - 1], dt)[id := TickChange(effects[id], dt)]
  }

  /** The ids of the listed changes whose tick brings them to 0, in order. */
  function FinishedIds(effects: map<nat, StatChange>, order: seq<nat>, dt: real): (r: seq<nat>)
    requires 0.0 <= dt
    requires forall i :: 0 <= i < |order| ==> order[i] in effects
    ensures forall i :: 0 <= i < |r| ==> r[i] in effects
  {
    if order == [] then []
    else
      var id := order[|order| - 1];
      FinishedIds(effects, order[..|order| - 1], dt) + (if TickChange(effects[id], dt).duration == 0.0 then [id] else [])
  }

  /** The stats after undoing the listed changes one after the other. */
  function RevertAll(stats: seq<Stat>, effects: map<nat, StatChange>, ids: seq<nat>): seq<Stat>
    requires forall i :: 0 <= i < |ids| ==> ids[i] in effects
  {
    if ids == [] then stats
    else
      var c := effects[ids[|ids| - 1]];
      AddStatSpec(RevertAll(stats, effects, ids[..|ids| - 1]), c.statType, -c.amount)
  }

  /** `update_stats` for one component: nothing happens without changes;
      otherwise every change ticks, and each one that reaches 0 is undone and
      removed. */
  function UpdateSpec(d: StatsData, dt: real, order: seq<nat>): StatsData
    requires 0.0 <= dt
    requires IsOrderOf(d.effects, order)
  {
    if |d.effects| == 0 then d
    else
      var ticked := TickListed(d.effects, order, dt);
      var finished := FinishedIds(d.effects, order, dt);
      StatsData(RevertAll(d.stats, ticked, finished), RemoveAll(ticked, finished))
  }

  lemma TickListedStep(effects: map<nat, StatChange>, order: seq<nat>, dt: real, k: nat)
    requires 0.0 <= dt
    requires forall i :: 0 <= i < |order| ==> order[i] in effects
    requires k < |order|
    ensures TickListed(effects, order[..k + 1], dt) == TickListed(effects, order[..k], dt)[order[k] := TickChange(effects[order[k]], dt)]
  {
    var prefix := order[..k + 1];
    assert prefix[..|prefix| - 1] == order[..k];
  }

  lemma FinishedIdsStep(effects: map<nat, StatChange>, order: seq<nat>, dt: real, k: nat)
    requires 0.0 <= dt
    requires forall i :: 0 <= i < |order| ==> order[i] in effects
    requires k < |order|
    ensures FinishedIds(effects, order[..k + 1], dt) == FinishedIds(effects, order[..k], dt)
      + (if TickChange(effects[order[k]], dt).duration == 0.0 then [order[k]] else [])
  {
    var prefix := order[..k + 1];
    assert prefix[..|prefix| - 1] == order[..k];
  }

  lemma RevertAllStep(stats: seq<Stat>, effects: map<nat, StatChange>, ids: seq<nat>, k: nat)
    requires forall i :: 0 <= i < |ids| ==> ids[i] in effects
    requires k < |ids|
    ensures RevertAll(stats, effects, ids[..k + 1])
      == AddStatSpec(RevertAll(stats, effects, ids[..k]), effects[ids[k]].statType, -effects[ids[k]].amount)
  {
    var prefix := ids[..k + 1];
    assert prefix[..|prefix| - 1] == ids[..k];
  }

  /** Ticking the first `k` listed changes touches exactly those, each once. */
  lemma {:induction false} TickListedAt(effects: map<nat, StatChange>, order: seq<nat>, dt: real, id: nat)
    requires 0.0 <= dt
    requires forall i :: 0 <= i < |order| ==> order[i] in effects
    ensures id in effects ==>
      TickListed(effects, order, dt)[id] == (if id in order then TickChange(effects[id], dt) else effects[id])
  {
    if order != [] {
      TickListedAt(effects, order[..|order| - 1], dt, id);
      assert order == order[..|order| - 1] + [order[|order| - 1]];
    }
  }

  /** The finished ids are exactly the listed changes whose duration runs out
      within `dt`. */
  lemma {:induction false} FinishedIdsExact(effects: map<nat, StatChange>, order: seq<nat>, dt: real, id: nat)
    requires 0.0 <= dt
    requires forall i :: 0 <= i < |order| ==> order[i] in effects
    ensures id in FinishedIds(effects, order, dt) <==> id in order && effects[id].duration <= dt
  {
    if order != [] {
      FinishedIdsExact(effects, order[..|order| - 1], dt, id);
      assert order == order[..|order| - 1] + [order[|order| - 1]];
    }
  }

  /** After an update exactly the changes with time left beyond `dt` remain,
      each with `dt` less time. */
  lemma UpdateKeepsRunning(d: StatsData, dt: real, order: seq<nat>, id: nat)
    requires 0.0 <= dt
    requires IsOrderOf(d.effects, order)
    ensures var r := UpdateSpec(d, dt, order);
      && (id in r.effects <==> id in d.effects && dt < d.effects[id].duration)
      && (id in r.effects ==> r.effects[id] == d.effects[id].(duration := d.effects[id].duration - dt))
  {
    if |d.effects| != 0 {
      var ticked := TickListed(d.effects, order, dt);
      var finished := FinishedIds(d.effects, order, dt);
      TickListedAt(d.effects, order, dt, id);
      FinishedIdsExact(d.effects, order, dt, id);
      RemoveAllExact(ticked, finished);
    }
  }

  /** When no listed change other than `id` runs out within `dt`, the
      finished list holds `id` alone if it runs out, and nothing otherwise. */
  lemma {:induction false} FinishedAtMostOne(effects: map<nat, StatChange>, order: seq<nat>, dt: real, id: nat)
    requires 0.0 <= dt
    requires forall i :: 0 <= i < |order| ==> order[i] in effects
    requires forall i, j :: 0 <= i < j < |order| ==> order[i] != order[j]
    requires forall i :: 0 <= i < |order| && order[i] != id ==> dt < effects[order[i]].duration
    ensures FinishedIds(effects, order, dt) == if id in order && effects[id].duration <= dt then [id] else []
  {
    if order != [] {
      var prefix, last := order[..|order| - 1], order[|order| - 1];
      assert forall i :: 0 <= i < |prefix| ==> prefix[i] == order[i];
      FinishedAtMostOne(effects, prefix, dt, id);
      assert FinishedIds(effects, order, dt) ==
        FinishedIds(effects, prefix, dt) + (if TickChange(effects[last], dt).duration == 0.0 then [last] else []);
      assert id in order <==> id in prefix || last == id;
      if last == id {
        assert id !in prefix;
      }
    }
  }

  /** The stats after an update in which at most the change `id` runs out:
      that change's amount is undone if it runs out, and nothing else
      changes. */
  lemma StatsAfterUpdate(d: StatsData, dt: real, order: seq<nat>, id: nat)
    requires 0.0 <= dt
    requires IsOrderOf(d.effects, order)
    requires forall k :: k in d.effects && k != id ==> dt < d.effects[k].duration
    ensures UpdateSpec(d, dt, order).stats ==
      if id in d.effects && d.effects[id].duration <= dt
      then AddStatSpec(d.stats, d.effects[id].statType, -d.effects[id].amount)
      else d.stats
  {
    if |d.effects| != 0 {
      var ticked := TickListed(d.effects, order, dt);
      FinishedAtMostOne(d.effects, order, dt, id);
      if id in d.effects && d.effects[id].duration <= dt {
        TickListedAt(d.effects, order, dt, id);
        RevertOne(d.stats, ticked, id);
      }
    }
  }

  lemma RevertOne(stats: seq<Stat>, effects: map<nat, StatChange>, id: nat)
    requires id in effects
    ensures RevertAll(stats, effects, [id]) == AddStatSpec(stats, effects[id].statType, -effects[id].amount)
  {
    assert [id][..0] == [];
  }

  /** A change that expires undoes exactly what it added: adding a timed
      change under a new id and then running an update at least as long as
      its duration gives back the stats from before the change, while every
      other change, none of which runs out in that update, stays with `dt`
      less time. */
  lemma ChangeExpiresRoundTrip(d: StatsData, t: StatType, amount: real, duration: real, id: nat,
                               canChangeSign: bool, dt: real, order: seq<nat>)
    requires id !in d.effects
    requires 0.0 <= dt && duration <= dt
    requires forall k :: k in d.effects ==> dt < d.effects[k].duration
    requires IsOrderOf(AddChangeSpec(d, t, amount, duration, id, canChangeSign).effects, order)
    ensures var r := UpdateSpec(AddChangeSpec(d, t, amount, duration, id, canChangeSign), dt, order);
      && r.stats == d.stats
      && (forall k :: k in r.effects <==> k in d.effects)
      && forall k :: k in d.effects ==> r.effects[k] == d.effects[k].(duration := d.effects[k].duration - dt)
  {
    AddChangeFacts(d, t, amount, duration, id, canChangeSign);
    ExpiresAfterAdding(d, AddChangeSpec(d, t, amount, duration, id, canChangeSign), id, dt, order);
  }

  /** The round trip for any table `added` that is `d` with possibly one
      more change under `id`, added on top of `d`'s stats and running out
      within `dt`. */
  lemma ExpiresAfterAdding(d: StatsData, added: StatsData, id: nat, dt: real, order: seq<nat>)
    requires 0.0 <= dt
    requires IsOrderOf(added.effects, order)
    requires id !in d.effects
    requires forall k :: k in d.effects ==> dt < d.effects[k].duration
    requires id !in added.effects ==> added == d
    requires id in added.effects ==>
      && added.effects.Keys == d.effects.Keys + {id}
      && (forall k :: k in d.effects ==> added.effects[k] == d.effects[k])
      && added.effects[id].duration <= dt
      && added.stats == AddStatSpec(d.stats, added.effects[id].statType, added.effects[id].amount)
    ensures var r := UpdateSpec(added, dt, order);
      && r.stats == d.stats
      && (forall k :: k in r.effects <==> k in d.effects)
      && forall k :: k in d.effects ==> r.effects[k] == d.effects[k].(duration := d.effects[k].duration - dt)
  {
    ExpiredChangeGone(d, added, id, dt, order);
    if id in added.effects {
      StatsRestored(d.stats, added, added.effects[id], id, dt, order);
    } else {
      StatsAfterUpdate(added, dt, order, id);
    }
  }

  /** The stats after an update in which only the change `c`, added on top
      of `stats`, runs out are `stats` again. */
  lemma StatsRestored(stats: seq<Stat>, added: StatsData, c: StatChange, id: nat, dt: real, order: seq<nat>)
    requires 0.0 <= dt && c.duration <= dt
    requires IsOrderOf(added.effects, order)
    requires id in added.effects && added.effects[id] == c
    requires added.stats == AddStatSpec(stats, c.statType, c.amount)
    requires forall k :: k in added.effects && k != id ==> dt < added.effects[k].duration
    ensures UpdateSpec(added, dt, order).stats == stats
  {
    StatsAfterUpdate(added, dt, order, id);
    AddStatUndo(stats, c.statType, c.amount);
  }

  /** The changes after an update of `added`, which holds the changes of `d`
      and possibly one more under `id` that runs out: exactly the changes of
      `d` remain, each with `dt` less time. */
  lemma ExpiredChangeGone(d: StatsData, added: StatsData, id: nat, dt: real, order: seq<nat>)
    requires 0.0 <= dt
    requires IsOrderOf(added.effects, order)
    requires id !in d.effects
    requires added.effects.Keys <= d.effects.Keys + {id}
    requires forall k :: k in d.effects ==> k in added.effects && added.effects[k] == d.effects[k]
    requires forall k :: k in d.effects ==> dt < d.effects[k].duration
    requires id in added.effects ==> added.effects[id].duration <= dt
    ensures var r := UpdateSpec(added, dt, order);
      && (forall k :: k in r.effects <==> k in d.effects)
      && forall k :: k in d.effects ==> r.effects[k] == d.effects[k].(duration := d.effects[k].duration - dt)
  {
    forall k
      ensures k in UpdateSpec(added, dt, order).effects <==> k in d.effects
      ensures k in d.effects ==> UpdateSpec(added, dt, order).effects[k] == d.effects[k].(duration := d.effects[k].duration - dt)
    {
      UpdateKeepsRunning(added, dt, order, k);
    }
  }

  /** The iteration order of a change map that holds at most `id`. */
  function OnlyOrder(effects: map<nat, StatChange>, id: nat): seq<nat> {
    if id in effects then [id] else []
  }

  /** An update of a change map that holds at most `id` leaves at most `id`. */
  lemma StaysSingle(d: StatsData, dt: real, id: nat)
    requires 0.0 <= dt
    requires d.effects.Keys <= {id}
    ensures IsOrderOf(d.effects, OnlyOrder(d.effects, id))
    ensures UpdateSpec(d, dt, OnlyOrder(d.effects, id)).effects.Keys <= {id}
  {
    forall k | k in UpdateSpec(d, dt, OnlyOrder(d.effects, id)).effects
      ensures k == id
    {
      UpdateKeepsRunning(d, dt, OnlyOrder(d.effects, id), k);
    }
  }

  /** `update_stats` once per frame, with frame times `dts`, on a table whose
      only change, if any, is the one under `id`. */
  function Frames(d: StatsData, id: nat, dts: seq<real>): (r: StatsData)
    requires d.effects.Keys <= {id}
    requires NonNegative(dts)
    ensures r.effects.Keys <= {id}
    decreases |dts|
  {
    if dts == [] then d
    else
      StaysSingle(d, dts[0], id);
      Frames(UpdateSpec(d, dts[0], OnlyOrder(d.effects, id)), id, dts[1..])
  }

  /** Frames change nothing on a table without changes. */
  lemma {:induction false} FramesWithoutChanges(d: StatsData, id: nat, dts: seq<real>)
    requires d.effects == map[]
    requires NonNegative(dts)
    ensures Frames(d, id, dts) == d
    decreases |dts|
  {
    if dts != [] {
      FramesWithoutChanges(d, id, dts[1..]);
    }
  }

  /** A running change `c` on top of the stats `base` is undone by the
      frame in which the frame times reach its duration. */
  lemma {:induction false} RunningChangeExpires(base: seq<Stat>, id: nat, c: StatChange, dts: seq<real>)
    requires NonNegative(dts)
    requires dts != [] && c.duration <= Sum(dts)
    ensures Frames(StatsData(AddStatSpec(base, c.statType, c.amount), map[id := c]), id, dts) == StatsData(base, map[])
    decreases |dts|
  {
    var s := StatsData(AddStatSpec(base, c.statType, c.amount), map[id := c]);
    var dt := dts[0];
    StaysSingle(s, dt, id);
    assert OnlyOrder(s.effects, id) == [id];
    assert Frames(s, id, dts) == Frames(UpdateSpec(s, dt, [id]), id, dts[1..]);
    if c.duration <= dt {
      LastFrame(base, id, c, dt);
      FramesWithoutChanges(StatsData(base, map[]), id, dts[1..]);
    } else {
      RunningFrame(base, id, c, dt);
      assert 0.0 < Sum(dts[1..]);
      RunningChangeExpires(base, id, TickChange(c, dt), dts[1..]);
    }
  }

  /** Ticking a table holding the single change `c` along its only order. */
  lemma TickSingle(c: StatChange, id: nat, dt: real)
    requires 0.0 <= dt
    ensures TickListed(map[id := c], [id], dt) == map[id := TickChange(c, dt)]
    ensures FinishedIds(map[id := c], [id], dt) == if c.duration <= dt then [id] else []
  {
    assert [id][..0] == [];
  }

  /** The frame in which the only change runs out undoes it. */
  lemma LastFrame(base: seq<Stat>, id: nat, c: StatChange, dt: real)
    requires 0.0 <= dt && c.duration <= dt
    ensures UpdateSpec(StatsData(AddStatSpec(base, c.statType, c.amount), map[id := c]), dt, [id]) == StatsData(base, map[])
  {
    var stats := AddStatSpec(base, c.statType, c.amount);
    var ticked := map[id := TickChange(c, dt)];
    TickSingle(c, id, dt);
    RevertOne(stats, ticked, id);
    AddStatUndo(base, c.statType, c.amount);
    assert [id][..0] == [];
    assert RemoveAll(ticked, [id]) == map[];
  }

  /** A frame in which the only change keeps running only ticks it. */
  lemma RunningFrame(base: seq<Stat>, id: nat, c: StatChange, dt: real)
    requires 0.0 <= dt < c.duration
    ensures UpdateSpec(StatsData(AddStatSpec(base, c.statType, c.amount), map[id := c]), dt, [id])
      == StatsData(AddStatSpec(base, c.statType, c.amount), map[id := TickChange(c, dt)])
  {
    TickSingle(c, id, dt);
  }

  /** A change that expires over several frames undoes exactly what it
      added: on a table without changes, adding a timed change and then
      updating once per frame until the frame times reach its duration gives
      back the original table. */
  lemma ChangeExpiresOverFrames(d: StatsData, t: StatType, amount: real, duration: real, id: nat,
                                canChangeSign: bool, dts: seq<real>)
    requires d.effects == map[]
    requires NonNegative(dts)
    requires dts != [] && duration <= Sum(dts)
    ensures var added := AddChangeSpec(d, t, amount, duration, id, canChangeSign);
      added.effects.Keys <= {id} && Frames(added, id, dts) == d
  {
    var added := AddChangeSpec(d, t, amount, duration, id, canChangeSign);
    if id in added.effects {
      RunningChangeExpires(d.stats, id, added.effects[id], dts);
    } else {
      FramesWithoutChanges(added, id, dts);
    }
  }

  /** `Stats::new` and `Stats::default`: one slot per stat type, in the order
      Health, Defence, MagicDefence, Speed, Attack, Magic. */
  function Table(health: real, defence: real, magicDefence: real, speed: real, attack: real, magic: real): seq<Stat> {
    [Stat(Health, health), Stat(Defence, defence), Stat(MagicDefence, magicDefence),
     Stat(Speed, speed), Stat(Attack, attack), Stat(Magic, magic)]
  }

  /** Every stat type has a slot in a table built by `new` or `default`, so
      `get_stat` never fails on one, and it reads the value it was built with. */
  lemma TableComplete(health: real, defence: real, magicDefence: real, speed: real, attack: real, magic: real)
    ensures var s := Table(health, defence, magicDefence, speed, attack, magic);
      && |s| == 6
      && GetStatSpec(s, Health) == Some(health)
      && GetStatSpec(s, Defence) == Some(defence)
      && GetStatSpec(s, MagicDefence) == Some(magicDefence)
      && GetStatSpec(s, Speed) == Some(speed)
      && GetStatSpec(s, Attack) == Some(attack)
      && GetStatSpec(s, Magic) == Some(magic)
  {
    var s := Table(health, defence, magicDefence, speed, attack, magic);
    FindStatAt(s, 0, Health);
    FindStatAt(s, 1, Defence);
    FindStatAt(s, 2, MagicDefence);
    FindStatAt(s, 3, Speed);
    FindStatAt(s, 4, Attack);
    FindStatAt(s, 5, Magic);
  }

  /** The first slot of a type is the one lookup finds. */
  lemma FindStatAt(s: seq<Stat>, i: nat, t: StatType)
    requires i < |s| && s[i].statType == t
    requires forall j :: 0 <= j < i ==> s[j].statType != t
    ensures FindStat(s, t) == Some(i)
  {
    assert FindStat(s, t).Some?;
  }

  /** The default stats: health 100, defence 10, magic defence 10, speed 50,
      attack 25, magic 20. */
  function DefaultTable(): seq<Stat> {
    Table(100.0, 10.0, 10.0, 50.0, 25.0, 20.0)
  }

  class Stats {
    var stats: array<Stat>
    var statEffects: map<nat, StatChange>

    function Data(): StatsData
      reads this, stats
    {
      StatsData(stats[..], statEffects)
    }

    /** `Stats::new`. */
    constructor (health: real, defence: real, magicDefence: real, speed: real, attack: real, magic: real)
      ensures fresh(stats)
      ensures Data() == StatsData(Table(health, defence, magicDefence, speed, attack, magic), map[])
    {
      var table := Table(health, defence, magicDefence, speed, attack, magic);
      stats := new Stat[6](i requires 0 <= i < 6 => table[i]);
      statEffects := map[];
    }

    /** `Stats::default`. */
    constructor Default()
      ensures fresh(stats)
      ensures Data() == StatsData(DefaultTable(), map[])
    {
      var table := DefaultTable();
      stats := new Stat[6](i requires 0 <= i < 6 => table[i]);
      statEffects := map[];
    }

    /** `get_stat_mut`: the slot whose value a caller may change. */
    method GetStatMut(t: StatType) returns (r: Option<nat>)
      ensures r == FindStat(stats[..], t)
    {
      var i := 0;
      while i < stats.Length
        invariant 0 <= i <= stats.Length
        invariant forall j :: 0 <= j < i ==> stats[j].statType != t
      {
        if stats[i].statType == t {
          return Some(i);
        }
        i := i + 1;
      }
      return None;
    }

    /** `get_stat`. */
    method GetStat(t: StatType) returns (r: Option<real>)
      ensures r == GetStatSpec(stats[..], t)
    {
      var slot := GetStatMut(t);
      match slot
      case None => r := None;
      case Some(i) => r := Some(stats[i].statValue);
    }

    /** `add_stat`. */
    method AddStat(t: StatType, amount: real)
      modifies stats
      ensures stats[..] == AddStatSpec(old(stats[..]), t, amount)
    {
      var slot := GetStatMut(t);
      if slot.Some? {
        var i := slot.value;
        stats[i] := stats[i].(statValue := stats[i].statValue + amount);
      }
    }

    /** `add_duration_change`. */
    method AddDurationChange(t: StatType, amount: real, duration: real, id: nat, canChangeSign: bool)
      modifies this, stats
      ensures stats == old(stats)
      ensures Data() == AddChangeSpec(old(Data()), t, amount, duration, id, canChangeSign)
    {
      if id in statEffects {
        return;
      }
      var applied := amount;
      if !canChangeSign {
        var current := GetStat(t);
        if current.None? {
          return;
        }
        applied := if Signum(current.value + amount) == Signum(current.value) then amount else 0.0;
      }
      AddStat(t, applied);
      statEffects := statEffects[id := StatChange(t, applied, duration)];
    }

    /** `update_stats` for this component, with the map's iteration order
        given as `order`. */
    method Update(dt: real, order: seq<nat>)
      requires 0.0 <= dt
      requires IsOrderOf(statEffects, order)
      modifies this, stats
      ensures stats == old(stats)
      ensures Data() == UpdateSpec(old(Data()), dt, order)
    {
      if |statEffects| == 0 {
        return;
      }
      ghost var effects := statEffects;
      var finished := TickEffects(dt, order);
      RevertFinished(finished);
      assert stats[..] == RevertAll(old(stats[..]), TickListed(effects, order, dt), finished);
    }

    /** `update_stats`, the first loop: every change ticks, and those that
        reach 0 are reported in iteration order. */
    method TickEffects(dt: real, order: seq<nat>) returns (finished: seq<nat>)
      requires 0.0 <= dt
      requires IsOrderOf(statEffects, order)
      modifies this`statEffects
      ensures statEffects == TickListed(old(statEffects), order, dt)
      ensures finished == FinishedIds(old(statEffects), order, dt)
    {
      var effects := statEffects;
      finished := [];
      var k := 0;
      while k < |order|
        invariant 0 <= k <= |order|
        invariant statEffects == TickListed(effects, order[..k], dt)
        invariant finished == FinishedIds(effects, order[..k], dt)
      {
        var id := order[k];
        var ticked := TickChange(effects[id], dt);
        statEffects := statEffects[id := ticked];
        TickListedStep(effects, order, dt, k);
        FinishedIdsStep(effects, order, dt, k);
        if ticked.duration == 0.0 {
          finished := finished + [id];
        }
        k := k + 1;
      }
      assert order[..k] == order;
    }

    /** `update_stats`, the second loop: each finished change is undone and
        removed, one after the other. */
    method RevertFinished(finished: seq<nat>)
      requires forall i :: 0 <= i < |finished| ==> finished[i] in statEffects
      modifies this`statEffects, stats
      ensures stats[..] == RevertAll(old(stats[..]), old(statEffects), finished)
      ensures statEffects == RemoveAll(old(statEffects), finished)
    {
      var ticked := statEffects;
      var stats0 := stats[..];
      var n := 0;
      while n < |finished|
        invariant 0 <= n <= |finished|
        invariant stats[..] == RevertAll(stats0, ticked, finished[..n])
        invariant statEffects == RemoveAll(ticked, finished[..n])
      {
        RevertStep(stats0, ticked, finished, n);
        n := n + 1;
      }
      assert finished[..n] == finished;
    }

    /** The body of `update_stats`'s second loop for the `n`th finished id. */
    method RevertStep(stats0: seq<Stat>, ticked: map<nat, StatChange>, finished: seq<nat>, n: nat)
      requires n < |finished|
      requires forall i :: 0 <= i < |finished| ==> finished[i] in ticked
      requires stats[..] == RevertAll(stats0, ticked, finished[..n])
      requires statEffects == RemoveAll(ticked, finished[..n])
      modifies this`statEffects, stats
      ensures stats[..] == RevertAll(stats0, ticked, finished[..n + 1])
      ensures statEffects == RemoveAll(ticked, finished[..n + 1])
    {
      var value := ticked[finished[n]];
      RevertAllStep(stats0, ticked, finished, n);
      RemoveAllStep(ticked, finished, n);
      AddStat(value.statType, -value.amount);
      statEffects := statEffects - {finished[n]};
    }
  }

  /** The queried components are distinct and own distinct stat arrays. */
  predicate Distinct(query: seq<Stats>)
    reads set i | 0 <= i < |query| :: query[i]
  {
    forall i, j :: 0 <= i < j < |query| ==> query[i] != query[j] && query[i].stats != query[j].stats
  }

  /** `update_stats`: every queried component is updated on its own, with
      one iteration order of its change map each. */
  method UpdateStats(query: seq<Stats>, dt: real, orders: seq<seq<nat>>)
    requires 0.0 <= dt
    requires |orders| == |query|
    requires Distinct(query)
    requires forall i :: 0 <= i < |query| ==> IsOrderOf(query[i].statEffects, orders[i])
    modifies set i | 0 <= i < |query| :: query[i]
    modifies set i | 0 <= i < |query| :: query[i].stats
    ensures forall i :: 0 <= i < |query| ==> query[i].stats == old(query[i].stats)
    ensures forall i :: 0 <= i < |query| ==> query[i].Data() == UpdateSpec(old(query[i].Data()), dt, orders[i])
  {
    var k := 0;
    while k < |query|
      invariant 0 <= k <= |query|
      invariant forall i :: 0 <= i < |query| ==> query[i].stats == old(query[i].stats)
      invariant forall i :: 0 <= i < k ==> query[i].Data() == UpdateSpec(old(query[i].Data()), dt, orders[i])
      invariant forall i :: k <= i < |query| ==> query[i].Data() == old(query[i].Data())
    {
      UpdateOne(query, dt, orders, k);
      k := k + 1;
    }
  }

  /** The body of `update_stats`'s loop for the component at position `k`:
      that one is updated and every other one is left as it is. */
  method UpdateOne(query: seq<Stats>, dt: real, orders: seq<seq<nat>>, k: nat)
    requires 0.0 <= dt
    requires k < |query| == |orders|
    requires Distinct(query)
    requires IsOrderOf(query[k].statEffects, orders[k])
    modifies query[k], query[k].stats
    ensures forall i :: 0 <= i < |query| ==> query[i].stats == old(query[i].stats)
    ensures query[k].Data() == UpdateSpec(old(query[k].Data()), dt, orders[k])
    ensures forall i :: 0 <= i < |query| && i != k ==> query[i].Data() == old(query[i].Data())
  {
    query[k].Update(dt, orders[k]);
  }
}
