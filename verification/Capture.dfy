/** From a state change to pending rows (_on_state_event in custom_components/gridwitness/coordinator.py). */
module Capture {
  import opened Basics
  import opened Privacy
  import opened Registry
  import S = Staging

  /** One channel that an entity is mapped to, with the phase it is mapped on. */
  datatype Mapping = Mapping(channel: Channel, phase: string)

  /** One pending item: which list of a request it goes to, and the row. */
  datatype Reading = Reading(kind: S.Kind, sample: Sample)

  /** What one mapping makes of a state: a row of the kind its channel belongs to, or nothing. */
  function ReadingOf(m: Mapping, value: real, stamp: S.Stamp): Option<Reading> {
    if m.channel in ELECTRICAL_CHANNELS
    then Some(Reading(S.Electrical, Sample(stamp, "ha_receive", m.phase, map[m.channel := value])))
    else if m.channel in WEATHER_CHANNELS
    then Some(Reading(S.Weather, Sample(stamp, "ha_receive", "", map[m.channel := value])))
    else None
  }

  /** A state change gives one row per known channel, each with one value and the same NTP-corrected stamp. */
  function Readings(entity: seq<Mapping>, value: real, stamp: S.Stamp): (r: seq<Reading>)
    ensures |r| <= |entity|
  {
    if entity == [] then []
    else
      var front, last := Readings(Butlast(entity), value, stamp), ReadingOf(Last(entity), value, stamp);
      if last.Some? then front + [last.value] else front
  }

  /** A reading that carries the value of a mapped channel, as its kind of row has it. */
  ghost predicate Carries(r: Reading, m: Mapping, value: real, stamp: S.Stamp) {
    && r.sample.stamp == stamp && r.sample.source == "ha_receive" && r.sample.values == map[m.channel := value]
    && match r.kind
       case Electrical =>
         m.channel in {"frequency_hz", "voltage_v", "current_a", "power_w", "power_factor", "phase_angle_deg"}
         && r.sample.phase == m.phase
       case Weather =>
         m.channel in {"temp", "rhum", "wspd", "wdir", "pres", "prcp", "solar_radiation_w_m2", "uv"}
         && r.sample.phase == ""
  }

  /** A mapping gives a reading exactly when its channel is one of the fourteen; and that reading carries the value. */
  lemma ReadingCarriesTheValue(m: Mapping, value: real, stamp: S.Stamp)
    ensures ReadingOf(m, value, stamp).Some? <==>
              m.channel in {"frequency_hz", "voltage_v", "current_a", "power_w", "power_factor", "phase_angle_deg",
                            "temp", "rhum", "wspd", "wdir", "pres", "prcp", "solar_radiation_w_m2", "uv"}
    ensures ReadingOf(m, value, stamp).Some? ==> Carries(ReadingOf(m, value, stamp).value, m, value, stamp)
  {
  }

  /** Whatever the mapping in the middle gives stands between what those around it give. */
  lemma {:induction false} ReadingsInPlace(front: seq<Mapping>, m: Mapping, rest: seq<Mapping>, value: real,
                                           stamp: S.Stamp)
    ensures Readings(front + [m] + rest, value, stamp)
            == Readings(front, value, stamp)
               + (if ReadingOf(m, value, stamp).Some? then [ReadingOf(m, value, stamp).value] else [])
               + Readings(rest, value, stamp)
    decreases |rest|
  {
    hide ReadingOf;
    if rest == [] {
      assert front + [m] + rest == front + [m] && Butlast(front + [m]) == front;
    } else {
      assert Butlast(front + [m] + rest) == front + [m] + Butlast(rest);
      ReadingsInPlace(front, m, Butlast(rest), value, stamp);
    }
  }

  lemma {:induction false} ReadingsCarryTheValue(entity: seq<Mapping>, value: real, stamp: S.Stamp, r: Reading)
    requires r in Readings(entity, value, stamp)
    ensures exists m :: m in entity && Carries(r, m, value, stamp)
  {
    var m := Last(entity);
    ReadingCarriesTheValue(m, value, stamp);
    hide Carries, ReadingOf;
    assert entity == Butlast(entity) + [m];
    if ReadingOf(m, value, stamp) != Some(r) {
      ReadingsCarryTheValue(Butlast(entity), value, stamp, r);
    }
  }

  predicate MapsFrequency(entity: seq<Mapping>) {
    exists m :: m in entity && m.channel == "frequency_hz"
  }

  class Listener {
    const index: map<string, seq<Mapping>>
    var pending: seq<Reading>
    var lastFrequency: Option<real>

    constructor (index: map<string, seq<Mapping>>)
      ensures this.index == index && pending == [] && lastFrequency == None
    {
      this.index, pending, lastFrequency := index, [], None;
    }

    /** `value` is None for a state that is unavailable or not a number. */
    method OnStateEvent(entityId: string, value: Option<real>, stamp: S.Stamp)
      modifies this
      ensures var entity := if entityId in index then index[entityId] else [];
              && pending == old(pending) + (if value.None? then [] else Readings(entity, value.value, stamp))
              && lastFrequency == if value.Some? && MapsFrequency(entity) then value else old(lastFrequency)
    {
      if value.None? || entityId !in index {
        return;
      }
      var entity := index[entityId];
      for i := 0 to |entity|
        invariant pending == old(pending) + Readings(entity[..i], value.value, stamp)
        invariant lastFrequency == if MapsFrequency(entity[..i]) then value else old(lastFrequency)
      {
        assert entity[..i + 1] == entity[..i] + [entity[i]];
        var m := entity[i];
        OneMoreMapping(entity[..i], m);
        OneMoreReading(entity[..i], m, value.value, stamp);
        hide MapsFrequency, Readings;
        if m.channel in ELECTRICAL_CHANNELS {
          pending := pending
            + [Reading(S.Electrical, Sample(stamp, "ha_receive", m.phase, map[m.channel := value.value]))];
          if m.channel == "frequency_hz" {
            lastFrequency := value;
          }
        } else if m.channel in WEATHER_CHANNELS {
          pending := pending + [Reading(S.Weather, Sample(stamp, "ha_receive", "", map[m.channel := value.value]))];
        }
      }
      assert entity[..|entity|] == entity;
    }
  }

  lemma OneMoreReading(front: seq<Mapping>, m: Mapping, value: real, stamp: S.Stamp)
    ensures Readings(front + [m], value, stamp)
            == Readings(front, value, stamp)
               + if ReadingOf(m, value, stamp).Some? then [ReadingOf(m, value, stamp).value] else []
  {
    hide ReadingOf;
    assert Butlast(front + [m]) == front;
  }

  lemma OneMoreMapping(front: seq<Mapping>, m: Mapping)
    ensures MapsFrequency(front + [m]) <==> MapsFrequency(front) || m.channel == "frequency_hz"
  {
    assert m in front + [m];
  }

  function AsRow(r: Reading, id: NodeId, node: Node): S.Row {
    Project(r.kind, r.sample, id, node)
  }

  function AsRows(readings: seq<Reading>, id: NodeId, node: Node): (rows: seq<S.Row>)
    ensures |rows| == |readings|
  {
    seq(|readings|, i requires 0 <= i < |readings| => AsRow(readings[i], id, node))
  }

  /** Two mappings whose rows would carry the same dedupe key: electrical on one phase, or both weather. */
  predicate Clash(a: Mapping, b: Mapping) {
    || (a.channel in ELECTRICAL_CHANNELS && b.channel in ELECTRICAL_CHANNELS && a.phase == b.phase)
    || (a.channel in WEATHER_CHANNELS && b.channel in WEATHER_CHANNELS)
  }

  predicate Known(entity: seq<Mapping>) {
    forall m :: m in entity ==> m.channel in ELECTRICAL_CHANNELS || m.channel in WEATHER_CHANNELS
  }

  lemma {:induction false} ReadingOfMapping(entity: seq<Mapping>, value: real, stamp: S.Stamp, i: nat)
    requires Known(entity) && i < |entity|
    ensures |Readings(entity, value, stamp)| == |entity|
    ensures ReadingOf(entity[i], value, stamp) == Some(Readings(entity, value, stamp)[i])
    decreases |entity|
  {
    assert entity == Butlast(entity) + [Last(entity)];
    KnownGivesReading(Last(entity), value, stamp);
    hide ReadingOf;
    if |entity| > 1 {
      ReadingOfMapping(Butlast(entity), value, stamp, if i < |entity| - 1 then i else 0);
    }
  }

  lemma KnownGivesReading(m: Mapping, value: real, stamp: S.Stamp)
    ensures ReadingOf(m, value, stamp).Some? <==> Known([m])
  {
    assert m in [m];
  }

  lemma ChannelsAreDisjoint(c: Channel)
    ensures !(c in ELECTRICAL_CHANNELS && c in WEATHER_CHANNELS)
  {
  }

  lemma KeysClash(entity: seq<Mapping>, value: real, stamp: S.Stamp, id: NodeId, node: Node, i: nat, j: nat)
    requires Known(entity) && i < |entity| && j < |entity|
    ensures |AsRows(Readings(entity, value, stamp), id, node)| == |entity|
    ensures var keys := S.Keys(AsRows(Readings(entity, value, stamp), id, node));
            keys[i] == keys[j] <==> Clash(entity[i], entity[j])
  {
    ReadingOfMapping(entity, value, stamp, i);
    ReadingOfMapping(entity, value, stamp, j);
    ChannelsAreDisjoint(entity[i].channel);
    ChannelsAreDisjoint(entity[j].channel);
    hide Readings;
  }

  lemma SurviveWithoutClashes(entity: seq<Mapping>, value: real, stamp: S.Stamp, id: NodeId, node: Node,
                              history: seq<S.Key>, size: nat)
    requires Known(entity) && |entity| <= size
    ensures var rows := AsRows(Readings(entity, value, stamp), id, node);
            S.Unique(history, size, rows) == rows <==>
            (forall i, j :: 0 <= i < j < |entity| ==> !Clash(entity[i], entity[j])) && S.Forgotten(history, size, rows)
  {
    hide S.Unique, Readings, Clash, S.Keys, AsRows, S.Forgotten;
    var rows := AsRows(Readings(entity, value, stamp), id, node);
    ReadingCount(entity, value, stamp);
    S.KeptWholeExactlyWhenNew(history, size, rows);
    var keys := S.Keys(rows);
    forall i, j | 0 <= i < j < |entity| ensures keys[i] == keys[j] <==> Clash(entity[i], entity[j]) {
      KeysClash(entity, value, stamp, id, node, i, j);
    }
  }

  lemma ReadingCount(entity: seq<Mapping>, value: real, stamp: S.Stamp)
    requires Known(entity)
    ensures |Readings(entity, value, stamp)| == |entity|
  {
    if entity != [] {
      ReadingOfMapping(entity, value, stamp, 0);
    }
  }

  function KnownOf(entity: seq<Mapping>): (r: seq<Mapping>)
    ensures Known(r) && |r| <= |entity|
  {
    if entity == [] then []
    else if Known([Last(entity)]) then KnownOf(Butlast(entity)) + [Last(entity)]
    else KnownOf(Butlast(entity))
  }

  lemma {:induction false} UnknownChannelsAreIgnored(entity: seq<Mapping>, value: real, stamp: S.Stamp)
    ensures Readings(entity, value, stamp) == Readings(KnownOf(entity), value, stamp)
  {
    if entity != [] {
      UnknownChannelsAreIgnored(Butlast(entity), value, stamp);
      KnownGivesReading(Last(entity), value, stamp);
      hide ReadingOf, Known;
      assert Butlast(KnownOf(Butlast(entity)) + [Last(entity)]) == KnownOf(Butlast(entity));
    }
  }

  /**
   * One state change of an entity mapped to several channels, whatever the server accepted before. All
   * its values are staged if and only if no two of its known mappings are electrical on one phase, or both
   * weather, and the window remembers none of its keys, which an earlier state of the same instant would
   * have left there: rows carry one value each, and the server takes rows with equal keys for repeats,
   * although the lake would have merged their cells.
   */
  lemma AllChannelsSurviveExactlyWithoutClashes(entity: seq<Mapping>, value: real, stamp: S.Stamp, id: NodeId,
                                                node: Node,
                                                history: seq<S.Key>, size: nat)
    requires |entity| <= size
    ensures var rows, known := AsRows(Readings(entity, value, stamp), id, node), KnownOf(entity);
            S.Unique(history, size, rows) == rows <==>
            (forall i, j :: 0 <= i < j < |known| ==> !Clash(known[i], known[j])) && S.Forgotten(history, size, rows)
  {
    hide S.Unique, S.Forgotten, Clash, AsRows, Readings;
    UnknownChannelsAreIgnored(entity, value, stamp);
    SurviveWithoutClashes(KnownOf(entity), value, stamp, id, node, history, size);
  }
}
