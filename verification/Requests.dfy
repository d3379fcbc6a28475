/**
 * One node's requests: the rows it captures, and what the server makes of the rows of a push
 * (coordinator.py, routes_ingest.py).
 */
module Requests {
  import opened Basics
  import opened Registry
  import opened Capture
  import opened Coordinators
  import C = ClientRuns
  import I = Ingest
  import S = Staging
  import V = Privacy

  /** The node's id, the reading it captures as its `n`-th row, and the size of the server's window. */
  datatype Config = Config(id: NodeId, reading: nat -> Reading, size: nat)

  function RowsOf(cfg: Config, kind: S.Kind, ids: seq<nat>, node: Node): seq<S.Row> {
    if ids == [] then []
    else
      var front, r := RowsOf(cfg, kind, Butlast(ids), node), cfg.reading(Last(ids));
      if r.kind == kind && I.Consented(r.sample, node.channels) then front + [AsRow(r, cfg.id, node)] else front
  }

  function RefusedOf(cfg: Config, ids: seq<nat>, node: Node): set<(nat, Node)> {
    set x | x in ids && !I.Consented(cfg.reading(x).sample, node.channels) :: (x, node)
  }

  /** What a push sends of one kind (_push_items): the samples of that kind, in order. */
  function SamplesOf(cfg: Config, kind: S.Kind, ids: seq<nat>): seq<V.Sample> {
    if ids == [] then []
    else
      var front, r := SamplesOf(cfg, kind, Butlast(ids)), cfg.reading(Last(ids));
      if r.kind == kind then front + [r.sample] else front
  }

  /** The rows of a push are what the server's handler admits of what it sends. */
  lemma {:induction false} RowsOfAreAdmitted(cfg: Config, kind: S.Kind, ids: seq<nat>, node: Node)
    ensures RowsOf(cfg, kind, ids, node) == I.Admitted(kind, SamplesOf(cfg, kind, ids), cfg.id, node)
  {
    if ids != [] {
      RowsOfAreAdmitted(cfg, kind, Butlast(ids), node);
      var front, r := SamplesOf(cfg, kind, Butlast(ids)), cfg.reading(Last(ids));
      assert Butlast(front + [r.sample]) == front;
      hide V.Project;
    }
  }

  /** The key under which the server stages a captured row. */
  function KeyFor(cfg: Config, x: nat): S.Key {
    var r := cfg.reading(x);
    match r.kind
    case Electrical => S.ElectricalKey(cfg.id, r.sample.stamp, r.sample.phase)
    case Weather => S.WeatherKey(cfg.id, r.sample.stamp)
  }

  /** The hour file of a captured row. */
  function FileOf(cfg: Config, x: nat): S.Path
    requires cfg.reading(x).sample.stamp.At?
  {
    S.Path(cfg.reading(x).kind, cfg.reading(x).sample.stamp.micros / S.HOUR)
  }

  /** The node stamps its own rows, so they parse. */
  ghost predicate Stamped(cfg: Config) {
    forall x: nat :: cfg.reading(x).sample.stamp.At?
  }

  lemma KeysAreOfNodes(rows: seq<S.Row>)
    ensures forall r :: r in rows ==> S.KeyOf(r).node == r.node
    ensures forall k :: k in S.Keys(rows) ==> exists r :: r in rows && r.node == k.node
  {
    forall k | k in S.Keys(rows) ensures exists r :: r in rows && r.node == k.node {
      var i :| 0 <= i < |rows| && S.Keys(rows)[i] == k;
      assert rows[i] in rows && S.KeyOf(rows[i]) == k;
    }
  }

  lemma {:induction false} RowsOfHasKeys(cfg: Config, kind: S.Kind, ids: seq<nat>, node: Node)
    ensures forall x :: x in ids && cfg.reading(x).kind == kind && I.Consented(cfg.reading(x).sample, node.channels)
              ==> exists r :: r in RowsOf(cfg, kind, ids, node) && S.KeyOf(r) == KeyFor(cfg, x)
  {
    if ids != [] {
      RowsOfHasKeys(cfg, kind, Butlast(ids), node);
      assert ids == Butlast(ids) + [Last(ids)];
      var r := cfg.reading(Last(ids));
      if r.kind == kind && I.Consented(r.sample, node.channels) {
        assert AsRow(r, cfg.id, node) in RowsOf(cfg, kind, ids, node);
        assert S.KeyOf(AsRow(r, cfg.id, node)) == KeyFor(cfg, Last(ids));
      }
    }
  }

  lemma {:induction false} RowsOfAreProper(cfg: Config, kind: S.Kind, ids: seq<nat>, node: Node)
    requires Stamped(cfg)
    ensures S.Stampable(RowsOf(cfg, kind, ids, node))
    ensures forall r :: r in RowsOf(cfg, kind, ids, node) ==> r.node == cfg.id
  {
    if ids != [] {
      RowsOfAreProper(cfg, kind, Butlast(ids), node);
    }
  }

  lemma {:induction false} RowsOfAreOfKind(cfg: Config, kind: S.Kind, ids: seq<nat>, node: Node)
    ensures forall r :: r in RowsOf(cfg, kind, ids, node) ==>
              r.kind == kind && exists x :: x in ids && r == AsRow(cfg.reading(x), cfg.id, node)
  {
    if ids != [] {
      assert ids == Butlast(ids) + [Last(ids)];
      RowsOfAreOfKind(cfg, kind, Butlast(ids), node);
    }
  }

  lemma ClientStepGrows(w: C.World, op: C.Op)
    ensures w.pushes <= C.Step(w, op).pushes
  {
  }

  /** A push the client saw accepted was processed: nothing is acknowledged that did not land. */
  lemma AcknowledgedWasDelivered(pushes: seq<Push<nat>>, i: nat, x: nat)
    requires i < |pushes| && pushes[i].reply.Ok? && x in pushes[i].rows
    ensures x in C.Delivered(pushes) && x in C.Settled(pushes)
  {
  }

  // --- Refused requests ---------------------------------------------------------------------------

  /** A row that the server's row models take. */
  predicate Sound(cfg: Config, x: nat) {
    I.Acceptable(cfg.reading(x).kind, cfg.reading(x).sample)
  }

  /**
   * While the node is registered and its token is good, a request that gets an answer is refused exactly
   * when its body has a row the models do not take, and is handled otherwise.
   */
  ghost predicate AnswersByTheBody(cfg: Config, pushes: seq<Push<nat>>) {
    forall n :: 0 <= n < |pushes| ==>
      && (pushes[n].reply.Refused? ==> exists y :: y in pushes[n].rows && !Sound(cfg, y))
      && (C.Landed(pushes[n].reply) ==> forall y :: y in pushes[n].rows ==> Sound(cfg, y))
  }

  /** Some push with the row got a final answer and was refused for a row, perhaps another one, in it. */
  predicate SharedABadPush(cfg: Config, pushes: seq<Push<nat>>, x: nat) {
    exists n :: 0 <= n < |pushes| && pushes[n].reply.Refused? && x in pushes[n].rows
                && exists y :: y in pushes[n].rows && !Sound(cfg, y)
  }

  /** A value the row models refuse: on a phase they do not know, or a frequency outside 40 to 70 Hz. */
  predicate IsBad(m: Mapping, value: real) {
    m.channel in {"frequency_hz", "voltage_v", "current_a", "power_w", "power_factor", "phase_angle_deg"}
    && (m.phase !in {"L1", "L2", "L3", "1p"} || (m.channel == "frequency_hz" && !(40.0 <= value <= 70.0)))
  }

  /** The server takes what a node captures, except exactly a value on an unknown phase and an implausible frequency. */
  lemma CapturedIsAcceptableUnlessBad(m: Mapping, value: real, stamp: S.Stamp, r: Reading)
    requires Carries(r, m, value, stamp)
    ensures I.Acceptable(r.kind, r.sample) <==> !IsBad(m, value)
  {
    ChannelsAreDisjoint(m.channel);
    if "frequency_hz" in r.sample.values {
      assert m.channel == "frequency_hz" && r.sample.values["frequency_hz"] == value;
    }
  }

  /** The rows of the node are the values of these mappings. */
  ghost predicate Captures(cfg: Config, mapping: nat -> Mapping, value: nat -> real) {
    forall x: nat :: Carries(cfg.reading(x), mapping(x), value(x), cfg.reading(x).sample.stamp)
  }

  /** The same, for a bad value. */
  ghost predicate SharedABadValue(mapping: nat -> Mapping, value: nat -> real, pushes: seq<Push<nat>>, x: nat) {
    exists n :: 0 <= n < |pushes| && pushes[n].reply.Refused? && x in pushes[n].rows
                && exists y :: y in pushes[n].rows && IsBad(mapping(y), value(y))
  }

  /**
   * Which rows a node drops on the server's word: a row that is settled was handled, or else it shared a
   * push, of up to two thousand rows, with one the models refuse; and such a row is never handled. For what
   * a node captures, that is one on an unknown phase, or a frequency outside 40 to 70 Hz.
   */
  lemma DroppedExactlyWithABadRow(cfg: Config, mapping: nat -> Mapping, value: nat -> real, ops: seq<C.Op>, x: nat)
    requires AnswersByTheBody(cfg, C.Run(ops).pushes)
    ensures var pushes := C.Run(ops).pushes;
            && (x in C.Settled(pushes) <==> SharedABadPush(cfg, pushes, x) || SeenAccepted(pushes, x))
            && (x in C.Delivered(pushes) ==> Sound(cfg, x))
    ensures var pushes := C.Run(ops).pushes;
            Captures(cfg, mapping, value) ==>
              && (x in C.Settled(pushes) <==> SharedABadValue(mapping, value, pushes, x) || SeenAccepted(pushes, x))
              && (x in C.Delivered(pushes) ==> !IsBad(mapping(x), value(x)))
  {
    forall y: nat | Captures(cfg, mapping, value) ensures Sound(cfg, y) <==> !IsBad(mapping(y), value(y)) {
      CapturedIsAcceptableUnlessBad(mapping(y), value(y), cfg.reading(y).sample.stamp, cfg.reading(y));
    }
    hide C.Run, Sound, IsBad, Captures;
    var pushes := C.Run(ops).pushes;
    if x in C.Settled(pushes) && !SeenAccepted(pushes, x) {
      var n :| 0 <= n < |pushes| && (pushes[n].reply.Ok? || pushes[n].reply.Refused?) && x in pushes[n].rows;
    }
  }

  predicate SeenAccepted(pushes: seq<Push<nat>>, x: nat) {
    exists n :: 0 <= n < |pushes| && pushes[n].reply.Ok? && x in pushes[n].rows
  }
}
