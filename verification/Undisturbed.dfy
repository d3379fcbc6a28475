/**
 * One node and a server that processes each push in one go: no two handlers of the node overlap, and no
 * append fails or is cut off. Here the order of the hour files is a matter of the order of pushes.
 */
module Undisturbed {
  import opened Basics
  import opened Registry
  import opened Capture
  import opened Coordinators
  import C = ClientRuns
  import I = Ingest
  import opened Requests
  import S = Staging

  datatype Op = FromNode(op: C.Op) | Restart | Others(rows: seq<S.Row>) | Consent(node: Node)

  /**
   * The node's world; the server's window and hour files; every row written to those files, in order; the
   * node record; and the row numbers refused for consent, with the record then.
   */
  datatype Sys = Sys(world: C.World, staged: S.Staged, log: seq<S.Row>, node: Node, refused: set<(nat, Node)>)

  /** One write to staging. When it raises, keys are remembered and nothing is written. */
  function Accept(s: Sys, size: nat, rows: seq<S.Row>): Sys {
    var (staged, outcome) := S.Stage(s.staged, size, rows);
    var log := if outcome.Written? then s.log + S.Unique(s.staged.history, size, rows) else s.log;
    s.(staged := staged, log := log)
  }

  /** What the server does with one push: electrical rows, then weather rows unless the first write raised. */
  function Land(cfg: Config, s: Sys, push: Push<nat>): Sys {
    if !C.Landed(push.reply) then s
    else
      var electrical := RowsOf(cfg, S.Electrical, push.rows, s.node);
      var weather := RowsOf(cfg, S.Weather, push.rows, s.node);
      var e := Accept(s, cfg.size, electrical);
      if S.Stage(s.staged, cfg.size, electrical).1.Raised? then e
      else Accept(e, cfg.size, weather).(refused := s.refused + RefusedOf(cfg, push.rows, s.node))
  }

  function LandAll(cfg: Config, s: Sys, pushes: seq<Push<nat>>): Sys {
    if pushes == [] then s else Land(cfg, LandAll(cfg, s, Butlast(pushes)), Last(pushes))
  }

  ghost function Do(cfg: Config, s: Sys, op: Op): Sys {
    match op
    case FromNode(c) =>
      var world := C.Step(s.world, c);
      var newer := if |s.world.pushes| <= |world.pushes| then world.pushes[|s.world.pushes|..] else [];
      LandAll(cfg, s, newer).(world := world)
    case Restart => s.(staged := s.staged.(history := []))
    case Others(rows) => Accept(s, cfg.size, rows)
    case Consent(node) => s.(node := node)
  }

  ghost function Run(cfg: Config, node: Node, ops: seq<Op>): Sys {
    if ops == [] then Sys(C.Start, S.Staged([], map[]), [], node, {})
    else Do(cfg, Run(cfg, node, Butlast(ops)), Last(ops))
  }

  ghost predicate StagedOrRefused(cfg: Config, s: Sys, x: nat) {
    || KeyFor(cfg, x) in S.Keys(s.log)
    || exists node :: (x, node) in s.refused && !I.Consented(cfg.reading(x).sample, node.channels)
  }

  /**
   * The node stamps its own rows, so they parse; what other nodes send may not. Rows of other requests
   * carry other node ids, since a request is authenticated as its own node.
   */
  ghost predicate Proper(cfg: Config, ops: seq<Op>) {
    && Stamped(cfg)
    && forall i, r :: 0 <= i < |ops| && ops[i].Others? && r in ops[i].rows ==> r.node != cfg.id
  }

  /** The files are the log, and every key of the node that the window remembers is in it. */
  ghost predicate Remembers(cfg: Config, s: Sys) {
    && S.Spaced(s.staged.history, cfg.size)
    && S.Stampable(s.log) && s.staged.files == S.AppendRows(map[], s.log)
    && forall k :: k in s.staged.history && k.node == cfg.id ==> k in S.Keys(s.log)
  }

  lemma AcceptKeeps(cfg: Config, s: Sys, rows: seq<S.Row>)
    requires Remembers(cfg, s) && (S.Stampable(rows) || forall r :: r in rows ==> r.node != cfg.id)
    ensures var s' := Accept(s, cfg.size, rows);
            && Remembers(cfg, s')
            && (forall k :: k in S.Keys(s.log) ==> k in S.Keys(s'.log))
            && (S.Stampable(rows) ==> S.Stage(s.staged, cfg.size, rows).1.Written?)
            && (S.Stampable(rows) ==> forall r :: r in rows && r.node == cfg.id ==> S.KeyOf(r) in S.Keys(s'.log))
  {
    hide S.Unique, S.Spaced, S.KeyOf, S.AppendRows;
    var u := S.Unique(s.staged.history, cfg.size, rows);
    S.UniqueKeepsSpacing(s.staged.history, cfg.size, rows);
    S.EveryKeyIsAccepted(s.staged.history, cfg.size, rows);
    KeysJoinAlone(s.log, u);
    KeysAreOfNodes(u);
    KeysAreOfNodes(rows);
    hide S.Keys;
    if S.Stampable(u) {
      S.AppendRowsJoin(map[], s.log, u);
    }
  }

  lemma KeysJoinAlone(a: seq<S.Row>, b: seq<S.Row>)
    ensures S.Keys(a + b) == S.Keys(a) + S.Keys(b)
  {
  }

  lemma LandKeeps(cfg: Config, s: Sys, push: Push<nat>)
    requires Remembers(cfg, s) && Proper(cfg, [])
    ensures var s' := Land(cfg, s, push);
            && Remembers(cfg, s') && s.refused <= s'.refused && s'.world == s.world && s'.node == s.node
            && (forall k :: k in S.Keys(s.log) ==> k in S.Keys(s'.log))
            && (C.Landed(push.reply) ==> forall x :: x in push.rows ==> StagedOrRefused(cfg, s', x))
  {
    if C.Landed(push.reply) {
      var electrical := RowsOf(cfg, S.Electrical, push.rows, s.node);
      var weather := RowsOf(cfg, S.Weather, push.rows, s.node);
      RowsOfAreProper(cfg, S.Electrical, push.rows, s.node);
      RowsOfAreProper(cfg, S.Weather, push.rows, s.node);
      AcceptKeeps(cfg, s, electrical);
      AcceptKeeps(cfg, Accept(s, cfg.size, electrical), weather);
      RowsOfHasKeys(cfg, S.Electrical, push.rows, s.node);
      RowsOfHasKeys(cfg, S.Weather, push.rows, s.node);
      var s' := Land(cfg, s, push);
      hide S.Keys, S.Stage, Accept, RowsOf, KeyFor, Remembers, Proper, S.Stampable;
      forall x | x in push.rows ensures StagedOrRefused(cfg, s', x) {
        if !I.Consented(cfg.reading(x).sample, s.node.channels) {
          assert (x, s.node) in s'.refused;
        } else if cfg.reading(x).kind.Electrical? {
          var r :| r in electrical && S.KeyOf(r) == KeyFor(cfg, x);
        } else {
          var r :| r in weather && S.KeyOf(r) == KeyFor(cfg, x);
        }
      }
    }
  }

  ghost predicate Monotone(s: Sys, s': Sys) {
    s.refused <= s'.refused && forall k :: k in S.Keys(s.log) ==> k in S.Keys(s'.log)
  }

  lemma StaysStagedOrRefused(cfg: Config, s: Sys, s': Sys, x: nat)
    requires Monotone(s, s') && StagedOrRefused(cfg, s, x)
    ensures StagedOrRefused(cfg, s', x)
  {
  }

  lemma {:induction false} LandAllKeeps(cfg: Config, s: Sys, pushes: seq<Push<nat>>)
    requires Remembers(cfg, s) && Proper(cfg, [])
    ensures var s' := LandAll(cfg, s, pushes);
            && Remembers(cfg, s') && Monotone(s, s') && s'.world == s.world
            && forall x :: x in C.Delivered(pushes) ==> StagedOrRefused(cfg, s', x)
  {
    if pushes != [] {
      LandAllKeeps(cfg, s, Butlast(pushes));
      var mid, s' := LandAll(cfg, s, Butlast(pushes)), LandAll(cfg, s, pushes);
      LandKeeps(cfg, mid, Last(pushes));
      C.DeliveredGrows(Butlast(pushes), Last(pushes));
      assert Butlast(pushes) + [Last(pushes)] == pushes;
      hide LandAll, Land, Remembers, S.Keys, StagedOrRefused;
      forall x | x in C.Delivered(pushes) ensures StagedOrRefused(cfg, s', x) {
        if x in C.Delivered(Butlast(pushes)) {
          StaysStagedOrRefused(cfg, mid, s', x);
        } else {
          assert x in C.Elements(Last(pushes).rows);
        }
      }
    }
  }

  function ClientOps(ops: seq<Op>): seq<C.Op> {
    if ops == [] then []
    else if Last(ops).FromNode? then ClientOps(Butlast(ops)) + [Last(ops).op]
    else ClientOps(Butlast(ops))
  }

  ghost predicate Inv(cfg: Config, s: Sys) {
    && Remembers(cfg, s)
    && forall x :: x in C.Delivered(s.world.pushes) ==> StagedOrRefused(cfg, s, x)
  }

  lemma ClientKeepsInv(cfg: Config, s: Sys, op: C.Op)
    requires Inv(cfg, s) && Proper(cfg, [])
    ensures Inv(cfg, Do(cfg, s, FromNode(op)))
  {
    var world := C.Step(s.world, op);
    ClientStepGrows(s.world, op);
    var newer := world.pushes[|s.world.pushes|..];
    assert world.pushes == s.world.pushes + newer;
    C.DeliveredJoins(s.world.pushes, newer);
    LandAllKeeps(cfg, s, newer);
    var landed := LandAll(cfg, s, newer);
    hide C.Step, C.Delivered, LandAll;
    forall x | x in C.Delivered(world.pushes) ensures StagedOrRefused(cfg, landed.(world := world), x) {
      if x in C.Delivered(s.world.pushes) {
        StaysStagedOrRefused(cfg, s, landed, x);
      }
      assert StagedOrRefused(cfg, landed, x);
    }
  }

  lemma OthersKeepInv(cfg: Config, s: Sys, rows: seq<S.Row>)
    requires Inv(cfg, s) && forall r :: r in rows ==> r.node != cfg.id
    ensures Inv(cfg, Do(cfg, s, Others(rows)))
  {
    AcceptKeeps(cfg, s, rows);
    var s' := Accept(s, cfg.size, rows);
    assert s'.world == s.world && s'.refused == s.refused;
    hide Accept, Remembers;
    forall x | x in C.Delivered(s.world.pushes) ensures StagedOrRefused(cfg, s', x) {
      StaysStagedOrRefused(cfg, s, s', x);
    }
  }

  lemma {:induction false} RunKeepsInv(cfg: Config, node: Node, ops: seq<Op>)
    requires Proper(cfg, ops)
    ensures Inv(cfg, Run(cfg, node, ops))
    ensures Run(cfg, node, ops).world == C.Run(ClientOps(ops))
  {
    if ops != [] {
      assert forall i :: 0 <= i < |ops| - 1 ==> Butlast(ops)[i] == ops[i];
      assert Last(ops) == ops[|ops| - 1];
      RunKeepsInv(cfg, node, Butlast(ops));
      var s := Run(cfg, node, Butlast(ops));
      match Last(ops)
      case FromNode(op) =>
        ClientKeepsInv(cfg, s, op);
        assert Butlast(ClientOps(ops)) == ClientOps(Butlast(ops));
      case Others(rows) => OthersKeepInv(cfg, s, rows);
      case _ =>
    }
  }

  // --- What is in the files, and in which order ---------------------------------------------------

  /** A row of the node's that one of its landed pushes brought, under whatever node record. */
  ghost predicate Sent(cfg: Config, pushes: seq<Push<nat>>, r: S.Row) {
    exists x, node :: x in C.Delivered(pushes) && r == AsRow(cfg.reading(x), cfg.id, node)
  }

  ghost predicate Ledger(cfg: Config, s: Sys, pushes: seq<Push<nat>>) {
    forall r :: r in s.log && r.node == cfg.id ==> Sent(cfg, pushes, r)
  }

  /** Every row with key `later` stands behind one with key `earlier`. */
  ghost predicate Preceded(rows: seq<S.Row>, earlier: S.Key, later: S.Key) {
    forall j :: 0 <= j < |rows| && S.KeyOf(rows[j]) == later ==> earlier in S.Keys(rows[..j])
  }

  /** `y` is the first row of its kind that the node captured under its key. */
  ghost predicate FirstOfItsKey(cfg: Config, y: nat) {
    forall z: nat :: z < y && cfg.reading(z).kind == cfg.reading(y).kind ==> KeyFor(cfg, z) != KeyFor(cfg, y)
  }

  ghost predicate NeverRefused(s: Sys, x: nat) {
    forall node :: (x, node) !in s.refused
  }

  lemma KeysOfPrefix(rows: seq<S.Row>, more: seq<S.Row>, n: nat)
    requires n <= |rows|
    ensures (rows + more)[..n] == rows[..n]
  {
  }

  lemma AppendPreceded(rows: seq<S.Row>, r: S.Row, earlier: S.Key, later: S.Key)
    requires Preceded(rows, earlier, later) && (S.KeyOf(r) == later ==> earlier in S.Keys(rows))
    ensures Preceded(rows + [r], earlier, later)
  {
    hide S.KeyOf, S.Keys;
    forall j | 0 <= j < |rows| + 1 && S.KeyOf((rows + [r])[j]) == later ensures earlier in S.Keys((rows + [r])[..j]) {
      KeysOfPrefix(rows, [r], j);
      if j == |rows| {
        assert rows[..j] == rows;
      }
    }
  }

  /** Accepting rows that are themselves in order, after what was accepted. */
  lemma {:induction false} UniqueIsPreceded(log: seq<S.Row>, history: seq<S.Key>, size: nat, rows: seq<S.Row>,
                                            earlier: S.Key, later: S.Key)
    requires Preceded(log, earlier, later) && (earlier in history ==> earlier in S.Keys(log))
    requires earlier in S.Keys(log) || Preceded(rows, earlier, later)
    ensures Preceded(log + S.Unique(history, size, rows), earlier, later)
    decreases |rows|
  {
    hide S.KeyOf, S.Keys, S.Offer;
    if rows == [] {
      assert log + [] == log;
    } else {
      var front, r := Butlast(rows), Last(rows);
      var u := S.Unique(history, size, front);
      assert rows == front + [r] && rows[..|front|] == front;
      if earlier !in S.Keys(log) {
        PrecededPrefix(front, r, earlier, later);
      }
      UniqueIsPreceded(log, history, size, front, earlier, later);
      OfferIsOneMore(history, size, u, r);
      if S.Offer(history, size, u, r) != u {
        assert log + (u + [r]) == log + u + [r];
        if S.KeyOf(r) == later {
          KeysJoinAlone(log, u);
          AcceptedKey(history, size, front, earlier);
          assert S.KeyOf(rows[|front|]) == later;
        }
        AppendPreceded(log + u, r, earlier, later);
      }
    }
  }

  lemma PrecededPrefix(front: seq<S.Row>, r: S.Row, earlier: S.Key, later: S.Key)
    requires Preceded(front + [r], earlier, later)
    ensures Preceded(front, earlier, later)
  {
    hide S.KeyOf, S.Keys;
    forall j | 0 <= j < |front| && S.KeyOf(front[j]) == later ensures earlier in S.Keys(front[..j]) {
      KeysOfPrefix(front, [r], j);
      assert (front + [r])[j] == front[j];
    }
  }

  lemma OfferIsOneMore(history: seq<S.Key>, size: nat, kept: seq<S.Row>, r: S.Row)
    ensures S.Offer(history, size, kept, r) == kept || S.Offer(history, size, kept, r) == kept + [r]
  {
  }

  lemma AcceptedKey(history: seq<S.Key>, size: nat, rows: seq<S.Row>, k: S.Key)
    ensures k in S.Keys(rows) ==> k in history || k in S.Keys(S.Unique(history, size, rows))
  {
    hide S.Unique;
    S.EveryKeyIsAccepted(history, size, rows);
    if k in S.Keys(rows) {
      var i :| 0 <= i < |rows| && S.Keys(rows)[i] == k;
      assert rows[i] in rows && S.KeyOf(rows[i]) == k;
    }
  }

  /**
   * The rows of one push, one kind: in capture order, so `x` stands in front of the rows under the key of a
   * later `y`.
   */
  lemma {:induction false} RowsOfArePreceded(cfg: Config, kind: S.Kind, ids: seq<nat>, node: Node, x: nat, y: nat)
    requires Increasing(ids) && x in ids && I.Consented(cfg.reading(x).sample, node.channels)
    requires x < y && cfg.reading(x).kind == cfg.reading(y).kind == kind && FirstOfItsKey(cfg, y)
    ensures Preceded(RowsOf(cfg, kind, ids, node), KeyFor(cfg, x), KeyFor(cfg, y))
  {
    var front, l := Butlast(ids), Last(ids);
    assert ids == front + [l];
    var rows := RowsOf(cfg, kind, front, node);
    if l == x {
      assert forall z :: z in front ==> z < x;
      NoRowsOfKey(cfg, kind, front, node, y);
      assert S.KeyOf(AsRow(cfg.reading(x), cfg.id, node)) == KeyFor(cfg, x) != KeyFor(cfg, y);
    } else {
      RowsOfArePreceded(cfg, kind, front, node, x, y);
      RowsOfHasKeys(cfg, kind, front, node);
      var q :| q in rows && S.KeyOf(q) == KeyFor(cfg, x);
      S.KeyIsThere(rows, q);
    }
    hide S.KeyOf, S.Keys, KeyFor;
    AppendPreceded(rows, AsRow(cfg.reading(l), cfg.id, node), KeyFor(cfg, x), KeyFor(cfg, y));
  }

  lemma {:induction false} NoRowsOfKey(cfg: Config, kind: S.Kind, ids: seq<nat>, node: Node, y: nat)
    requires FirstOfItsKey(cfg, y) && kind == cfg.reading(y).kind && forall z :: z in ids ==> z < y
    ensures forall r :: r in RowsOf(cfg, kind, ids, node) ==> S.KeyOf(r) != KeyFor(cfg, y)
    ensures forall earlier :: Preceded(RowsOf(cfg, kind, ids, node), earlier, KeyFor(cfg, y))
  {
    if ids != [] {
      assert ids == Butlast(ids) + [Last(ids)];
      assert forall z :: z in Butlast(ids) ==> z in ids;
      NoRowsOfKey(cfg, kind, Butlast(ids), node, y);
      var z := Last(ids);
      assert z in ids && z < y;
      assert cfg.reading(z).kind == kind ==> KeyFor(cfg, z) != KeyFor(cfg, y);
      assert cfg.reading(z).kind == kind ==> S.KeyOf(AsRow(cfg.reading(z), cfg.id, node)) == KeyFor(cfg, z);
    }
  }

  /** One write, for the order of two keys. */
  lemma AcceptKeepsOrder(cfg: Config, s: Sys, rows: seq<S.Row>, earlier: S.Key, later: S.Key)
    requires Remembers(cfg, s) && earlier.node == cfg.id && Preceded(s.log, earlier, later)
    requires earlier in S.Keys(s.log) || Preceded(rows, earlier, later)
    ensures Preceded(Accept(s, cfg.size, rows).log, earlier, later)
  {
    hide S.Unique, S.Keys, S.KeyOf, S.Spaced, S.AppendRows, Preceded, S.Stampable;
    UniqueIsPreceded(s.log, s.staged.history, cfg.size, rows, earlier, later);
  }

  lemma OtherKeysArePreceded(rows: seq<S.Row>, earlier: S.Key, later: S.Key)
    requires forall r :: r in rows ==> S.KeyOf(r) != later
    ensures Preceded(rows, earlier, later)
  {
    hide S.Keys, S.KeyOf;
    assert forall j :: 0 <= j < |rows| ==> rows[j] in rows;
  }

  /** What is kept about two rows of one kind: once `x` was processed and never refused, its row is in front. */
  ghost predicate InOrder(cfg: Config, s: Sys, pushes: seq<Push<nat>>, x: nat, y: nat) {
    x in C.Delivered(pushes) ==>
      StagedOrRefused(cfg, s, x) && (NeverRefused(s, x) ==> Preceded(s.log, KeyFor(cfg, x), KeyFor(cfg, y)))
  }

  /** A push of which `x` is first delivered comes before any row captured later was delivered. */
  lemma FirstTimeMeansAbsent(cfg: Config, s: Sys, pushes: seq<Push<nat>>, push: Push<nat>, x: nat, y: nat)
    requires Ledger(cfg, s, pushes) && C.AllIncreasing(pushes + [push])
    requires Increasing(C.FirstDeliveries(pushes + [push]))
    requires x < y && cfg.reading(x).kind == cfg.reading(y).kind && FirstOfItsKey(cfg, y)
    requires C.Landed(push.reply) && x in push.rows && x !in C.Delivered(pushes)
    ensures KeyFor(cfg, y) !in S.Keys(s.log)
  {
    DeliveredEarlier(pushes, push, x);
    if KeyFor(cfg, y) in S.Keys(s.log) {
      KeyHasSender(cfg, s, pushes, y);
      assert false;
    }
  }

  lemma DeliveredEarlier(pushes: seq<Push<nat>>, push: Push<nat>, x: nat)
    requires C.AllIncreasing(pushes + [push]) && Increasing(C.FirstDeliveries(pushes + [push]))
    requires C.Landed(push.reply) && x in push.rows && x !in C.Delivered(pushes)
    ensures forall z :: z in C.Delivered(pushes) ==> z < x
  {
    var all := pushes + [push];
    assert Butlast(all) == pushes && all[|pushes|] == push;
    assert forall i :: 0 <= i < |pushes| ==> all[i] == pushes[i];
    C.FirstDeliveriesAreDelivered(pushes);
    C.UnseenIsOrdered(push.rows, C.Delivered(pushes));
    IncreasingConcat(C.FirstDeliveries(pushes), C.Unseen(push.rows, C.Delivered(pushes)));
  }

  /** A key of the node's in the log was brought by a landed push. */
  lemma KeyHasSender(cfg: Config, s: Sys, pushes: seq<Push<nat>>, y: nat)
    requires Ledger(cfg, s, pushes) && KeyFor(cfg, y) in S.Keys(s.log)
    ensures exists z ::
              z in C.Delivered(pushes) && cfg.reading(z).kind == cfg.reading(y).kind && KeyFor(cfg, z) == KeyFor(cfg, y)
  {
    var i :| 0 <= i < |s.log| && S.Keys(s.log)[i] == KeyFor(cfg, y);
    var r := s.log[i];
    assert r in s.log && S.KeyOf(r) == KeyFor(cfg, y) && r.node == cfg.id && Sent(cfg, pushes, r);
    var z, node :| z in C.Delivered(pushes) && r == AsRow(cfg.reading(z), cfg.id, node);
    assert KeyFor(cfg, z) == KeyFor(cfg, y) && cfg.reading(z).kind == cfg.reading(y).kind;
  }

  lemma LandKeepsLedger(cfg: Config, s: Sys, pushes: seq<Push<nat>>, push: Push<nat>)
    requires Ledger(cfg, s, pushes)
    ensures Ledger(cfg, Land(cfg, s, push), pushes + [push])
  {
    C.DeliveredGrows(pushes, push);
    var s' := Land(cfg, s, push);
    var electrical, weather := RowsOf(cfg, S.Electrical, push.rows, s.node), RowsOf(cfg, S.Weather, push.rows, s.node);
    RowsOfAreOfKind(cfg, S.Electrical, push.rows, s.node);
    RowsOfAreOfKind(cfg, S.Weather, push.rows, s.node);
    AcceptAddsOnly(s, cfg.size, electrical);
    AcceptAddsOnly(Accept(s, cfg.size, electrical), cfg.size, weather);
    hide Accept, RowsOf, S.Stage;
    forall r | r in s'.log && r.node == cfg.id ensures Sent(cfg, pushes + [push], r) {
      if r in s.log {
        var x, node :| x in C.Delivered(pushes) && r == AsRow(cfg.reading(x), cfg.id, node);
      } else {
        var x :| x in push.rows && r == AsRow(cfg.reading(x), cfg.id, s.node);
        assert x in C.Elements(push.rows);
      }
    }
  }

  lemma AcceptAddsOnly(s: Sys, size: nat, rows: seq<S.Row>)
    ensures forall r :: r in Accept(s, size, rows).log ==> r in s.log || r in rows
  {
    S.EveryKeyIsAccepted(s.staged.history, size, rows);
    hide S.Unique;
  }

  lemma LandKeepsOrder(cfg: Config, s: Sys, pushes: seq<Push<nat>>, push: Push<nat>, x: nat, y: nat)
    requires Remembers(cfg, s) && Proper(cfg, []) && Ledger(cfg, s, pushes) && InOrder(cfg, s, pushes, x, y)
    requires C.AllIncreasing(pushes + [push]) && Increasing(C.FirstDeliveries(pushes + [push]))
    requires x < y && cfg.reading(x).kind == cfg.reading(y).kind && FirstOfItsKey(cfg, y)
    ensures InOrder(cfg, Land(cfg, s, push), pushes + [push], x, y)
  {
    hide S.Keys, S.Stage, Accept, RowsOf, KeyFor, Remembers, S.Stampable, Preceded, Ledger, FirstOfItsKey, Land,
         C.Delivered, C.AllIncreasing, C.FirstDeliveries, Increasing, StagedOrRefused;
    C.DeliveredGrows(pushes, push);
    LandKeeps(cfg, s, push);
    LandView(cfg, s, push);
    var s', kx, ky := Land(cfg, s, push), KeyFor(cfg, x), KeyFor(cfg, y);
    if x in C.Delivered(pushes) {
      StaysStagedOrRefused(cfg, s, s', x);
    }
    if x in C.Delivered(pushes + [push]) && NeverRefused(s', x) && C.Landed(push.reply) {
      assert NeverRefused(s, x);
      var electrical := RowsOf(cfg, S.Electrical, push.rows, s.node);
      var weather := RowsOf(cfg, S.Weather, push.rows, s.node);
      var e := Accept(s, cfg.size, electrical);
      RefusedMeans(cfg, s, push.rows, x);
      PushIsPreceded(cfg, s, pushes, push, x, y);
      AcceptKeepsOrder(cfg, s, electrical, kx, ky);
      AcceptKeepsOrder(cfg, e, weather, kx, ky);
    }
  }

  /** What a push does, its own rows parsing: both lists are accepted, one after the other. */
  lemma LandView(cfg: Config, s: Sys, push: Push<nat>)
    requires Remembers(cfg, s) && Proper(cfg, [])
    ensures !C.Landed(push.reply) ==> Land(cfg, s, push) == s
    ensures C.Landed(push.reply) ==>
              var electrical := RowsOf(cfg, S.Electrical, push.rows, s.node);
              var weather := RowsOf(cfg, S.Weather, push.rows, s.node);
              var e := Accept(s, cfg.size, electrical);
              && Land(cfg, s, push).log == Accept(e, cfg.size, weather).log && Remembers(cfg, e)
              && RefusedOf(cfg, push.rows, s.node) <= Land(cfg, s, push).refused
              && (forall k :: k in S.Keys(s.log) ==> k in S.Keys(e.log))
  {
    hide S.Keys, S.Stage, Accept, RowsOf, Remembers, S.Stampable, RefusedOf;
    if C.Landed(push.reply) {
      RowsOfAreProper(cfg, S.Electrical, push.rows, s.node);
      AcceptKeeps(cfg, s, RowsOf(cfg, S.Electrical, push.rows, s.node));
    }
  }

  lemma RefusedMeans(cfg: Config, s: Sys, ids: seq<nat>, x: nat)
    ensures x in ids && (x, s.node) !in RefusedOf(cfg, ids, s.node) ==>
              I.Consented(cfg.reading(x).sample, s.node.channels)
  {
  }

  /** Whichever way `x` was processed, the lists of this push are in order behind the log. */
  lemma PushIsPreceded(cfg: Config, s: Sys, pushes: seq<Push<nat>>, push: Push<nat>, x: nat, y: nat)
    requires Ledger(cfg, s, pushes) && InOrder(cfg, s, pushes, x, y)
    requires C.AllIncreasing(pushes + [push]) && Increasing(C.FirstDeliveries(pushes + [push]))
    requires x < y && cfg.reading(x).kind == cfg.reading(y).kind && FirstOfItsKey(cfg, y)
    requires C.Landed(push.reply) && x in C.Delivered(pushes + [push]) && NeverRefused(s, x)
    requires x in push.rows && x !in C.Delivered(pushes) ==> I.Consented(cfg.reading(x).sample, s.node.channels)
    ensures Preceded(s.log, KeyFor(cfg, x), KeyFor(cfg, y)) && KeyFor(cfg, x).node == cfg.id
    ensures forall kind :: KeyFor(cfg, x) in S.Keys(s.log)
                           || Preceded(RowsOf(cfg, kind, push.rows, s.node), KeyFor(cfg, x), KeyFor(cfg, y))
  {
    var kx, ky := KeyFor(cfg, x), KeyFor(cfg, y);
    C.DeliveredGrows(pushes, push);
    if x !in C.Delivered(pushes) {
      FirstTimeMeansAbsent(cfg, s, pushes, push, x, y);
      AbsentIsPreceded(s.log, kx, ky);
      assert (pushes + [push])[|pushes|] == push;
      forall kind ensures Preceded(RowsOf(cfg, kind, push.rows, s.node), kx, ky) {
        if kind == cfg.reading(x).kind {
          RowsOfArePreceded(cfg, kind, push.rows, s.node, x, y);
        } else {
          RowsOfAreOfKind(cfg, kind, push.rows, s.node);
          OtherKeysArePreceded(RowsOf(cfg, kind, push.rows, s.node), kx, ky);
        }
      }
    }
  }

  lemma AbsentIsPreceded(rows: seq<S.Row>, earlier: S.Key, later: S.Key)
    requires later !in S.Keys(rows)
    ensures Preceded(rows, earlier, later)
  {
    forall j | 0 <= j < |rows| ensures S.KeyOf(rows[j]) != later {
      assert S.Keys(rows)[j] == S.KeyOf(rows[j]);
    }
  }

  lemma {:induction false} FirstDeliveriesGrow(a: seq<Push<nat>>, b: seq<Push<nat>>)
    ensures C.FirstDeliveries(a) <= C.FirstDeliveries(a + b)
    decreases |b|
  {
    if b == [] {
      assert a + b == a;
    } else {
      assert Butlast(a + b) == a + Butlast(b);
      FirstDeliveriesGrow(a, Butlast(b));
    }
  }

  lemma PrefixIsIncreasing(a: seq<nat>, b: seq<nat>)
    requires a <= b && Increasing(b)
    ensures Increasing(a)
  {
  }

  lemma {:induction false} LandAllKeepsOrder(cfg: Config, s: Sys, before: seq<Push<nat>>, pushes: seq<Push<nat>>,
                                             x: nat, y: nat)
    requires Remembers(cfg, s) && Proper(cfg, []) && Ledger(cfg, s, before) && InOrder(cfg, s, before, x, y)
    requires C.AllIncreasing(before + pushes) && Increasing(C.FirstDeliveries(before + pushes))
    requires x < y && cfg.reading(x).kind == cfg.reading(y).kind && FirstOfItsKey(cfg, y)
    ensures var s' := LandAll(cfg, s, pushes);
            Remembers(cfg, s') && Ledger(cfg, s', before + pushes) && InOrder(cfg, s', before + pushes, x, y)
    decreases |pushes|
  {
    hide Remembers, Proper, Ledger, InOrder, Land, FirstOfItsKey;
    if pushes == [] {
      assert before + pushes == before;
    } else {
      var front, push := Butlast(pushes), Last(pushes);
      assert before + pushes == before + front + [push];
      FirstDeliveriesGrow(before + front, [push]);
      PrefixIsIncreasing(C.FirstDeliveries(before + front), C.FirstDeliveries(before + pushes));
      assert forall i :: 0 <= i < |before + front| ==> (before + pushes)[i] == (before + front)[i];
      LandAllKeepsOrder(cfg, s, before, front, x, y);
      var mid := LandAll(cfg, s, front);
      LandKeepsLedger(cfg, mid, before + front, push);
      LandKeepsOrder(cfg, mid, before + front, push, x, y);
      LandKeeps(cfg, mid, push);
    }
  }

  ghost predicate OrderInv(cfg: Config, s: Sys, x: nat, y: nat) {
    Remembers(cfg, s) && Ledger(cfg, s, s.world.pushes) && InOrder(cfg, s, s.world.pushes, x, y)
  }

  lemma NodeKeepsOrder(cfg: Config, s: Sys, op: C.Op, x: nat, y: nat)
    requires OrderInv(cfg, s, x, y) && Proper(cfg, [])
    requires var pushes := C.Step(s.world, op).pushes; C.AllIncreasing(pushes) && Increasing(C.FirstDeliveries(pushes))
    requires x < y && cfg.reading(x).kind == cfg.reading(y).kind && FirstOfItsKey(cfg, y)
    ensures OrderInv(cfg, Do(cfg, s, FromNode(op)), x, y)
  {
    var world := C.Step(s.world, op);
    ClientStepGrows(s.world, op);
    var newer := world.pushes[|s.world.pushes|..];
    assert world.pushes == s.world.pushes + newer;
    hide C.Step, C.AllIncreasing, LandAll, FirstOfItsKey;
    LandAllKeepsOrder(cfg, s, s.world.pushes, newer, x, y);
    var landed := LandAll(cfg, s, newer);
    WorldIsApart(cfg, landed, world, x, y);
  }

  lemma WorldIsApart(cfg: Config, s: Sys, world: C.World, x: nat, y: nat)
    requires Remembers(cfg, s) && Ledger(cfg, s, world.pushes) && InOrder(cfg, s, world.pushes, x, y)
    ensures OrderInv(cfg, s.(world := world), x, y)
  {
    assert StagedOrRefused(cfg, s, x) <==> StagedOrRefused(cfg, s.(world := world), x);
    assert NeverRefused(s, x) <==> NeverRefused(s.(world := world), x);
    hide Preceded, C.Delivered, S.Keys;
  }

  lemma OthersKeepOrder(cfg: Config, s: Sys, rows: seq<S.Row>, x: nat, y: nat)
    requires OrderInv(cfg, s, x, y) && forall r :: r in rows ==> r.node != cfg.id
    ensures OrderInv(cfg, Do(cfg, s, Others(rows)), x, y)
  {
    var s' := Accept(s, cfg.size, rows);
    AcceptKeeps(cfg, s, rows);
    AcceptAddsOnly(s, cfg.size, rows);
    assert s'.world == s.world && s'.refused == s.refused;
    KeysAreOfNodes(rows);
    OtherKeysArePreceded(rows, KeyFor(cfg, x), KeyFor(cfg, y));
    hide Accept, Remembers, C.Delivered, Preceded;
    if x in C.Delivered(s.world.pushes) {
      StaysStagedOrRefused(cfg, s, s', x);
      if NeverRefused(s', x) {
        assert NeverRefused(s, x);
        AcceptKeepsOrder(cfg, s, rows, KeyFor(cfg, x), KeyFor(cfg, y));
      }
    }
  }

  lemma {:induction false} RunKeepsOrder(cfg: Config, node: Node, ops: seq<Op>, x: nat, y: nat)
    requires Proper(cfg, ops)
    requires x < y && cfg.reading(x).kind == cfg.reading(y).kind && FirstOfItsKey(cfg, y)
    ensures OrderInv(cfg, Run(cfg, node, ops), x, y)
  {
    if ops != [] {
      assert forall i :: 0 <= i < |ops| - 1 ==> Butlast(ops)[i] == ops[i];
      assert Last(ops) == ops[|ops| - 1];
      RunKeepsOrder(cfg, node, Butlast(ops), x, y);
      RunKeepsInv(cfg, node, ops);
      RunKeepsInv(cfg, node, Butlast(ops));
      C.RunKeepsInv(ClientOps(ops));
      var s := Run(cfg, node, Butlast(ops));
      hide FirstOfItsKey, C.Run, C.Step, Inv, Ledger, InOrder, Remembers;
      match Last(ops)
      case FromNode(op) => NodeKeepsOrder(cfg, s, op, x, y);
      case Others(rows) => OthersKeepOrder(cfg, s, rows, x, y);
      case _ => SameFiles(cfg, s, Do(cfg, s, Last(ops)), x, y);
    }
  }

  /** A restart forgets the window; a consent change touches the node record only. */
  lemma SameFiles(cfg: Config, s: Sys, s': Sys, x: nat, y: nat)
    requires OrderInv(cfg, s, x, y) && s'.log == s.log && s'.world == s.world && s'.refused == s.refused
    requires s'.staged.files == s.staged.files && (s'.staged.history == s.staged.history || s'.staged.history == [])
    ensures OrderInv(cfg, s', x, y)
  {
    assert StagedOrRefused(cfg, s, x) <==> StagedOrRefused(cfg, s', x);
    assert NeverRefused(s, x) <==> NeverRefused(s', x);
    hide Preceded, C.Delivered, S.Keys, S.AppendRows;
  }

  lemma {:induction false} GroupIsPreceded(rows: seq<S.Row>, p: S.Path, earlier: S.Key, later: S.Key)
    requires Preceded(rows, earlier, later)
    requires forall r :: r in rows && S.KeyOf(r) in [earlier, later] ==> S.PathOf(r) == Some(p)
    ensures Preceded(S.Group(rows, p), earlier, later)
    ensures earlier in S.Keys(rows) ==> earlier in S.Keys(S.Group(rows, p))
  {
    hide S.KeyOf, S.PathOf, S.Keys;
    if rows == [] {
      NoKeys();
    } else {
      var front, r := Butlast(rows), Last(rows);
      assert rows == front + [r] && rows[..|front|] == front;
      PrecededPrefix(front, r, earlier, later);
      GroupIsPreceded(front, p, earlier, later);
      KeysAppend(front, r);
      KeysAppend(S.Group(front, p), r);
      if S.PathOf(r) == Some(p) {
        AppendPreceded(S.Group(front, p), r, earlier, later);
      }
    }
  }

  lemma NoKeys()
    ensures S.Keys([]) == []
  {
  }

  lemma KeysAppend(rows: seq<S.Row>, r: S.Row)
    ensures S.Keys(rows + [r]) == S.Keys(rows) + [S.KeyOf(r)]
  {
  }

  /** Rows under one key belong in one file. */
  lemma PathOfKey(cfg: Config, x: nat, r: S.Row)
    requires Stamped(cfg) && S.KeyOf(r) == KeyFor(cfg, x)
    ensures S.PathOf(r) == Some(FileOf(cfg, x))
  {
  }

  /**
   * The order of each hour file. Let `y` be the first row captured under its key, and `x` a row of that
   * kind and hour captured before it, processed by the server and never refused. Then in their file no
   * row under the key of `y` stands before the first under that of `x`.
   */
  lemma EachFileIsInCaptureOrder(cfg: Config, node: Node, ops: seq<Op>, x: nat, y: nat)
    requires Proper(cfg, ops)
    requires x < y && FileOf(cfg, x) == FileOf(cfg, y) && FirstOfItsKey(cfg, y)
    requires var s := Run(cfg, node, ops); x in C.Delivered(s.world.pushes) && NeverRefused(s, x)
    ensures var rows := S.RowsIn(S.ContentOf(Run(cfg, node, ops).staged.files, FileOf(cfg, x)));
            forall j :: 0 <= j < |rows| && S.KeyOf(rows[j]) == KeyFor(cfg, y) ==>
              exists i :: 0 <= i < j && S.KeyOf(rows[i]) == KeyFor(cfg, x)
  {
    var s, p := Run(cfg, node, ops), FileOf(cfg, x);
    RunKeepsOrder(cfg, node, ops, x, y);
    hide Run, FirstOfItsKey, C.Delivered, S.KeyOf, KeyFor, S.AppendRows, S.PathOf, S.RowsIn, Preceded;
    assert Remembers(cfg, s) && Preceded(s.log, KeyFor(cfg, x), KeyFor(cfg, y));
    forall r | r in s.log && S.KeyOf(r) in [KeyFor(cfg, x), KeyFor(cfg, y)] ensures S.PathOf(r) == Some(p) {
      PathOfKey(cfg, if S.KeyOf(r) == KeyFor(cfg, x) then x else y, r);
    }
    GroupIsPreceded(s.log, p, KeyFor(cfg, x), KeyFor(cfg, y));
    S.AppendRowsAt(map[], s.log, p);
    S.RowsInGroup(S.Group(s.log, p));
    PrecededMeans(S.Group(s.log, p), KeyFor(cfg, x), KeyFor(cfg, y));
  }

  lemma PrecededMeans(rows: seq<S.Row>, earlier: S.Key, later: S.Key)
    requires Preceded(rows, earlier, later)
    ensures forall j :: 0 <= j < |rows| && S.KeyOf(rows[j]) == later ==>
              exists i :: 0 <= i < j && S.KeyOf(rows[i]) == earlier
  {
    forall j | 0 <= j < |rows| && S.KeyOf(rows[j]) == later
      ensures exists i :: 0 <= i < j && S.KeyOf(rows[i]) == earlier
    {
      var i :| 0 <= i < j && S.Keys(rows[..j])[i] == earlier;
      assert S.KeyOf(rows[i]) == earlier;
    }
  }
}
