/**
 * One node and the server, step by step: captures, flushes and faults of the node; its pushes, each of
 * which is handled in steps between which anything may happen; other writers; failing appends, restarts
 * and consent changes. A push may still be handled when the next one arrives.
 */
module Delivery {
  import opened Basics
  import opened Registry
  import opened Capture
  import opened Coordinators
  import opened Requests
  import C = ClientRuns
  import I = Ingest
  import S = Staging
  import T = ThreadedStaging

  /** A push that reached its handler, and the node record that the handler read. */
  datatype Request = Request(push: nat, node: Node)

  /** Next: the next push of the node reaches the server, or is lost on the way. */
  datatype Op = FromNode(op: C.Op) | Next | Server(step: T.Step) | Consent(node: Node)

  /**
   * The node's world; how many of its pushes have reached the server, or were lost; the server's writers
   * and files; the requests behind the node's handlers, by thread; the node record; and the row numbers
   * refused for consent, with the record then.
   */
  datatype Sys = Sys(world: C.World, arrived: nat, server: T.Server, requests: map<nat, Request>, node: Node,
                     refused: set<(nat, Node)>)

  function Arrive(cfg: Config, s: Sys): Sys {
    if |s.world.pushes| <= s.arrived then s
    else
      var push, next := s.world.pushes[s.arrived], s.(arrived := s.arrived + 1);
      if !C.Landed(push.reply) then next
      else
        next.(server := T.Do(s.server, cfg.size, Handle(cfg, push.rows, s.node)),
              requests := s.requests[|s.server.threads| := Request(s.arrived, s.node)],
              refused := s.refused + RefusedOf(cfg, push.rows, s.node))
  }

  /** The handler of a push: what is consented to, in its two lists. */
  function Handle(cfg: Config, ids: seq<nat>, node: Node): T.Step {
    T.Arrive(T.Api, RowsOf(cfg, S.Electrical, ids, node), RowsOf(cfg, S.Weather, ids, node))
  }

  ghost function Do(cfg: Config, s: Sys, op: Op): Sys {
    match op
    case FromNode(c) => s.(world := C.Step(s.world, c))
    case Next => Arrive(cfg, s)
    case Server(step) => s.(server := T.Do(s.server, cfg.size, step))
    case Consent(node) => s.(node := node)
  }

  ghost function Run(cfg: Config, node: Node, ops: seq<Op>): Sys {
    if ops == [] then Sys(C.Start, 0, T.Empty, map[], node, {}) else Do(cfg, Run(cfg, node, Butlast(ops)), Last(ops))
  }

  function ClientOps(ops: seq<Op>): seq<C.Op> {
    if ops == [] then []
    else if Last(ops).FromNode? then ClientOps(Butlast(ops)) + [Last(ops).op]
    else ClientOps(Butlast(ops))
  }

  /** A request is authenticated as its own node, so rows of other writers carry other node ids. */
  ghost predicate Proper(cfg: Config, ops: seq<Op>) {
    Stamped(cfg) && forall i :: 0 <= i < |ops| && ops[i].Server? ==> Foreign(cfg, ops[i].step)
  }

  ghost predicate Foreign(cfg: Config, step: T.Step) {
    step.Arrive? ==> forall r :: r in step.electrical || r in step.weather ==> r.node != cfg.id
  }

  // --- What every run keeps -----------------------------------------------------------------------

  /** A row of the node's that one of its landed pushes brought, under whatever node record. */
  ghost predicate Sent(cfg: Config, pushes: seq<Push<nat>>, r: S.Row) {
    exists x, node :: x in C.Delivered(pushes) && r == AsRow(cfg.reading(x), cfg.id, node)
  }

  ghost predicate AllSent(cfg: Config, pushes: seq<Push<nat>>, rows: seq<S.Row>) {
    forall r :: r in rows && r.node == cfg.id ==> Sent(cfg, pushes, r)
  }

  ghost predicate ThreadSent(cfg: Config, pushes: seq<Push<nat>>, t: T.Thread) {
    AllSent(cfg, pushes, t.electrical) && AllSent(cfg, pushes, t.weather)
  }

  /** The handler of a request has the rows of its push that were consented to, and the others are refused. */
  ghost predicate Handled(cfg: Config, s: Sys, i: nat) {
    i in s.requests ==>
      var Request(push, node) := s.requests[i];
      && i < |s.server.threads| && push < s.arrived <= |s.world.pushes|
      && var rows := s.world.pushes[push].rows;
         && s.server.threads[i].electrical == RowsOf(cfg, S.Electrical, rows, node)
         && s.server.threads[i].weather == RowsOf(cfg, S.Weather, rows, node)
         && RefusedOf(cfg, rows, node) <= s.refused
  }

  ghost predicate Inv(cfg: Config, s: Sys) {
    && s.arrived <= |s.world.pushes|
    && AllSent(cfg, s.world.pushes, s.server.accepted)
    && (forall i :: 0 <= i < |s.server.threads| ==> ThreadSent(cfg, s.world.pushes, s.server.threads[i]))
    && (forall i :: Handled(cfg, s, i))
  }

  lemma SentStays(cfg: Config, pushes: seq<Push<nat>>, more: seq<Push<nat>>, rows: seq<S.Row>)
    requires AllSent(cfg, pushes, rows)
    ensures AllSent(cfg, pushes + more, rows)
  {
    C.DeliveredJoins(pushes, more);
    hide C.Delivered;
    forall r | r in rows && r.node == cfg.id ensures Sent(cfg, pushes + more, r) {
      var x, node :| x in C.Delivered(pushes) && r == AsRow(cfg.reading(x), cfg.id, node);
    }
  }

  lemma NodeKeepsInv(cfg: Config, s: Sys, op: C.Op)
    requires Inv(cfg, s)
    ensures Inv(cfg, Do(cfg, s, FromNode(op)))
  {
    var pushes, s' := C.Step(s.world, op).pushes, Do(cfg, s, FromNode(op));
    ClientStepGrows(s.world, op);
    var more := pushes[|s.world.pushes|..];
    assert pushes == s.world.pushes + more;
    hide C.Step, AllSent, RowsOf, RefusedOf;
    SentStays(cfg, s.world.pushes, more, s.server.accepted);
    forall i | 0 <= i < |s'.server.threads| ensures ThreadSent(cfg, s'.world.pushes, s'.server.threads[i]) {
      assert ThreadSent(cfg, s.world.pushes, s.server.threads[i]);
      SentStays(cfg, s.world.pushes, more, s.server.threads[i].electrical);
      SentStays(cfg, s.world.pushes, more, s.server.threads[i].weather);
    }
    forall i: nat ensures Handled(cfg, s', i) {
      assert Handled(cfg, s, i);
    }
  }

  /** The rows of a landed push are sent. */
  lemma RowsOfAreSent(cfg: Config, pushes: seq<Push<nat>>, n: nat, kind: S.Kind, node: Node)
    requires n < |pushes| && C.Landed(pushes[n].reply)
    ensures AllSent(cfg, pushes, RowsOf(cfg, kind, pushes[n].rows, node))
  {
    RowsOfAreOfKind(cfg, kind, pushes[n].rows, node);
    hide RowsOf;
    forall r | r in RowsOf(cfg, kind, pushes[n].rows, node) ensures Sent(cfg, pushes, r) {
      var x :| x in pushes[n].rows && r == AsRow(cfg.reading(x), cfg.id, node);
      assert x in C.Delivered(pushes);
    }
  }

  lemma ArriveKeepsInv(cfg: Config, s: Sys)
    requires Inv(cfg, s)
    ensures Inv(cfg, Arrive(cfg, s))
  {
    hide AllSent, RowsOf, RefusedOf, C.Landed, C.Delivered;
    var s' := Arrive(cfg, s);
    if s.arrived < |s.world.pushes| && C.Landed(s.world.pushes[s.arrived].reply) {
      RowsOfAreSent(cfg, s.world.pushes, s.arrived, S.Electrical, s.node);
      RowsOfAreSent(cfg, s.world.pushes, s.arrived, S.Weather, s.node);
    }
    forall i: nat ensures Handled(cfg, s', i) {
      assert Handled(cfg, s, i);
    }
  }

  /** A step of the server: its threads keep their lists, and it accepts only from them. */
  lemma ServerAcceptsFromLists(cfg: Config, s: T.Server, size: nat, step: T.Step, pushes: seq<Push<nat>>)
    requires AllSent(cfg, pushes, s.accepted)
    requires forall i :: 0 <= i < |s.threads| ==> ThreadSent(cfg, pushes, s.threads[i])
    requires Foreign(cfg, step)
    ensures var s' := T.Do(s, size, step);
            && AllSent(cfg, pushes, s'.accepted) && |s.threads| <= |s'.threads|
            && (forall i :: 0 <= i < |s.threads| ==> SameLists(s'.threads[i], s.threads[i]))
            && (forall i :: 0 <= i < |s'.threads| ==> ThreadSent(cfg, pushes, s'.threads[i]))
  {
    hide Sent, AllSent, T.Proceed, T.Break, T.Stopped, T.Dropped;
    var s' := T.Do(s, size, step);
    match step
    case Arrive(p, electrical, weather) => ForeignIsSent(cfg, pushes, electrical, weather);
    case Restart(p) =>
      forall i | 0 <= i < |s.threads|
        ensures SameLists(s'.threads[i], s.threads[i]) && ThreadSent(cfg, pushes, s'.threads[i])
      {
        T.StopChanges(s.threads, p, i);
        assert ThreadSent(cfg, pushes, s.threads[i]);
      }
    case Fail(i, n) =>
      if i < |s.threads| {
        BreakKeepsLists(s, i, n);
        assert ThreadSent(cfg, pushes, s.threads[i]);
      }
    case Advance(i) =>
      if i < |s.threads| {
        assert ThreadSent(cfg, pushes, s.threads[i]);
        ProceedKeepsLists(s, size, i);
        AcceptedIsSent(cfg, pushes, s.accepted, T.Proceed(s, size, i).accepted, s.threads[i]);
      }
  }

  predicate SameLists(t': T.Thread, t: T.Thread) {
    t'.electrical == t.electrical && t'.weather == t.weather
  }

  lemma ForeignIsSent(cfg: Config, pushes: seq<Push<nat>>, electrical: seq<S.Row>, weather: seq<S.Row>)
    requires forall r :: r in electrical || r in weather ==> r.node != cfg.id
    ensures AllSent(cfg, pushes, electrical) && AllSent(cfg, pushes, weather)
  {
  }

  lemma AcceptedIsSent(cfg: Config, pushes: seq<Push<nat>>, accepted: seq<S.Row>, more: seq<S.Row>, t: T.Thread)
    requires AllSent(cfg, pushes, accepted) && ThreadSent(cfg, pushes, t)
    requires forall r :: r in more ==> r in accepted || r in t.electrical || r in t.weather
    ensures AllSent(cfg, pushes, more)
  {
    hide Sent;
  }

  lemma BreakKeepsLists(s: T.Server, i: nat, n: nat)
    requires i < |s.threads|
    ensures var s' := T.Break(s, i, n);
            && s'.accepted == s.accepted && |s'.threads| == |s.threads| && SameLists(s'.threads[i], s.threads[i])
            && s'.threads == s.threads[i := s'.threads[i]]
  {
    hide T.Block, T.Elsewhere, T.CurrentPath, S.RowsIn;
  }

  lemma ProceedKeepsLists(s: T.Server, size: nat, i: nat)
    requires i < |s.threads|
    ensures var s' := T.Proceed(s, size, i);
            && |s'.threads| == |s.threads| && SameLists(s'.threads[i], s.threads[i])
            && s'.threads == s.threads[i := s'.threads[i]]
            && (forall r :: r in s'.accepted ==>
                 r in s.accepted || r in s.threads[i].electrical || r in s.threads[i].weather)
  {
    hide T.Block, T.Elsewhere, T.CurrentPath, S.RowsIn, S.Unique, S.Stampable, T.Busy;
    var t := s.threads[i];
    S.EveryKeyIsAccepted(T.WindowOf(s, t.process), size, t.electrical);
    S.EveryKeyIsAccepted(T.WindowOf(s, t.process), size, t.weather);
    hide S.Keys, S.KeyOf;
  }

  lemma ServerKeepsInv(cfg: Config, s: Sys, step: T.Step)
    requires Inv(cfg, s) && Foreign(cfg, step)
    ensures Inv(cfg, Do(cfg, s, Server(step)))
  {
    hide AllSent, RowsOf, RefusedOf, T.Do, ThreadSent, Foreign;
    var s' := Do(cfg, s, Server(step));
    ServerAcceptsFromLists(cfg, s.server, cfg.size, step, s.world.pushes);
    forall i: nat ensures Handled(cfg, s', i) {
      assert Handled(cfg, s, i);
      assert i in s.requests ==> SameLists(s'.server.threads[i], s.server.threads[i]);
    }
  }

  lemma {:induction false} RunKeepsInv(cfg: Config, node: Node, ops: seq<Op>)
    requires Proper(cfg, ops)
    ensures Inv(cfg, Run(cfg, node, ops)) && Run(cfg, node, ops).world == C.Run(ClientOps(ops))
  {
    if ops != [] {
      assert forall i :: 0 <= i < |ops| - 1 ==> Butlast(ops)[i] == ops[i];
      assert Last(ops) == ops[|ops| - 1];
      RunKeepsInv(cfg, node, Butlast(ops));
      var s := Run(cfg, node, Butlast(ops));
      hide Handled, ThreadSent, AllSent, T.Do, C.Step;
      match Last(ops)
      case FromNode(op) =>
        NodeKeepsInv(cfg, s, op);
        assert Butlast(ClientOps(ops)) == ClientOps(Butlast(ops));
      case Next => ArriveKeepsInv(cfg, s);
      case Server(step) => ServerKeepsInv(cfg, s, step);
      case Consent(_) => SameButConsent(cfg, s, Do(cfg, s, Last(ops)));
    }
  }

  lemma SameButConsent(cfg: Config, s: Sys, s': Sys)
    requires Inv(cfg, s) && s' == s.(node := s'.node)
    ensures Inv(cfg, s')
  {
    hide AllSent, RowsOf, RefusedOf;
    forall i: nat ensures Handled(cfg, s', i) {
      assert Handled(cfg, s, i);
    }
  }

  lemma {:induction false} ServerKeepsItsInv(cfg: Config, node: Node, ops: seq<Op>, sort: S.Row -> bool)
    ensures T.Inv(Run(cfg, node, ops).server, cfg.size, sort)
  {
    hide T.Inv, T.Do, RowsOf, C.Step, RefusedOf;
    if ops == [] {
      T.EmptyInv(cfg.size, sort);
    } else {
      ServerKeepsItsInv(cfg, node, Butlast(ops), sort);
      var s := Run(cfg, node, Butlast(ops));
      match Last(ops)
      case Server(step) => T.DoKeepsInv(s.server, cfg.size, sort, step);
      case Next =>
        if s.arrived < |s.world.pushes| {
          T.DoKeepsInv(s.server, cfg.size, sort, Handle(cfg, s.world.pushes[s.arrived].rows, s.node));
        }
      case _ =>
    }
  }

  // --- End to end ---------------------------------------------------------------------------------

  /** A captured row is held, settled, or lost in one of the accounted ways; whatever the server does. */
  lemma EveryRowIsAccountedFor(cfg: Config, node: Node, ops: seq<Op>, x: nat)
    requires Proper(cfg, ops)
    ensures var w := Run(cfg, node, ops).world;
            x < w.captured <==>
              x in w.Live() || x in C.Settled(w.pushes) || x in w.pruned || x in w.damaged || x in w.crashed
  {
    hide Run, C.Run, Inv;
    RunKeepsInv(cfg, node, ops);
    C.NoRowIsForgotten(ClientOps(ops), x);
  }

  ghost predicate NeverRefused(s: Sys, x: nat) {
    forall node :: (x, node) !in s.refused
  }

  /** Whether the key of a captured row is in the hour files. */
  predicate OnDisk(cfg: Config, s: Sys, x: nat) {
    KeyFor(cfg, x) in S.Keys(s.server.log)
  }

  /** Whether some acceptance of the key was neither lost, to a failed append or a stop, nor is still in hand. */
  predicate AnAppendCompleted(cfg: Config, s: Sys, x: nat) {
    var under := T.Under(KeyFor(cfg, x));
    T.Tally(s.server.lost, under) + T.InHands(s.server.threads, under) < T.Tally(s.server.accepted, under)
  }

  /**
   * End-to-end delivery, in every run. Take a push whose handler has answered, and any of its rows. The
   * row was refused for a channel not consented to when it was handled; or its key was accepted, by this
   * handler or before, and is in the hour files if and only if some append that was to write it completed.
   */
  lemma EndToEnd(cfg: Config, node: Node, ops: seq<Op>, i: nat, x: nat)
    requires Proper(cfg, ops)
    requires var s := Run(cfg, node, ops);
             i in s.requests && i < |s.server.threads| && s.server.threads[i].handler.Done?
             && s.requests[i].push < |s.world.pushes| && x in s.world.pushes[s.requests[i].push].rows
    ensures var s := Run(cfg, node, ops);
            || ((x, s.requests[i].node) in s.refused
                && !I.Consented(cfg.reading(x).sample, s.requests[i].node.channels))
            || (KeyFor(cfg, x) in S.Keys(s.server.accepted) && (OnDisk(cfg, s, x) <==> AnAppendCompleted(cfg, s, x)))
  {
    hide Run, T.Inv, RowsOf, C.Start;
    var s, k := Run(cfg, node, ops), KeyFor(cfg, x);
    RunKeepsInv(cfg, node, ops);
    ServerKeepsItsInv(cfg, node, ops, T.Under(k));
    hide KeyFor, T.InHands, T.Tally, T.Under;
    CompletedIsOnDisk(s.server, cfg.size, k);
    assert Handled(cfg, s, i);
    if I.Consented(cfg.reading(x).sample, s.requests[i].node.channels) {
      AnsweredIsAccepted(cfg, s, i, x);
    } else {
      assert (x, s.requests[i].node) in RefusedOf(cfg, s.world.pushes[s.requests[i].push].rows, s.requests[i].node);
    }
  }

  lemma CompletedIsOnDisk(s: T.Server, size: nat, k: S.Key)
    requires T.Inv(s, size, T.Under(k))
    ensures k in S.Keys(s.log) <==>
            T.Tally(s.lost, T.Under(k)) + T.InHands(s.threads, T.Under(k)) < T.Tally(s.accepted, T.Under(k))
  {
    hide T.InHands, T.Tally, T.Under, T.WindowsGood, T.AllServed, T.Filed;
    T.TallyUnder(s.log, k);
  }

  /** A row that was consented to when it was handled has its key accepted by the time of the answer. */
  lemma AnsweredIsAccepted(cfg: Config, s: Sys, i: nat, x: nat)
    requires Handled(cfg, s, i) && i in s.requests && s.server.threads[i].handler.Done?
    requires T.Inv(s.server, cfg.size, T.Under(KeyFor(cfg, x)))
    requires var Request(push, node) := s.requests[i];
             x in s.world.pushes[push].rows && I.Consented(cfg.reading(x).sample, node.channels)
    ensures KeyFor(cfg, x) in S.Keys(s.server.accepted)
  {
    hide RowsOf, RefusedOf, S.KeyOf, KeyFor, T.Conserved, T.WindowsGood, T.Filed, S.Keys;
    var Request(push, node) := s.requests[i];
    var kind, ids := cfg.reading(x).kind, s.world.pushes[push].rows;
    RowsOfHasKeys(cfg, kind, ids, node);
    var r :| r in RowsOf(cfg, kind, ids, node) && S.KeyOf(r) == KeyFor(cfg, x);
    assert T.Served(s.server, s.server.threads[i]);
    assert T.Known(s.server, RowsOf(cfg, kind, ids, node));
  }

  /** Every row written under the node's id is one of its captured rows, and was delivered. */
  lemma LogIsSent(cfg: Config, node: Node, ops: seq<Op>, r: S.Row)
    requires Proper(cfg, ops)
    ensures var s := Run(cfg, node, ops); r in s.server.log && r.node == cfg.id ==> Sent(cfg, s.world.pushes, r)
  {
    var s := Run(cfg, node, ops);
    RunKeepsInv(cfg, node, ops);
    ServerKeepsItsInv(cfg, node, ops, q => q == r);
    hide Run, T.InHands, Sent;
    TallyOf(s.server.log, r);
    TallyOf(s.server.accepted, r);
  }

  lemma {:induction false} TallyOf(rows: seq<S.Row>, r: S.Row)
    ensures T.Tally(rows, q => q == r) > 0 <==> r in rows
  {
    if rows != [] {
      TallyOf(Butlast(rows), r);
      assert rows == Butlast(rows) + [Last(rows)];
    }
  }

  /** The files are the log: each holds the rows written that belong in it, in order. */
  lemma FilesAreTheLog(cfg: Config, node: Node, ops: seq<Op>, p: S.Path)
    ensures var s := Run(cfg, node, ops).server;
            S.Stampable(s.log) && S.RowsIn(S.ContentOf(s.files, p)) == S.Group(s.log, p)
  {
    ServerKeepsItsInv(cfg, node, ops, q => true);
    hide Run;
  }

  /** The client was told the truth: of the pushes that arrived, those it saw accepted were answered. */
  ghost predicate RepliesAreTrue(s: Sys) {
    forall n :: 0 <= n < s.arrived && n < |s.world.pushes| && s.world.pushes[n].reply.Ok? ==> Answered(s, n)
  }

  ghost predicate Answered(s: Sys, n: nat) {
    exists i :: i in s.requests && s.requests[i].push == n && i < |s.server.threads|
      && s.server.threads[i].handler.Done?
  }

  // --- Arrival ------------------------------------------------------------------------------------

  /** Of the pushes the server has seen, exactly those that landed have a handler. */
  ghost predicate AllHandled(s: Sys) {
    && s.arrived <= |s.world.pushes|
    && (forall i :: i in s.requests ==>
         i < |s.server.threads| && s.requests[i].push < s.arrived
         && s.server.threads[i].process == T.Api && C.Landed(s.world.pushes[s.requests[i].push].reply))
    && (forall n :: 0 <= n < s.arrived && C.Landed(s.world.pushes[n].reply) ==> HasHandler(s, n))
  }

  ghost predicate HasHandler(s: Sys, n: nat) {
    exists i :: i in s.requests && s.requests[i].push == n
  }

  lemma ArriveHandles(cfg: Config, s: Sys)
    requires AllHandled(s)
    ensures AllHandled(Arrive(cfg, s))
  {
    hide RowsOf, RefusedOf, C.Landed;
    var s', next := Arrive(cfg, s), |s.server.threads|;
    if s.arrived < |s.world.pushes| && C.Landed(s.world.pushes[s.arrived].reply) {
      assert next !in s.requests;
      assert s'.requests[next].push == s.arrived;
      forall n | 0 <= n < s.arrived && C.Landed(s.world.pushes[n].reply) ensures HasHandler(s', n) {
        assert HasHandler(s, n);
        var i :| i in s.requests && s.requests[i].push == n;
        assert s'.requests[i] == s.requests[i];
      }
    } else {
      forall n | 0 <= n < s.arrived && C.Landed(s.world.pushes[n].reply) ensures HasHandler(s', n) {
        assert HasHandler(s, n);
      }
    }
  }

  lemma StillHandled(s: Sys, s': Sys)
    requires AllHandled(s) && s'.requests == s.requests && s'.arrived == s.arrived
    requires s.world.pushes <= s'.world.pushes && |s.server.threads| <= |s'.server.threads|
    requires forall i :: 0 <= i < |s.server.threads| ==>
               T.SameSent(s'.server.threads[i], s.server.threads[i])
    ensures AllHandled(s')
  {
    hide C.Landed;
    forall n | 0 <= n < s'.arrived && C.Landed(s'.world.pushes[n].reply) ensures HasHandler(s', n) {
      assert HasHandler(s, n);
    }
  }

  /** In every run each push that landed has got a handler by the time the server has seen it, and no other has. */
  lemma {:induction false} EveryLandedPushHasAHandler(cfg: Config, node: Node, ops: seq<Op>)
    ensures AllHandled(Run(cfg, node, ops))
  {
    if ops != [] {
      EveryLandedPushHasAHandler(cfg, node, Butlast(ops));
      var s := Run(cfg, node, Butlast(ops));
      hide AllHandled, T.Do, C.Step, Arrive;
      match Last(ops)
      case FromNode(op) =>
        ClientStepGrows(s.world, op);
        StillHandled(s, Do(cfg, s, Last(ops)));
      case Next => ArriveHandles(cfg, s);
      case Server(step) =>
        T.ThreadsStay(s.server, cfg.size, step);
        StillHandled(s, Do(cfg, s, Last(ops)));
      case Consent(_) => StillHandled(s, Do(cfg, s, Last(ops)));
    }
  }
}
