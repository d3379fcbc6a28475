/**
 * The two models of node and server belong together: a history in which the server processes each push in
 * one go is one of the schedules of the model in which it does so step by step.
 */
module Schedules {
  import opened Basics
  import opened Registry
  import opened Capture
  import opened Coordinators
  import opened Requests
  import C = ClientRuns
  import D = Delivery
  import I = Ingest
  import S = Staging
  import T = ThreadedStaging
  import U = Undisturbed

  ghost function Continue(cfg: Config, s: D.Sys, ops: seq<D.Op>): D.Sys {
    if ops == [] then s else D.Do(cfg, Continue(cfg, s, Butlast(ops)), Last(ops))
  }

  lemma {:induction false} ContinueJoins(cfg: Config, s: D.Sys, a: seq<D.Op>, b: seq<D.Op>)
    ensures Continue(cfg, s, a + b) == Continue(cfg, Continue(cfg, s, a), b)
    decreases |b|
  {
    hide D.Do;
    if b == [] {
      assert a + b == a;
    } else {
      assert Butlast(a + b) == a + Butlast(b);
      ContinueJoins(cfg, s, a, Butlast(b));
    }
  }

  lemma {:induction false} RunJoins(cfg: Config, node: Node, a: seq<D.Op>, b: seq<D.Op>)
    ensures D.Run(cfg, node, a + b) == Continue(cfg, D.Run(cfg, node, a), b)
    decreases |b|
  {
    hide D.Do;
    if b == [] {
      assert a + b == a;
    } else {
      assert Butlast(a + b) == a + Butlast(b);
      RunJoins(cfg, node, a, Butlast(b));
    }
  }

  lemma OneOp(cfg: Config, s: D.Sys, op: D.Op)
    ensures Continue(cfg, s, [op]) == D.Do(cfg, s, op)
  {
    hide D.Do;
    assert Butlast([op]) == [] && Last([op]) == op;
  }

  function ServerOps(steps: seq<T.Step>): (r: seq<D.Op>)
    ensures |r| == |steps|
  {
    seq(|steps|, i requires 0 <= i < |steps| => D.Server(steps[i]))
  }

  /** Whatever the server does between two pushes, it does by the steps of its writers. */
  lemma {:induction false} ServerStepsAreTheWriters(cfg: Config, s: D.Sys, steps: seq<T.Step>)
    ensures Continue(cfg, s, ServerOps(steps)) == s.(server := T.Continue(s.server, cfg.size, steps))
  {
    hide T.Do;
    if steps != [] {
      assert Butlast(ServerOps(steps)) == ServerOps(Butlast(steps));
      ServerStepsAreTheWriters(cfg, s, Butlast(steps));
    }
  }

  /** From a consent change to the next one every handler that starts reads the record it left. */
  lemma {:induction false} TheLastRecordCounts(cfg: Config, node: Node, before: seq<D.Op>, record: Node,
                                               after: seq<D.Op>)
    requires forall i :: 0 <= i < |after| ==> !after[i].Consent?
    ensures D.Run(cfg, node, before + [D.Consent(record)] + after).node == record
    decreases |after|
  {
    hide T.Do, C.Step, RowsOf, RefusedOf;
    var ops := before + [D.Consent(record)] + after;
    if after == [] {
      assert Butlast(ops) == before && Last(ops) == D.Consent(record);
    } else {
      assert Butlast(ops) == before + [D.Consent(record)] + Butlast(after) && Last(ops) == Last(after);
      assert Last(after) == after[|after| - 1];
      TheLastRecordCounts(cfg, node, before, record, Butlast(after));
    }
  }

  /** No writer is under way. */
  ghost predicate AtRest(s: T.Server) {
    forall i :: 0 <= i < |s.threads| ==> s.threads[i].handler.Done? || s.threads[i].handler.Failed?
  }

  /** The server's window and hour files are the given ones, and it is at rest. */
  ghost predicate Holds(s: T.Server, staged: S.Staged) {
    && AtRest(s) && T.WindowOf(s, T.Api) == staged.history
    && T.NoEmptyFiles(s.files) && T.NoEmptyFiles(staged.files)
    && forall q :: S.ContentOf(s.files, q) == S.ContentOf(staged.files, q)
  }

  /** A writer that comes to a server at rest, and is left alone, with rows that parse. */
  lemma AWriterAlone(s: T.Server, staged: S.Staged, size: nat, electrical: seq<S.Row>, weather: seq<S.Row>)
    returns (n: nat)
    requires Holds(s, staged) && S.Stampable(S.Unique(staged.history, size, electrical)) && S.Stampable(weather)
    ensures var i, come := |s.threads|, T.Do(s, size, T.Arrive(T.Api, electrical, weather));
            var s' := T.Continue(come, size, T.Advances(i, n));
            && |s'.threads| == i + 1 && s'.threads[i].handler.Done?
            && Holds(s', S.Stage(S.Stage(staged, size, electrical).0, size, weather).0)
  {
    hide *;
    var i, come := |s.threads|, T.Do(s, size, T.Arrive(T.Api, electrical, weather));
    Comes(s, staged, size, electrical, weather);
    n := T.AnUndisturbedHandlerAnswers(come, size, i);
    T.OnlyOneMoves(come, size, i, n);
    var s' := T.Continue(come, size, T.Advances(i, n));
    StaysAtRest(s, come, s');
    var own := S.Staged(T.WindowOf(come, T.Api), come.files);
    T.StageSees(own, staged, size, electrical);
    T.StageLeavesNoEmptyFile(own, size, electrical);
    T.StageLeavesNoEmptyFile(staged, size, electrical);
    var first := S.Stage(staged, size, electrical).0;
    T.UniqueIsStampableToo(first.history, size, weather);
    T.StageSees(S.Stage(own, size, electrical).0, first, size, weather);
    T.StageLeavesNoEmptyFile(first, size, weather);
    NowHolds(s', S.Stage(first, size, weather).0);
  }

  /** The same with a timestamp that does not parse. */
  lemma AWriterAloneRaises(s: T.Server, staged: S.Staged, size: nat, rows: seq<S.Row>)
    requires Holds(s, staged) && !S.Stampable(S.Unique(staged.history, size, rows))
    ensures var i, come := |s.threads|, T.Do(s, size, T.Arrive(T.Api, rows, []));
            var s' := T.Continue(come, size, T.Advances(i, 2));
            && |s'.threads| == i + 1 && s'.threads[i].handler.Failed? && Holds(s', S.Stage(staged, size, rows).0)
  {
    hide *;
    var i, come := |s.threads|, T.Do(s, size, T.Arrive(T.Api, rows, []));
    Comes(s, staged, size, rows, []);
    T.AnUndisturbedWriteRaises(come, size, i);
    T.OnlyOneMoves(come, size, i, 2);
    var s' := T.Continue(come, size, T.Advances(i, 2));
    StaysAtRest(s, come, s');
    Raises(S.Staged(T.WindowOf(come, T.Api), come.files), staged, size, rows);
    NowHolds(s', S.Stage(staged, size, rows).0);
  }

  lemma Comes(s: T.Server, staged: S.Staged, size: nat, electrical: seq<S.Row>, weather: seq<S.Row>)
    requires Holds(s, staged)
    ensures var i, come := |s.threads|, T.Do(s, size, T.Arrive(T.Api, electrical, weather));
            && |come.threads| == i + 1 && come.threads[..i] == s.threads
            && come.threads[i] == T.Thread(T.Api, electrical, weather, T.Arrived)
            && T.NextRows(come.threads[i]) == electrical
            && T.NobodyAppends(come) && T.NoEmptyFiles(come.files) && T.NoEmptyFiles(staged.files)
            && T.WindowOf(come, T.Api) == staged.history && AtRest(s)
            && forall q :: S.ContentOf(come.files, q) == S.ContentOf(staged.files, q)
  {
    hide S.ContentOf;
  }

  lemma StaysAtRest(s: T.Server, come: T.Server, s': T.Server)
    requires AtRest(s) && |come.threads| == |s.threads| + 1 && come.threads[..|s.threads|] == s.threads
    requires |s'.threads| == |come.threads|
    requires s'.threads == come.threads[|s.threads| := s'.threads[|s.threads|]]
    requires var h := s'.threads[|s.threads|].handler; h == T.Done || h == T.Failed
    ensures AtRest(s') && (s'.threads[|s.threads|].handler.Done? <==> s'.threads[|s.threads|].handler == T.Done)
    ensures s'.threads[|s.threads|].handler.Failed? <==> s'.threads[|s.threads|].handler == T.Failed
  {
    forall i | 0 <= i < |s'.threads| ensures s'.threads[i].handler.Done? || s'.threads[i].handler.Failed? {
      if i < |s.threads| {
        assert s'.threads[i] == come.threads[..|s.threads|][i];
      }
    }
  }

  lemma NowHolds(s: T.Server, staged: S.Staged)
    requires AtRest(s) && T.WindowOf(s, T.Api) == staged.history
    requires T.NoEmptyFiles(s.files) && T.NoEmptyFiles(staged.files)
    requires forall q :: S.ContentOf(s.files, q) == S.ContentOf(staged.files, q)
    ensures Holds(s, staged)
  {
  }

  lemma Raises(a: S.Staged, b: S.Staged, size: nat, rows: seq<S.Row>)
    requires a.history == b.history && !S.Stampable(S.Unique(a.history, size, rows))
    ensures S.Stage(a, size, rows).0.files == a.files && S.Stage(b, size, rows).0.files == b.files
    ensures S.Stage(a, size, rows).0.history == S.Stage(b, size, rows).0.history
  {
    hide S.Unique, S.Stampable, S.Keys;
  }

  // --- The refinement -----------------------------------------------------------------------------

  /** Apart from the node's world: window, hour files, record and refusals are the same, and nothing is under way. */
  ghost predicate Agrees(d: D.Sys, u: U.Sys) {
    Holds(d.server, u.staged) && d.node == u.node && d.refused == u.refused
  }

  /** And so are the worlds, of which every push has arrived. */
  ghost predicate Mirrors(d: D.Sys, u: U.Sys) {
    Agrees(d, u) && d.world == u.world && d.arrived == |u.world.pushes|
  }

  /** The ops of a schedule that are the server's own doing. */
  ghost predicate Own(ops: seq<D.Op>) {
    forall i :: 0 <= i < |ops| ==> ops[i].Next? || (ops[i].Server? && !ops[i].step.Arrive?)
  }

  /**
   * The next push, if nothing comes between the steps of its handler: the handler reads the record in
   * force, answers, and the server is as if it had processed the push in one go.
   */
  lemma APushAloneIsLand(cfg: Config, d: D.Sys, u: U.Sys) returns (ops: seq<D.Op>)
    requires Stamped(cfg) && Agrees(d, u) && d.arrived < |d.world.pushes|
    ensures var d', push := Continue(cfg, d, ops), d.world.pushes[d.arrived];
            && Own(ops) && Agrees(d', U.Land(cfg, u, push)) && d'.world == d.world && d'.arrived == d.arrived + 1
            && var i := |d.server.threads|;
               C.Landed(push.reply) ==>
                 && i in d'.requests && d'.requests[i] == D.Request(d.arrived, d.node)
                 && i < |d'.server.threads| && d'.server.threads[i].handler.Done?
  {
    var push := d.world.pushes[d.arrived];
    ops := [D.Next];
    OneOp(cfg, d, D.Next);
    if C.Landed(push.reply) {
      var electrical := RowsOf(cfg, S.Electrical, push.rows, d.node);
      var weather := RowsOf(cfg, S.Weather, push.rows, d.node);
      RowsOfAreProper(cfg, S.Electrical, push.rows, d.node);
      RowsOfAreProper(cfg, S.Weather, push.rows, d.node);
      hide U.Land, D.Do, T.Do, T.Continue, RowsOf, RefusedOf, Holds, Continue, S.Stage, ServerOps, S.Unique, C.Landed,
           S.Stampable, T.Advances, Own, Stamped;
      T.UniqueIsStampableToo(u.staged.history, cfg.size, electrical);
      var n := AWriterAlone(d.server, u.staged, cfg.size, electrical, weather);
      var i, came := |d.server.threads|, D.Do(cfg, d, D.Next);
      ArrivesAlone(cfg, d);
      ops := [D.Next] + ServerOps(T.Advances(i, n));
      ContinueJoins(cfg, d, [D.Next], ServerOps(T.Advances(i, n)));
      ServerStepsAreTheWriters(cfg, came, T.Advances(i, n));
      LandsWhole(cfg, u, push);
      OwnSteps(i, n);
    }
  }

  lemma ArrivesAlone(cfg: Config, d: D.Sys)
    requires d.arrived < |d.world.pushes| && C.Landed(d.world.pushes[d.arrived].reply)
    ensures var rows := d.world.pushes[d.arrived].rows;
            var come := T.Arrive(T.Api, RowsOf(cfg, S.Electrical, rows, d.node), RowsOf(cfg, S.Weather, rows, d.node));
            D.Do(cfg, d, D.Next)
            == D.Sys(d.world, d.arrived + 1, T.Do(d.server, cfg.size, come),
                     d.requests[|d.server.threads| := D.Request(d.arrived, d.node)], d.node,
                     d.refused + RefusedOf(cfg, rows, d.node))
  {
    hide RowsOf, RefusedOf, C.Landed, T.Do;
  }

  lemma LandsWhole(cfg: Config, u: U.Sys, push: Push<nat>)
    requires Stamped(cfg) && C.Landed(push.reply)
    ensures var u' := U.Land(cfg, u, push);
            var electrical := RowsOf(cfg, S.Electrical, push.rows, u.node);
            var weather := RowsOf(cfg, S.Weather, push.rows, u.node);
            && u'.staged == S.Stage(S.Stage(u.staged, cfg.size, electrical).0, cfg.size, weather).0
            && u'.node == u.node && u'.refused == u.refused + RefusedOf(cfg, push.rows, u.node)
  {
    var electrical := RowsOf(cfg, S.Electrical, push.rows, u.node);
    RowsOfAreProper(cfg, S.Electrical, push.rows, u.node);
    T.UniqueIsStampableToo(u.staged.history, cfg.size, electrical);
    hide RowsOf, RefusedOf, C.Landed, S.Stampable, S.Unique, S.Keys, S.AppendRows;
  }

  lemma OwnSteps(i: nat, n: nat)
    ensures Own([D.Next]) && Own([D.Next] + ServerOps(T.Advances(i, n)))
    ensures forall k :: 0 <= k < n ==> ServerOps(T.Advances(i, n))[k] == D.Server(T.Advance(i))
  {
  }

  /** Pushes that arrive one after the other, each left alone. */
  lemma {:induction false} PushesAloneAreLandAll(cfg: Config, d: D.Sys, u: U.Sys, n: nat) returns (ops: seq<D.Op>)
    requires Stamped(cfg) && Agrees(d, u) && d.arrived + n <= |d.world.pushes|
    ensures var d' := Continue(cfg, d, ops);
            && Own(ops) && Agrees(d', U.LandAll(cfg, u, d.world.pushes[d.arrived..d.arrived + n]))
            && d'.world == d.world && d'.arrived == d.arrived + n
  {
    hide *;
    ops := [];
    if n == 0 {
      NoPushes(cfg, d, u);
    } else {
      ops := PushesAloneAreLandAll(cfg, d, u, n - 1);
      var d1 := Continue(cfg, d, ops);
      var more := APushAloneIsLand(cfg, d1, U.LandAll(cfg, u, d.world.pushes[d.arrived..d.arrived + n - 1]));
      LandAllUnfolds(cfg, u, d.world.pushes[d.arrived..d.arrived + n]);
      Shorter(d.world.pushes, d.arrived, n);
      ContinueJoins(cfg, d, ops, more);
      OwnJoins(ops, more);
      ops := ops + more;
    }
  }

  lemma NoPushes(cfg: Config, d: D.Sys, u: U.Sys)
    ensures Own([]) && Continue(cfg, d, []) == d && U.LandAll(cfg, u, []) == u
  {
  }

  lemma Shorter(pushes: seq<Push<nat>>, from: nat, n: nat)
    requires 0 < n && from + n <= |pushes|
    ensures Butlast(pushes[from..from + n]) == pushes[from..from + n - 1]
  {
  }

  lemma LandAllUnfolds(cfg: Config, u: U.Sys, pushes: seq<Push<nat>>)
    requires pushes != []
    ensures U.LandAll(cfg, u, pushes) == U.Land(cfg, U.LandAll(cfg, u, Butlast(pushes)), pushes[|pushes| - 1])
  {
    hide U.Land;
  }

  lemma OwnJoins(a: seq<D.Op>, b: seq<D.Op>)
    requires Own(a) && Own(b)
    ensures Own(a + b)
  {
  }

  /** What a step of the one-go model is a schedule of. */
  lemma StepIsASchedule(cfg: Config, d: D.Sys, u: U.Sys, op: U.Op) returns (ops: seq<D.Op>)
    requires Stamped(cfg) && Mirrors(d, u)
    requires op.Others? ==> forall r :: r in op.rows ==> r.node != cfg.id
    ensures Mirrors(Continue(cfg, d, ops), U.Do(cfg, u, op)) && D.Proper(cfg, ops)
  {
    match op
    case FromNode(c) => ops := ANodeStep(cfg, d, u, c);
    case Restart => ops := ARestart(cfg, d, u);
    case Others(rows) => ops := AnotherWriter(cfg, d, u, rows);
    case Consent(node) =>
      ops := [D.Consent(node)];
      OneOp(cfg, d, D.Consent(node));
  }

  lemma OwnIsProper(cfg: Config, op: D.Op, ops: seq<D.Op>)
    requires Stamped(cfg) && Own(ops) && (op.Server? ==> D.Foreign(cfg, op.step))
    ensures D.Proper(cfg, [op] + ops) && D.Proper(cfg, [op])
  {
    hide D.Foreign, Stamped;
    forall i | 0 <= i < |ops| + 1 && ([op] + ops)[i].Server? ensures D.Foreign(cfg, ([op] + ops)[i].step) {
      if i > 0 {
        NotArriving(cfg, ops[i - 1]);
      }
    }
  }

  lemma NotArriving(cfg: Config, op: D.Op)
    requires op.Server? && !op.step.Arrive?
    ensures D.Foreign(cfg, op.step)
  {
  }

  lemma ANodeStep(cfg: Config, d: D.Sys, u: U.Sys, c: C.Op) returns (ops: seq<D.Op>)
    requires Stamped(cfg) && Mirrors(d, u)
    ensures Mirrors(Continue(cfg, d, ops), U.Do(cfg, u, U.FromNode(c))) && D.Proper(cfg, ops)
  {
    var world := C.Step(u.world, c);
    ClientStepGrows(u.world, c);
    var d1, n := D.Do(cfg, d, D.FromNode(c)), |world.pushes| - |u.world.pushes|;
    hide C.Step, Holds, U.LandAll;
    var own := PushesAloneAreLandAll(cfg, d1, u, n);
    assert world.pushes[d.arrived..d.arrived + n] == world.pushes[|u.world.pushes|..];
    OneOp(cfg, d, D.FromNode(c));
    ContinueJoins(cfg, d, [D.FromNode(c)], own);
    OwnIsProper(cfg, D.FromNode(c), own);
    ops := [D.FromNode(c)] + own;
  }

  lemma ARestart(cfg: Config, d: D.Sys, u: U.Sys) returns (ops: seq<D.Op>)
    requires Stamped(cfg) && Mirrors(d, u)
    ensures Mirrors(Continue(cfg, d, ops), U.Do(cfg, u, U.Restart)) && D.Proper(cfg, ops)
  {
    var step := T.Restart(T.Api);
    ops := [D.Server(step)];
    OneOp(cfg, d, D.Server(step));
    OwnIsProper(cfg, D.Server(step), []);
    hide T.Dropped, T.Stopped, S.ContentOf;
    var s' := T.Do(d.server, cfg.size, step);
    forall i | 0 <= i < |s'.threads| ensures s'.threads[i].handler.Done? || s'.threads[i].handler.Failed? {
      T.StopChanges(d.server.threads, T.Api, i);
    }
  }

  lemma AnotherWriter(cfg: Config, d: D.Sys, u: U.Sys, rows: seq<S.Row>) returns (ops: seq<D.Op>)
    requires Stamped(cfg) && Mirrors(d, u) && forall r :: r in rows ==> r.node != cfg.id
    ensures Mirrors(Continue(cfg, d, ops), U.Do(cfg, u, U.Others(rows))) && D.Proper(cfg, ops)
  {
    var i, come := |d.server.threads|, D.Server(T.Arrive(T.Api, rows, []));
    var n: nat := 2;
    hide S.Unique, S.Stampable, Stamped;
    if S.Stampable(S.Unique(u.staged.history, cfg.size, rows)) {
      NothingParses();
      n := AWriterAlone(d.server, u.staged, cfg.size, rows, []);
      StagingNothing(S.Stage(u.staged, cfg.size, rows).0, cfg.size);
    } else {
      AWriterAloneRaises(d.server, u.staged, cfg.size, rows);
    }
    hide Holds, T.Do, T.Continue, S.Stage, Own;
    OneOp(cfg, d, come);
    ServerStepsAreTheWriters(cfg, D.Do(cfg, d, come), T.Advances(i, n));
    ContinueJoins(cfg, d, [come], ServerOps(T.Advances(i, n)));
    ServerStepsAreOwn(i, n);
    OwnIsProper(cfg, come, ServerOps(T.Advances(i, n)));
    ops := [come] + ServerOps(T.Advances(i, n));
  }

  lemma NothingParses()
    ensures S.Stampable([])
  {
  }

  lemma StagingNothing(staged: S.Staged, size: nat)
    ensures S.Stage(staged, size, []).0 == staged
  {
    assert staged.history + [] == staged.history;
  }

  lemma ServerStepsAreOwn(i: nat, n: nat)
    ensures Own(ServerOps(T.Advances(i, n)))
  {
  }

  /**
   * Every history in which the server processes each push, and each write of others, in one go, is a
   * schedule of the model in steps: node, record, refusals, window and hour files are the same, with every
   * push arrived and no writer under way. So what is proved of all schedules holds of these histories.
   */
  lemma {:induction false} EveryUndisturbedHistoryIsASchedule(cfg: Config, node: Node, ops: seq<U.Op>)
    returns (schedule: seq<D.Op>)
    requires U.Proper(cfg, ops)
    ensures D.Proper(cfg, schedule) && Mirrors(D.Run(cfg, node, schedule), U.Run(cfg, node, ops))
  {
    schedule := [];
    if ops != [] {
      ProperParts(cfg, ops);
      schedule := EveryUndisturbedHistoryIsASchedule(cfg, node, Butlast(ops));
      hide Mirrors, U.Do, D.Proper, U.Proper;
      var more := StepIsASchedule(cfg, D.Run(cfg, node, schedule), U.Run(cfg, node, Butlast(ops)), Last(ops));
      RunJoins(cfg, node, schedule, more);
      ProperJoins(cfg, schedule, more);
      schedule := schedule + more;
    }
  }

  lemma ProperParts(cfg: Config, ops: seq<U.Op>)
    requires U.Proper(cfg, ops) && ops != []
    ensures U.Proper(cfg, Butlast(ops)) && Stamped(cfg)
    ensures Last(ops).Others? ==> forall r :: r in Last(ops).rows ==> r.node != cfg.id
  {
    assert forall i :: 0 <= i < |ops| - 1 ==> Butlast(ops)[i] == ops[i];
    assert Last(ops) == ops[|ops| - 1];
  }

  lemma ProperJoins(cfg: Config, a: seq<D.Op>, b: seq<D.Op>)
    requires D.Proper(cfg, a) && D.Proper(cfg, b)
    ensures D.Proper(cfg, a + b)
  {
    hide D.Foreign, Stamped;
    forall i | 0 <= i < |a + b| && (a + b)[i].Server? ensures D.Foreign(cfg, (a + b)[i].step) {
      assert (a + b)[i] == if i < |a| then a[i] else b[i - |a|];
    }
  }
}
