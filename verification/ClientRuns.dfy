/**
 * Whole runs of one node: captures, flushes, restarts, kills and disk damage, in any order and number.
 * Rows are numbered by their capture, so a row is a natural number and capture order is the order of numbers.
 */
module ClientRuns {
  import opened Basics
  import opened DiskBuffers
  import opened Coordinators

  /** What a fault leaves in place of a line: text that is not a row, or JSON that is not an object. */
  datatype Fault = NotARow(stamp: Option<int>) | NotAnObject

  function Broken(f: Fault): Line<nat> {
    match f
    case NotARow(stamp) => Line(None, stamp)
    case NotAnObject => Alien
  }

  /**
   * A flush meets `script` as replies, and `during` rows are captured while it awaits them. DoStop stops
   * the node, which is then started again; Kill does so without the stop. Damage spoils line `i`; Noise
   * puts a spoilt line at `i`.
   */
  datatype Op =
    | Capture(rows: nat)
    | DoFlush(script: seq<Reply>, during: nat, env: Env)
    | DoStop(env: Env)
    | Kill
    | Damage(i: nat, fault: Fault)
    | Noise(i: nat, fault: Fault)

  /** `captured` rows so far; every push ever made; and the rows that left without being settled by a push. */
  datatype World = World(captured: nat, client: Client<nat>, pushes: seq<Push<nat>>,
                         pruned: set<nat>, damaged: set<nat>, crashed: set<nat>)
  {
    function Live(): seq<nat> {
      Items(client.lines) + client.pending
    }
  }

  const Start := World(0, Client([], [], true), [], {}, {}, {})

  function Fresh(from: nat, n: nat): (r: seq<nat>)
    ensures |r| == n && Increasing(r) && forall x :: x in r <==> from <= x < from + n
    decreases n
  {
    if n == 0 then []
    else
      IncreasingConcat([from], Fresh(from + 1, n - 1));
      [from] + Fresh(from + 1, n - 1)
  }

  function Elements(s: seq<nat>): set<nat> {
    set x | x in s
  }

  /** The rows that a spill of `items` onto `lines` drops for age, for the cap, or for an unreadable stamp. */
  ghost function PrunedBySpill(lines: seq<Line<nat>>, items: seq<nat>, env: Env): set<nat> {
    Elements(Items(lines) + items) - Elements(Items(Spill(lines, items, env))) - Elements(Unwritten(items, env))
  }

  ghost function PrunedByFlush(c: Client<nat>, script: seq<Reply>, env: Env): set<nat> {
    var d := Drain(c.lines, script);
    if c.pending != [] && (d.outcome.Unreachable? || (d.outcome.Emptied? && Next(d.script).Retryable?))
    then PrunedBySpill(d.lines, c.pending, env)
    else {}
  }

  ghost function Step(w: World, op: Op): World {
    match op
    case Capture(n) =>
      w.(captured := w.captured + n, client := w.client.(pending := w.client.pending + Fresh(w.captured, n)))
    case DoFlush(script, n, env) =>
      var f := Flush(w.client, script, Fresh(w.captured, n), env);
      w.(captured := w.captured + n, client := f.client, pushes := w.pushes + f.pushes,
         pruned := w.pruned + PrunedByFlush(w.client, script, env),
         crashed := w.crashed + Elements(f.lost))
    case DoStop(env) =>
      w.(client := Client([], Stop(w.client, env).lines, true),
         crashed := w.crashed + Elements(Unwritten(w.client.pending, env)),
         pruned := w.pruned + if w.client.pending == [] then {}
                              else PrunedBySpill(w.client.lines, w.client.pending, env))
    case Kill => w.(client := Client([], w.client.lines, true), crashed := w.crashed + Elements(w.client.pending))
    case Damage(i, fault) =>
      var lines := w.client.lines;
      if |lines| <= i then w
      else
        w.(client := w.client.(lines := lines[i := Broken(fault)]),
           damaged := w.damaged + match lines[i].Item() case Some(x) => {x} case None => {})
    case Noise(i, fault) =>
      var lines := w.client.lines;
      if |lines| < i then w else w.(client := w.client.(lines := lines[..i] + [Broken(fault)] + lines[i..]))
  }

  ghost function Run(ops: seq<Op>): World {
    if ops == [] then Start else Step(Run(Butlast(ops)), Last(ops))
  }

  /** The rows of pushes the client got a final answer to: accepted or refused, not to be sent again. */
  function Settled(pushes: seq<Push<nat>>): set<nat> {
    set i, x | 0 <= i < |pushes| && (pushes[i].reply.Ok? || pushes[i].reply.Refused?) && x in pushes[i].rows :: x
  }

  /** Whether the server processed a push, whatever became of its answer. */
  predicate Landed(reply: Reply) {
    reply.Ok? || ((reply.Retryable? || reply.Raised?) && reply.landed)
  }

  function Delivered(pushes: seq<Push<nat>>): set<nat> {
    set i, x | 0 <= i < |pushes| && Landed(pushes[i].reply) && x in pushes[i].rows :: x
  }

  function Unseen(rows: seq<nat>, seen: set<nat>): seq<nat> {
    if rows == [] then []
    else if rows[0] in seen then Unseen(rows[1..], seen)
    else [rows[0]] + Unseen(rows[1..], seen)
  }

  /** Each delivered row once, in the order of first deliveries: what a receiver that drops repeats sees. */
  function FirstDeliveries(pushes: seq<Push<nat>>): seq<nat> {
    if pushes == [] then []
    else if !Landed(Last(pushes).reply) then FirstDeliveries(Butlast(pushes))
    else FirstDeliveries(Butlast(pushes)) + Unseen(Last(pushes).rows, Delivered(Butlast(pushes)))
  }

  // --- Order --------------------------------------------------------------------------------------

  /**
   * What every push keeps: the rows still held are in capture order, every delivered row was captured
   * before every held row that is not delivered yet, and first deliveries were in capture order.
   */
  ghost predicate Ordered(pushes: seq<Push<nat>>, live: seq<nat>) {
    && Increasing(live)
    && (forall p, x :: p in Delivered(pushes) && x in live && x !in Delivered(pushes) ==> p < x)
    && Increasing(FirstDeliveries(pushes))
  }

  lemma {:induction false} UnseenIsOrdered(rows: seq<nat>, seen: set<nat>)
    requires Increasing(rows)
    ensures Increasing(Unseen(rows, seen))
    ensures forall x :: x in Unseen(rows, seen) <==> x in rows && x !in seen
  {
    if rows != [] {
      assert rows == [rows[0]] + rows[1..];
      IncreasingConcat([rows[0]], rows[1..]);
      UnseenIsOrdered(rows[1..], seen);
      IncreasingConcat([rows[0]], Unseen(rows[1..], seen));
    }
  }

  lemma {:induction false} FirstDeliveriesAreDelivered(pushes: seq<Push<nat>>)
    requires forall i :: 0 <= i < |pushes| ==> Increasing(pushes[i].rows)
    ensures forall x :: x in FirstDeliveries(pushes) <==> x in Delivered(pushes)
  {
    if pushes != [] {
      FirstDeliveriesAreDelivered(Butlast(pushes));
      UnseenIsOrdered(Last(pushes).rows, Delivered(Butlast(pushes)));
      DeliveredGrows(Butlast(pushes), Last(pushes));
      assert Butlast(pushes) + [Last(pushes)] == pushes;
    }
  }

  lemma DeliveredGrows(pushes: seq<Push<nat>>, push: Push<nat>)
    ensures Delivered(pushes + [push]) == Delivered(pushes) + if Landed(push.reply) then Elements(push.rows) else {}
    ensures Settled(pushes + [push])
            == Settled(pushes) + if push.reply.Ok? || push.reply.Refused? then Elements(push.rows) else {}
  {
    var all := pushes + [push];
    assert forall i :: 0 <= i < |pushes| ==> all[i] == pushes[i];
    forall x | x in Elements(push.rows)
      ensures Landed(push.reply) ==> x in Delivered(all)
      ensures push.reply.Ok? || push.reply.Refused? ==> x in Settled(all)
    {
      assert all[|pushes|] == push;
    }
  }

  lemma PushingTheFront(pushes: seq<Push<nat>>, live: seq<nat>, push: Push<nat>)
    requires Ordered(pushes, live) && push.rows <= live && AllIncreasing(pushes)
    ensures Ordered(pushes + [push], live) && AllIncreasing(pushes + [push])
  {
    var seen := Delivered(pushes);
    var rest := live[|push.rows|..];
    assert live == push.rows + rest;
    IncreasingConcat(push.rows, rest);
    UnseenIsOrdered(push.rows, seen);
    FirstDeliveriesAreDelivered(pushes);
    IncreasingConcat(FirstDeliveries(pushes), Unseen(push.rows, seen));
    DeliveredGrows(pushes, push);
    assert Butlast(pushes + [push]) == pushes;
  }

  lemma HoldingLess(pushes: seq<Push<nat>>, live: seq<nat>, less: seq<nat>)
    requires Ordered(pushes, live) && Increasing(less) && Elements(less) <= Elements(live)
    ensures Ordered(pushes, less)
  {
    assert forall x :: x in less ==> x in Elements(less);
  }

  ghost predicate AllIncreasing(pushes: seq<Push<nat>>) {
    forall i :: 0 <= i < |pushes| ==> Increasing(pushes[i].rows)
  }

  /** A drain keeps the order, and takes nothing off the disk that a push did not settle. */
  lemma {:induction false} DrainIsSafe(lines: seq<Line<nat>>, script: seq<Reply>, pushes: seq<Push<nat>>,
                                       tail: seq<nat>)
    requires Ordered(pushes, Items(lines) + tail) && AllIncreasing(pushes)
    ensures var d := Drain(lines, script);
            && Ordered(pushes + d.pushes, Items(d.lines) + tail) && AllIncreasing(pushes + d.pushes)
            && Elements(Items(d.lines)) <= Elements(Items(lines)) <= Elements(Items(d.lines)) + Settled(d.pushes)
            && (d.outcome.Emptied? ==> Items(d.lines) == [])
    decreases |lines|
  {
    hide Drain, Ordered, Settled, Items, AllIncreasing, Elements;
    DrainUnfolds(lines, script);
    var chunk := Take(Items(lines), DRAIN_CHUNK);
    if Jammed(lines, DRAIN_CHUNK) || chunk == [] {
      assert pushes + [] == pushes;
      ElementsOfParts([], Items(lines), []);
      assert [] + Items(lines) == Items(lines);
    } else {
      var push := Push(chunk, Next(script));
      assert push.rows <= Items(lines) + tail;
      PushingTheFront(pushes, Items(lines) + tail, push);
      if push.reply.Ok? || push.reply.Refused? {
        CommitIsSafe(lines, pushes + [push], tail, push);
        var rest, script' := lines[|chunk|..], script[if script == [] then 0 else 1..];
        DrainIsSafe(rest, script', pushes + [push], tail);
        var d := Drain(rest, script');
        assert pushes + ([push] + d.pushes) == pushes + [push] + d.pushes;
        SettledJoins([push], d.pushes);
      }
    }
  }

  /** Committing a settled chunk leaves the rest in order, and gives up only rows of that chunk. */
  lemma CommitIsSafe(lines: seq<Line<nat>>, pushes: seq<Push<nat>>, tail: seq<nat>, push: Push<nat>)
    requires Ordered(pushes, Items(lines) + tail) && push.rows == Take(Items(lines), DRAIN_CHUNK)
    requires push.reply.Ok? || push.reply.Refused?
    ensures |push.rows| <= |lines|
    ensures var rest := lines[|push.rows|..];
            && Ordered(pushes, Items(rest) + tail)
            && Elements(Items(rest)) <= Elements(Items(lines)) <= Elements(Items(rest)) + Settled([push])
  {
    hide *;
    CommitRemovesOnlyThePushed(lines, DRAIN_CHUNK);
    var gone, rest := Items(lines[..|push.rows|]), Items(lines[|push.rows|..]);
    DropTheFront(pushes, gone, rest, tail);
    SettledByOne(push);
    ElementsOfParts(gone, rest, push.rows);
  }

  lemma DropTheFront(pushes: seq<Push<nat>>, gone: seq<nat>, rest: seq<nat>, tail: seq<nat>)
    requires Ordered(pushes, gone + rest + tail)
    ensures Ordered(pushes, rest + tail)
  {
    hide Ordered;
    assert gone + rest + tail == [] + gone + (rest + tail) && [] + (rest + tail) == rest + tail;
    DropBatch(pushes, [], gone, rest + tail);
  }

  lemma ElementsOfParts(gone: seq<nat>, rest: seq<nat>, pushed: seq<nat>)
    requires gone <= pushed
    ensures Elements(rest) <= Elements(gone + rest) <= Elements(rest) + Elements(pushed)
  {
    assert forall x :: x in gone ==> x in pushed;
  }

  lemma SettledByOne(push: Push<nat>)
    ensures push.reply.Ok? || push.reply.Refused? ==> Settled([push]) == Elements(push.rows)
  {
    DeliveredGrows([], push);
    assert [] + [push] == [push];
  }

  lemma SettledJoins(a: seq<Push<nat>>, b: seq<Push<nat>>)
    ensures Settled(a + b) == Settled(a) + Settled(b)
  {
    var all := a + b;
    assert forall i :: 0 <= i < |a| ==> all[i] == a[i];
    assert forall i :: 0 <= i < |b| ==> all[|a| + i] == b[i];
    forall x | x in Settled(a) + Settled(b) ensures x in Settled(all) {
      if x in Settled(a) {
        var i :| 0 <= i < |a| && (a[i].reply.Ok? || a[i].reply.Refused?) && x in a[i].rows;
        assert all[i] == a[i];
      } else {
        var i :| 0 <= i < |b| && (b[i].reply.Ok? || b[i].reply.Refused?) && x in b[i].rows;
        assert all[|a| + i] == b[i];
      }
    }
  }

  lemma DeliveredJoins(a: seq<Push<nat>>, b: seq<Push<nat>>)
    ensures Delivered(a + b) == Delivered(a) + Delivered(b)
    decreases |b|
  {
    if b == [] {
      assert a + b == a;
    } else {
      DeliveredJoins(a, Butlast(b));
      DeliveredGrows(a + Butlast(b), Last(b));
      DeliveredGrows(Butlast(b), Last(b));
      assert a + Butlast(b) + [Last(b)] == a + b && Butlast(b) + [Last(b)] == b;
    }
  }

  ghost predicate PushesOnly(pushes: seq<Push<nat>>, held: set<nat>) {
    forall i :: 0 <= i < |pushes| ==> Elements(pushes[i].rows) <= held
  }

  lemma {:induction false} DrainPushesTheBacklog(lines: seq<Line<nat>>, script: seq<Reply>)
    ensures PushesOnly(Drain(lines, script).pushes, Elements(Items(lines)))
    decreases |lines|
  {
    hide Drain;
    DrainUnfolds(lines, script);
    var chunk := Take(Items(lines), DRAIN_CHUNK);
    if !Jammed(lines, DRAIN_CHUNK) && chunk != [] && (Next(script).Ok? || Next(script).Refused?) {
      CommitRemovesOnlyThePushed(lines, DRAIN_CHUNK);
      DrainPushesTheBacklog(lines[|chunk|..], script[if script == [] then 0 else 1..]);
    }
  }

  lemma PushesOnlyBounds(pushes: seq<Push<nat>>, held: set<nat>)
    requires PushesOnly(pushes, held)
    ensures Delivered(pushes) <= held && Settled(pushes) <= held
  {
    forall i, x | 0 <= i < |pushes| && x in pushes[i].rows ensures x in held {
      assert x in Elements(pushes[i].rows);
    }
  }

  /** Whatever a flush delivers, settles or prunes, it held before. */
  lemma FlushTouchesOnlyTheHeld(c: Client<nat>, script: seq<Reply>, during: seq<nat>, env: Env)
    ensures var held, pushes := Elements(Items(c.lines) + c.pending), Flush(c, script, during, env).pushes;
            Delivered(pushes) <= held && Settled(pushes) <= held && PrunedByFlush(c, script, env) <= held
            && Elements(Flush(c, script, during, env).lost) <= held
  {
    hide Drain, Delivered, Settled, Items;
    DrainPushesTheBacklog(c.lines, script);
    DrainKeepsNothingNew(c.lines, script);
    var held, pushes := Elements(Items(c.lines) + c.pending), Flush(c, script, during, env).pushes;
    OutAndUnwritten(c.pending, env);
    assert Elements(c.pending) <= held && Elements(Items(c.lines)) <= held;
    PushesOnlyBounds(pushes, held);
    var left := Items(Drain(c.lines, script).lines);
    assert Elements(left + c.pending) == Elements(left) + Elements(c.pending);
  }

  lemma {:induction false} DrainKeepsNothingNew(lines: seq<Line<nat>>, script: seq<Reply>)
    ensures Elements(Items(Drain(lines, script).lines)) <= Elements(Items(lines))
    decreases |lines|
  {
    hide Drain;
    DrainUnfolds(lines, script);
    var chunk := Take(Items(lines), DRAIN_CHUNK);
    if !Jammed(lines, DRAIN_CHUNK) && chunk != [] && (Next(script).Ok? || Next(script).Refused?) {
      CommitRemovesOnlyThePushed(lines, DRAIN_CHUNK);
      DrainKeepsNothingNew(lines[|chunk|..], script[if script == [] then 0 else 1..]);
    }
  }

  // --- Spilling and pruning -----------------------------------------------------------------------

  lemma {:induction false} SurvivorsAreThinner(lines: seq<Line<nat>>, cutoff: int)
    requires Increasing(Items(lines))
    ensures var kept := Items(Survivors(lines, cutoff)); Increasing(kept) && Elements(kept) <= Elements(Items(lines))
  {
    if lines != [] {
      var head, rest := lines[0], lines[1..];
      ItemsConcat([head], rest);
      assert lines == [head] + rest;
      IncreasingConcat(Items([head]), Items(rest));
      SurvivorsAreThinner(rest, cutoff);
      var kept := Survivors(rest, cutoff);
      assert forall x :: x in Items(kept) ==> x in Elements(Items(kept));
      if Current(head, cutoff) {
        ItemsConcat([head], kept);
        IncreasingConcat(Items([head]), Items(kept));
      }
    }
  }

  /** What an append gets out, and what it does not. */
  lemma OutAndUnwritten(items: seq<nat>, env: Env)
    ensures Items(Out(items, env.now, env.disk)) + Unwritten(items, env) == items
    ensures Elements(Unwritten(items, env)) <= Elements(items)
  {
    hide Items;
    var k := if env.disk.AppendFails? then |Take(items, env.disk.lines)| else |items|;
    assert Out(items, env.now, env.disk) == Stamped(items[..k], env.now);
    ItemsOfStamped(items[..k], env.now);
    assert Unwritten(items, env) == items[k..];
  }

  lemma SpillIsThinner(lines: seq<Line<nat>>, items: seq<nat>, env: Env)
    requires Increasing(Items(lines) + items)
    ensures var kept := Items(Spill(lines, items, env));
            Increasing(kept) && Elements(kept) <= Elements(Items(lines) + items)
  {
    hide Items, Survivors, Out, HasAlien, Unwritten;
    var out := Out(items, env.now, env.disk);
    var all := lines + out;
    ItemsConcat(lines, out);
    OutAndUnwritten(items, env);
    assert Items(lines) + items == Items(all) + Unwritten(items, env);
    IncreasingConcat(Items(all), Unwritten(items, env));
    assert Elements(Items(all)) <= Elements(Items(all) + Unwritten(items, env));
    SurvivorsAreThinner(all, env.later - env.maxAge);
    var kept := Survivors(all, env.later - env.maxAge);
    if 0 < env.maxRows < |kept| {
      var cut := |kept| - env.maxRows;
      assert kept == kept[..cut] + kept[cut..];
      ItemsConcat(kept[..cut], kept[cut..]);
      IncreasingConcat(Items(kept[..cut]), Items(kept[cut..]));
    }
  }

  /** Spilling between the disk and later rows leaves less, in the same order. */
  lemma SpillKeepsOrder(pushes: seq<Push<nat>>, lines: seq<Line<nat>>, items: seq<nat>, later: seq<nat>, env: Env)
    requires Ordered(pushes, Items(lines) + items + later)
    ensures Ordered(pushes, Items(Spill(lines, items, env)) + later)
    ensures Elements(Items(Spill(lines, items, env))) <= Elements(Items(lines) + items)
  {
    var all, kept := Items(lines) + items, Items(Spill(lines, items, env));
    IncreasingConcat(all, later);
    SpillIsThinner(lines, items, env);
    assert forall x :: x in kept ==> x in Elements(kept);
    IncreasingConcat(kept, later);
    HoldingLess(pushes, all + later, kept + later);
  }

  /**
   * Exactly which rows a prune gives up: those of lines too old or without a readable stamp, and, of the
   * others, those with a full cap of newer lines behind them; none at all when an alien line stops the
   * prune, or an error of the disk.
   */
  lemma SpillPrunesExactlyTheUnspared(lines: seq<Line<nat>>, items: seq<nat>, env: Env, i: nat)
    requires Increasing(Items(lines) + items)
    requires var all := lines + Out(items, env.now, env.disk); i < |all| && all[i].Item().Some?
    ensures var all := lines + Out(items, env.now, env.disk);
            all[i].Item().value in PrunedBySpill(lines, items, env) <==>
              env.disk.Works? && !HasAlien(all) && !Spared(all, i, env.later - env.maxAge, env.maxRows)
  {
    hide Out, Survivors, Items, HasAlien, Unwritten, Increasing;
    var out := Out(items, env.now, env.disk);
    var all := lines + out;
    ItemsConcat(lines, out);
    OutAndUnwritten(items, env);
    assert Items(lines) + items == Items(all) + Unwritten(items, env);
    IncreasingConcat(Items(all), Unwritten(items, env));
    assert all == all[..i] + [all[i]] + all[i + 1..];
    ItemsSplit(all[..i], all[i], all[i + 1..]);
    PruneKeepsExactlyTheSpared(all, i, env.later - env.maxAge, env.maxRows);
    NothingUnwritten(items, env);
    assert Elements(Items(all) + Unwritten(items, env)) == Elements(Items(all)) + Elements(Unwritten(items, env));
    hide PrunedUnlessAlien, Pruned;
    if !env.disk.Works? {
      assert Spill(lines, items, env) == all;
    }
  }

  lemma NothingUnwritten(items: seq<nat>, env: Env)
    ensures env.disk.Works? ==> Unwritten(items, env) == []
  {
  }

  lemma ItemsSplit(before: seq<Line<nat>>, line: Line<nat>, after: seq<Line<nat>>)
    requires line.Item().Some? && Increasing(Items(before + [line] + after))
    ensures var x := line.Item().value; x !in Items(before) && x !in Items(after) && x in Items(before + [line] + after)
  {
    hide Items, Increasing;
    ItemsOfSingle(line);
    ItemsConcat(before + [line], after);
    ItemsConcat(before, [line]);
    OnlyInTheMiddle(Items(before), line.Item().value, Items(after));
  }

  lemma OnlyInTheMiddle(a: seq<nat>, x: nat, b: seq<nat>)
    requires Increasing(a + [x] + b)
    ensures x !in a && x !in b && x in a + [x] + b
  {
    var s := a + [x] + b;
    assert s[|a|] == x;
    forall i | 0 <= i < |a| ensures a[i] != x {
      assert s[i] == a[i];
    }
    forall i | 0 <= i < |b| ensures b[i] != x {
      assert s[|a| + 1 + i] == b[i];
    }
  }

  /** `items` stand, whole and in order, at the end of `kept`. */
  predicate EndsWith(kept: seq<nat>, items: seq<nat>) {
    |items| <= |kept| && kept[|kept| - |items|..] == items
  }

  /** Whether a spill works out for the whole of its batch, by the disk, the clock and the cap. */
  ghost predicate SpillFits(lines: seq<Line<nat>>, items: seq<nat>, env: Env) {
    match env.disk
    case AppendFails(n) => |items| <= n
    case PruneFails => true
    case Works => Alien in lines || (env.later - env.now <= env.maxAge && (env.maxRows == 0 || |items| <= env.maxRows))
  }

  /**
   * When a spilled batch is on disk whole. If the append got it out, and the prune behind it failed, or an
   * alien line stopped it, or it found the batch young enough and within the cap: then the batch is at the
   * end of the file, and otherwise it is not. Of a batch larger than the cap the newest rows are kept.
   */
  lemma ASpilledBatchIsKeptExactlyWhenItFits(lines: seq<Line<nat>>, items: seq<nat>, env: Env)
    requires items != [] && Increasing(Items(lines) + items)
    ensures EndsWith(Items(Spill(lines, items, env)), items) <==> SpillFits(lines, items, env)
    ensures env.disk.Works? && Alien !in lines && env.later - env.now <= env.maxAge && 0 < env.maxRows <= |items| ==>
              Items(Spill(lines, items, env)) == items[|items| - env.maxRows..]
    ensures env.disk.AppendFails? ==> Items(Spill(lines, items, env)) == Items(lines) + Take(items, env.disk.lines)
  {
    hide Items, Spill, Pruned, Take, Increasing, EndsWith, Stamped;
    SpillByTheDisk(lines, items, env);
    match env.disk
    case AppendFails(n) => CutOffIsNotTheEnd(Items(lines), items, n);
    case PruneFails => WholeIsTheEnd(Items(lines), items);
    case Works =>
      WholeIsTheEnd(Items(lines), items);
      PrunedBatch(lines, items, env.now, env.later - env.maxAge, env.maxRows);
  }

  /** What the disk makes of a spill. */
  lemma SpillByTheDisk(lines: seq<Line<nat>>, items: seq<nat>, env: Env)
    ensures Items(Spill(lines, items, env))
            == match env.disk
               case AppendFails(n) => Items(lines) + Take(items, n)
               case PruneFails => Items(lines) + items
               case Works =>
                 if Alien in lines then Items(lines) + items
                 else Items(Pruned(lines + Stamped(items, env.now), env.later - env.maxAge, env.maxRows))
  {
    hide Items, Pruned;
    ItemsConcat(lines, Out(items, env.now, env.disk));
    ItemsOfStamped(items, env.now);
    if env.disk.AppendFails? {
      StampedPrefix(items, env.now, |Take(items, env.disk.lines)|);
    } else {
      AliensAreOld(lines, items, env);
    }
  }

  lemma WholeIsTheEnd(held: seq<nat>, items: seq<nat>)
    ensures EndsWith(held + items, items)
  {
  }

  lemma AliensAreOld(lines: seq<Line<nat>>, items: seq<nat>, env: Env)
    ensures Alien in lines + Out(items, env.now, env.disk) <==> Alien in lines
  {
  }

  lemma StampedPrefix(items: seq<nat>, now: int, n: nat)
    requires n <= |items|
    ensures Items(Stamped(items, now)[..n]) == items[..n]
  {
    assert Stamped(items, now)[..n] == Stamped(items[..n], now);
    ItemsOfStamped(items[..n], now);
  }

  lemma CutOffIsNotTheEnd(held: seq<nat>, items: seq<nat>, n: nat)
    requires Increasing(held + items) && items != []
    ensures EndsWith(held + Take(items, n), items) <==> |items| <= n
  {
    var kept := held + Take(items, n);
    if |items| <= n {
      assert kept[|kept| - |items|..] == items;
    } else if |items| <= |kept| {
      assert (held + items)[|kept| - 1] == kept[|kept| - 1];
      assert (held + items)[|held| + |items| - 1] == items[|items| - 1];
      assert kept[|kept| - |items|..][|items| - 1] != items[|items| - 1];
    }
  }

  /** What a prune that works leaves of a file and a batch appended to it. */
  lemma PrunedBatch(lines: seq<Line<nat>>, items: seq<nat>, now: int, cutoff: int, maxRows: nat)
    requires items != [] && Increasing(Items(lines) + items)
    ensures var kept := Items(Pruned(lines + Stamped(items, now), cutoff, maxRows));
            && (EndsWith(kept, items) <==> cutoff <= now && (maxRows == 0 || |items| <= maxRows))
            && (cutoff <= now && 0 < maxRows <= |items| ==> kept == items[|items| - maxRows..])
  {
    hide Items, Survivors, Increasing;
    var batch := Stamped(items, now);
    SurvivorsConcat(lines, batch, cutoff);
    StampedSurvive(items, now, cutoff);
    var older := Survivors(lines, cutoff);
    ItemsOfStamped(items, now);
    if cutoff <= now {
      ItemsConcat(older, batch);
      if 0 < maxRows {
        SuffixOfConcat(older, batch, maxRows);
        if |items| < maxRows {
          ItemsConcat(LastN(older, maxRows - |items|), batch);
        } else {
          assert LastN(batch, maxRows) == Stamped(items[|items| - maxRows..], now);
          ItemsOfStamped(items[|items| - maxRows..], now);
        }
      }
    } else {
      SurvivorsWereThere(lines, cutoff);
      SuffixItems(older, maxRows);
      assert older + [] == older;
      hide LastN;
      NotAmongTheOld(Items(lines), items, Items(Pruned(lines + batch, cutoff, maxRows)));
    }
  }

  lemma NotAmongTheOld(held: seq<nat>, items: seq<nat>, kept: seq<nat>)
    requires Increasing(held + items) && items != [] && forall x :: x in kept ==> x in held
    ensures !EndsWith(kept, items)
  {
    IncreasingConcat(held, items);
    if |items| <= |kept| {
      assert kept[|kept| - 1] in held && items[|items| - 1] in items;
      assert kept[|kept| - |items|..][|items| - 1] != items[|items| - 1];
    }
  }

  lemma {:induction false} StampedSurvive(items: seq<nat>, now: int, cutoff: int)
    ensures Survivors(Stamped(items, now), cutoff) == if cutoff <= now then Stamped(items, now) else []
  {
    if items != [] {
      assert Stamped(items, now)[1..] == Stamped(items[1..], now);
      StampedSurvive(items[1..], now, cutoff);
    }
  }

  // --- Whole runs ---------------------------------------------------------------------------------

  /** One flush keeps the order. */
  lemma FlushIsOrdered(c: Client<nat>, script: seq<Reply>, during: seq<nat>, env: Env, pushes: seq<Push<nat>>)
    requires Ordered(pushes, Items(c.lines) + c.pending + during) && AllIncreasing(pushes)
    ensures var f := Flush(c, script, during, env);
            Ordered(pushes + f.pushes, Items(f.client.lines) + during) && AllIncreasing(pushes + f.pushes)
  {
    hide Drain, Items, Spill, Ordered, Settled;
    var d, batch := Drain(c.lines, script), c.pending;
    assert Items(c.lines) + batch + during == Items(c.lines) + (batch + during);
    DrainIsSafe(c.lines, script, pushes, batch + during);
    var live, sent := Items(d.lines) + batch + during, pushes + d.pushes;
    assert Items(d.lines) + (batch + during) == live;
    if d.outcome.Crashed? || batch == [] {
      DropBatch(sent, Items(d.lines), batch, during);
    } else if d.outcome.Unreachable? {
      SpillKeepsOrder(sent, d.lines, batch, during, env);
    } else {
      var push := Push(batch, Next(d.script));
      assert push.rows <= live;
      PushingTheFront(sent, live, push);
      assert sent + [push] == pushes + (d.pushes + [push]);
      if push.reply.Retryable? {
        SpillKeepsOrder(sent + [push], d.lines, batch, during, env);
      } else {
        DropBatch(sent + [push], Items(d.lines), batch, during);
      }
    }
  }

  /** What a flush no longer holds was settled, pruned, or in the batch of a crash. */
  lemma FlushAccounts(c: Client<nat>, script: seq<Reply>, during: seq<nat>, env: Env, pushes: seq<Push<nat>>)
    requires Ordered(pushes, Items(c.lines) + c.pending + during) && AllIncreasing(pushes)
    ensures var f := Flush(c, script, during, env);
            Elements(Items(f.client.lines)) <= Elements(Items(c.lines) + c.pending)
            <= Elements(Items(f.client.lines)) + Settled(f.pushes) + PrunedByFlush(c, script, env)
               + Elements(f.lost)
  {
    hide Drain, Items, Spill, Ordered, Settled, AllIncreasing, Delivered;
    var d, batch := Drain(c.lines, script), c.pending;
    assert Items(c.lines) + batch + during == Items(c.lines) + (batch + during);
    DrainIsSafe(c.lines, script, pushes, batch + during);
    assert Items(d.lines) + (batch + during) == Items(d.lines) + batch + during;
    assert Elements(Items(d.lines) + batch) == Elements(Items(d.lines)) + Elements(batch);
    assert Elements(Items(c.lines) + batch) == Elements(Items(c.lines)) + Elements(batch);
    if batch != [] && !d.outcome.Crashed? {
      SpillKeepsOrder(pushes + d.pushes, d.lines, batch, during, env);
      DeliveredGrows(d.pushes, Push(batch, Next(d.script)));
    }
  }

  lemma DropBatch(pushes: seq<Push<nat>>, disk: seq<nat>, batch: seq<nat>, later: seq<nat>)
    requires Ordered(pushes, disk + batch + later)
    ensures Ordered(pushes, disk + later)
  {
    IncreasingConcat(disk + batch, later);
    IncreasingConcat(disk, batch);
    assert forall x :: x in disk ==> x in disk + batch;
    IncreasingConcat(disk, later);
    HoldingLess(pushes, disk + batch + later, disk + later);
  }

  /** Where a captured row can be: held, settled by a push, or lost in one of the three ways there are. */
  function Fates(w: World): set<nat> {
    Elements(w.Live()) + Settled(w.pushes) + w.pruned + w.damaged + w.crashed
  }

  ghost predicate Inv(w: World) {
    && Ordered(w.pushes, w.Live()) && AllIncreasing(w.pushes)
    && Delivered(w.pushes) <= Fates(w)
    && (forall x: nat :: x in Fates(w) <==> x < w.captured)
  }

  lemma CapturingKeepsOrder(pushes: seq<Push<nat>>, live: seq<nat>, captured: nat, n: nat)
    requires Ordered(pushes, live)
    requires forall x :: x in live || x in Delivered(pushes) ==> x < captured
    ensures Ordered(pushes, live + Fresh(captured, n))
  {
    IncreasingConcat(live, Fresh(captured, n));
  }

  lemma HeldAndDeliveredWereCaptured(w: World)
    requires Inv(w)
    ensures forall x :: x in w.Live() || x in Delivered(w.pushes) ==> x < w.captured
  {
    hide Ordered, AllIncreasing, Delivered, Settled;
    assert forall x :: x in w.Live() ==> x in Elements(w.Live());
  }

  lemma FlushKeepsFates(w: World, op: Op)
    requires Inv(w) && op.DoFlush?
    ensures Fates(w) + Elements(Fresh(w.captured, op.during)) == Fates(Step(w, op))
  {
    hide Items, PrunedByFlush, Settled, Delivered, Drain, AllIncreasing, Spill;
    var newer := Fresh(w.captured, op.during);
    var f := Flush(w.client, op.script, newer, op.env);
    assert f.client.pending == newer;
    HeldAndDeliveredWereCaptured(w);
    CapturingKeepsOrder(w.pushes, w.Live(), w.captured, op.during);
    hide Flush, Items, PrunedByFlush, Ordered, Settled, Delivered, Drain, AllIncreasing, Inv;
    FlushAccounts(w.client, op.script, newer, op.env, w.pushes);
    FlushTouchesOnlyTheHeld(w.client, op.script, newer, op.env);
    SettledJoins(w.pushes, f.pushes);
    var lines := Items(f.client.lines);
    assert Elements(lines + newer) == Elements(lines) + Elements(newer);
    assert Elements(w.client.pending) <= Elements(w.Live());
  }

  lemma FlushKeepsOrder(w: World, op: Op)
    requires Inv(w) && op.DoFlush?
    ensures var w' := Step(w, op); Ordered(w'.pushes, w'.Live()) && AllIncreasing(w'.pushes)
    ensures Delivered(Step(w, op).pushes) <= Delivered(w.pushes) + Elements(w.Live())
  {
    var newer := Fresh(w.captured, op.during);
    var f := Flush(w.client, op.script, newer, op.env);
    assert f.client.pending == newer;
    HeldAndDeliveredWereCaptured(w);
    CapturingKeepsOrder(w.pushes, w.Live(), w.captured, op.during);
    hide Flush, Items, PrunedByFlush, Ordered, Settled, Delivered, Drain, AllIncreasing, Inv;
    FlushIsOrdered(w.client, op.script, newer, op.env, w.pushes);
    FlushTouchesOnlyTheHeld(w.client, op.script, newer, op.env);
    DeliveredJoins(w.pushes, f.pushes);
  }

  /** The bookkeeping common to all steps: `n` new rows, nothing forgotten, nothing invented. */
  lemma KeepsInv(w: World, w': World, n: nat)
    requires Inv(w) && w'.captured == w.captured + n
    requires Ordered(w'.pushes, w'.Live()) && AllIncreasing(w'.pushes)
    requires Delivered(w'.pushes) <= Delivered(w.pushes) + Elements(w.Live())
    requires Fates(w') == Fates(w) + Elements(Fresh(w.captured, n))
    ensures Inv(w')
  {
    assert Elements(w.Live()) <= Fates(w);
    hide Ordered, Delivered, AllIncreasing, Fates, Settled;
    assert forall x: nat :: x in Elements(Fresh(w.captured, n)) <==> w.captured <= x < w'.captured;
  }

  lemma FlushKeepsInv(w: World, op: Op)
    requires Inv(w) && op.DoFlush?
    ensures Inv(Step(w, op))
  {
    FlushKeepsOrder(w, op);
    FlushKeepsFates(w, op);
    KeepsInv(w, Step(w, op), op.during);
  }

  lemma CaptureKeepsInv(w: World, n: nat)
    requires Inv(w)
    ensures Inv(Step(w, Capture(n)))
  {
    var w', newer := Step(w, Capture(n)), Fresh(w.captured, n);
    HeldAndDeliveredWereCaptured(w);
    CapturingKeepsOrder(w.pushes, w.Live(), w.captured, n);
    assert w'.Live() == w.Live() + newer;
    assert Elements(w'.Live()) == Elements(w.Live()) + Elements(newer);
    KeepsInv(w, w', n);
  }

  lemma KillKeepsInv(w: World)
    requires Inv(w)
    ensures Inv(Step(w, Kill))
  {
    var w' := Step(w, Kill);
    assert w.Live() + [] == w.Live() && w'.Live() == Items(w.client.lines) && w'.Live() + [] == w'.Live();
    hide Ordered, Items, Settled, Delivered, AllIncreasing;
    DropBatch(w.pushes, Items(w.client.lines), w.client.pending, []);
    assert Elements(w.Live()) == Elements(w'.Live()) + Elements(w.client.pending);
    KeepsInv(w, w', 0);
  }

  /** A stop spills what is pending; with nothing pending it changes neither disk nor accounts. */
  lemma StopView(w: World, op: Op)
    requires op.DoStop?
    ensures var w' := Step(w, op);
            && w'.captured == w.captured && w'.pushes == w.pushes && w'.damaged == w.damaged && w'.client.pending == []
            && w'.client.lines == (if w.client.pending == [] then w.client.lines
                                   else Spill(w.client.lines, w.client.pending, op.env))
            && w'.pruned == w.pruned + (if w.client.pending == [] then {}
                                        else PrunedBySpill(w.client.lines, w.client.pending, op.env))
            && w'.crashed == w.crashed + Elements(Unwritten(w.client.pending, op.env))
  {
    hide Spill, PrunedBySpill, SpillRaises;
  }

  lemma StopKeepsInv(w: World, op: Op)
    requires Inv(w) && op.DoStop?
    ensures Inv(Step(w, op))
  {
    hide Inv, Spill, Step, Items, Ordered, AllIncreasing, Settled, Delivered, Unwritten;
    var w', lines, pending := Step(w, op), w.client.lines, w.client.pending;
    StopView(w, op);
    OutAndUnwritten(pending, op.env);
    var kept := Items(w'.client.lines);
    assert w'.Live() == kept && w.Live() + [] == w.Live() && kept + [] == kept;
    InvMeans(w);
    if pending == [] {
      assert w.Live() == kept;
    } else {
      SpillKeepsOrder(w.pushes, lines, pending, [], op.env);
      assert Elements(pending) <= Elements(Items(lines) + pending);
    }
    KeepsInv(w, w', 0);
  }

  lemma InvMeans(w: World)
    requires Inv(w)
    ensures Ordered(w.pushes, w.Live()) && AllIncreasing(w.pushes) && Delivered(w.pushes) <= Fates(w)
    ensures Delivered(w.pushes) <= Delivered(w.pushes) + Elements(w.Live())
  {
    hide Ordered, AllIncreasing, Delivered, Settled;
  }

  lemma ItemsAround(before: seq<Line<nat>>, hit: seq<Line<nat>>, after: seq<Line<nat>>, bad: Line<nat>)
    requires bad.Item().None?
    ensures Items(before + hit + after) == Items(before) + Items(hit) + Items(after)
    ensures Items(before + [bad] + after) == Items(before) + Items(after)
  {
    assert Items([bad]) == [];
    hide Items;
    ItemsConcat(before + hit, after);
    ItemsConcat(before, hit);
    ItemsConcat(before + [bad], after);
    ItemsConcat(before, [bad]);
  }

  lemma LosingTheHit(w: World, w': World, before: seq<nat>, hit: seq<nat>, rest: seq<nat>)
    requires Inv(w) && w.Live() == before + hit + rest && w'.Live() == before + rest
    requires w'.captured == w.captured && w'.pushes == w.pushes
    requires w'.pruned == w.pruned && w'.crashed == w.crashed && w'.damaged == w.damaged + Elements(hit)
    ensures Inv(w')
  {
    DropBatch(w.pushes, before, hit, rest);
    assert Elements(w.Live()) == Elements(w'.Live()) + Elements(hit);
    KeepsInv(w, w', 0);
  }

  lemma DamageKeepsInv(w: World, op: Op)
    requires Inv(w) && (op.Damage? || op.Noise?)
    ensures Inv(Step(w, op))
  {
    hide Inv, Items, Flush, Stop, PrunedByFlush, PrunedBySpill;
    var lines, w' := w.client.lines, Step(w, op);
    if w' != w {
      var before, after := lines[..op.i], lines[if op.Damage? then op.i + 1 else op.i..];
      var hit := if op.Damage? then [lines[op.i]] else [];
      assert lines == before + hit + after;
      assert w'.client.lines == before + [Broken(op.fault)] + after;
      ItemsAround(before, hit, after, Broken(op.fault));
      ItemsOfOne(hit);
      hide Step;
      var rest := Items(after) + w.client.pending;
      assert w.Live() == Items(before) + Items(hit) + rest && w'.Live() == Items(before) + rest;
      LosingTheHit(w, w', Items(before), Items(hit), rest);
    }
  }

  lemma ItemsOfOne(hit: seq<Line<nat>>)
    requires |hit| <= 1
    ensures Elements(Items(hit)) == if hit != [] && hit[0].Item().Some? then {hit[0].Item().value} else {}
  {
  }

  lemma {:induction false} RunKeepsInv(ops: seq<Op>)
    ensures Inv(Run(ops))
  {
    if ops == [] {
      assert Start.Live() == [];
    } else {
      RunKeepsInv(Butlast(ops));
      var w, op := Run(Butlast(ops)), Last(ops);
      match op
      case Capture(n) => CaptureKeepsInv(w, n);
      case DoFlush(_, _, _) => FlushKeepsInv(w, op);
      case DoStop(_) => StopKeepsInv(w, op);
      case Kill => KillKeepsInv(w);
      case _ => DamageKeepsInv(w, op);
    }
  }

  /** In every run, every captured row is held, settled, or lost in one of the three accounted ways. */
  lemma NoRowIsForgotten(ops: seq<Op>, x: nat)
    ensures var w := Run(ops);
            x < w.captured <==>
              x in w.Live() || x in Settled(w.pushes) || x in w.pruned || x in w.damaged || x in w.crashed
  {
    RunKeepsInv(ops);
    var w := Run(ops);
    hide Run, Ordered, AllIncreasing, Delivered, Settled;
    assert x in Fates(w) <==> x < w.captured;
    assert x in w.Live() <==> x in Elements(w.Live());
  }

  /** In every run, rows reach the server for the first time in the order they were captured. */
  lemma DeliveriesFollowCaptureOrder(ops: seq<Op>)
    ensures var pushes := Run(ops).pushes;
            && Increasing(FirstDeliveries(pushes))
            && (forall x :: x in FirstDeliveries(pushes) <==> x in Delivered(pushes))
            && Increasing(Run(ops).Live())
  {
    RunKeepsInv(ops);
    FirstDeliveriesAreDelivered(Run(ops).pushes);
  }

  /**
   * What a flush loses of its batch. All of it, if its last push raises anything but an API error, or its
   * drain comes to a stretch of the file where an alien line stands in front of the last row of the next
   * chunk. What an append did not get out, if the server is unreachable and the append fails. Otherwise
   * nothing. And these are exactly the rows that are then neither held, nor settled, nor pruned.
   */
  lemma OnlyExceptionsLoseTheBatch(ops: seq<Op>, flush: Op, x: nat)
    requires flush.DoFlush? && x in Run(ops).client.pending
    ensures var w, w' := Run(ops), Step(Run(ops), flush);
            var f := Flush(w.client, flush.script, Fresh(w.captured, flush.during), flush.env);
            && f.lost == LostBy(w.client, flush.script, flush.env, f.pushes)
            && (x in f.lost <==>
                  !(x in w'.Live() || x in Settled(f.pushes) || x in PrunedByFlush(w.client, flush.script, flush.env)))
  {
    hide *;
    RunKeepsInv(ops);
    var w := Run(ops);
    var newer := Fresh(w.captured, flush.during);
    PendingIsApart(w, flush.during);
    FlushLoses(w.client, flush.script, newer, flush.env);
    StepIsFlush(w, flush);
    PendingIsAccounted(w.client, flush.script, newer, flush.env, w.pushes, x);
    if x in Flush(w.client, flush.script, newer, flush.env).lost {
      LostIsGone(w.client, flush.script, newer, flush.env, x);
    }
  }

  /** The rows of the batch that a flush loses, by how its pushes went. */
  ghost function LostBy(c: Client<nat>, script: seq<Reply>, env: Env, pushes: seq<Push<nat>>): seq<nat> {
    if (pushes != [] && Last(pushes).reply.Raised?) || Jammed(Drain(c.lines, script).lines, DRAIN_CHUNK) then c.pending
    else if pushes != [] && Last(pushes).reply.Retryable? then Unwritten(c.pending, env)
    else []
  }

  lemma StepIsFlush(w: World, flush: Op)
    requires flush.DoFlush?
    ensures var f := Flush(w.client, flush.script, Fresh(w.captured, flush.during), flush.env);
            Step(w, flush).Live() == Items(f.client.lines) + f.client.pending && Step(w, flush).client == f.client
  {
    hide Flush;
  }

  /**
   * The online flag, which the user sees. It is up after a flush if the batch was pushed and accepted, or
   * it was up and the flush did not end with an unreachable server and all spilled; a backlog that goes
   * through does not bring it up, nor does a spill that raises bring it down.
   */
  lemma OnlineExactlyWhenTheBatchGotThrough(ops: seq<Op>, flush: Op)
    requires flush.DoFlush?
    ensures var w, w' := Run(ops), Step(Run(ops), flush);
            var pushes := Flush(w.client, flush.script, Fresh(w.captured, flush.during), flush.env).pushes;
            w'.client.online <==>
              || (pushes != [] && Last(pushes).reply.Ok? && Last(pushes).rows == w.client.pending)
              || (w.client.online
                  && !(pushes != [] && Last(pushes).reply.Retryable?
                       && (w.client.pending == [] || (flush.env.disk.Works? && Alien !in w'.client.lines))))
  {
    hide *;
    RunKeepsInv(ops);
    var w := Run(ops);
    var newer := Fresh(w.captured, flush.during);
    PendingIsApart(w, flush.during);
    FlushOnline(w.client, flush.script, newer, flush.env);
    StepIsFlush(w, flush);
  }

  lemma FlushOnline(c: Client<nat>, script: seq<Reply>, during: seq<nat>, env: Env)
    requires Increasing(Items(c.lines) + c.pending + during)
    ensures var f := Flush(c, script, during, env);
            f.client.online <==>
              || (f.pushes != [] && Last(f.pushes).reply.Ok? && Last(f.pushes).rows == c.pending)
              || (c.online
                  && !(f.pushes != [] && Last(f.pushes).reply.Retryable?
                       && (c.pending == [] || (env.disk.Works? && Alien !in f.client.lines))))
  {
    hide Drain, Jammed, Pruned, Out, Items, Increasing;
    DrainReply(c.lines, script);
    DrainPushesOther(c.lines, script, c.pending, during);
    var d := Drain(c.lines, script);
    AliensAreOld(d.lines, c.pending, env);
    PrunedHasNoAlien(d.lines + Out(c.pending, env.now, env.disk), env.later - env.maxAge, env.maxRows);
  }

  /** A drain never pushes the pending batch. */
  lemma DrainPushesOther(lines: seq<Line<nat>>, script: seq<Reply>, batch: seq<nat>, later: seq<nat>)
    requires Increasing(Items(lines) + batch + later)
    ensures forall i :: 0 <= i < |Drain(lines, script).pushes| ==> Drain(lines, script).pushes[i].rows != batch
  {
    hide Drain, Items, Increasing;
    DrainPushesTheBacklog(lines, script);
    DrainPushesRows(lines, script);
    ApartFromOthers(Items(lines), batch, later, batch, []);
    var pushes := Drain(lines, script).pushes;
    forall i | 0 <= i < |pushes| ensures pushes[i].rows != batch {
      assert pushes[i].rows[0] in Elements(pushes[i].rows);
    }
  }

  lemma {:induction false} DrainPushesRows(lines: seq<Line<nat>>, script: seq<Reply>)
    ensures forall i :: 0 <= i < |Drain(lines, script).pushes| ==> Drain(lines, script).pushes[i].rows != []
    decreases |lines|
  {
    hide Drain;
    DrainUnfolds(lines, script);
    var chunk := Take(Items(lines), DRAIN_CHUNK);
    if !Jammed(lines, DRAIN_CHUNK) && chunk != [] && (Next(script).Ok? || Next(script).Refused?) {
      DrainPushesRows(lines[|chunk|..], script[if script == [] then 0 else 1..]);
    }
  }

  lemma {:induction false} SurvivorsHaveStamps(lines: seq<Line<nat>>, cutoff: int)
    ensures Alien !in Survivors(lines, cutoff)
  {
    if lines != [] {
      SurvivorsHaveStamps(lines[1..], cutoff);
    }
  }

  lemma PrunedHasNoAlien(lines: seq<Line<nat>>, cutoff: int, maxRows: nat)
    ensures Alien !in Pruned(lines, cutoff, maxRows)
  {
    SurvivorsHaveStamps(lines, cutoff);
    hide Survivors;
  }

  /** Pending rows are held once, and in order behind the disk and in front of what is captured next. */
  lemma PendingIsApart(w: World, n: nat)
    requires Inv(w)
    ensures Ordered(w.pushes, Items(w.client.lines) + w.client.pending + Fresh(w.captured, n))
    ensures AllIncreasing(w.pushes)
    ensures Increasing(Items(w.client.lines) + w.client.pending + Fresh(w.captured, n))
  {
    HeldAndDeliveredWereCaptured(w);
    CapturingKeepsOrder(w.pushes, w.Live(), w.captured, n);
  }

  lemma PendingIsAccounted(c: Client<nat>, script: seq<Reply>, during: seq<nat>, env: Env, pushes: seq<Push<nat>>,
                           x: nat)
    requires Ordered(pushes, Items(c.lines) + c.pending + during) && AllIncreasing(pushes) && x in c.pending
    ensures var f := Flush(c, script, during, env);
            x in f.lost || x in Items(f.client.lines) + f.client.pending || x in Settled(f.pushes)
            || x in PrunedByFlush(c, script, env)
  {
    FlushAccounts(c, script, during, env, pushes);
    hide Flush, Items, Settled, PrunedByFlush, Ordered;
    assert x in Elements(Items(c.lines) + c.pending);
  }

  lemma FlushLoses(c: Client<nat>, script: seq<Reply>, during: seq<nat>, env: Env)
    ensures var f := Flush(c, script, during, env); f.lost == LostBy(c, script, env, f.pushes)
  {
    hide Drain, Jammed, Spill, SpillRaises;
    DrainReply(c.lines, script);
  }

  /** How a drain ends shows in its last reply, or in the line it stopped at. */
  lemma {:induction false} DrainReply(lines: seq<Line<nat>>, script: seq<Reply>)
    ensures var d := Drain(lines, script);
            && (d.outcome.Crashed? <==>
                 (d.pushes != [] && Last(d.pushes).reply.Raised?) || Jammed(d.lines, DRAIN_CHUNK))
            && (d.outcome.Unreachable? <==> d.pushes != [] && Last(d.pushes).reply.Retryable?)
            && (d.pushes != [] && !Last(d.pushes).reply.Ok? && !Last(d.pushes).reply.Refused? ==>
                 !Jammed(d.lines, DRAIN_CHUNK))
    decreases |lines|
  {
    hide Drain, Jammed;
    DrainUnfolds(lines, script);
    var chunk := Take(Items(lines), DRAIN_CHUNK);
    if !Jammed(lines, DRAIN_CHUNK) && chunk != [] && (Next(script).Ok? || Next(script).Refused?) {
      DrainReply(lines[|chunk|..], script[if script == [] then 0 else 1..]);
    }
  }

  /** A lost row is nowhere: held rows are held once, and only pushes of the backlog were settled. */
  lemma LostIsGone(c: Client<nat>, script: seq<Reply>, during: seq<nat>, env: Env, x: nat)
    requires Increasing(Items(c.lines) + c.pending + during)
    requires x in Flush(c, script, during, env).lost
    ensures var f := Flush(c, script, during, env);
            x !in Items(f.client.lines) + f.client.pending && x !in Settled(f.pushes)
            && x !in PrunedByFlush(c, script, env)
  {
    hide Drain, Settled, Items, Delivered, Increasing, Out, Unwritten, SpillRaises;
    var d, held := Drain(c.lines, script), Elements(Items(c.lines));
    var out := Out(c.pending, env.now, env.disk);
    OutAndUnwritten(c.pending, env);
    ApartFromOthers(Items(c.lines), c.pending, during, Items(out), Unwritten(c.pending, env));
    NothingUnwritten(c.pending, env);
    DrainKeepsNothingNew(c.lines, script);
    assert forall y :: y in Items(d.lines) ==> y in Elements(Items(d.lines));
    ItemsConcat(d.lines, out);
    DrainPushesTheBacklog(c.lines, script);
    PushesOnlyBounds(d.pushes, held);
    DeliveredGrows(d.pushes, Push(c.pending, Next(d.script)));
    hide PushesOnly;
    assert x in c.pending ==> x !in held && x !in Items(d.lines) && x !in during;
    assert x in Unwritten(c.pending, env) ==> x in Elements(Unwritten(c.pending, env));
  }

  lemma ApartFromOthers(disk: seq<nat>, batch: seq<nat>, later: seq<nat>, out: seq<nat>, unwritten: seq<nat>)
    requires Increasing(disk + batch + later) && out + unwritten == batch
    ensures forall x :: x in batch ==> x !in disk && x !in later
    ensures forall x :: x in unwritten ==> x in batch && x !in out
  {
    IncreasingConcat(disk + batch, later);
    IncreasingConcat(disk, batch);
    IncreasingConcat(out, unwritten);
    assert forall x :: x in batch ==> x in disk + batch;
    assert forall x :: x in unwritten ==> x in out + unwritten;
  }

  /** A server that accepts everything empties the buffer in one drain, unless an alien line is in it. */
  lemma {:induction false} DrainEmpties<T>(lines: seq<Line<T>>, script: seq<Reply>)
    requires |lines| <= |script| && forall i :: 0 <= i < |script| ==> script[i].Ok?
    ensures var d := Drain(lines, script);
            && (d.outcome.Emptied? <==> !HasAlien(lines)) && (d.outcome.Crashed? <==> HasAlien(lines))
            && (!HasAlien(lines) ==> Items(d.lines) == []) && |script| <= |d.script| + |lines|
            && (forall i :: 0 <= i < |d.script| ==> d.script[i].Ok?)
            && (forall i :: 0 <= i < |d.pushes| ==> d.pushes[i].reply.Ok?)
    decreases |lines|
  {
    hide Drain, Items;
    DrainUnfolds(lines, script);
    var chunk := Take(Items(lines), DRAIN_CHUNK);
    JammedHasAlien(lines, DRAIN_CHUNK);
    if !Jammed(lines, DRAIN_CHUNK) && chunk != [] {
      CommitRemovesNoAlien(lines, DRAIN_CHUNK);
      assert lines == lines[..|chunk|] + lines[|chunk|..];
      assert HasAlien(lines) <==> HasAlien(lines[..|chunk|]) || HasAlien(lines[|chunk|..]);
      DrainEmpties(lines[|chunk|..], script[1..]);
    }
  }

  lemma GoodFlush(c: Client<nat>, script: seq<Reply>, during: seq<nat>, env: Env)
    requires |c.lines| < |script| && forall i :: 0 <= i < |script| ==> script[i].Ok?
    ensures var f := Flush(c, script, during, env);
            && (HasAlien(c.lines) ==> f.lost == c.pending)
            && (!HasAlien(c.lines) ==> f.lost == [] && Items(f.client.lines) == [])
            && f.client.pending == during
            && PrunedByFlush(c, script, env) == {}
            && forall i :: 0 <= i < |f.pushes| ==> f.pushes[i].reply.Ok?
  {
    hide Drain, HasAlien;
    DrainEmpties(c.lines, script);
  }

  /**
   * One flush that is answered throughout, over a file without an alien line, delivers and settles all
   * that was held; new captures wait.
   */
  lemma AGoodFlushSettlesEverything(ops: seq<Op>, flush: Op, x: nat)
    requires flush.DoFlush? && x in Run(ops).Live() && !HasAlien(Run(ops).client.lines)
    requires |Run(ops).client.lines| < |flush.script| && forall i :: 0 <= i < |flush.script| ==> flush.script[i].Ok?
    ensures var w := Run(ops);
            var f := Flush(w.client, flush.script, Fresh(w.captured, flush.during), flush.env);
            && x in Settled(f.pushes) && (forall i :: 0 <= i < |f.pushes| ==> f.pushes[i].reply.Ok?)
            && Step(w, flush).Live() == Fresh(w.captured, flush.during)
  {
    RunKeepsInv(ops);
    var w, newer := Run(ops), Fresh(Run(ops).captured, flush.during);
    HeldAndDeliveredWereCaptured(w);
    CapturingKeepsOrder(w.pushes, w.Live(), w.captured, flush.during);
    hide Run, Settled, Delivered, Ordered, Inv, AllIncreasing, Flush, PrunedByFlush, Items, HasAlien;
    FlushAccounts(w.client, flush.script, newer, flush.env, w.pushes);
    GoodFlush(w.client, flush.script, newer, flush.env);
    assert x in Elements(Items(w.client.lines) + w.client.pending);
    assert Step(w, flush).Live() == [] + newer;
  }

  /** The rows of the pushes that got a final answer, in order. */
  function SettledRows<T>(pushes: seq<Push<T>>): seq<T> {
    if pushes == [] then []
    else if Last(pushes).reply.Ok? || Last(pushes).reply.Refused? then SettledRows(Butlast(pushes)) + Last(pushes).rows
    else SettledRows(Butlast(pushes))
  }

  lemma {:induction false} SettledRowsJoin<T>(a: seq<Push<T>>, b: seq<Push<T>>)
    ensures SettledRows(a + b) == SettledRows(a) + SettledRows(b)
    decreases |b|
  {
    if b == [] {
      assert a + b == a;
    } else {
      assert Butlast(a + b) == a + Butlast(b);
      SettledRowsJoin(a, Butlast(b));
    }
  }

  lemma SettledRowsOfOne<T>(push: Push<T>)
    ensures SettledRows([push]) == if push.reply.Ok? || push.reply.Refused? then push.rows else []
  {
    assert Butlast([push]) == [];
  }

  /**
   * Over a file of readable rows a drain settles each row at most once, in file order, two thousand at a
   * time: what it settled and what it left are, one behind the other, what was there; and a push that did
   * not settle was of the oldest rows left.
   */
  lemma {:induction false} ADrainSettlesEachRowOnce<T>(lines: seq<Line<T>>, script: seq<Reply>)
    requires AllReadable(lines)
    ensures var d := Drain(lines, script);
            && SettledRows(d.pushes) + Items(d.lines) == Items(lines)
            && (forall i :: 0 <= i < |d.pushes| ==>
                 0 < |d.pushes[i].rows| <= 2000 && (i < |d.pushes| - 1 ==> |d.pushes[i].rows| == 2000))
            && (d.pushes != [] && !Last(d.pushes).reply.Ok? && !Last(d.pushes).reply.Refused? ==>
                  Last(d.pushes).rows == Take(Items(d.lines), 2000))
    decreases |lines|
  {
    hide Drain, Items, SettledRows;
    DrainUnfolds(lines, script);
    NothingSettled<T>();
    NoLines<T>();
    var chunk := Take(Items(lines), DRAIN_CHUNK);
    var reply := Next(script);
    if Jammed(lines, DRAIN_CHUNK) || chunk == [] {
      assert [] + Items(lines) == Items(lines);
    } else {
      var push, rest := Push(chunk, reply), lines[|chunk|..];
      SettledRowsOfOne(push);
      if reply.Ok? || reply.Refused? {
        CommitTakesTheWholeChunkExactlyWhenReadable(lines, DRAIN_CHUNK);
        CommitRemovesOnlyThePushed(lines, DRAIN_CHUNK);
        ReadableLinesAreRows(lines);
        ADrainSettlesEachRowOnce(rest, script[if script == [] then 0 else 1..]);
        var d := Drain(rest, script[if script == [] then 0 else 1..]);
        SettledRowsJoin([push], d.pushes);
        assert chunk + SettledRows(d.pushes) + Items(d.lines) == chunk + (SettledRows(d.pushes) + Items(d.lines));
        if d.pushes != [] {
          OnlyALargeBacklogGoesOn(rest, script[if script == [] then 0 else 1..]);
        }
      }
    }
  }

  lemma NothingSettled<T>()
    ensures SettledRows<T>([]) == []
  {
  }

  lemma NoLines<T>()
    ensures Items<T>([]) == []
  {
  }

  lemma OnlyALargeBacklogGoesOn<T>(lines: seq<Line<T>>, script: seq<Reply>)
    ensures Drain(lines, script).pushes != [] ==> Items(lines) != []
  {
    hide Drain;
    DrainUnfolds(lines, script);
  }

  // --- An alien line ------------------------------------------------------------------------------

  ghost function Continue(w: World, ops: seq<Op>): World {
    if ops == [] then w else Step(Continue(w, Butlast(ops)), Last(ops))
  }

  ghost predicate Untouched(ops: seq<Op>) {
    forall op :: op in ops ==> !op.Damage? && !op.Noise?
  }

  lemma SpillKeepsAliens(lines: seq<Line<nat>>, items: seq<nat>, env: Env)
    requires HasAlien(lines)
    ensures lines <= Spill(lines, items, env)
  {
  }

  lemma StepStaysJammed(w: World, op: Op)
    requires Jammed(w.client.lines, DRAIN_CHUNK) && !op.Damage? && !op.Noise?
    ensures w.client.lines <= Step(w, op).client.lines && Step(w, op).pushes == w.pushes
    ensures op.DoFlush? ==> w.crashed + Elements(w.client.pending) <= Step(w, op).crashed
  {
    JammedHasAlien(w.client.lines, DRAIN_CHUNK);
    match op
    case DoFlush(script, _, _) => DrainUnfolds(w.client.lines, script);
    case DoStop(env) =>
      if w.client.pending != [] {
        SpillKeepsAliens(w.client.lines, w.client.pending, env);
      }
    case _ =>
  }

  /**
   * An alien line that a drain comes to is never passed: whatever the server answers, from then on the
   * node pushes nothing, and every flush loses the rows pending at the time, until the file is mended.
   */
  lemma {:induction false} AnAlienLineSilencesTheNode(w: World, ops: seq<Op>)
    requires Jammed(w.client.lines, DRAIN_CHUNK) && Untouched(ops)
    ensures var w' := Continue(w, ops);
            && Jammed(w'.client.lines, DRAIN_CHUNK) && w'.pushes == w.pushes
            && (forall flush: Op :: flush.DoFlush? ==> Elements(w'.client.pending) <= Step(w', flush).crashed)
  {
    if ops != [] {
      AnAlienLineSilencesTheNode(w, Butlast(ops));
      var before := Continue(w, Butlast(ops));
      assert Last(ops) in ops && forall op :: op in Butlast(ops) ==> op in ops;
      StepStaysJammed(before, Last(ops));
      var lines := Continue(w, ops).client.lines;
      assert lines == before.client.lines + lines[|before.client.lines|..];
      StaysJammed(before.client.lines, lines[|before.client.lines|..], DRAIN_CHUNK);
    }
    hide Step, Jammed;
    forall flush: Op | flush.DoFlush?
      ensures Elements(Continue(w, ops).client.pending) <= Step(Continue(w, ops), flush).crashed
    {
      StepStaysJammed(Continue(w, ops), flush);
    }
  }

  // --- Stops, kills and faults --------------------------------------------------------------------

  /**
   * In every run: a kill leaves what is on disk and nothing else; a stop spills what is pending, which is
   * whole at the end of the file by the condition of a spill.
   */
  lemma AKillLeavesTheDiskAndAStopSpills(ops: seq<Op>, env: Env)
    ensures var w, killed, stopped := Run(ops), Run(ops + [Kill]), Run(ops + [DoStop(env)]);
            && killed.Live() == Items(w.client.lines) && killed.client.pending == stopped.client.pending == []
            && (w.client.pending == [] ==> stopped.Live() == w.Live())
            && (w.client.pending != [] ==>
                 (EndsWith(stopped.Live(), w.client.pending) <==> SpillFits(w.client.lines, w.client.pending, env)))
  {
    RunKeepsInv(ops);
    RunUnfolds(ops, Kill);
    RunUnfolds(ops, DoStop(env));
    var w := Run(ops);
    hide Run, Items, Spill, PrunedBySpill, SpillFits, Unwritten, EndsWith, Fates, Settled, Delivered;
    if w.client.pending != [] {
      ASpilledBatchIsKeptExactlyWhenItFits(w.client.lines, w.client.pending, env);
    }
    assert Items(Run(ops + [DoStop(env)]).client.lines) + [] == Items(Run(ops + [DoStop(env)]).client.lines);
    assert Items(w.client.lines) + [] == Items(w.client.lines);
  }

  /** In every run: a fault takes the row of its line and no other, and a line of noise takes none. */
  lemma AFaultTakesItsOwnRow(ops: seq<Op>, i: nat, fault: Fault)
    requires i < |Run(ops).client.lines|
    ensures var w, spoilt, noisy := Run(ops), Run(ops + [Damage(i, fault)]), Run(ops + [Noise(i, fault)]);
            && |spoilt.client.lines| == |w.client.lines| && |noisy.client.lines| == |w.client.lines| + 1
            && spoilt.client.lines[i].Item() == None && noisy.client.lines[i].Item() == None
            && (fault.NotAnObject? <==> spoilt.client.lines[i] == Alien) && noisy.Live() == w.Live()
            && forall x :: x in spoilt.Live() <==> x in w.Live() && w.client.lines[i].Item() != Some(x)
  {
    RunKeepsInv(ops);
    RunUnfolds(ops, Damage(i, fault));
    RunUnfolds(ops, Noise(i, fault));
    var w := Run(ops);
    hide Run, Items, Fates, Settled, Delivered;
    SpoiltLine(w.client.lines, w.client.pending, i, fault);
    NoisyLine(w.client.lines, i, fault);
  }

  lemma SpoiltLine(lines: seq<Line<nat>>, pending: seq<nat>, i: nat, fault: Fault)
    requires i < |lines| && Increasing(Items(lines) + pending)
    ensures forall x :: x in Items(lines[i := Broken(fault)]) + pending <==>
                          x in Items(lines) + pending && lines[i].Item() != Some(x)
  {
    var spoilt := lines[i := Broken(fault)];
    ItemsInPlace(lines, i);
    ItemsInPlace(spoilt, i);
    hide Items, Increasing;
    assert spoilt[..i] == lines[..i] && spoilt[i + 1..] == lines[i + 1..];
    match lines[i].Item()
    case None =>
    case Some(x) => TakenOut(Items(lines[..i]), x, Items(lines[i + 1..]), pending);
  }

  lemma TakenOut(a: seq<nat>, x: nat, b: seq<nat>, c: seq<nat>)
    requires Increasing(a + [x] + b + c)
    ensures x !in a + [] + b + c
  {
    hide Increasing;
    IncreasingConcat(a + [x] + b, c);
    IncreasingConcat(a + [x], b);
    IncreasingConcat(a, [x]);
    assert x in a + [x] && x in a + [x] + b && x in [x];
  }

  lemma NoiseIsNoRow(fault: Fault)
    ensures Items([Broken(fault)]) == []
  {
  }

  lemma NoisyLine(lines: seq<Line<nat>>, i: nat, fault: Fault)
    requires i <= |lines|
    ensures Items(lines[..i] + [Broken(fault)] + lines[i..]) == Items(lines)
  {
    hide *;
    NoiseIsNoRow(fault);
    BetweenTwo(lines[..i], [Broken(fault)], lines[i..]);
    assert lines[..i] + lines[i..] == lines;
  }

  lemma BetweenTwo(front: seq<Line<nat>>, noise: seq<Line<nat>>, back: seq<Line<nat>>)
    requires Items(noise) == []
    ensures Items(front + noise + back) == Items(front + back)
  {
    hide *;
    ItemsConcat(front + noise, back);
    ItemsConcat(front, noise);
    ItemsConcat(front, back);
    assert Items(front) + [] == Items(front);
  }

  lemma RunUnfolds(ops: seq<Op>, op: Op)
    ensures Run(ops + [op]) == Step(Run(ops), op)
  {
    hide Step;
    assert Butlast(ops + [op]) == ops;
  }
}
