/**
 * Who writes the hour files. Sample handlers run in the server's thread pool, and the survey worker is a
 * second process with a window and locks of its own. A writer remembers the keys of its electrical rows
 * under its process's dedupe lock; then, under its process's staging lock, it goes through their hour
 * files, and of each it looks whether it exists, opens it, and writes; then the same for its weather
 * rows. Each of these is a step, and steps of different writers interleave as the locks allow: none of
 * them spans the two locks, and no lock spans the two processes. An append may fail at any point, and a
 * process may be stopped.
 */
module ThreadedStaging {
  import opened Basics
  import opened Staging

  /** How far an append is with the file it is at; `isNew` is what the look found. */
  datatype Point = Ready | Looked(isNew: bool) | Opened(isNew: bool)

  /** `rows` have passed the dedupe and are not yet written; `more` says that the weather rows are still to come. */
  datatype Handler =
    | Arrived
    | Holding(rows: seq<Row>, more: bool)
    | Appending(rows: seq<Row>, more: bool, at: Point)
    | Midway
    | Done
    | Failed

  datatype Process = Api | Worker

  datatype Thread = Thread(process: Process, electrical: seq<Row>, weather: seq<Row>, handler: Handler)

  /**
   * `windows` are the keys each process has accepted since it last started; `accepted` every row that
   * ever passed a dedupe, `log` every row that was written, and `lost` those whose append failed or was
   * cut off, each in order.
   */
  datatype Server = Server(threads: seq<Thread>, windows: map<Process, seq<Key>>, accepted: seq<Row>,
                           files: Files, log: seq<Row>, lost: seq<Row>)

  const Empty := Server([], map[Api := [], Worker := []], [], map[], [], [])

  /** Fail: an exception ends a writer; of what it was writing, the first `lines` lines get out. */
  datatype Step =
    | Arrive(process: Process, electrical: seq<Row>, weather: seq<Row>)
    | Advance(thread: nat)
    | Fail(thread: nat, lines: nat)
    | Restart(process: Process)

  /** The rows a writer has passed through the dedupe and not yet written. */
  function InHand(h: Handler): seq<Row> {
    match h
    case Holding(rows, _) => rows
    case Appending(rows, _, _) => rows
    case _ => []
  }

  function WindowOf(s: Server, p: Process): seq<Key> {
    if p in s.windows then s.windows[p] else []
  }

  /** Whether some writer of the process has its staging lock. */
  predicate Busy(s: Server, p: Process) {
    exists i :: 0 <= i < |s.threads| && s.threads[i].process == p && s.threads[i].handler.Appending?
  }

  /** The file an append is at: the dict of buckets keeps the order of first rows. */
  function CurrentPath(rows: seq<Row>): Option<Path> {
    if rows == [] then None else PathOf(rows[0])
  }

  /** The rows of a batch that do not go to one file. */
  function Elsewhere(rows: seq<Row>, p: Path): seq<Row> {
    if rows == [] then []
    else if PathOf(Last(rows)) == Some(p) then Elsewhere(Butlast(rows), p)
    else Elsewhere(Butlast(rows), p) + [Last(rows)]
  }

  function After(more: bool): Handler {
    if more then Midway else Done
  }

  function With(s: Server, i: nat, h: Handler): Server
    requires i < |s.threads|
  {
    s.(threads := s.threads[i := s.threads[i].(handler := h)])
  }

  function Accept(s: Server, size: nat, i: nat, rows: seq<Row>, more: bool): Server
    requires i < |s.threads|
  {
    var p := s.threads[i].process;
    var u := Unique(WindowOf(s, p), size, rows);
    With(s, i, Holding(u, more)).(accepted := s.accepted + u, windows := s.windows[p := WindowOf(s, p) + Keys(u)])
  }

  function Drop(s: Server, i: nat, rows: seq<Row>): Server
    requires i < |s.threads|
  {
    With(s, i, Failed).(lost := s.lost + rows)
  }

  /** Lines at the end of a file; those that are rows have now been written. */
  function Put(s: Server, p: Path, lines: seq<CsvLine>): Server {
    s.(files := s.files[p := ContentOf(s.files, p) + lines], log := s.log + RowsIn(lines))
  }

  /** What is written to one file: a header if the look found none, then the batch's rows for that file. */
  function Block(rows: seq<Row>, p: Path, isNew: bool): seq<CsvLine> {
    (if isNew then [Header] else []) + Lines(Group(rows, p))
  }

  /** The locked part of an append, by one step. */
  function Write(s: Server, i: nat, rows: seq<Row>, more: bool, at: Point): Server
    requires i < |s.threads|
  {
    match CurrentPath(rows)
    case None => s
    case Some(p) =>
      match at
      case Ready => With(s, i, Appending(rows, more, Looked(p !in s.files)))
      case Looked(isNew) => With(Put(s, p, []), i, Appending(rows, more, Opened(isNew)))
      case Opened(isNew) =>
        var rest := Elsewhere(rows, p);
        With(Put(s, p, Block(rows, p, isNew)), i, if rest == [] then After(more) else Appending(rest, more, Ready))
  }

  function Proceed(s: Server, size: nat, i: nat): Server
    requires i < |s.threads|
  {
    var t := s.threads[i];
    match t.handler
    case Arrived => Accept(s, size, i, t.electrical, true)
    case Holding(rows, more) =>
      if !Stampable(rows) then Drop(s, i, rows)
      else if rows == [] then With(s, i, After(more))
      else if Busy(s, t.process) then s
      else With(s, i, Appending(rows, more, Ready))
    case Appending(rows, more, at) => Write(s, i, rows, more, at)
    case Midway => Accept(s, size, i, t.weather, false)
    case _ => s
  }

  /** An exception in a writer: what it was writing is cut off after `n` lines, the rest of its rows are lost. */
  function Break(s: Server, i: nat, n: nat): Server
    requires i < |s.threads|
  {
    match s.threads[i].handler
    case Done => s
    case Appending(rows, _, Opened(isNew)) =>
      (match CurrentPath(rows)
       case None => Drop(s, i, rows)
       case Some(p) =>
         var block := Block(rows, p, isNew);
         Drop(Put(s, p, Take(block, n)), i, RowsIn(block[|Take(block, n)|..]) + Elsewhere(rows, p)))
    case h => Drop(s, i, InHand(h))
  }

  /** The writers after a process stops: its own that are under way are gone. */
  function Stopped(threads: seq<Thread>, p: Process): (r: seq<Thread>)
    ensures |r| == |threads|
  {
    if threads == [] then []
    else
      var t := Last(threads);
      Stopped(Butlast(threads), p) + [if t.process == p && !t.handler.Done? then t.(handler := Failed) else t]
  }

  /** The rows that a stop takes out of its writers' hands. */
  function Dropped(threads: seq<Thread>, p: Process): seq<Row> {
    if threads == [] then []
    else if Last(threads).process == p then Dropped(Butlast(threads), p) + InHand(Last(threads).handler)
    else Dropped(Butlast(threads), p)
  }

  function Do(s: Server, size: nat, step: Step): Server {
    match step
    case Arrive(process, electrical, weather) =>
      s.(threads := s.threads + [Thread(process, electrical, weather, Arrived)])
    case Advance(i) => if |s.threads| <= i then s else Proceed(s, size, i)
    case Fail(i, n) => if |s.threads| <= i then s else Break(s, i, n)
    case Restart(p) =>
      s.(threads := Stopped(s.threads, p), lost := s.lost + Dropped(s.threads, p), windows := s.windows[p := []])
  }

  function Continue(s: Server, size: nat, steps: seq<Step>): Server {
    if steps == [] then s else Do(Continue(s, size, Butlast(steps)), size, Last(steps))
  }

  function Run(size: nat, steps: seq<Step>): Server {
    Continue(Empty, size, steps)
  }

  // --- Counting rows ------------------------------------------------------------------------------

  /** How many of some rows are of a sort: equal to a row, say, or under a key. */
  function Tally(rows: seq<Row>, sort: Row -> bool): nat {
    if rows == [] then 0 else Tally(Butlast(rows), sort) + if sort(Last(rows)) then 1 else 0
  }

  function InHands(threads: seq<Thread>, sort: Row -> bool): nat {
    if threads == [] then 0 else InHands(Butlast(threads), sort) + Tally(InHand(Last(threads).handler), sort)
  }

  /** The sort of rows under one key. */
  function Under(k: Key): Row -> bool {
    r => KeyOf(r) == k
  }

  lemma {:induction false} TallyJoins(a: seq<Row>, b: seq<Row>, sort: Row -> bool)
    ensures Tally(a + b, sort) == Tally(a, sort) + Tally(b, sort)
    decreases |b|
  {
    if b == [] {
      assert a + b == a;
    } else {
      assert Butlast(a + b) == a + Butlast(b);
      TallyJoins(a, Butlast(b), sort);
    }
  }

  lemma {:induction false} TallyUnder(rows: seq<Row>, k: Key)
    ensures Tally(rows, Under(k)) == 0 <==> k !in Keys(rows)
  {
    hide KeyOf;
    if rows != [] {
      TallyUnder(Butlast(rows), k);
      assert Keys(rows) == Keys(Butlast(rows)) + [KeyOf(Last(rows))];
    }
  }

  lemma {:induction false} InHandsUpdate(threads: seq<Thread>, i: nat, t: Thread, sort: Row -> bool)
    requires i < |threads|
    ensures InHands(threads[i := t], sort) + Tally(InHand(threads[i].handler), sort)
            == InHands(threads, sort) + Tally(InHand(t.handler), sort)
    decreases |threads|
  {
    hide InHand, Tally;
    var front := Butlast(threads);
    if i == |threads| - 1 {
      assert Butlast(threads[i := t]) == front;
    } else {
      assert Butlast(threads[i := t]) == front[i := t];
      InHandsUpdate(front, i, t, sort);
    }
  }

  lemma {:induction false} GroupAndElsewhere(rows: seq<Row>, p: Path)
    ensures forall r :: r in Elsewhere(rows, p) ==> r in rows
    ensures forall r :: r in Group(rows, p) ==> r in rows && PathOf(r) == Some(p)
  {
    hide PathOf;
    if rows != [] {
      GroupAndElsewhere(Butlast(rows), p);
      assert rows == Butlast(rows) + [Last(rows)];
    }
  }

  lemma {:induction false} TallyParts(rows: seq<Row>, p: Path, sort: Row -> bool)
    ensures Tally(rows, sort) == Tally(Group(rows, p), sort) + Tally(Elsewhere(rows, p), sort)
  {
    hide PathOf, Tally;
    TallyNone(sort);
    if rows != [] {
      var front, r := Butlast(rows), Last(rows);
      TallyParts(front, p, sort);
      TallyOneMore(Group(front, p), r, sort);
      TallyOneMore(Elsewhere(front, p), r, sort);
      assert rows == front + [r];
      TallyOneMore(front, r, sort);
    }
  }

  lemma TallyOneMore(rows: seq<Row>, r: Row, sort: Row -> bool)
    ensures Tally(rows + [r], sort) == Tally(rows, sort) + if sort(r) then 1 else 0
  {
    assert Butlast(rows + [r]) == rows;
  }

  // --- What every run keeps -----------------------------------------------------------------------

  /** Rows written, in hand and lost are together exactly the accepted ones. */
  predicate Conserved(s: Server, sort: Row -> bool) {
    Tally(s.log, sort) + InHands(s.threads, sort) + Tally(s.lost, sort) == Tally(s.accepted, sort)
  }

  /** Every file holds exactly the rows written that belong there, in the order they were written. */
  ghost predicate Filed(s: Server) {
    Stampable(s.log) && forall p :: RowsIn(ContentOf(s.files, p)) == Group(s.log, p)
  }

  /** What a writer has answered for so far: of the lists it went through, every key was accepted. */
  ghost predicate Served(s: Server, t: Thread) {
    match t.handler
    case Arrived => true
    case Failed => true
    case Holding(_, more) => Known(s, t.electrical) && (more || Known(s, t.weather))
    case Appending(rows, more, _) =>
      Known(s, t.electrical) && (more || Known(s, t.weather)) && rows != [] && Stampable(rows)
    case Midway => Known(s, t.electrical)
    case Done => Known(s, t.electrical) && Known(s, t.weather)
  }

  ghost predicate Known(s: Server, rows: seq<Row>) {
    forall r :: r in rows ==> KeyOf(r) in Keys(s.accepted)
  }

  /** Each window is spaced, and remembers only what was accepted. */
  ghost predicate WindowsGood(s: Server, size: nat) {
    forall p :: Spaced(WindowOf(s, p), size) && Remembered(s, p)
  }

  ghost predicate Remembered(s: Server, p: Process) {
    forall k :: k in WindowOf(s, p) ==> k in Keys(s.accepted)
  }

  ghost predicate AllServed(s: Server) {
    forall i :: 0 <= i < |s.threads| ==> Served(s, s.threads[i])
  }

  ghost predicate Inv(s: Server, size: nat, sort: Row -> bool) {
    Conserved(s, sort) && Filed(s) && WindowsGood(s, size) && AllServed(s)
  }

  /** One writer moves on: the accounts stay even if its own do. */
  lemma ConservedMoves(s: Server, s': Server, sort: Row -> bool, i: nat)
    requires Conserved(s, sort) && i < |s.threads| == |s'.threads| && s'.threads == s.threads[i := s'.threads[i]]
    requires Tally(s'.log, sort) + Tally(InHand(s'.threads[i].handler), sort) + Tally(s'.lost, sort)
             + Tally(s.accepted, sort)
             == Tally(s.log, sort) + Tally(InHand(s.threads[i].handler), sort) + Tally(s.lost, sort)
               + Tally(s'.accepted, sort)
    ensures Conserved(s', sort)
  {
    hide InHands, Tally, InHand;
    InHandsUpdate(s.threads, i, s'.threads[i], sort);
  }

  lemma ServedMoves(s: Server, s': Server, i: nat)
    requires AllServed(s) && i < |s.threads| == |s'.threads| && s'.threads == s.threads[i := s'.threads[i]]
    requires Served(s', s'.threads[i]) && forall k :: k in Keys(s.accepted) ==> k in Keys(s'.accepted)
    ensures AllServed(s')
  {
    hide KeyOf, Keys, Stampable;
    forall j | 0 <= j < |s'.threads| ensures Served(s', s'.threads[j]) {
      if j != i {
        assert Served(s, s.threads[j]);
      }
    }
  }

  lemma SameWindows(s: Server, s': Server, size: nat)
    requires WindowsGood(s, size) && s'.windows == s.windows && s'.accepted == s.accepted
    ensures WindowsGood(s', size)
  {
    hide Spaced, Keys;
    forall p ensures Spaced(WindowOf(s', p), size) && Remembered(s', p) {
      assert Remembered(s, p) && WindowOf(s', p) == WindowOf(s, p);
    }
  }

  lemma AcceptKeepsWindows(s: Server, s': Server, size: nat, p: Process, rows: seq<Row>)
    requires WindowsGood(s, size)
    requires var u := Unique(WindowOf(s, p), size, rows);
             s'.accepted == s.accepted + u && s'.windows == s.windows[p := WindowOf(s, p) + Keys(u)]
    ensures WindowsGood(s', size) && forall k :: k in Keys(s.accepted) ==> k in Keys(s'.accepted)
    ensures forall r :: r in rows ==> KeyOf(r) in Keys(s'.accepted)
  {
    hide Unique, Spaced, KeyOf;
    var u := Unique(WindowOf(s, p), size, rows);
    UniqueKeepsSpacing(WindowOf(s, p), size, rows);
    EveryKeyIsAccepted(WindowOf(s, p), size, rows);
    KeysAlone(s.accepted, u);
    hide Keys;
    assert Remembered(s, p);
    forall q ensures Spaced(WindowOf(s', q), size) && Remembered(s', q) {
      assert Remembered(s, q);
    }
  }

  lemma AcceptKeepsInv(s: Server, size: nat, sort: Row -> bool, i: nat)
    requires Inv(s, size, sort) && i < |s.threads|
    requires s.threads[i].handler.Arrived? || s.threads[i].handler.Midway?
    ensures Inv(Proceed(s, size, i), size, sort)
  {
    hide Unique, Keys, KeyOf, LastN, Tally, InHands, WindowOf, WindowsGood, Filed, Stampable;
    var t := s.threads[i];
    var rows := if t.handler.Arrived? then t.electrical else t.weather;
    var u := Unique(WindowOf(s, t.process), size, rows);
    var s' := Proceed(s, size, i);
    assert Served(s, t);
    AcceptKeepsWindows(s, s', size, t.process, rows);
    TallyJoins(s.accepted, u, sort);
    TallyNone(sort);
    FiledAgain(s, s');
    assert s'.threads[i].handler == Holding(u, t.handler.Arrived?);
    ConservedMoves(s, s', sort, i);
    ServedMoves(s, s', i);
  }

  lemma TallyNone(sort: Row -> bool)
    ensures Tally([], sort) == 0
  {
  }

  lemma KeysAlone(a: seq<Row>, b: seq<Row>)
    ensures Keys(a + b) == Keys(a) + Keys(b)
  {
  }

  lemma HoldingKeepsInv(s: Server, size: nat, sort: Row -> bool, i: nat)
    requires Inv(s, size, sort) && i < |s.threads| && s.threads[i].handler.Holding?
    ensures Inv(Proceed(s, size, i), size, sort)
  {
    hide Busy, WindowsGood, Known, Stampable, InHands, Filed, Tally;
    var rows, s' := s.threads[i].handler.rows, Proceed(s, size, i);
    assert Served(s, s.threads[i]);
    TallyJoins(s.lost, rows, sort);
    TallyNone(sort);
    SameKnown(s, s', s.threads[i]);
    if s' != s {
      SameWindows(s, s', size);
      FiledAgain(s, s');
      ConservedMoves(s, s', sort, i);
      hide Tally, Conserved, InHand, After;
      ServedMoves(s, s', i);
    }
  }

  lemma FiledAgain(s: Server, s': Server)
    requires Filed(s) && s'.log == s.log && s'.files == s.files
    ensures Filed(s')
  {
  }

  lemma {:induction false} GroupJoins(a: seq<Row>, b: seq<Row>, p: Path)
    ensures Group(a + b, p) == Group(a, p) + Group(b, p)
    decreases |b|
  {
    hide PathOf;
    if b == [] {
      assert a + b == a;
    } else {
      assert Butlast(a + b) == a + Butlast(b);
      GroupJoins(a, Butlast(b), p);
    }
  }

  lemma {:induction false} GroupOfOneFile(rows: seq<Row>, p: Path, q: Path)
    requires forall r :: r in rows ==> PathOf(r) == Some(p)
    ensures Group(rows, q) == if q == p then rows else []
  {
    hide PathOf;
    if rows != [] {
      assert rows == Butlast(rows) + [Last(rows)];
      assert forall r :: r in Butlast(rows) ==> r in rows;
      GroupOfOneFile(Butlast(rows), p, q);
    }
  }

  lemma PutKeepsFiled(s: Server, p: Path, lines: seq<CsvLine>)
    requires Filed(s) && forall r :: r in RowsIn(lines) ==> PathOf(r) == Some(p)
    ensures Filed(Put(s, p, lines))
  {
    var s', rows := Put(s, p, lines), RowsIn(lines);
    RowsInJoin(ContentOf(s.files, p), lines);
    hide RowsIn;
    forall q ensures RowsIn(ContentOf(s'.files, q)) == Group(s'.log, q) {
      GroupJoins(s.log, rows, q);
      GroupOfOneFile(rows, p, q);
    }
  }

  /** A block that is cut off after `n` lines: what got out and what did not are the rows of the file. */
  lemma BlockParts(rows: seq<Row>, p: Path, isNew: bool, n: nat)
    ensures var block := Block(rows, p, isNew);
            var out := Take(block, n);
            RowsIn(out) + RowsIn(block[|out|..]) == Group(rows, p) == RowsIn(block)
  {
    hide RowsIn, Lines, Group, Take;
    var block := Block(rows, p, isNew);
    var out := Take(block, n);
    TakeIsPrefix(block, n);
    RowsInJoin(if isNew then [Header] else [], Lines(Group(rows, p)));
    RowsInLines(Group(rows, p));
    RowsInHeader();
    NoRows();
    RowsInJoin(out, block[|out|..]);
    assert out + block[|out|..] == block;
    assert [] + Group(rows, p) == Group(rows, p);
  }

  lemma TakeIsPrefix(lines: seq<CsvLine>, n: nat)
    ensures Take(lines, n) <= lines
  {
  }

  lemma PathIsCurrent(rows: seq<Row>)
    requires rows != [] && Stampable(rows)
    ensures CurrentPath(rows).Some?
  {
    assert rows[0] in rows;
  }

  lemma WriteKeepsInv(s: Server, size: nat, sort: Row -> bool, i: nat)
    requires Inv(s, size, sort) && i < |s.threads| && s.threads[i].handler.Appending?
    ensures Inv(Proceed(s, size, i), size, sort)
  {
    hide WindowsGood, Known, InHands, Filed, Tally, Block, Elsewhere, Group, PathOf, RowsIn;
    var Appending(rows, more, at) := s.threads[i].handler;
    var s' := Proceed(s, size, i);
    assert Served(s, s.threads[i]);
    PathIsCurrent(rows);
    WriteView(s, i, rows, more, at, sort);
    SameKnown(s, s', s.threads[i]);
    SameWindows(s, s', size);
    hide Write, Proceed, Stampable, CurrentPath;
    ConservedMoves(s, s', sort, i);
    ServedMoves(s, s', i);
  }

  /** One step of an append, for the accounts. */
  lemma WriteView(s: Server, i: nat, rows: seq<Row>, more: bool, at: Point, sort: Row -> bool)
    requires Filed(s) && i < |s.threads| && rows != [] && Stampable(rows)
    requires s.threads[i].handler == Appending(rows, more, at)
    ensures var s' := Write(s, i, rows, more, at);
            && Filed(s') && |s'.threads| == |s.threads| && s'.threads == s.threads[i := s'.threads[i]]
            && Tally(s'.log, sort) + Tally(InHand(s'.threads[i].handler), sort)
               == Tally(s.log, sort) + Tally(rows, sort)
            && s'.lost == s.lost && s'.accepted == s.accepted && s'.windows == s.windows
            && s'.threads[i] == s.threads[i].(handler := s'.threads[i].handler)
            && (s'.threads[i].handler == After(more) || StillAppending(s'.threads[i].handler, more))
  {
    hide Filed, Tally, Block, Elsewhere, Group, PathOf, RowsIn;
    PathIsCurrent(rows);
    var p, s' := CurrentPath(rows).value, Write(s, i, rows, more, at);
    if at.Ready? {
      FiledAgain(s, s');
    } else if at.Looked? {
      NoRows();
      PutKeepsFiled(s, p, []);
      FiledAgain(Put(s, p, []), s');
      assert s.log + [] == s.log;
    } else {
      BlockParts(rows, p, at.isNew, 0);
      GroupAndElsewhere(rows, p);
      PutKeepsFiled(s, p, Block(rows, p, at.isNew));
      FiledAgain(Put(s, p, Block(rows, p, at.isNew)), s');
      TallyParts(rows, p, sort);
      TallyJoins(s.log, Group(rows, p), sort);
      TallyNone(sort);
    }
  }

  predicate StillAppending(h: Handler, more: bool) {
    h.Appending? && h.rows != [] && Stampable(h.rows) && h.more == more
  }

  lemma NoRows()
    ensures RowsIn([]) == []
  {
  }

  lemma ElsewhereIsStampable(rows: seq<Row>, p: Path)
    ensures Stampable(rows) ==> Stampable(Elsewhere(rows, p))
  {
    GroupAndElsewhere(rows, p);
  }

  lemma BreakKeepsInv(s: Server, size: nat, sort: Row -> bool, i: nat, n: nat)
    requires Inv(s, size, sort) && i < |s.threads|
    ensures Inv(Break(s, i, n), size, sort)
  {
    hide WindowsGood, Known, InHands, Filed, Tally, Block, Elsewhere, Group, PathOf, RowsIn;
    var s' := Break(s, i, n);
    assert Served(s, s.threads[i]);
    if !s.threads[i].handler.Done? {
      BreakView(s, i, n, sort);
      SameKnown(s, s', s.threads[i]);
      SameWindows(s, s', size);
      hide Break, Stampable, CurrentPath;
      TallyNone(sort);
      ConservedMoves(s, s', sort, i);
      ServedMoves(s, s', i);
    }
  }

  /** A broken append: what got out was written, the rest is lost. */
  lemma BreakView(s: Server, i: nat, n: nat, sort: Row -> bool)
    requires Filed(s) && i < |s.threads| && !s.threads[i].handler.Done?
    requires s.threads[i].handler.Appending? ==> s.threads[i].handler.rows != [] && Stampable(s.threads[i].handler.rows)
    ensures var s' := Break(s, i, n);
            && Filed(s') && s'.threads == s.threads[i := s.threads[i].(handler := Failed)]
            && Tally(s'.log, sort) + Tally(s'.lost, sort)
               == Tally(s.log, sort) + Tally(s.lost, sort) + Tally(InHand(s.threads[i].handler), sort)
            && s'.accepted == s.accepted && s'.windows == s.windows
  {
    hide Filed, Tally, Block, Elsewhere, Group, PathOf, RowsIn;
    var h, s' := s.threads[i].handler, Break(s, i, n);
    if h.Appending? && h.at.Opened? {
      PathIsCurrent(h.rows);
      var p := CurrentPath(h.rows).value;
      var block := Block(h.rows, p, h.at.isNew);
      var out := Take(block, n);
      var cut := RowsIn(block[|out|..]);
      BlockParts(h.rows, p, h.at.isNew, n);
      GroupAndElsewhere(h.rows, p);
      TallyParts(h.rows, p, sort);
      TallyJoins(RowsIn(out), cut, sort);
      TallyJoins(cut, Elsewhere(h.rows, p), sort);
      TallyJoins(s.log, RowsIn(out), sort);
      TallyJoins(s.lost, cut + Elsewhere(h.rows, p), sort);
      forall r | r in RowsIn(out) ensures PathOf(r) == Some(p) {
        assert r in RowsIn(out) + cut;
      }
      PutKeepsFiled(s, p, out);
      FiledAgain(Put(s, p, out), s');
    } else {
      FiledAgain(s, s');
      TallyJoins(s.lost, InHand(h), sort);
    }
  }

  lemma {:induction false} StopDrops(threads: seq<Thread>, p: Process, sort: Row -> bool)
    ensures InHands(Stopped(threads, p), sort) + Tally(Dropped(threads, p), sort) == InHands(threads, sort)
  {
    hide Tally;
    TallyNone(sort);
    if threads != [] {
      var front, t := Butlast(threads), Last(threads);
      StopDrops(front, p, sort);
      assert Butlast(Stopped(threads, p)) == Stopped(front, p);
      TallyJoins(Dropped(front, p), InHand(t.handler), sort);
    }
  }

  lemma {:induction false} StopChanges(threads: seq<Thread>, p: Process, i: nat)
    requires i < |threads|
    ensures var t := Stopped(threads, p)[i]; t == threads[i] || t == threads[i].(handler := Failed)
    decreases |threads|
  {
    if i < |threads| - 1 {
      StopChanges(Butlast(threads), p, i);
    }
  }

  lemma RestartKeepsInv(s: Server, size: nat, sort: Row -> bool, p: Process)
    requires Inv(s, size, sort)
    ensures Inv(Do(s, size, Restart(p)), size, sort)
  {
    hide InHands, Dropped, Stopped, Filed, Tally, Known, WindowsGood, Stampable, InHand;
    var s' := Do(s, size, Restart(p));
    StopDrops(s.threads, p, sort);
    TallyJoins(s.lost, Dropped(s.threads, p), sort);
    FiledAgain(s, s');
    RestartKeepsWindows(s, s', size, p);
    forall i | 0 <= i < |s'.threads| ensures Served(s', s'.threads[i]) {
      assert Served(s, s.threads[i]);
      StopChanges(s.threads, p, i);
      SameKnown(s, s', s.threads[i]);
    }
  }

  lemma RestartKeepsWindows(s: Server, s': Server, size: nat, p: Process)
    requires WindowsGood(s, size) && s'.accepted == s.accepted && s'.windows == s.windows[p := []]
    ensures WindowsGood(s', size)
  {
    hide Keys;
    forall q ensures Spaced(WindowOf(s', q), size) && Remembered(s', q) {
      assert Remembered(s, q) && (q != p ==> WindowOf(s', q) == WindowOf(s, q));
    }
  }

  lemma SameKnown(s: Server, s': Server, t: Thread)
    requires s'.accepted == s.accepted
    ensures Known(s, t.electrical) <==> Known(s', t.electrical)
    ensures Known(s, t.weather) <==> Known(s', t.weather)
  {
  }

  lemma ArriveKeepsInv(s: Server, size: nat, sort: Row -> bool, step: Step)
    requires Inv(s, size, sort) && step.Arrive?
    ensures Inv(Do(s, size, step), size, sort)
  {
    hide Filed, Known, WindowsGood, Stampable, Tally;
    var s' := Do(s, size, step);
    assert Butlast(s'.threads) == s.threads;
    FiledAgain(s, s');
    SameWindows(s, s', size);
    TallyNone(sort);
    forall i | 0 <= i < |s'.threads| ensures Served(s', s'.threads[i]) {
      if i < |s.threads| {
        assert Served(s, s.threads[i]);
        SameKnown(s, s', s.threads[i]);
      }
    }
  }

  lemma DoKeepsInv(s: Server, size: nat, sort: Row -> bool, step: Step)
    requires Inv(s, size, sort)
    ensures Inv(Do(s, size, step), size, sort)
  {
    hide Inv, Accept, Write, Break, Drop;
    match step
    case Arrive(_, _, _) => ArriveKeepsInv(s, size, sort, step);
    case Restart(p) => RestartKeepsInv(s, size, sort, p);
    case Fail(i, n) =>
      if i < |s.threads| {
        BreakKeepsInv(s, size, sort, i, n);
      }
    case Advance(i) =>
      if i < |s.threads| {
        match s.threads[i].handler
        case Arrived => AcceptKeepsInv(s, size, sort, i);
        case Midway => AcceptKeepsInv(s, size, sort, i);
        case Holding(_, _) => HoldingKeepsInv(s, size, sort, i);
        case Appending(_, _, _) => WriteKeepsInv(s, size, sort, i);
        case _ =>
      }
  }

  lemma {:induction false} RunKeepsInv(size: nat, steps: seq<Step>, sort: Row -> bool)
    ensures Inv(Run(size, steps), size, sort)
  {
    hide Do, Inv;
    if steps == [] {
      EmptyInv(size, sort);
    } else {
      RunKeepsInv(size, Butlast(steps), sort);
      DoKeepsInv(Run(size, Butlast(steps)), size, sort, Last(steps));
    }
  }

  lemma EmptyInv(size: nat, sort: Row -> bool)
    ensures Inv(Empty, size, sort)
  {
  }

  // --- Conservation -------------------------------------------------------------------------------

  /**
   * For every interleaving, with failing appends and restarts of either process anywhere: rows written,
   * rows in hand and rows lost are together the accepted rows, of every sort as many; every file holds
   * exactly the rows written that belong in it; and each window is spaced.
   */
  lemma EveryInterleavingConserves(size: nat, steps: seq<Step>, sort: Row -> bool, p: Path, process: Process)
    ensures var s := Run(size, steps);
            && Conserved(s, sort) && RowsIn(ContentOf(s.files, p)) == Group(s.log, p)
            && Spaced(WindowOf(s, process), size)
  {
    hide Run, Conserved, RowsIn, Group, WindowOf;
    RunKeepsInv(size, steps, sort);
  }

  lemma {:induction false} NobodyHolds(threads: seq<Thread>, sort: Row -> bool)
    requires forall i :: 0 <= i < |threads| ==> InHand(threads[i].handler) == []
    ensures InHands(threads, sort) == 0
  {
    if threads != [] {
      NobodyHolds(Butlast(threads), sort);
    }
  }

  /** Every timestamp sent parses, no append fails and no process stops. */
  ghost predicate Undisturbed(steps: seq<Step>) {
    forall i :: 0 <= i < |steps| ==>
      match steps[i]
      case Arrive(_, electrical, weather) => Stampable(electrical) && Stampable(weather)
      case Advance(_) => true
      case _ => false
  }

  ghost predicate StampableThread(t: Thread) {
    Stampable(t.electrical) && Stampable(t.weather) && Stampable(InHand(t.handler)) && !t.handler.Failed?
  }

  lemma ProceedLosesNothing(s: Server, size: nat, i: nat)
    requires i < |s.threads| && StampableThread(s.threads[i])
    ensures var s' := Proceed(s, size, i);
            && s'.lost == s.lost && |s'.threads| == |s.threads| && StampableThread(s'.threads[i])
            && s'.threads == s.threads[i := s'.threads[i]]
  {
    hide Unique, Busy, Block, Elsewhere, PathOf, Stampable, Keys, RowsIn;
    var t := s.threads[i];
    NothingIsStampable();
    match t.handler
    case Arrived => UniqueIsStampableToo(WindowOf(s, t.process), size, t.electrical);
    case Midway => UniqueIsStampableToo(WindowOf(s, t.process), size, t.weather);
    case Appending(rows, _, _) =>
      if CurrentPath(rows).Some? {
        ElsewhereIsStampable(rows, CurrentPath(rows).value);
      }
    case _ =>
  }

  lemma UniqueIsStampableToo(history: seq<Key>, size: nat, rows: seq<Row>)
    requires Stampable(rows)
    ensures Stampable(Unique(history, size, rows))
  {
    hide Unique;
    EveryKeyIsAccepted(history, size, rows);
  }

  lemma {:induction false} UndisturbedLosesNothing(size: nat, steps: seq<Step>)
    requires Undisturbed(steps)
    ensures var s := Run(size, steps);
            s.lost == [] && forall i :: 0 <= i < |s.threads| ==> StampableThread(s.threads[i])
  {
    hide StampableThread, Proceed;
    if steps != [] {
      var before, step := Butlast(steps), Last(steps);
      assert forall i :: 0 <= i < |before| ==> before[i] == steps[i];
      assert step == steps[|steps| - 1];
      UndisturbedLosesNothing(size, before);
      var s := Run(size, before);
      match step
      case Arrive(p, electrical, weather) => assert StampableThread(Thread(p, electrical, weather, Arrived)) by {
        NewIsStampable(p, electrical, weather);
      }
      case Advance(i) =>
        if i < |s.threads| {
          ProceedLosesNothing(s, size, i);
        }
    }
  }

  lemma NewIsStampable(p: Process, electrical: seq<Row>, weather: seq<Row>)
    requires Stampable(electrical) && Stampable(weather)
    ensures StampableThread(Thread(p, electrical, weather, Arrived))
  {
  }

  /**
   * Whatever the interleaving was: once no writer has rows in hand, each hour file holds exactly the
   * accepted rows of its kind and hour that were not lost; and nothing is lost while timestamps parse, no
   * append fails and no process stops.
   */
  lemma QuietFilesHoldExactlyTheAccepted(size: nat, steps: seq<Step>, p: Path, sort: Row -> bool)
    requires forall i :: 0 <= i < |Run(size, steps).threads| ==> InHand(Run(size, steps).threads[i].handler) == []
    requires forall r :: sort(r) ==> PathOf(r) == Some(p)
    ensures var s := Run(size, steps);
            && Tally(RowsIn(ContentOf(s.files, p)), sort) + Tally(s.lost, sort) == Tally(s.accepted, sort)
            && (Undisturbed(steps) ==> s.lost == [])
  {
    hide Run, Undisturbed;
    RunKeepsInv(size, steps, sort);
    NobodyHolds(Run(size, steps).threads, sort);
    TallyInItsGroup(Run(size, steps).log, p, sort);
    if Undisturbed(steps) {
      UndisturbedLosesNothing(size, steps);
    }
  }

  lemma {:induction false} TallyInItsGroup(rows: seq<Row>, p: Path, sort: Row -> bool)
    requires forall r :: sort(r) ==> PathOf(r) == Some(p)
    ensures Tally(Group(rows, p), sort) == Tally(rows, sort)
  {
    hide PathOf;
    if rows != [] {
      TallyInItsGroup(Butlast(rows), p, sort);
      TallyJoins(Group(Butlast(rows), p), [Last(rows)], sort);
      assert Butlast([Last(rows)]) == [];
    }
  }

  // --- The staging lock ---------------------------------------------------------------------------

  ghost predicate Exclusive(s: Server) {
    forall i, j :: 0 <= i < j < |s.threads| && s.threads[i].handler.Appending? && s.threads[j].handler.Appending? ==>
      s.threads[i].process != s.threads[j].process
  }

  predicate SameSent(t': Thread, t: Thread) {
    t'.process == t.process && t'.electrical == t.electrical && t'.weather == t.weather
  }

  lemma OneMoves(s: Server, s': Server, i: nat)
    requires Exclusive(s) && i < |s.threads| == |s'.threads| && s'.threads == s.threads[i := s'.threads[i]]
    requires s'.threads[i].process == s.threads[i].process
    requires s'.threads[i].handler.Appending? ==> s.threads[i].handler.Appending? || !Busy(s, s.threads[i].process)
    ensures Exclusive(s')
  {
  }

  lemma WriteMoves(s: Server, i: nat, rows: seq<Row>, more: bool, at: Point)
    requires i < |s.threads|
    ensures var s' := Write(s, i, rows, more, at);
            && |s'.threads| == |s.threads| && s'.threads == s.threads[i := s'.threads[i]]
            && SameSent(s'.threads[i], s.threads[i])
  {
    hide PathOf, CurrentPath, Block, Elsewhere, RowsIn, ContentOf;
  }

  lemma ProceedMoves(s: Server, size: nat, i: nat)
    requires i < |s.threads|
    ensures var s' := Proceed(s, size, i);
            && |s'.threads| == |s.threads| && s'.threads == s.threads[i := s'.threads[i]]
            && SameSent(s'.threads[i], s.threads[i])
            && (s'.threads[i].handler.Appending? ==> s.threads[i].handler.Appending? || !Busy(s, s.threads[i].process))
  {
    hide Unique, Stampable, Keys, Busy, Write, WindowOf;
    var h := s.threads[i].handler;
    if h.Appending? {
      WriteMoves(s, i, h.rows, h.more, h.at);
    }
  }

  lemma BreakMoves(s: Server, i: nat, n: nat)
    requires i < |s.threads|
    ensures var s' := Break(s, i, n);
            && |s'.threads| == |s.threads| && s'.threads == s.threads[i := s'.threads[i]]
            && SameSent(s'.threads[i], s.threads[i]) && !s'.threads[i].handler.Appending?
  {
    hide PathOf, Block, Elsewhere, RowsIn;
  }

  lemma StepKeepsExclusive(s: Server, size: nat, step: Step)
    requires Exclusive(s)
    ensures Exclusive(Do(s, size, step))
  {
    hide Proceed, Break, Dropped, Stopped;
    match step
    case Arrive(_, _, _) =>
    case Restart(p) =>
      forall i | 0 <= i < |s.threads|
        ensures var t := Stopped(s.threads, p)[i]; t == s.threads[i] || t == s.threads[i].(handler := Failed)
      {
        StopChanges(s.threads, p, i);
      }
    case Advance(i) =>
      if i < |s.threads| {
        ProceedMoves(s, size, i);
        OneMoves(s, Proceed(s, size, i), i);
      }
    case Fail(i, n) =>
      if i < |s.threads| {
        BreakMoves(s, i, n);
        OneMoves(s, Break(s, i, n), i);
      }
  }

  /** Writers keep their process and their lists, and none is ever removed. */
  lemma ThreadsStay(s: Server, size: nat, step: Step)
    ensures var s' := Do(s, size, step);
            |s.threads| <= |s'.threads| && forall i :: 0 <= i < |s.threads| ==> SameSent(s'.threads[i], s.threads[i])
  {
    hide Proceed, Break, Dropped, Stopped;
    match step
    case Arrive(_, _, _) =>
    case Restart(p) =>
      forall i | 0 <= i < |s.threads| ensures SameSent(Stopped(s.threads, p)[i], s.threads[i]) {
        StopChanges(s.threads, p, i);
      }
    case Advance(i) => if i < |s.threads| { ProceedMoves(s, size, i); }
    case Fail(i, n) => if i < |s.threads| { BreakMoves(s, i, n); }
  }

  /** In every interleaving at most one writer of a process is between opening and closing the hour files. */
  lemma {:induction false} OneWriterAtATime(size: nat, steps: seq<Step>)
    ensures Exclusive(Run(size, steps))
  {
    if steps != [] {
      OneWriterAtATime(size, Butlast(steps));
      hide Do, Exclusive;
      StepKeepsExclusive(Run(size, Butlast(steps)), size, Last(steps));
    }
  }

  // --- What an answer means -----------------------------------------------------------------------

  /**
   * A handler that answered has had the key of every row it was sent accepted, by itself or before, by it
   * or another; and such a row is in its hour file if and only if not every acceptance of its key was
   * lost, to a failed append or a stop, or is still in hand.
   */
  lemma AnsweredIsOnDiskExactlyWhenAnAppendCompleted(size: nat, steps: seq<Step>, i: nat, r: Row)
    requires var s := Run(size, steps);
             i < |s.threads| && s.threads[i].handler.Done?
             && (r in s.threads[i].electrical || r in s.threads[i].weather)
    ensures var s, under := Run(size, steps), Under(KeyOf(r));
            && Tally(s.accepted, under) >= 1
            && (KeyOf(r) in Keys(s.log) <==>
                 Tally(s.lost, under) + InHands(s.threads, under) < Tally(s.accepted, under))
  {
    hide Run, Under, KeyOf, Keys, Tally, InHands;
    var s, k := Run(size, steps), KeyOf(r);
    RunKeepsInv(size, steps, Under(k));
    assert Served(s, s.threads[i]);
    TallyUnder(s.accepted, k);
    TallyUnder(s.log, k);
  }

  // --- Headers ------------------------------------------------------------------------------------

  /** Nothing yet, or one header, first, and then rows that belong in this file. */
  ghost predicate Tidy(p: Path, content: seq<CsvLine>) {
    content == [] || (content[0] == Header && AllData(p, content[1..]))
  }

  ghost predicate AllData(p: Path, lines: seq<CsvLine>) {
    forall i :: 0 <= i < |lines| ==> lines[i].Data? && PathOf(lines[i].row) == Some(p)
  }

  datatype Output = Output(path: Path, lines: seq<CsvLine>, isNew: bool)

  /** What a step writes, and what the writer's look had found. */
  function Written(s: Server, step: Step): Option<Output> {
    if (step.Advance? || step.Fail?) && step.thread < |s.threads| then
      match s.threads[step.thread].handler
      case Appending(rows, _, Opened(isNew)) =>
        if CurrentPath(rows).None? then None
        else
          var p := CurrentPath(rows).value;
          var block := Block(rows, p, isNew);
          Some(Output(p, if step.Advance? then block else Take(block, step.lines), isNew))
      case _ => None
    else None
  }

  /** A write to a file that is not, by now, as its look had found it: absent then, and so empty now. */
  predicate Stale(s: Server, step: Step, p: Path) {
    var w := Written(s, step);
    w.Some? && w.value.path == p && w.value.lines != [] && w.value.isNew != (ContentOf(s.files, p) == [])
  }

  lemma StepContent(s: Server, size: nat, step: Step, p: Path)
    ensures var w := Written(s, step);
            ContentOf(Do(s, size, step).files, p)
            == if w.Some? && w.value.path == p then ContentOf(s.files, p) + w.value.lines else ContentOf(s.files, p)
  {
    hide Unique, Block, Elsewhere, RowsIn, Busy, Stampable, PathOf, Stopped, Dropped, Keys;
    assert ContentOf(s.files, p) + [] == ContentOf(s.files, p);
  }

  /** What a writer writes: its rows, all of the file, below a header exactly when its look found no file. */
  lemma WrittenLines(s: Server, step: Step)
    ensures var w := Written(s, step);
            w.Some? && w.value.lines != [] ==>
              if w.value.isNew then w.value.lines[0] == Header && AllData(w.value.path, w.value.lines[1..])
              else AllData(w.value.path, w.value.lines)
  {
    hide Block, AllData, PathOf;
    var w := Written(s, step);
    if w.Some? {
      var rows, p := s.threads[step.thread].handler.rows, w.value.path;
      TakeIsPrefix(Block(rows, p, w.value.isNew), if step.Fail? then step.lines else 0);
      if w.value.lines != [] {
        BlockLines(rows, p, w.value.isNew, w.value.lines);
      }
    }
  }

  lemma BlockLines(rows: seq<Row>, p: Path, isNew: bool, lines: seq<CsvLine>)
    requires lines <= Block(rows, p, isNew) && lines != []
    ensures if isNew then lines[0] == Header && AllData(p, lines[1..]) else AllData(p, lines)
  {
    hide Group, PathOf, Lines;
    var group := Group(rows, p);
    LinesAreData(rows, p);
    if isNew {
      assert Block(rows, p, isNew)[1..] == Lines(group) && lines[1..] <= Lines(group);
    } else {
      assert Block(rows, p, isNew) == Lines(group);
    }
  }

  lemma LinesAreData(rows: seq<Row>, p: Path)
    ensures AllData(p, Lines(Group(rows, p)))
  {
    GroupAndElsewhere(rows, p);
    hide PathOf;
    var group := Group(rows, p);
    hide Group;
    forall i | 0 <= i < |group| ensures PathOf(group[i]) == Some(p) {
      assert group[i] in group;
    }
  }

  lemma TidyAfter(p: Path, content: seq<CsvLine>, lines: seq<CsvLine>, isNew: bool)
    requires lines != []
    requires if isNew then lines[0] == Header && AllData(p, lines[1..]) else AllData(p, lines)
    ensures Tidy(p, content + lines) <==> Tidy(p, content) && (isNew <==> content == [])
  {
    var all := content + lines;
    if content == [] {
      assert all == lines;
    } else {
      assert all[1..] == content[1..] + lines;
      assert forall i :: 0 <= i < |lines| ==> all[1..][|content| - 1 + i] == lines[i];
      assert forall i :: 0 <= i < |content| - 1 ==> all[1..][i] == content[1..][i];
      if isNew {
        assert all[1..][|content| - 1] == Header;
      }
    }
  }

  /**
   * Headers, for every interleaving: an hour file has one header, first, and only its own rows below, if
   * and only if no write to it was stale: every write that found no file when it looked found it still
   * empty when it wrote, and every other write found it no longer empty.
   */
  lemma {:induction false} OneHeaderExactlyWhenNoWriteIsStale(size: nat, steps: seq<Step>, p: Path)
    ensures Tidy(p, ContentOf(Run(size, steps).files, p)) <==>
            forall n :: 0 <= n < |steps| ==> !Stale(Run(size, steps[..n]), steps[n], p)
  {
    hide Do, Stale, Tidy;
    if steps == [] {
      NothingIsTidy(p);
    } else {
      var before, step := Butlast(steps), Last(steps);
      OneHeaderExactlyWhenNoWriteIsStale(size, before, p);
      assert forall n :: 0 <= n < |before| ==> before[..n] == steps[..n] && before[n] == steps[n];
      assert steps[..|before|] == before && steps[|before|] == step;
      TidyStep(Run(size, before), size, step, p);
      hide Run;
      assert Run(size, steps) == Do(Run(size, before), size, step) by {
        RunUnfolds(size, steps);
      }
    }
  }

  lemma NothingIsTidy(p: Path)
    ensures Tidy(p, ContentOf(Empty.files, p))
  {
  }

  lemma RunUnfolds(size: nat, steps: seq<Step>)
    requires steps != []
    ensures Run(size, steps) == Do(Run(size, Butlast(steps)), size, Last(steps))
  {
    hide Do;
  }

  lemma TidyStep(s: Server, size: nat, step: Step, p: Path)
    ensures Tidy(p, ContentOf(Do(s, size, step).files, p)) <==> Tidy(p, ContentOf(s.files, p)) && !Stale(s, step, p)
  {
    hide Do, Written, Tidy, AllData;
    StepContent(s, size, step, p);
    WrittenLines(s, step);
    var w := Written(s, step);
    if w.Some? && w.value.path == p {
      if w.value.lines == [] {
        assert ContentOf(s.files, p) + w.value.lines == ContentOf(s.files, p);
      } else {
        TidyAfter(p, ContentOf(s.files, p), w.value.lines, w.value.isNew);
      }
    }
  }

  /** Two writers between their look at a file and their write to it. */
  ghost predicate Overlap(s: Server) {
    exists i, j :: 0 <= i < j < |s.threads| && At(s.threads[i]).Some? && At(s.threads[i]) == At(s.threads[j])
  }

  /** The file a writer has looked at and not yet written. */
  function At(t: Thread): Option<Path> {
    match t.handler
    case Appending(rows, _, Looked(_)) => CurrentPath(rows)
    case Appending(rows, _, Opened(_)) => CurrentPath(rows)
    case _ => None
  }

  /** What a look found is still so; and a file that is empty is one that a writer has just opened. */
  ghost predicate LooksHold(s: Server) {
    && (forall i :: 0 <= i < |s.threads| ==> LookHolds(s.files, s.threads[i]))
    && (forall p :: p in s.files && s.files[p] == [] ==>
          exists i :: 0 <= i < |s.threads| && At(s.threads[i]) == Some(p) && s.threads[i].handler.at.Opened?)
  }

  ghost predicate LookHolds(files: Files, t: Thread) {
    At(t).Some? ==>
      var p := At(t).value;
      && (t.handler.at.isNew <==> ContentOf(files, p) == [])
      && (t.handler.at.Looked? ==> (p in files <==> ContentOf(files, p) != []))
      && (t.handler.at.Opened? ==> p in files)
  }

  lemma LooksHoldStep(s: Server, size: nat, step: Step)
    requires LooksHold(s) && !Overlap(s) && !Overlap(Do(s, size, step)) && (step.Arrive? || step.Advance?)
    ensures LooksHold(Do(s, size, step))
  {
    var s' := Do(s, size, step);
    match step
    case Arrive(_, _, _) =>
      forall p | p in s'.files && s'.files[p] == []
        ensures exists i :: 0 <= i < |s'.threads| && At(s'.threads[i]) == Some(p) && s'.threads[i].handler.at.Opened?
      {
        var i :| 0 <= i < |s.threads| && At(s.threads[i]) == Some(p) && s.threads[i].handler.at.Opened?;
        assert s'.threads[i] == s.threads[i];
      }
    case Advance(i) =>
      if i < |s.threads| {
        if s.threads[i].handler.Appending? && CurrentPath(s.threads[i].handler.rows).Some? {
          WriteKeepsLooks(s, i);
        } else {
          OthersKeepLooks(s, size, i);
        }
      }
  }

  lemma OthersKeepLooks(s: Server, size: nat, i: nat)
    requires LooksHold(s) && i < |s.threads|
    requires s.threads[i].handler.Appending? ==> CurrentPath(s.threads[i].handler.rows).None?
    ensures LooksHold(Proceed(s, size, i))
  {
    hide Unique, Busy, Stampable, Keys, CurrentPath;
    var s' := Proceed(s, size, i);
    assert s'.files == s.files && At(s.threads[i]) == None && At(s'.threads[i]) == None;
    assert forall j :: 0 <= j < |s.threads| && j != i ==> s'.threads[j] == s.threads[j];
    forall p | p in s'.files && s'.files[p] == []
      ensures exists j :: 0 <= j < |s'.threads| && At(s'.threads[j]) == Some(p) && s'.threads[j].handler.at.Opened?
    {
      var j :| 0 <= j < |s.threads| && At(s.threads[j]) == Some(p) && s.threads[j].handler.at.Opened?;
      assert s'.threads[j] == s.threads[j];
    }
  }

  lemma WriteKeepsLooks(s: Server, i: nat)
    requires i < |s.threads| && s.threads[i].handler.Appending? && CurrentPath(s.threads[i].handler.rows).Some?
    requires var h := s.threads[i].handler;
             LooksHold(s) && !Overlap(s) && !Overlap(Write(s, i, h.rows, h.more, h.at))
    ensures var h := s.threads[i].handler; LooksHold(Write(s, i, h.rows, h.more, h.at))
  {
    hide Elsewhere, RowsIn, PathOf, Block, CurrentPath;
    var Appending(rows, more, at) := s.threads[i].handler;
    var p, s' := CurrentPath(rows).value, Write(s, i, rows, more, at);
    BlockIsNotEmpty(rows, p, at.Opened? && at.isNew);
    WrittenLook(s, i);
    assert forall j :: 0 <= j < |s.threads| && j != i ==> s'.threads[j] == s.threads[j];
    assert forall q :: q != p ==> (q in s'.files <==> q in s.files) && ContentOf(s'.files, q) == ContentOf(s.files, q);
    hide Write;
    if at.Ready? {
      LooksKept(s, s', i, None);
    } else {
      LooksKept(s, s', i, Some(p));
    }
  }

  /** Looks elsewhere still hold, and empty files are still ones just opened. */
  lemma LooksKept(s: Server, s': Server, i: nat, written: Option<Path>)
    requires LooksHold(s) && !Overlap(s) && i < |s.threads| == |s'.threads| && LookHolds(s'.files, s'.threads[i])
    requires forall j :: 0 <= j < |s.threads| && j != i ==> s'.threads[j] == s.threads[j]
    requires written.None? ==> s'.files == s.files && At(s.threads[i]).None?
    requires written.Some? ==>
               var p := written.value;
               && At(s.threads[i]) == Some(p) && p in s'.files
               && (s'.files[p] == [] ==> At(s'.threads[i]) == Some(p) && s'.threads[i].handler.at.Opened?)
    requires forall q :: Some(q) != written ==>
              (q in s'.files <==> q in s.files) && ContentOf(s'.files, q) == ContentOf(s.files, q)
    ensures LooksHold(s')
  {
    hide CurrentPath;
    forall j | 0 <= j < |s'.threads| ensures LookHolds(s'.files, s'.threads[j]) {
      if j != i {
        assert LookHolds(s.files, s.threads[j]);
        assert At(s.threads[j]).Some? ==> At(s.threads[j]) != written;
      }
    }
    hide LookHolds;
    forall q | q in s'.files && s'.files[q] == []
      ensures exists j :: 0 <= j < |s'.threads| && At(s'.threads[j]) == Some(q) && s'.threads[j].handler.at.Opened?
    {
      if Some(q) == written {
        assert At(s'.threads[i]) == Some(q);
      } else {
        assert q in s.files && ContentOf(s.files, q) == ContentOf(s'.files, q);
        var j :| 0 <= j < |s.threads| && At(s.threads[j]) == Some(q) && s.threads[j].handler.at.Opened?;
        assert j != i;
        assert s'.threads[j] == s.threads[j];
      }
    }
  }

  /** One step of an append, for its own look and its own file. */
  lemma WrittenLook(s: Server, i: nat)
    requires i < |s.threads| && s.threads[i].handler.Appending? && CurrentPath(s.threads[i].handler.rows).Some?
    requires var h := s.threads[i].handler;
             LooksHold(s) && !Overlap(Write(s, i, h.rows, h.more, h.at))
    ensures var h := s.threads[i].handler;
            var p, s' := CurrentPath(h.rows).value, Write(s, i, h.rows, h.more, h.at);
            && |s'.threads| == |s.threads|
            && (h.at.Ready? ==> s'.files == s.files) && (!h.at.Ready? ==> At(s.threads[i]) == Some(p) && p in s'.files)
            && (h.at.Opened? ==> At(s'.threads[i]) == None && s'.files[p] != [])
            && (!h.at.Opened? ==> At(s'.threads[i]) == Some(p) && ContentOf(s'.files, p) == ContentOf(s.files, p))
            && (h.at.Looked? ==> s'.threads[i].handler.at.Opened?)
            && LookHolds(s'.files, s'.threads[i])
  {
    hide Elsewhere, RowsIn, PathOf, Block, CurrentPath;
    var Appending(rows, more, at) := s.threads[i].handler;
    var p, s' := CurrentPath(rows).value, Write(s, i, rows, more, at);
    BlockIsNotEmpty(rows, p, at.Opened? && at.isNew);
    assert LookHolds(s.files, s.threads[i]);
    if at.Ready? && p in s.files && s.files[p] == [] {
      EmptyMeansOverlap(s, s', i, p);
      assert false;
    }
  }

  lemma EmptyMeansOverlap(s: Server, s': Server, i: nat, p: Path)
    requires LooksHold(s) && i < |s.threads| == |s'.threads| && At(s.threads[i]) == None && At(s'.threads[i]) == Some(p)
    requires forall j :: 0 <= j < |s.threads| && j != i ==> s'.threads[j] == s.threads[j]
    requires p in s.files && s.files[p] == []
    ensures Overlap(s')
  {
    var o :| 0 <= o < |s.threads| && At(s.threads[o]) == Some(p) && s.threads[o].handler.at.Opened?;
    assert At(s'.threads[o]) == At(s'.threads[i]);
  }

  lemma BlockIsNotEmpty(rows: seq<Row>, p: Path, isNew: bool)
    requires CurrentPath(rows) == Some(p)
    ensures Block(rows, p, isNew) != []
  {
    FirstIsInGroup(rows, p);
  }

  lemma {:induction false} FirstIsInGroup(rows: seq<Row>, p: Path)
    requires CurrentPath(rows) == Some(p)
    ensures Group(rows, p) != []
  {
    hide PathOf;
    if |rows| > 1 {
      FirstIsInGroup(Butlast(rows), p);
    }
  }

  /**
   * So headers come out right as long as no append fails, no process stops, and no two writers, which
   * are then of different processes, are ever between their look at a file and their write to it.
   */
  lemma {:induction false} OneHeaderWithoutOverlaps(size: nat, steps: seq<Step>, p: Path)
    requires forall n :: 0 <= n <= |steps| ==> !Overlap(Run(size, steps[..n]))
    requires forall n :: 0 <= n < |steps| ==> steps[n].Arrive? || steps[n].Advance?
    ensures LooksHold(Run(size, steps)) && Tidy(p, ContentOf(Run(size, steps).files, p))
  {
    assert steps[..|steps|] == steps;
    if steps != [] {
      var before, step := Butlast(steps), Last(steps);
      assert forall n :: 0 <= n <= |before| ==> before[..n] == steps[..n];
      assert forall n :: 0 <= n < |before| ==> before[n] == steps[n];
      assert steps[|before|] == step && steps[..|before|] == before;
      OneHeaderWithoutOverlaps(size, before, p);
      RunUnfolds(size, steps);
      hide Run, Do, LooksHold, Overlap, Tidy;
      LooksHoldStep(Run(size, before), size, step);
      NotStale(Run(size, before), step, p);
      TidyStep(Run(size, before), size, step, p);
    }
  }

  lemma NotStale(s: Server, step: Step, p: Path)
    requires LooksHold(s) && (step.Arrive? || step.Advance?)
    ensures !Stale(s, step, p)
  {
    hide Block;
    if step.Advance? && step.thread < |s.threads| {
      assert LookHolds(s.files, s.threads[step.thread]);
    }
  }

  // --- Runs that go wrong -------------------------------------------------------------------------

  lemma {:induction false} RunsJoin(s: Server, size: nat, xs: seq<Step>, ys: seq<Step>)
    ensures Continue(s, size, xs + ys) == Continue(Continue(s, size, xs), size, ys)
    decreases |ys|
  {
    hide Do;
    if ys == [] {
      assert xs + ys == xs;
    } else {
      assert Butlast(xs + ys) == xs + Butlast(ys);
      RunsJoin(s, size, xs, Butlast(ys));
    }
  }

  lemma TwoSteps(s: Server, size: nat, a: Step, b: Step)
    ensures Continue(s, size, [a, b]) == Do(Do(s, size, a), size, b)
    ensures Continue(s, size, [a]) == Do(s, size, a)
  {
    hide Do;
    assert Butlast([a, b]) == [a] && Butlast([a]) == [] && Continue(s, size, []) == s;
    assert Continue(s, size, [a]) == Do(s, size, a);
    assert Continue(s, size, [a, b]) == Do(Continue(s, size, [a]), size, b);
  }

  lemma FourSteps(s: Server, size: nat, a: Step, b: Step, c: Step, d: Step)
    ensures Continue(s, size, [a, b, c, d]) == Do(Do(Do(Do(s, size, a), size, b), size, c), size, d)
  {
    hide Do, Continue;
    assert [a, b] + [c, d] == [a, b, c, d];
    RunsJoin(s, size, [a, b], [c, d]);
    TwoSteps(s, size, a, b);
    TwoSteps(Continue(s, size, [a, b]), size, c, d);
  }

  lemma OneIsUnique(size: nat, r: Row)
    ensures Unique([], size, [r]) == [r] && Keys([r]) == [KeyOf(r)] && Unique([], size, []) == []
  {
    assert Butlast([r]) == [] && [] + Keys([]) == [] && [] + [r] == [r];
  }

  lemma DuplicateIsDropped(window: seq<Key>, size: nat, r: Row)
    requires KeyOf(r) in LastN(window, size)
    ensures Unique(window, size, [r]) == [] && Unique(window, size, []) == [] && Keys([]) == []
  {
    assert Butlast([r]) == [] && window + Keys([]) == window;
  }

  /** A handler that finds its row a duplicate answers, and has written nothing. */
  lemma DuplicateIsAnswered(s: Server, size: nat, i: nat, p: Process, r: Row)
    requires i < |s.threads| && s.threads[i] == Thread(p, [r], [], Arrived) && KeyOf(r) in LastN(WindowOf(s, p), size)
    ensures var s' := Continue(s, size, [Advance(i), Advance(i), Advance(i), Advance(i)]);
            && s'.threads == s.threads[i := Thread(p, [r], [], Done)]
            && s'.files == s.files && s'.log == s.log && s'.lost == s.lost && s'.accepted == s.accepted
  {
    FourSteps(s, size, Advance(i), Advance(i), Advance(i), Advance(i));
    hide Continue, LastN, KeyOf, Unique, Keys, Busy;
    DuplicateIsDropped(WindowOf(s, p), size, r);
    assert WindowOf(s, p) + [] == WindowOf(s, p) && s.accepted + [] == s.accepted;
    NothingIsStampable();
    var s1 := Do(s, size, Advance(i));
    assert s1.threads[i].handler == Holding([], true) && WindowOf(s1, p) == WindowOf(s, p);
    var s2 := Do(s1, size, Advance(i));
    assert s2.threads[i].handler == Midway && s2 == With(s1, i, Midway);
    var s3 := Do(s2, size, Advance(i));
    assert s3.threads[i].handler == Holding([], false);
  }

  /**
   * An append fails, on a full disk say, and the client sends the row again: the answer is a success, the
   * row a duplicate, and it was never written. No overlap and no restart is needed.
   */
  lemma AFailedAppendIsAcknowledgedByTheRetry(size: nat, r: Row)
    requires 0 < size && r.stamp.At?
    ensures var first := [Arrive(Api, [r], []), Advance(0), Fail(0, 0), Arrive(Api, [r], [])];
            var s := Run(size, first + [Advance(1), Advance(1), Advance(1), Advance(1)]);
            s.threads[..] == [Thread(Api, [r], [], Failed), Thread(Api, [r], [], Done)] && s.log == [] && s.lost == [r]
  {
    var first := [Arrive(Api, [r], []), Advance(0), Fail(0, 0), Arrive(Api, [r], [])];
    RunsJoin(Empty, size, first, [Advance(1), Advance(1), Advance(1), Advance(1)]);
    FourSteps(Empty, size, first[0], first[1], first[2], first[3]);
    hide Continue, Do, KeyOf;
    AppendFails(size, r);
    DuplicateIsAnswered(Continue(Empty, size, first), size, 1, Api, r);
  }

  lemma AppendFails(size: nat, r: Row)
    requires 0 < size
    ensures var s := Do(Do(Do(Do(Empty, size, Arrive(Api, [r], [])), size, Advance(0)), size, Fail(0, 0)), size,
                        Arrive(Api, [r], []));
            && s.threads == [Thread(Api, [r], [], Failed), Thread(Api, [r], [], Arrived)]
            && s.log == [] && s.lost == [r] && KeyOf(r) in LastN(WindowOf(s, Api), size)
  {
    hide Unique, KeyOf, Keys;
    OneIsUnique(size, r);
    assert [] + [r] == [r] && [] + [KeyOf(r)] == [KeyOf(r)];
    var s1 := Do(Empty, size, Arrive(Api, [r], []));
    var s2 := Do(s1, size, Advance(0));
    assert s2.threads == [Thread(Api, [r], [], Holding([r], true))] && WindowOf(s2, Api) == [KeyOf(r)];
    var s3 := Do(s2, size, Fail(0, 0));
    assert s3.threads == [Thread(Api, [r], [], Failed)] && s3.lost == [r] && s3.windows == s2.windows;
  }

  /**
   * Or the connection drops while the handler is between its two locks: the retry is answered in full as
   * duplicates, and then the process stops.
   */
  lemma ARestartLosesAcknowledgedRows(size: nat, r: Row)
    requires 0 < size && r.stamp.At?
    ensures var first := [Arrive(Api, [r], []), Advance(0), Arrive(Api, [r], []), Arrive(Worker, [], [])];
            var s := Run(size, first + [Advance(1), Advance(1), Advance(1), Advance(1)] + [Restart(Api)]);
            |s.threads| == 3 && s.threads[1].handler == Done && s.log == [] && s.lost == [r]
  {
    var first := [Arrive(Api, [r], []), Advance(0), Arrive(Api, [r], []), Arrive(Worker, [], [])];
    var four := [Advance(1), Advance(1), Advance(1), Advance(1)];
    hide *;
    RunIsContinue(size, first + four + [Restart(Api)]);
    ThreeRuns(Empty, size, first, four, [Restart(Api)]);
    FourSteps(Empty, size, Arrive(Api, [r], []), Advance(0), Arrive(Api, [r], []), Arrive(Worker, [], []));
    BetweenTheLocks(size, r);
    var s := Continue(Empty, size, first);
    DuplicateIsAnswered(s, size, 1, Api, r);
    TwoSteps(Continue(s, size, four), size, Restart(Api), Restart(Api));
    StopsBetweenTheLocks(Continue(s, size, four), size, r);
  }

  lemma RunIsContinue(size: nat, steps: seq<Step>)
    ensures Run(size, steps) == Continue(Empty, size, steps)
  {
  }

  lemma ThreeRuns(s: Server, size: nat, xs: seq<Step>, ys: seq<Step>, zs: seq<Step>)
    ensures Continue(s, size, xs + ys + zs) == Continue(Continue(Continue(s, size, xs), size, ys), size, zs)
  {
    hide Continue;
    RunsJoin(s, size, xs + ys, zs);
    RunsJoin(s, size, xs, ys);
  }

  lemma StopsBetweenTheLocks(s: Server, size: nat, r: Row)
    requires s.threads
             == [Thread(Api, [r], [], Holding([r], true)), Thread(Api, [r], [], Done), Thread(Worker, [], [], Arrived)]
    requires s.log == [] && s.lost == []
    ensures var s' := Do(s, size, Restart(Api));
            |s'.threads| == 3 && s'.threads[1].handler == Done && s'.log == [] && s'.lost == [r]
  {
    hide Stopped, Dropped;
    StoppedThree(s.threads, r);
    assert [] + [r] == [r];
  }

  lemma BetweenTheLocks(size: nat, r: Row)
    requires 0 < size
    ensures var s2 := Do(Do(Empty, size, Arrive(Api, [r], [])), size, Advance(0));
            var s := Do(Do(s2, size, Arrive(Api, [r], [])), size, Arrive(Worker, [], []));
            && s.threads
               == [Thread(Api, [r], [], Holding([r], true)), Thread(Api, [r], [], Arrived),
                   Thread(Worker, [], [], Arrived)]
            && s.log == [] && s.lost == [] && KeyOf(r) in LastN(WindowOf(s, Api), size)
  {
    hide Unique, KeyOf, Keys;
    OneIsUnique(size, r);
    assert [] + [KeyOf(r)] == [KeyOf(r)];
    var s2 := Do(Do(Empty, size, Arrive(Api, [r], [])), size, Advance(0));
    assert s2.threads == [Thread(Api, [r], [], Holding([r], true))] && WindowOf(s2, Api) == [KeyOf(r)];
  }

  lemma StoppedThree(threads: seq<Thread>, r: Row)
    requires threads
             == [Thread(Api, [r], [], Holding([r], true)), Thread(Api, [r], [], Done), Thread(Worker, [], [], Arrived)]
    ensures |Stopped(threads, Api)| == 3 && Stopped(threads, Api)[1].handler == Done && Dropped(threads, Api) == [r]
  {
    assert Butlast(threads) == threads[..2] && Butlast(threads[..2]) == threads[..1] && Butlast(threads[..1]) == [];
    assert Dropped(threads[..1], Api) == [] + [r] == [r];
    assert Dropped(threads[..2], Api) == [r] + [] == [r];
    assert Stopped(threads[..1], Api) == [threads[0].(handler := Failed)];
  }

  /** A writer's first two steps, alone in its process with a row: its key is accepted, and it has the lock. */
  lemma StartsAppend(s: Server, size: nat, i: nat, p: Process, r: Row)
    requires i < |s.threads| && s.threads[i] == Thread(p, [r], [], Arrived) && r.stamp.At?
    requires WindowOf(s, p) == [] && !Busy(s, p)
    ensures var s' := Continue(s, size, [Advance(i), Advance(i)]);
            && s'.threads == s.threads[i := Thread(p, [r], [], Appending([r], true, Ready))]
            && s'.files == s.files && forall q :: q != p ==> WindowOf(s', q) == WindowOf(s, q)
  {
    TwoSteps(s, size, Advance(i), Advance(i));
    hide Continue, Unique, KeyOf, Keys;
    OneIsUnique(size, r);
    var s1 := Do(s, size, Advance(i));
    assert s1.threads[i].handler == Holding([r], true);
    assert !Busy(s1, p) by {
      assert forall j :: 0 <= j < |s.threads| && j != i ==> s1.threads[j] == s.threads[j];
    }
  }

  lemma SingleRow(r: Row, p: Path, isNew: bool)
    requires PathOf(r) == Some(p)
    ensures CurrentPath([r]) == Some(p) && Elsewhere([r], p) == []
    ensures Block([r], p, isNew) == if isNew then [Header, Data(r)] else [Data(r)]
  {
    assert Butlast([r]) == [] && Group([r], p) == [] + [r] == [r];
    assert Lines([r]) == [Data(r)];
  }

  /** Two writers that both look at a file before either has written it both write its header. */
  lemma BothWriteTheHeader(s: Server, size: nat, i: nat, j: nat, a: Row, b: Row, p: Path)
    requires i < |s.threads| && j < |s.threads| && i != j && PathOf(a) == PathOf(b) == Some(p) && p !in s.files
    requires s.threads[i].handler == Appending([a], true, Ready) && s.threads[j].handler == Appending([b], true, Ready)
    ensures var looked := Do(Do(s, size, Advance(i)), size, Advance(j));
            var created := Do(Do(looked, size, Advance(i)), size, Advance(j));
            var end := Do(Do(created, size, Advance(i)), size, Advance(j));
            ContentOf(end.files, p) == [Header, Data(a), Header, Data(b)] && !Tidy(p, ContentOf(end.files, p))
  {
    hide Elsewhere, Block, PathOf, RowsIn, CurrentPath;
    SingleRow(a, p, true);
    SingleRow(b, p, true);
    var looked := Do(Do(s, size, Advance(i)), size, Advance(j));
    assert looked.threads[i].handler == Appending([a], true, Looked(true));
    assert looked.threads[j].handler == Appending([b], true, Looked(true));
    var created := Do(Do(looked, size, Advance(i)), size, Advance(j));
    assert created.threads[i].handler == Appending([a], true, Opened(true));
    assert created.threads[j].handler == Appending([b], true, Opened(true));
    assert ContentOf(created.files, p) == [];
    var end := Do(Do(created, size, Advance(i)), size, Advance(j));
    assert ContentOf(end.files, p) == [] + [Header, Data(a)] + [Header, Data(b)];
    assert ContentOf(end.files, p)[1..][1] == Header;
  }

  /** And server and worker can get there from the start. */
  lemma ServerAndWorkerWriteTwoHeaders(size: nat, a: Row, b: Row, p: Path)
    requires PathOf(a) == PathOf(b) == Some(p)
    ensures var arrive := [Arrive(Api, [a], []), Arrive(Worker, [b], [])];
            var start := arrive + [Advance(0), Advance(0)] + [Advance(1), Advance(1)];
            var race := [Advance(0), Advance(1), Advance(0), Advance(1)] + [Advance(0), Advance(1)];
            ContentOf(Run(size, start + race).files, p) == [Header, Data(a), Header, Data(b)]
  {
    assert a.stamp.At? && b.stamp.At?;
    var arrive := [Arrive(Api, [a], []), Arrive(Worker, [b], [])];
    var start := arrive + [Advance(0), Advance(0)] + [Advance(1), Advance(1)];
    var four := [Advance(0), Advance(1), Advance(0), Advance(1)];
    var s0 := Empty.(threads := [Thread(Api, [a], [], Arrived), Thread(Worker, [b], [], Arrived)]);
    BothArrive(size, a, b);
    hide *;
    RunIsContinue(size, start + (four + [Advance(0), Advance(1)]));
    RunsJoin(Empty, size, start, four + [Advance(0), Advance(1)]);
    ThreeRuns(Empty, size, arrive, [Advance(0), Advance(0)], [Advance(1), Advance(1)]);
    BothStart(s0, size, a, b);
    var s := Continue(Continue(s0, size, [Advance(0), Advance(0)]), size, [Advance(1), Advance(1)]);
    RunsJoin(s, size, four, [Advance(0), Advance(1)]);
    FourSteps(s, size, Advance(0), Advance(1), Advance(0), Advance(1));
    TwoSteps(Continue(s, size, four), size, Advance(0), Advance(1));
    BothWriteTheHeader(s, size, 0, 1, a, b, p);
  }

  lemma BothArrive(size: nat, a: Row, b: Row)
    ensures Continue(Empty, size, [Arrive(Api, [a], []), Arrive(Worker, [b], [])])
            == Empty.(threads := [Thread(Api, [a], [], Arrived), Thread(Worker, [b], [], Arrived)])
  {
    TwoSteps(Empty, size, Arrive(Api, [a], []), Arrive(Worker, [b], []));
    hide Continue;
  }

  lemma BothStart(s: Server, size: nat, a: Row, b: Row)
    requires a.stamp.At? && b.stamp.At?
    requires s == Empty.(threads := [Thread(Api, [a], [], Arrived), Thread(Worker, [b], [], Arrived)])
    ensures var s' := Continue(Continue(s, size, [Advance(0), Advance(0)]), size, [Advance(1), Advance(1)]);
            && s'.files == map[] && |s'.threads| == 2
            && s'.threads[0].handler == Appending([a], true, Ready)
            && s'.threads[1].handler == Appending([b], true, Ready)
  {
    hide Continue;
    StartsAppend(s, size, 0, Api, a);
    StartsAppend(Continue(s, size, [Advance(0), Advance(0)]), size, 1, Worker, b);
  }

  /** A file that a failed append created and left empty gets rows without a header from the next. */
  lemma AnEmptyFileStaysWithoutAHeader(s: Server, size: nat, i: nat, r: Row, p: Path)
    requires i < |s.threads| && s.threads[i].handler == Appending([r], true, Ready) && PathOf(r) == Some(p)
    requires p in s.files && s.files[p] == []
    ensures var s' := Do(Do(Do(s, size, Advance(i)), size, Advance(i)), size, Advance(i));
            ContentOf(s'.files, p) == [Data(r)] && !Tidy(p, ContentOf(s'.files, p))
  {
    hide Elsewhere, Block, PathOf, RowsIn, CurrentPath;
    SingleRow(r, p, false);
    var s2 := Do(Do(s, size, Advance(i)), size, Advance(i));
    assert s2.threads[i].handler == Appending([r], true, Opened(false)) && ContentOf(s2.files, p) == [];
    assert [] + [Data(r)] == [Data(r)];
  }

  /** A restart forgets the window of its process, and of no other: whatever was accepted before is accepted again. */
  lemma ARestartForgetsTheWindow(s: Server, size: nat, p: Process, r: Row)
    ensures var i := |s.threads|;
            var s' := Do(Do(Do(s, size, Restart(p)), size, Arrive(p, [r], [])), size, Advance(i));
            && i < |s'.threads| && s'.threads[i].handler == Holding([r], true)
            && s'.accepted == s.accepted + [r] && WindowOf(s', p) == [KeyOf(r)]
            && forall q :: q != p ==> WindowOf(s', q) == WindowOf(s, q)
  {
    hide Unique, KeyOf, Keys, Dropped, Stopped;
    OneIsUnique(size, r);
    assert [] + [KeyOf(r)] == [KeyOf(r)];
  }

  // --- Undisturbed writers ------------------------------------------------------------------------

  function Advances(i: nat, n: nat): (r: seq<Step>)
    ensures |r| == n
  {
    seq(n, _ => Advance(i))
  }

  lemma {:induction false} ElsewhereGroups(rows: seq<Row>, p: Path, q: Path)
    ensures Group(Elsewhere(rows, p), q) == if q == p then [] else Group(rows, q)
    ensures |Group(rows, p)| + |Elsewhere(rows, p)| == |rows|
  {
    hide PathOf;
    if rows != [] {
      ElsewhereGroups(Butlast(rows), p, q);
      assert Butlast(Elsewhere(Butlast(rows), p) + [Last(rows)]) == Elsewhere(Butlast(rows), p);
    }
  }

  ghost predicate NoEmptyFiles(files: Files) {
    forall p :: p in files ==> files[p] != []
  }

  /** Three steps of a writer that nobody disturbs: one file of its batch is written. */
  lemma WriteOneFile(s: Server, size: nat, i: nat, rows: seq<Row>, more: bool, p: Path)
    requires i < |s.threads| && s.threads[i].handler == Appending(rows, more, Ready)
    requires CurrentPath(rows) == Some(p) && NoEmptyFiles(s.files)
    ensures var s' := Continue(s, size, Advances(i, 3));
            && |s'.threads| == |s.threads| && NoEmptyFiles(s'.files) && s'.windows == s.windows
            && s'.threads[i].handler
               == (if Elsewhere(rows, p) == [] then After(more) else Appending(Elsewhere(rows, p), more, Ready))
            && forall q :: ContentOf(s'.files, q)
                           == if q == p then WithGroup(ContentOf(s.files, p), Group(rows, p)) else ContentOf(s.files, q)
  {
    hide Elsewhere, PathOf, CurrentPath, RowsIn, Continue;
    FirstIsInGroup(rows, p);
    ThreeSteps(s, size, Advance(i), Advance(i), Advance(i));
    assert Advances(i, 3) == [Advance(i), Advance(i), Advance(i)];
    var s1 := Do(s, size, Advance(i));
    var s2 := Do(s1, size, Advance(i));
    var isNew := p !in s.files;
    assert s2.threads[i].handler == Appending(rows, more, Opened(isNew));
    assert ContentOf(s2.files, p) == ContentOf(s.files, p);
    var s3 := Do(s2, size, Advance(i));
    BlockAfterLook(s.files, rows, p, isNew);
    assert ContentOf(s3.files, p) == ContentOf(s.files, p) + Block(rows, p, isNew);
    hide Group, Block, WithGroup;
    forall q ensures ContentOf(s3.files, q)
                     == if q == p then WithGroup(ContentOf(s.files, p), Group(rows, p)) else ContentOf(s.files, q) {
      assert q != p ==> (q in s3.files <==> q in s.files);
    }
    assert NoEmptyFiles(s3.files);
  }

  lemma ThreeSteps(s: Server, size: nat, a: Step, b: Step, c: Step)
    ensures Continue(s, size, [a, b, c]) == Do(Do(Do(s, size, a), size, b), size, c)
  {
    hide Do, Continue;
    assert [a, b] + [c] == [a, b, c];
    RunsJoin(s, size, [a, b], [c]);
    TwoSteps(s, size, a, b);
    TwoSteps(Continue(s, size, [a, b]), size, c, c);
  }

  lemma BlockAfterLook(files: Files, rows: seq<Row>, p: Path, isNew: bool)
    requires NoEmptyFiles(files) && Group(rows, p) != [] && (isNew <==> p !in files)
    ensures ContentOf(files, p) + Block(rows, p, isNew) == WithGroup(ContentOf(files, p), Group(rows, p)) != []
  {
    hide Group;
    assert isNew ==> ContentOf(files, p) + Block(rows, p, true) == Block(rows, p, true);
    assert [] + Lines(Group(rows, p)) == Lines(Group(rows, p));
  }

  lemma {:induction false} AppendAlone(s: Server, size: nat, i: nat, rows: seq<Row>, more: bool) returns (n: nat)
    requires i < |s.threads| && s.threads[i].handler == Appending(rows, more, Ready)
    requires rows != [] && Stampable(rows) && NoEmptyFiles(s.files)
    ensures var s' := Continue(s, size, Advances(i, n));
            && |s'.threads| == |s.threads| && s'.threads[i].handler == After(more) && s'.windows == s.windows
            && NoEmptyFiles(s'.files)
            && forall q :: ContentOf(s'.files, q) == WithGroup(ContentOf(s.files, q), Group(rows, q))
    decreases |rows|
  {
    hide Elsewhere, PathOf, Continue, Group, NoEmptyFiles, Stampable, Advances, CurrentPath, WithGroup;
    PathIsCurrent(rows);
    var p := CurrentPath(rows).value;
    WriteOneFile(s, size, i, rows, more, p);
    n := 3;
    var rest, s1 := Elsewhere(rows, p), Continue(s, size, Advances(i, 3));
    FirstIsInGroup(rows, p);
    ElsewhereGroups(rows, p, p);
    ElsewhereIsStampable(rows, p);
    if rest == [] {
      forall q | q != p ensures WithGroup(ContentOf(s.files, q), Group(rows, q)) == ContentOf(s.files, q) {
        ElsewhereGroups(rows, p, q);
        EmptyGroups(q, ContentOf(s.files, q));
      }
    } else {
      var m := AppendAlone(s1, size, i, rest, more);
      n := 3 + m;
      AdvancesJoin(i, 3, m);
      RunsJoin(s, size, Advances(i, 3), Advances(i, m));
      var s2 := Continue(s, size, Advances(i, n));
      forall q ensures ContentOf(s2.files, q) == WithGroup(ContentOf(s.files, q), Group(rows, q)) {
        ElsewhereGroups(rows, p, q);
        EmptyGroups(q, ContentOf(s1.files, q));
      }
    }
  }

  lemma EmptyGroups(q: Path, content: seq<CsvLine>)
    ensures Group([], q) == [] && WithGroup(content, []) == content
  {
  }

  lemma AdvancesJoin(i: nat, m: nat, n: nat)
    ensures Advances(i, m + n) == Advances(i, m) + Advances(i, n)
  {
  }

  /** The list a handler goes on to, and where it gets with it. */
  function NextRows(t: Thread): seq<Row> {
    if t.handler.Arrived? then t.electrical else t.weather
  }

  /**
   * A writer that nobody disturbs does to the window and to each file, with either of its lists, what the
   * writing methods do in one go: so those, and what is proved of them, describe the handlers between which
   * there is no overlap.
   */
  lemma AnUndisturbedWriteIsStage(s: Server, size: nat, i: nat) returns (n: nat)
    requires i < |s.threads| && (s.threads[i].handler.Arrived? || s.threads[i].handler.Midway?)
    requires Stampable(Unique(WindowOf(s, s.threads[i].process), size, NextRows(s.threads[i])))
    requires !Busy(s, s.threads[i].process) && NoEmptyFiles(s.files)
    ensures var s', t := Continue(s, size, Advances(i, n)), s.threads[i];
            var staged := Stage(Staged(WindowOf(s, t.process), s.files), size, NextRows(t)).0;
            && |s'.threads| == |s.threads| && s'.threads[i].handler == After(t.handler.Arrived?)
            && WindowOf(s', t.process) == staged.history && NoEmptyFiles(s'.files)
            && forall q :: ContentOf(s'.files, q) == ContentOf(staged.files, q)
  {
    var t := s.threads[i];
    var u := Unique(WindowOf(s, t.process), size, NextRows(t));
    hide *;
    AcceptsAndStarts(s, size, i);
    StagesTheUnique(Staged(WindowOf(s, t.process), s.files), size, NextRows(t));
    var s2 := Continue(s, size, Advances(i, 2));
    EqualFiles(s.files, s2.files);
    if u == [] {
      n := 2;
      GroupsOfNone(s.files, u);
    } else {
      var m := AppendAlone(s2, size, i, u, t.handler.Arrived?);
      n := 2 + m;
      AdvancesJoin(i, 2, m);
      RunsJoin(s, size, Advances(i, 2), Advances(i, m));
      SameWindow(s2, Continue(s, size, Advances(i, n)), t.process);
    }
  }

  lemma StagesTheUnique(staged: Staged, size: nat, rows: seq<Row>)
    requires Stampable(Unique(staged.history, size, rows)) && NoEmptyFiles(staged.files)
    ensures var u, staged' := Unique(staged.history, size, rows), Stage(staged, size, rows).0;
            && staged'.history == staged.history + Keys(u)
            && forall q :: ContentOf(staged'.files, q) == WithGroup(ContentOf(staged.files, q), Group(u, q))
  {
    var u := Unique(staged.history, size, rows);
    hide Unique, Keys, Stampable, NoEmptyFiles, Group, WithGroup, AppendRows;
    forall q
      ensures ContentOf(AppendRows(staged.files, u), q) == WithGroup(ContentOf(staged.files, q), Group(u, q))
    {
      AppendToFull(staged.files, u, q);
    }
  }

  lemma EqualFiles(a: Files, b: Files)
    requires a == b
    ensures (NoEmptyFiles(a) <==> NoEmptyFiles(b)) && forall q :: ContentOf(a, q) == ContentOf(b, q)
  {
  }

  lemma GroupsOfNone(files: Files, rows: seq<Row>)
    requires rows == []
    ensures forall q :: WithGroup(ContentOf(files, q), Group(rows, q)) == ContentOf(files, q)
  {
  }

  lemma SameWindow(s: Server, s': Server, p: Process)
    requires s.windows == s'.windows
    ensures WindowOf(s, p) == WindowOf(s', p)
  {
  }

  /** The first two steps of it: keys are remembered, and the lock is taken if there is anything to write. */
  lemma AcceptsAndStarts(s: Server, size: nat, i: nat)
    requires i < |s.threads| && (s.threads[i].handler.Arrived? || s.threads[i].handler.Midway?)
    requires Stampable(Unique(WindowOf(s, s.threads[i].process), size, NextRows(s.threads[i])))
    requires !Busy(s, s.threads[i].process)
    ensures var s', t := Continue(s, size, Advances(i, 2)), s.threads[i];
            var u, more := Unique(WindowOf(s, t.process), size, NextRows(t)), t.handler.Arrived?;
            && |s'.threads| == |s.threads| && s'.files == s.files
            && WindowOf(s', t.process) == WindowOf(s, t.process) + Keys(u)
            && s'.threads[i].handler == if u == [] then After(more) else Appending(u, more, Ready)
  {
    hide Unique, Advances, Continue, Stampable, KeyOf, Keys;
    TwoSteps(s, size, Advance(i), Advance(i));
    AdvancesTwo(i);
    StillFree(s, Do(s, size, Advance(i)), i);
  }

  lemma {:induction false} OnlyOneMoves(s: Server, size: nat, i: nat, n: nat)
    requires i < |s.threads|
    ensures var s' := Continue(s, size, Advances(i, n));
            && |s'.threads| == |s.threads| && s'.threads == s.threads[i := s'.threads[i]]
            && SameSent(s'.threads[i], s.threads[i])
  {
    if n > 0 {
      assert Butlast(Advances(i, n)) == Advances(i, n - 1) && Last(Advances(i, n)) == Advance(i);
      OnlyOneMoves(s, size, i, n - 1);
      hide Do, Proceed, Advances;
      var before := Continue(s, size, Advances(i, n - 1));
      ProceedMoves(before, size, i);
      AdvanceProceeds(before, size, i);
      assert Continue(s, size, Advances(i, n)) == Do(before, size, Advance(i)) by {
        ContinueUnfolds(s, size, Advances(i, n));
      }
    }
  }

  lemma AdvanceProceeds(s: Server, size: nat, i: nat)
    requires i < |s.threads|
    ensures Do(s, size, Advance(i)) == Proceed(s, size, i)
  {
    hide Proceed;
  }

  lemma ContinueUnfolds(s: Server, size: nat, steps: seq<Step>)
    requires steps != []
    ensures Continue(s, size, steps) == Do(Continue(s, size, Butlast(steps)), size, Last(steps))
  {
    hide Do;
  }

  /**
   * A whole handler that nobody disturbs answers, and leaves window and files as the two writes of its
   * lists leave them, one after the other.
   */
  lemma AnUndisturbedHandlerAnswers(s: Server, size: nat, i: nat) returns (n: nat)
    requires i < |s.threads| && s.threads[i].handler.Arrived?
    requires Stampable(Unique(WindowOf(s, s.threads[i].process), size, s.threads[i].electrical))
    requires Stampable(s.threads[i].weather) && NobodyAppends(s) && NoEmptyFiles(s.files)
    ensures var s', t := Continue(s, size, Advances(i, n)), s.threads[i];
            var first := Stage(Staged(WindowOf(s, t.process), s.files), size, t.electrical).0;
            var second := Stage(first, size, t.weather).0;
            && |s'.threads| == |s.threads| && s'.threads[i].handler == Done
            && WindowOf(s', t.process) == second.history && NoEmptyFiles(s'.files)
            && forall q :: ContentOf(s'.files, q) == ContentOf(second.files, q)
  {
    hide *;
    NobodyIsBusy(s, s.threads[i].process);
    NextIs(s.threads[i]);
    var m := AnUndisturbedWriteIsStage(s, size, i);
    OnlyOneMoves(s, size, i, m);
    var s1 := Continue(s, size, Advances(i, m));
    MidwayIsNext(s, s1, i);
    UniqueIsStampableToo(WindowOf(s1, s.threads[i].process), size, s.threads[i].weather);
    var k := AnUndisturbedWriteIsStage(s1, size, i);
    n := m + k;
    AdvancesJoin(i, m, k);
    RunsJoin(s, size, Advances(i, m), Advances(i, k));
    var t := s.threads[i];
    var first := Stage(Staged(WindowOf(s, t.process), s.files), size, t.electrical).0;
    StageLeavesNoEmptyFile(Staged(WindowOf(s, t.process), s.files), size, t.electrical);
    StageSees(Staged(WindowOf(s1, t.process), s1.files), first, size, t.weather);
  }

  /** And one with a timestamp that does not parse fails as the writing methods do, before it writes anything. */
  lemma AnUndisturbedWriteRaises(s: Server, size: nat, i: nat)
    requires i < |s.threads| && (s.threads[i].handler.Arrived? || s.threads[i].handler.Midway?)
    requires !Stampable(Unique(WindowOf(s, s.threads[i].process), size, NextRows(s.threads[i])))
    ensures var s', t := Continue(s, size, Advances(i, 2)), s.threads[i];
            && |s'.threads| == |s.threads| && s'.threads[i].handler == Failed && s'.files == s.files
            && WindowOf(s', t.process)
               == Stage(Staged(WindowOf(s, t.process), s.files), size, NextRows(t)).0.history
  {
    hide Unique, Stampable, KeyOf, Keys, LastN, Continue;
    TwoSteps(s, size, Advance(i), Advance(i));
    AdvancesTwo(i);
  }

  lemma NextIs(t: Thread)
    ensures t.handler.Arrived? ==> NextRows(t) == t.electrical && After(true) == Midway
    ensures t.handler.Midway? ==> NextRows(t) == t.weather && After(false) == Done
  {
  }

  /** After the first list nobody is in the way of the second. */
  lemma MidwayIsNext(s: Server, s': Server, i: nat)
    requires NobodyAppends(s) && i < |s.threads| == |s'.threads| && s'.threads == s.threads[i := s'.threads[i]]
    requires SameSent(s'.threads[i], s.threads[i]) && s'.threads[i].handler == After(true)
    ensures s'.threads[i].handler == Midway && NextRows(s'.threads[i]) == s.threads[i].weather
    ensures s'.threads[i].process == s.threads[i].process && s'.threads[i].weather == s.threads[i].weather
    ensures !Busy(s', s'.threads[i].process) && After(false) == Done
  {
  }

  lemma StageLeavesNoEmptyFile(s: Staged, size: nat, rows: seq<Row>)
    requires NoEmptyFiles(s.files)
    ensures NoEmptyFiles(Stage(s, size, rows).0.files)
  {
    var u := Unique(s.history, size, rows);
    hide Unique, Stampable, Keys;
    if Stampable(u) {
      AppendLeavesNoEmptyFile(s.files, u);
    }
  }

  lemma AppendLeavesNoEmptyFile(files: Files, rows: seq<Row>)
    requires NoEmptyFiles(files) && Stampable(rows)
    ensures NoEmptyFiles(AppendRows(files, rows))
  {
    hide Stampable, AppendRows, Group, Lines;
    var after := AppendRows(files, rows);
    forall p | p in after ensures after[p] != [] {
      AppendRowsAt(files, rows, p);
    }
  }

  ghost predicate NobodyAppends(s: Server) {
    forall j :: 0 <= j < |s.threads| ==> !s.threads[j].handler.Appending?
  }

  lemma NobodyIsBusy(s: Server, p: Process)
    requires NobodyAppends(s)
    ensures !Busy(s, p)
  {
  }

  /** A write sees of the files only what is in them. */
  lemma StageSees(a: Staged, b: Staged, size: nat, rows: seq<Row>)
    requires Stampable(Unique(a.history, size, rows)) && NoEmptyFiles(a.files) && NoEmptyFiles(b.files)
    requires a.history == b.history && forall q :: ContentOf(a.files, q) == ContentOf(b.files, q)
    ensures forall q :: ContentOf(Stage(a, size, rows).0.files, q) == ContentOf(Stage(b, size, rows).0.files, q)
    ensures Stage(a, size, rows).0.history == Stage(b, size, rows).0.history
  {
    var u := Unique(a.history, size, rows);
    hide Unique, NoEmptyFiles, Stampable, Keys;
    forall q ensures ContentOf(AppendRows(a.files, u), q) == ContentOf(AppendRows(b.files, u), q) {
      AppendToFull(a.files, u, q);
      AppendToFull(b.files, u, q);
    }
  }

  lemma AdvancesTwo(i: nat)
    ensures Advances(i, 2) == [Advance(i), Advance(i)]
  {
  }

  lemma StillFree(s: Server, s': Server, i: nat)
    requires i < |s.threads| == |s'.threads| && s'.threads == s.threads[i := s'.threads[i]]
    requires !s'.threads[i].handler.Appending?
    requires s'.threads[i].process == s.threads[i].process && !Busy(s, s.threads[i].process)
    ensures !Busy(s', s.threads[i].process)
  {
  }

  lemma AppendToFull(files: Files, rows: seq<Row>, q: Path)
    requires Stampable(rows) && NoEmptyFiles(files)
    ensures ContentOf(AppendRows(files, rows), q) == WithGroup(ContentOf(files, q), Group(rows, q))
  {
    AppendRowsAt(files, rows, q);
  }
}
