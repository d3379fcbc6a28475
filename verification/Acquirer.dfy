/** The lake acquirer's runs over the staging tree (gda_acquirer/gridwitness_acquire.py). */
module Acquirer {
  import opened Basics
  import opened Lake

  const HOUR: int := 3600000000

  function HourOf(k: Key): int {
    k.micros / HOUR
  }

  /** One staged hour file, its rows already framed for the lake. */
  datatype HourFile = HourFile(hour: int, rows: seq<Row>)

  /** The hour files of one kind in name order, which is time order. */
  type Tree = seq<HourFile>

  /** What staging guarantees: one file per hour, holding only rows of that hour. */
  ghost predicate ValidTree(t: Tree) {
    t != [] ==>
      && ValidTree(Butlast(t))
      && EndsBefore(Butlast(t), Last(t).hour)
      && forall r :: r in Last(t).rows ==> HourOf(r.key) == Last(t).hour
  }

  predicate EndsBefore(t: Tree, hour: int) {
    t == [] || Last(t).hour < hour
  }

  function FileAt(t: Tree, hour: int): seq<Row> {
    if t == [] then [] else if Last(t).hour == hour then Last(t).rows else FileAt(Butlast(t), hour)
  }

  predicate Uncovered(hour: int, since: Option<int>) {
    since.None? || since.value < hour
  }

  function ReadStaging(t: Tree, since: Option<int>): seq<Row> {
    if t == [] then []
    else if Uncovered(Last(t).hour, since) then ReadStaging(Butlast(t), since) + Last(t).rows
    else ReadStaging(Butlast(t), since)
  }

  function LatestHour(t: Tree): Option<int> {
    if t == [] then None
    else
      var best := LatestHour(Butlast(t));
      if best.None? || best.value < Last(t).hour then Some(Last(t).hour) else best
  }

  predicate InHorizon(k: Key, cutoff: Option<int>) {
    cutoff.None? || k.micros <= cutoff.value
  }

  /** Rows up to the horizon cutoff; no cutoff means no clamp. */
  function Clamp(rows: seq<Row>, cutoff: Option<int>): seq<Row> {
    if rows == [] then []
    else if InHorizon(Last(rows).key, cutoff) then Clamp(Butlast(rows), cutoff) + [Last(rows)]
    else Clamp(Butlast(rows), cutoff)
  }

  function Batch(t: Tree, since: Option<int>, cutoff: Option<int>): seq<Row> {
    Clamp(ReadStaging(t, since), cutoff)
  }

  function Advanced(since: Option<int>, t: Tree): Option<int> {
    if LatestHour(t).Some? then LatestHour(t) else since
  }

  // --- A run as it happens ------------------------------------------------------------------------

  class Runner {
    const electrical: Dataset
    const weather: Dataset
    var electricalCovered: Option<int>  // the saved state file
    var weatherCovered: Option<int>

    constructor (electrical: Dataset, weather: Dataset)
      requires electrical != weather
      ensures this.electrical == electrical && this.weather == weather
      ensures electricalCovered == None && weatherCovered == None
    {
      this.electrical, this.weather := electrical, weather;
      electricalCovered, weatherCovered := None, None;
    }

    method Read(t: Tree, since: Option<int>) returns (rows: seq<Row>)
      ensures rows == ReadStaging(t, since)
    {
      rows := [];
      for i := 0 to |t|
        invariant rows == ReadStaging(t[..i], since)
      {
        assert Butlast(t[..i + 1]) == t[..i];
        if Uncovered(t[i].hour, since) {
          rows := rows + t[i].rows;
        }
      }
      assert t[..|t|] == t;
    }

    method Latest(t: Tree) returns (best: Option<int>)
      ensures best == LatestHour(t)
    {
      best := None;
      for i := 0 to |t|
        invariant best == LatestHour(t[..i])
      {
        assert Butlast(t[..i + 1]) == t[..i];
        if best.None? || best.value < t[i].hour {
          best := Some(t[i].hour);
        }
      }
      assert t[..|t|] == t;
    }

    /** One dataset's half of a run. The cursor it returns is not saved yet. */
    method RunKind(d: Dataset, scans: Scans, since: Option<int>, cutoff: Option<int>, budget: nat)
      returns (wrote: nat, covered: Option<int>, done: set<Week>, left: nat, died: bool)
      modifies d
      ensures done <= WritableIn(scans, old(d.files), since, cutoff, d.week)
      ensures d.files == WrittenFor(old(d.files), Batch(scans.first, since, cutoff), d.week, done)
      ensures wrote == CountIn(Batch(scans.first, since, cutoff), d.week, done)
      ensures !died ==> done == WritableIn(scans, old(d.files), since, cutoff, d.week)
      ensures !died ==> covered == Advanced(since, scans.second)
    {
      hide Writable, WrittenFor, CountIn;
      var rows := Read(scans.first, since);
      wrote, done, left, died := d.WriteDataset(Clamp(rows, cutoff), scans.unreadable, budget);
      var newest := Latest(scans.second);
      covered := if newest.Some? then newest else since;
    }

    /**
     * A whole run with `budget` file-system steps to live. Both cursors are saved together, last, in one
     * atomic replace: a run that dies anywhere leaves some weeks rewritten and the old cursors.
     */
    method Run(e: Scans, w: Scans, cutoff: Option<int>, budget: nat)
      returns (total: nat, doneE: set<Week>, doneW: set<Week>, died: bool)
      requires electrical != weather
      modifies this, electrical, weather
      ensures electrical.files
              == WrittenFor(old(electrical.files), Batch(e.first, old(electricalCovered), cutoff),
                            electrical.week, doneE)
      ensures weather.files
              == WrittenFor(old(weather.files), Batch(w.first, old(weatherCovered), cutoff), weather.week, doneW)
      ensures died ==> electricalCovered == old(electricalCovered) && weatherCovered == old(weatherCovered)
      ensures !died ==> doneE == WritableIn(e, old(electrical.files), old(electricalCovered), cutoff, electrical.week)
      ensures !died ==> doneW == WritableIn(w, old(weather.files), old(weatherCovered), cutoff, weather.week)
      ensures !died ==> electricalCovered == Advanced(old(electricalCovered), e.second)
      ensures !died ==> weatherCovered == Advanced(old(weatherCovered), w.second)
      ensures !died ==> total == CountIn(Batch(e.first, old(electricalCovered), cutoff), electrical.week, doneE)
                                 + CountIn(Batch(w.first, old(weatherCovered), cutoff), weather.week, doneW)
    {
      hide WritableIn, WrittenFor, CountIn, Batch, Advanced;
      NothingWritten(weather.files, Batch(w.first, weatherCovered, cutoff), weather.week);
      var coveredE, coveredW, left, wrote;
      doneW := {};
      total, coveredE, doneE, left, died := RunKind(electrical, e, electricalCovered, cutoff, budget);
      if died {
        return;
      }
      wrote, coveredW, doneW, left, died := RunKind(weather, w, weatherCovered, cutoff, left);
      total := total + wrote;
      if died || left < 2 {
        died := true;
        return;
      }
      electricalCovered, weatherCovered := coveredE, coveredW;
    }
  }

  /**
   * What a run meets of one dataset: staging as its first scan reads it and as its second scan lists it,
   * the server writing on in between; and the weeks whose file it fails to read.
   */
  datatype Scans = Scans(first: Tree, second: Tree, unreadable: set<Week>)

  function WritableIn(scans: Scans, lake: Lake, since: Option<int>, cutoff: Option<int>, week: Calendar): set<Week> {
    Writable(lake, Batch(scans.first, since, cutoff), week, scans.unreadable)
  }

  // --- Keyed views of a batch ---------------------------------------------------------------------

  lemma {:induction false} ForeignHour(rows: seq<Row>, k: Key)
    requires forall r :: r in rows ==> r.key != k
    ensures Lookup(rows, k) == None
  {
    if rows != [] {
      assert Last(rows) in rows && forall r :: r in Butlast(rows) ==> r in rows;
      ForeignHour(Butlast(rows), k);
    }
  }

  lemma {:induction false} NoFileBeyond(t: Tree, hour: int)
    requires ValidTree(t) && EndsBefore(t, hour)
    ensures FileAt(t, hour) == []
  {
    if t != [] {
      NoFileBeyond(Butlast(t), hour);
    }
  }

  lemma {:induction false} ReadView(t: Tree, since: Option<int>, k: Key)
    requires ValidTree(t)
    ensures Lookup(ReadStaging(t, since), k)
            == if Uncovered(HourOf(k), since) then Lookup(FileAt(t, HourOf(k)), k) else None
  {
    if t != [] {
      var front, last := Butlast(t), Last(t);
      ReadView(front, since, k);
      LookupConcat(ReadStaging(front, since), last.rows, k);
      if last.hour == HourOf(k) {
        NoFileBeyond(front, last.hour);
      } else {
        ForeignHour(last.rows, k);
      }
    }
  }

  lemma {:induction false} ClampView(rows: seq<Row>, cutoff: Option<int>, k: Key)
    ensures Lookup(Clamp(rows, cutoff), k) == if InHorizon(k, cutoff) then Lookup(rows, k) else None
  {
    if rows != [] {
      ClampView(Butlast(rows), cutoff, k);
    }
  }

  /** What a run reads for a key: its hour file, if the hour is past the cursor and the key inside the horizon. */
  function Offered(t: Tree, since: Option<int>, cutoff: Option<int>, k: Key): Option<Cells> {
    if (since.None? || since.value < HourOf(k)) && (cutoff.None? || k.micros <= cutoff.value)
    then Lookup(FileAt(t, HourOf(k)), k)
    else None
  }

  lemma BatchView(t: Tree, since: Option<int>, cutoff: Option<int>, k: Key)
    requires ValidTree(t)
    ensures Lookup(Batch(t, since, cutoff), k) == Offered(t, since, cutoff, k)
  {
    ReadView(t, since, k);
    ClampView(ReadStaging(t, since), cutoff, k);
  }

  lemma {:induction false} LatestIsLast(t: Tree, hour: int)
    requires ValidTree(t)
    ensures LatestHour(t) == if t == [] then None else Some(Last(t).hour)
    ensures FileAt(t, hour) != [] ==> t != [] && hour <= Last(t).hour
  {
    if t != [] {
      LatestIsLast(Butlast(t), hour);
    }
  }

  /**
   * Where a run that ends leaves the cursor, whatever it read: at the newest hour that the second scan lists,
   * even if that is before the old cursor; and where it was if there is no file.
   */
  lemma {:induction false} TheCursorIsTheNewestHour(since: Option<int>, t: Tree)
    ensures t == [] ==> Advanced(since, t) == since
    ensures t != [] ==>
              && Advanced(since, t).Some?
              && (exists i :: 0 <= i < |t| && t[i].hour == Advanced(since, t).value)
              && (forall i :: 0 <= i < |t| ==> t[i].hour <= Advanced(since, t).value)
  {
    if t != [] {
      var front, n := Butlast(t), |t| - 1;
      TheCursorIsTheNewestHour(since, front);
      assert forall i :: 0 <= i < n ==> front[i] == t[i];
      assert t[n] == Last(t);
      LatestOfNone();
      if front != [] {
        var i :| 0 <= i < n && front[i].hour == LatestHour(front).value;
        assert t[i].hour == LatestHour(front).value;
      }
    }
  }

  lemma LatestOfNone()
    ensures LatestHour([]) == None
  {
  }

  // --- Histories of one dataset -------------------------------------------------------------------

  /**
   * Where a run is. Between its two scans it holds the batch it read, the weeks still to write and the
   * weeks it skipped because their file failed to read; after the second scan, the cursor it will save.
   */
  datatype Phase = Idle | Writing(batch: seq<Row>, todo: set<Week>, skipped: set<Week>) | Scanned(next: Option<int>)

  /** Staging, the lake, the saved cursor and the run of one dataset. Runs do not overlap: they hold a lock. */
  datatype Sys = Sys(tree: Tree, lake: Lake, cursor: Option<int>, phase: Phase)

  /**
   * The server stages a row, at any time; a run scans staging for rows; rewrites a week, or skips it;
   * scans staging for the newest hour; saves the cursor; or dies. Whether a file can be read is decided
   * anew at each attempt, so files go bad and are mended at any time.
   */
  datatype Op =
    | Stage(row: Row)
    | Read(cutoff: Option<int>)
    | Rewrite(p: Week, readable: bool)
    | Scan
    | Save
    | Die

  const Nothing := Sys([], map[], None, Idle)

  function StageRow(t: Tree, r: Row): Tree {
    var h := HourOf(r.key);
    if EndsBefore(t, h) then t + [HourFile(h, [r])]
    else if Last(t).hour == h then Butlast(t) + [HourFile(h, Last(t).rows + [r])]
    else StageRow(Butlast(t), r) + [Last(t)]
  }

  function Do(s: Sys, week: Calendar, op: Op): Sys {
    match op
    case Stage(row) => s.(tree := StageRow(s.tree, row))
    case Read(cutoff) =>
      if !s.phase.Idle? then s
      else
        var batch := Batch(s.tree, s.cursor, cutoff);
        s.(phase := Writing(batch, Weeks(batch, week), {}))
    case Rewrite(p, readable) => if Due(s, p) then RewriteOne(s, week, p, readable) else s
    case Scan => if Finished(s) then s.(phase := Scanned(Advanced(s.cursor, s.tree))) else s
    case Save => if s.phase.Scanned? then s.(cursor := s.phase.next, phase := Idle) else s
    case Die => s.(phase := Idle)
  }

  /** A week that the run in progress has still to write. */
  predicate Due(s: Sys, p: Week) {
    s.phase.Writing? && p in s.phase.todo
  }

  predicate Finished(s: Sys) {
    s.phase.Writing? && s.phase.todo == {}
  }

  function RewriteOne(s: Sys, week: Calendar, p: Week, readable: bool): Sys
    requires Due(s, p)
  {
    var Writing(batch, todo, skipped) := s.phase;
    if p in s.lake && !readable then s.(phase := Writing(batch, todo - {p}, skipped + {p}))
    else s.(lake := s.lake[p := Rewritten(s.lake, p, GroupOf(batch, week, p))],
            phase := Writing(batch, todo - {p}, skipped))
  }

  function Continue(s: Sys, week: Calendar, ops: seq<Op>): Sys {
    if ops == [] then s else Do(Continue(s, week, Butlast(ops)), week, Last(ops))
  }

  /** What the staging tree says about a key. */
  function StagedAt(s: Sys, k: Key): Option<Cells> {
    Lookup(FileAt(s.tree, HourOf(k)), k)
  }

  lemma {:induction false} StageRowKeepsOrder(t: Tree, r: Row)
    requires ValidTree(t)
    ensures ValidTree(StageRow(t, r)) && StageRow(t, r) != []
    ensures Last(StageRow(t, r)).hour == if EndsBefore(t, HourOf(r.key)) then HourOf(r.key) else Last(t).hour
  {
    hide HourOf;
    var h, t' := HourOf(r.key), StageRow(t, r);
    if EndsBefore(t, h) {
      assert Butlast(t') == t;
    } else if Last(t).hour == h {
      assert Butlast(t') == Butlast(t);
    } else {
      StageRowKeepsOrder(Butlast(t), r);
      assert Butlast(t') == StageRow(Butlast(t), r);
    }
  }

  lemma {:induction false} StageRowFiles(t: Tree, r: Row, hour: int)
    requires ValidTree(t)
    ensures FileAt(StageRow(t, r), hour) == if hour == HourOf(r.key) then FileAt(t, hour) + [r] else FileAt(t, hour)
  {
    hide HourOf;
    var h, t' := HourOf(r.key), StageRow(t, r);
    if EndsBefore(t, h) {
      assert Butlast(t') == t;
      NoFileBeyond(t, h);
    } else if Last(t).hour == h {
      assert Butlast(t') == Butlast(t);
    } else {
      StageRowFiles(Butlast(t), r, hour);
      assert Butlast(t') == StageRow(Butlast(t), r);
    }
  }

  /** Staging one row: the tree stays in order, and only the row's own hour file grows. */
  lemma StageRowView(t: Tree, r: Row, hour: int)
    requires ValidTree(t)
    ensures ValidTree(StageRow(t, r)) && StageRow(t, r) != []
    ensures FileAt(StageRow(t, r), hour) == if hour == HourOf(r.key) then FileAt(t, hour) + [r] else FileAt(t, hour)
    ensures Last(StageRow(t, r)).hour == if EndsBefore(t, HourOf(r.key)) then HourOf(r.key) else Last(t).hour
  {
    StageRowKeepsOrder(t, r);
    StageRowFiles(t, r, hour);
  }

  lemma StageView(s: Sys, week: Calendar, row: Row, k: Key)
    requires ValidTree(s.tree)
    ensures var s' := Do(s, week, Stage(row));
            && ValidTree(s'.tree) && s'.tree != []
            && (s.tree != [] ==> Last(s.tree).hour <= Last(s'.tree).hour)
            && StagedAt(s', k) == if row.key == k then Some(row.cells) else StagedAt(s, k)
  {
    hide StageRow, FileAt;
    var h := HourOf(k);
    StageRowView(s.tree, row, h);
    assert Butlast(FileAt(s.tree, h) + [row]) == FileAt(s.tree, h);
  }

  /** One rewrite, for one key. */
  lemma RewriteView(s: Sys, week: Calendar, p: Week, readable: bool, k: Key)
    requires Due(s, p)
    ensures At(RewriteOne(s, week, p, readable).lake, week, k)
            == if week(k.micros) == p && (readable || p !in s.lake)
               then Overlay(Lookup(s.phase.batch, k), At(s.lake, week, k))
               else At(s.lake, week, k)
  {
    hide At, Rewritten, GroupOf, Overlay;
    RewrittenView(s.lake, s.phase.batch, week, p, k);
  }

  // --- What every history keeps -------------------------------------------------------------------

  predicate NotBefore(later: Option<int>, earlier: Option<int>) {
    earlier.Some? ==> later.Some? && earlier.value <= later.value
  }

  /** A cursor that does not pass the newest staged hour. */
  predicate Within(cursor: Option<int>, t: Tree) {
    cursor.Some? ==> t != [] && cursor.value <= Last(t).hour
  }

  /**
   * Cursors never pass the newest staged hour; a batch has no key of a covered hour; and neither the batch
   * nor the lake holds a key that was never staged.
   */
  ghost predicate Inv(s: Sys, week: Calendar, k: Key) {
    && ValidTree(s.tree) && Within(s.cursor, s.tree)
    && (s.phase.Writing? && Lookup(s.phase.batch, k).Some? ==> StagedAt(s, k).Some? && Uncovered(HourOf(k), s.cursor))
    && (s.phase.Writing? ==> s.phase.todo !! s.phase.skipped)
    && (s.phase.Scanned? ==> Within(s.phase.next, s.tree) && NotBefore(s.phase.next, s.cursor))
    && (At(s.lake, week, k).Some? ==> StagedAt(s, k).Some?)
  }

  /** How a step changes what a key's theorems speak of. */
  lemma StepView(s: Sys, week: Calendar, op: Op, k: Key)
    requires Inv(s, week, k)
    ensures var s' := Do(s, week, op);
            && Inv(s', week, k)
            && NotBefore(s'.cursor, s.cursor)
            && (StagedAt(s, k).Some? ==> StagedAt(s', k).Some?)
            && (!op.Stage? ==> s'.tree == s.tree && StagedAt(s', k) == StagedAt(s, k))
            && (!op.Rewrite? ==> s'.lake == s.lake)
            && (!op.Save? ==> s'.cursor == s.cursor)
            && (op.Read? && s.phase.Idle? ==>
                  s'.phase.Writing? && Lookup(s'.phase.batch, k) == Offered(s.tree, s.cursor, op.cutoff, k)
                  && (Lookup(s'.phase.batch, k).Some? ==> week(k.micros) in s'.phase.todo))
            && (op.Stage? ==> StagedAt(s', k) == if op.row.key == k then Some(op.row.cells) else StagedAt(s, k))
            && (op.Rewrite? ==>
                  (At(s'.lake, week, k)
                   == if Due(s, op.p) && week(k.micros) == op.p && (op.readable || op.p !in s.lake)
                      then Overlay(Lookup(s.phase.batch, k), At(s.lake, week, k)) else At(s.lake, week, k)))
  {
    hide Lookup, At, FileAt, StageRow, ValidTree, Rewritten, GroupOf, Batch, LatestHour;
    match op
    case Stage(row) => StageView(s, week, row, k);
    case Read(cutoff) =>
      BatchView(s.tree, s.cursor, cutoff, k);
      GroupView(Batch(s.tree, s.cursor, cutoff), week, k);
    case Rewrite(p, readable) =>
      if Due(s, p) {
        RewriteView(s, week, p, readable, k);
      }
    case Scan => LatestIsLast(s.tree, 0);
    case _ =>
  }

  lemma {:induction false} HistoryKeepsInv(week: Calendar, ops: seq<Op>, k: Key)
    ensures Inv(Continue(Nothing, week, ops), week, k)
  {
    if ops != [] {
      HistoryKeepsInv(week, Butlast(ops), k);
      hide Inv, Do;
      StepView(Continue(Nothing, week, Butlast(ops)), week, Last(ops), k);
    }
  }

  /** Once an hour is covered, nothing of it is read again: its keys stay as they are, whatever is staged later. */
  lemma {:induction false} CoveredForever(s: Sys, week: Calendar, after: seq<Op>, k: Key)
    requires Inv(s, week, k) && s.cursor.Some? && HourOf(k) <= s.cursor.value
    ensures var end := Continue(s, week, after);
            && Inv(end, week, k) && end.cursor.Some? && HourOf(k) <= end.cursor.value
            && At(end.lake, week, k) == At(s.lake, week, k)
  {
    if after != [] {
      CoveredForever(s, week, Butlast(after), k);
      hide Do, At, Lookup;
      StepView(Continue(s, week, Butlast(after)), week, Last(after), k);
    }
  }

  // --- Exactly when a row lands -------------------------------------------------------------------

  /** What may happen during a run, between its own scans and the save: rows are staged, weeks rewritten. */
  ghost predicate During(ops: seq<Op>) {
    forall op :: op in ops ==> op.Stage? || op.Rewrite?
  }

  /**
   * A run up to its second scan, for one key: its week is still due, was skipped, or shows the batch laid
   * over the lake.
   */
  lemma {:induction false} PassView(s: Sys, week: Calendar, cutoff: Option<int>, during: seq<Op>, k: Key)
    requires Inv(s, week, k) && s.phase.Idle? && During(during)
    ensures var w := Continue(Do(s, week, Read(cutoff)), week, during);
            && Inv(w, week, k) && w.cursor == s.cursor && w.phase.Writing?
            && Lookup(w.phase.batch, k) == Offered(s.tree, s.cursor, cutoff, k)
            && (StagedAt(s, k).Some? ==> StagedAt(w, k).Some?)
            && At(w.lake, week, k)
               == if week(k.micros) in w.phase.todo + w.phase.skipped then At(s.lake, week, k)
                  else Overlay(Offered(s.tree, s.cursor, cutoff, k), At(s.lake, week, k))
  {
    hide Lookup, At, FileAt, StageRow, ValidTree, Rewritten, GroupOf, Batch;
    if during == [] {
      StepView(s, week, Read(cutoff), k);
    } else {
      assert Last(during) in during && forall op :: op in Butlast(during) ==> op in during;
      PassView(s, week, cutoff, Butlast(during), k);
      StepView(Continue(Do(s, week, Read(cutoff)), week, Butlast(during)), week, Last(during), k);
    }
  }

  /** The second scan and the save: nothing but the cursor moves, to the newest hour staged at the scan. */
  lemma {:induction false} FinishView(w: Sys, week: Calendar, rest: seq<Op>, k: Key)
    requires Inv(w, week, k) && Finished(w) && During(rest)
    ensures var t := Continue(Do(w, week, Scan), week, rest);
            && Inv(t, week, k) && t.lake == w.lake && t.cursor == w.cursor
            && t.phase == Scanned(Advanced(w.cursor, w.tree))
  {
    hide Inv;
    if rest == [] {
      StepView(w, week, Scan, k);
    } else {
      assert Last(rest) in rest && forall op :: op in Butlast(rest) ==> op in rest;
      FinishView(w, week, Butlast(rest), k);
      StepView(Continue(Do(w, week, Scan), week, Butlast(rest)), week, Last(rest), k);
    }
  }

  /** A whole run: its first scan, `during`, its second scan, `rest`, and the save. */
  function RunWith(s: Sys, week: Calendar, cutoff: Option<int>, during: seq<Op>, rest: seq<Op>): Sys {
    Do(Continue(Do(Continue(Do(s, week, Read(cutoff)), week, during), week, Scan), week, rest), week, Save)
  }

  /** The system at the second scan. */
  function AtScan(s: Sys, week: Calendar, cutoff: Option<int>, during: seq<Op>): Sys {
    Continue(Do(s, week, Read(cutoff)), week, during)
  }

  /** The run that takes the cursor past an hour: the first to cover it. */
  predicate Covers(s: Sys, w: Sys, hour: int) {
    && (s.cursor.None? || s.cursor.value < hour)
    && var next := Advanced(s.cursor, w.tree); next.Some? && hour <= next.value
  }

  /**
   * What becomes of a key is decided by the one run that is first to cover its hour. After any history,
   * that run, and then anything at all, the lake shows for the key what the run's first scan read, laid
   * over what earlier runs that died had left, if the horizon let the key in and its week's file could be
   * read; and otherwise only what was there before.
   */
  lemma TheCoveringRunDecides(week: Calendar, before: seq<Op>, cutoff: Option<int>, during: seq<Op>, rest: seq<Op>,
                              after: seq<Op>, k: Key)
    requires var s := Continue(Nothing, week, before);
             && s.phase.Idle? && During(during) && During(rest)
             && var w := AtScan(s, week, cutoff, during);
                Finished(w) && Covers(s, w, HourOf(k))
    ensures var s, w := Continue(Nothing, week, before), AtScan(Continue(Nothing, week, before), week, cutoff, during);
            At(Continue(RunWith(s, week, cutoff, during, rest), week, after).lake, week, k)
            == if InHorizon(k, cutoff) && week(k.micros) !in w.phase.skipped
               then Overlay(StagedAt(s, k), At(s.lake, week, k)) else At(s.lake, week, k)
  {
    hide *;
    var s := Continue(Nothing, week, before);
    var w := AtScan(s, week, cutoff, during);
    HistoryKeepsInv(week, before, k);
    RunDecides(s, week, cutoff, during, rest, k);
    CoveredForever(RunWith(s, week, cutoff, during, rest), week, after, k);
  }

  lemma RunDecides(s: Sys, week: Calendar, cutoff: Option<int>, during: seq<Op>, rest: seq<Op>, k: Key)
    requires Inv(s, week, k) && s.phase.Idle? && During(during) && During(rest)
    requires var w := AtScan(s, week, cutoff, during); Finished(w) && Covers(s, w, HourOf(k))
    ensures var w, e := AtScan(s, week, cutoff, during), RunWith(s, week, cutoff, during, rest);
            && Inv(e, week, k) && e.cursor.Some? && HourOf(k) <= e.cursor.value
            && At(e.lake, week, k)
               == if InHorizon(k, cutoff) && week(k.micros) !in w.phase.skipped
                  then Overlay(StagedAt(s, k), At(s.lake, week, k)) else At(s.lake, week, k)
  {
    hide Inv, Lookup, At, StagedAt, FileAt, Continue, Overlay, Advanced;
    OverlayLaws(None, At(s.lake, week, k));
    PassView(s, week, cutoff, during, k);
    var w := AtScan(s, week, cutoff, during);
    FinishView(w, week, rest, k);
    StepView(Continue(Do(w, week, Scan), week, rest), week, Save, k);
    OfferedIsStaged(s, cutoff, k);
    OverlayNothing(At(s.lake, week, k));
  }

  lemma OverlayNothing(c: Option<Cells>)
    ensures Overlay(None, c) == c
  {
  }

  /** Which hours a run reads, and which keys its horizon lets in. */
  lemma OfferedIsStaged(s: Sys, cutoff: Option<int>, k: Key)
    requires Uncovered(HourOf(k), s.cursor)
    ensures Offered(s.tree, s.cursor, cutoff, k) == if InHorizon(k, cutoff) then StagedAt(s, k) else None
  {
  }

  /**
   * Exactly when a key lands. The first run to cover its hour brings it in if and only if the key was
   * staged before that run's first scan, lay inside its horizon, and its week's file could be read; and
   * then with what was staged by that scan. Otherwise no later run ever brings it in.
   */
  lemma LandsExactlyWhenOnTime(week: Calendar, before: seq<Op>, cutoff: Option<int>, during: seq<Op>, rest: seq<Op>,
                               after: seq<Op>, k: Key)
    requires var s := Continue(Nothing, week, before);
             && s.phase.Idle? && During(during) && During(rest) && At(s.lake, week, k) == None
             && var w := AtScan(s, week, cutoff, during);
                Finished(w) && Covers(s, w, HourOf(k))
    ensures var s, w := Continue(Nothing, week, before), AtScan(Continue(Nothing, week, before), week, cutoff, during);
            var end := At(Continue(RunWith(s, week, cutoff, during, rest), week, after).lake, week, k);
            && (end.Some? <==>
                  StagedAt(s, k).Some? && (cutoff.None? || k.micros <= cutoff.value)
                  && week(k.micros) !in w.phase.skipped)
            && (end.Some? ==> end == StagedAt(s, k))
  {
    hide *;
    TheCoveringRunDecides(week, before, cutoff, during, rest, after, k);
    OverlayOnNothing(StagedAt(Continue(Nothing, week, before), k));
    HorizonIsInclusive(k, cutoff);
  }

  lemma HorizonIsInclusive(k: Key, cutoff: Option<int>)
    ensures InHorizon(k, cutoff) <==> cutoff.None? || k.micros <= cutoff.value
  {
  }

  lemma OverlayOnNothing(c: Option<Cells>)
    ensures Overlay(c, None) == c
  {
  }

  /**
   * The losing input, between the scans: a row that opens a new hour after a run has read staging and
   * before it lists it is never landed, although its hour was past the cursor and no horizon was set.
   * Staged one step earlier, it lands.
   */
  lemma ARowBetweenTheScansIsLost(week: Calendar, row: Row, after: seq<Op>)
    ensures var late := [Read(None), Stage(row), Scan, Save];
            var early := [Stage(row), Read(None), Rewrite(week(row.key.micros), true), Scan, Save];
            && At(Continue(Continue(Nothing, week, late), week, after).lake, week, row.key) == None
            && At(Continue(Continue(Nothing, week, early), week, after).lake, week, row.key) == Some(row.cells)
  {
    hide *;
    LandsLate(week, row, after);
    LandsEarly(week, row, after);
  }

  lemma LandsLate(week: Calendar, row: Row, after: seq<Op>)
    ensures At(Continue(Continue(Nothing, week, [Read(None), Stage(row), Scan, Save]), week, after).lake, week,
               row.key) == None
  {
    hide *;
    LateRun(week, row);
    StagedAlone(week, row);
    DuringOne(Stage(row));
    NothingIsLanded(week, row.key);
    LandsExactlyWhenOnTime(week, [], None, [Stage(row)], [], after, row.key);
  }

  lemma LandsEarly(week: Calendar, row: Row, after: seq<Op>)
    ensures var early := [Stage(row), Read(None), Rewrite(week(row.key.micros), true), Scan, Save];
            At(Continue(Continue(Nothing, week, early), week, after).lake, week, row.key) == Some(row.cells)
  {
    hide *;
    EarlyRun(week, row);
    StagedAlone(week, row);
    var p := week(row.key.micros);
    DuringOne(Rewrite(p, true));
    LandsExactlyWhenOnTime(week, [Stage(row)], None, [Rewrite(p, true)], [], after, row.key);
  }

  lemma DuringOne(op: Op)
    requires op.Stage? || op.Rewrite?
    ensures During([op]) && During([])
  {
  }

  lemma NothingIsLanded(week: Calendar, k: Key)
    ensures Continue(Nothing, week, []) == Nothing && Nothing.phase.Idle? && At(Nothing.lake, week, k) == None
  {
  }

  lemma LateRun(week: Calendar, row: Row)
    ensures var w := AtScan(Nothing, week, None, [Stage(row)]);
            && Finished(w) && Covers(Nothing, w, HourOf(row.key))
            && Continue(Nothing, week, [Read(None), Stage(row), Scan, Save])
              == RunWith(Nothing, week, None, [Stage(row)], [])
  {
    Unrolled(Nothing, week, Read(None), Stage(row), Scan, Save);
    StagedAlone(week, row);
    hide Batch, StageRow, HourOf, LatestHour, StagedAt;
  }

  lemma EarlyRun(week: Calendar, row: Row)
    ensures var p, s := week(row.key.micros), Continue(Nothing, week, [Stage(row)]);
            var w := AtScan(s, week, None, [Rewrite(p, true)]);
            && s.phase.Idle? && At(s.lake, week, row.key) == None && StagedAt(s, row.key) == Some(row.cells)
            && Finished(w) && w.phase.skipped == {} && Covers(s, w, HourOf(row.key))
            && Continue(Nothing, week, [Stage(row), Read(None), Rewrite(p, true), Scan, Save])
               == RunWith(s, week, None, [Rewrite(p, true)], [])
  {
    hide Do, Covers, Finished;
    var p, s := week(row.key.micros), Continue(Nothing, week, [Stage(row)]);
    EarlyScan(week, row);
    Single(Nothing, week, Stage(row));
    Single(Do(s, week, Read(None)), week, Rewrite(p, true));
    Prepended(Nothing, week, Stage(row), [Read(None), Rewrite(p, true), Scan, Save]);
    Unrolled(s, week, Read(None), Rewrite(p, true), Scan, Save);
    assert [Stage(row)] + [Read(None), Rewrite(p, true), Scan, Save]
           == [Stage(row), Read(None), Rewrite(p, true), Scan, Save];
    assert Continue(Do(AtScan(s, week, None, [Rewrite(p, true)]), week, Scan), week, [])
           == Do(AtScan(s, week, None, [Rewrite(p, true)]), week, Scan);
    hide Do, Continue, Covers, Finished;
  }

  lemma EarlyScan(week: Calendar, row: Row)
    ensures var p, s := week(row.key.micros), Do(Nothing, week, Stage(row));
            var w := Do(Do(s, week, Read(None)), week, Rewrite(p, true));
            && s.phase.Idle? && At(s.lake, week, row.key) == None && StagedAt(s, row.key) == Some(row.cells)
            && Finished(w) && w.phase.skipped == {} && Covers(s, w, HourOf(row.key))
  {
    StagedAlone(week, row);
    assert Weeks([row], week) == {week(row.key.micros)};
    hide Batch, StageRow, HourOf, LatestHour, StagedAt, Rewritten, GroupOf;
  }

  lemma Single(s: Sys, week: Calendar, op: Op)
    ensures Continue(s, week, [op]) == Do(s, week, op)
  {
    hide Do;
    assert Butlast([op]) == [];
  }

  lemma StagedAlone(week: Calendar, row: Row)
    ensures StageRow([], row) == [HourFile(HourOf(row.key), [row])]
    ensures StagedAt(Nothing.(tree := StageRow([], row)), row.key) == Some(row.cells)
    ensures StagedAt(Nothing, row.key) == None
    ensures Batch([], None, None) == [] && Batch(StageRow([], row), None, None) == [row]
    ensures LatestHour(StageRow([], row)) == Some(HourOf(row.key))
  {
    var t := StageRow([], row);
    assert t == [HourFile(HourOf(row.key), [row])];
    assert Batch([], None, None) == [];
    hide StageRow, HourOf;
    ReadAlone(HourOf(row.key), row);
    LatestAlone(t[0]);
    FoundAlone(HourOf(row.key), row);
  }

  lemma ReadAlone(hour: int, row: Row)
    ensures Batch([HourFile(hour, [row])], None, None) == [row]
  {
    var t := [HourFile(hour, [row])];
    assert Butlast(t) == [] && Butlast([row]) == [];
    assert ReadStaging(t, None) == [] + [row] && [] + [row] == [row];
    assert Clamp([row], None) == [] + [row];
  }

  lemma LatestAlone(f: HourFile)
    ensures LatestHour([f]) == Some(f.hour)
  {
    assert Butlast([f]) == [];
  }

  lemma FoundAlone(hour: int, row: Row)
    ensures Lookup(FileAt([HourFile(hour, [row])], hour), row.key) == Some(row.cells)
  {
  }

  lemma Prepended(s: Sys, week: Calendar, op: Op, ops: seq<Op>)
    ensures Continue(s, week, [op] + ops) == Continue(Do(s, week, op), week, ops)
    decreases |ops|
  {
    hide Do;
    if ops == [] {
      assert [op] + ops == [op] && Butlast([op]) == [];
    } else {
      assert Butlast([op] + ops) == [op] + Butlast(ops);
      Prepended(s, week, op, Butlast(ops));
    }
  }

  lemma Unrolled(s: Sys, week: Calendar, a: Op, b: Op, c: Op, d: Op)
    ensures Continue(s, week, [a, b, c, d]) == Do(Do(Do(Do(s, week, a), week, b), week, c), week, d)
    ensures Continue(s, week, [b]) == Do(s, week, b)
    ensures forall x: Sys :: Continue(x, week, [b]) == Do(x, week, b)
    ensures forall x: Sys :: Continue(x, week, []) == x
  {
    assert [a] + [b, c, d] == [a, b, c, d] && [b] + [c, d] == [b, c, d] && [c] + [d] == [c, d];
    Prepended(s, week, a, [b, c, d]);
    Prepended(Do(s, week, a), week, b, [c, d]);
    Prepended(Do(Do(s, week, a), week, b), week, c, [d]);
    Single(Do(Do(Do(s, week, a), week, b), week, c), week, d);
    assert Butlast([b]) == [];
    hide Do;
  }

  /** The weeks a run has dealt with so far: those it skipped were there before, the others it has rewritten. */
  ghost predicate Progress(s: Sys, w: Sys, week: Calendar) {
    w.phase.Writing? &&
    var Writing(batch, todo, skipped) := w.phase;
    && todo + skipped <= Weeks(batch, week) && todo !! skipped && skipped <= s.lake.Keys
    && w.lake == WrittenFor(s.lake, batch, week, Weeks(batch, week) - todo - skipped)
  }

  lemma RewriteProgress(s: Sys, w: Sys, week: Calendar, p: Week, readable: bool)
    requires Progress(s, w, week) && Due(w, p)
    ensures Progress(s, RewriteOne(w, week, p, readable), week)
  {
    hide WrittenFor, Rewritten, GroupOf, Weeks;
    var Writing(batch, todo, skipped) := w.phase;
    var done := Weeks(batch, week) - todo - skipped;
    WrittenKeys(s.lake, batch, week, done);
    if p in w.lake && !readable {
      assert Weeks(batch, week) - (todo - {p}) - (skipped + {p}) == done;
    } else {
      OneMoreWritten(s.lake, batch, week, done, p);
      assert Weeks(batch, week) - (todo - {p}) - skipped == done + {p};
    }
  }

  lemma WrittenKeys(lake: Lake, batch: seq<Row>, week: Calendar, done: set<Week>)
    ensures WrittenFor(lake, batch, week, done).Keys == lake.Keys + done
  {
  }

  lemma {:induction false} PassProgress(s: Sys, week: Calendar, cutoff: Option<int>, during: seq<Op>)
    requires s.phase.Idle? && During(during)
    ensures var w := AtScan(s, week, cutoff, during);
            && Progress(s, w, week) && w.phase.batch == Batch(s.tree, s.cursor, cutoff) && w.cursor == s.cursor
  {
    hide WrittenFor, Rewritten, GroupOf, Weeks, Batch, StageRow, Progress;
    if during == [] {
      ReadProgress(s, week, cutoff);
    } else {
      assert Last(during) in during && forall op :: op in Butlast(during) ==> op in during;
      PassProgress(s, week, cutoff, Butlast(during));
      var w := AtScan(s, week, cutoff, Butlast(during));
      match Last(during)
      case Stage(row) => StageProgress(s, w, week, row);
      case Rewrite(p, readable) =>
        if Due(w, p) {
          RewriteProgress(s, w, week, p, readable);
        }
      case _ =>
    }
  }

  lemma ReadProgress(s: Sys, week: Calendar, cutoff: Option<int>)
    requires s.phase.Idle?
    ensures Progress(s, Do(s, week, Read(cutoff)), week)
  {
    hide WrittenFor, Weeks, Batch;
    var batch := Batch(s.tree, s.cursor, cutoff);
    NothingWritten(s.lake, batch, week);
    assert Weeks(batch, week) - Weeks(batch, week) - {} == {};
  }

  lemma StageProgress(s: Sys, w: Sys, week: Calendar, row: Row)
    requires Progress(s, w, week)
    ensures Progress(s, Do(w, week, Stage(row)), week)
  {
    hide WrittenFor, Weeks, StageRow;
  }

  /**
   * The steps of a run add up to the run as it happens: whatever is staged meanwhile, and in whichever
   * order the weeks are rewritten, they leave the files and the cursor that Runner.Run promises for a
   * first scan of the tree then, a second scan of the tree at that time, and the weeks skipped.
   */
  lemma StepsAreARun(s: Sys, week: Calendar, cutoff: Option<int>, during: seq<Op>, rest: seq<Op>, k: Key)
    requires Inv(s, week, k) && s.phase.Idle? && During(during) && During(rest)
    requires Finished(AtScan(s, week, cutoff, during))
    ensures var w, e := AtScan(s, week, cutoff, during), RunWith(s, week, cutoff, during, rest);
            var scans := Scans(s.tree, w.tree, w.phase.skipped);
            && e.lake == WrittenFor(s.lake, Batch(s.tree, s.cursor, cutoff), week,
                                    WritableIn(scans, s.lake, s.cursor, cutoff, week))
            && e.cursor == Advanced(s.cursor, w.tree) && e.phase.Idle?
  {
    hide WrittenFor, Weeks, Batch, Inv, Continue, Advanced;
    var w := AtScan(s, week, cutoff, during);
    PassProgress(s, week, cutoff, during);
    PassView(s, week, cutoff, during, k);
    FinishView(w, week, rest, k);
    var batch := w.phase.batch;
    assert Weeks(batch, week) - w.phase.todo - w.phase.skipped == Weeks(batch, week) - (w.phase.skipped * s.lake.Keys);
  }

  /**
   * Two versions of a row, and a run that dies in between: the older is landed by the run that dies, the
   * newer staged after it, and the run that covers the hour shows a mixture. Here it is the newer row
   * with the columns that only the older had, which no row ever said together.
   */
  lemma ACrashMixesTwoVersions(week: Calendar, key: Key, older: Cells, newer: Cells, column: string)
    requires column in older && column !in newer
    ensures var p := week(key.micros);
            var crash := [Stage(Row(key, older)), Read(None), Rewrite(p, true), Die];
            var covering := [Stage(Row(key, newer)), Read(None), Rewrite(p, true), Scan, Save];
            var end := Continue(Continue(Nothing, week, crash), week, covering);
            && StagedAt(end, key) == Some(newer) && At(end.lake, week, key) == Some(older + newer)
            && older + newer != newer
  {
    var p, r, q := week(key.micros), Row(key, older), Row(key, newer);
    var died := Continue(Nothing, week, [Stage(r), Read(None), Rewrite(p, true), Die]);
    Unrolled(Nothing, week, Stage(r), Read(None), Rewrite(p, true), Die);
    Prepended(died, week, Stage(q), [Read(None), Rewrite(p, true), Scan, Save]);
    assert [Stage(q)] + [Read(None), Rewrite(p, true), Scan, Save]
           == [Stage(q), Read(None), Rewrite(p, true), Scan, Save];
    var s := Do(died, week, Stage(q));
    Unrolled(s, week, Read(None), Rewrite(p, true), Scan, Save);
    Single(Do(s, week, Read(None)), week, Rewrite(p, true));
    NoSteps(Do(AtScan(s, week, None, [Rewrite(p, true)]), week, Scan), week);
    hide Do, Continue;
    CrashLandsTheOlder(week, r);
    StagedAgain(week, died, r, q);
    CoveringRunMixes(s, week, key, older, newer);
  }

  lemma NoSteps(s: Sys, week: Calendar)
    ensures Continue(s, week, []) == s
  {
  }

  lemma CrashLandsTheOlder(week: Calendar, r: Row)
    ensures var p := week(r.key.micros);
            var s := Do(Do(Do(Do(Nothing, week, Stage(r)), week, Read(None)), week, Rewrite(p, true)), week, Die);
            && s.tree == [HourFile(HourOf(r.key), [r])] && s.cursor == None && s.phase.Idle?
            && At(s.lake, week, r.key) == Some(r.cells)
  {
    hide Batch, HourOf, LatestHour, StagedAt, Rewritten, GroupOf, At, Lookup;
    StagedAlone(week, r);
    var p, s := week(r.key.micros), Do(Nothing, week, Stage(r));
    assert Weeks([r], week) == {p};
    var read := Do(s, week, Read(None));
    RewriteView(read, week, p, true, r.key);
    LookupOne(r);
    NothingAt(week, r.key);
  }

  lemma LookupOne(r: Row)
    ensures Lookup([r], r.key) == Some(r.cells)
  {
  }

  lemma NothingAt(week: Calendar, k: Key)
    ensures At(map[], week, k) == None
  {
  }

  lemma StagedAgain(week: Calendar, died: Sys, r: Row, q: Row)
    requires died.tree == [HourFile(HourOf(r.key), [r])] && died.cursor == None && died.phase.Idle? && q.key == r.key
    ensures var s := Do(died, week, Stage(q));
            && s.tree == [HourFile(HourOf(r.key), [r, q])] && s.lake == died.lake && s.cursor == None && s.phase.Idle?
            && StagedAt(s, r.key) == Some(q.cells) && ValidTree(s.tree)
  {
    var h := HourOf(r.key);
    OneFileIsValid(h, r);
    StageTwice(h, r, q);
    hide HourOf, StageRow, ValidTree, StagedAt;
    StageView(died, week, q, r.key);
  }

  lemma OneFileIsValid(hour: int, r: Row)
    requires HourOf(r.key) == hour
    ensures ValidTree([HourFile(hour, [r])])
  {
    assert Butlast([HourFile(hour, [r])]) == [];
  }

  lemma StageTwice(hour: int, r: Row, q: Row)
    requires HourOf(q.key) == hour
    ensures StageRow([HourFile(hour, [r])], q) == [HourFile(hour, [r, q])]
  {
    assert Butlast([HourFile(hour, [r])]) == [] && [r] + [q] == [r, q];
  }

  lemma CoveringRunMixes(s: Sys, week: Calendar, key: Key, older: Cells, newer: Cells)
    requires s.tree == [HourFile(HourOf(key), [Row(key, older), Row(key, newer)])] && s.cursor == None && s.phase.Idle?
    requires At(s.lake, week, key) == Some(older) && StagedAt(s, key) == Some(newer) && ValidTree(s.tree)
    ensures var end := RunWith(s, week, None, [Rewrite(week(key.micros), true)], []);
            StagedAt(end, key) == Some(newer) && At(end.lake, week, key) == Some(older + newer)
  {
    var p := week(key.micros);
    var during := [Rewrite(p, true)];
    CoveringScan(s, week, key, older, newer);
    assert RewritesOnly(during) && During(during) && During([]) && InHorizon(key, None);
    assert Overlay(Some(newer), Some(older)) == Some(older + newer);
    hide *;
    RunDecides(s, week, None, during, [], key);
    SameTree(s, week, None, during);
    SameStaged(s, RunWith(s, week, None, during, []), key);
  }

  lemma SameStaged(s: Sys, s': Sys, k: Key)
    requires s'.tree == s.tree
    ensures StagedAt(s', k) == StagedAt(s, k)
  {
  }

  lemma CoveringScan(s: Sys, week: Calendar, key: Key, older: Cells, newer: Cells)
    requires s.tree == [HourFile(HourOf(key), [Row(key, older), Row(key, newer)])] && s.cursor == None && s.phase.Idle?
    requires At(s.lake, week, key) == Some(older) && StagedAt(s, key) == Some(newer) && ValidTree(s.tree)
    ensures var w := AtScan(s, week, None, [Rewrite(week(key.micros), true)]);
            && Inv(s, week, key) && Finished(w) && w.phase.skipped == {} && Covers(s, w, HourOf(key))
  {
    var p := week(key.micros);
    BatchOfTwo(HourOf(key), Row(key, older), Row(key, newer), week);
    LatestAlone(s.tree[0]);
    Single(Do(s, week, Read(None)), week, Rewrite(p, true));
    hide Batch, LatestHour, Rewritten, GroupOf, At, Lookup, FileAt, HourOf, Continue, ValidTree, Weeks, StagedAt;
  }

  lemma BatchOfTwo(hour: int, r: Row, q: Row, week: Calendar)
    requires r.key == q.key
    ensures var batch := Batch([HourFile(hour, [r, q])], None, None); Weeks(batch, week) == {week(r.key.micros)}
  {
    hide ReadStaging, Clamp;
    ReadOne(HourFile(hour, [r, q]));
    ClampTwo(r, q);
    assert [r, q][0] == r && Batch([HourFile(hour, [r, q])], None, None) == [r, q];
    hide Batch;
  }

  lemma ReadOne(f: HourFile)
    ensures ReadStaging([f], None) == f.rows
  {
    assert Butlast([f]) == [] && [] + f.rows == f.rows;
  }

  lemma ClampTwo(r: Row, q: Row)
    ensures Clamp([r, q], None) == [r, q]
  {
    hide Clamp;
    ClampOneMore([], r);
    ClampOneMore([r], q);
    assert [] + [r] == [r] && [r] + [q] == [r, q];
  }

  lemma ClampOneMore(front: seq<Row>, r: Row)
    ensures Clamp(front + [r], None) == Clamp(front, None) + [r]
    ensures Clamp([], None) == []
  {
    assert Butlast(front + [r]) == front;
  }

  lemma SameTree(s: Sys, week: Calendar, cutoff: Option<int>, during: seq<Op>)
    requires RewritesOnly(during)
    ensures RunWith(s, week, cutoff, during, []).tree == s.tree
  {
    RewritesKeepTree(Do(s, week, Read(cutoff)), week, during);
  }

  // --- Crashes ------------------------------------------------------------------------------------

  ghost predicate RewritesOnly(ops: seq<Op>) {
    forall op :: op in ops ==> op.Rewrite?
  }

  lemma {:induction false} RewritesKeepTree(s: Sys, week: Calendar, ops: seq<Op>)
    requires RewritesOnly(ops)
    ensures Continue(s, week, ops).tree == s.tree
  {
    if ops != [] {
      assert Last(ops) in ops && forall op :: op in Butlast(ops) ==> op in ops;
      RewritesKeepTree(s, week, Butlast(ops));
    }
  }

  /**
   * A run that dies at any point, run again over the same staging (with a horizon that has not moved
   * back, and every file readable), gives the keyed lake and the cursor of one uninterrupted run.
   */
  lemma CrashThenRerun(s: Sys, week: Calendar, first: Option<int>, part: seq<Op>, second: Option<int>,
                       again: seq<Op>, straight: seq<Op>, k: Key)
    requires Inv(s, week, k) && s.phase.Idle? && RewritesOnly(part) && RewritesOnly(again) && RewritesOnly(straight)
    requires forall q :: InHorizon(q, first) ==> InHorizon(q, second)
    requires var died := Do(AtScan(s, week, first, part), week, Die);
             var x, y := AtScan(died, week, second, again), AtScan(s, week, second, straight);
             Finished(x) && Finished(y) && x.phase.skipped == y.phase.skipped == {}
    ensures var died := Do(AtScan(s, week, first, part), week, Die);
            var rerun, once := RunWith(died, week, second, again, []), RunWith(s, week, second, straight, []);
            && At(rerun.lake, week, k) == At(once.lake, week, k)
            && rerun.cursor == once.cursor && rerun.tree == once.tree
  {
    hide Inv, Lookup, At, FileAt, StageRow, ValidTree, Rewritten, GroupOf, Batch, Overlay, LatestHour, Weeks, Finished;
    var w := AtScan(s, week, first, part);
    var died := Do(w, week, Die);
    PassView(s, week, first, part, k);
    StepView(w, week, Die, k);
    RewritesKeepTree(Do(s, week, Read(first)), week, part);
    var x, y := AtScan(died, week, second, again), AtScan(s, week, second, straight);
    PassView(died, week, second, again, k);
    PassView(s, week, second, straight, k);
    RewritesKeepTree(Do(died, week, Read(second)), week, again);
    RewritesKeepTree(Do(s, week, Read(second)), week, straight);
    FinishView(x, week, [], k);
    FinishView(y, week, [], k);
    FinishedMeans(x);
    FinishedMeans(y);
    assert x.phase.todo == {} && y.phase.todo == {};
    OverlayLaws(Offered(s.tree, s.cursor, second, k), At(s.lake, week, k));
    assert InHorizon(k, first) ==> InHorizon(k, second);
    assert Offered(s.tree, s.cursor, first, k) == Offered(s.tree, s.cursor, second, k)
      || Offered(s.tree, s.cursor, first, k) == None;
    OverlayNothing(At(s.lake, week, k));
  }

  lemma FinishedMeans(s: Sys)
    ensures Finished(s) <==> s.phase.Writing? && s.phase.todo == {}
  {
  }

  // --- Incremental landing equals full landing ----------------------------------------------------

  /** The newest hour that staging may no longer write to, for a row to be in time. */
  function Frontier(s: Sys): Option<int> {
    if s.phase.Scanned? then s.phase.next else s.cursor
  }

  /** Everything past the cursor is in the batch as staging has it. */
  ghost predicate NothingMissed(s: Sys) {
    s.phase.Writing? && forall q :: Uncovered(HourOf(q), s.cursor) ==> Lookup(s.phase.batch, q) == StagedAt(s, q)
  }

  /** No column of `older` is missing in `newer`. */
  predicate NoFewerColumns(older: Option<Cells>, newer: Cells) {
    older.Some? ==> older.value.Keys <= newer.Keys
  }

  /**
   * The conditions a step has to meet. A row staged in a covered hour repeats what staging already says
   * of its key; files can be read; and the second scan finds nothing staged that the batch lacks. Where
   * runs may die, a row staged for a known key also fills every column that was filled.
   */
  ghost predicate OnTime(s: Sys, op: Op, crashes: bool) {
    match op
    case Stage(row) =>
      if Uncovered(HourOf(row.key), Frontier(s)) then crashes ==> NoFewerColumns(StagedAt(s, row.key), row.cells)
      else StagedAt(s, row.key) == Some(row.cells)
    case Rewrite(p, readable) => Due(s, p) && p in s.lake ==> readable
    case Scan => Finished(s) ==> NothingMissed(s)
    case Die => crashes
    case _ => true
  }

  ghost predicate OnTimeHistory(week: Calendar, ops: seq<Op>, crashes: bool) {
    ops != [] ==>
      && OnTimeHistory(week, Butlast(ops), crashes)
      && OnTime(Continue(Nothing, week, Butlast(ops)), Last(ops), crashes)
  }

  /** When a run misses nothing: at its first scan, if the horizon lets in all it could read. */
  lemma ReadMissesNothing(s: Sys, week: Calendar, cutoff: Option<int>)
    requires ValidTree(s.tree) && s.phase.Idle?
    ensures NothingMissed(Do(s, week, Read(cutoff))) <==>
            forall q :: Offered(s.tree, s.cursor, None, q).Some? ==> InHorizon(q, cutoff)
  {
    var s' := Do(s, week, Read(cutoff));
    forall q ensures Lookup(s'.phase.batch, q) == Offered(s.tree, s.cursor, cutoff, q) {
      BatchView(s.tree, s.cursor, cutoff, q);
    }
    hide Lookup, StagedAt, Batch, ValidTree, HourOf;
    forall q | Uncovered(HourOf(q), s.cursor) ensures Offered(s.tree, s.cursor, None, q) == StagedAt(s, q) {
      OfferedIsStaged(s, None, q);
    }
    forall q | Uncovered(HourOf(q), s.cursor) && NothingMissed(s')
      ensures Offered(s.tree, s.cursor, None, q).Some? ==> InHorizon(q, cutoff)
    {
      OfferedIsStaged(s, cutoff, q);
      assert Lookup(s'.phase.batch, q) == StagedAt(s', q);
    }
    forall q | Uncovered(HourOf(q), s.cursor)
      ensures Offered(s.tree, s.cursor, cutoff, q) == if InHorizon(q, cutoff) then StagedAt(s, q) else None
    {
      OfferedIsStaged(s, cutoff, q);
    }
  }

  /** Later, as long as the rows staged meanwhile, in hours not yet covered, only repeat what was staged. */
  lemma StagingMissesNothing(s: Sys, week: Calendar, row: Row)
    requires ValidTree(s.tree) && NothingMissed(s)
    ensures NothingMissed(Do(s, week, Stage(row))) <==>
            Uncovered(HourOf(row.key), s.cursor) ==> StagedAt(s, row.key) == Some(row.cells)
  {
    hide Lookup, ValidTree, StagedAt;
    var s' := Do(s, week, Stage(row));
    forall q ensures StagedAt(s', q) == if row.key == q then Some(row.cells) else StagedAt(s, q) {
      StageView(s, week, row, q);
    }
    assert s'.phase == s.phase && s'.cursor == s.cursor;
    hide StageRow, HourOf;
    if NothingMissed(s') && Uncovered(HourOf(row.key), s.cursor) {
      assert Lookup(s'.phase.batch, row.key) == StagedAt(s', row.key);
    }
  }

  /** What of a key the lake may have before its hour is covered: nothing, or a part that a crash left. */
  predicate Partial(part: Option<Cells>, whole: Option<Cells>, crashes: bool) {
    part.None? || (crashes && whole.Some? && part.value.Keys <= whole.value.Keys)
  }

  /** Covered keys are in the lake as staged, written ones as read; the others are absent, or partial after a crash. */
  predicate Faithful(s: Sys, week: Calendar, k: Key, crashes: bool) {
    var was, now := At(s.lake, week, k), StagedAt(s, k);
    match s.phase
    case Idle => if Uncovered(HourOf(k), s.cursor) then Partial(was, now, crashes) else was == now
    case Writing(batch, todo, skipped) =>
      if !Uncovered(HourOf(k), s.cursor) then was == now
      else
        var b := Lookup(batch, k);
        && week(k.micros) !in skipped
        && (b.Some? && crashes ==> Partial(b, now, true))
        && if b.Some? && week(k.micros) !in todo then was == b
           else Partial(was, now, crashes) && (b.Some? ==> Partial(was, b, crashes))
    case Scanned(next) => if Uncovered(HourOf(k), next) then Partial(was, now, crashes) else was == now
  }

  lemma OverlayPartial(part: Option<Cells>, whole: Option<Cells>, crashes: bool)
    requires Partial(part, whole, crashes)
    ensures whole.Some? ==> Overlay(whole, part) == whole
  {
    if part.Some? && whole.Some? {
      assert part.value + whole.value == whole.value;
    }
  }

  lemma StageKeepsFaithful(s: Sys, week: Calendar, row: Row, k: Key, crashes: bool)
    requires Inv(s, week, k) && Faithful(s, week, k, crashes) && OnTime(s, Stage(row), crashes)
    ensures Faithful(Do(s, week, Stage(row)), week, k, crashes)
  {
    hide At, Lookup, StagedAt, HourOf;
    StepView(s, week, Stage(row), k);
    hide StageRow, Inv;
  }

  lemma ScanKeepsFaithful(s: Sys, week: Calendar, k: Key, crashes: bool)
    requires Inv(s, week, k) && Faithful(s, week, k, crashes) && OnTime(s, Scan, crashes)
    ensures Faithful(Do(s, week, Scan), week, k, crashes)
  {
    LatestIsLast(s.tree, HourOf(k));
    StagedIsInAFile(s, k);
    hide At, Lookup, StagedAt, HourOf, LatestHour, ValidTree, FileAt;
  }

  lemma StagedIsInAFile(s: Sys, k: Key)
    ensures StagedAt(s, k).Some? ==> FileAt(s.tree, HourOf(k)) != []
  {
  }

  lemma RunStepKeepsFaithful(s: Sys, week: Calendar, op: Op, k: Key, crashes: bool)
    requires Inv(s, week, k) && Faithful(s, week, k, crashes) && OnTime(s, op, crashes) && !op.Stage? && !op.Scan?
    ensures Faithful(Do(s, week, op), week, k, crashes)
  {
    hide At, Lookup, StagedAt, HourOf, Rewritten, GroupOf, Batch;
    StepView(s, week, op, k);
    match op
    case Read(cutoff) => OfferedIsPartOfStaged(s, cutoff, k);
    case Rewrite(p, readable) =>
      OverlayNothing(At(s.lake, week, k));
      if s.phase.Writing? && Lookup(s.phase.batch, k).Some? && week(k.micros) in s.phase.todo {
        OverlayPartial(At(s.lake, week, k), Lookup(s.phase.batch, k), crashes);
      }
      hide Overlay;
    case _ =>
  }

  lemma OfferedIsPartOfStaged(s: Sys, cutoff: Option<int>, k: Key)
    ensures var o := Offered(s.tree, s.cursor, cutoff, k);
            o.Some? ==> Uncovered(HourOf(k), s.cursor) && o == StagedAt(s, k)
  {
  }

  lemma {:induction false} HistoryKeepsFaithful(week: Calendar, ops: seq<Op>, s: Sys, k: Key, crashes: bool)
    requires OnTimeHistory(week, ops, crashes) && s == Continue(Nothing, week, ops)
    ensures Faithful(s, week, k, crashes)
  {
    if ops != [] {
      var before := Continue(Nothing, week, Butlast(ops));
      HistoryKeepsInv(week, Butlast(ops), k);
      HistoryKeepsFaithful(week, Butlast(ops), before, k, crashes);
      hide Inv, Faithful, OnTime, Do;
      match Last(ops)
      case Stage(row) => StageKeepsFaithful(before, week, row, k, crashes);
      case Scan => ScanKeepsFaithful(before, week, k, crashes);
      case _ => RunStepKeepsFaithful(before, week, Last(ops), k, crashes);
    }
  }

  /**
   * Incremental landing equals full landing. After any on-time history, between runs: the keys of covered
   * hours are in the lake exactly as staged, and when no run died no others are. So when every staged
   * hour is covered, the lake is, key by key, that of any one run over everything, and so is the cursor.
   */
  lemma IncrementalEqualsFull(week: Calendar, ops: seq<Op>, crashes: bool, rewrites: seq<Op>, k: Key)
    requires OnTimeHistory(week, ops, crashes) && Continue(Nothing, week, ops).phase.Idle?
    requires RewritesOnly(rewrites)
    requires var full := AtScan(Nothing.(tree := Continue(Nothing, week, ops).tree), week, None, rewrites);
             Finished(full) && full.phase.skipped == {}
    ensures var s := Continue(Nothing, week, ops);
            var full := RunWith(Nothing.(tree := s.tree), week, None, rewrites, []);
            && (s.cursor.Some? && HourOf(k) <= s.cursor.value ==> At(s.lake, week, k) == StagedAt(s, k))
            && (s.cursor.None? || s.cursor.value < HourOf(k) ==> crashes || At(s.lake, week, k) == None)
            && At(full.lake, week, k) == StagedAt(s, k) && full.cursor == LatestHour(s.tree)
            && (s.cursor == LatestHour(s.tree) ==> At(s.lake, week, k) == At(full.lake, week, k))
  {
    var s := Continue(Nothing, week, ops);
    HistoryKeepsInv(week, ops, k);
    HistoryKeepsFaithful(week, ops, s, k, crashes);
    LatestIsLast(s.tree, HourOf(k));
    StagedIsInAFile(s, k);
    FullRunView(s.tree, week, rewrites, k);
    hide Continue, At, Lookup, FileAt, LatestHour, ValidTree, RunWith, OnTimeHistory;
  }

  lemma FullRunView(t: Tree, week: Calendar, rewrites: seq<Op>, k: Key)
    requires ValidTree(t) && RewritesOnly(rewrites)
    requires var full := AtScan(Nothing.(tree := t), week, None, rewrites); Finished(full) && full.phase.skipped == {}
    ensures var s := Nothing.(tree := t);
            var full := RunWith(s, week, None, rewrites, []);
            At(full.lake, week, k) == StagedAt(s, k) && full.cursor == LatestHour(t)
  {
    var s := Nothing.(tree := t);
    var w := AtScan(s, week, None, rewrites);
    assert At(s.lake, week, k) == None && Inv(s, week, k);
    hide Inv, At, Lookup, FileAt, ValidTree, HourOf, Overlay;
    PassView(s, week, None, rewrites, k);
    FinishView(w, week, [], k);
    RewritesKeepTree(Do(s, week, Read(None)), week, rewrites);
    OverlayOnNothing(StagedAt(s, k));
    OfferedIsStaged(s, None, k);
    OverlayNothing(None);
    LatestIsLast(t, 0);
  }

  /**
   * Why crashes ask for more: when a run that died has landed a key, the run that covers its hour shows
   * what is staged by then if and only if no column was filled before that is not filled now.
   */
  lemma TheNewestStandsExactlyWhenNoColumnIsLost(s: Sys, week: Calendar, cutoff: Option<int>, during: seq<Op>,
                                                 rest: seq<Op>, k: Key)
    requires Inv(s, week, k) && s.phase.Idle? && During(during) && During(rest)
    requires StagedAt(s, k).Some? && InHorizon(k, cutoff)
    requires var w := AtScan(s, week, cutoff, during);
             Finished(w) && Covers(s, w, HourOf(k)) && week(k.micros) !in w.phase.skipped
    ensures At(RunWith(s, week, cutoff, during, rest).lake, week, k) == StagedAt(s, k) <==>
            NoFewerColumns(At(s.lake, week, k), StagedAt(s, k).value)
  {
    RunDecides(s, week, cutoff, during, rest, k);
    var was, now := At(s.lake, week, k), StagedAt(s, k);
    hide At, StagedAt, RunWith, AtScan, Inv;
    if was.Some? {
      assert (was.value + now.value).Keys == was.value.Keys + now.value.Keys;
      if was.value.Keys <= now.value.Keys {
        assert was.value + now.value == now.value;
      }
    }
  }

  // --- Presence, and the cells themselves, whatever the rows say ----------------------------------

  /** As OnTime, but a staged key may be repeated with any content. */
  ghost predicate OnTimeKeys(s: Sys, op: Op) {
    match op
    case Stage(row) => Uncovered(HourOf(row.key), Frontier(s)) || StagedAt(s, row.key).Some?
    case Rewrite(p, readable) => Due(s, p) && p in s.lake ==> readable
    case Scan =>
      Finished(s) ==>
        forall q :: Uncovered(HourOf(q), s.cursor) && StagedAt(s, q).Some? ==> Lookup(s.phase.batch, q).Some?
    case _ => true
  }

  ghost predicate OnTimeKeysHistory(week: Calendar, ops: seq<Op>) {
    ops != [] ==> OnTimeKeysHistory(week, Butlast(ops)) && OnTimeKeys(Continue(Nothing, week, Butlast(ops)), Last(ops))
  }

  predicate Present(s: Sys, week: Calendar, k: Key) {
    && (!Uncovered(HourOf(k), Frontier(s)) && StagedAt(s, k).Some? ==> At(s.lake, week, k).Some?)
    && (s.phase.Writing? && Lookup(s.phase.batch, k).Some? ==>
          week(k.micros) !in s.phase.skipped && (week(k.micros) !in s.phase.todo ==> At(s.lake, week, k).Some?))
  }

  lemma DoKeepsPresent(s: Sys, week: Calendar, op: Op, k: Key)
    requires Inv(s, week, k) && Present(s, week, k) && OnTimeKeys(s, op)
    ensures Present(Do(s, week, op), week, k)
  {
    hide At, Lookup, StagedAt, HourOf, Rewritten, GroupOf, Batch, StageRow, Overlay;
    StepView(s, week, op, k);
    match op
    case Rewrite(p, readable) => OverlayIsThere(s, week, k);
    case Scan =>
      LatestIsLast(s.tree, HourOf(k));
      StagedIsInAFile(s, k);
      hide LatestHour, ValidTree, FileAt;
    case _ =>
  }

  lemma OverlayIsThere(s: Sys, week: Calendar, k: Key)
    ensures s.phase.Writing? ==>
              var both := Overlay(Lookup(s.phase.batch, k), At(s.lake, week, k));
              (both.Some? <==> Lookup(s.phase.batch, k).Some? || At(s.lake, week, k).Some?)
  {
    hide Lookup, At;
  }

  /** After any on-time history, crashes or not, the lake has exactly the staged keys of the covered hours, at least. */
  lemma {:induction false} OnTimeKeysLand(week: Calendar, ops: seq<Op>, k: Key)
    requires OnTimeKeysHistory(week, ops)
    ensures var s := Continue(Nothing, week, ops);
            && Inv(s, week, k) && Present(s, week, k)
            && (s.phase.Idle? && s.cursor == LatestHour(s.tree) ==>
                 (At(s.lake, week, k).Some? <==> StagedAt(s, k).Some?))
  {
    var s := Continue(Nothing, week, ops);
    HistoryKeepsInv(week, ops, k);
    if ops != [] {
      OnTimeKeysLand(week, Butlast(ops), k);
      HistoryKeepsInv(week, Butlast(ops), k);
      hide Present, Inv, OnTimeKeys, Do;
      DoKeepsPresent(Continue(Nothing, week, Butlast(ops)), week, Last(ops), k);
    }
    CoveredIsThere(s, week, k);
  }

  lemma CoveredIsThere(s: Sys, week: Calendar, k: Key)
    requires Inv(s, week, k) && Present(s, week, k)
    ensures s.phase.Idle? && s.cursor == LatestHour(s.tree) ==> (At(s.lake, week, k).Some? <==> StagedAt(s, k).Some?)
  {
    LatestIsLast(s.tree, HourOf(k));
    StagedIsInAFile(s, k);
    hide At, Lookup, StagedAt, HourOf, LatestHour, ValidTree, FileAt;
  }

  predicate Says(rows: seq<Row>, k: Key, column: string, cell: Cell) {
    exists r :: r in rows && r.key == k && column in r.cells && r.cells[column] == cell
  }

  predicate Fills(rows: seq<Row>, k: Key, columns: set<string>) {
    exists r :: r in rows && r.key == k && r.cells.Keys <= columns
  }

  /** Every cell is one that some row of the key says, and no row of the key is without a trace. */
  ghost predicate Woven(rows: seq<Row>, k: Key, cells: Cells) {
    && Fills(rows, k, cells.Keys)
    && forall c :: c in cells ==> Says(rows, k, c, cells[c])
  }

  ghost predicate WovenLake(s: Sys, week: Calendar, k: Key) {
    var rows := FileAt(s.tree, HourOf(k));
    && (At(s.lake, week, k).Some? ==> Woven(rows, k, At(s.lake, week, k).value))
    && (s.phase.Writing? && Lookup(s.phase.batch, k).Some? ==> Woven(rows, k, Lookup(s.phase.batch, k).value))
  }

  lemma {:induction false} LookupFinds(rows: seq<Row>, k: Key)
    ensures Lookup(rows, k).Some? ==> exists r :: r in rows && r.key == k && Lookup(rows, k) == Some(r.cells)
  {
    if rows != [] {
      LookupFinds(Butlast(rows), k);
      assert rows == Butlast(rows) + [Last(rows)];
    }
  }

  lemma LookupIsWoven(rows: seq<Row>, k: Key)
    ensures Lookup(rows, k).Some? ==> Woven(rows, k, Lookup(rows, k).value)
  {
    LookupFinds(rows, k);
    hide Lookup;
    if Lookup(rows, k).Some? {
      var r :| r in rows && r.key == k && Lookup(rows, k) == Some(r.cells);
    }
  }

  lemma OverlayIsWoven(rows: seq<Row>, k: Key, newer: Option<Cells>, older: Option<Cells>)
    requires newer.Some? ==> Woven(rows, k, newer.value)
    requires older.Some? ==> Woven(rows, k, older.value)
    ensures Overlay(newer, older).Some? ==> Woven(rows, k, Overlay(newer, older).value)
  {
    hide Says;
    if newer.Some? && older.Some? {
      var r :| r in rows && r.key == k && r.cells.Keys <= newer.value.Keys;
      assert r.cells.Keys <= (older.value + newer.value).Keys;
    }
  }

  lemma MoreRowsStillWoven(rows: seq<Row>, row: Row, k: Key, cells: Cells)
    requires Woven(rows, k, cells)
    ensures Woven(rows + [row], k, cells)
  {
    var r :| r in rows && r.key == k && r.cells.Keys <= cells.Keys;
    assert r in rows + [row];
    forall c | c in cells ensures Says(rows + [row], k, c, cells[c]) {
      assert Says(rows, k, c, cells[c]);
      var q :| q in rows && q.key == k && c in q.cells && q.cells[c] == cells[c];
      assert q in rows + [row];
    }
  }

  lemma StepKeepsWoven(s: Sys, week: Calendar, op: Op, k: Key)
    requires Inv(s, week, k) && WovenLake(s, week, k)
    ensures WovenLake(Do(s, week, op), week, k)
  {
    hide At, Lookup, FileAt, StageRow, ValidTree, Rewritten, GroupOf, Batch, LatestHour, Woven, Overlay;
    StepView(s, week, op, k);
    var rows := FileAt(s.tree, HourOf(k));
    match op
    case Stage(row) =>
      StageRowView(s.tree, row, HourOf(k));
      if At(s.lake, week, k).Some? {
        MoreRowsStillWoven(rows, row, k, At(s.lake, week, k).value);
      }
      if s.phase.Writing? && Lookup(s.phase.batch, k).Some? {
        MoreRowsStillWoven(rows, row, k, Lookup(s.phase.batch, k).value);
      }
    case Read(cutoff) => LookupIsWoven(rows, k);
    case Rewrite(p, readable) =>
      if s.phase.Writing? {
        OverlayIsWoven(rows, k, Lookup(s.phase.batch, k), At(s.lake, week, k));
      }
    case _ =>
  }

  /** In every history, on time or not: the lake says nothing of a key that a staged row of that key did not say. */
  lemma {:induction false} LakeSaysOnlyWhatWasStaged(week: Calendar, ops: seq<Op>, k: Key)
    ensures WovenLake(Continue(Nothing, week, ops), week, k)
  {
    if ops != [] {
      LakeSaysOnlyWhatWasStaged(week, Butlast(ops), k);
      HistoryKeepsInv(week, Butlast(ops), k);
      hide Inv, WovenLake, Do;
      StepKeepsWoven(Continue(Nothing, week, Butlast(ops)), week, Last(ops), k);
    }
  }

  // --- A horizon that trails the cursor -----------------------------------------------------------

  /** Every run's horizon ends before the first hour after the cursor that run starts from. */
  ghost predicate Trails(s: Sys, op: Op) {
    op.Read? && s.phase.Idle? ==> s.cursor.Some? && op.cutoff.Some? && op.cutoff.value < (s.cursor.value + 1) * HOUR
  }

  ghost predicate TrailingHistory(s: Sys, week: Calendar, ops: seq<Op>) {
    ops != [] ==> TrailingHistory(s, week, Butlast(ops)) && Trails(Continue(s, week, Butlast(ops)), Last(ops))
  }

  lemma TrailingOffersNothing(t: Tree, cursor: int, cutoff: int, k: Key)
    requires cutoff < (cursor + 1) * HOUR
    ensures Offered(t, Some(cursor), Some(cutoff), k) == None
  {
  }

  /**
   * The horizon is meant to hold rows back, but a run moves its cursor past the rows it holds back. So
   * while the horizon trails the staged hours by more than the time between runs, no run changes the
   * lake: whatever is staged, and however often the acquirer runs.
   */
  lemma {:induction false} TrailingHorizonStarvesTheLake(s: Sys, week: Calendar, ops: seq<Op>, k: Key)
    requires Inv(s, week, k) && s.phase.Idle? && TrailingHistory(s, week, ops)
    ensures var end := Continue(s, week, ops);
            && Inv(end, week, k) && At(end.lake, week, k) == At(s.lake, week, k)
            && (end.phase.Writing? ==> Lookup(end.phase.batch, k) == None)
  {
    if ops != [] {
      TrailingHorizonStarvesTheLake(s, week, Butlast(ops), k);
      var s', op := Continue(s, week, Butlast(ops)), Last(ops);
      hide Inv, At, Lookup, StagedAt, Rewritten, GroupOf, Batch, StageRow, Overlay;
      StepView(s', week, op, k);
      OverlayNothing(At(s'.lake, week, k));
      if op.Read? && s'.phase.Idle? {
        TrailingOffersNothing(s'.tree, s'.cursor.value, op.cutoff.value, k);
      }
    }
  }
}
