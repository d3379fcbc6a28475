/** From staged rows to lake rows (frame_electrical and frame_weather), and the whole pipeline end to end. */
module Pipeline {
  import opened Basics
  import V = Privacy
  import K = Capture
  import A = Acquirer
  import C = ClientRuns
  import D = Delivery
  import Q = Requests
  import L = Lake
  import R = Registry
  import S = Staging
  import Z = ServerRuns

  /** A text column comes back from CSV as the empty string when it was null, and the frame keeps it as a value. */
  function TextOf(o: Option<string>): L.Cell {
    L.Text(if o.Some? then o.value else "")
  }

  /** The numeric columns that hold a number. */
  function NumbersOf(r: S.Row): L.Cells {
    map c | c in r.values :: L.Number(r.values[c])
  }

  /** The tag columns, which always hold a value. */
  function TagsOf(r: S.Row): L.Cells {
    var tags: L.Cells :=
      map["ts_source" := L.Text(r.source), "device_type" := L.Text(r.tags.deviceType),
          "loc_tier" := L.Text(r.tags.locTier), "loc_ref" := TextOf(r.tags.locRef)];
    match r.kind
    case Electrical =>
      var cadence := if r.tags.cadenceMs.Some? then L.Count(r.tags.cadenceMs.value) else L.Text("");
      tags + map["firmware" := TextOf(r.tags.firmware), "cadence_ms" := cadence]
    case Weather => tags + map["cell_id" := TextOf(r.tags.cellId)]
  }

  /** The non-null cells of a framed row. */
  function CellsOf(r: S.Row): L.Cells {
    NumbersOf(r) + TagsOf(r)
  }

  /** The tags of a row that are null where it was staged. */
  function NullTags(r: S.Row): set<string> {
    var place := if r.tags.locRef.None? then {"loc_ref"} else {};
    match r.kind
    case Electrical =>
      place + (if r.tags.firmware.None? then {"firmware"} else {})
        + (if r.tags.cadenceMs.None? then {"cadence_ms"} else {})
    case Weather => place + if r.tags.cellId.None? then {"cell_id"} else {}
  }

  const TAG_COLUMNS: set<string> := {"ts_source", "device_type", "loc_tier", "loc_ref", "firmware", "cadence_ms",
                                     "cell_id"}

  function Framed(r: S.Row): L.Row
    requires r.stamp.At?
  {
    L.Row(L.Key(r.stamp.micros, r.node, if r.kind.Electrical? then r.phase else ""), CellsOf(r))
  }

  /**
   * Merging a restaged row over a stored one. A null never replaces a stored number; but every tag of the
   * newer row replaces the stored one, and a null tag does so as an empty text.
   */
  lemma NullsSpareNumbersButNotTags(newer: S.Row, older: S.Row, column: string)
    requires newer.kind == older.kind
    ensures var merged := L.Overlay(Some(CellsOf(newer)), Some(CellsOf(older))).value;
            && (column in older.values && column !in TAG_COLUMNS ==>
                  column in merged
                  && merged[column]
                    == L.Number(if column in newer.values then newer.values[column] else older.values[column]))
            && (column in TagsOf(older) ==>
                 column in merged && column in TagsOf(newer) && merged[column] == TagsOf(newer)[column])
            && (column in NullTags(newer) ==> column in merged && merged[column] == L.Text(""))
  {
    TagColumns(newer);
    TagColumns(older);
    hide TagsOf;
  }

  lemma TagColumns(r: S.Row)
    ensures forall t :: t in TagsOf(r) ==> t in TAG_COLUMNS
    ensures TagsOf(r).Keys
            == {"ts_source", "device_type", "loc_tier", "loc_ref"}
               + if r.kind.Electrical? then {"firmware", "cadence_ms"} else {"cell_id"}
    ensures forall t :: t in NullTags(r) ==> t in TagsOf(r) && TagsOf(r)[t] == L.Text("")
  {
  }

  // --- Staging files and the acquirer's tree ------------------------------------------------------

  /** The rows of one kind, framed, in order. */
  function Frames(kind: S.Kind, rows: seq<S.Row>): seq<L.Row> {
    if rows == [] then []
    else if Last(rows).kind == kind && Last(rows).stamp.At? then Frames(kind, Butlast(rows)) + [Framed(Last(rows))]
    else Frames(kind, Butlast(rows))
  }

  function TreeOf(rows: seq<L.Row>): A.Tree {
    if rows == [] then [] else A.StageRow(TreeOf(Butlast(rows)), Last(rows))
  }

  /** What reading an hour file gives: its first line is taken for the header, and a row for each line of data below. */
  function ReadCsv(content: seq<S.CsvLine>): seq<S.Row> {
    if content != [] && content[0].Header? then S.RowsIn(content) else []
  }

  /** The acquirer's staging tree of one kind is, hour by hour, what reading the server's files gives. */
  ghost predicate Mirrors(tree: A.Tree, kind: S.Kind, files: S.Files) {
    forall hour :: A.FileAt(tree, hour) == Frames(kind, ReadCsv(S.ContentOf(files, S.Path(kind, hour))))
  }

  /** Staging the rows that were written, in that order, gives such a tree, if every file has its header first. */
  lemma TreeMirrorsTheFiles(cfg: Q.Config, node: R.Node, ops: seq<D.Op>, kind: S.Kind)
    requires var files := D.Run(cfg, node, ops).server.files;
             forall p :: S.ContentOf(files, p) != [] ==> S.ContentOf(files, p)[0].Header?
    ensures var s := D.Run(cfg, node, ops).server;
            A.ValidTree(TreeOf(Frames(kind, s.log))) && Mirrors(TreeOf(Frames(kind, s.log)), kind, s.files)
  {
    var s := D.Run(cfg, node, ops).server;
    hide D.Run, A.FileAt, A.ValidTree, TreeOf, Frames, S.RowsIn, S.Group;
    NothingIsRead();
    forall hour
      ensures A.FileAt(TreeOf(Frames(kind, s.log)), hour)
              == Frames(kind, ReadCsv(S.ContentOf(s.files, S.Path(kind, hour))))
    {
      D.FilesAreTheLog(cfg, node, ops, S.Path(kind, hour));
      TreeMirrorsTheGroups(kind, s.log, hour);
    }
    TreeMirrorsTheGroups(kind, s.log, 0);
  }

  lemma NothingIsRead()
    ensures S.RowsIn([]) == []
  {
  }

  lemma {:induction false} TreeMirrorsTheGroups(kind: S.Kind, log: seq<S.Row>, hour: int)
    ensures A.ValidTree(TreeOf(Frames(kind, log)))
    ensures A.FileAt(TreeOf(Frames(kind, log)), hour) == Frames(kind, S.Group(log, S.Path(kind, hour)))
  {
    hide A.ValidTree, A.FileAt, A.StageRow, A.HourOf, CellsOf, Framed, TreeOf, Frames;
    NothingMirrored(kind, hour);
    if log != [] {
      var front, r, p := Butlast(log), Last(log), S.Path(kind, hour);
      TreeMirrorsTheGroups(kind, front, hour);
      assert front + [r] == log;
      FramesGrow(kind, front, r);
      FramesGrow(kind, S.Group(front, p), r);
      if r.kind == kind && r.stamp.At? {
        FramedHour(r);
        TreeGrows(Frames(kind, front), Framed(r));
        A.StageRowView(TreeOf(Frames(kind, front)), Framed(r), hour);
      }
    }
  }

  lemma NothingMirrored(kind: S.Kind, hour: int)
    ensures A.ValidTree([]) && A.FileAt([], hour) == [] && TreeOf([]) == [] && Frames(kind, []) == []
  {
  }

  lemma FramedHour(r: S.Row)
    requires r.stamp.At?
    ensures S.PathOf(r) == Some(S.Path(r.kind, A.HourOf(Framed(r).key)))
  {
    hide CellsOf;
  }

  lemma TreeGrows(rows: seq<L.Row>, row: L.Row)
    ensures TreeOf(rows + [row]) == A.StageRow(TreeOf(rows), row)
  {
    hide A.StageRow;
    assert Butlast(rows + [row]) == rows;
  }

  lemma FramesGrow(kind: S.Kind, rows: seq<S.Row>, r: S.Row)
    ensures Frames(kind, rows + [r])
            == if r.kind == kind && r.stamp.At? then Frames(kind, rows) + [Framed(r)] else Frames(kind, rows)
  {
    hide CellsOf;
    assert Butlast(rows + [r]) == rows;
  }

  /** The rows an acquirer history stages. */
  function StagedRows(ops: seq<A.Op>): seq<L.Row> {
    if ops == [] then []
    else if Last(ops).Stage? then StagedRows(Butlast(ops)) + [Last(ops).row]
    else StagedRows(Butlast(ops))
  }

  lemma {:induction false} TreeOfHistory(week: L.Calendar, ops: seq<A.Op>)
    ensures A.Continue(A.Nothing, week, ops).tree == TreeOf(StagedRows(ops))
  {
    if ops != [] {
      TreeOfHistory(week, Butlast(ops));
      if Last(ops).Stage? {
        assert Butlast(StagedRows(ops)) == StagedRows(Butlast(ops));
      }
    }
  }

  lemma {:induction false} FramedIsStaged(kind: S.Kind, log: seq<S.Row>, r: S.Row)
    requires r in log && r.kind == kind && r.stamp.At?
    ensures Framed(r) in Frames(kind, log)
  {
    if Last(log) != r {
      assert log == Butlast(log) + [Last(log)];
      FramedIsStaged(kind, Butlast(log), r);
    }
  }

  /** The lake key of a captured row: its time, its node, and its phase if it is electrical. */
  function LakeKeyFor(cfg: Q.Config, x: nat): L.Key
    requires cfg.reading(x).sample.stamp.At?
  {
    var r := cfg.reading(x);
    L.Key(r.sample.stamp.micros, cfg.id, if r.kind.Electrical? then r.sample.phase else "")
  }

  // --- What the lake says of a reading ------------------------------------------------------------

  /** No other row of its kind has the instant of `x`, or, if it is electrical, none has instant and phase. */
  ghost predicate AloneAtItsKey(cfg: Q.Config, x: nat)
    requires Q.Stamped(cfg)
  {
    forall y: nat :: y != x && cfg.reading(y).kind == cfg.reading(x).kind ==>
      cfg.reading(y).sample.stamp.micros != cfg.reading(x).sample.stamp.micros
      || (cfg.reading(x).kind.Electrical? && cfg.reading(y).sample.phase != cfg.reading(x).sample.phase)
  }

  /** The channels of a reading that its kind of row has a column for. */
  function Channels(r: K.Reading): set<string> {
    r.sample.values.Keys * (if r.kind.Electrical? then V.ELECTRICAL_CHANNELS else V.WEATHER_CHANNELS)
  }

  lemma {:induction false} FramesComeFrom(kind: S.Kind, rows: seq<S.Row>, row: L.Row)
    requires row in Frames(kind, rows)
    ensures exists r :: r in rows && r.kind == kind && r.stamp.At? && Framed(r) == row
  {
    assert rows == Butlast(rows) + [Last(rows)];
    if Last(rows).kind == kind && Last(rows).stamp.At? && row == Framed(Last(rows)) {
    } else {
      FramesComeFrom(kind, Butlast(rows), row);
    }
  }

  /** A row framed from the reading, under any node record, has its numbers. */
  lemma FramedReading(cfg: Q.Config, x: nat, node: R.Node, channel: string)
    requires Q.Stamped(cfg) && channel in Channels(cfg.reading(x))
    ensures var row := Framed(K.AsRow(cfg.reading(x), cfg.id, node));
            && row.key == LakeKeyFor(cfg, x)
            && channel in row.cells && row.cells[channel] == L.Number(cfg.reading(x).sample.values[channel])
  {
    ChannelsAreNotTags(channel);
    ReadingKeepsItsValues(cfg, x, node, channel);
    hide CellsOf;
    NumbersStand(K.AsRow(cfg.reading(x), cfg.id, node), channel);
  }

  lemma ChannelsAreNotTags(channel: string)
    ensures channel in V.ELECTRICAL_CHANNELS || channel in V.WEATHER_CHANNELS ==> channel !in TAG_COLUMNS
  {
  }

  lemma ReadingKeepsItsValues(cfg: Q.Config, x: nat, node: R.Node, channel: string)
    requires channel in Channels(cfg.reading(x))
    ensures var r := K.AsRow(cfg.reading(x), cfg.id, node);
            channel in r.values && r.values[channel] == cfg.reading(x).sample.values[channel]
  {
    assert channel in (if cfg.reading(x).kind.Electrical? then V.ELECTRICAL_CHANNELS else V.WEATHER_CHANNELS);
  }

  lemma NumbersStand(r: S.Row, channel: string)
    requires channel in r.values && channel !in TAG_COLUMNS
    ensures channel in CellsOf(r) && CellsOf(r)[channel] == L.Number(r.values[channel])
  {
    TagColumns(r);
    hide TagsOf, NullTags;
  }

  /** A row written under the lake key of a reading that is alone there is that reading. */
  lemma OnlyTheReading(cfg: Q.Config, node: R.Node, ops: seq<D.Op>, s: D.Sys, x: nat, r: S.Row) returns (record: R.Node)
    requires D.Proper(cfg, ops) && s == D.Run(cfg, node, ops) && AloneAtItsKey(cfg, x)
    requires r in s.server.log && r.kind == cfg.reading(x).kind && r.stamp.At? && Framed(r).key == LakeKeyFor(cfg, x)
    ensures r == K.AsRow(cfg.reading(x), cfg.id, record)
  {
    assert Q.Stamped(cfg) && r.node == cfg.id;
    hide D.Run, CellsOf, AloneAtItsKey, D.Proper, Q.Stamped, C.Delivered;
    D.LogIsSent(cfg, node, ops, r);
    assert D.Sent(cfg, s.world.pushes, r);
    var y, n :| y in C.Delivered(s.world.pushes) && r == K.AsRow(cfg.reading(y), cfg.id, n);
    AloneMeansIt(cfg, x, y, n);
    record := n;
  }

  lemma AloneMeansIt(cfg: Q.Config, x: nat, y: nat, node: R.Node)
    requires Q.Stamped(cfg) && AloneAtItsKey(cfg, x)
    requires var r := K.AsRow(cfg.reading(y), cfg.id, node);
             r.kind == cfg.reading(x).kind && Framed(r).key == LakeKeyFor(cfg, x)
    ensures y == x
  {
    hide CellsOf;
    assert LakeKeyFor(cfg, y) == LakeKeyFor(cfg, x) && cfg.reading(y).kind == cfg.reading(x).kind;
  }

  lemma {:induction false} InItsGroup(rows: seq<S.Row>, p: S.Path, r: S.Row)
    ensures r in S.Group(rows, p) <==> r in rows && S.PathOf(r) == Some(p)
  {
    hide S.PathOf;
    if rows != [] {
      InItsGroup(Butlast(rows), p, r);
      assert rows == Butlast(rows) + [Last(rows)];
    }
  }

  /** Whether the hour file of a captured row starts with a header, as readers take for granted. */
  predicate Headed(cfg: Q.Config, s: D.Sys, x: nat)
    requires cfg.reading(x).sample.stamp.At?
  {
    var content := S.ContentOf(s.server.files, Q.FileOf(cfg, x));
    content != [] && content[0].Header?
  }

  lemma KeyHasPath(cfg: Q.Config, x: nat, r: S.Row)
    requires Q.Stamped(cfg) && S.KeyOf(r) == Q.KeyFor(cfg, x)
    ensures r.kind == cfg.reading(x).kind && r.stamp.At? && S.PathOf(r) == Some(Q.FileOf(cfg, x))
            && Framed(r).key == LakeKeyFor(cfg, x)
  {
    hide CellsOf;
  }

  /** A captured row that is on disk, in a file with its header, is in the acquirer's tree. */
  lemma OnDiskIsInTheTree(cfg: Q.Config, node: R.Node, ops: seq<D.Op>, s: D.Sys, x: nat, tree: A.Tree)
    requires D.Proper(cfg, ops) && s == D.Run(cfg, node, ops) && D.OnDisk(cfg, s, x)
    requires Mirrors(tree, cfg.reading(x).kind, s.server.files) && Headed(cfg, s, x)
    ensures L.HasKey(A.FileAt(tree, A.HourOf(LakeKeyFor(cfg, x))), LakeKeyFor(cfg, x))
  {
    assert Q.Stamped(cfg);
    hide D.Run, A.FileAt, Framed, S.KeyOf, Q.KeyFor, S.RowsIn, S.Group, D.Proper, Q.Stamped, S.PathOf, A.HourOf;
    var kind, p := cfg.reading(x).kind, Q.FileOf(cfg, x);
    var n :| 0 <= n < |s.server.log| && S.Keys(s.server.log)[n] == Q.KeyFor(cfg, x);
    var r := s.server.log[n];
    assert r in s.server.log && S.KeyOf(r) == Q.KeyFor(cfg, x);
    KeyHasPath(cfg, x, r);
    D.FilesAreTheLog(cfg, node, ops, p);
    InItsGroup(s.server.log, p, r);
    assert r in ReadCsv(S.ContentOf(s.server.files, p));
    FramedIsStaged(kind, ReadCsv(S.ContentOf(s.server.files, p)), r);
    assert Framed(r) in A.FileAt(tree, p.hour);
  }

  /**
   * A row of the tree under the lake key of a reading that is alone there is that reading, off a file with
   * its header.
   */
  lemma InTheTreeIsTheReading(cfg: Q.Config, node: R.Node, ops: seq<D.Op>, s: D.Sys, x: nat, tree: A.Tree, row: L.Row)
      returns (record: R.Node)
    requires D.Proper(cfg, ops) && s == D.Run(cfg, node, ops) && AloneAtItsKey(cfg, x)
    requires Mirrors(tree, cfg.reading(x).kind, s.server.files)
    requires row in A.FileAt(tree, A.HourOf(LakeKeyFor(cfg, x))) && row.key == LakeKeyFor(cfg, x)
    ensures Headed(cfg, s, x) && D.OnDisk(cfg, s, x)
    ensures row == Framed(K.AsRow(cfg.reading(x), cfg.id, record))
  {
    assert Q.Stamped(cfg);
    hide D.Run, A.FileAt, S.RowsIn, S.Group, D.Proper, Q.Stamped, AloneAtItsKey, CellsOf;
    var kind, p := cfg.reading(x).kind, Q.FileOf(cfg, x);
    var content := S.ContentOf(s.server.files, p);
    assert row in Frames(kind, ReadCsv(content));
    FramesComeFrom(kind, ReadCsv(content), row);
    var r :| r in ReadCsv(content) && r.kind == kind && r.stamp.At? && Framed(r) == row;
    hide Frames;
    D.FilesAreTheLog(cfg, node, ops, p);
    InItsGroup(s.server.log, p, r);
    record := OnlyTheReading(cfg, node, ops, s, x, r);
    S.KeyIsThere(s.server.log, r);
    assert S.KeyOf(r) == Q.KeyFor(cfg, x);
  }

  /** In any acquirer history, a cell that every staged row of a key agrees on is the lake's, if it has the key. */
  lemma AgreedCellLands(week: L.Calendar, lakeOps: seq<A.Op>, k: L.Key, column: string, cell: L.Cell)
    requires L.At(A.Continue(A.Nothing, week, lakeOps).lake, week, k).Some?
    requires forall r :: r in A.FileAt(A.Continue(A.Nothing, week, lakeOps).tree, A.HourOf(k)) && r.key == k ==>
               column in r.cells && r.cells[column] == cell
    ensures var cells := L.At(A.Continue(A.Nothing, week, lakeOps).lake, week, k).value;
            column in cells && cells[column] == cell
  {
    var s := A.Continue(A.Nothing, week, lakeOps);
    var cells, rows := L.At(s.lake, week, k).value, A.FileAt(s.tree, A.HourOf(k));
    A.LakeSaysOnlyWhatWasStaged(week, lakeOps, k);
    hide A.Continue, L.At, A.FileAt;
    var r :| r in rows && r.key == k && r.cells.Keys <= cells.Keys;
    assert column in cells;
    assert A.Says(rows, k, column, cells[column]);
  }

  /** The acquirer has landed what it could: between runs, on time, every staged hour covered. */
  ghost predicate CaughtUp(week: L.Calendar, lakeOps: seq<A.Op>) {
    var end := A.Continue(A.Nothing, week, lakeOps);
    A.OnTimeKeysHistory(week, lakeOps) && end.phase.Idle? && end.cursor == A.LatestHour(end.tree)
  }

  /** What the lake has under a key, once caught up, is what its tree has. */
  lemma LandedIsInTheTree(week: L.Calendar, lakeOps: seq<A.Op>, k: L.Key)
    requires CaughtUp(week, lakeOps)
    ensures var end := A.Continue(A.Nothing, week, lakeOps);
            L.At(end.lake, week, k).Some? <==> L.HasKey(A.FileAt(end.tree, A.HourOf(k)), k)
  {
    var end := A.Continue(A.Nothing, week, lakeOps);
    A.OnTimeKeysLand(week, lakeOps, k);
    L.LookupConcat([], A.FileAt(end.tree, A.HourOf(k)), k);
    hide A.Continue, L.At, A.FileAt, L.Lookup;
  }

  /**
   * The whole pipeline. Take any run of node and server, with overlapping handlers, failing appends and
   * restarts, and any acquirer history, with crashes, over trees that end up as the server's files read.
   * A captured row whose key is on disk, in a file with its header, is in the lake. And for a reading that
   * is alone at its lake key this is exact: the lake has it if and only if its key is on disk in such a
   * file; and then with the values it was captured with.
   */
  lemma ReadingsReachTheLakeExactlyWhenOnDisk(cfg: Q.Config, node: R.Node, ops: seq<D.Op>, s: D.Sys, x: nat,
                                              week: L.Calendar, lakeOps: seq<A.Op>, channel: string)
    requires D.Proper(cfg, ops) && s == D.Run(cfg, node, ops) && CaughtUp(week, lakeOps)
    requires Mirrors(A.Continue(A.Nothing, week, lakeOps).tree, cfg.reading(x).kind, s.server.files)
    ensures var cells := L.At(A.Continue(A.Nothing, week, lakeOps).lake, week, LakeKeyFor(cfg, x));
            && (D.OnDisk(cfg, s, x) && Headed(cfg, s, x) ==> cells.Some?)
            && (AloneAtItsKey(cfg, x) ==>
                  && (cells.Some? <==> D.OnDisk(cfg, s, x) && Headed(cfg, s, x))
                  && (cells.Some? && channel in Channels(cfg.reading(x)) ==>
                        channel in cells.value
                          && cells.value[channel] == L.Number(cfg.reading(x).sample.values[channel])))
  {
    assert Q.Stamped(cfg);
    hide D.Run, A.Continue, D.Proper, CaughtUp, L.At, A.FileAt, AloneAtItsKey, Mirrors, D.OnDisk, Headed, Channels,
         Q.Stamped;
    var k, end := LakeKeyFor(cfg, x), A.Continue(A.Nothing, week, lakeOps);
    LandedIsInTheTree(week, lakeOps, k);
    if D.OnDisk(cfg, s, x) && Headed(cfg, s, x) {
      OnDiskIsInTheTree(cfg, node, ops, s, x, end.tree);
    }
    if AloneAtItsKey(cfg, x) && L.At(end.lake, week, k).Some? {
      ReadingLandsWhole(cfg, node, ops, s, x, week, lakeOps, channel);
    }
  }

  lemma ReadingLandsWhole(cfg: Q.Config, node: R.Node, ops: seq<D.Op>, s: D.Sys, x: nat,
                          week: L.Calendar, lakeOps: seq<A.Op>, channel: string)
    requires D.Proper(cfg, ops) && s == D.Run(cfg, node, ops) && CaughtUp(week, lakeOps) && AloneAtItsKey(cfg, x)
    requires Mirrors(A.Continue(A.Nothing, week, lakeOps).tree, cfg.reading(x).kind, s.server.files)
    requires L.At(A.Continue(A.Nothing, week, lakeOps).lake, week, LakeKeyFor(cfg, x)).Some?
    ensures D.OnDisk(cfg, s, x) && Headed(cfg, s, x)
    ensures channel in Channels(cfg.reading(x)) ==>
              var cells := L.At(A.Continue(A.Nothing, week, lakeOps).lake, week, LakeKeyFor(cfg, x)).value;
              channel in cells && cells[channel] == L.Number(cfg.reading(x).sample.values[channel])
  {
    assert Q.Stamped(cfg);
    hide D.Run, A.Continue, D.Proper, CaughtUp, L.At, A.FileAt, AloneAtItsKey, Mirrors, D.OnDisk, Headed, Channels,
         Q.Stamped;
    var k, end := LakeKeyFor(cfg, x), A.Continue(A.Nothing, week, lakeOps);
    LandedIsInTheTree(week, lakeOps, k);
    var rows := A.FileAt(end.tree, A.HourOf(k));
    var first :| first in rows && first.key == k;
    var record := InTheTreeIsTheReading(cfg, node, ops, s, x, end.tree, first);
    if channel in Channels(cfg.reading(x)) {
      var cell := L.Number(cfg.reading(x).sample.values[channel]) by {
        ChannelHasValue(cfg.reading(x), channel);
      }
      forall row | row in rows && row.key == k ensures channel in row.cells && row.cells[channel] == cell {
        var n := InTheTreeIsTheReading(cfg, node, ops, s, x, end.tree, row);
        FramedReading(cfg, x, n, channel);
      }
      AgreedCellLands(week, lakeOps, k, channel, cell);
    }
  }

  lemma ChannelHasValue(r: K.Reading, channel: string)
    requires channel in Channels(r)
    ensures channel in r.sample.values
  {
  }

  /**
   * What an acknowledgement is worth. A reading in a push that the node saw accepted, and that was not
   * refused, is in the lake once the acquirer has caught up, provided an append that was to write its key
   * completed, into a file with its header; and if it is alone at its lake key, only then.
   */
  lemma AcknowledgedReadingsReachTheLakeExactlyWhenWritten(cfg: Q.Config, node: R.Node, ops: seq<D.Op>, s: D.Sys,
                                                           n: nat, x: nat, week: L.Calendar, lakeOps: seq<A.Op>)
    requires D.Proper(cfg, ops) && s == D.Run(cfg, node, ops) && CaughtUp(week, lakeOps)
    requires Mirrors(A.Continue(A.Nothing, week, lakeOps).tree, cfg.reading(x).kind, s.server.files)
    requires n < s.arrived && n < |s.world.pushes| && s.world.pushes[n].reply.Ok? && D.RepliesAreTrue(s)
    requires x in s.world.pushes[n].rows && D.NeverRefused(s, x)
    ensures var landed := L.At(A.Continue(A.Nothing, week, lakeOps).lake, week, LakeKeyFor(cfg, x)).Some?;
            && (D.AnAppendCompleted(cfg, s, x) && Headed(cfg, s, x) ==> landed)
            && (AloneAtItsKey(cfg, x) ==> (landed <==> D.AnAppendCompleted(cfg, s, x) && Headed(cfg, s, x)))
  {
    assert D.Answered(s, n) && Q.Stamped(cfg);
    var i :| i in s.requests && s.requests[i].push == n && i < |s.server.threads| && s.server.threads[i].handler.Done?;
    hide D.Run, A.Continue, D.Proper, CaughtUp, L.At, AloneAtItsKey, Mirrors, D.OnDisk, D.AnAppendCompleted, Headed,
         Q.Stamped;
    D.EndToEnd(cfg, node, ops, i, x);
    ReadingsReachTheLakeExactlyWhenOnDisk(cfg, node, ops, s, x, week, lakeOps, "");
  }

  // --- What the lake says of a reading's node -----------------------------------------------------

  function Plain(o: Option<string>): string {
    match o
    case None => ""
    case Some(text) => text
  }

  /** A tag of a reading of this node: its source, or what the node record says, nothing being the empty text. */
  predicate IsTag(column: string, cell: L.Cell, r: K.Reading, node: R.Node) {
    && (column == "ts_source" ==> cell == L.Text(r.sample.source))
    && (column == "device_type" ==> cell == L.Text(node.deviceType))
    && (column == "loc_tier" ==>
          && (cell == L.Text("anon") <==> node.locTier.Anon?) && (cell == L.Text("region") <==> node.locTier.Region?)
          && (cell == L.Text("data_share") <==> node.locTier.DataShare?))
    && (column == "loc_ref" ==> cell == L.Text(Plain(node.locRef)))
    && (column == "firmware" ==> r.kind.Electrical? && cell == L.Text(Plain(node.firmware)))
    && (column == "cadence_ms" ==>
          r.kind.Electrical? && cell == if node.cadenceMs.Some? then L.Count(node.cadenceMs.value) else L.Text(""))
    && (column == "cell_id" ==> r.kind.Weather? && cell == L.Text(Plain(node.cellId)))
  }

  lemma TagsSayTheNode(row: S.Row, r: K.Reading, node: R.Node, column: string)
    requires V.TaggedAs(row, node) && row.kind == r.kind && row.source == r.sample.source
    ensures column in TagsOf(row) ==> IsTag(column, TagsOf(row)[column], r, node)
  {
    TagCell(row, column);
    hide TagsOf;
  }

  lemma TagCell(row: S.Row, column: string)
    ensures column in TagsOf(row) ==>
              TagsOf(row)[column]
              == if column == "ts_source" then L.Text(row.source)
                 else if column == "device_type" then L.Text(row.tags.deviceType)
                 else if column == "loc_tier" then L.Text(row.tags.locTier)
                 else if column == "loc_ref" then TextOf(row.tags.locRef)
                 else if column == "firmware" then TextOf(row.tags.firmware)
                 else if column == "cell_id" then TextOf(row.tags.cellId)
                 else if row.tags.cadenceMs.Some? then L.Count(row.tags.cadenceMs.value) else L.Text("")
    ensures column in TagsOf(row) && (column == "firmware" || column == "cadence_ms") ==> row.kind.Electrical?
    ensures column in TagsOf(row) && column == "cell_id" ==> row.kind.Weather?
  {
  }

  /** Columns of values are not columns of tags. */
  lemma TagsStand(r: S.Row, column: string)
    requires r.values.Keys <= V.ELECTRICAL_CHANNELS + V.WEATHER_CHANNELS
    ensures TagsOf(r).Keys <= CellsOf(r).Keys
    ensures column in CellsOf(r) && column in TAG_COLUMNS ==>
              column in TagsOf(r) && CellsOf(r)[column] == TagsOf(r)[column]
  {
    ChannelsAreNotTags(column);
    hide TagsOf, V.ELECTRICAL_CHANNELS, V.WEATHER_CHANNELS, TAG_COLUMNS;
  }

  /** From the node record to the columns of the lake: each tag column of its kind is there, and says what it should. */
  lemma ALakeRowSaysItsNode(r: K.Reading, id: NodeId, node: R.Node, column: string)
    requires r.sample.stamp.At?
    ensures var cells := Framed(K.AsRow(r, id, node)).cells;
            && {"ts_source", "device_type", "loc_tier", "loc_ref"}
               + (if r.kind.Electrical? then {"firmware", "cadence_ms"} else {"cell_id"}) <= cells.Keys
            && (column in cells ==> IsTag(column, cells[column], r, node))
  {
    var row := K.AsRow(r, id, node);
    V.ProjectSays(r.kind, r.sample, id, node);
    TagColumns(row);
    TagsSayTheNode(row, r, node, column);
    OnlyTagColumns(column, if column in CellsOf(row) then CellsOf(row)[column] else L.Text(""), r, node);
    TagsStand(row, column);
    hide TagsOf, IsTag, CellsOf, V.TaggedAs, NullTags;
  }

  lemma OnlyTagColumns(column: string, cell: L.Cell, r: K.Reading, node: R.Node)
    ensures column !in TAG_COLUMNS ==> IsTag(column, cell, r, node)
  {
  }

  /** A tag that the lake has of a reading alone at its key is that of a node record under which it was handled. */
  lemma LakeTagsAreTheNodes(cfg: Q.Config, node: R.Node, ops: seq<D.Op>, s: D.Sys, x: nat,
                            week: L.Calendar, lakeOps: seq<A.Op>, column: string)
    requires D.Proper(cfg, ops) && s == D.Run(cfg, node, ops) && AloneAtItsKey(cfg, x)
    requires Mirrors(A.Continue(A.Nothing, week, lakeOps).tree, cfg.reading(x).kind, s.server.files)
    ensures var cells := L.At(A.Continue(A.Nothing, week, lakeOps).lake, week, LakeKeyFor(cfg, x));
            cells.Some? && column in cells.value ==>
              exists record :: IsTag(column, cells.value[column], cfg.reading(x), record)
  {
    assert Q.Stamped(cfg);
    hide D.Run, A.Continue, D.Proper, L.At, A.FileAt, AloneAtItsKey, Mirrors, Q.Stamped, IsTag;
    var k, end := LakeKeyFor(cfg, x), A.Continue(A.Nothing, week, lakeOps);
    var cells, rows := L.At(end.lake, week, k), A.FileAt(end.tree, A.HourOf(k));
    A.LakeSaysOnlyWhatWasStaged(week, lakeOps, k);
    if cells.Some? && column in cells.value {
      assert A.Says(rows, k, column, cells.value[column]);
      var row :| row in rows && row.key == k && column in row.cells && row.cells[column] == cells.value[column];
      var record := InTheTreeIsTheReading(cfg, node, ops, s, x, end.tree, row);
      ALakeRowSaysItsNode(cfg.reading(x), cfg.id, record, column);
    }
  }

  // --- Erasure ------------------------------------------------------------------------------------

  /**
   * The acquirer does not read tombstones. Whatever the server's history, and the node erased in it: a
   * key of the node that was staged lands under the same condition as any other, and then stays in the
   * lake through every continuation of both.
   */
  lemma ErasureDoesNotReachTheLake(atlas: V.Atlas, erasing: seq<Z.Op>, later: seq<Z.Op>, week: L.Calendar,
                                   before: seq<A.Op>, cutoff: Option<int>, during: seq<A.Op>, rest: seq<A.Op>,
                                   after: seq<A.Op>, k: L.Key)
    requires Z.Erased(Z.Run(atlas, erasing), k.node)
    requires var s := A.Continue(A.Nothing, week, before);
             && s.phase.Idle? && A.During(during) && A.During(rest)
             && A.StagedAt(s, k).Some? && A.InHorizon(k, cutoff)
             && var w := A.AtScan(s, week, cutoff, during);
                A.Finished(w) && A.Covers(s, w, A.HourOf(k)) && week(k.micros) !in w.phase.skipped
    ensures Z.Erased(Z.Run(atlas, erasing + later), k.node)
    ensures var s := A.Continue(A.Nothing, week, before);
            L.At(A.Continue(A.RunWith(s, week, cutoff, during, rest), week, after).lake, week, k).Some?
  {
    hide *;
    Z.RunContinues(atlas, erasing, later);
    Z.ErasedForever(atlas, Z.Run(atlas, erasing), later, k.node);
    A.TheCoveringRunDecides(week, before, cutoff, during, rest, after, k);
    var s := A.Continue(A.Nothing, week, before);
    L.OverlayLaws(A.StagedAt(s, k), L.At(s.lake, week, k));
  }
}
