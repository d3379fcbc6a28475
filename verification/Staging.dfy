/** CSV staging behind a recent-window dedupe (server/gridwitness_server/staging.py). */
module Staging {
  import opened Basics

  datatype Kind = Electrical | Weather

  /**
   * A timestamp string: one of the spellings of a UTC instant (in microseconds), or one that does not
   * parse. Two strings are equal exactly when these are; "…05Z" and "…05.000Z" differ in spelling only.
   */
  datatype Stamp = At(micros: int, spelling: string) | Garbled(text: string)

  const HOUR: int := 3600000000

  /** The node-record fields that may travel with a row. */
  datatype Tags = Tags(deviceType: string, firmware: Option<string>, cadenceMs: Option<int>,
                       locTier: string, locRef: Option<string>, cellId: Option<string>)

  /** A row as staged. Weather rows have no phase; `values` holds the channels that are not null. */
  datatype Row = Row(kind: Kind, node: NodeId, stamp: Stamp, source: string, phase: string,
                     values: map<Channel, real>, tags: Tags)

  /** Keys are tuples of the fields as sent, so the two kinds differ in length and can never be equal. */
  datatype Key = ElectricalKey(node: NodeId, stamp: Stamp, phase: string) | WeatherKey(node: NodeId, stamp: Stamp)

  function KeyOf(r: Row): Key {
    match r.kind
    case Electrical => ElectricalKey(r.node, r.stamp, r.phase)
    case Weather => WeatherKey(r.node, r.stamp)
  }

  function Keys(rows: seq<Row>): (r: seq<Key>)
    ensures |r| == |rows|
  {
    seq(|rows|, i requires 0 <= i < |rows| => KeyOf(rows[i]))
  }

  lemma KeyIsThere(rows: seq<Row>, r: Row)
    requires r in rows
    ensures KeyOf(r) in Keys(rows)
  {
    var i :| 0 <= i < |rows| && rows[i] == r;
    assert Keys(rows)[i] == KeyOf(r);
  }

  /** What the window takes for a repeat: a row of the same kind, node and timestamp text, and, if electrical, phase. */
  lemma RepeatsExactly(a: Row, b: Row)
    ensures KeyOf(a) == KeyOf(b) <==>
              a.kind == b.kind && a.node == b.node && a.stamp == b.stamp && (a.kind.Electrical? ==> a.phase == b.phase)
  {
  }

  // --- Dedupe -------------------------------------------------------------------------------------

  /** The rows of a call that are new, after `history` acceptances of which the last `size` are remembered. */
  function Unique(history: seq<Key>, size: nat, rows: seq<Row>): (r: seq<Row>)
    ensures |r| <= |rows|
  {
    if rows == [] then [] else Offer(history, size, Unique(history, size, Butlast(rows)), Last(rows))
  }

  /** One row of a call, after `kept` of its rows were accepted. */
  function Offer(history: seq<Key>, size: nat, kept: seq<Row>, r: Row): (s: seq<Row>)
    ensures |s| <= |kept| + 1
  {
    if KeyOf(r) in LastN(history + Keys(kept), size) then kept else kept + [r]
  }

  ghost predicate Distinct(keys: seq<Key>) {
    forall i, j :: 0 <= i < j < |keys| ==> keys[i] != keys[j]
  }

  /** Equal keys are always more than `size` acceptances apart. */
  ghost predicate Spaced(history: seq<Key>, size: nat) {
    forall i, j :: 0 <= i < j < |history| && history[i] == history[j] ==> size < j - i
  }

  class Deduper {
    const maxsize: nat
    var seen: seq<Key>            // the OrderedDict's keys, oldest first
    ghost var accepted: seq<Key>  // every key ever accepted

    ghost predicate Valid()
      reads this
    {
      seen == LastN(accepted, maxsize) && Spaced(accepted, maxsize) && Distinct(seen)
    }

    constructor (maxsize: nat)
      ensures Valid() && this.maxsize == maxsize && accepted == []
    {
      this.maxsize := maxsize;
      seen, accepted := [], [];
    }

    method FilterNew(rows: seq<Row>) returns (unique: seq<Row>, dups: nat)
      requires Valid()
      modifies this
      ensures Valid()
      ensures unique == Unique(old(accepted), maxsize, rows) && dups == |rows| - |unique|
      ensures accepted == old(accepted) + Keys(unique)
    {
      unique, dups := [], 0;
      for i := 0 to |rows|
        invariant Valid() && accepted == old(accepted) + Keys(unique)
        invariant unique == Unique(old(accepted), maxsize, rows[..i]) && dups == i - |unique|
      {
        var key := KeyOf(rows[i]);
        assert Butlast(rows[..i + 1]) == rows[..i];
        if key in seen {
          dups := dups + 1;
        } else {
          Accept(key);
          assert Keys(unique + [rows[i]]) == Keys(unique) + [key];
          unique := unique + [rows[i]];
        }
      }
      assert rows[..|rows|] == rows;
    }

    method Accept(key: Key)
      requires Valid() && key !in seen
      modifies this
      ensures Valid() && accepted == old(accepted) + [key]
    {
      SpacedGrows(accepted, maxsize, key);
      accepted := accepted + [key];
      seen := seen + [key];
      if maxsize < |seen| {
        seen := seen[1..];
      }
    }
  }

  lemma SpacedGrows(history: seq<Key>, size: nat, key: Key)
    requires Spaced(history, size) && key !in LastN(history, size)
    ensures Spaced(history + [key], size)
  {
    InLastN(history, size, key);
    hide LastN;
  }

  /** A selection of `whole`, in its order. */
  predicate Subsequence(part: seq<Row>, whole: seq<Row>) {
    part == []
    || (whole != [] && Subsequence(part, Butlast(whole)))
    || (whole != [] && Last(part) == Last(whole) && Subsequence(Butlast(part), Butlast(whole)))
  }

  /** What one call keeps is an order-preserving selection of what was sent. */
  lemma {:induction false} UniqueIsASelection(history: seq<Key>, size: nat, rows: seq<Row>)
    ensures Subsequence(Unique(history, size, rows), rows)
  {
    hide Keys, KeyOf, LastN;
    if rows != [] {
      UniqueIsASelection(history, size, Butlast(rows));
      var u := Unique(history, size, Butlast(rows));
      assert Butlast(u + [Last(rows)]) == u;
    }
  }

  /** And its keys extend a spaced history. */
  lemma {:induction false} UniqueKeepsSpacing(history: seq<Key>, size: nat, rows: seq<Row>)
    requires Spaced(history, size)
    ensures Spaced(history + Keys(Unique(history, size, rows)), size)
  {
    if rows == [] {
      assert history + [] == history;
    } else {
      UniqueKeepsSpacing(history, size, Butlast(rows));
      var u := Unique(history, size, Butlast(rows));
      if KeyOf(Last(rows)) !in LastN(history + Keys(u), size) {
        SpacedGrows(history + Keys(u), size, KeyOf(Last(rows)));
        assert Keys(u + [Last(rows)]) == Keys(u) + [KeyOf(Last(rows))];
        assert history + Keys(u) + [KeyOf(Last(rows))] == history + (Keys(u) + [KeyOf(Last(rows))]);
      }
    }
  }

  lemma KeysJoin(history: seq<Key>, a: seq<Row>, b: seq<Row>)
    ensures history + Keys(a + b) == history + Keys(a) + Keys(b)
  {
  }

  lemma OfferComposes(history: seq<Key>, size: nat, u: seq<Row>, v: seq<Row>, r: Row)
    ensures Offer(history, size, u + v, r) == u + Offer(history + Keys(u), size, v, r)
  {
    KeysJoin(history, u, v);
    hide Keys, LastN, KeyOf;
    assert u + v + [r] == u + (v + [r]);
  }

  /** How a stream of rows is cut into calls makes no difference. */
  lemma {:induction false} CallsCompose(history: seq<Key>, size: nat, first: seq<Row>, second: seq<Row>)
    ensures var u := Unique(history, size, first);
            Unique(history, size, first + second) == u + Unique(history + Keys(u), size, second)
    decreases |second|
  {
    hide Keys, LastN, KeyOf, Offer;
    var u := Unique(history, size, first);
    if second == [] {
      assert first + second == first && u + [] == u;
    } else {
      var r, front := Last(second), Butlast(second);
      assert Butlast(first + second) == first + front;
      CallsCompose(history, size, first, front);
      OfferComposes(history, size, u, Unique(history + Keys(u), size, front), r);
    }
  }

  lemma OfferAccepts(history: seq<Key>, size: nat, kept: seq<Row>, r: Row)
    ensures KeyOf(r) in history + Keys(Offer(history, size, kept, r))
    ensures forall k :: k in history + Keys(kept) ==> k in history + Keys(Offer(history, size, kept, r))
    ensures forall x :: x in Offer(history, size, kept, r) ==> x in kept || x == r
  {
    hide LastN, KeyOf;
    InLastN(history + Keys(kept), size, KeyOf(r));
    KeysJoin(history, kept, [r]);
    assert Keys([r]) == [KeyOf(r)];
    hide Keys;
  }

  /**
   * Nothing is dropped without an equal key in front of it: afterwards the key of every row sent is
   * among the accepted ones, and every row kept is one that was sent.
   */
  lemma {:induction false} EveryKeyIsAccepted(history: seq<Key>, size: nat, rows: seq<Row>)
    ensures var u := Unique(history, size, rows);
            && (forall r :: r in rows ==> KeyOf(r) in history + Keys(u))
            && (forall r :: r in u ==> r in rows)
  {
    hide LastN, Keys, KeyOf, Offer;
    if rows != [] {
      EveryKeyIsAccepted(history, size, Butlast(rows));
      OfferAccepts(history, size, Unique(history, size, Butlast(rows)), Last(rows));
      assert rows == Butlast(rows) + [Last(rows)];
    }
  }

  /** The key of row `i` has left the window by the time the row's turn comes, if it was in it. */
  ghost predicate Forgotten(history: seq<Key>, size: nat, rows: seq<Row>) {
    forall i :: 0 <= i < |rows| && i < size ==> KeyOf(rows[i]) !in LastN(history, size - i)
  }

  /**
   * A batch that fits the window is kept whole exactly when its keys are distinct, and none is one that
   * the window still remembers at its turn; otherwise rows are lost.
   */
  lemma {:induction false} KeptWholeExactlyWhenNew(history: seq<Key>, size: nat, rows: seq<Row>)
    requires |rows| <= size
    ensures Unique(history, size, rows) == rows <==> Distinct(Keys(rows)) && Forgotten(history, size, rows)
  {
    hide Keys, KeyOf, Distinct, Offer, LastN;
    if rows == [] {
      DistinctWhenEmpty();
    } else {
      var front, r := Butlast(rows), Last(rows);
      KeptWholeExactlyWhenNew(history, size, front);
      assert rows == front + [r] && rows[|front|] == r;
      assert forall i :: 0 <= i < |front| ==> rows[i] == front[i];
      DistinctGrows(front, r);
      SameLengthIsSame(history, size, front);
      if Unique(history, size, front) == front {
        OfferToTheWindow(history, size, front, r);
      }
    }
  }

  lemma DistinctWhenEmpty()
    ensures Distinct(Keys([]))
  {
  }

  /** The window at a row's turn: the rows of the batch so far, and what of the history they have not pushed out. */
  lemma OfferToTheWindow(history: seq<Key>, size: nat, kept: seq<Row>, r: Row)
    requires |kept| < size
    ensures Offer(history, size, kept, r)
            == if KeyOf(r) in Keys(kept) || KeyOf(r) in LastN(history, size - |kept|) then kept else kept + [r]
  {
    assert LastN(history + Keys(kept), size) == LastN(history, size - |kept|) + Keys(kept);
    hide KeyOf, LastN;
  }

  lemma DistinctGrows(front: seq<Row>, r: Row)
    ensures Distinct(Keys(front + [r])) <==> Distinct(Keys(front)) && KeyOf(r) !in Keys(front)
  {
    var keys := Keys(front + [r]);
    assert keys == Keys(front) + [KeyOf(r)] && keys[|front|] == KeyOf(r);
    assert forall i :: 0 <= i < |front| ==> keys[i] == Keys(front)[i];
  }

  /** Dedupe only removes rows: if it removed none, it returned its input. */
  lemma {:induction false} SameLengthIsSame(history: seq<Key>, size: nat, rows: seq<Row>)
    ensures |Unique(history, size, rows)| == |rows| ==> Unique(history, size, rows) == rows
  {
    hide LastN, Keys, KeyOf;
    if rows != [] {
      assert rows == Butlast(rows) + [Last(rows)];
      SameLengthIsSame(history, size, Butlast(rows));
    }
  }

  /** The shared window never lets one kind suppress the other: a dropped row has an accepted twin of its kind. */
  lemma SuppressedByItsOwnKind(history: seq<Row>, size: nat, r: Row)
    requires Unique(Keys(history), size, [r]) == []
    ensures exists i :: |history| - size <= i < |history| && 0 <= i && history[i].kind == r.kind
              && history[i].node == r.node && history[i].stamp == r.stamp
              && (r.kind.Electrical? ==> history[i].phase == r.phase)
  {
    var keys := Keys(history);
    assert Butlast([r]) == [] && keys + Keys([]) == keys;
    InLastN(keys, size, KeyOf(r));
    hide LastN;
    var i :| |keys| - size <= i < |keys| && 0 <= i && keys[i] == KeyOf(r);
    assert KeyOf(history[i]) == KeyOf(r);
  }

  // --- Hour files ---------------------------------------------------------------------------------

  datatype Path = Path(kind: Kind, hour: int)

  datatype CsvLine = Header | Data(row: Row)

  type Files = map<Path, seq<CsvLine>>

  /** The hour file of a row, by its own UTC time; None where parsing the timestamp raises. */
  function PathOf(r: Row): Option<Path> {
    match r.stamp
    case Garbled(_) => None
    case At(t, _) => Some(Path(r.kind, t / HOUR))
  }

  predicate Stampable(rows: seq<Row>) {
    forall r :: r in rows ==> r.stamp.At?
  }

  function ContentOf(files: Files, p: Path): seq<CsvLine> {
    if p in files then files[p] else []
  }

  /** Appending one row: to the end of its hour file, after a header if the file is new. */
  function AppendRow(files: Files, r: Row): Files
    requires r.stamp.At?
  {
    var p := PathOf(r).value;
    files[p := (if p in files then files[p] else [Header]) + [Data(r)]]
  }

  function AppendRows(files: Files, rows: seq<Row>): Files
    requires Stampable(rows)
  {
    if rows == [] then files else AppendRow(AppendRows(files, Butlast(rows)), Last(rows))
  }

  /** The rows of a batch that go to one file, in batch order. */
  function Group(rows: seq<Row>, p: Path): seq<Row> {
    if rows == [] then []
    else if PathOf(Last(rows)) == Some(p) then Group(Butlast(rows), p) + [Last(rows)]
    else Group(Butlast(rows), p)
  }

  /** Which rows go to a file: those of its kind whose time, in UTC, is within its hour. */
  lemma {:induction false} GroupIsTheHour(rows: seq<Row>, p: Path, r: Row)
    ensures r in Group(rows, p) <==>
              r in rows && r.kind == p.kind && r.stamp.At?
              && p.hour * 3600000000 <= r.stamp.micros < (p.hour + 1) * 3600000000
  {
    HourFile(r, p);
    hide PathOf;
    if rows != [] {
      GroupIsTheHour(Butlast(rows), p, r);
      assert rows == Butlast(rows) + [Last(rows)];
    }
  }

  lemma HourFile(r: Row, p: Path)
    ensures PathOf(r) == Some(p) <==>
              r.kind == p.kind && r.stamp.At? && p.hour * 3600000000 <= r.stamp.micros < (p.hour + 1) * 3600000000
  {
  }

  function Lines(rows: seq<Row>): (r: seq<CsvLine>)
    ensures |r| == |rows|
  {
    seq(|rows|, i requires 0 <= i < |rows| => Data(rows[i]))
  }

  /** The rows of a file's lines. */
  function RowsIn(content: seq<CsvLine>): seq<Row> {
    if content == [] then []
    else if Last(content).Data? then RowsIn(Butlast(content)) + [Last(content).row]
    else RowsIn(Butlast(content))
  }

  lemma RowsInOneMore(content: seq<CsvLine>, line: CsvLine)
    ensures RowsIn(content + [line]) == if line.Data? then RowsIn(content) + [line.row] else RowsIn(content)
    ensures RowsIn([]) == []
  {
    assert Butlast(content + [line]) == content;
  }

  lemma {:induction false} RowsInJoin(a: seq<CsvLine>, b: seq<CsvLine>)
    ensures RowsIn(a + b) == RowsIn(a) + RowsIn(b)
    decreases |b|
  {
    hide RowsIn;
    RowsInOneMore([], Header);
    if b == [] {
      assert a + b == a;
    } else {
      RowsInJoin(a, Butlast(b));
      assert a + b == a + Butlast(b) + [Last(b)] && b == Butlast(b) + [Last(b)];
      RowsInOneMore(a + Butlast(b), Last(b));
      RowsInOneMore(Butlast(b), Last(b));
    }
  }

  lemma {:induction false} RowsInLines(rows: seq<Row>)
    ensures RowsIn(Lines(rows)) == rows
  {
    if rows != [] {
      assert Butlast(Lines(rows)) == Lines(Butlast(rows));
      RowsInLines(Butlast(rows));
    }
  }

  lemma RowsInHeader()
    ensures RowsIn([Header]) == []
  {
    assert Butlast([Header]) == [];
  }

  function WithGroup(content: seq<CsvLine>, rows: seq<Row>): seq<CsvLine> {
    if rows == [] then content else (if content == [] then [Header] else content) + Lines(rows)
  }

  /** What is below the header of a file that began empty. */
  lemma RowsInGroup(rows: seq<Row>)
    ensures RowsIn(WithGroup([], rows)) == rows
  {
    hide RowsIn, Lines;
    RowsInLines(rows);
    RowsInJoin([Header], Lines(rows));
    RowsInHeader();
    RowsInOneMore([], Header);
    assert [] + rows == rows;
  }

  lemma {:induction false} AppendRowsAt(files: Files, rows: seq<Row>, p: Path)
    requires Stampable(rows) && (p in files ==> files[p] != [])
    ensures var after := AppendRows(files, rows);
            && ContentOf(after, p) == WithGroup(ContentOf(files, p), Group(rows, p))
            && (p in after <==> p in files || Group(rows, p) != [])
  {
    hide PathOf, Lines;
    LinesOneMore([], Header);
    if rows != [] {
      var front, r := Butlast(rows), Last(rows);
      AppendRowsAt(files, front, p);
      LinesOneMore(Group(front, p), Data(r));
      AppendRowAt(AppendRows(files, front), r, p);
    }
  }

  lemma LinesOneMore(rows: seq<Row>, line: CsvLine)
    ensures line.Data? ==> Lines(rows + [line.row]) == Lines(rows) + [line]
    ensures Lines([]) == []
  {
  }

  lemma AppendRowAt(files: Files, r: Row, p: Path)
    requires r.stamp.At?
    ensures var after, q := AppendRow(files, r), PathOf(r).value;
            && PathOf(r).Some? && (p in after <==> p in files || p == q)
            && ContentOf(after, p) == if p != q then ContentOf(files, p)
                                      else (if p in files then files[p] else [Header]) + [Data(r)]
  {
  }

  lemma {:induction false} AppendRowsJoin(files: Files, a: seq<Row>, b: seq<Row>)
    requires Stampable(a) && Stampable(b)
    ensures Stampable(a + b) && AppendRows(files, a + b) == AppendRows(AppendRows(files, a), b)
    decreases |b|
  {
    hide AppendRow;
    if b == [] {
      assert a + b == a;
    } else {
      assert b == Butlast(b) + [Last(b)] && Butlast(a + b) == a + Butlast(b);
      AppendRowsJoin(files, a, Butlast(b));
    }
  }

  /** The window's history and the files, as one value. */
  datatype Staged = Staged(history: seq<Key>, files: Files)

  /** write_electrical and write_weather. A timestamp that does not parse raises after the keys were remembered. */
  function Stage(s: Staged, size: nat, rows: seq<Row>): (Staged, Outcome) {
    var u := Unique(s.history, size, rows);
    var history := s.history + Keys(u);
    if Stampable(u) then (Staged(history, AppendRows(s.files, u)), Written(|u|, |rows| - |u|))
    else (Staged(history, s.files), Raised)
  }

  lemma StageCounts(s: Staged, size: nat, rows: seq<Row>)
    ensures var outcome := Stage(s, size, rows).1; outcome.Written? ==> outcome.accepted + outcome.dups == |rows|
  {
  }

  datatype Outcome = Written(accepted: nat, dups: nat) | Raised

  class StagingWriter {
    const dedupe: Deduper
    var files: Files

    ghost predicate Valid()
      reads this, dedupe
    {
      dedupe.Valid() && forall p :: p in files ==> files[p] != []
    }

    constructor (maxsize: nat)
      ensures Valid() && fresh(dedupe) && dedupe.maxsize == maxsize && dedupe.accepted == [] && files == map[]
    {
      dedupe := new Deduper(maxsize);
      files := map[];
    }

    ghost function State(): Staged
      reads this, dedupe
    {
      Staged(dedupe.accepted, files)
    }

    method Write(rows: seq<Row>) returns (outcome: Outcome)
      requires Valid()
      modifies this, dedupe
      ensures Valid()
      ensures (State(), outcome) == Stage(old(State()), dedupe.maxsize, rows)
    {
      hide Unique, Keys, LastN, AppendRows, Stampable;
      var unique, dups := dedupe.FilterNew(rows);
      var ok := Append(unique);
      outcome := if ok then Written(|unique|, dups) else Raised;
    }

    method Append(rows: seq<Row>) returns (ok: bool)
      requires forall p :: p in files ==> files[p] != []
      modifies this
      ensures ok == Stampable(rows)
      ensures files == if ok then AppendRows(old(files), rows) else old(files)
      ensures forall p :: p in files ==> files[p] != []
    {
      var buckets: map<Path, seq<Row>> := map[];
      for i := 0 to |rows|
        invariant files == old(files) && Stampable(rows[..i])
        invariant forall p :: (if p in buckets then buckets[p] else []) == Group(rows[..i], p)
        invariant forall p :: p in buckets ==> buckets[p] != []
      {
        assert Butlast(rows[..i + 1]) == rows[..i];
        var path := PathOf(rows[i]);
        if path.None? {
          assert rows[i] in rows;
          return false;
        }
        var group := if path.value in buckets then buckets[path.value] else [];
        buckets := buckets[path.value := group + [rows[i]]];
      }
      assert rows[..|rows|] == rows;
      FlushBuckets(rows, buckets);
      ok := true;
    }

    /** The locked part of _append: one open per bucket, whatever order the buckets are in. */
    method FlushBuckets(ghost rows: seq<Row>, buckets: map<Path, seq<Row>>)
      requires forall p :: p in files ==> files[p] != []
      requires Stampable(rows)
      requires forall p :: (if p in buckets then buckets[p] else []) == Group(rows, p)
      requires forall p :: p in buckets ==> buckets[p] != []
      modifies this
      ensures files == AppendRows(old(files), rows)
      ensures forall p :: p in files ==> files[p] != []
    {
      var todo := buckets.Keys;
      while todo != {}
        invariant todo <= buckets.Keys
        invariant forall p ::
                    ContentOf(files, p) == WithGroup(ContentOf(old(files), p), if p in todo then [] else Group(rows, p))
        invariant forall p :: p in files <==> p in old(files) || (p in buckets && p !in todo)
        invariant forall p :: p in files ==> files[p] != []
        decreases todo
      {
        var path :| path in todo;
        var content := if path in files then files[path] else [Header];
        files := files[path := content + Lines(buckets[path])];
        todo := todo - {path};
      }
      forall p
        ensures ContentOf(files, p) == ContentOf(AppendRows(old(files), rows), p)
        ensures p in files <==> p in AppendRows(old(files), rows)
      {
        AppendRowsAt(old(files), rows, p);
      }
      SameContents(files, AppendRows(old(files), rows));
    }
  }

  lemma SameContents(a: Files, b: Files)
    requires forall p :: ContentOf(a, p) == ContentOf(b, p) && (p in a <==> p in b)
    ensures a == b
  {
    forall p | p in a ensures a[p] == b[p] {
      assert ContentOf(a, p) == ContentOf(b, p);
    }
  }

  // --- A bad timestamp ----------------------------------------------------------------------------

  /** A batch all of whose keys are remembered is a batch of duplicates. */
  lemma {:induction false} RememberedIsDuplicate(history: seq<Key>, size: nat, rows: seq<Row>)
    requires forall r :: r in rows ==> KeyOf(r) in LastN(history, size)
    ensures Unique(history, size, rows) == []
  {
    if rows != [] {
      RememberedIsDuplicate(history, size, Butlast(rows));
      assert rows == Butlast(rows) + [Last(rows)] && history + [] == history;
    }
  }

  /** Whether the window remembers the key of row `i` when the row's turn comes. */
  predicate RememberedAtItsTurn(history: seq<Key>, size: nat, rows: seq<Row>, i: nat)
    requires i < |rows|
  {
    KeyOf(rows[i]) in LastN(history + Keys(Unique(history, size, rows[..i])), size)
  }

  ghost predicate BadRowsAreRemembered(history: seq<Key>, size: nat, rows: seq<Row>) {
    forall i :: 0 <= i < |rows| && !rows[i].stamp.At? ==> RememberedAtItsTurn(history, size, rows, i)
  }

  /** After any history, a write succeeds exactly when the window drops every row whose timestamp does not parse. */
  lemma WriteSucceedsExactlyWhenBadRowsAreRemembered(s: Staged, size: nat, rows: seq<Row>)
    ensures Stage(s, size, rows).1.Written? <==> BadRowsAreRemembered(s.history, size, rows)
  {
    hide Unique, BadRowsAreRemembered;
    KeptRowsParse(s.history, size, rows);
  }

  lemma {:induction false} KeptRowsParse(history: seq<Key>, size: nat, rows: seq<Row>)
    ensures Stampable(Unique(history, size, rows)) <==> BadRowsAreRemembered(history, size, rows)
  {
    hide LastN, Keys, KeyOf, Stampable, BadRowsAreRemembered, RememberedAtItsTurn;
    if rows == [] {
      NothingIsStampable();
      NoBadRows(history, size);
    } else {
      var front, r := Butlast(rows), Last(rows);
      assert rows == front + [r];
      KeptRowsParse(history, size, front);
      OneMoreRow(history, size, front, r);
      StampableGrows(Unique(history, size, front), r);
    }
  }

  lemma NoBadRows(history: seq<Key>, size: nat)
    ensures BadRowsAreRemembered(history, size, [])
  {
  }

  lemma OneMoreRow(history: seq<Key>, size: nat, front: seq<Row>, r: Row)
    ensures var rows, u := front + [r], Unique(history, size, front);
            var remembered := RememberedAtItsTurn(history, size, rows, |front|);
            && Unique(history, size, rows) == (if remembered then u else u + [r])
            && (BadRowsAreRemembered(history, size, rows) <==>
                  BadRowsAreRemembered(history, size, front) && (r.stamp.At? || remembered))
  {
    hide LastN, Keys, KeyOf;
    var rows := front + [r];
    assert rows[..|front|] == front && rows[|front|] == r && Butlast(rows) == front;
    assert forall i :: 0 <= i < |front| ==> front[i] == rows[i] && front[..i] == rows[..i];
    hide Unique;
    assert forall i :: 0 <= i < |front| ==>
             (RememberedAtItsTurn(history, size, front, i) <==> RememberedAtItsTurn(history, size, rows, i));
    hide RememberedAtItsTurn;
  }

  lemma StampableGrows(rows: seq<Row>, r: Row)
    ensures Stampable(rows + [r]) <==> Stampable(rows) && r.stamp.At?
  {
    assert r in rows + [r] && forall q :: q in rows ==> q in rows + [r];
  }

  /**
   * What a client sees that sends the batch again after the error. Keys are remembered before timestamps
   * are parsed: nothing was written, and the retry keeps no row that the first write had kept, for a
   * window that can hold the batch twice. If the window was empty, it reports success, with every row a
   * duplicate.
   */
  lemma RetryAfterABadStampLosesTheBatch(s: Staged, size: nat, rows: seq<Row>)
    requires Stage(s, size, rows).1.Raised? && 2 * |rows| <= size
    ensures var kept, s' := Unique(s.history, size, rows), Stage(s, size, rows).0;
            && s'.files == s.files
            && (forall r :: r in Unique(s'.history, size, rows) ==> KeyOf(r) !in Keys(kept))
            && (s.history == [] ==> Stage(s', size, rows) == (s', Written(0, |rows|)))
  {
    var kept := Unique(s.history, size, rows);
    var s' := Stage(s, size, rows).0;
    hide Unique, LastN;
    assert s'.history == s.history + Keys(kept);
    RetryKeepsNone(s.history, kept, size, rows);
    if s.history == [] {
      ResendFindsNothingNew(size, rows);
      NothingIsStampable();
      assert s'.history + Keys([]) == s'.history;
      AppendNothing(s'.files);
    }
  }

  lemma NothingIsStampable()
    ensures Stampable([])
  {
  }

  lemma AppendNothing(files: Files)
    ensures Stampable([]) && AppendRows(files, []) == files
  {
  }

  /** While the window holds all that was kept and what a retry keeps, it drops every row that was kept. */
  lemma {:induction false} RetryKeepsNone(history: seq<Key>, kept: seq<Row>, size: nat, rows: seq<Row>)
    requires |kept| + |rows| <= size
    ensures forall r :: r in Unique(history + Keys(kept), size, rows) ==> KeyOf(r) !in Keys(kept)
  {
    hide LastN, Keys, KeyOf, Offer;
    if rows != [] {
      var v, r := Unique(history + Keys(kept), size, Butlast(rows)), Last(rows);
      RetryKeepsNone(history, kept, size, Butlast(rows));
      OfferAfter(history, kept, size, v, r);
    }
  }

  lemma OfferAfter(history: seq<Key>, kept: seq<Row>, size: nat, v: seq<Row>, r: Row)
    requires |kept| + |v| <= size
    ensures Offer(history + Keys(kept), size, v, r) == v
            || (Offer(history + Keys(kept), size, v, r) == v + [r] && KeyOf(r) !in Keys(kept))
  {
    var all := history + Keys(kept) + Keys(v);
    if KeyOf(r) in Keys(kept) {
      InLastN(all, size, KeyOf(r));
      var i :| 0 <= i < |kept| && Keys(kept)[i] == KeyOf(r);
      assert all[|history| + i] == KeyOf(r);
    }
  }

  lemma ResendFindsNothingNew(size: nat, rows: seq<Row>)
    requires |rows| <= size
    ensures Unique([] + Keys(Unique([], size, rows)), size, rows) == []
  {
    hide Unique;
    EveryKeyIsAccepted([], size, rows);
    RememberedIsDuplicate([] + Keys(Unique([], size, rows)), size, rows);
  }
}
