/**
 * The long CSV format (timestamp,phase,channel,value): its printer, Emit in tools/pqdif2csv/Program.cs,
 * and its parser, _rows_from_long in survey_ingest/parsers.py.
 */
module LongFormat {
  import opened Basics

  const FREQ_MIN: real := 40.0
  const FREQ_MAX: real := 70.0
  const VOLT_MIN: real := 40.0
  const VOLT_MAX: real := 520.0

  /** The measured phase of a PQDIF channel. */
  datatype Phase = AN | BN | CN | Residual | OtherPhase

  function MapPhase(p: Phase): string {
    match p
    case AN => "L1"
    case Residual => "L1"
    case BN => "L2"
    case CN => "L3"
    case OtherPhase => "1p"
  }

  /** One value series: instants in ticks of 100 ns, and values (None where it is not a finite number). */
  datatype Series = Series(times: seq<int>, values: seq<Option<real>>, phase: Phase, frequency: bool)

  /** One data line, its timestamp in milliseconds. */
  datatype Line = Line(millis: int, phase: string, channel: string, value: real)

  const TICKS_PER_MILLI: int := 10000

  function ChannelName(s: Series): string {
    if s.frequency then "frequency" else "voltage"
  }

  /** The first `n` points of a series as lines; the timestamp format cuts below the millisecond. */
  function Emitted(s: Series, n: nat): seq<Line>
    requires n <= |s.times| && n <= |s.values|
  {
    if n == 0 then []
    else
      match s.values[n - 1]
      case None => Emitted(s, n - 1)
      case Some(v) => Emitted(s, n - 1) + [Line(s.times[n - 1] / TICKS_PER_MILLI, MapPhase(s.phase), ChannelName(s), v)]
  }

  function Points(s: Series): nat {
    if |s.times| <= |s.values| then |s.times| else |s.values|
  }

  function Printed(all: seq<Series>): seq<Line> {
    if all == [] then [] else Printed(Butlast(all)) + Emitted(Last(all), Points(Last(all)))
  }

  method Emit(output: seq<Line>, s: Series) returns (output': seq<Line>, written: nat)
    ensures output' == output + Emitted(s, Points(s)) && written == |Emitted(s, Points(s))|
  {
    output', written := output, 0;
    for i := 0 to Points(s)
      invariant output' == output + Emitted(s, i) && written == |Emitted(s, i)|
    {
      if s.values[i].Some? {
        output' := output' + [Line(s.times[i] / TICKS_PER_MILLI, MapPhase(s.phase), ChannelName(s), s.values[i].value)];
        written := written + 1;
      }
    }
  }

  // --- The parser ---------------------------------------------------------------------------------

  /** One record of a long CSV, from the converter or from a user; fields that do not parse are None. */
  datatype Rec = Rec(millis: Option<int>, phase: string, channel: string, value: Option<real>)

  datatype Key = Key(millis: int, phase: string)

  datatype ParsedRow = ParsedRow(key: Key, voltage: Option<real>, frequency: Option<real>)

  predicate Contains(s: string, part: string) {
    |part| <= |s| && (s[..|part|] == part || (s != [] && Contains(s[1..], part)))
  }

  /** Which cell of a row a record sets, if its value is in that channel's band. */
  datatype Slot = Frequency | Voltage | Neither

  function SlotOf(channel: string, v: real): Slot {
    if Contains(channel, "freq") && FREQ_MIN <= v <= FREQ_MAX then Frequency
    else if Contains(channel, "volt") && VOLT_MIN <= v <= VOLT_MAX then Voltage
    else Neither
  }

  function KeyOf(r: Rec): Option<Key> {
    if r.millis.None? || r.value.None? then None
    else Some(Key(r.millis.value, if r.phase == "" then "1p" else r.phase))
  }

  function Update(row: ParsedRow, channel: string, v: real): ParsedRow {
    match SlotOf(channel, v)
    case Frequency => row.(frequency := Some(v))
    case Voltage => row.(voltage := Some(v))
    case Neither => row
  }

  /** The insertion-ordered dictionary of the parser. */
  datatype Grouped = Grouped(order: seq<Key>, rows: map<Key, ParsedRow>)

  function Put(g: Grouped, r: Rec): Grouped {
    match KeyOf(r)
    case None => g
    case Some(k) =>
      var row := if k in g.rows then g.rows[k] else ParsedRow(k, None, None);
      Grouped(if k in g.rows then g.order else g.order + [k], g.rows[k := Update(row, r.channel, r.value.value)])
  }

  function Group(records: seq<Rec>): Grouped {
    if records == [] then Grouped([], map[]) else Put(Group(Butlast(records)), Last(records))
  }

  predicate Filled(row: ParsedRow) {
    row.voltage.Some? || row.frequency.Some?
  }

  /** The rows of a dictionary that hold a value, in its order. */
  function Collect(order: seq<Key>, rows: map<Key, ParsedRow>): seq<ParsedRow> {
    if order == [] then []
    else if Last(order) in rows && Filled(rows[Last(order)]) then Collect(Butlast(order), rows) + [rows[Last(order)]]
    else Collect(Butlast(order), rows)
  }

  method RowsFromLong(records: seq<Rec>) returns (rows: seq<ParsedRow>, read: nat, kept: nat, dropped: int)
    ensures rows == Collect(Group(records).order, Group(records).rows)
    ensures read == |records| && kept == |rows| && dropped == read - kept
  {
    var g := Grouped([], map[]);
    read := 0;
    for i := 0 to |records|
      invariant g == Group(records[..i]) && read == i
    {
      assert Butlast(records[..i + 1]) == records[..i];
      read := read + 1;
      var r := records[i];
      if r.millis.Some? && r.value.Some? {
        var k := Key(r.millis.value, if r.phase == "" then "1p" else r.phase);
        if k !in g.rows {
          g := Grouped(g.order + [k], g.rows[k := ParsedRow(k, None, None)]);
        }
        g := g.(rows := g.rows[k := Update(g.rows[k], r.channel, r.value.value)]);
      }
    }
    assert records[..|records|] == records;
    rows := [];
    for i := 0 to |g.order|
      invariant rows == Collect(g.order[..i], g.rows)
    {
      assert Butlast(g.order[..i + 1]) == g.order[..i];
      if g.order[i] in g.rows && Filled(g.rows[g.order[i]]) {
        rows := rows + [g.rows[g.order[i]]];
      }
    }
    assert g.order[..|g.order|] == g.order;
    kept, dropped := |rows|, read - |rows|;
  }

  // --- Printing, then parsing ---------------------------------------------------------------------

  /** A line as the parser reads it: numbers and timestamps print to text that parses back. */
  function AsRec(l: Line): Rec {
    Rec(Some(l.millis), l.phase, l.channel, Some(l.value))
  }

  function AsRecs(lines: seq<Line>): (r: seq<Rec>)
    ensures |r| == |lines|
  {
    seq(|lines|, i requires 0 <= i < |lines| => AsRec(lines[i]))
  }

  /** The last value that lines give a cell, looking only at values in its band. */
  function LastValue(lines: seq<Line>, k: Key, slot: Slot): Option<real> {
    if lines == [] then None
    else
      var l := Last(lines);
      if Key(l.millis, l.phase) == k && SlotOf(l.channel, l.value) == slot then Some(l.value)
      else LastValue(Butlast(lines), k, slot)
  }

  predicate Mentioned(lines: seq<Line>, k: Key) {
    exists l :: l in lines && Key(l.millis, l.phase) == k
  }

  /** The keys of lines, each at its first appearance. */
  function Appearances(lines: seq<Line>): seq<Key> {
    if lines == [] then []
    else
      var k := Key(Last(lines).millis, Last(lines).phase);
      if Mentioned(Butlast(lines), k) then Appearances(Butlast(lines)) else Appearances(Butlast(lines)) + [k]
  }

  ghost predicate Labelled(lines: seq<Line>) {
    forall l :: l in lines ==> l.phase != ""
  }

  /** Cell by cell: one row per key that occurs, each cell the last in-band value, keys in order of first appearance. */
  lemma {:induction false} GroupOfLines(lines: seq<Line>, k: Key)
    requires Labelled(lines)
    ensures var g := Group(AsRecs(lines));
            && g.order == Appearances(lines)
            && (k in g.rows <==> Mentioned(lines, k))
            && (k in g.rows ==> g.rows[k] == ParsedRow(k, LastValue(lines, k, Voltage), LastValue(lines, k, Frequency)))
            && (!Mentioned(lines, k) ==> LastValue(lines, k, Voltage).None? && LastValue(lines, k, Frequency).None?)
  {
    hide SlotOf;
    if lines != [] {
      var front, l := Butlast(lines), Last(lines);
      assert Butlast(AsRecs(lines)) == AsRecs(front) && lines == front + [l];
      GroupOfLines(front, k);
      GroupOfLines(front, Key(l.millis, l.phase));
      assert Mentioned(lines, k) <==> Mentioned(front, k) || Key(l.millis, l.phase) == k;
    }
  }

  ghost predicate DistinctKeys(order: seq<Key>) {
    forall i, j :: 0 <= i < j < |order| ==> order[i] != order[j]
  }

  lemma {:induction false} AppearancesAreDistinct(lines: seq<Line>)
    ensures DistinctKeys(Appearances(lines))
    ensures forall k :: k in Appearances(lines) <==> Mentioned(lines, k)
  {
    if lines != [] {
      AppearancesAreDistinct(Butlast(lines));
      assert lines == Butlast(lines) + [Last(lines)];
      forall k
        ensures Mentioned(lines, k) <==> Mentioned(Butlast(lines), k) || Key(Last(lines).millis, Last(lines).phase) == k
      {
      }
    }
  }

  /** Collecting keeps each filled row once, in dictionary order. */
  lemma {:induction false} CollectedOnce(order: seq<Key>, rows: map<Key, ParsedRow>)
    requires DistinctKeys(order) && forall k :: k in order ==> k in rows && rows[k].key == k
    ensures forall r :: r in Collect(order, rows) <==> r.key in order && r == rows[r.key] && Filled(r)
    ensures forall i, j :: 0 <= i < j < |Collect(order, rows)| ==>
              Collect(order, rows)[i].key != Collect(order, rows)[j].key
  {
    if order != [] {
      assert order == Butlast(order) + [Last(order)];
      CollectedOnce(Butlast(order), rows);
      forall r | r in Collect(Butlast(order), rows) ensures r.key != Last(order) {
        var i :| 0 <= i < |Butlast(order)| && Butlast(order)[i] == r.key;
        assert order[i] != order[|order| - 1];
      }
    }
  }

  /** Parsing lines gives exactly one row for each key with an in-band value, and none for the others. */
  lemma OneRowPerFilledKey(lines: seq<Line>, k: Key)
    requires Labelled(lines)
    ensures var g := Group(AsRecs(lines));
            var row := ParsedRow(k, LastValue(lines, k, Voltage), LastValue(lines, k, Frequency));
            && (row in Collect(g.order, g.rows) <==> Filled(row))
            && (forall r :: r in Collect(g.order, g.rows) && r.key == k ==> r == row)
            && (forall i, j :: 0 <= i < j < |Collect(g.order, g.rows)| ==>
                 Collect(g.order, g.rows)[i].key != Collect(g.order, g.rows)[j].key)
  {
    var g := Group(AsRecs(lines));
    AppearancesAreDistinct(lines);
    hide Group, Appearances, LastValue;
    forall q ensures q in g.order <==> q in g.rows
             ensures q in g.rows ==> g.rows[q].key == q {
      GroupOfLines(lines, q);
    }
    GroupOfLines(lines, k);
    CollectedOnce(g.order, g.rows);
  }

  // --- Any long file ------------------------------------------------------------------------------

  /** A record of the row at `k`: time and value parse, and a missing phase stands for a single one. */
  predicate Addresses(r: Rec, k: Key) {
    r.millis == Some(k.millis) && r.value.Some? && (if r.phase == "" then k.phase == "1p" else k.phase == r.phase)
  }

  ghost predicate Holds(s: string, part: string) {
    exists i: nat :: HoldsAt(s, part, i)
  }

  predicate HoldsAt(s: string, part: string, i: nat) {
    i + |part| <= |s| && s[i..i + |part|] == part
  }

  /** A record that gives a cell of its row a value in the cell's band; a channel that is both counts as a frequency. */
  ghost predicate Gives(r: Rec, k: Key, slot: Slot) {
    Addresses(r, k) &&
    var isFrequency := Holds(r.channel, "freq") && 40.0 <= r.value.value <= 70.0;
    match slot
    case Frequency => isFrequency
    case Voltage => !isFrequency && Holds(r.channel, "volt") && 40.0 <= r.value.value <= 520.0
    case Neither => false
  }

  ghost predicate GivesLast(records: seq<Rec>, k: Key, slot: Slot, i: int) {
    0 <= i < |records| && Gives(records[i], k, slot) && forall j :: i < j < |records| ==> !Gives(records[j], k, slot)
  }

  function CellOf(row: ParsedRow, slot: Slot): Option<real> {
    match slot
    case Frequency => row.frequency
    case Voltage => row.voltage
    case Neither => None
  }

  lemma {:induction false} ContainsIsHolds(s: string, part: string)
    ensures Contains(s, part) <==> Holds(s, part)
  {
    if s != [] {
      ContainsIsHolds(s[1..], part);
    }
    forall i: nat | i < |s| ensures HoldsAt(s, part, i + 1) <==> HoldsAt(s[1..], part, i) {
      if i + 1 + |part| <= |s| {
        assert s[i + 1..i + 1 + |part|] == s[1..][i..i + |part|];
      }
    }
    HoldsFromHere(s, part);
    hide HoldsAt;
    if Holds(s, part) {
      var i: nat :| HoldsAt(s, part, i);
      if i != 0 {
        HoldsInside(s, part, i);
        assert HoldsAt(s[1..], part, i - 1);
      }
    }
  }

  lemma HoldsFromHere(s: string, part: string)
    ensures HoldsAt(s, part, 0) <==> |part| <= |s| && s[..|part|] == part
  {
  }

  lemma HoldsInside(s: string, part: string, i: nat)
    requires HoldsAt(s, part, i) && i != 0
    ensures s != [] && i <= |s|
  {
  }

  lemma OneRecord(r: Rec, k: Key, slot: Slot)
    ensures KeyOf(r) == Some(k) <==> Addresses(r, k)
    ensures Addresses(r, k) && slot != Neither ==> (SlotOf(r.channel, r.value.value) == slot <==> Gives(r, k, slot))
  {
    ContainsIsHolds(r.channel, "freq");
    ContainsIsHolds(r.channel, "volt");
    hide Contains, Holds;
  }

  lemma {:induction false} RowsAreAddressed(records: seq<Rec>, k: Key)
    ensures k in Group(records).rows <==> exists r :: r in records && Addresses(r, k)
  {
    if records != [] {
      RowsAreAddressed(Butlast(records), k);
      assert records == Butlast(records) + [Last(records)];
      OtherRecord(Butlast(records), Last(records), k, Voltage);
      hide Group, Addresses;
    }
  }

  lemma {:induction false} CellsAreGiven(records: seq<Rec>, k: Key, slot: Slot, i: int)
    requires slot != Neither
    requires GivesLast(records, k, slot, i) || forall r :: r in records ==> !Gives(r, k, slot)
    ensures var g := Group(records);
            k in g.rows ==> CellOf(g.rows[k], slot) == if GivesLast(records, k, slot, i) then records[i].value else None
  {
    if records != [] {
      var front, r, n := Butlast(records), Last(records), |records| - 1;
      assert records == front + [r] && records[n] == r;
      assert forall j :: 0 <= j < n ==> front[j] == records[j];
      OtherRecord(front, r, k, slot);
      RowsAreAddressed(front, k);
      assert GivesLast(records, k, slot, i) ==> Addresses(records[i], k);
      hide Group, Gives, CellOf, Addresses;
      if !GivesLast(records, k, slot, i) || i != n {
        assert GivesLast(front, k, slot, i) <==> GivesLast(records, k, slot, i);
        CellsAreGiven(front, k, slot, i);
      }
    }
  }

  /**
   * What the parser makes of any long file: a row for each time and phase with a value that parses, a
   * missing phase standing for "1p"; and in each of its cells the last value that the file gives it in the
   * cell's band, or nothing.
   */
  lemma EachCellHoldsItsLastValue(records: seq<Rec>, k: Key, slot: Slot, i: int)
    requires slot != Neither
    requires GivesLast(records, k, slot, i) || forall r :: r in records ==> !Gives(r, k, slot)
    ensures var g := Group(records);
            && (k in g.rows <==> exists r :: r in records && Addresses(r, k))
            && (k in g.rows ==>
                  CellOf(g.rows[k], slot) == if GivesLast(records, k, slot, i) then records[i].value else None)
  {
    RowsAreAddressed(records, k);
    CellsAreGiven(records, k, slot, i);
  }

  /** Rows stand in the order in which their keys first appear: what comes later in a file goes behind. */
  lemma {:induction false} LaterRowsGoBehind(records: seq<Rec>, i: nat)
    requires i <= |records|
    ensures Group(records[..i]).order <= Group(records).order
    ensures DistinctKeys(Group(records).order) && forall k :: k in Group(records).order <==> k in Group(records).rows
    decreases |records|
  {
    hide SlotOf;
    if i < |records| {
      assert records[..i] == Butlast(records)[..i];
      LaterRowsGoBehind(Butlast(records), i);
    } else {
      assert records[..i] == records;
      if records != [] {
        LaterRowsGoBehind(Butlast(records), |records| - 1);
      }
    }
  }

  lemma {:induction false} CollectJoins(a: seq<Key>, b: seq<Key>, rows: map<Key, ParsedRow>)
    ensures Collect(a + b, rows) == Collect(a, rows) + Collect(b, rows)
    decreases |b|
  {
    hide Collect;
    if b == [] {
      assert a + b == a;
      CollectOneMore([], Key(0, ""), rows);
    } else {
      var front, last := Butlast(b), Last(b);
      assert a + b == a + front + [last] && b == front + [last];
      CollectJoins(a, front, rows);
      CollectOneMore(a + front, last, rows);
      CollectOneMore(front, last, rows);
      ConcatIsAssociative(Collect(a, rows), Collect(front, rows), CollectedAt(last, rows));
    }
  }

  function CollectedAt(k: Key, rows: map<Key, ParsedRow>): seq<ParsedRow> {
    if k in rows && Filled(rows[k]) then [rows[k]] else []
  }

  lemma CollectOneMore(order: seq<Key>, k: Key, rows: map<Key, ParsedRow>)
    ensures Collect(order + [k], rows) == Collect(order, rows) + CollectedAt(k, rows) && Collect([], rows) == []
  {
    assert Butlast(order + [k]) == order;
  }

  /** The rows with a value are given out in the dictionary's order, each in its place, and no others. */
  lemma CollectedInPlace(order: seq<Key>, rows: map<Key, ParsedRow>, i: nat)
    requires i < |order| && order[i] in rows
    ensures var row := rows[order[i]];
            Collect(order, rows)
            == Collect(order[..i], rows) + (if row.voltage.Some? || row.frequency.Some? then [row] else [])
               + Collect(order[i + 1..], rows)
  {
    assert order == order[..i] + [order[i]] + order[i + 1..];
    CollectJoins(order[..i] + [order[i]], order[i + 1..], rows);
    CollectOneMore(order[..i], order[i], rows);
    hide Collect;
  }

  /** One more record. */
  lemma OtherRecord(front: seq<Rec>, r: Rec, k: Key, slot: Slot)
    requires slot != Neither
    ensures var was, now := Group(front), Group(front + [r]);
            && (k in now.rows <==> k in was.rows || Addresses(r, k))
            && (k in now.rows ==>
                  CellOf(now.rows[k], slot)
                  == if Gives(r, k, slot) then r.value else if k in was.rows then CellOf(was.rows[k], slot) else None)
  {
    OneRecord(r, k, slot);
    assert Butlast(front + [r]) == front;
    hide SlotOf, Holds;
  }

  /**
   * A point that a series prints: it has a time and a finite value, and the line has the time cut to the
   * millisecond, the label of the phase measured, the channel and the value.
   */
  ghost predicate Prints(s: Series, i: int, l: Line) {
    && 0 <= i < |s.times| && i < |s.values| && s.values[i] == Some(l.value)
    && l.millis * 10000 <= s.times[i] < (l.millis + 1) * 10000
    && l.phase in {"L1", "L2", "L3", "1p"}
    && (l.phase == "L1" <==> s.phase.AN? || s.phase.Residual?) && (l.phase == "L2" <==> s.phase.BN?)
    && (l.phase == "L3" <==> s.phase.CN?)
    && l.channel == (if s.frequency then "frequency" else "voltage")
  }

  lemma {:induction false} EmittedLines(s: Series, n: nat)
    requires n <= Points(s)
    ensures forall l :: l in Emitted(s, n) <==> exists i :: 0 <= i < n && Prints(s, i, l)
  {
    if n > 0 {
      EmittedLines(s, n - 1);
      forall l | l in Emitted(s, n) && l !in Emitted(s, n - 1) ensures Prints(s, n - 1, l) {
      }
    }
  }

  /** The printed lines are exactly the points of all series that have a time and a finite value. */
  lemma {:induction false} PrintedLines(all: seq<Series>)
    ensures forall l :: l in Printed(all) <==> exists n, i :: 0 <= n < |all| && Prints(all[n], i, l)
  {
    if all != [] {
      PrintedLines(Butlast(all));
      EmittedLines(Last(all), Points(Last(all)));
      assert all[|all| - 1] == Last(all);
      forall l | l in Printed(all) ensures exists n, i :: 0 <= n < |all| && Prints(all[n], i, l) {
        if l in Printed(Butlast(all)) {
          var n, i :| 0 <= n < |all| - 1 && Prints(Butlast(all)[n], i, l);
          assert Prints(all[n], i, l);
        } else {
          var i :| 0 <= i < Points(Last(all)) && Prints(Last(all), i, l);
          assert Prints(all[|all| - 1], i, l);
        }
      }
      forall l, n, i | 0 <= n < |all| && Prints(all[n], i, l) ensures l in Printed(all) {
        if n < |all| - 1 {
          assert Prints(Butlast(all)[n], i, l);
        }
      }
    }
  }

  lemma ChannelSlots(v: real)
    ensures SlotOf("frequency", v) == if FREQ_MIN <= v <= FREQ_MAX then Frequency else Neither
    ensures SlotOf("voltage", v) == if VOLT_MIN <= v <= VOLT_MAX then Voltage else Neither
  {
    assert "frequency"[..4] == "freq" && "voltage"[..4] == "volt";
    NotIn("frequency", "volt", 'v');
    NotIn("voltage", "freq", 'f');
  }

  /** A string without a character does not contain a part that starts with it. */
  lemma {:induction false} NotIn(s: string, part: string, c: char)
    requires part != [] && part[0] == c && c !in s
    ensures !Contains(s, part)
  {
    if |part| <= |s| {
      assert s[..|part|][0] == s[0];
      NotIn(s[1..], part, c);
    }
  }

  lemma {:induction false} LastValueIsGiven(lines: seq<Line>, k: Key, slot: Slot)
    ensures LastValue(lines, k, slot).Some? <==> exists l :: l in lines && Sets(l, k, slot)
    ensures LastValue(lines, k, slot).Some? ==>
              exists l :: l in lines && Sets(l, k, slot) && l.value == LastValue(lines, k, slot).value
  {
    if lines != [] {
      LastValueIsGiven(Butlast(lines), k, slot);
      assert lines == Butlast(lines) + [Last(lines)];
      assert Sets(Last(lines), k, slot) ==> Last(lines) in lines;
    }
  }

  predicate Sets(l: Line, k: Key, slot: Slot) {
    Key(l.millis, l.phase) == k && SlotOf(l.channel, l.value) == slot
  }

  /** Point `i` of a series is printed as `l` and gives cell (`k`, `slot`) an in-band value. */
  ghost predicate Fills(s: Series, i: int, l: Line, k: Key, slot: Slot) {
    && Prints(s, i, l) && Key(l.millis, l.phase) == k
    && match slot
       case Frequency => s.frequency && 40.0 <= l.value <= 70.0
       case Voltage => !s.frequency && 40.0 <= l.value <= 520.0
       case Neither => false
  }

  lemma CellIsFilled(all: seq<Series>, k: Key, slot: Slot)
    requires slot != Neither
    ensures LastValue(Printed(all), k, slot).Some? <==> exists n, i, l :: 0 <= n < |all| && Fills(all[n], i, l, k, slot)
  {
    hide Printed, LastValue, SlotOf, Contains;
    var lines := Printed(all);
    PrintedLines(all);
    LastValueIsGiven(lines, k, slot);
    forall n, i, l | 0 <= n < |all| && Prints(all[n], i, l) ensures Fills(all[n], i, l, k, slot) <==> Sets(l, k, slot) {
      ChannelSlots(l.value);
    }
    if exists l :: l in lines && Sets(l, k, slot) {
      var l :| l in lines && Sets(l, k, slot);
      var n, i :| 0 <= n < |all| && Prints(all[n], i, l);
      assert Fills(all[n], i, l, k, slot);
    }
  }

  lemma {:induction false} LastValueOfConcat(a: seq<Line>, b: seq<Line>, k: Key, slot: Slot)
    ensures LastValue(a + b, k, slot)
            == if LastValue(b, k, slot).Some? then LastValue(b, k, slot) else LastValue(a, k, slot)
    decreases |b|
  {
    hide SlotOf;
    if b == [] {
      assert a + b == a;
    } else {
      assert Butlast(a + b) == a + Butlast(b);
      LastValueOfConcat(a, Butlast(b), k, slot);
    }
  }

  /** The line of a point is unique, and fills a cell exactly when the parser sets it by that line. */
  lemma PointLine(s: Series, i: int, k: Key, slot: Slot)
    requires 0 <= i < Points(s) && s.values[i].Some? && slot != Neither
    ensures var l := Line(s.times[i] / TICKS_PER_MILLI, MapPhase(s.phase), ChannelName(s), s.values[i].value);
            && Prints(s, i, l) && (forall q :: Prints(s, i, q) ==> q == l)
            && (Fills(s, i, l, k, slot) <==> Sets(l, k, slot))
  {
    ChannelSlots(s.values[i].value);
    hide SlotOf, Contains;
  }

  /** Of the first `n` points of a series, the last that fills a cell gives it its value. */
  lemma {:induction false} LastPointWins(s: Series, n: nat, k: Key, slot: Slot, i: int, l: Line)
    requires n <= Points(s) && slot != Neither && i < n
    requires 0 <= i ==> Fills(s, i, l, k, slot)
    requires forall j, q :: i < j < n && 0 <= j ==> !Fills(s, j, q, k, slot)
    ensures LastValue(Emitted(s, n), k, slot) == if 0 <= i then Some(l.value) else None
  {
    hide SlotOf, Sets, Fills, Prints;
    if n > 0 {
      if s.values[n - 1].Some? {
        PointLine(s, n - 1, k, slot);
        SetsOne(Emitted(s, n - 1), Emitted(s, n)[|Emitted(s, n - 1)|], k, slot);
        if i == n - 1 {
          FillsPrints(s, i, l, k, slot);
        }
      } else {
        FillsSomething(s, n - 1, l, k, slot);
      }
      if i != n - 1 {
        LastPointWins(s, n - 1, k, slot, i, l);
      }
    }
  }

  lemma FillsPrints(s: Series, i: int, l: Line, k: Key, slot: Slot)
    requires Fills(s, i, l, k, slot)
    ensures Prints(s, i, l)
  {
  }

  lemma FillsSomething(s: Series, i: int, l: Line, k: Key, slot: Slot)
    requires 0 <= i < Points(s) && s.values[i].None?
    ensures !Fills(s, i, l, k, slot)
  {
  }

  lemma SetsOne(front: seq<Line>, l: Line, k: Key, slot: Slot)
    ensures LastValue(front + [l], k, slot) == if Sets(l, k, slot) then Some(l.value) else LastValue(front, k, slot)
  {
    hide SlotOf;
    assert Butlast(front + [l]) == front;
  }

  /** Point `i` of series `n` comes after point `j` of series `m`. */
  predicate ComesAfter(n: int, i: int, m: int, j: int) {
    m < n || (m == n && j < i)
  }

  /** Point `i` of series `n` fills the cell, and no later one of that series or of a later series does. */
  ghost predicate IsLastFill(all: seq<Series>, k: Key, slot: Slot, n: int, i: int, l: Line) {
    && 0 <= n < |all| && Fills(all[n], i, l, k, slot)
    && forall m, j, q :: 0 <= m < |all| && ComesAfter(m, j, n, i) ==> !Fills(all[m], j, q, k, slot)
  }

  /** Of all the points printed, the last that fills a cell gives it its value: series by series, point by point. */
  lemma {:induction false} LastFillWins(all: seq<Series>, k: Key, slot: Slot, n: int, i: int, l: Line)
    requires slot != Neither && IsLastFill(all, k, slot, n, i, l)
    ensures LastValue(Printed(all), k, slot) == Some(l.value)
    decreases |all|
  {
    hide SlotOf, Sets, Fills, Prints, LastValue, Emitted;
    var front, last := Butlast(all), Last(all);
    LastValueOfConcat(Printed(front), Emitted(last, Points(last)), k, slot);
    assert last == all[|all| - 1];
    if n == |all| - 1 {
      FillsInside(last, i, l, k, slot);
      LastPointWins(last, Points(last), k, slot, i, l);
    } else {
      LastPointWins(last, Points(last), k, slot, -1, l);
      assert forall m :: 0 <= m < |front| ==> front[m] == all[m];
      LastFillWins(front, k, slot, n, i, l);
    }
  }

  lemma FillsInside(s: Series, i: int, l: Line, k: Key, slot: Slot)
    requires Fills(s, i, l, k, slot)
    ensures 0 <= i < Points(s)
  {
  }

  /**
   * Round trip. Printing any series and parsing the lines gives one row per (timestamp, phase) that
   * occurs, in first-appearance order; its frequency is the last in-band value printed for it by a
   * frequency series, its voltage the last in-band value by a voltage series, and each is there exactly
   * when there is such a value.
   */
  lemma RoundTrip(all: seq<Series>, k: Key)
    ensures var g, lines := Group(AsRecs(Printed(all))), Printed(all);
            && g.order == Appearances(lines)
            && (k in g.rows <==>
                 exists n, i, l :: 0 <= n < |all| && Prints(all[n], i, l) && Key(l.millis, l.phase) == k)
            && (k in g.rows ==> g.rows[k] == ParsedRow(k, LastValue(lines, k, Voltage), LastValue(lines, k, Frequency)))
    ensures forall slot :: slot != Neither ==>
              (LastValue(Printed(all), k, slot).Some? <==>
                exists n, i, l :: 0 <= n < |all| && Fills(all[n], i, l, k, slot))
    ensures forall slot, n, i, l :: slot != Neither && IsLastFill(all, k, slot, n, i, l) ==>
              LastValue(Printed(all), k, slot) == Some(l.value)
  {
    forall slot | slot != Neither
      ensures LastValue(Printed(all), k, slot).Some? <==>
                exists n, i, l :: 0 <= n < |all| && Fills(all[n], i, l, k, slot)
    {
      CellIsFilled(all, k, slot);
    }
    forall slot, n, i, l | slot != Neither && IsLastFill(all, k, slot, n, i, l)
      ensures LastValue(Printed(all), k, slot) == Some(l.value)
    {
      LastFillWins(all, k, slot, n, i, l);
    }
    PrintedLines(all);
    PrintedIsLabelled(all);
    hide Printed, Group, Appearances, LastValue, SlotOf, Contains, Emitted;
    GroupOfLines(Printed(all), k);
  }

  lemma PrintedIsLabelled(all: seq<Series>)
    ensures Labelled(Printed(all))
  {
    PrintedLines(all);
    hide Printed;
  }

  // --- Order of emission --------------------------------------------------------------------------

  /** No cell is given two different in-band values. */
  ghost predicate Unambiguous(lines: seq<Line>) {
    forall l, m, k, slot :: l in lines && m in lines && slot != Neither && Sets(l, k, slot) && Sets(m, k, slot) ==>
      l.value == m.value
  }

  ghost predicate Agree(xs: seq<Line>, ys: seq<Line>) {
    forall k, slot :: slot != Neither ==> LastValue(xs, k, slot) == LastValue(ys, k, slot)
  }

  lemma SameElements(xs: seq<Line>, ys: seq<Line>)
    requires multiset(xs) == multiset(ys)
    ensures forall l :: l in xs <==> l in ys
  {
    forall l ensures l in xs <==> l in ys {
      assert l in xs <==> l in multiset(xs);
      assert l in ys <==> l in multiset(ys);
    }
  }

  function MovedLast(lines: seq<Line>, i: nat): seq<Line>
    requires i < |lines|
  {
    lines[..i] + lines[i + 1..] + [lines[i]]
  }

  lemma MovedLastWins(lines: seq<Line>, i: nat, k: Key, slot: Slot)
    requires i < |lines| && Sets(lines[i], k, slot)
    ensures multiset(MovedLast(lines, i)) == multiset(lines)
    ensures LastValue(MovedLast(lines, i), k, slot) == Some(lines[i].value)
  {
    assert lines == lines[..i] + [lines[i]] + lines[i + 1..];
  }

  /** The parsed values are the same for every order of the lines if and only if no cell is given two values. */
  lemma OrderIsIrrelevantExactlyWhenUnambiguous(lines: seq<Line>)
    ensures Unambiguous(lines) <==>
            forall xs, ys :: multiset(xs) == multiset(lines) && multiset(ys) == multiset(lines) ==> Agree(xs, ys)
  {
    if Unambiguous(lines) {
      forall xs, ys, k, slot | multiset(xs) == multiset(lines) && multiset(ys) == multiset(lines) && slot != Neither
        ensures LastValue(xs, k, slot) == LastValue(ys, k, slot)
      {
        SameElements(xs, lines);
        SameElements(ys, lines);
        LastValueIsGiven(xs, k, slot);
        LastValueIsGiven(ys, k, slot);
        hide LastValue, SlotOf;
      }
    } else {
      var l, m, k, slot :| l in lines && m in lines && slot != Neither && Sets(l, k, slot) && Sets(m, k, slot)
        && l.value != m.value;
      var i :| 0 <= i < |lines| && lines[i] == l;
      var j :| 0 <= j < |lines| && lines[j] == m;
      MovedLastWins(lines, i, k, slot);
      MovedLastWins(lines, j, k, slot);
      assert !Agree(MovedLast(lines, i), MovedLast(lines, j));
    }
  }

  // --- What the server's row model asks -----------------------------------------------------------

  /** ElectricalRow: one of four phases, and a frequency, if any, between 40 and 70 Hz. */
  predicate Valid(row: ParsedRow) {
    && row.key.phase in {"L1", "L2", "L3", "1p"}
    && (row.frequency.Some? ==> 40.0 <= row.frequency.value <= 70.0)
  }

  /**
   * A row of a parsed long file, from whatever source, is one the server's model accepts exactly when its
   * phase is one of the four; any other makes the worker give the whole survey up, on every run.
   */
  lemma {:induction false} ParsedRowsAreValid(records: seq<Rec>, k: Key)
    ensures var g := Group(records);
            k in g.rows ==> g.rows[k].key == k && (Valid(g.rows[k]) <==> k.phase in {"L1", "L2", "L3", "1p"})
  {
    if records != [] {
      ParsedRowsAreValid(Butlast(records), k);
    }
  }

  /** So the converter's own output never makes the worker fail. */
  lemma ConverterOutputIsValid(all: seq<Series>, k: Key)
    ensures var g := Group(AsRecs(Printed(all))); k in g.rows ==> Valid(g.rows[k])
  {
    hide Printed, Group, Appearances, LastValue, SlotOf, Contains;
    RoundTrip(all, k);
    ParsedRowsAreValid(AsRecs(Printed(all)), k);
  }
}
