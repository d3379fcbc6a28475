/**
 * One dataset of the lake: week files of keyed rows, written by a merge that prefers non-null cells
 * (write_dataset in gda_acquirer/gridwitness_acquire.py).
 */
module Lake {
  import opened Basics

  /** ts_utc (in microseconds), node_id and phase; weather keys have no phase. */
  datatype Key = Key(micros: int, node: string, phase: string)

  datatype Cell = Number(value: real) | Count(n: int) | Text(text: string)

  /** The cells of a row that are not null, by column. */
  type Cells = map<string, Cell>

  datatype Row = Row(key: Key, cells: Cells)

  /** The keyed view of a table: what the last row with that key says. */
  function Lookup(rows: seq<Row>, k: Key): Option<Cells> {
    if rows == [] then None
    else if Last(rows).key == k then Some(Last(rows).cells)
    else Lookup(Butlast(rows), k)
  }

  /** One row laid over another: new cells win, a null never replaces a value. */
  function Overlay(newer: Option<Cells>, older: Option<Cells>): Option<Cells> {
    match (newer, older)
    case (None, _) => older
    case (_, None) => newer
    case (Some(n), Some(o)) => Some(o + n)
  }

  // --- What write_dataset does to one file --------------------------------------------------------

  predicate HasKey(rows: seq<Row>, k: Key) {
    exists r :: r in rows && r.key == k
  }

  /** drop_duplicates(subset=key, keep="last") */
  function KeepLast(rows: seq<Row>): seq<Row> {
    if rows == [] then []
    else if HasKey(rows[1..], rows[0].key) then KeepLast(rows[1..])
    else [rows[0]] + KeepLast(rows[1..])
  }

  /** Each row of `newer` with the nulls filled from `older`. */
  function FillFrom(newer: seq<Row>, older: seq<Row>): seq<Row> {
    if newer == [] then []
    else
      var r := newer[0];
      [r.(cells := Overlay(Some(r.cells), Lookup(older, r.key)).value)] + FillFrom(newer[1..], older)
  }

  function Without(rows: seq<Row>, taken: seq<Row>): seq<Row> {
    if rows == [] then []
    else if HasKey(taken, rows[0].key) then Without(rows[1..], taken)
    else [rows[0]] + Without(rows[1..], taken)
  }

  /** new.combine_first(old), on tables with unique keys: the union of the keys, non-null cells of `newer` first. */
  function CombineFirst(newer: seq<Row>, older: seq<Row>): seq<Row> {
    FillFrom(newer, older) + Without(older, newer)
  }

  /** Alphabetical order. */
  predicate Precedes(a: string, b: string) {
    b != [] && (a == [] || a[0] < b[0] || (a[0] == b[0] && Precedes(a[1..], b[1..])))
  }

  predicate Before(a: Key, b: Key) {
    a.micros < b.micros
    || (a.micros == b.micros && (Precedes(a.node, b.node) || (a.node == b.node && Precedes(a.phase, b.phase))))
  }

  /** Stable: a row goes in front of an equal key. */
  function Insert(r: Row, sorted: seq<Row>): seq<Row> {
    if sorted == [] || !Before(sorted[0].key, r.key) then [r] + sorted
    else [sorted[0]] + Insert(r, sorted[1..])
  }

  function SortByKey(rows: seq<Row>): seq<Row> {
    if rows == [] then [] else Insert(rows[0], SortByKey(rows[1..]))
  }

  /** The new content of a week file: the sorted group, or the merge with what was there. */
  function NewContent(prev: Option<seq<Row>>, group: seq<Row>): seq<Row> {
    match prev
    case None => SortByKey(group)
    case Some(rows) => SortByKey(CombineFirst(KeepLast(group), KeepLast(rows)))
  }

  // --- Keyed views of those operations ------------------------------------------------------------

  lemma {:induction false} LookupConcat(a: seq<Row>, b: seq<Row>, k: Key)
    ensures Lookup(a + b, k) == if HasKey(b, k) then Lookup(b, k) else Lookup(a, k)
    ensures Lookup(b, k).Some? <==> HasKey(b, k)
    decreases |b|
  {
    if b == [] {
      assert a + b == a;
    } else {
      assert Butlast(a + b) == a + Butlast(b) && b == Butlast(b) + [Last(b)];
      LookupConcat(a, Butlast(b), k);
      assert HasKey(b, k) <==> HasKey(Butlast(b), k) || Last(b).key == k;
    }
  }

  lemma LookupCons(r: Row, rest: seq<Row>, k: Key)
    ensures Lookup([r] + rest, k) == if HasKey(rest, k) then Lookup(rest, k)
                                     else if r.key == k then Some(r.cells) else None
    ensures Lookup(rest, k).Some? <==> HasKey(rest, k)
  {
    LookupConcat([r], rest, k);
    assert Butlast([r]) == [];
  }

  lemma {:induction false} KeepLastView(rows: seq<Row>, k: Key)
    ensures Lookup(KeepLast(rows), k) == Lookup(rows, k)
    ensures HasKey(KeepLast(rows), k) <==> HasKey(rows, k)
  {
    if rows != [] {
      var r, rest := rows[0], rows[1..];
      assert rows == [r] + rest;
      KeepLastView(rest, k);
      LookupCons(r, rest, k);
      LookupCons(r, KeepLast(rest), k);
      LookupConcat([], KeepLast(rows), k);
      LookupConcat([], rows, k);
    }
  }

  lemma {:induction false} FillFromView(newer: seq<Row>, older: seq<Row>, k: Key)
    ensures Lookup(FillFrom(newer, older), k) == if Lookup(newer, k).None? then None
                                                 else Overlay(Lookup(newer, k), Lookup(older, k))
    ensures HasKey(FillFrom(newer, older), k) <==> HasKey(newer, k)
  {
    if newer != [] {
      var r, rest := newer[0], newer[1..];
      assert newer == [r] + rest;
      FillFromView(rest, older, k);
      LookupCons(r, rest, k);
      LookupCons(FillFrom(newer, older)[0], FillFrom(rest, older), k);
      LookupConcat([], FillFrom(newer, older), k);
      LookupConcat([], newer, k);
    }
  }

  lemma {:induction false} WithoutView(rows: seq<Row>, taken: seq<Row>, k: Key)
    ensures Lookup(Without(rows, taken), k) == if HasKey(taken, k) then None else Lookup(rows, k)
  {
    if rows != [] {
      var r, rest := rows[0], rows[1..];
      assert rows == [r] + rest;
      WithoutView(rest, taken, k);
      LookupCons(r, rest, k);
      LookupCons(r, Without(rest, taken), k);
    }
  }

  lemma {:induction false} NothingPrecedesItself(a: string)
    ensures !Precedes(a, a)
  {
    if a != [] {
      NothingPrecedesItself(a[1..]);
    }
  }

  lemma {:induction false} InsertView(r: Row, sorted: seq<Row>, k: Key)
    ensures Lookup(Insert(r, sorted), k) == Lookup([r] + sorted, k)
    ensures HasKey(Insert(r, sorted), k) <==> HasKey([r] + sorted, k)
  {
    LookupCons(r, sorted, k);
    NothingPrecedesItself(r.key.node);
    NothingPrecedesItself(r.key.phase);
    if sorted != [] && Before(sorted[0].key, r.key) {
      var head, rest := sorted[0], sorted[1..];
      assert sorted == [head] + rest;
      InsertView(r, rest, k);
      LookupCons(r, rest, k);
      LookupCons(head, rest, k);
      LookupCons(head, Insert(r, rest), k);
    }
    LookupConcat([], Insert(r, sorted), k);
    LookupConcat([], [r] + sorted, k);
  }

  lemma {:induction false} SortView(rows: seq<Row>, k: Key)
    ensures Lookup(SortByKey(rows), k) == Lookup(rows, k)
  {
    if rows != [] {
      var r, rest := rows[0], rows[1..];
      assert rows == [r] + rest;
      SortView(rest, k);
      InsertView(r, SortByKey(rest), k);
      LookupCons(r, SortByKey(rest), k);
      LookupCons(r, rest, k);
    }
  }

  /** A rewritten file is, key by key, the group laid over what was there. */
  lemma NewContentView(prev: Option<seq<Row>>, group: seq<Row>, k: Key)
    ensures Lookup(NewContent(prev, group), k)
            == Overlay(Lookup(group, k), match prev case None => None case Some(rows) => Lookup(rows, k))
  {
    match prev
    case None => SortView(group, k);
    case Some(rows) =>
      var newer, older := KeepLast(group), KeepLast(rows);
      SortView(CombineFirst(newer, older), k);
      LookupConcat(FillFrom(newer, older), Without(older, newer), k);
      FillFromView(newer, older, k);
      WithoutView(older, newer, k);
      LookupConcat([], Without(older, newer), k);
      KeepLastView(group, k);
      KeepLastView(rows, k);
      LookupConcat([], newer, k);
  }

  // --- The order of a file ------------------------------------------------------------------------

  /** Alphabetical order: equal up to some place, where the first ends or has the smaller character. */
  ghost predicate NotAfter(a: string, b: string) {
    exists n: nat :: DiffersAt(a, b, n)
  }

  predicate DiffersAt(a: string, b: string, n: nat) {
    n <= |a| && n <= |b| && a[..n] == b[..n] && (n == |a| || (n < |b| && a[n] < b[n]))
  }

  /** First by time, then by node, then by phase. */
  ghost predicate InKeyOrder(a: Key, b: Key) {
    || a.micros < b.micros
    || (a.micros == b.micros && (if a.node == b.node then NotAfter(a.phase, b.phase) else NotAfter(a.node, b.node)))
  }

  ghost predicate Sorted(rows: seq<Row>) {
    forall i, j :: 0 <= i < j < |rows| ==> InKeyOrder(rows[i].key, rows[j].key)
  }

  lemma {:induction false} PrecedesIsAlphabetical(a: string, b: string)
    ensures Precedes(a, b) ==> NotAfter(a, b)
    ensures !Precedes(a, b) ==> NotAfter(b, a)
  {
    if a == [] {
      assert DiffersAt(a, b, 0);
    } else if b == [] {
      assert DiffersAt(b, a, 0);
    } else if a[0] != b[0] {
      assert if a[0] < b[0] then DiffersAt(a, b, 0) else DiffersAt(b, a, 0);
    } else {
      PrecedesIsAlphabetical(a[1..], b[1..]);
      if Precedes(a[1..], b[1..]) {
        LongerByOne(a, b);
      } else {
        LongerByOne(b, a);
      }
    }
  }

  lemma LongerByOne(a: string, b: string)
    requires a != [] && b != [] && a[0] == b[0] && NotAfter(a[1..], b[1..])
    ensures NotAfter(a, b)
  {
    var n: nat :| DiffersAt(a[1..], b[1..], n);
    assert a[..n + 1] == [a[0]] + a[1..][..n] && b[..n + 1] == [b[0]] + b[1..][..n];
    assert DiffersAt(a, b, n + 1);
  }

  lemma NotAfterIsTransitive(a: string, b: string, c: string)
    requires NotAfter(a, b) && NotAfter(b, c)
    ensures NotAfter(a, c) && (a == c ==> a == b)
  {
    var m: nat :| DiffersAt(a, b, m);
    var n: nat :| DiffersAt(b, c, n);
    var k := if m <= n then m else n;
    assert a[..k] == b[..m][..k] == a[..m][..k] && b[..n][..k] == c[..k] == c[..n][..k];
    assert m < n && m < |b| ==> b[m] == b[..n][m] == c[m];
    assert n < m ==> a[n] == a[..m][n] == b[n];
    assert DiffersAt(a, c, k);
  }

  lemma KeyOrderIsTransitive(a: Key, b: Key, c: Key)
    requires InKeyOrder(a, b) && InKeyOrder(b, c)
    ensures InKeyOrder(a, c)
  {
    hide NotAfter;
    if a.micros == b.micros == c.micros {
      if a.node == b.node == c.node {
        NotAfterIsTransitive(a.phase, b.phase, c.phase);
      } else if a.node != b.node && b.node != c.node {
        NotAfterIsTransitive(a.node, b.node, c.node);
      }
    }
  }

  lemma BeforeIsKeyOrder(a: Key, b: Key)
    ensures if Before(a, b) then InKeyOrder(a, b) else InKeyOrder(b, a)
  {
    hide Precedes, NotAfter;
    PrecedesIsAlphabetical(a.node, b.node);
    PrecedesIsAlphabetical(a.phase, b.phase);
    NothingPrecedesItself(a.node);
  }

  lemma {:induction false} InsertIsSorted(r: Row, rows: seq<Row>)
    requires Sorted(rows)
    ensures Sorted(Insert(r, rows)) && multiset(Insert(r, rows)) == multiset{r} + multiset(rows)
  {
    hide InKeyOrder, Before;
    if rows != [] {
      var head, rest := rows[0], rows[1..];
      assert rows == [head] + rest;
      BeforeIsKeyOrder(head.key, r.key);
      if Before(head.key, r.key) {
        InsertIsSorted(r, rest);
        var more := Insert(r, rest);
        forall x | x in more ensures InKeyOrder(head.key, x.key) {
          assert x in multiset(more);
          FromTheRest(rows, x);
        }
      } else {
        forall x | x in rest ensures InKeyOrder(r.key, x.key) {
          FromTheRest(rows, x);
          KeyOrderIsTransitive(r.key, head.key, x.key);
        }
      }
    }
  }

  lemma FromTheRest(rows: seq<Row>, x: Row)
    requires Sorted(rows) && rows != []
    ensures x in rows[1..] ==> InKeyOrder(rows[0].key, x.key)
  {
    hide InKeyOrder;
    if x in rows[1..] {
      var i :| 0 <= i < |rows[1..]| && rows[1..][i] == x;
      assert rows[i + 1] == x;
    }
  }

  lemma {:induction false} SortByKeySorts(rows: seq<Row>)
    ensures Sorted(SortByKey(rows)) && multiset(SortByKey(rows)) == multiset(rows)
  {
    hide Sorted;
    if rows == [] {
      NothingIsSorted();
    } else {
      SortByKeySorts(rows[1..]);
      InsertIsSorted(rows[0], SortByKey(rows[1..]));
      assert rows == [rows[0]] + rows[1..];
    }
  }

  lemma NothingIsSorted()
    ensures Sorted([])
  {
  }

  /** A written file is sorted by key; and the first file of a week holds every row of its group, repeats and all. */
  lemma WrittenFilesAreSorted(prev: Option<seq<Row>>, group: seq<Row>)
    ensures Sorted(NewContent(prev, group))
    ensures multiset(NewContent(None, group)) == multiset(group)
  {
    hide Sorted, SortByKey;
    SortByKeySorts(group);
    if prev.Some? {
      SortByKeySorts(CombineFirst(KeepLast(group), KeepLast(prev.value)));
    }
  }

  /** The overlay is idempotent, keeps every value unless it has a newer one, and adds exactly the new keys. */
  lemma OverlayLaws(newer: Option<Cells>, older: Option<Cells>)
    ensures Overlay(newer, Overlay(newer, older)) == Overlay(newer, older)
    ensures Overlay(newer, older).Some? <==> newer.Some? || older.Some?
    ensures older.Some? ==> forall c :: c in older.value ==>
              c in Overlay(newer, older).value
              && Overlay(newer, older).value[c] == if newer.Some? && c in newer.value then newer.value[c]
                                                   else older.value[c]
  {
    if newer.Some? {
      var n := newer.value;
      assert n + n == n;
      if older.Some? {
        assert (older.value + n) + n == older.value + n;
      }
    }
  }

  // --- One row per key ----------------------------------------------------------------------------

  ghost predicate OnePerKey(rows: seq<Row>) {
    forall i, j :: 0 <= i < j < |rows| ==> rows[i].key != rows[j].key
  }

  lemma OnePerKeyConcat(a: seq<Row>, b: seq<Row>)
    requires OnePerKey(a) && OnePerKey(b) && forall r :: r in b ==> !HasKey(a, r.key)
    ensures OnePerKey(a + b)
  {
    forall i, j | 0 <= i < |a| && |a| <= j < |a| + |b| ensures (a + b)[i].key != (a + b)[j].key {
      assert a[i] in a && b[j - |a|] in b;
    }
  }

  lemma {:induction false} KeepLastIsOnePerKey(rows: seq<Row>)
    ensures OnePerKey(KeepLast(rows))
  {
    if rows != [] {
      KeepLastIsOnePerKey(rows[1..]);
      KeepLastView(rows[1..], rows[0].key);
      var kept := KeepLast(rows[1..]);
      forall r | r in kept && !HasKey(kept, rows[0].key) ensures !HasKey([rows[0]], r.key) {
        assert r.key != rows[0].key;
      }
      if !HasKey(kept, rows[0].key) {
        OnePerKeyConcat([rows[0]], kept);
      }
    }
  }

  lemma {:induction false} FillFromKeepsKeys(newer: seq<Row>, older: seq<Row>)
    ensures |FillFrom(newer, older)| == |newer|
    ensures forall i :: 0 <= i < |newer| ==> FillFrom(newer, older)[i].key == newer[i].key
  {
    if newer != [] {
      FillFromKeepsKeys(newer[1..], older);
    }
  }

  lemma {:induction false} WithoutIsOnePerKey(rows: seq<Row>, taken: seq<Row>)
    requires OnePerKey(rows)
    ensures OnePerKey(Without(rows, taken))
    ensures forall r :: r in Without(rows, taken) ==> r in rows && !HasKey(taken, r.key)
  {
    if rows != [] {
      WithoutIsOnePerKey(rows[1..], taken);
      forall r | r in Without(rows[1..], taken) ensures !HasKey([rows[0]], r.key) {
        assert r in rows[1..];
        var i :| 0 <= i < |rows[1..]| && rows[1..][i] == r;
        assert rows[i + 1] == r;
      }
      OnePerKeyConcat([rows[0]], Without(rows[1..], taken));
    }
  }

  lemma CombineFirstIsOnePerKey(newer: seq<Row>, older: seq<Row>)
    requires OnePerKey(newer) && OnePerKey(older)
    ensures OnePerKey(CombineFirst(newer, older))
  {
    FillFromKeepsKeys(newer, older);
    WithoutIsOnePerKey(older, newer);
    forall r | r in Without(older, newer) ensures !HasKey(FillFrom(newer, older), r.key) {
      FillFromView(newer, older, r.key);
    }
    OnePerKeyConcat(FillFrom(newer, older), Without(older, newer));
  }

  lemma {:induction false} InsertIsOnePerKey(r: Row, sorted: seq<Row>)
    requires OnePerKey(sorted) && !HasKey(sorted, r.key)
    ensures OnePerKey(Insert(r, sorted))
  {
    if sorted == [] || !Before(sorted[0].key, r.key) {
      forall x | x in sorted ensures !HasKey([r], x.key) {
        assert x.key == r.key ==> HasKey(sorted, r.key);
      }
      OnePerKeyConcat([r], sorted);
    } else {
      var head, rest := sorted[0], sorted[1..];
      assert sorted == [head] + rest;
      assert head in sorted;
      InsertIsOnePerKey(r, rest);
      forall x | x in Insert(r, rest) ensures !HasKey([head], x.key) {
        InsertView(r, rest, x.key);
        assert HasKey([r] + rest, x.key);
        var y :| y in [r] + rest && y.key == x.key;
        if y in rest {
          var n :| 0 <= n < |rest| && rest[n] == y;
          assert sorted[0].key != sorted[n + 1].key;
        }
      }
      OnePerKeyConcat([head], Insert(r, rest));
    }
  }

  lemma {:induction false} SortIsOnePerKey(rows: seq<Row>)
    requires OnePerKey(rows)
    ensures OnePerKey(SortByKey(rows))
  {
    if rows != [] {
      var r, rest := rows[0], rows[1..];
      SortIsOnePerKey(rest);
      SortView(rest, r.key);
      LookupConcat([], rest, r.key);
      LookupConcat([], SortByKey(rest), r.key);
      assert forall n :: 0 <= n < |rest| ==> rest[n] == rows[n + 1];
      InsertIsOnePerKey(r, SortByKey(rest));
    }
  }

  /** A merged file holds every key once, however often it is merged. */
  lemma MergedIsOnePerKey(rows: seq<Row>, group: seq<Row>)
    ensures OnePerKey(NewContent(Some(rows), group))
  {
    KeepLastIsOnePerKey(group);
    KeepLastIsOnePerKey(rows);
    CombineFirstIsOnePerKey(KeepLast(group), KeepLast(rows));
    SortIsOnePerKey(CombineFirst(KeepLast(group), KeepLast(rows)));
  }

  predicate Stored(rows: seq<Row>, k: Key, column: string) {
    exists r :: r in rows && r.key == k && column in r.cells
  }

  lemma {:induction false} LookupIsStored(rows: seq<Row>, k: Key)
    requires OnePerKey(rows)
    ensures forall r :: r in rows && r.key == k ==> Lookup(rows, k) == Some(r.cells)
    ensures Lookup(rows, k).Some? ==> exists r :: r in rows && r.key == k && r.cells == Lookup(rows, k).value
  {
    if rows != [] {
      LookupIsStored(Butlast(rows), k);
      assert rows == Butlast(rows) + [Last(rows)];
      assert forall r :: r in Butlast(rows) ==> r.key != Last(rows).key;
    }
  }

  /**
   * What of a file survives a merge that brings nothing for a key: exactly the cells of that key's last
   * row. A week's first file is not deduplicated, so the cells of an earlier duplicate in it are lost.
   */
  lemma MergeForgetsEarlierDuplicates(rows: seq<Row>, group: seq<Row>, k: Key, column: string)
    requires Stored(rows, k, column) && !HasKey(group, k)
    ensures HasKey(rows, k) && Lookup(rows, k).Some?
    ensures Stored(NewContent(Some(rows), group), k, column) <==> column in Lookup(rows, k).value
  {
    var merged := NewContent(Some(rows), group);
    LookupConcat([], group, k);
    LookupConcat([], rows, k);
    NewContentView(Some(rows), group, k);
    MergedIsOnePerKey(rows, group);
    hide NewContent;
    LookupIsStored(merged, k);
  }

  // --- The whole dataset --------------------------------------------------------------------------

  datatype Week = Week(year: int, week: int)

  /** The week files, as they read when they can be read. */
  type Lake = map<Week, seq<Row>>

  /** The year and week of an instant (in microseconds). */
  type Calendar = int -> Week

  function GroupOf(rows: seq<Row>, week: Calendar, p: Week): seq<Row> {
    if rows == [] then []
    else if week(Last(rows).key.micros) == p then GroupOf(Butlast(rows), week, p) + [Last(rows)]
    else GroupOf(Butlast(rows), week, p)
  }

  function Weeks(rows: seq<Row>, week: Calendar): set<Week> {
    set r | r in rows :: week(r.key.micros)
  }

  /** A file after its group is merged in. */
  function Rewritten(lake: Lake, p: Week, group: seq<Row>): seq<Row> {
    NewContent(if p in lake then Some(lake[p]) else None, group)
  }

  /** The lake once the weeks in `done` have been rewritten for `batch`. */
  function WrittenFor(lake: Lake, batch: seq<Row>, week: Calendar, done: set<Week>): Lake {
    map p | p in lake.Keys + done :: if p in done then Rewritten(lake, p, GroupOf(batch, week, p)) else lake[p]
  }

  function Written(lake: Lake, batch: seq<Row>, week: Calendar): Lake {
    WrittenFor(lake, batch, week, Weeks(batch, week))
  }

  /** The keyed view of a dataset: a key can only be in the file of its own week. */
  function At(lake: Lake, week: Calendar, k: Key): Option<Cells> {
    var p := week(k.micros);
    if p in lake then Lookup(lake[p], k) else None
  }

  /** How many rows of a batch belong to the weeks in `done`. */
  function CountIn(rows: seq<Row>, week: Calendar, done: set<Week>): nat {
    if rows == [] then 0
    else CountIn(Butlast(rows), week, done) + if week(Last(rows).key.micros) in done then 1 else 0
  }

  lemma {:induction false} CountOneMore(rows: seq<Row>, week: Calendar, done: set<Week>, p: Week)
    requires p !in done
    ensures CountIn(rows, week, done + {p}) == CountIn(rows, week, done) + |GroupOf(rows, week, p)|
    ensures CountIn(rows, week, {}) == 0
  {
    if rows != [] {
      CountOneMore(Butlast(rows), week, done, p);
    }
  }

  lemma {:induction false} GroupView(rows: seq<Row>, week: Calendar, k: Key)
    ensures Lookup(GroupOf(rows, week, week(k.micros)), k) == Lookup(rows, k)
    ensures Lookup(rows, k).Some? ==> week(k.micros) in Weeks(rows, week)
  {
    if rows != [] {
      GroupView(Butlast(rows), week, k);
      assert Last(rows) in rows;
      assert forall r :: r in Butlast(rows) ==> r in rows;
    }
  }

  /** Rewriting one week: the batch laid over what that week's keys were; other weeks are as before. */
  lemma RewrittenView(lake: Lake, batch: seq<Row>, week: Calendar, p: Week, k: Key)
    ensures At(lake[p := Rewritten(lake, p, GroupOf(batch, week, p))], week, k)
            == if week(k.micros) == p then Overlay(Lookup(batch, k), At(lake, week, k)) else At(lake, week, k)
  {
    hide NewContent, Lookup, GroupOf, Overlay;
    if week(k.micros) == p {
      GroupView(batch, week, k);
      NewContentView(if p in lake then Some(lake[p]) else None, GroupOf(batch, week, p), k);
    }
  }

  /**
   * Partitioned writing, stopped anywhere: the weeks already rewritten show the batch laid over what was
   * there, the others show what was there. With every week rewritten this is one overlay on a flat table.
   */
  lemma WrittenView(lake: Lake, batch: seq<Row>, week: Calendar, done: set<Week>, k: Key)
    ensures At(WrittenFor(lake, batch, week, done), week, k)
            == if week(k.micros) in done then Overlay(Lookup(batch, k), At(lake, week, k)) else At(lake, week, k)
    ensures week(k.micros) !in Weeks(batch, week) ==> Lookup(batch, k) == None
  {
    var p := week(k.micros);
    hide NewContent, Lookup, GroupOf, Overlay;
    GroupView(batch, week, k);
    RewrittenView(lake, batch, week, p, k);
  }

  /** The partitioned dataset refines one flat table merged with the same code. */
  lemma PartitioningIsInvisible(lake: Lake, flat: seq<Row>, batch: seq<Row>, week: Calendar, k: Key)
    requires At(lake, week, k) == Lookup(flat, k)
    ensures At(Written(lake, batch, week), week, k) == Lookup(NewContent(Some(flat), batch), k)
  {
    hide NewContent, WrittenFor, Lookup, At;
    WrittenView(lake, batch, week, Weeks(batch, week), k);
    NewContentView(Some(flat), batch, k);
    GroupView(batch, week, k);
  }

  // --- write_dataset as it runs -------------------------------------------------------------------

  /** The weeks a run can write: it skips, and never overwrites, a file that it fails to read. */
  function Writable(lake: Lake, batch: seq<Row>, week: Calendar, unreadable: set<Week>): set<Week> {
    Weeks(batch, week) - (unreadable * lake.Keys)
  }

  /**
   * The directory of one dataset. Each rewrite takes two steps, the temporary file and the replace, and
   * the process may die between any two; `budget` is how many steps it gets to make. `unreadable` are the
   * weeks whose file, if there is one, this run fails to read; another run may fail on others.
   */
  class Dataset {
    const week: Calendar
    var files: Lake
    var tmp: map<Week, seq<Row>>

    constructor (week: Calendar)
      ensures this.week == week && files == map[] && tmp == map[]
    {
      this.week, files, tmp := week, map[], map[];
    }

    method WriteDataset(batch: seq<Row>, unreadable: set<Week>, budget: nat)
      returns (written: nat, done: set<Week>, left: nat, died: bool)
      modifies this
      ensures done <= Writable(old(files), batch, week, unreadable)
      ensures files == WrittenFor(old(files), batch, week, done)
      ensures died <==> done != Writable(old(files), batch, week, unreadable)
      ensures written == CountIn(batch, week, done) && left <= budget
    {
      hide *;
      var todo := Weeks(batch, week);
      written, done, left, died := 0, {}, budget, false;
      NothingWritten(files, batch, week);
      CountOneMore(batch, week, {}, Week(0, 0));
      WritableAt(files, batch, week, unreadable);
      ghost var all := Writable(files, batch, week, unreadable);
      while todo != {}
        invariant todo <= Weeks(batch, week) && left <= budget
        invariant forall p :: p in all <==> p in done || (p in todo && p in all)
        invariant forall p :: p in todo ==> p !in done
        invariant forall p :: p in todo ==>
          (p in files <==> p in old(files)) && (p in all <==> p !in files || p !in unreadable)
        invariant files == WrittenFor(old(files), batch, week, done) && written == CountIn(batch, week, done)
        decreases todo
      {
        var p :| p in todo;
        todo := todo - {p};
        var wrote;
        wrote, left, died := RewriteWeek(p, GroupOf(batch, week, p), p in unreadable, left);
        if died {
          return;
        }
        if wrote {
          OneMoreWritten(old(files), batch, week, done, p);
          CountOneMore(batch, week, done, p);
          written, done := written + |GroupOf(batch, week, p)|, done + {p};
        }
      }
    }

    method RewriteWeek(p: Week, group: seq<Row>, unreadable: bool, budget: nat)
      returns (wrote: bool, left: nat, died: bool)
      modifies this
      ensures wrote <==> !died && (p !in old(files) || !unreadable)
      ensures files == if wrote then old(files)[p := Rewritten(old(files), p, group)] else old(files)
      ensures left <= budget && (died ==> p !in old(files) || !unreadable)
    {
      wrote, left, died := false, budget, false;
      if p in files && unreadable {
        return;
      }
      if left == 0 {
        died := true;
        return;
      }
      tmp, left := tmp[p := NewContent(if p in files then Some(files[p]) else None, group)], left - 1;
      if left == 0 {
        died := true;
        return;
      }
      files, tmp, left, wrote := files[p := tmp[p]], tmp - {p}, left - 1, true;
    }
  }

  lemma WritableAt(lake: Lake, batch: seq<Row>, week: Calendar, unreadable: set<Week>)
    ensures Writable(lake, batch, week, unreadable) <= Weeks(batch, week)
    ensures forall p :: p in Weeks(batch, week) ==>
              (p in Writable(lake, batch, week, unreadable) <==> p !in lake || p !in unreadable)
  {
  }

  lemma NothingWritten(lake: Lake, batch: seq<Row>, week: Calendar)
    ensures WrittenFor(lake, batch, week, {}) == lake
  {
  }

  lemma OneMoreWritten(lake: Lake, batch: seq<Row>, week: Calendar, done: set<Week>, p: Week)
    requires p !in done
    ensures var before := WrittenFor(lake, batch, week, done);
            before[p := Rewritten(before, p, GroupOf(batch, week, p))] == WrittenFor(lake, batch, week, done + {p})
  {
  }
}
