/** The client's offline buffer: an append-only file of lines (custom_components/gridwitness/buffer.py). */
module DiskBuffers {
  import opened Basics

  /**
   * One line of the file, as its two readers see it. `row` is what peek gets out of it (None when it is
   * not JSON, or has no kind or row); `time` is what prune gets out of it (None when it is not JSON, or
   * has no parseable buffered_ts). An Alien line is JSON but not an object, such as `5`: neither reader
   * expects the TypeError it gives. A missing file is the same as an empty one to every operation.
   */
  datatype Line<+T> = Line(row: Option<T>, time: Option<int>) | Alien
  {
    function Item(): Option<T> {
      if Alien? then None else row
    }

    function Stamp(): Option<int> {
      if Alien? then None else time
    }
  }

  function Items<T>(lines: seq<Line<T>>): (r: seq<T>)
    ensures |r| <= |lines|
  {
    if lines == [] then []
    else
      match lines[0].Item()
      case Some(x) => [x] + Items(lines[1..])
      case None => Items(lines[1..])
  }

  function Stamped<T>(items: seq<T>, now: int): (r: seq<Line<T>>)
    ensures |r| == |items|
  {
    seq(|items|, i requires 0 <= i < |items| => Line(Some(items[i]), Some(now)))
  }

  predicate Current<T>(line: Line<T>, cutoff: int) {
    line.Stamp().Some? && cutoff <= line.Stamp().value
  }

  function Survivors<T>(lines: seq<Line<T>>, cutoff: int): (r: seq<Line<T>>)
    ensures |r| <= |lines|
  {
    if lines == [] then []
    else if Current(lines[0], cutoff) then [lines[0]] + Survivors(lines[1..], cutoff)
    else Survivors(lines[1..], cutoff)
  }

  /** The file after a prune. A cap of zero caps nothing: in Python `kept[-0:]` is all of `kept`. */
  function Pruned<T>(lines: seq<Line<T>>, cutoff: int, maxRows: nat): seq<Line<T>> {
    var kept := Survivors(lines, cutoff);
    if 0 < maxRows then LastN(kept, maxRows) else kept
  }

  /** What the file system does to a spill: an append that fails gets some lines out first. */
  datatype Disk = Works | AppendFails(lines: nat) | PruneFails

  /** The lines that an append gets out. */
  function Out<T>(items: seq<T>, now: int, disk: Disk): seq<Line<T>> {
    if disk.AppendFails? then Take(Stamped(items, now), disk.lines) else Stamped(items, now)
  }

  ghost predicate HasAlien<T>(lines: seq<Line<T>>) {
    Alien in lines
  }

  /** Whether a peek for `max` rows comes to an alien line before it has them. */
  predicate Jammed<T>(lines: seq<Line<T>>, max: nat) {
    lines != [] && max != 0 &&
    match lines[0]
    case Alien => true
    case Line(Some(_), _) => Jammed(lines[1..], max - 1)
    case Line(None, _) => Jammed(lines[1..], max)
  }

  /** Pruning, or the exception that leaves the file as it was. */
  ghost function PrunedUnlessAlien<T>(lines: seq<Line<T>>, cutoff: int, maxRows: nat): seq<Line<T>> {
    if HasAlien(lines) then lines else Pruned(lines, cutoff, maxRows)
  }

  class DiskBuffer<T> {
    const maxRows: nat
    const maxAge: nat
    var lines: seq<Line<T>>

    constructor (maxRows: nat, maxAge: nat)
      ensures this.maxRows == maxRows && this.maxAge == maxAge && lines == []
    {
      this.maxRows, this.maxAge := maxRows, maxAge;
      lines := [];
    }

    method Append(items: seq<T>, now: int, disk: Disk) returns (raised: bool)
      modifies this
      ensures lines == old(lines) + Out(items, now, disk)
      ensures raised == disk.AppendFails?
    {
      for i := 0 to |items|
        invariant lines == old(lines) + Stamped(items, now)[..i]
        invariant disk.AppendFails? ==> i <= disk.lines
      {
        if disk.AppendFails? && disk.lines == i {
          return true;
        }
        lines := lines + [Line(Some(items[i]), Some(now))];
      }
      raised := disk.AppendFails?;
    }

    method Count() returns (n: nat)
      ensures n == |lines|
    {
      n := 0;
      for i := 0 to |lines|
        invariant n == i
      {
        n := n + 1;
      }
    }

    method Peek(max: nat) returns (out: seq<T>, raised: bool)
      ensures raised == Jammed(lines, max)
      ensures !raised ==> out == Take(Items(lines), max)
      ensures !raised ==> out <= Items(lines) && |out| <= max && (|out| < max ==> out == Items(lines))
    {
      out, raised := [], false;
      for i := 0 to |lines|
        invariant Items(lines[..i]) == out && |out| <= max
        invariant Jammed(lines, max) == Jammed(lines[i..], max - |out|)
      {
        ItemsConcat(lines[..i], lines[i..]);
        assert lines[..i] + lines[i..] == lines;
        if |out| == max {
          return;
        }
        if lines[i].Alien? {
          return out, true;
        }
        assert lines[..i + 1] == lines[..i] + [lines[i]];
        ItemsConcat(lines[..i], [lines[i]]);
        if lines[i].row.Some? {
          out := out + [lines[i].row.value];
        }
      }
      assert lines[..|lines|] == lines;
    }

    method Commit(n: int)
      modifies this
      ensures lines == if n <= 0 then old(lines) else if n <= |old(lines)| then old(lines)[n..] else []
    {
      if n <= 0 {
        return;
      }
      var kept := [];
      for i := 0 to |lines|
        invariant kept == if n <= i then lines[n..i] else []
      {
        if n <= i {
          kept := kept + [lines[i]];
        }
      }
      lines := kept;
    }

    method Prune(now: int, fails: bool) returns (dropped: nat, raised: bool)
      modifies this
      ensures raised == (fails || HasAlien(old(lines)))
      ensures lines == if fails then old(lines) else PrunedUnlessAlien(old(lines), now - maxAge, maxRows)
      ensures !raised && 0 < maxRows ==> |lines| <= maxRows && dropped == |old(lines)| - |lines|
    {
      hide Survivors;
      OneMoreSurvivor<T>([], Alien, now - maxAge);
      var cutoff := now - maxAge;
      var kept: seq<Line<T>> := [];
      dropped, raised := 0, false;
      for i := 0 to |lines|
        invariant lines == old(lines) && !HasAlien(lines[..i])
        invariant kept == Survivors(lines[..i], cutoff) && dropped == i - |kept|
      {
        assert lines[..i + 1] == lines[..i] + [lines[i]];
        if lines[i].Alien? {
          return dropped, true;
        }
        OneMoreSurvivor(lines[..i], lines[i], cutoff);
        if Current(lines[i], cutoff) {
          kept := kept + [lines[i]];
        } else {
          dropped := dropped + 1;
        }
      }
      assert lines[..|lines|] == lines;
      if maxRows < |kept| {
        dropped := dropped + (|kept| - maxRows);
        kept := if maxRows == 0 then kept else kept[|kept| - maxRows..];
      }
      if fails {
        return dropped, true;
      }
      if 0 < dropped {
        lines := kept;
      } else {
        AllSurvive(lines, cutoff);
      }
    }
  }

  lemma {:induction false} ItemsConcat<T>(a: seq<Line<T>>, b: seq<Line<T>>)
    ensures Items(a + b) == Items(a) + Items(b)
  {
    if a == [] {
      assert a + b == b;
    } else {
      assert (a + b)[1..] == a[1..] + b && (a + b)[0] == a[0];
      ItemsConcat(a[1..], b);
    }
  }

  lemma {:induction false} SurvivorsConcat<T>(a: seq<Line<T>>, b: seq<Line<T>>, cutoff: int)
    ensures Survivors(a + b, cutoff) == Survivors(a, cutoff) + Survivors(b, cutoff)
  {
    if a == [] {
      assert a + b == b;
    } else {
      assert (a + b)[1..] == a[1..] + b && (a + b)[0] == a[0];
      SurvivorsConcat(a[1..], b, cutoff);
    }
  }

  lemma OneMoreSurvivor<T>(front: seq<Line<T>>, line: Line<T>, cutoff: int)
    ensures Survivors(front + [line], cutoff)
            == if Current(line, cutoff) then Survivors(front, cutoff) + [line] else Survivors(front, cutoff)
    ensures Survivors<T>([], cutoff) == []
  {
    SurvivorsConcat(front, [line], cutoff);
    assert [line][1..] == [];
  }

  lemma {:induction false} AllSurvive<T>(lines: seq<Line<T>>, cutoff: int)
    requires |Survivors(lines, cutoff)| == |lines|
    ensures Survivors(lines, cutoff) == lines
  {
    if lines != [] {
      AllSurvive(lines[1..], cutoff);
    }
  }

  lemma {:induction false} ItemsOfStamped<T>(items: seq<T>, now: int)
    ensures Items(Stamped(items, now)) == items
  {
    if items != [] {
      assert Stamped(items, now)[1..] == Stamped(items[1..], now);
      ItemsOfStamped(items[1..], now);
    }
  }

  /**
   * Peek counts rows, commit counts lines. After a chunk is pushed, committing as many lines as the
   * chunk has rows removes only rows of that chunk, in order from its head, whatever lines are corrupt;
   * the rest of the chunk stays (and will be pushed again).
   */
  lemma CommitRemovesOnlyThePushed<T>(lines: seq<Line<T>>, max: nat)
    ensures var chunk := Take(Items(lines), max);
            && |chunk| <= |lines|
            && Items(lines[..|chunk|]) <= chunk
            && Items(lines) == Items(lines[..|chunk|]) + Items(lines[|chunk|..])
  {
    var chunk := Take(Items(lines), max);
    assert lines[..|chunk|] + lines[|chunk|..] == lines;
    ItemsConcat(lines[..|chunk|], lines[|chunk|..]);
  }

  /** Where, from line `from` on, the lines are that have a readable stamp, not before the cutoff. */
  function NotStale<T>(lines: seq<Line<T>>, from: nat, cutoff: int): set<nat> {
    set j: nat | from <= j < |lines| && lines[j].Line? && lines[j].time.Some? && cutoff <= lines[j].time.value
  }

  /** A prune spares a row whose line is not stale, unless `maxRows` lines behind it are not stale either. */
  predicate Spared<T>(lines: seq<Line<T>>, i: nat, cutoff: int, maxRows: nat)
    requires i < |lines|
  {
    i in NotStale(lines, i, cutoff) && (maxRows == 0 || |NotStale(lines, i + 1, cutoff)| < maxRows)
  }

  lemma {:induction false} SurvivorsCounted<T>(lines: seq<Line<T>>, from: nat, cutoff: int)
    requires from <= |lines|
    ensures |Survivors(lines[from..], cutoff)| == |NotStale(lines, from, cutoff)|
    decreases |lines| - from
  {
    if from < |lines| {
      SurvivorsCounted(lines, from + 1, cutoff);
      assert lines[from..][1..] == lines[from + 1..];
      var rest := NotStale(lines, from + 1, cutoff);
      assert NotStale(lines, from, cutoff) == if Current(lines[from], cutoff) then {from} + rest else rest;
    }
  }

  lemma SurvivorsSplit<T>(lines: seq<Line<T>>, i: nat, cutoff: int)
    requires i < |lines|
    ensures Survivors(lines, cutoff)
            == Survivors(lines[..i], cutoff) + (if Current(lines[i], cutoff) then [lines[i]] else [])
              + Survivors(lines[i + 1..], cutoff)
  {
    assert lines == lines[..i] + lines[i..] && lines[i..] == [lines[i]] + lines[i + 1..];
    SurvivorsConcat(lines[..i], lines[i..], cutoff);
    SurvivorsConcat([lines[i]], lines[i + 1..], cutoff);
  }

  lemma {:induction false} SurvivorsWereThere<T(!new)>(lines: seq<Line<T>>, cutoff: int)
    ensures forall x :: x in Items(Survivors(lines, cutoff)) ==> x in Items(lines)
  {
    if lines != [] {
      SurvivorsWereThere(lines[1..], cutoff);
    }
  }

  lemma SuffixItems<T(!new)>(lines: seq<Line<T>>, n: nat)
    ensures forall x :: x in Items(LastN(lines, n)) ==> x in Items(lines)
  {
    var cut := if n <= |lines| then |lines| - n else 0;
    assert lines == lines[..cut] + lines[cut..];
    ItemsConcat(lines[..cut], lines[cut..]);
  }

  lemma SuffixOfConcat<T>(a: seq<T>, b: seq<T>, n: nat)
    ensures n <= |b| ==> LastN(a + b, n) == LastN(b, n)
    ensures |b| < n ==> LastN(a + b, n) == LastN(a, n - |b|) + b
  {
  }

  lemma ItemsOfSingle<T>(line: Line<T>)
    ensures Items([line]) == if line.Item().Some? then [line.Item().value] else []
  {
  }

  lemma SparedIsKept<T(!new)>(before: seq<Line<T>>, line: Line<T>, after: seq<Line<T>>, n: nat)
    requires line.Item().Some? && |after| < n
    ensures line.Item().value in Items(LastN(before + [line] + after, n))
  {
    hide Items;
    ItemsOfSingle(line);
    SuffixOfConcat(before + [line], after, n);
    var front := LastN(before, n - |after| - 1);
    assert LastN(before + [line], n - |after|) == front + [line];
    hide LastN;
    ItemsConcat(front + [line], after);
    ItemsConcat(front, [line]);
    assert (Items(front) + [line.Item().value])[|Items(front)|] == line.Item().value;
  }

  lemma CrowdedOutIsDropped<T(!new)>(before: seq<Line<T>>, line: Line<T>, after: seq<Line<T>>, n: nat)
    requires n <= |after|
    ensures forall x :: x in Items(LastN(before + [line] + after, n)) ==> x in Items(after)
  {
    hide Items;
    SuffixOfConcat(before + [line], after, n);
    SuffixItems(after, n);
    hide LastN;
  }

  lemma StaleIsDropped<T(!new)>(before: seq<Line<T>>, after: seq<Line<T>>, n: nat)
    ensures forall x :: x in Items(LastN(before + after, n)) ==> x in Items(before) || x in Items(after)
  {
    hide Items;
    SuffixItems(before + after, n);
    ItemsConcat(before, after);
    hide LastN;
  }

  /** What a prune takes: the stale lines, and of the current ones all but the newest `maxRows`. */
  lemma PruneKeepsExactlyTheSpared<T(!new)>(lines: seq<Line<T>>, i: nat, cutoff: int, maxRows: nat)
    requires i < |lines| && lines[i].Item().Some?
    requires lines[i].Item().value !in Items(lines[..i]) && lines[i].Item().value !in Items(lines[i + 1..])
    ensures lines[i].Item().value in Items(Pruned(lines, cutoff, maxRows)) <==> Spared(lines, i, cutoff, maxRows)
  {
    hide Survivors, Items;
    var line, before, after := lines[i], Survivors(lines[..i], cutoff), Survivors(lines[i + 1..], cutoff);
    SurvivorsSplit(lines, i, cutoff);
    SurvivorsCounted(lines, i + 1, cutoff);
    SurvivorsWereThere(lines[..i], cutoff);
    SurvivorsWereThere(lines[i + 1..], cutoff);
    var n := if maxRows == 0 then |Survivors(lines, cutoff)| else maxRows;
    assert Pruned(lines, cutoff, maxRows) == LastN(Survivors(lines, cutoff), n);
    hide LastN, Pruned;
    assert i in NotStale(lines, i, cutoff) <==> Current(line, cutoff);
    if !Current(line, cutoff) {
      assert before + [] + after == before + after;
      StaleIsDropped(before, after, n);
    } else if |after| < n {
      SparedIsKept(before, line, after, n);
    } else {
      CrowdedOutIsDropped(before, line, after, n);
    }
  }

  /** What a reader gets of a file: at any line, its row if it holds one, between the rows of the lines around it. */
  lemma ItemsInPlace<T>(lines: seq<Line<T>>, i: nat)
    requires i < |lines|
    ensures Items(lines) == Items(lines[..i])
                            + (if lines[i].Line? && lines[i].row.Some? then [lines[i].row.value] else [])
                            + Items(lines[i + 1..])
  {
    hide *;
    ItemsOfLine(lines[i]);
    assert lines == lines[..i] + lines[i..] && lines[i..] == [lines[i]] + lines[i + 1..];
    ItemsConcat(lines[..i], lines[i..]);
    ItemsConcat([lines[i]], lines[i + 1..]);
    ConcatIsAssociative(Items(lines[..i]), Items([lines[i]]), Items(lines[i + 1..]));
  }

  lemma ItemsOfLine<T>(line: Line<T>)
    ensures Items([line]) == if line.Line? && line.row.Some? then [line.row.value] else []
  {
    ItemsOfSingle(line);
    hide Items;
  }

  ghost predicate AllReadable<T>(lines: seq<Line<T>>) {
    forall i :: 0 <= i < |lines| ==> lines[i].Line? && lines[i].row.Some?
  }

  lemma {:induction false} ReadableLinesAreRows<T>(lines: seq<Line<T>>)
    ensures |Items(lines)| == |lines| <==> AllReadable(lines)
  {
    if lines != [] {
      ReadableLinesAreRows(lines[1..]);
      assert lines == [lines[0]] + lines[1..];
      assert AllReadable(lines) <==> AllReadable([lines[0]]) && AllReadable(lines[1..]);
    }
  }

  /** A commit takes the whole of a pushed chunk off the file if and only if its lines are all readable rows. */
  lemma CommitTakesTheWholeChunkExactlyWhenReadable<T>(lines: seq<Line<T>>, max: nat)
    ensures var chunk := Take(Items(lines), max);
            |chunk| <= |lines| && (Items(lines[..|chunk|]) == chunk <==> AllReadable(lines[..|chunk|]))
  {
    CommitRemovesOnlyThePushed(lines, max);
    ReadableLinesAreRows(lines[..|Take(Items(lines), max)|]);
    hide Items;
  }

  /** A peek is stopped exactly when an alien line has fewer than `max` rows in front of it. */
  lemma {:induction false} JammedExactlyBeforeTheChunkIsFull<T>(lines: seq<Line<T>>, max: nat)
    ensures Jammed(lines, max) <==> exists i :: 0 <= i < |lines| && lines[i].Alien? && |Items(lines[..i])| < max
  {
    if lines != [] {
      var n := if lines[0].Line? && lines[0].row.Some? && max != 0 then max - 1 else max;
      JammedExactlyBeforeTheChunkIsFull(lines[1..], n);
      forall i | 0 <= i < |lines| - 1 ensures lines[..i + 1][1..] == lines[1..][..i] {
      }
      if i :| 0 <= i < |lines| && lines[i].Alien? && |Items(lines[..i])| < max && i != 0 {
        assert lines[1..][i - 1].Alien? && lines[..i][1..] == lines[1..][..i - 1];
      }
      if i :| 0 <= i < |lines| - 1 && lines[1..][i].Alien? && |Items(lines[1..][..i])| < n {
        assert lines[i + 1].Alien? && lines[..i + 1][1..] == lines[1..][..i];
      }
    }
  }

  lemma {:induction false} JammedHasAlien<T>(lines: seq<Line<T>>, max: nat)
    ensures Jammed(lines, max) ==> HasAlien(lines)
    ensures Take(Items(lines), max) == [] && 0 < max && HasAlien(lines) ==> Jammed(lines, max)
  {
    if lines != [] {
      assert HasAlien(lines) <==> lines[0].Alien? || HasAlien(lines[1..]);
      match lines[0]
      case Line(Some(_), _) => if max != 0 { JammedHasAlien(lines[1..], max - 1); }
      case _ => JammedHasAlien(lines[1..], max);
    }
  }

  /** Lines at the end of the file do not free a peek that an alien line stops. */
  lemma {:induction false} StaysJammed<T>(lines: seq<Line<T>>, more: seq<Line<T>>, max: nat)
    requires Jammed(lines, max)
    ensures Jammed(lines + more, max)
  {
    assert (lines + more)[1..] == lines[1..] + more;
    match lines[0]
    case Alien =>
    case Line(Some(_), _) => StaysJammed(lines[1..], more, max - 1);
    case Line(None, _) => StaysJammed(lines[1..], more, max);
  }

  /** A chunk that was peeked has no alien line in front of its last row, so committing it removes none. */
  lemma {:induction false} CommitRemovesNoAlien<T>(lines: seq<Line<T>>, max: nat)
    requires !Jammed(lines, max)
    ensures var chunk := Take(Items(lines), max);
            |chunk| <= |lines| && !HasAlien(lines[..|chunk|])
  {
    if lines != [] && max != 0 {
      var n := if lines[0].row.Some? then max - 1 else max;
      CommitRemovesNoAlien(lines[1..], n);
      var k, rest := |Take(Items(lines), max)|, |Take(Items(lines[1..]), n)|;
      assert k <= rest + 1;
      if k != 0 {
        assert lines[..k] == [lines[0]] + lines[1..][..k - 1];
        assert k - 1 <= rest && lines[1..][..k - 1] <= lines[1..][..rest];
      }
    }
  }
}
