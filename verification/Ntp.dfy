/**
 * The node's clock discipline (custom_components/gridwitness/ntp.py, and the plausibility gate of
 * coordinator.py). Times are seconds, as exact reals. The offset and delay formulas are those of
 * section 5 of RFC 4330 and section 8 of RFC 5905.
 */
module Ntp {
  import opened Basics

  const NTP_UNIX_DELTA: int := 2208988800
  const MAX_DELAY: real := 1.0
  const MAX_PLAUSIBLE: real := 30.0

  /** The two server timestamps of a reply, as the 32-bit words in the packet; or a packet too short to hold them. */
  datatype Packet = Short | Packet(rxHi: nat, rxLo: nat, txHi: nat, txLo: nat)

  /**
   * One query: silence (a timeout or a socket error), or a reply sent at `t1` and received at `t4` by the
   * local clock.
   */
  datatype Query = Silent | Answered(packet: Packet, t1: real, t4: real)

  function ToSeconds(hi: int, lo: int): real {
    (hi - NTP_UNIX_DELTA) as real + lo as real / 4294967296.0
  }

  /** (offset, delay), or nothing for a short packet. */
  function ParseOffset(p: Packet, t1: real, t4: real): Option<(real, real)> {
    match p
    case Short => None
    case Packet(rxHi, rxLo, txHi, txLo) =>
      var t2, t3 := ToSeconds(rxHi, rxLo), ToSeconds(txHi, txLo);
      Some((((t2 - t1) + (t3 - t4)) / 2.0, (t4 - t1) - (t3 - t2)))
  }

  function QueryOne(q: Query): Option<real> {
    match q
    case Silent => None
    case Answered(p, t1, t4) =>
      match ParseOffset(p, t1, t4)
      case None => None
      case Some((offset, delay)) => if MAX_DELAY < delay || delay < 0.0 then None else Some(offset)
  }

  function Offsets(queries: seq<Query>): seq<real> {
    if queries == [] then []
    else
      (match QueryOne(queries[0]) case None => [] case Some(o) => [o]) + Offsets(queries[1..])
  }

  function Insert(x: real, sorted: seq<real>): seq<real> {
    if sorted == [] || x <= sorted[0] then [x] + sorted else [sorted[0]] + Insert(x, sorted[1..])
  }

  function Sort(s: seq<real>): seq<real> {
    if s == [] then [] else Insert(s[0], Sort(s[1..]))
  }

  function Median(s: seq<real>): real
    requires s != []
  {
    SortLength(s);
    var t, m := Sort(s), |s| / 2;
    if |s| % 2 == 1 then t[m] else (t[m - 1] + t[m]) / 2.0
  }

  function AuthoritativeOffset(queries: seq<Query>, minResponses: nat): Option<real> {
    var offsets := Offsets(queries);
    // statistics.median itself refuses an empty list, which min_responses = 0 would let through
    if |offsets| < minResponses || offsets == [] then None else Some(Median(offsets))
  }

  /** The offset applied to later stamps after one refresh. */
  function Refresh(applied: real, queries: seq<Query>, minResponses: nat): real {
    match AuthoritativeOffset(queries, minResponses)
    case None => applied
    case Some(o) => if o < -MAX_PLAUSIBLE || MAX_PLAUSIBLE < o then applied else o
  }

  // --- One reply ----------------------------------------------------------------------------------

  /**
   * The two words of a timestamp, whole seconds and 2^-32 of a second since 1900, say a Unix time: from 1900
   * to 1970 are seventy years, seventeen of them leap years.
   */
  ghost predicate Says(hi: nat, lo: nat, unix: real) {
    hi as real + lo as real / 4294967296.0 == unix + ((70 * 365 + 17) * 86400) as real
  }

  /**
   * A reply from a server whose clock is right: it reached the server `out` seconds after it was sent
   * and came back in `back` seconds, while true time runs `theta` ahead of the local clock.
   */
  ghost predicate HonestVia(q: Query, theta: real, out: real, back: real) {
    && q.Answered? && q.packet.Packet?
    && 0.0 <= out && 0.0 <= back
    && Says(q.packet.rxHi, q.packet.rxLo, q.t1 + theta + out)
    && Says(q.packet.txHi, q.packet.txLo, q.t4 + theta - back)
  }

  ghost predicate Honest(q: Query, theta: real) {
    exists out, back :: HonestVia(q, theta, out, back)
  }

  predicate Within(x: real, centre: real, radius: real) {
    centre - radius <= x <= centre + radius
  }

  /** An honest reply that passes the delay test is off by at most half its delay, so by half a second. */
  lemma HonestReplyIsClose(q: Query, theta: real)
    requires Honest(q, theta)
    ensures RoundTrip(q).Some?
    ensures QueryOne(q).Some? ==>
              Within(QueryOne(q).value, theta, RoundTrip(q).value / 2.0) && Within(QueryOne(q).value, theta, 0.5)
  {
    var out, back :| HonestVia(q, theta, out, back);
    var offset, delay := ParseOffset(q.packet, q.t1, q.t4).value.0, ParseOffset(q.packet, q.t1, q.t4).value.1;
    assert offset == theta + (out - back) / 2.0 && delay == out + back;
  }

  /** How long a reply was on its way, without the time the server had it: by the packet and the local clock. */
  function RoundTrip(q: Query): Option<real> {
    if q.Answered? && q.packet.Packet? then
      var Packet(rxHi, rxLo, txHi, txLo) := q.packet;
      Some(q.t4 - q.t1 - (txHi - rxHi) as real - (txLo - rxLo) as real / 4294967296.0)
    else None
  }

  /** The queries whose reply came, was long enough, and was up to a second on its way. */
  function Usable(queries: seq<Query>): set<nat> {
    set i: nat | i < |queries| && RoundTrip(queries[i]).Some? && 0.0 <= RoundTrip(queries[i]).value <= 1.0
  }

  lemma UsableIsAccepted(q: Query)
    ensures QueryOne(q).Some? <==> RoundTrip(q).Some? && 0.0 <= RoundTrip(q).value <= 1.0
  {
  }

  lemma {:induction false} OffsetsJoin(a: seq<Query>, b: seq<Query>)
    ensures Offsets(a + b) == Offsets(a) + Offsets(b)
  {
    hide QueryOne;
    if a == [] {
      assert a + b == b;
    } else {
      assert (a + b)[1..] == a[1..] + b;
      OffsetsJoin(a[1..], b);
    }
  }

  lemma {:induction false} OneOffsetPerUsableReply(queries: seq<Query>)
    ensures |Offsets(queries)| == |Usable(queries)|
  {
    if queries != [] {
      var front, q, n := Butlast(queries), Last(queries), |queries| - 1;
      assert queries == front + [q] && queries[n] == q;
      hide QueryOne, RoundTrip, Offsets;
      OneOffsetPerUsableReply(front);
      OffsetsJoin(front, [q]);
      UsableIsAccepted(q);
      OffsetOfOne(q);
      assert forall i :: 0 <= i < n ==> front[i] == queries[i];
      assert Usable(queries) == if n in Usable(queries) then Usable(front) + {n} else Usable(front);
    } else {
      OffsetOfOne(Silent);
      assert Usable(queries) == {};
    }
  }

  lemma OffsetOfOne(q: Query)
    ensures |Offsets([q])| == (if QueryOne(q).Some? then 1 else 0) && Offsets([]) == []
  {
    assert [q][1..] == [];
  }

  /**
   * The quorum. There is no answer exactly when fewer usable replies than `minResponses` came, or none;
   * and then a refresh leaves the offset alone, whatever those replies say.
   */
  lemma NoAnswerExactlyBelowTheQuorum(applied: real, queries: seq<Query>, minResponses: nat)
    ensures AuthoritativeOffset(queries, minResponses).None? <==>
              |Usable(queries)| < minResponses || |Usable(queries)| == 0
    ensures |Usable(queries)| < minResponses || |Usable(queries)| == 0 ==>
              Refresh(applied, queries, minResponses) == applied
  {
    OneOffsetPerUsableReply(queries);
    hide Usable;
  }

  // --- The median ---------------------------------------------------------------------------------

  /** How many elements lie within `radius` of `centre`. */
  function Close(s: seq<real>, centre: real, radius: real): nat {
    if s == [] then 0 else (if Within(s[0], centre, radius) then 1 else 0) + Close(s[1..], centre, radius)
  }

  ghost predicate Ascending(s: seq<real>) {
    forall i, j :: 0 <= i < j < |s| ==> s[i] <= s[j]
  }

  lemma {:induction false} SortLength(s: seq<real>)
    ensures |Sort(s)| == |s|
  {
    if s != [] {
      SortLength(s[1..]);
      InsertKeeps(s[0], Sort(s[1..]), 0.0, 0.0);
    }
  }

  lemma {:induction false} InsertKeeps(x: real, t: seq<real>, c: real, r: real)
    ensures |Insert(x, t)| == |t| + 1
    ensures Close(Insert(x, t), c, r) == Close(t, c, r) + if Within(x, c, r) then 1 else 0
    ensures Ascending(t) ==> Ascending(Insert(x, t))
    ensures t != [] && x > t[0] ==> Insert(x, t)[0] == t[0]
  {
    if t == [] || x <= t[0] {
      assert ([x] + t)[1..] == t;
    } else {
      InsertKeeps(x, t[1..], c, r);
      var rest := Insert(x, t[1..]);
      assert ([t[0]] + rest)[1..] == rest;
      if Ascending(t) {
        assert t[0] <= rest[0] by {
          if |t| > 1 && x > t[1] {} else {}
        }
      }
    }
  }

  lemma {:induction false} SortSorts(s: seq<real>, c: real, r: real)
    ensures Ascending(Sort(s)) && |Sort(s)| == |s| && Close(Sort(s), c, r) == Close(s, c, r)
  {
    if s != [] {
      SortSorts(s[1..], c, r);
      InsertKeeps(s[0], Sort(s[1..]), c, r);
    }
  }

  lemma {:induction false} CloseSplits(a: seq<real>, b: seq<real>, c: real, r: real)
    ensures Close(a + b, c, r) == Close(a, c, r) + Close(b, c, r)
    ensures Close(a, c, r) <= |a|
  {
    if a == [] {
      assert a + b == b;
    } else {
      assert (a + b)[1..] == a[1..] + b;
      CloseSplits(a[1..], b, c, r);
    }
  }

  lemma {:induction false} AtMostTheRestIsClose(a: seq<real>, b: seq<real>, c: real, r: real)
    requires forall i :: 0 <= i < |a| ==> !Within(a[i], c, r)
    ensures Close(a + b, c, r) == Close(b, c, r) <= |b|
  {
    CloseSplits(b, [], c, r);
    assert b + [] == b;
    if a == [] {
      assert a + b == b;
    } else {
      assert (a + b)[1..] == a[1..] + b;
      AtMostTheRestIsClose(a[1..], b, c, r);
    }
  }

  /** In a sorted list, the elements beside the middle are close once more than half of all are. */
  lemma MiddleIsClose(t: seq<real>, c: real, r: real, k: nat)
    requires Ascending(t) && |t| < 2 * Close(t, c, r)
    requires k < |t| <= 2 * (k + 1) && 2 * k <= |t|
    ensures Within(t[k], c, r)
  {
    if t[k] < c - r {
      assert t == t[..k + 1] + t[k + 1..];
      AtMostTheRestIsClose(t[..k + 1], t[k + 1..], c, r);
    } else if c + r < t[k] {
      assert t == t[..k] + t[k..];
      assert t[k..] + [] == t[k..];
      CloseSplits(t[..k], t[k..], c, r);
      AtMostTheRestIsClose(t[k..], [], c, r);
    }
  }

  lemma MedianFollowsTheMajority(s: seq<real>, c: real, r: real)
    requires s != [] && |s| < 2 * Close(s, c, r)
    ensures Within(Median(s), c, r)
  {
    SortSorts(s, c, r);
    var m := |s| / 2;
    MiddleIsClose(Sort(s), c, r, m);
    if |s| % 2 == 0 {
      MiddleIsClose(Sort(s), c, r, m - 1);
    }
  }

  function Below(s: seq<real>, x: real): nat {
    if s == [] then 0 else (if s[0] < x then 1 else 0) + Below(s[1..], x)
  }

  function UpTo(s: seq<real>, x: real): nat {
    if s == [] then 0 else (if s[0] <= x then 1 else 0) + UpTo(s[1..], x)
  }

  /** An element with at most `k` smaller ones, and more than `k`, itself among them, that are no larger. */
  ghost predicate Ranked(s: seq<real>, k: nat, x: real) {
    x in s && Below(s, x) <= k < UpTo(s, x)
  }

  lemma RanksAreUnique(s: seq<real>, k: nat, x: real, y: real)
    requires Ranked(s, k, x) && Ranked(s, k, y)
    ensures x == y
  {
    if x < y {
      SmallerCounts(s, x, y);
    } else if y < x {
      SmallerCounts(s, y, x);
    }
  }

  lemma {:induction false} SmallerCounts(s: seq<real>, x: real, y: real)
    requires x < y
    ensures UpTo(s, x) <= Below(s, y)
  {
    if s != [] {
      SmallerCounts(s[1..], x, y);
    }
  }

  lemma {:induction false} CountsJoin(a: seq<real>, b: seq<real>, x: real)
    ensures Below(a + b, x) == Below(a, x) + Below(b, x) && UpTo(a + b, x) == UpTo(a, x) + UpTo(b, x)
    ensures Below(a, x) <= |a|
    ensures (forall i :: 0 <= i < |a| ==> a[i] <= x) ==> UpTo(a, x) == |a|
    ensures (forall i :: 0 <= i < |a| ==> x <= a[i]) ==> Below(a, x) == 0
  {
    if a == [] {
      assert a + b == b;
    } else {
      assert (a + b)[1..] == a[1..] + b;
      assert forall i :: 0 <= i < |a| - 1 ==> a[1..][i] == a[i + 1];
      CountsJoin(a[1..], b, x);
    }
  }

  lemma {:induction false} InsertCounts(y: real, t: seq<real>, x: real)
    ensures Below(Insert(y, t), x) == Below([y] + t, x) && UpTo(Insert(y, t), x) == UpTo([y] + t, x)
    ensures x in Insert(y, t) ==> x == y || x in t
  {
    assert ([y] + t)[1..] == t;
    if t != [] && t[0] < y {
      InsertCounts(y, t[1..], x);
      var rest := Insert(y, t[1..]);
      assert ([y] + t[1..])[1..] == t[1..] && ([t[0]] + rest)[1..] == rest;
    }
  }

  lemma {:induction false} SortCounts(s: seq<real>, x: real)
    ensures Below(Sort(s), x) == Below(s, x) && UpTo(Sort(s), x) == UpTo(s, x)
    ensures x in Sort(s) ==> x in s
  {
    if s != [] {
      SortCounts(s[1..], x);
      InsertCounts(s[0], Sort(s[1..]), x);
      assert ([s[0]] + Sort(s[1..]))[1..] == Sort(s[1..]);
    }
  }

  lemma SortedIsRanked(s: seq<real>, k: nat)
    requires k < |s|
    ensures |Sort(s)| == |s| && Ranked(s, k, Sort(s)[k])
  {
    hide Sort, Below, UpTo;
    SortSorts(s, 0.0, 0.0);
    SortCounts(s, Sort(s)[k]);
    AscendingIsRanked(Sort(s), k);
  }

  lemma AscendingIsRanked(t: seq<real>, k: nat)
    requires Ascending(t) && k < |t|
    ensures Ranked(t, k, t[k])
  {
    hide Below, UpTo;
    assert t == t[..k] + t[k..] && t == t[..k + 1] + t[k + 1..];
    CountsJoin(t[..k], t[k..], t[k]);
    CountsJoin(t[k..], [], t[k]);
    CountsJoin(t[..k + 1], t[k + 1..], t[k]);
  }

  /** The median is the mean of the two elements in the middle, which are the same one when there is an odd number. */
  lemma MedianIsTheMiddle(s: seq<real>, low: real, high: real)
    requires s != [] && Ranked(s, (|s| - 1) / 2, low) && Ranked(s, |s| / 2, high)
    ensures Median(s) == (low + high) / 2.0
  {
    SortedIsRanked(s, (|s| - 1) / 2);
    SortedIsRanked(s, |s| / 2);
    hide Ranked, Sort;
    RanksAreUnique(s, (|s| - 1) / 2, low, Sort(s)[(|s| - 1) / 2]);
    RanksAreUnique(s, |s| / 2, high, Sort(s)[|s| / 2]);
  }

  function Copies(x: real, n: nat): (r: seq<real>)
    ensures |r| == n
  {
    if n == 0 then [] else [x] + Copies(x, n - 1)
  }

  lemma {:induction false} CopiesAre(x: real, n: nat, c: real, r: real)
    ensures forall i :: 0 <= i < n ==> Copies(x, n)[i] == x
    ensures Close(Copies(x, n), c, r) == if Within(x, c, r) then n else 0
  {
    if n > 0 {
      CopiesAre(x, n - 1, c, r);
      assert Copies(x, n)[1..] == Copies(x, n - 1);
    }
  }

  lemma {:induction false} SortedIsFixed(s: seq<real>)
    requires Ascending(s)
    ensures Sort(s) == s
  {
    if s != [] {
      SortedIsFixed(s[1..]);
    }
  }

  /**
   * More than half is exactly what the median needs: with `good` of `n` offsets near the truth, the
   * median is near it whatever the others are if and only if the good ones are a strict majority.
   */
  lemma MajorityIsExact(c: real, r: real, good: nat, n: nat)
    requires 0.0 <= r && good <= n && 0 < n
    ensures n < 2 * good <==> forall s :: |s| == n && Close(s, c, r) == good ==> Within(Median(s), c, r)
  {
    if n < 2 * good {
      forall s | |s| == n && Close(s, c, r) == good ensures Within(Median(s), c, r) {
        MedianFollowsTheMajority(s, c, r);
      }
    } else {
      var far := c + 4.0 * r + 4.0;
      var s := Copies(c, good) + Copies(far, n - good);
      CopiesAre(c, good, c, r);
      CopiesAre(far, n - good, c, r);
      CloseSplits(Copies(c, good), Copies(far, n - good), c, r);
      SortedIsFixed(s);
      assert s[n / 2] == far;
      assert n % 2 == 0 ==> s[n / 2 - 1] >= c;
      assert |s| == n && Close(s, c, r) == good && !Within(Median(s), c, r);
    }
  }

  // --- A whole refresh ----------------------------------------------------------------------------

  /** How many of the accepted replies are from honest servers. */
  ghost function HonestAccepted(queries: seq<Query>, theta: real): nat {
    if queries == [] then 0
    else
      (if QueryOne(queries[0]).Some? && Honest(queries[0], theta) then 1 else 0)
      + HonestAccepted(queries[1..], theta)
  }

  lemma {:induction false} HonestRepliesAreClose(queries: seq<Query>, theta: real)
    ensures HonestAccepted(queries, theta) <= Close(Offsets(queries), theta, 0.5)
  {
    if queries != [] {
      HonestRepliesAreClose(queries[1..], theta);
      var q := queries[0];
      match QueryOne(q)
      case None => assert Offsets(queries) == Offsets(queries[1..]);
      case Some(o) =>
        assert Offsets(queries)[1..] == Offsets(queries[1..]);
        if Honest(q, theta) {
          HonestReplyIsClose(q, theta);
        }
    }
  }

  /**
   * With a strict majority of honest servers among those accepted, a refresh leaves the node within
   * half a second of true time, or (only when the node is at least 29.5 s out) unchanged; whatever the
   * other servers say, and for odd and even numbers of replies.
   */
  lemma RefreshIsRobust(applied: real, queries: seq<Query>, minResponses: nat, theta: real)
    requires |Offsets(queries)| < 2 * HonestAccepted(queries, theta) && minResponses <= |Offsets(queries)|
    ensures var result := AuthoritativeOffset(queries, minResponses);
            result.Some? && Within(result.value, theta, 0.5)
    ensures Within(theta, 0.0, 29.5) ==> Within(Refresh(applied, queries, minResponses), theta, 0.5)
    ensures !Within(theta, 0.0, 30.5) ==> Refresh(applied, queries, minResponses) == applied
  {
    HonestRepliesAreClose(queries, theta);
    CloseSplits(Offsets(queries), [], theta, 0.5);
    assert Offsets(queries) + [] == Offsets(queries);
    MedianFollowsTheMajority(Offsets(queries), theta, 0.5);
  }

  /** The offset in force after a whole run of refreshes, from the initial zero. */
  function Applied(runs: seq<seq<Query>>, minResponses: nat): real {
    if runs == [] then 0.0 else Refresh(Applied(Butlast(runs), minResponses), Last(runs), minResponses)
  }

  /** How many refreshes ago the last one was that got an answer. */
  function SinceAnswer(runs: seq<seq<Query>>, minResponses: nat): Option<nat> {
    if runs == [] then None
    else if AuthoritativeOffset(Last(runs), minResponses).Some? then Some(0)
    else
      match SinceAnswer(Butlast(runs), minResponses)
      case None => None
      case Some(n) => Some(n + 1)
  }

  /**
   * What the node's clock is behind true time at each refresh: never by much, and not moving by more than
   * `drift` between two.
   */
  ghost predicate Drifting(thetas: seq<real>, drift: real) {
    && (forall i :: 0 <= i < |thetas| ==> Within(thetas[i], 0.0, 29.5))
    && (forall i :: 1 <= i < |thetas| ==> Within(thetas[i], thetas[i - 1], drift))
  }

  /** Every refresh that gets an answer has a strict majority of honest servers among those accepted. */
  ghost predicate HonestMajorities(runs: seq<seq<Query>>, minResponses: nat, thetas: seq<real>)
    requires |thetas| == |runs|
  {
    forall i :: 0 <= i < |runs| && AuthoritativeOffset(runs[i], minResponses).Some? ==>
      |Offsets(runs[i])| < 2 * HonestAccepted(runs[i], thetas[i])
  }

  /** How far off a stamp may be, `n` refreshes after the last answer. */
  function Slack(n: nat, drift: real): real {
    0.5 + n as real * drift
  }

  lemma SlackGrows(n: nat, drift: real)
    ensures Slack(n + 1, drift) == Slack(n, drift) + drift && Slack(0, drift) == 0.5
  {
    assert (n + 1) as real == n as real + 1.0;
  }

  /** One refresh: an honest majority sets the offset right; no answer leaves it. */
  lemma OneRefresh(applied: real, q: seq<Query>, minResponses: nat, theta: real)
    requires Within(theta, 0.0, 29.5)
    ensures AuthoritativeOffset(q, minResponses).None? ==> Refresh(applied, q, minResponses) == applied
    ensures AuthoritativeOffset(q, minResponses).Some? && |Offsets(q)| < 2 * HonestAccepted(q, theta) ==>
              Within(Refresh(applied, q, minResponses), theta, 0.5)
  {
    hide Offsets, HonestAccepted, Median;
    if AuthoritativeOffset(q, minResponses).Some? && |Offsets(q)| < 2 * HonestAccepted(q, theta) {
      RefreshIsRobust(applied, q, minResponses, theta);
    }
  }

  /**
   * Over any run of refreshes, while the node's clock drifts: with honest majorities and a clock less
   * than 29.5 s out, the offset in force is always plausible, and it is right to half a second plus the
   * drift since the last answer, from the first answer on.
   */
  lemma {:induction false} StampsStayTrue(runs: seq<seq<Query>>, minResponses: nat, thetas: seq<real>, drift: real)
    requires |thetas| == |runs| && 0.0 <= drift && Drifting(thetas, drift)
    requires HonestMajorities(runs, minResponses, thetas)
    ensures Within(Applied(runs, minResponses), 0.0, MAX_PLAUSIBLE)
    ensures var since := SinceAnswer(runs, minResponses);
            since.Some? ==> runs != [] && Within(Applied(runs, minResponses), Last(thetas), Slack(since.value, drift))
    decreases |runs|
  {
    hide AuthoritativeOffset, Refresh, Offsets, HonestAccepted, Slack;
    if runs != [] {
      var earlier, q := Butlast(runs), Last(runs);
      assert forall i :: 0 <= i < |earlier| ==> earlier[i] == runs[i] && Butlast(thetas)[i] == thetas[i];
      StampsStayTrue(earlier, minResponses, Butlast(thetas), drift);
      assert q == runs[|runs| - 1] && Last(thetas) == thetas[|runs| - 1];
      OneRefresh(Applied(earlier, minResponses), q, minResponses, Last(thetas));
      SlackGrows(if SinceAnswer(earlier, minResponses).Some? then SinceAnswer(earlier, minResponses).value else 0,
                 drift);
    }
  }

  /**
   * Timestamps wrap after 2^32 seconds (February 2036) and the code takes them as they come: an honest
   * reply then reads 2^32 s early, so every answer is implausible and the last offset stays in force.
   */
  lemma EraRolloverFreezesTheOffset(applied: real, queries: seq<Query>, minResponses: nat, theta: real)
    requires Within(theta, 0.0, 4000000000.0)
    requires |Offsets(queries)| < 2 * HonestAccepted(queries, theta - 4294967296.0)
    ensures Refresh(applied, queries, minResponses) == applied
  {
    if minResponses <= |Offsets(queries)| {
      RefreshIsRobust(applied, queries, minResponses, theta - 4294967296.0);
    }
  }
}
