/** Per-node token bucket (server/gridwitness_server/ratelimit.py). */
module RateLimit {
  import opened Basics

  /** What is stored for a node: the tokens left at the last call, and when that call was. */
  datatype Bucket = Bucket(tokens: real, last: real)

  datatype Config = Config(capacity: real, rate: real) {
    predicate Valid() { 0.0 <= capacity && 0.0 <= rate }
  }

  type Buckets = map<NodeId, Bucket>

  datatype Call = Call(node: NodeId, rows: nat, now: real)

  /** Tokens that flow back in `elapsed` seconds. */
  function Refill(c: Config, elapsed: real): real {
    elapsed * c.rate
  }

  /** Tokens available to `node` at time `now`: a lazy refill, capped; a full bucket if never seen. */
  function Level(c: Config, b: Buckets, node: NodeId, now: real): real {
    var Bucket(tokens, last) := if node in b then b[node] else Bucket(c.capacity, now);
    AtMost(c.capacity, tokens + Refill(c, now - last))
  }

  function AtMost(cap: real, x: real): real {
    if x < cap then x else cap
  }

  predicate Grants(c: Config, b: Buckets, call: Call) {
    call.rows as real <= Level(c, b, call.node, call.now)
  }

  function Charge(c: Config, b: Buckets, call: Call): Buckets {
    var level := Level(c, b, call.node, call.now);
    b[call.node := Bucket(if Grants(c, b, call) then level - call.rows as real else level, call.now)]
  }

  /** Rows that `call` takes out of the bucket of `node`. */
  function Spent(c: Config, b: Buckets, call: Call, node: NodeId): nat {
    if call.node == node && Grants(c, b, call) then call.rows else 0
  }

  class RateLimiter {
    const config: Config
    var buckets: Buckets

    constructor (rowsPerMin: nat)
      ensures config == Config(rowsPerMin as real, rowsPerMin as real / 60.0) && config.Valid()
      ensures buckets == map[]
    {
      config := Config(rowsPerMin as real, rowsPerMin as real / 60.0);
      buckets := map[];
    }

    method Allow(node: NodeId, rows: nat, now: real) returns (ok: bool)
      modifies this
      ensures ok == Grants(config, old(buckets), Call(node, rows, now))
      ensures buckets == Charge(config, old(buckets), Call(node, rows, now))
    {
      hide Refill;
      var Bucket(tokens, last) := if node in buckets then buckets[node] else Bucket(config.capacity, now);
      tokens := tokens + Refill(config, now - last);
      if config.capacity < tokens {
        tokens := config.capacity;
      }
      assert tokens == Level(config, buckets, node, now);
      if tokens < rows as real {
        buckets := buckets[node := Bucket(tokens, now)];
        return false;
      }
      buckets := buckets[node := Bucket(tokens - rows as real, now)];
      return true;
    }
  }

  // --- Whole histories of calls -------------------------------------------------------------------

  function After(c: Config, calls: seq<Call>): Buckets {
    if calls == [] then map[] else Charge(c, After(c, Butlast(calls)), Last(calls))
  }

  /** The limiter's clock is monotonic, and `now` is not before any call made so far. */
  ghost predicate Chronological(calls: seq<Call>, now: real) {
    && (forall i, j :: 0 <= i < j < |calls| ==> calls[i].now <= calls[j].now)
    && (forall i :: 0 <= i < |calls| ==> calls[i].now <= now)
  }

  /** Rows granted to `node` by the calls numbered `lo` up to, but not including, `hi`. */
  function Admitted(c: Config, calls: seq<Call>, node: NodeId, lo: nat, hi: nat): nat
    requires lo <= hi <= |calls|
    decreases hi
  {
    if lo == hi then 0
    else
      var i := hi - 1;
      Admitted(c, calls, node, lo, i) + Spent(c, After(c, calls[..i]), calls[i], node)
  }

  lemma RefillAdds(c: Config, a: real, b: real)
    requires c.Valid() && 0.0 <= b
    ensures Refill(c, a + b) == Refill(c, a) + Refill(c, b)
    ensures 0.0 <= Refill(c, b)
  {
  }

  /** Refilling lazily in one step or in two is the same: the cap absorbs the difference. */
  lemma LevelLater(c: Config, b: Buckets, node: NodeId, now: real, later: real)
    requires c.Valid() && now <= later
    ensures Level(c, b, node, later) == AtMost(c.capacity, Level(c, b, node, now) + Refill(c, later - now))
  {
    hide Refill;
    var last := if node in b then b[node].last else now;
    RefillAdds(c, now - last, later - now);
    assert now - last + (later - now) == later - last;
    RefillAdds(c, 0.0, 0.0);
  }

  /** What one call does to the level seen at any later time. */
  lemma LevelAfterCharge(c: Config, b: Buckets, call: Call, node: NodeId, t: real)
    requires c.Valid() && call.now <= t
    ensures Level(c, Charge(c, b, call), node, t)
            == AtMost(c.capacity, Level(c, b, node, call.now) - Spent(c, b, call, node) as real
                      + Refill(c, t - call.now))
  {
    hide Refill;
    LevelLater(c, b, node, call.now, t);
  }

  /** Tokens never go negative and never exceed the capacity, in any history. */
  lemma {:induction false} TokensStayInRange(c: Config, calls: seq<Call>, node: NodeId, now: real)
    requires c.Valid() && Chronological(calls, now)
    ensures 0.0 <= Level(c, After(c, calls), node, now) <= c.capacity
    ensures node in After(c, calls) ==> 0.0 <= After(c, calls)[node].tokens <= c.capacity
    decreases |calls|
  {
    hide Refill;
    RefillAdds(c, 0.0, 0.0);
    if calls != [] {
      var earlier, call := Butlast(calls), Last(calls);
      TokensStayInRange(c, earlier, node, call.now);
      LevelAfterCharge(c, After(c, earlier), call, node, now);
      RefillAdds(c, 0.0, now - call.now);
    }
  }

  /** Spending since call `lo`, plus what is left, is covered by one full bucket and the refill since. */
  lemma {:induction false} Potential(c: Config, calls: seq<Call>, node: NodeId, lo: nat, hi: nat, since: real, t: real)
    requires c.Valid() && lo <= hi <= |calls| && Chronological(calls[..hi], t)
    requires since <= t && (lo < hi ==> since <= calls[lo].now)
    ensures Admitted(c, calls, node, lo, hi) as real + Level(c, After(c, calls[..hi]), node, t)
            <= c.capacity + Refill(c, t - since)
    decreases hi
  {
    hide Refill, Level, Charge;
    RefillAdds(c, 0.0, t - since);
    if lo == hi {
      TokensStayInRange(c, calls[..hi], node, t);
    } else {
      var call := calls[hi - 1];
      assert Butlast(calls[..hi]) == calls[..hi - 1];
      assert calls[..hi][lo] == calls[lo] && calls[..hi][hi - 1] == call;
      Potential(c, calls, node, lo, hi - 1, since, call.now);
      LevelAfterCharge(c, After(c, calls[..hi - 1]), call, node, t);
      RefillAdds(c, call.now - since, t - call.now);
      assert call.now - since + (t - call.now) == t - since;
    }
  }

  /**
   * The limiter's promise: in any time window, and for any interleaving with other nodes, a node gets
   * no more than one full bucket plus the refill over that window.
   */
  lemma WindowBound(c: Config, calls: seq<Call>, node: NodeId, lo: nat, hi: nat, from: real, to: real)
    requires c.Valid() && lo <= hi <= |calls| && Chronological(calls, to) && from <= to
    requires lo < hi ==> from <= calls[lo].now
    ensures Admitted(c, calls, node, lo, hi) as real <= c.capacity + (to - from) * c.rate
  {
    assert Refill(c, to - from) == (to - from) * c.rate;
    hide Refill, Level;
    Potential(c, calls, node, lo, hi, from, to);
    TokensStayInRange(c, calls[..hi], node, to);
  }

  // --- Refused calls leave no trace ---------------------------------------------------------------

  /** The history with every refused call deleted. */
  function GrantedOnly(c: Config, calls: seq<Call>): seq<Call> {
    if calls == [] then []
    else
      GrantedOnly(c, Butlast(calls)) +
      if Grants(c, After(c, Butlast(calls)), Last(calls)) then [Last(calls)] else []
  }

  lemma {:induction false} RefusalsAreInvisible(c: Config, calls: seq<Call>, node: NodeId, now: real)
    requires c.Valid() && Chronological(calls, now)
    ensures Level(c, After(c, GrantedOnly(c, calls)), node, now) == Level(c, After(c, calls), node, now)
    decreases |calls|
  {
    hide Refill, Level, Charge;
    if calls != [] {
      var earlier, call := Butlast(calls), Last(calls);
      var b, kept := After(c, earlier), GrantedOnly(c, earlier);
      RefusalsAreInvisible(c, earlier, node, call.now);
      RefusalsAreInvisible(c, earlier, call.node, call.now);
      LevelAfterCharge(c, b, call, node, now);
      if Grants(c, b, call) {
        assert Butlast(kept + [call]) == kept;
        LevelAfterCharge(c, After(c, kept), call, node, now);
      } else {
        assert kept + [] == kept;
        LevelLater(c, After(c, kept), node, call.now, now);
      }
    }
  }

  /** No decision, now or later, depends on the refused calls, nor on the calls of other nodes. */
  lemma DecisionsIgnoreRefusals(c: Config, calls: seq<Call>, next: Call)
    requires c.Valid() && Chronological(calls, next.now)
    ensures Grants(c, After(c, GrantedOnly(c, calls)), next) == Grants(c, After(c, calls), next)
  {
    RefusalsAreInvisible(c, calls, next.node, next.now);
  }

  function OnlyFrom(calls: seq<Call>, node: NodeId): seq<Call> {
    if calls == [] then []
    else OnlyFrom(Butlast(calls), node) + if Last(calls).node == node then [Last(calls)] else []
  }

  lemma {:induction false} NodesAreIndependent(c: Config, calls: seq<Call>, node: NodeId, now: real)
    requires c.Valid() && Chronological(calls, now)
    ensures Level(c, After(c, OnlyFrom(calls, node)), node, now) == Level(c, After(c, calls), node, now)
    decreases |calls|
  {
    hide Refill, Level, Charge;
    if calls != [] {
      var call, mine := Last(calls), OnlyFrom(Butlast(calls), node);
      NodesAreIndependent(c, Butlast(calls), node, call.now);
      LevelAfterCharge(c, After(c, Butlast(calls)), call, node, now);
      if call.node == node {
        assert Butlast(mine + [call]) == mine;
        LevelAfterCharge(c, After(c, mine), call, node, now);
      } else {
        assert mine + [] == mine;
        LevelLater(c, After(c, mine), node, call.now, now);
      }
    }
  }

  /**
   * When a refused call succeeds: with no call of that node in between, a retry at `later` is granted
   * exactly when the batch fits the bucket at all and the refill has covered the shortfall.
   */
  lemma RetrySucceedsExactlyWhenRefilled(c: Config, calls: seq<Call>, denied: Call, others: seq<Call>, later: real)
    requires c.Valid() && Chronological(calls, denied.now) && denied.now <= later
    requires forall i :: 0 <= i < |others| ==> others[i].node != denied.node
    requires !Grants(c, After(c, calls), denied)
    ensures var shortfall := denied.rows as real - Level(c, After(c, calls), denied.node, denied.now);
            Grants(c, After(c, calls + [denied] + others), denied.(now := later)) <==>
            denied.rows as real <= c.capacity && shortfall <= Refill(c, later - denied.now)
  {
    var all := calls + [denied];
    assert Butlast(all) == calls;
    assert After(c, all) == Charge(c, After(c, calls), denied);
    hide Refill, Level, Charge, After;
    OthersChangeNothing(c, all, others, denied.node, later);
    LevelAfterCharge(c, After(c, calls), denied, denied.node, later);
  }

  lemma {:induction false} OthersChangeNothing(c: Config, calls: seq<Call>, others: seq<Call>, node: NodeId, t: real)
    requires forall i :: 0 <= i < |others| ==> others[i].node != node
    ensures Level(c, After(c, calls + others), node, t) == Level(c, After(c, calls), node, t)
    decreases |others|
  {
    if others == [] {
      assert calls + others == calls;
    } else {
      assert Butlast(calls + others) == calls + Butlast(others);
      OthersChangeNothing(c, calls, Butlast(others), node, t);
    }
  }

  /**
   * The limiter and the client's drain together: a chunk of `chunk` rows that was refused gets through
   * within a minute if it fits the bucket, and never, however long the client waits, if it does not.
   */
  lemma DrainIsLiveExactlyWhenAChunkFits(c: Config, rowsPerMin: nat, calls: seq<Call>, denied: Call, later: real)
    requires 0 < rowsPerMin && c == Config(rowsPerMin as real, rowsPerMin as real / 60.0)
    requires Chronological(calls, denied.now) && denied.now <= later
    requires !Grants(c, After(c, calls), denied)
    ensures var retried := Grants(c, After(c, calls + [denied]), denied.(now := later));
            && (denied.rows <= rowsPerMin && denied.now + 60.0 <= later ==> retried)
            && (rowsPerMin < denied.rows ==> !retried)
  {
    assert Refill(c, 60.0) == c.capacity;
    hide Refill, Level, Charge, After;
    assert calls + [denied] + [] == calls + [denied];
    RetrySucceedsExactlyWhenRefilled(c, calls, denied, [], later);
    TokensStayInRange(c, calls, denied.node, denied.now);
    if denied.now + 60.0 <= later {
      RefillAdds(c, 60.0, later - denied.now - 60.0);
      assert 60.0 + (later - denied.now - 60.0) == later - denied.now;
    }
  }
}
