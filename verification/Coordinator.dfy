/** Capture, flush and drain on the node (custom_components/gridwitness/coordinator.py). */
module Coordinators {
  import opened Basics
  import opened DiskBuffers

  const DRAIN_CHUNK: nat := 2000

  /**
   * How one push ends for the client. `landed` says whether the server processed the rows all the same:
   * a reply can be lost on the way back. The client cannot see it. `Raised` is any exception that is not
   * a GridWitnessApiError (an undecodable body, a request timeout): nothing in the flush catches it.
   */
  datatype Reply = Ok(accepted: nat) | Retryable(landed: bool) | Refused | Raised(landed: bool)

  datatype Push<+T> = Push(rows: seq<T>, reply: Reply)

  /** The server as the client meets it: replies come from `script`, unreachable once it runs out. */
  class Api<T> {
    var script: seq<Reply>
    var log: seq<Push<T>>

    constructor (script: seq<Reply>)
      ensures this.script == script && log == []
    {
      this.script, log := script, [];
    }

    method PostSamples(rows: seq<T>) returns (reply: Reply)
      modifies this
      ensures reply == Next(old(script)) && script == old(script)[if old(script) == [] then 0 else 1..]
      ensures log == old(log) + [Push(rows, reply)]
    {
      reply := Next(script);
      script := if script == [] then [] else script[1..];
      log := log + [Push(rows, reply)];
    }
  }

  function Next(script: seq<Reply>): Reply {
    if script == [] then Retryable(false) else script[0]
  }

  // --- What a drain and a flush compute -----------------------------------------------------------

  datatype Outcome = Emptied | Unreachable | Crashed

  datatype Drained<T> = Drained(outcome: Outcome, lines: seq<Line<T>>, pushes: seq<Push<T>>, script: seq<Reply>) {
    function After(push: Push<T>): Drained<T> {
      this.(pushes := [push] + pushes)
    }
  }

  function Drain<T>(lines: seq<Line<T>>, script: seq<Reply>): Drained<T>
    decreases |lines|
  {
    var chunk := Take(Items(lines), DRAIN_CHUNK);
    if Jammed(lines, DRAIN_CHUNK) then Drained(Crashed, lines, [], script)
    else if chunk == [] then Drained(Emptied, lines, [], script)
    else
      var reply, rest := Next(script), script[if script == [] then 0 else 1..];
      match reply
      case Retryable(_) => Drained(Unreachable, lines, [Push(chunk, reply)], rest)
      case Raised(_) => Drained(Crashed, lines, [Push(chunk, reply)], rest)
      case _ => Drain(lines[|chunk|..], rest).After(Push(chunk, reply))
  }

  /** The clock readings, the limits and the disk a flush works with: `now` stamps spilled rows, `later` prunes. */
  datatype Env = Env(now: int, later: int, maxAge: nat, maxRows: nat, disk: Disk)

  /** Append, then prune. Where either raises, the lines that got out are in the file all the same. */
  ghost function Spill<T>(lines: seq<Line<T>>, items: seq<T>, env: Env): seq<Line<T>> {
    var all := lines + Out(items, env.now, env.disk);
    if env.disk.Works? then PrunedUnlessAlien(all, env.later - env.maxAge, env.maxRows) else all
  }

  ghost predicate SpillRaises<T>(lines: seq<Line<T>>, env: Env) {
    !env.disk.Works? || HasAlien(lines)
  }

  /** The rows that an append which fails does not get out. */
  function Unwritten<T>(items: seq<T>, env: Env): seq<T> {
    if env.disk.AppendFails? then items[|Take(items, env.disk.lines)|..] else []
  }

  datatype Client<T> = Client(pending: seq<T>, lines: seq<Line<T>>, online: bool)

  /** `lost` are the rows of the batch that were in memory only when an exception ended the flush. */
  datatype Flushed<T> = Flushed(client: Client<T>, pushes: seq<Push<T>>, script: seq<Reply>, lost: seq<T>)

  /** One flush; `during` are the rows captured while it awaits, which land in the fresh pending list. */
  ghost function Flush<T>(c: Client<T>, script: seq<Reply>, during: seq<T>, env: Env): Flushed<T> {
    var batch, d := c.pending, Drain(c.lines, script);
    var spilled := Client(during, Spill(d.lines, batch, env), c.online && SpillRaises(d.lines, env));
    match d.outcome
    case Crashed => Flushed(Client(during, d.lines, c.online), d.pushes, d.script, batch)
    case Unreachable =>
      if batch == [] then Flushed(Client(during, d.lines, false), d.pushes, d.script, [])
      else Flushed(spilled, d.pushes, d.script, Unwritten(batch, env))
    case Emptied =>
      if batch == [] then Flushed(Client(during, d.lines, c.online), d.pushes, d.script, [])
      else
        var reply, rest := Next(d.script), d.script[if d.script == [] then 0 else 1..];
        var pushes := d.pushes + [Push(batch, reply)];
        match reply
        case Ok(_) => Flushed(Client(during, d.lines, true), pushes, rest, [])
        case Retryable(_) => Flushed(spilled, pushes, rest, Unwritten(batch, env))
        case Refused => Flushed(Client(during, d.lines, c.online), pushes, rest, [])
        case Raised(_) => Flushed(Client(during, d.lines, c.online), pushes, rest, batch)
  }

  function Accepted<T>(pushes: seq<Push<T>>): nat {
    if pushes == [] then 0
    else Accepted(Butlast(pushes)) + match Last(pushes).reply case Ok(n) => n case _ => 0
  }

  lemma AcceptedGrows<T>(pushes: seq<Push<T>>, push: Push<T>)
    ensures Accepted(pushes + [push]) == Accepted(pushes) + match push.reply case Ok(n) => n case _ => 0
    ensures Accepted<T>([]) == 0
  {
    assert Butlast(pushes + [push]) == pushes;
  }

  /** One round of the drain loop. */
  lemma DrainUnfolds<T>(lines: seq<Line<T>>, script: seq<Reply>)
    ensures var chunk := Take(Items(lines), DRAIN_CHUNK);
            var reply, rest := Next(script), script[if script == [] then 0 else 1..];
            var d := Drain(lines, script);
            if Jammed(lines, DRAIN_CHUNK) then d == Drained(Crashed, lines, [], script)
            else if chunk == [] then d == Drained(Emptied, lines, [], script)
            else if reply.Retryable? then d == Drained(Unreachable, lines, [Push(chunk, reply)], rest)
            else if reply.Raised? then d == Drained(Crashed, lines, [Push(chunk, reply)], rest)
            else d == Drain(lines[|chunk|..], rest).After(Push(chunk, reply))
  {
  }

  class Coordinator<T> {
    const api: Api<T>
    const buffer: DiskBuffer<T>
    var pending: seq<T>
    var online: bool
    var samplesTotal: nat

    constructor (api: Api<T>, buffer: DiskBuffer<T>)
      ensures this.api == api && this.buffer == buffer
      ensures pending == [] && online && samplesTotal == 0
    {
      this.api, this.buffer := api, buffer;
      pending, online, samplesTotal := [], true, 0;
    }

    ghost function State(): Client<T>
      reads this, buffer
    {
      Client(pending, buffer.lines, online)
    }

    method PushItems(items: seq<T>) returns (reply: Reply)
      modifies this`samplesTotal, api
      ensures reply == Next(old(api.script)) && api.script == old(api.script)[if old(api.script) == [] then 0 else 1..]
      ensures api.log == old(api.log) + [Push(items, reply)]
      ensures samplesTotal == old(samplesTotal) + match reply case Ok(n) => n case _ => 0
    {
      reply := api.PostSamples(items);
      if reply.Ok? {
        samplesTotal := samplesTotal + reply.accepted;
      }
    }

    method AppendBuffer(items: seq<T>, env: Env) returns (raised: bool)
      requires env.maxAge == buffer.maxAge && env.maxRows == buffer.maxRows
      modifies buffer
      ensures buffer.lines == Spill(old(buffer.lines), items, env) && raised == SpillRaises(old(buffer.lines), env)
    {
      raised := buffer.Append(items, env.now, env.disk);
      assert HasAlien(buffer.lines) <==> HasAlien(old(buffer.lines));
      if !raised {
        var dropped;
        dropped, raised := buffer.Prune(env.later, env.disk.PruneFails?);
      }
    }

    method DrainDisk() returns (outcome: Outcome)
      modifies this`samplesTotal, api, buffer
      ensures var d := Drain(old(buffer.lines), old(api.script));
              && outcome == d.outcome && buffer.lines == d.lines && api.script == d.script
              && api.log == old(api.log) + d.pushes
              && samplesTotal == old(samplesTotal) + Accepted(d.pushes)
    {
      hide Drain, Accepted;
      ghost var all := Drain(buffer.lines, api.script);
      ghost var pushed: seq<Push<T>> := [];
      assert Accepted(pushed) == 0 by { AcceptedGrows(pushed, Push([], Refused)); }
      while true
        invariant var d := Drain(buffer.lines, api.script);
                  && d.outcome == all.outcome && d.lines == all.lines && d.script == all.script
                  && pushed + d.pushes == all.pushes
        invariant api.log == old(api.log) + pushed && samplesTotal == old(samplesTotal) + Accepted(pushed)
        decreases |buffer.lines|
      {
        DrainUnfolds(buffer.lines, api.script);
        var chunk, raised := buffer.Peek(DRAIN_CHUNK);
        if raised {
          assert pushed == all.pushes;
          return Crashed;
        }
        if chunk == [] {
          assert pushed == all.pushes;
          return Emptied;
        }
        var reply := PushItems(chunk);
        ghost var push := Push(chunk, reply);
        AcceptedGrows(pushed, push);
        ghost var d := Drain(buffer.lines[|chunk|..], api.script);
        assert pushed + d.After(push).pushes == pushed + [push] + d.pushes;
        pushed := pushed + [push];
        match reply {
          case Retryable(_) => return Unreachable;
          case Raised(_) => return Crashed;
          case _ => buffer.Commit(|chunk|);
        }
      }
    }

    method OnFlush(during: seq<T>, env: Env) returns (lost: seq<T>)
      requires env.maxAge == buffer.maxAge && env.maxRows == buffer.maxRows
      modifies this, api, buffer
      ensures var f := Flush(old(State()), old(api.script), during, env);
              && State() == f.client && api.script == f.script && lost == f.lost
              && api.log == old(api.log) + f.pushes
              && samplesTotal == old(samplesTotal) + Accepted(f.pushes)
    {
      hide Drain, Accepted;
      var batch := pending;
      pending := [] + during;  // captured at the awaits below; nothing else looks at pending
      var outcome := DrainDisk();
      match outcome {
        case Crashed => return batch;
        case Unreachable =>
          if batch != [] {
            var raised := AppendBuffer(batch, env);
            if raised {
              return Unwritten(batch, env);
            }
          }
          online := false;
        case Emptied =>
          if batch != [] {
            ghost var d := Drain(old(buffer.lines), old(api.script));
            var reply := PushItems(batch);
            AcceptedGrows(d.pushes, Push(batch, reply));
            match reply {
              case Ok(_) => online := true;
              case Retryable(_) =>
                var raised := AppendBuffer(batch, env);
                if raised {
                  return Unwritten(batch, env);
                }
                online := false;
              case Refused =>
              case Raised(_) => return batch;
            }
          }
      }
      return [];
    }

    method AsyncStop(env: Env)
      requires env.maxAge == buffer.maxAge && env.maxRows == buffer.maxRows
      modifies this, buffer
      ensures State() == Stop(old(State()), env) && samplesTotal == old(samplesTotal)
    {
      if pending != [] {
        var raised := AppendBuffer(pending, env);
        if !raised {
          pending := [];
        }
      }
    }
  }

  ghost function Stop<T>(c: Client<T>, env: Env): Client<T> {
    if c.pending == [] then c
    else c.(pending := if SpillRaises(c.lines, env) then c.pending else [], lines := Spill(c.lines, c.pending, env))
  }
}
