/** POST /v1/samples (server/gridwitness_server/routes_ingest.py, auth.py). */
module Ingest {
  import opened Basics
  import opened Registry
  import opened Privacy
  import R = RateLimit
  import S = Staging

  datatype Rejection = Rejection(index: nat, kind: S.Kind)

  datatype Response =
    | Unprocessable
    | NotFound
    | Unauthorized
    | TooManyRows
    | ServerError
    | Accepted(accepted: nat, duplicates: nat, rejected: seq<Rejection>)

  const PHASES: set<string> := {"L1", "L2", "L3", "1p"}
  const FREQ_MIN: real := 40.0
  const FREQ_MAX: real := 70.0

  /** What the row models of a request body ask: a known source and phase, and a plausible frequency if there is one. */
  predicate Acceptable(kind: S.Kind, s: Sample) {
    match kind
    case Electrical =>
      && s.source in {"device", "ha_receive", "gps"} && s.phase in PHASES
      && ("frequency_hz" in s.values ==> FREQ_MIN <= s.values["frequency_hz"] <= FREQ_MAX)
    case Weather => s.source in {"device", "ha_receive"}
  }

  predicate BodyValid(electrical: seq<Sample>, weather: seq<Sample>) {
    && (forall s :: s in electrical ==> Acceptable(S.Electrical, s))
    && (forall s :: s in weather ==> Acceptable(S.Weather, s))
  }

  /** A row is refused when it carries any channel the node did not consent to. */
  predicate Consented(s: Sample, channels: set<Channel>) {
    s.values.Keys <= channels
  }

  function Admitted(kind: S.Kind, samples: seq<Sample>, id: NodeId, node: Node): (r: seq<S.Row>)
    ensures |r| <= |samples|
  {
    if samples == [] then []
    else if Consented(Last(samples), node.channels)
    then Admitted(kind, Butlast(samples), id, node) + [Project(kind, Last(samples), id, node)]
    else Admitted(kind, Butlast(samples), id, node)
  }

  function Rejected(kind: S.Kind, samples: seq<Sample>, channels: set<Channel>): seq<Rejection> {
    if samples == [] then []
    else if Consented(Last(samples), channels) then Rejected(kind, Butlast(samples), channels)
    else Rejected(kind, Butlast(samples), channels) + [Rejection(|samples| - 1, kind)]
  }

  /** The rejections are exactly the rows with a channel outside the consent, and all others are admitted. */
  lemma {:induction false} RejectedExactlyTheUnconsented(kind: S.Kind, samples: seq<Sample>, id: NodeId, node: Node)
    ensures |Rejected(kind, samples, node.channels)| + |Admitted(kind, samples, id, node)| == |samples|
    ensures forall i: nat, k :: Rejection(i, k) in Rejected(kind, samples, node.channels) <==>
              k == kind && i < |samples| && !(samples[i].values.Keys <= node.channels)
  {
    hide Project;
    if samples != [] {
      RejectedExactlyTheUnconsented(kind, Butlast(samples), id, node);
      assert samples[|samples| - 1] == Last(samples);
      assert forall i :: 0 <= i < |samples| - 1 ==> Butlast(samples)[i] == samples[i];
    }
  }

  /** An admitted row says what a consented sample says, under its node, and nothing else. */
  ghost predicate Faithful(r: S.Row, kind: S.Kind, samples: seq<Sample>, id: NodeId, node: Node) {
    && TaggedAs(r, node) && r.values.Keys <= node.channels
    && exists s :: s in samples && s.values.Keys <= node.channels && Says(r, kind, s, id)
  }

  /** And some admitted row says it of each consented sample. */
  ghost predicate Complete(rows: seq<S.Row>, kind: S.Kind, samples: seq<Sample>, id: NodeId, node: Node) {
    forall s :: s in samples && s.values.Keys <= node.channels ==> exists r :: r in rows && Says(r, kind, s, id)
  }

  lemma {:induction false} AdmittedSayTheConsented(kind: S.Kind, samples: seq<Sample>, id: NodeId, node: Node)
    ensures forall r :: r in Admitted(kind, samples, id, node) ==> Faithful(r, kind, samples, id, node)
    ensures Complete(Admitted(kind, samples, id, node), kind, samples, id, node)
  {
    hide Says, TaggedAs, Project, Faithful, Complete, Admitted;
    if samples == [] {
      NothingAdmitted(kind, id, node);
    } else {
      var front, last := Butlast(samples), Last(samples);
      assert samples == front + [last];
      AdmittedSayTheConsented(kind, front, id, node);
      AdmittedOneMore(kind, front, last, id, node);
      ProjectSays(kind, last, id, node);
      ProjectIsFaithful(kind, front, last, id, node);
      FaithfulGrows(Admitted(kind, front, id, node), kind, front, last, id, node);
      CompleteGrows(Admitted(kind, front, id, node), Project(kind, last, id, node), kind, front, last, id, node);
    }
  }

  lemma NothingAdmitted(kind: S.Kind, id: NodeId, node: Node)
    ensures Admitted(kind, [], id, node) == [] && Complete([], kind, [], id, node)
  {
  }

  lemma ProjectIsFaithful(kind: S.Kind, front: seq<Sample>, s: Sample, id: NodeId, node: Node)
    ensures s.values.Keys <= node.channels ==> Faithful(Project(kind, s, id, node), kind, front + [s], id, node)
  {
    ProjectSays(kind, s, id, node);
    ProjectKeepsConsent(kind, s, id, node);
    hide Says, TaggedAs, Project;
    assert s in front + [s];
  }

  lemma FaithfulGrows(rows: seq<S.Row>, kind: S.Kind, front: seq<Sample>, s: Sample, id: NodeId, node: Node)
    requires forall r :: r in rows ==> Faithful(r, kind, front, id, node)
    ensures forall r :: r in rows ==> Faithful(r, kind, front + [s], id, node)
  {
    hide Says, TaggedAs;
    forall r | r in rows ensures Faithful(r, kind, front + [s], id, node) {
      assert Faithful(r, kind, front, id, node);
      var q :| q in front && q.values.Keys <= node.channels && Says(r, kind, q, id);
      assert q in front + [s];
    }
  }

  lemma AdmittedOneMore(kind: S.Kind, front: seq<Sample>, s: Sample, id: NodeId, node: Node)
    ensures Admitted(kind, front + [s], id, node)
            == if s.values.Keys <= node.channels then Admitted(kind, front, id, node) + [Project(kind, s, id, node)]
               else Admitted(kind, front, id, node)
  {
    hide Project;
    assert Butlast(front + [s]) == front;
  }

  lemma CompleteGrows(rows: seq<S.Row>, row: S.Row, kind: S.Kind, front: seq<Sample>, s: Sample, id: NodeId, node: Node)
    requires Complete(rows, kind, front, id, node) && Says(row, kind, s, id)
    ensures Complete(if s.values.Keys <= node.channels then rows + [row] else rows, kind, front + [s], id, node)
  {
    hide Says;
    var more := if s.values.Keys <= node.channels then rows + [row] else rows;
    forall q | q in front + [s] && q.values.Keys <= node.channels
      ensures exists r :: r in more && Says(r, kind, q, id)
    {
      if q in front {
        var r :| r in rows && Says(r, kind, q, id);
        assert r in more;
      } else {
        assert row in more;
      }
    }
  }

  lemma ProjectKeepsConsent(kind: S.Kind, s: Sample, id: NodeId, node: Node)
    ensures Project(kind, s, id, node).values.Keys <= s.values.Keys
  {
  }

  /** Which of the samples carry no channel outside the consent. */
  function Consenting(samples: seq<Sample>, channels: set<Channel>): set<nat> {
    set i: nat | i < |samples| && samples[i].values.Keys <= channels
  }

  lemma {:induction false} AdmittedCount(kind: S.Kind, samples: seq<Sample>, id: NodeId, node: Node)
    ensures |Admitted(kind, samples, id, node)| == |Consenting(samples, node.channels)|
  {
    hide Project;
    if samples != [] {
      var front, n := Butlast(samples), |samples| - 1;
      AdmittedCount(kind, front, id, node);
      var fewer := Consenting(front, node.channels);
      assert n !in fewer && forall i :: 0 <= i < n ==> front[i] == samples[i];
      assert Consenting(samples, node.channels)
             == if samples[n].values.Keys <= node.channels then fewer + {n} else fewer;
    }
  }

  /** Nothing staged for a node carries a channel outside the consent it was admitted under. */
  lemma AdmittedIsConsented(kind: S.Kind, samples: seq<Sample>, id: NodeId, node: Node)
    ensures forall r :: r in Admitted(kind, samples, id, node) ==> r.node == id && r.values.Keys <= node.channels
  {
    AdmittedSayTheConsented(kind, samples, id, node);
    hide TaggedAs, Admitted;
    forall r | r in Admitted(kind, samples, id, node) ensures r.node == id && r.values.Keys <= node.channels {
      assert Faithful(r, kind, samples, id, node);
    }
  }

  // --- The handler --------------------------------------------------------------------------------

  /** authenticate_node: the presented token's hash must be the one stored for that live node. */
  function Authenticate(db: Db, id: NodeId, presented: string): (Option<Node>, Response) {
    if GetNode(db, id).None? then (None, NotFound)
    else if GetTokenHash(db, id) != Some(presented) then (None, Unauthorized)
    else (GetNode(db, id), Accepted(0, 0, []))
  }

  /** Electrical rows first, then weather rows; an exception in the first write skips the second. */
  function StageBoth(staged: S.Staged, size: nat, electrical: seq<S.Row>, weather: seq<S.Row>,
                     rejected: seq<Rejection>): (S.Staged, Response) {
    var (afterE, e) := S.Stage(staged, size, electrical);
    if e.Raised? then (afterE, ServerError)
    else
      var (afterW, w) := S.Stage(afterE, size, weather);
      if w.Raised? then (afterW, ServerError)
      else (afterW, Accepted(e.accepted + w.accepted, e.dups + w.dups, rejected))
  }

  /**
   * What a request does to staging. It is answered if and only if all rows that the window lets through
   * parse; then every key it brought is remembered, and the rows let through, first the electrical and
   * then the weather ones, are in the files. If an electrical row does not parse, nothing is written and
   * no weather row is remembered; if a weather row does not, the electrical rows are written all the same.
   */
  lemma AnAnsweredRequestIsStaged(staged: S.Staged, size: nat, electrical: seq<S.Row>, weather: seq<S.Row>,
                                  rejected: seq<Rejection>)
    ensures var (after, response) := StageBoth(staged, size, electrical, weather, rejected);
            var e := S.Unique(staged.history, size, electrical);
            var w := S.Unique(staged.history + S.Keys(e), size, weather);
            if S.Stampable(e) && S.Stampable(w) then
              && response == Accepted(|e| + |w|, |electrical| + |weather| - |e| - |w|, rejected)
              && after.history == staged.history + S.Keys(e) + S.Keys(w)
              && S.Stampable(e + w) && after.files == S.AppendRows(staged.files, e + w)
              && (forall r :: r in electrical || r in weather ==> S.KeyOf(r) in after.history)
            else
              response == ServerError
              && after == if S.Stampable(e)
                          then S.Staged(staged.history + S.Keys(e) + S.Keys(w), S.AppendRows(staged.files, e))
                          else S.Staged(staged.history + S.Keys(e), staged.files)
  {
    var e := S.Unique(staged.history, size, electrical);
    var history := staged.history + S.Keys(e);
    var w := S.Unique(history, size, weather);
    S.EveryKeyIsAccepted(staged.history, size, electrical);
    S.EveryKeyIsAccepted(history, size, weather);
    if S.Stampable(e) && S.Stampable(w) {
      S.AppendRowsJoin(staged.files, e, w);
    }
    hide S.Unique, S.Keys, S.KeyOf, S.AppendRows, S.Stampable;
  }

  class App {
    const db: Database
    const limiter: R.RateLimiter
    const staging: S.StagingWriter

    constructor (db: Database, limiter: R.RateLimiter, staging: S.StagingWriter)
      ensures this.db == db && this.limiter == limiter && this.staging == staging
    {
      this.db, this.limiter, this.staging := db, limiter, staging;
    }

    /** Splits a list into what is refused and what is projected for staging. */
    method Enforce(kind: S.Kind, samples: seq<Sample>, id: NodeId, node: Node)
      returns (rejected: seq<Rejection>, ok: seq<S.Row>)
      ensures rejected == Rejected(kind, samples, node.channels)
      ensures ok == Admitted(kind, samples, id, node)
      ensures |rejected| + |ok| == |samples|
    {
      rejected, ok := [], [];
      for i := 0 to |samples|
        invariant rejected == Rejected(kind, samples[..i], node.channels)
        invariant ok == Admitted(kind, samples[..i], id, node)
        invariant |rejected| + |ok| == i
      {
        assert Butlast(samples[..i + 1]) == samples[..i];
        if samples[i].values.Keys <= node.channels {
          ok := ok + [Project(kind, samples[i], id, node)];
        } else {
          rejected := rejected + [Rejection(i, kind)];
        }
      }
      assert samples[..|samples|] == samples;
    }

    /** A request body as it comes in: one row that the models refuse, and none of the body is handled. */
    method Receive(id: NodeId, presented: string, electrical: seq<Sample>, weather: seq<Sample>, now: real)
      returns (response: Response)
      requires staging.Valid()
      modifies limiter, staging, staging.dedupe
      ensures staging.Valid()
      ensures response.Unprocessable? <==>
                || (exists s :: s in electrical
                      && (s.source !in {"device", "ha_receive", "gps"} || s.phase !in {"L1", "L2", "L3", "1p"}
                          || ("frequency_hz" in s.values && !(40.0 <= s.values["frequency_hz"] <= 70.0))))
                || (exists s :: s in weather && s.source !in {"device", "ha_receive"})
      ensures response.Unprocessable? ==>
                limiter.buckets == old(limiter.buckets) && staging.State() == old(staging.State())
      ensures response.Accepted? ==>
                response.accepted + response.duplicates + |response.rejected| == |electrical| + |weather|
    {
      if !BodyValid(electrical, weather) {
        return Unprocessable;
      }
      response := PostSamples(id, presented, electrical, weather, now);
    }

    method PostSamples(id: NodeId, presented: string, electrical: seq<Sample>, weather: seq<Sample>, now: real)
      returns (response: Response)
      requires staging.Valid()
      modifies limiter, staging, staging.dedupe
      ensures staging.Valid()
      ensures var (node, denial) := Authenticate(db.State(), id, presented);
              var total := |electrical| + |weather|;
              var call := R.Call(id, if total == 0 then 1 else total, now);
              if node.None? then
                response == denial && limiter.buckets == old(limiter.buckets) && staging.State() == old(staging.State())
              else if !R.Grants(limiter.config, old(limiter.buckets), call) then
                response == TooManyRows && staging.State() == old(staging.State())
                && limiter.buckets == R.Charge(limiter.config, old(limiter.buckets), call)
              else
                limiter.buckets == R.Charge(limiter.config, old(limiter.buckets), call)
                && (staging.State(), response)
                   == StageBoth(old(staging.State()), staging.dedupe.maxsize,
                                Admitted(S.Electrical, electrical, id, node.value),
                                Admitted(S.Weather, weather, id, node.value),
                                Rejected(S.Electrical, electrical, node.value.channels)
                                  + Rejected(S.Weather, weather, node.value.channels))
      ensures response.Accepted? ==>
                response.accepted + response.duplicates + |response.rejected| == |electrical| + |weather|
      ensures !response.Unprocessable?
      ensures response.NotFound? <==> !(id in db.nodes && !db.nodes[id].deleted)
      ensures response.Unauthorized? <==>
                id in db.nodes && !db.nodes[id].deleted && !(id in db.tokens && db.tokens[id] == presented)
    {
      hide Admitted, Rejected, R.Charge, S.Stage;
      if id !in db.nodes || db.nodes[id].deleted {
        return NotFound;
      }
      if id !in db.tokens || db.tokens[id] != presented {
        return Unauthorized;
      }
      var node := db.nodes[id];
      var total := |electrical| + |weather|;
      var allowed := limiter.Allow(id, if total == 0 then 1 else total, now);
      if !allowed {
        return TooManyRows;
      }
      var rejectedE, okE := Enforce(S.Electrical, electrical, id, node);
      var rejectedW, okW := Enforce(S.Weather, weather, id, node);
      var e := staging.Write(okE);
      if e.Raised? {
        return ServerError;
      }
      var w := staging.Write(okW);
      if w.Raised? {
        return ServerError;
      }
      S.StageCounts(old(staging.State()), staging.dedupe.maxsize, okE);
      S.StageCounts(S.Stage(old(staging.State()), staging.dedupe.maxsize, okE).0, staging.dedupe.maxsize, okW);
      response := Accepted(e.accepted + w.accepted, e.dups + w.dups, rejectedE + rejectedW);
    }
  }
}
