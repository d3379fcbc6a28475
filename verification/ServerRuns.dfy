/**
 * Whole runs of the server: registration, sample posts, consent changes, erasure and the survey worker,
 * in any interleaving. A request authenticates in one step and takes effect in later ones, so anything
 * may happen in between (routes_register.py, routes_ingest.py, routes_admin.py, routes_survey.py and
 * survey_ingest.py, over db.py and privacy.py).
 */
module ServerRuns {
  import opened Basics
  import opened Registry
  import opened Privacy
  import opened Ingest
  import S = Staging

  /** The device fields of a registration. */
  datatype Profile = Profile(created: int, deviceType: string, firmware: Option<string>, cadenceMs: Option<int>,
                             producer: Option<string>)

  datatype Place = Place(tier: Tier, postcode: Option<string>, region: Option<string>)

  /**
   * A request under way. A post passed authentication when `since` operations had been performed, and has
   * not taken effect. An upload has its node, makes the inbox, and stores its files one by one, the
   * manifest last. A purge, after an admin delete, removes the files it finds, then the directories if
   * they are empty.
   */
  datatype Request =
    | Samples(id: NodeId, node: Node, electrical: seq<Sample>, weather: seq<Sample>, since: nat)
    | Change(id: NodeId, channels: Option<set<Channel>>, placement: Option<Placement>)
    | Filling(id: NodeId, files: seq<string>, made: bool)
    | Purging(id: NodeId, emptied: bool)
    | Finished

  datatype Op =
    | Register(id: NodeId, token: string, account: Option<string>, place: Place, consent: set<Channel>,
               profile: Profile)
    | Upload(id: NodeId, token: string, account: Option<string>, place: Place, profile: Profile, files: seq<string>)
    | Post(id: NodeId, presented: string, electrical: seq<Sample>, weather: seq<Sample>)
    | Patch(id: NodeId, presented: string, channels: Option<set<Channel>>, to: Option<Place>)
    | AdminPatch(id: NodeId, owner: string, channels: Option<set<Channel>>, to: Option<Place>)
    | Proceed(request: nat)
    | Erase(id: NodeId, presented: string)
    | AdminErase(id: NodeId, owner: string)
    | Survey(id: NodeId, rows: seq<Sample>, handled: set<string>)

  /** A row handed to staging, and when the request or worker that brought it read the node. */
  datatype Entry = Entry(row: S.Row, since: nat)

  datatype Server = Server(db: Db, requests: seq<Request>, staged: seq<Entry>,
                           inbox: map<NodeId, set<string>>, archive: map<NodeId, set<string>>, clock: nat)

  const Boot := Server(EmptyDb, [], [], map[], map[], 0)

  const MANIFEST := "manifest.json"

  const SURVEY_CHANNELS: set<Channel> := {"frequency_hz", "voltage_v"}

  function Entries(rows: seq<S.Row>, since: nat): (r: seq<Entry>)
    ensures |r| == |rows|
  {
    seq(|rows|, i requires 0 <= i < |rows| => Entry(rows[i], since))
  }

  /** The tables after a registration; None for the 400 answers and for a node id already taken. */
  function Registered(atlas: Atlas, db: Db, id: NodeId, token: string, account: Option<string>, place: Place,
                      channels: set<Channel>, p: Profile): Option<Db>
  {
    var Place(tier, postcode, region) := place;
    if PlaceMissing(tier, postcode, region) then None
    else
      var loc := Resolve(atlas, tier, postcode, region);
      Create(db, id, token,
             Node(p.created, p.deviceType, p.firmware, p.cadenceMs, tier, loc.locRef, loc.cellId, channels,
                  p.producer, false),
             Private(loc.storedPostcode, loc.rawRegion, account))
  }

  /** The change a PATCH asks for; None for the 400 answers. */
  function Asked(atlas: Atlas, id: NodeId, channels: Option<set<Channel>>, to: Option<Place>): Option<Request> {
    match to
    case None => Some(Change(id, channels, None))
    case Some(Place(tier, postcode, region)) =>
      if PlaceMissing(tier, postcode, region) then None
      else
        var loc := Resolve(atlas, tier, postcode, region);
        Some(Change(id, channels, Some(Placement(tier, loc.locRef, loc.cellId, loc.storedPostcode))))
  }

  /** _owned_node */
  predicate Owns(db: Db, owner: string, id: NodeId) {
    Live(db, id) && GetContributorRef(db, id) == Some(owner)
  }

  function Enqueue(s: Server, r: Option<Request>): Server {
    match r
    case None => s
    case Some(request) => s.(requests := s.requests + [request])
  }

  /** The next step of a request, which for most is the last. */
  function TakeEffect(s: Server, i: nat): Server {
    if |s.requests| <= i then s
    else
      var done := s.(requests := s.requests[i := Finished]);
      match s.requests[i]
      case Samples(id, node, electrical, weather, since) =>
        done.(staged := s.staged + Entries(Admitted(S.Electrical, electrical, id, node)
                                           + Admitted(S.Weather, weather, id, node), since))
      case Change(id, channels, placement) => done.(db := UpdateConsent(s.db, id, channels, placement))
      case Filling(id, files, made) => FillInbox(s, i, id, files, made)
      case Purging(id, emptied) => Purge(s, i, id, emptied)
      case Finished => s
  }

  /** Making the inbox; storing a file, which raises when the directory is gone; at the end the manifest. */
  function FillInbox(s: Server, i: nat, id: NodeId, files: seq<string>, made: bool): Server
    requires i < |s.requests|
  {
    if !made then
      s.(inbox := s.inbox[id := if id in s.inbox then s.inbox[id] else {}],
         requests := s.requests[i := Filling(id, files, true)])
    else if id !in s.inbox then s.(requests := s.requests[i := Finished])
    else if files == [] then
      s.(inbox := s.inbox[id := s.inbox[id] + {MANIFEST}], requests := s.requests[i := Finished])
    else
      s.(inbox := s.inbox[id := s.inbox[id] + {files[0]}], requests := s.requests[i := Filling(id, files[1..], true)])
  }

  /** rmtree(ignore_errors=True): a directory that got a file meanwhile is not empty, and stays. */
  function Purge(s: Server, i: nat, id: NodeId, emptied: bool): Server
    requires i < |s.requests|
  {
    if !emptied then
      s.(inbox := if id in s.inbox then s.inbox[id := {}] else s.inbox, requests := s.requests[i := Purging(id, true)])
    else
      s.(inbox := if id in s.inbox && s.inbox[id] == {} then s.inbox - {id} else s.inbox,
         archive := s.archive - {id}, requests := s.requests[i := Finished])
  }

  /** process_survey for one queued survey, finished or not; `handled` are the files it could read. */
  function WorkSurvey(s: Server, id: NodeId, rows: seq<Sample>, handled: set<string>): Server {
    if id !in s.inbox then s
    else
      match GetNode(s.db, id)
      case None => s.(inbox := s.inbox - {id}, archive := s.archive - {id})
      case Some(node) =>
        var files, kept := s.inbox[id] - {MANIFEST}, if id in s.archive then s.archive[id] else {};
        s.(staged := s.staged + Entries(Admitted(S.Electrical, rows, id, node), s.clock),
           inbox := if files <= handled then s.inbox - {id} else s.inbox[id := files - handled + {MANIFEST}],
           archive := s.archive[id := kept + (files * handled)])
  }

  function Effect(atlas: Atlas, s: Server, op: Op): Server {
    match op
    case Register(id, token, account, place, channels, profile) =>
      (match Registered(atlas, s.db, id, token, account, place, channels, profile)
       case None => s
       case Some(db) => s.(db := db))
    case Upload(id, token, account, place, profile, files) =>
      if place.tier.Anon? || files == [] then s
      else
        (match Registered(atlas, s.db, id, token, account, place, SURVEY_CHANNELS, profile)
         case None => s
         case Some(db) => Enqueue(s.(db := db), Some(Filling(id, files, false))))
    case Post(id, presented, electrical, weather) =>
      (match Authenticate(s.db, id, presented).0
       case None => s
       case Some(node) => Enqueue(s, Some(Samples(id, node, electrical, weather, s.clock))))
    case Patch(id, presented, channels, to) =>
      if Authenticate(s.db, id, presented).0.None? then s else Enqueue(s, Asked(atlas, id, channels, to))
    case AdminPatch(id, owner, channels, to) =>
      if !Owns(s.db, owner, id) then s else Enqueue(s, Asked(atlas, id, channels, to))
    case Proceed(i) => TakeEffect(s, i)
    case Erase(id, presented) =>
      if Authenticate(s.db, id, presented).0.None? then s else s.(db := Delete(s.db, id).0)
    case AdminErase(id, owner) =>
      if !Owns(s.db, owner, id) then s
      else Enqueue(s.(db := Delete(s.db, id).0), Some(Purging(id, false)))
    case Survey(id, rows, handled) => WorkSurvey(s, id, rows, handled)
  }

  function Do(atlas: Atlas, s: Server, op: Op): Server {
    Effect(atlas, s, op).(clock := s.clock + 1)
  }

  function Continue(atlas: Atlas, s: Server, ops: seq<Op>): Server {
    if ops == [] then s else Do(atlas, Continue(atlas, s, Butlast(ops)), Last(ops))
  }

  function Run(atlas: Atlas, ops: seq<Op>): Server {
    Continue(atlas, Boot, ops)
  }

  // --- The tables in every run --------------------------------------------------------------------

  ghost predicate WellPlaced(r: Request) {
    r.Change? && r.placement.Some? ==> (r.placement.value.postcode.Some? <==> r.placement.value.tier.DataShare?)
  }

  ghost predicate Tables(s: Server) {
    Consistent(s.db) && forall i :: 0 <= i < |s.requests| ==> WellPlaced(s.requests[i])
  }

  lemma RegisteredIsConsistent(atlas: Atlas, db: Db, id: NodeId, token: string, account: Option<string>, place: Place,
                               channels: set<Channel>, p: Profile)
    requires Consistent(db)
    ensures var made := Registered(atlas, db, id, token, account, place, channels, p);
            made.Some? ==> id !in db.nodes && Consistent(made.value)
  {
    var Place(tier, postcode, region) := place;
    var loc := Resolve(atlas, tier, postcode, region);
    var node := Node(p.created, p.deviceType, p.firmware, p.cadenceMs, tier, loc.locRef, loc.cellId, channels,
                     p.producer, false);
    if !PlaceMissing(tier, postcode, region) {
      CreateKeepsConsistent(db, id, token, node, Private(loc.storedPostcode, loc.rawRegion, account));
    }
  }

  lemma DoKeepsTables(atlas: Atlas, s: Server, op: Op)
    requires Tables(s)
    ensures Tables(Do(atlas, s, op))
  {
    hide Consistent, Create, UpdateConsent, Delete, Resolve;
    match op
    case Register(id, token, account, place, channels, profile) =>
      RegisteredIsConsistent(atlas, s.db, id, token, account, place, channels, profile);
    case Upload(id, token, account, place, profile, files) =>
      RegisteredIsConsistent(atlas, s.db, id, token, account, place, SURVEY_CHANNELS, profile);
    case Patch(id, _, channels, to) => AskedIsWellPlaced(atlas, id, channels, to);
    case AdminPatch(id, _, channels, to) => AskedIsWellPlaced(atlas, id, channels, to);
    case Proceed(i) =>
      if i < |s.requests| && s.requests[i].Change? {
        assert WellPlaced(s.requests[i]);
        UpdateKeepsConsistent(s.db, s.requests[i].id, s.requests[i].channels, s.requests[i].placement);
      }
    case Erase(id, _) => DeleteKeepsConsistent(s.db, id);
    case AdminErase(id, _) => DeleteKeepsConsistent(s.db, id);
    case _ =>
  }

  lemma AskedIsWellPlaced(atlas: Atlas, id: NodeId, channels: Option<set<Channel>>, to: Option<Place>)
    ensures var r := Asked(atlas, id, channels, to); r.Some? ==> WellPlaced(r.value) && r.value.Change?
  {
  }

  /**
   * In every reachable state a live node, and only a live node, has a token and private data; it has a
   * stored postcode exactly when its tier is data share; and exactly the erased nodes have a tombstone.
   */
  lemma {:induction false} TablesAgreeInEveryRun(atlas: Atlas, ops: seq<Op>)
    ensures Tables(Run(atlas, ops))
  {
    if ops == [] {
      assert Consistent(EmptyDb) by {
        assert forall id :: ConsistentAt(EmptyDb, id);
      }
    } else {
      TablesAgreeInEveryRun(atlas, Butlast(ops));
      DoKeepsTables(atlas, Run(atlas, Butlast(ops)), Last(ops));
    }
  }

  // --- Erasure ------------------------------------------------------------------------------------

  predicate Erased(s: Server, id: NodeId) {
    id in s.db.nodes && s.db.nodes[id].deleted
  }

  /** What a post, once authenticated, will stage. */
  function Bringing(r: Request): seq<S.Row> {
    if r.Samples?
    then Admitted(S.Electrical, r.electrical, r.id, r.node) + Admitted(S.Weather, r.weather, r.id, r.node)
    else []
  }

  /** No post of the node that is under way has a row to stage. */
  ghost predicate Quiet(s: Server, id: NodeId) {
    forall i :: 0 <= i < |s.requests| && s.requests[i].Samples? && s.requests[i].id == id ==>
      Bringing(s.requests[i]) == []
  }

  function StagedFor(staged: seq<Entry>, id: NodeId): seq<Entry> {
    if staged == [] then []
    else if Last(staged).row.node == id then StagedFor(Butlast(staged), id) + [Last(staged)]
    else StagedFor(Butlast(staged), id)
  }

  lemma DoKeepsErased(atlas: Atlas, s: Server, op: Op, id: NodeId)
    requires Erased(s, id)
    ensures Erased(Do(atlas, s, op), id)
  {
    hide Resolve;
    if op.Proceed? && op.request < |s.requests| && s.requests[op.request].Change? {
      var r := s.requests[op.request];
      UpdateAt(s.db, r.id, r.channels, r.placement, id);
    }
  }

  lemma {:induction false} ErasedForever(atlas: Atlas, s: Server, after: seq<Op>, id: NodeId)
    requires Erased(s, id)
    ensures Erased(Continue(atlas, s, after), id)
  {
    if after != [] {
      ErasedForever(atlas, s, Butlast(after), id);
      DoKeepsErased(atlas, Continue(atlas, s, Butlast(after)), Last(after), id);
    }
  }

  lemma {:induction false} RunContinues(atlas: Atlas, before: seq<Op>, after: seq<Op>)
    ensures Run(atlas, before + after) == Continue(atlas, Run(atlas, before), after)
    decreases |after|
  {
    hide Do;
    if after == [] {
      assert before + after == before;
    } else {
      assert Butlast(before + after) == before + Butlast(after);
      RunContinues(atlas, before, Butlast(after));
    }
  }

  lemma {:induction false} OthersOnly(staged: seq<Entry>, rows: seq<S.Row>, since: nat, id: NodeId)
    requires forall r :: r in rows ==> r.node != id
    ensures StagedFor(staged + Entries(rows, since), id) == StagedFor(staged, id)
  {
    if rows == [] {
      assert staged + Entries(rows, since) == staged;
    } else {
      assert Last(rows) in rows && forall r :: r in Butlast(rows) ==> r in rows;
      OthersOnly(staged, Butlast(rows), since, id);
      assert Butlast(staged + Entries(rows, since)) == staged + Entries(Butlast(rows), since);
    }
  }

  /** What a step that is not a request's own may add: one request, of a node in the state it needs. */
  ghost predicate Adds(s: Server, s': Server) {
    || s'.requests == s.requests
    || (|s'.requests| == |s.requests| + 1 && s'.requests[..|s.requests|] == s.requests
        && var r := s'.requests[|s.requests|];
           match r
           case Samples(id, _, _, _, _) => Live(s.db, id)
           case Change(_, _, _) => true
           case Filling(id, _, made) => id !in s.db.nodes && !made
           case Purging(id, emptied) => Live(s.db, id) && !emptied && id in s'.db.nodes && s'.db.nodes[id].deleted
           case Finished => false)
  }

  lemma OtherSteps(atlas: Atlas, s: Server, op: Op)
    requires !op.Proceed?
    ensures Adds(s, Do(atlas, s, op))
    ensures !op.Survey? ==>
              var s' := Do(atlas, s, op); s'.staged == s.staged && s'.inbox == s.inbox && s'.archive == s.archive
  {
    hide Resolve, Admitted, UpdateConsent, StagedFor, PlaceMissing, Adds, Create, Delete;
    AddsNone(s, Do(atlas, s, op));
    match op
    case Upload(id, token, account, place, profile, files) =>
      RegisteredIsNew(atlas, s.db, id, token, account, place, SURVEY_CHANNELS, profile);
      AddsOne(s, Do(atlas, s, op), Filling(id, files, false));
    case Post(id, presented, electrical, weather) =>
      if Authenticate(s.db, id, presented).0.Some? {
        AddsOne(s, Do(atlas, s, op), Samples(id, Authenticate(s.db, id, presented).0.value, electrical, weather,
                                             s.clock));
      }
    case Patch(id, _, channels, to) => AsksOne(atlas, s, Do(atlas, s, op), id, channels, to);
    case AdminPatch(id, _, channels, to) => AsksOne(atlas, s, Do(atlas, s, op), id, channels, to);
    case AdminErase(id, owner) =>
      if Owns(s.db, owner, id) {
        DeletedIsErased(s, id);
        AddsOne(s, Do(atlas, s, op), Purging(id, false));
      }
    case _ =>
  }

  lemma RegisteredIsNew(atlas: Atlas, db: Db, id: NodeId, token: string, account: Option<string>, place: Place,
                        channels: set<Channel>, p: Profile)
    ensures Registered(atlas, db, id, token, account, place, channels, p).Some? ==> id !in db.nodes
  {
    hide Resolve;
  }

  lemma AddsNone(s: Server, s': Server)
    ensures s'.requests == s.requests ==> Adds(s, s')
  {
  }

  lemma AddsOne(s: Server, s': Server, r: Request)
    requires match r
             case Samples(id, _, _, _, _) => Live(s.db, id)
             case Change(_, _, _) => true
             case Filling(id, _, made) => s'.requests != s.requests ==> id !in s.db.nodes && !made
             case Purging(id, emptied) => Live(s.db, id) && !emptied && id in s'.db.nodes && s'.db.nodes[id].deleted
             case Finished => false
    ensures s'.requests == s.requests + [r] ==> Adds(s, s')
  {
    if s'.requests == s.requests + [r] {
      assert s'.requests[..|s.requests|] == s.requests && s'.requests[|s.requests|] == r;
    }
  }

  lemma AsksOne(atlas: Atlas, s: Server, s': Server, id: NodeId, channels: Option<set<Channel>>, to: Option<Place>)
    requires s' == s.(clock := s'.clock) || s' == Enqueue(s, Asked(atlas, id, channels, to)).(clock := s'.clock)
    ensures Adds(s, s')
  {
    hide Resolve, PlaceMissing;
    AskedIsWellPlaced(atlas, id, channels, to);
    AddsNone(s, s');
    if Asked(atlas, id, channels, to).Some? {
      AddsOne(s, s', Asked(atlas, id, channels, to).value);
    }
  }

  lemma PostStagesForItsNode(s: Server, i: nat, id: NodeId)
    requires i < |s.requests| && Quiet(s, id)
    ensures StagedFor(TakeEffect(s, i).staged, id) == StagedFor(s.staged, id)
  {
    hide StagedFor, UpdateConsent;
    var r := s.requests[i];
    if r.Samples? {
      assert TakeEffect(s, i).staged == s.staged + Entries(Bringing(r), r.since);
      if r.id == id {
        assert Bringing(r) == [] && s.staged + Entries([], r.since) == s.staged;
      } else {
        AdmittedIsConsented(S.Electrical, r.electrical, r.id, r.node);
        AdmittedIsConsented(S.Weather, r.weather, r.id, r.node);
        hide Admitted, TakeEffect;
        OthersOnly(s.staged, Bringing(r), r.since, id);
      }
    }
  }

  lemma ProceedKeepsQuiet(s: Server, i: nat, id: NodeId)
    requires Quiet(s, id)
    ensures Quiet(TakeEffect(s, i), id)
  {
    hide Bringing, UpdateConsent, Admitted;
  }

  lemma DoStagesNothing(atlas: Atlas, s: Server, op: Op, id: NodeId)
    requires Erased(s, id) && Quiet(s, id)
    ensures Quiet(Do(atlas, s, op), id)
    ensures StagedFor(Do(atlas, s, op).staged, id) == StagedFor(s.staged, id)
  {
    if op.Proceed? {
      ProceedKeepsQuiet(s, op.request, id);
      if op.request < |s.requests| {
        PostStagesForItsNode(s, op.request, id);
      }
      hide Quiet, StagedFor;
    } else {
      OtherSteps(atlas, s, op);
      if op.Survey? {
        if Live(s.db, op.id) {
          AdmittedIsConsented(S.Electrical, op.rows, op.id, s.db.nodes[op.id]);
          OthersOnly(s.staged, Admitted(S.Electrical, op.rows, op.id, s.db.nodes[op.id]), s.clock, id);
        }
        hide Admitted, Bringing, StagedFor;
      } else {
        hide Do, StagedFor, Bringing;
      }
    }
  }

  lemma {:induction false} ErasedAndQuietStagesNothing(atlas: Atlas, s: Server, after: seq<Op>, id: NodeId)
    requires Erased(s, id) && Quiet(s, id)
    ensures var end := Continue(atlas, s, after);
            Erased(end, id) && Quiet(end, id) && StagedFor(end.staged, id) == StagedFor(s.staged, id)
  {
    if after != [] {
      ErasedAndQuietStagesNothing(atlas, s, Butlast(after), id);
      var s' := Continue(atlas, s, Butlast(after));
      DoKeepsErased(atlas, s', Last(after), id);
      hide Quiet, Erased, StagedFor, Do;
      DoStagesNothing(atlas, s', Last(after), id);
    }
  }

  lemma {:induction false} OwnEntries(staged: seq<Entry>, rows: seq<S.Row>, since: nat, id: NodeId)
    requires forall r :: r in rows ==> r.node == id
    ensures |StagedFor(staged + Entries(rows, since), id)| == |StagedFor(staged, id)| + |rows|
  {
    if rows == [] {
      assert staged + Entries(rows, since) == staged;
    } else {
      assert Last(rows) in rows && forall r :: r in Butlast(rows) ==> r in rows;
      OwnEntries(staged, Butlast(rows), since, id);
      assert Butlast(staged + Entries(rows, since)) == staged + Entries(Butlast(rows), since);
    }
  }

  /** A post under way stages its rows when it proceeds, whatever became of its node. */
  lemma PostStages(atlas: Atlas, s: Server, i: nat)
    requires i < |s.requests| && s.requests[i].Samples?
    ensures var r, s' := s.requests[i], Do(atlas, s, Proceed(i));
            && s'.staged == s.staged + Entries(Bringing(r), r.since)
            && |StagedFor(s'.staged, r.id)| == |StagedFor(s.staged, r.id)| + |Bringing(r)|
  {
    var r := s.requests[i];
    AdmittedIsConsented(S.Electrical, r.electrical, r.id, r.node);
    AdmittedIsConsented(S.Weather, r.weather, r.id, r.node);
    hide Admitted;
    OwnEntries(s.staged, Bringing(r), r.since, r.id);
  }

  /**
   * Exactly when erasure is the end of it: nothing more of an erased node is staged, in any continuation
   * and by either path, if and only if no post that authenticated before the erasure and has still to
   * take effect carries a row that was consented to.
   */
  lemma NothingMoreIsStagedExactlyWhenQuiet(atlas: Atlas, s: Server, id: NodeId)
    requires Erased(s, id)
    ensures (forall after :: StagedFor(Continue(atlas, s, after).staged, id) == StagedFor(s.staged, id)) <==>
              Quiet(s, id)
  {
    if Quiet(s, id) {
      forall after ensures StagedFor(Continue(atlas, s, after).staged, id) == StagedFor(s.staged, id) {
        ErasedAndQuietStagesNothing(atlas, s, after, id);
      }
    } else {
      var i :| 0 <= i < |s.requests| && s.requests[i].Samples? && s.requests[i].id == id
        && Bringing(s.requests[i]) != [];
      PostStages(atlas, s, i);
      Snoc(atlas, s, [], Proceed(i));
      assert [] + [Proceed(i)] == [Proceed(i)] && Continue(atlas, s, []) == s;
      hide Do, Bringing, Quiet, Erased, Continue;
      assert |StagedFor(Continue(atlas, s, [Proceed(i)]).staged, id)| > |StagedFor(s.staged, id)|;
    }
  }

  lemma Snoc(atlas: Atlas, s: Server, ops: seq<Op>, op: Op)
    ensures Continue(atlas, s, ops + [op]) == Do(atlas, Continue(atlas, s, ops), op)
  {
    hide Do;
    assert Butlast(ops + [op]) == ops;
  }

  /**
   * The input that shows it is needed: a node registers, posts one weather row, and is erased before the
   * post takes effect; the row is staged all the same, under a node that is gone for good.
   */
  lemma APostOutlivesErasure(atlas: Atlas, id: NodeId, token: string, place: Place, profile: Profile, row: Sample)
    requires place == Place(Anon, None, None)
    requires row.values.Keys <= {"temp"}
    ensures var ops := [Register(id, token, None, place, {"temp"}, profile), Post(id, token, [], [row]),
                        Erase(id, token), Proceed(0)];
            var end := Run(atlas, ops);
            && Erased(end, id) && Erased(Run(atlas, ops[..3]), id) && Run(atlas, ops[..3]).staged == []
            && |end.staged| == 1 && end.staged[0].row.node == id && end.staged[0].row.stamp == row.stamp
  {
    var register := Register(id, token, None, place, {"temp"}, profile);
    var post, erase := Post(id, token, [], [row]), Erase(id, token);
    var ops := [register, post, erase, Proceed(0)];
    FirstThree(atlas, register, post, erase);
    Snoc(atlas, Boot, ops[..3], Proceed(0));
    assert ops[..3] == [register, post, erase] && ops == ops[..3] + [Proceed(0)];
    var s1 := Do(atlas, Boot, register);
    Registers(atlas, id, token, place, profile);
    var node := GetNode(s1.db, id).value;
    PostsAndIsErased(atlas, s1, id, token, row);
    var s3 := Do(atlas, Do(atlas, s1, post), erase);
    OneRowAdmitted(id, node, row);
    hide Do, Run, Erased, Registered;
    PostStages(atlas, s3, 0);
    DoKeepsErased(atlas, s3, Proceed(0), id);
    assert Bringing(s3.requests[0]) == [Project(S.Weather, row, id, node)];
  }

  lemma PostsAndIsErased(atlas: Atlas, s: Server, id: NodeId, token: string, row: Sample)
    requires Live(s.db, id) && GetTokenHash(s.db, id) == Some(token) && s.requests == [] && s.staged == []
    ensures var s' := Do(atlas, Do(atlas, s, Post(id, token, [], [row])), Erase(id, token));
            && Erased(s', id) && s'.staged == []
            && s'.requests == [Samples(id, GetNode(s.db, id).value, [], [row], s.clock)]
  {
    var s1 := Do(atlas, s, Post(id, token, [], [row]));
    assert s1.db == s.db && s1.requests == [Samples(id, GetNode(s.db, id).value, [], [row], s.clock)];
  }

  lemma FirstThree(atlas: Atlas, a: Op, b: Op, c: Op)
    ensures Run(atlas, [a, b, c]) == Do(atlas, Do(atlas, Do(atlas, Boot, a), b), c)
  {
    ThreeSteps(atlas, Boot, a, b, c);
  }

  lemma Registers(atlas: Atlas, id: NodeId, token: string, place: Place, profile: Profile)
    requires place == Place(Anon, None, None)
    ensures var s := Do(atlas, Boot, Register(id, token, None, place, {"temp"}, profile));
            && GetNode(s.db, id) == Some(Node(profile.created, profile.deviceType, profile.firmware, profile.cadenceMs,
                                              Anon, None, None, {"temp"}, profile.producer, false))
            && GetTokenHash(s.db, id) == Some(token) && s.requests == [] && s.staged == [] && s.clock == 1
  {
  }

  lemma OneRowAdmitted(id: NodeId, node: Node, row: Sample)
    requires row.values.Keys <= node.channels
    ensures Admitted(S.Weather, [row], id, node) == [Project(S.Weather, row, id, node)]
    ensures Admitted(S.Electrical, [], id, node) == []
  {
    assert Butlast([row]) == [];
  }

  // --- Consent ------------------------------------------------------------------------------------

  /** What brought a row when it read the node: a post that presented the node's token, or a visit of the worker. */
  ghost predicate Brought(atlas: Atlas, ops: seq<Op>, e: Entry)
    requires e.since < |ops|
  {
    match ops[e.since]
    case Post(id, presented, electrical, weather) =>
      && id == e.row.node && GetTokenHash(Run(atlas, ops[..e.since]).db, id) == Some(presented)
      && (SaidBy(e.row, S.Electrical, electrical, id) || SaidBy(e.row, S.Weather, weather, id))
    case Survey(id, rows, _) => id == e.row.node && SaidBy(e.row, S.Electrical, rows, id)
    case _ => false
  }

  ghost predicate SaidBy(r: S.Row, kind: S.Kind, samples: seq<Sample>, id: NodeId) {
    exists s :: s in samples && Says(r, kind, s, id)
  }

  /** A row says what was brought, no more than its node consented to, and the tags its node had, at that time. */
  ghost predicate Justified(atlas: Atlas, ops: seq<Op>, e: Entry) {
    && e.since < |ops| && Brought(atlas, ops, e)
    && var node := GetNode(Run(atlas, ops[..e.since]).db, e.row.node);
       node.Some? && e.row.values.Keys <= node.value.channels && TaggedAs(e.row, node.value)
  }

  ghost predicate Snapshot(atlas: Atlas, ops: seq<Op>, r: Request) {
    r.Samples? ==>
      && r.since < |ops| && GetNode(Run(atlas, ops[..r.since]).db, r.id) == Some(r.node)
      && match ops[r.since]
         case Post(id, presented, electrical, weather) =>
           id == r.id && electrical == r.electrical && weather == r.weather
           && GetTokenHash(Run(atlas, ops[..r.since]).db, id) == Some(presented)
         case _ => false
  }

  ghost predicate Lawful(atlas: Atlas, ops: seq<Op>) {
    var s := Run(atlas, ops);
    && s.clock == |ops|
    && (forall e :: e in s.staged ==> Justified(atlas, ops, e))
    && (forall i :: 0 <= i < |s.requests| ==> Snapshot(atlas, ops, s.requests[i]))
  }

  lemma Later(atlas: Atlas, ops: seq<Op>, op: Op)
    ensures forall e :: Justified(atlas, ops, e) ==> Justified(atlas, ops + [op], e)
    ensures forall r :: Snapshot(atlas, ops, r) ==> Snapshot(atlas, ops + [op], r)
  {
    hide Run, Says, TaggedAs, SaidBy;
    var all := ops + [op];
    assert forall n :: 0 <= n < |ops| ==> all[..n] == ops[..n] && all[n] == ops[n];
  }

  lemma AdmittedAreJustified(atlas: Atlas, ops: seq<Op>, kind: S.Kind, samples: seq<Sample>, id: NodeId, node: Node,
                             since: nat, e: Entry)
    requires since < |ops| && GetNode(Run(atlas, ops[..since]).db, id) == Some(node)
    requires e.row in Admitted(kind, samples, id, node) && e.since == since
    ensures e.row.node == id && e.row.values.Keys <= node.channels && TaggedAs(e.row, node)
    ensures SaidBy(e.row, kind, samples, id)
  {
    AdmittedSayTheConsented(kind, samples, id, node);
    hide Run, TaggedAs, Admitted;
    assert Faithful(e.row, kind, samples, id, node);
  }

  /** What a step adds to staging: the admitted rows of one request, or of one survey. */
  lemma NewEntriesAreJustified(atlas: Atlas, ops: seq<Op>, op: Op, e: Entry)
    requires Lawful(atlas, ops)
    requires e in Do(atlas, Run(atlas, ops), op).staged && e !in Run(atlas, ops).staged
    ensures Justified(atlas, ops + [op], e)
  {
    var s, all := Run(atlas, ops), ops + [op];
    assert forall n :: 0 <= n <= |ops| ==> all[..n] == ops[..n];
    assert all[..|ops|] == ops && all[|ops|] == op;
    hide Run, Admitted, Resolve, UpdateConsent, Create, TaggedAs, Says, SaidBy;
    match op
    case Proceed(i) =>
      var Samples(id, node, electrical, weather, since) := s.requests[i];
      assert Snapshot(atlas, ops, s.requests[i]) && all[since] == ops[since];
      var kind := if e.row in Admitted(S.Electrical, electrical, id, node) then S.Electrical else S.Weather;
      AdmittedAreJustified(atlas, all, kind, if kind.Electrical? then electrical else weather, id, node, since, e);
    case Survey(id, rows, handled) =>
      AdmittedAreJustified(atlas, all, S.Electrical, rows, id, s.db.nodes[id], |ops|, e);
    case _ =>
  }

  /** A post under way was under way before, or is this operation. */
  lemma OnlyPostsBringSamples(atlas: Atlas, s: Server, op: Op, i: nat)
    requires i < |Do(atlas, s, op).requests| && Do(atlas, s, op).requests[i].Samples?
    ensures var r := Do(atlas, s, op).requests[i];
            || (i < |s.requests| && s.requests[i] == r)
            || (op.Post? && Authenticate(s.db, op.id, op.presented).0.Some?
                && r == Samples(op.id, Authenticate(s.db, op.id, op.presented).0.value, op.electrical, op.weather,
                                s.clock))
  {
    hide Admitted, Resolve, UpdateConsent, Create, Authenticate, Registered, Delete, PlaceMissing, FillInbox, Purge;
    match op
    case Proceed(n) =>
      if n < |s.requests| {
        ProceedChangesOne(s, n);
      }
      hide TakeEffect;
    case Patch(id, _, channels, to) => AskedIsWellPlaced(atlas, id, channels, to);
    case AdminPatch(id, _, channels, to) => AskedIsWellPlaced(atlas, id, channels, to);
    case _ =>
  }

  lemma NewRequestsAreSnapshots(atlas: Atlas, ops: seq<Op>, op: Op, i: nat)
    requires Lawful(atlas, ops) && i < |Do(atlas, Run(atlas, ops), op).requests|
    ensures Snapshot(atlas, ops + [op], Do(atlas, Run(atlas, ops), op).requests[i])
  {
    var s, all := Run(atlas, ops), ops + [op];
    Later(atlas, ops, op);
    assert all[..|ops|] == ops && all[|ops|] == op;
    if Do(atlas, s, op).requests[i].Samples? {
      OnlyPostsBringSamples(atlas, s, op, i);
      hide Run, Do, Justified;
      assert i < |s.requests| ==> Snapshot(atlas, ops, s.requests[i]);
    }
  }

  lemma {:induction false} RunsAreLawful(atlas: Atlas, ops: seq<Op>)
    ensures Lawful(atlas, ops)
  {
    if ops != [] {
      var before, op := Butlast(ops), Last(ops);
      RunsAreLawful(atlas, before);
      assert ops == before + [op];
      Later(atlas, before, op);
      var s' := Do(atlas, Run(atlas, before), op);
      assert s' == Run(atlas, ops) && s'.clock == |ops|;
      hide Run, Do, Justified, Snapshot;
      forall e | e in s'.staged ensures Justified(atlas, ops, e) {
        if e !in Run(atlas, before).staged {
          NewEntriesAreJustified(atlas, before, op, e);
        }
      }
      forall i | 0 <= i < |s'.requests| ensures Snapshot(atlas, ops, s'.requests[i]) {
        NewRequestsAreSnapshots(atlas, before, op, i);
      }
    }
  }

  /**
   * Consent and provenance over whole runs. Whatever consent changes happen meanwhile, every row ever
   * staged was brought by a post that presented its node's token, or by a visit of the worker; it says
   * what was brought and nothing else; and it carries only channels its node consented to, and the tags
   * its node had, when the post was authenticated, or the worker read the node.
   */
  lemma EveryStagedRowWasConsented(atlas: Atlas, ops: seq<Op>, e: Entry)
    requires e in Run(atlas, ops).staged
    ensures e.since < |ops| && Brought(atlas, ops, e)
    ensures var node := GetNode(Run(atlas, ops[..e.since]).db, e.row.node);
            node.Some? && e.row.values.Keys <= node.value.channels && TaggedAs(e.row, node.value)
  {
    RunsAreLawful(atlas, ops);
    assert Justified(atlas, ops, e);
  }

  /**
   * Erasure is final. Once a node is erased, in every continuation it is not live, has no token and no
   * private data, is in no account's list, keeps its tombstone, cannot be erased or registered again; and
   * every row of it in staging was brought by a request that had authenticated before the erasure.
   */
  lemma ErasureIsFinal(atlas: Atlas, before: seq<Op>, after: seq<Op>, id: NodeId)
    requires Erased(Run(atlas, before), id)
    ensures var end := Run(atlas, before + after);
            && !Live(end.db, id) && id !in end.db.tokens && id !in end.db.private && id in end.db.tombstones
            && !Delete(end.db, id).1 && (forall account :: id !in NodesByContributor(end.db, account))
            && (forall token, node, private :: Create(end.db, id, token, node, private) == None)
            && (forall e :: e in end.staged && e.row.node == id ==> e.since < |before|)
  {
    var ops := before + after;
    RunContinues(atlas, before, after);
    ErasedForever(atlas, Run(atlas, before), after, id);
    TablesAgreeInEveryRun(atlas, ops);
    var end := Run(atlas, ops);
    assert ConsistentAt(end.db, id);
    forall e | e in end.staged && e.row.node == id ensures e.since < |before| {
      EveryStagedRowWasConsented(atlas, ops, e);
      if |before| <= e.since {
        var so := ops[..e.since];
        assert so == before + so[|before|..];
        RunContinues(atlas, before, so[|before|..]);
        ErasedForever(atlas, Run(atlas, before), so[|before|..], id);
      }
    }
  }

  // --- Directories after a withdrawal -------------------------------------------------------------

  predicate Gone(s: Server, id: NodeId) {
    id !in s.inbox && id !in s.archive
  }

  /** An upload of the node under way that can still write: it has not made its inbox, or its inbox is there. */
  predicate CanFill(s: Server, r: Request, id: NodeId) {
    r.Filling? && r.id == id && (!r.made || id in s.inbox)
  }

  ghost predicate NobodyFills(s: Server, id: NodeId) {
    forall i :: 0 <= i < |s.requests| ==> !CanFill(s, s.requests[i], id)
  }

  /** The delete handler has returned. */
  ghost predicate Purged(s: Server, id: NodeId) {
    forall i :: 0 <= i < |s.requests| ==> !(s.requests[i].Purging? && s.requests[i].id == id)
  }

  /** What an erased node that nobody fills keeps to: once its purge has returned, its directories are gone. */
  ghost predicate Settling(s: Server, id: NodeId) {
    && Erased(s, id) && NobodyFills(s, id)
    && (Purged(s, id) ==> Gone(s, id))
    && (forall i :: 0 <= i < |s.requests| && s.requests[i] == Purging(id, true) ==> id !in s.inbox || s.inbox[id] == {})
  }

  /** One request proceeds: of the requests it changes only itself, to one that writes no more than before. */
  lemma ProceedChangesOne(s: Server, i: nat)
    requires i < |s.requests|
    ensures var s' := TakeEffect(s, i);
            && |s'.requests| == |s.requests|
            && (forall j :: 0 <= j < |s.requests| && j != i ==> s'.requests[j] == s.requests[j])
            && (s'.requests[i] == Finished
                || (s'.requests[i].Filling? && s.requests[i].Filling? && s'.requests[i].id == s.requests[i].id)
                || (s.requests[i].Purging? && !s.requests[i].emptied
                    && s'.requests[i] == Purging(s.requests[i].id, true)))
            && (s.requests[i].Filling? || s.requests[i].Purging? ==>
                  forall id :: id != s.requests[i].id ==> SameDirs(s, s', id))
            && (!s.requests[i].Filling? && !s.requests[i].Purging? ==> s'.inbox == s.inbox && s'.archive == s.archive)
  {
    hide Admitted, UpdateConsent;
  }

  predicate SameDirs(s: Server, s': Server, id: NodeId) {
    && (id in s.inbox <==> id in s'.inbox) && (id in s.inbox ==> s.inbox[id] == s'.inbox[id])
    && (id in s.archive <==> id in s'.archive)
  }

  lemma FillOfAnother(s: Server, i: nat, id: NodeId)
    requires NobodyFills(s, id) && i < |s.requests| && s.requests[i].Filling?
    ensures SameDirs(s, TakeEffect(s, i), id) && NobodyFills(TakeEffect(s, i), id)
  {
    assert !CanFill(s, s.requests[i], id);
    ProceedChangesOne(s, i);
    hide Purged, Erased;
  }

  lemma PurgeStep(s: Server, i: nat, id: NodeId)
    requires Settling(s, id) && i < |s.requests| && s.requests[i].Purging?
    ensures var s' := TakeEffect(s, i);
            && NobodyFills(s', id) && (Purged(s', id) ==> Gone(s', id))
            && (forall j :: 0 <= j < |s'.requests| && s'.requests[j] == Purging(id, true) ==>
                 id !in s'.inbox || s'.inbox[id] == {})
  {
    ProceedChangesOne(s, i);
    var s' := TakeEffect(s, i);
    hide Erased;
    if s.requests[i].id == id {
      assert id in s'.inbox ==> id in s.inbox;
    } else if Purged(s', id) {
      assert Purged(s, id);
    }
    forall j | 0 <= j < |s'.requests| ensures !CanFill(s', s'.requests[j], id) {
      assert !CanFill(s, s.requests[j], id);
    }
  }

  lemma ProceedKeepsSettling(s: Server, i: nat, id: NodeId)
    requires Settling(s, id) && i < |s.requests|
    ensures var s' := TakeEffect(s, i);
            && NobodyFills(s', id) && (Purged(s', id) ==> Gone(s', id))
            && (forall j :: 0 <= j < |s'.requests| && s'.requests[j] == Purging(id, true) ==>
                 id !in s'.inbox || s'.inbox[id] == {})
  {
    if s.requests[i].Purging? {
      PurgeStep(s, i, id);
    } else {
      ProceedChangesOne(s, i);
      var s' := TakeEffect(s, i);
      if s.requests[i].Filling? {
        FillOfAnother(s, i, id);
      }
      hide TakeEffect, Erased;
      if Purged(s', id) {
        forall j | 0 <= j < |s.requests| ensures !(s.requests[j].Purging? && s.requests[j].id == id) {
          assert j != i ==> s'.requests[j] == s.requests[j];
        }
      }
      if !s.requests[i].Filling? {
        forall j | 0 <= j < |s'.requests| ensures !CanFill(s', s'.requests[j], id) {
          assert !CanFill(s, s.requests[j], id);
        }
      }
    }
  }

  lemma DoKeepsSettling(atlas: Atlas, s: Server, op: Op, id: NodeId)
    requires Settling(s, id)
    ensures Settling(Do(atlas, s, op), id)
  {
    DoKeepsErased(atlas, s, op, id);
    if op.Proceed? {
      if op.request < |s.requests| {
        ProceedKeepsSettling(s, op.request, id);
      }
      SameButClock(TakeEffect(s, op.request), s.clock + 1, id);
      hide TakeEffect, NobodyFills, Purged, Gone;
    } else {
      OtherSteps(atlas, s, op);
      SurveyDirs(atlas, s, op, id);
      hide Do;
      AddsKeepsSettling(s, Do(atlas, s, op), id);
    }
  }

  lemma SameButClock(s: Server, clock: nat, id: NodeId)
    ensures NobodyFills(s.(clock := clock), id) <==> NobodyFills(s, id)
    ensures Purged(s.(clock := clock), id) <==> Purged(s, id)
  {
    assert forall i :: 0 <= i < |s.requests| ==>
      (CanFill(s.(clock := clock), s.requests[i], id) <==> CanFill(s, s.requests[i], id));
  }

  /** A visit of the worker can only remove the directories of an erased node. */
  lemma SurveyDirs(atlas: Atlas, s: Server, op: Op, id: NodeId)
    requires Erased(s, id) && !op.Proceed?
    ensures SameDirs(s, Do(atlas, s, op), id) || Gone(Do(atlas, s, op), id)
  {
    OtherSteps(atlas, s, op);
    hide Admitted;
  }

  lemma AddsKeepsSettling(s: Server, s': Server, id: NodeId)
    requires Settling(s, id) && Adds(s, s') && Erased(s', id) && (SameDirs(s, s', id) || Gone(s', id))
    ensures Settling(s', id)
  {
    forall j | 0 <= j < |s'.requests| ensures !CanFill(s', s'.requests[j], id) {
      if j < |s.requests| {
        assert s'.requests[j] == s'.requests[..|s.requests|][j] == s.requests[j] && !CanFill(s, s.requests[j], id);
      }
    }
    forall j | 0 <= j < |s.requests| ensures s'.requests[j] == s.requests[j] {
      assert s'.requests[j] == s'.requests[..|s.requests|][j];
    }
  }

  lemma {:induction false} SettlingForever(atlas: Atlas, s: Server, after: seq<Op>, id: NodeId)
    requires Settling(s, id)
    ensures Settling(Continue(atlas, s, after), id)
  {
    if after != [] {
      SettlingForever(atlas, s, Butlast(after), id);
      hide Settling, Do;
      DoKeepsSettling(atlas, Continue(atlas, s, Butlast(after)), Last(after), id);
    }
  }

  /** Only erased nodes are being purged. */
  lemma {:induction false} OnlyErasedArePurged(atlas: Atlas, ops: seq<Op>, id: NodeId)
    ensures var s := Run(atlas, ops); Purged(s, id) || Erased(s, id)
  {
    if ops != [] {
      OnlyErasedArePurged(atlas, Butlast(ops), id);
      hide Adds, Purged, Erased, Do;
      var s, op := Run(atlas, Butlast(ops)), Last(ops);
      var s' := Do(atlas, s, op);
      if Erased(s, id) {
        DoKeepsErased(atlas, s, op, id);
      } else if op.Proceed? {
        ProceedPurgesNobody(atlas, s, op.request, id);
      } else {
        OtherSteps(atlas, s, op);
        AddsPurgesErased(s, s', id);
      }
    }
  }

  lemma AddsPurgesErased(s: Server, s': Server, id: NodeId)
    requires Adds(s, s') && Purged(s, id)
    ensures Purged(s', id) || Erased(s', id)
  {
    assert forall j :: 0 <= j < |s.requests| ==> s'.requests[j] == s'.requests[..|s.requests|][j];
  }

  lemma ProceedPurgesNobody(atlas: Atlas, s: Server, i: nat, id: NodeId)
    requires Purged(s, id)
    ensures Purged(Do(atlas, s, Proceed(i)), id)
  {
    if i < |s.requests| {
      ProceedChangesOne(s, i);
      hide TakeEffect;
    }
  }

  lemma DeletedIsErased(s: Server, id: NodeId)
    requires Live(s.db, id)
    ensures id in Delete(s.db, id).0.nodes && Delete(s.db, id).0.nodes[id].deleted
  {
  }

  /** An upload that can still write, given its turn at the wrong moment, leaves a directory behind the purge. */
  lemma AFillOutlivesThePurge(atlas: Atlas, s: Server, i: nat, p: nat, id: NodeId) returns (after: seq<Op>)
    requires i < |s.requests| && CanFill(s, s.requests[i], id)
    requires p < |s.requests| && s.requests[p] == Purging(id, false)
    requires forall j :: 0 <= j < |s.requests| && j != p ==> !(s.requests[j].Purging? && s.requests[j].id == id)
    ensures var end := Continue(atlas, s, after); Purged(end, id) && id in end.inbox
  {
    hide Continue;
    if s.requests[i].made {
      after := [Proceed(p), Proceed(i), Proceed(p)];
      ThreeSteps(atlas, s, Proceed(p), Proceed(i), Proceed(p));
      FillDuringThePurge(atlas, s, i, p, id);
    } else {
      after := [Proceed(p), Proceed(p), Proceed(i)];
      ThreeSteps(atlas, s, Proceed(p), Proceed(p), Proceed(i));
      FillAfterThePurge(atlas, s, i, p, id);
    }
  }

  /** A file lands between the removal of the files and that of the directory. */
  lemma FillDuringThePurge(atlas: Atlas, s: Server, i: nat, p: nat, id: NodeId)
    requires i < |s.requests| && CanFill(s, s.requests[i], id) && s.requests[i].made
    requires p < |s.requests| && s.requests[p] == Purging(id, false)
    requires forall j :: 0 <= j < |s.requests| && j != p ==> !(s.requests[j].Purging? && s.requests[j].id == id)
    ensures var end := Do(atlas, Do(atlas, Do(atlas, s, Proceed(p)), Proceed(i)), Proceed(p));
            Purged(end, id) && id in end.inbox
  {
    hide Admitted, UpdateConsent;
    var s1 := Do(atlas, s, Proceed(p));
    assert s1.requests[i] == s.requests[i] && s1.requests[p] == Purging(id, true) && id in s1.inbox;
    var s2 := Do(atlas, s1, Proceed(i));
    assert s2.requests[p] == Purging(id, true) && id in s2.inbox && s2.inbox[id] != {};
  }

  /** The inbox is made after the purge. */
  lemma FillAfterThePurge(atlas: Atlas, s: Server, i: nat, p: nat, id: NodeId)
    requires i < |s.requests| && CanFill(s, s.requests[i], id) && !s.requests[i].made
    requires p < |s.requests| && s.requests[p] == Purging(id, false)
    requires forall j :: 0 <= j < |s.requests| && j != p ==> !(s.requests[j].Purging? && s.requests[j].id == id)
    ensures var end := Do(atlas, Do(atlas, Do(atlas, s, Proceed(p)), Proceed(p)), Proceed(i));
            Purged(end, id) && id in end.inbox
  {
    hide Admitted, UpdateConsent;
    var s1 := Do(atlas, s, Proceed(p));
    assert s1.requests[i] == s.requests[i] && s1.requests[p] == Purging(id, true);
    var s2 := Do(atlas, s1, Proceed(p));
    assert s2.requests[i] == s.requests[i] && s2.requests[p] == Finished;
  }

  lemma ThreeSteps(atlas: Atlas, s: Server, a: Op, b: Op, c: Op)
    ensures Continue(atlas, s, [a, b, c]) == Do(atlas, Do(atlas, Do(atlas, s, a), b), c)
  {
    hide Do;
    assert Butlast([a, b, c]) == [a, b] && Butlast([a, b]) == [a] && Butlast([a]) == [];
    assert Continue(atlas, s, [a]) == Do(atlas, s, a);
    assert Continue(atlas, s, [a, b]) == Do(atlas, Do(atlas, s, a), b);
  }

  /**
   * Exactly when a withdrawal through the admin route leaves nothing: whatever happens afterwards, once
   * the delete handler has returned no inbox or archive of the node is there, if and only if no upload of
   * the node was under way at the delete with something left to write.
   */
  lemma AdminErasureLeavesNothingExactlyWhenNobodyFills(atlas: Atlas, before: seq<Op>, id: NodeId, owner: string)
    requires Owns(Run(atlas, before).db, owner, id)
    ensures var s := Run(atlas, before);
            var erased := Do(atlas, s, AdminErase(id, owner));
            (forall after :: Purged(Continue(atlas, erased, after), id) ==> Gone(Continue(atlas, erased, after), id))
            <==> NobodyFills(s, id)
  {
    var s := Run(atlas, before);
    OnlyErasedArePurged(atlas, before, id);
    var erased, p := Do(atlas, s, AdminErase(id, owner)), |s.requests|;
    DeletedIsErased(s, id);
    assert erased.requests == s.requests + [Purging(id, false)] && erased.inbox == s.inbox && Erased(erased, id);
    assert erased.requests[p] == Purging(id, false);
    assert forall j :: 0 <= j < p ==> erased.requests[j] == s.requests[j];
    hide Do, Run, Delete;
    if NobodyFills(s, id) {
      assert !Purged(erased, id) && Settling(erased, id);
      forall after | Purged(Continue(atlas, erased, after), id) ensures Gone(Continue(atlas, erased, after), id) {
        SettlingForever(atlas, erased, after, id);
      }
    } else {
      var i :| 0 <= i < |s.requests| && CanFill(s, s.requests[i], id);
      assert CanFill(erased, erased.requests[i], id);
      var after := AFillOutlivesThePurge(atlas, erased, i, p, id);
      assert !Gone(Continue(atlas, erased, after), id);
    }
  }

  /**
   * The input that shows it is needed: a survey upload has registered its node and not yet made the inbox
   * when the account withdraws it; the delete returns, and then the inbox appears.
   */
  lemma AnUploadOutlivesWithdrawal(atlas: Atlas, id: NodeId, token: string, owner: string, profile: Profile,
                                   file: string)
    ensures var place := Place(Region, None, Some("SW"));
            var ops := [Upload(id, token, Some(owner), place, profile, [file]), AdminErase(id, owner), Proceed(1),
                        Proceed(1), Proceed(0)];
            Erased(Run(atlas, ops), id) && Purged(Run(atlas, ops), id) && id in Run(atlas, ops).inbox
  {
    var place := Place(Region, None, Some("SW"));
    var upload := Upload(id, token, Some(owner), place, profile, [file]);
    var first, rest := [upload, AdminErase(id, owner)], [Proceed(1), Proceed(1), Proceed(0)];
    assert first + rest == [upload, AdminErase(id, owner), Proceed(1), Proceed(1), Proceed(0)];
    hide *;
    UploadedAndWithdrawn(atlas, id, token, owner, profile, file);
    RunContinues(atlas, first, rest);
    var s := Run(atlas, first);
    ThreeSteps(atlas, s, Proceed(1), Proceed(1), Proceed(0));
    FillsAfterWithdrawal(atlas, s, id, file);
    ErasedForever(atlas, s, rest, id);
  }

  lemma UploadedAndWithdrawn(atlas: Atlas, id: NodeId, token: string, owner: string, profile: Profile, file: string)
    ensures var place := Place(Region, None, Some("SW"));
            var s := Run(atlas, [Upload(id, token, Some(owner), place, profile, [file]), AdminErase(id, owner)]);
            s.requests == [Filling(id, [file], false), Purging(id, false)] && Erased(s, id)
  {
    var upload := Upload(id, token, Some(owner), Place(Region, None, Some("SW")), profile, [file]);
    UploadRegisters(atlas, id, token, owner, profile, file);
    Snoc(atlas, Boot, [upload], AdminErase(id, owner));
    Snoc(atlas, Boot, [], upload);
    assert [upload] + [AdminErase(id, owner)] == [upload, AdminErase(id, owner)] && [] + [upload] == [upload];
    assert Continue(atlas, Boot, []) == Boot;
    var s1 := Do(atlas, Boot, upload);
    DeletedIsErased(s1, id);
    hide Registered, Delete, Continue;
  }

  lemma UploadRegisters(atlas: Atlas, id: NodeId, token: string, owner: string, profile: Profile, file: string)
    ensures var s := Do(atlas, Boot, Upload(id, token, Some(owner), Place(Region, None, Some("SW")), profile, [file]));
            s.requests == [Filling(id, [file], false)] && Owns(s.db, owner, id)
  {
  }

  lemma FillsAfterWithdrawal(atlas: Atlas, s: Server, id: NodeId, file: string)
    requires s.requests == [Filling(id, [file], false), Purging(id, false)]
    ensures var end := Do(atlas, Do(atlas, Do(atlas, s, Proceed(1)), Proceed(1)), Proceed(0));
            Purged(end, id) && id in end.inbox
  {
    hide Do;
    FillAfterThePurge(atlas, s, 0, 1, id);
  }

  /**
   * What is left, the next visit of the worker removes, with the archive; and then it is gone for good,
   * unless an upload has still to make its inbox.
   */
  lemma TheNextVisitPurges(atlas: Atlas, s: Server, id: NodeId, rows: seq<Sample>, handled: set<string>, after: seq<Op>)
    requires Erased(s, id) && id in s.inbox
    ensures Gone(Do(atlas, s, Survey(id, rows, handled)), id)
    ensures (forall i :: 0 <= i < |s.requests| && s.requests[i].Filling? && s.requests[i].id == id ==>
              s.requests[i].made) ==>
              var end := Continue(atlas, Do(atlas, s, Survey(id, rows, handled)), after);
              Purged(end, id) ==> Gone(end, id)
  {
    var s' := Do(atlas, s, Survey(id, rows, handled));
    assert Gone(s', id) && s'.requests == s.requests && Erased(s', id);
    if forall i :: 0 <= i < |s.requests| && s.requests[i].Filling? && s.requests[i].id == id ==> s.requests[i].made {
      assert Settling(s', id);
      hide Do;
      SettlingForever(atlas, s', after, id);
    }
  }

  // --- Two runs that differ in secrets ------------------------------------------------------------

  /** One run's tokens and accounts renamed, without merging any two, for the other run. */
  datatype Veil = Veil(token: string -> string, account: string -> string)

  ghost predicate Injective(f: string -> string) {
    forall a, b :: f(a) == f(b) ==> a == b
  }

  function Renamed(f: string -> string, o: Option<string>): Option<string> {
    match o
    case None => None
    case Some(x) => Some(f(x))
  }

  /** Postcodes may differ, as long as they are given or not alike and lie in the same area. */
  predicate SamePlace(atlas: Atlas, a: Place, b: Place) {
    && a.tier == b.tier && a.region == b.region
    && (Given(a.postcode) <==> Given(b.postcode))
    && (Given(a.postcode) ==> PostcodeArea(atlas, a.postcode.value) == PostcodeArea(atlas, b.postcode.value))
  }

  predicate SameTarget(atlas: Atlas, a: Option<Place>, b: Option<Place>) {
    match (a, b)
    case (None, None) => true
    case (Some(p), Some(q)) => SamePlace(atlas, p, q)
    case _ => false
  }

  predicate SameOp(v: Veil, atlas: Atlas, a: Op, b: Op) {
    match (a, b)
    case (Register(id, token, account, place, consent, profile), Register(id', token', account', place', consent',
                                                                          profile')) =>
      id == id' && token' == v.token(token) && account' == Renamed(v.account, account)
        && SamePlace(atlas, place, place')
      && consent == consent' && profile == profile'
    case (Upload(id, token, account, place, profile, files), Upload(id', token', account', place', profile', files')) =>
      id == id' && token' == v.token(token) && account' == Renamed(v.account, account)
        && SamePlace(atlas, place, place')
      && profile == profile' && files == files'
    case (Post(id, presented, electrical, weather), Post(id', presented', electrical', weather')) =>
      id == id' && presented' == v.token(presented) && electrical == electrical' && weather == weather'
    case (Patch(id, presented, channels, to), Patch(id', presented', channels', to')) =>
      id == id' && presented' == v.token(presented) && channels == channels' && SameTarget(atlas, to, to')
    case (AdminPatch(id, owner, channels, to), AdminPatch(id', owner', channels', to')) =>
      id == id' && owner' == v.account(owner) && channels == channels' && SameTarget(atlas, to, to')
    case (Erase(id, presented), Erase(id', presented')) => id == id' && presented' == v.token(presented)
    case (AdminErase(id, owner), AdminErase(id', owner')) => id == id' && owner' == v.account(owner)
    case _ => a == b && (a.Proceed? || a.Survey?)
  }

  /** The tables of the two runs agree on all that is not secret. */
  ghost predicate SameAt(v: Veil, a: Db, b: Db, id: NodeId) {
    && GetTokenHash(b, id) == Renamed(v.token, GetTokenHash(a, id))
    && (id in a.private <==> id in b.private)
    && GetContributorRef(b, id) == Renamed(v.account, GetContributorRef(a, id))
  }

  ghost predicate SameDb(v: Veil, a: Db, b: Db) {
    a.nodes == b.nodes && a.tombstones == b.tombstones && forall id :: SameAt(v, a, b, id)
  }

  predicate SamePlacement(a: Option<Placement>, b: Option<Placement>) {
    match (a, b)
    case (None, None) => true
    case (Some(p), Some(q)) => p.tier == q.tier && p.locRef == q.locRef && p.cellId == q.cellId
    case _ => false
  }

  predicate SameRequest(a: Request, b: Request) {
    match (a, b)
    case (Change(id, channels, placement), Change(id', channels', placement')) =>
      id == id' && channels == channels' && SamePlacement(placement, placement')
    case _ => a == b
  }

  ghost predicate Indistinguishable(v: Veil, a: Server, b: Server) {
    && SameDb(v, a.db, b.db)
    && |a.requests| == |b.requests| && (forall i :: 0 <= i < |a.requests| ==> SameRequest(a.requests[i], b.requests[i]))
    && a.staged == b.staged && a.inbox == b.inbox && a.archive == b.archive && a.clock == b.clock
  }

  lemma SameCreate(v: Veil, a: Db, b: Db, id: NodeId, token: string, node: Node, p: Private, q: Private)
    requires SameDb(v, a, b) && q.contributor == Renamed(v.account, p.contributor)
    ensures var x, y := Create(a, id, token, node, p), Create(b, id, v.token(token), node, q);
            x.Some? == y.Some? && (x.Some? ==> SameDb(v, x.value, y.value))
  {
    assert SameAt(v, a, b, id);
    var x, y := Create(a, id, token, node, p), Create(b, id, v.token(token), node, q);
    forall i | x.Some? ensures SameAt(v, x.value, y.value, i) {
      assert SameAt(v, a, b, i);
    }
  }

  lemma SameRegistered(v: Veil, atlas: Atlas, a: Db, b: Db, id: NodeId, token: string, account: Option<string>,
                       place: Place, place': Place, channels: set<Channel>, p: Profile)
    requires SameDb(v, a, b) && SamePlace(atlas, place, place')
    ensures var x := Registered(atlas, a, id, token, account, place, channels, p);
            var y := Registered(atlas, b, id, v.token(token), Renamed(v.account, account), place', channels, p);
            x.Some? == y.Some? && (x.Some? ==> SameDb(v, x.value, y.value))
  {
    hide Create, SameDb;
    OnlyTheAreaShows(atlas, place.tier, place.postcode, place'.postcode, place.region);
    var la, lb := Resolve(atlas, place.tier, place.postcode, place.region), Resolve(atlas, place.tier,
                                                                                    place'.postcode, place.region);
    var node := Node(p.created, p.deviceType, p.firmware, p.cadenceMs, place.tier, la.locRef, la.cellId, channels,
                     p.producer, false);
    SameCreate(v, a, b, id, token, node, Private(la.storedPostcode, la.rawRegion, account),
               Private(lb.storedPostcode, lb.rawRegion, Renamed(v.account, account)));
  }

  lemma SameUpdate(v: Veil, a: Db, b: Db, id: NodeId, channels: Option<set<Channel>>, p: Option<Placement>,
                   q: Option<Placement>)
    requires SameDb(v, a, b) && SamePlacement(p, q)
    ensures SameDb(v, UpdateConsent(a, id, channels, p), UpdateConsent(b, id, channels, q))
  {
    forall i ensures SameAt(v, UpdateConsent(a, id, channels, p), UpdateConsent(b, id, channels, q), i) {
      assert SameAt(v, a, b, i);
      UpdateAt(a, id, channels, p, i);
      UpdateAt(b, id, channels, q, i);
      hide UpdateConsent, GetContributorRef;
    }
  }

  lemma SameDelete(v: Veil, a: Db, b: Db, id: NodeId)
    requires SameDb(v, a, b)
    ensures SameDb(v, Delete(a, id).0, Delete(b, id).0)
  {
    forall i ensures SameAt(v, Delete(a, id).0, Delete(b, id).0, i) {
      assert SameAt(v, a, b, i);
    }
  }

  /** Authentication and ownership decide alike, because renaming merges no two secrets. */
  lemma SameDecisions(v: Veil, a: Db, b: Db, id: NodeId, presented: string, owner: string)
    requires Injective(v.token) && Injective(v.account) && SameDb(v, a, b)
    ensures Authenticate(b, id, v.token(presented)) == Authenticate(a, id, presented)
    ensures Owns(b, v.account(owner), id) <==> Owns(a, owner, id)
  {
    assert SameAt(v, a, b, id);
  }

  lemma SameAsked(atlas: Atlas, id: NodeId, channels: Option<set<Channel>>, to: Option<Place>, to': Option<Place>)
    requires SameTarget(atlas, to, to')
    ensures var x, y := Asked(atlas, id, channels, to), Asked(atlas, id, channels, to');
            x.Some? == y.Some? && (x.Some? ==> SameRequest(x.value, y.value))
  {
    if to.Some? {
      OnlyTheAreaShows(atlas, to.value.tier, to.value.postcode, to'.value.postcode, to.value.region);
    }
  }

  lemma SameProceed(v: Veil, a: Server, b: Server, i: nat)
    requires Indistinguishable(v, a, b)
    ensures Indistinguishable(v, TakeEffect(a, i), TakeEffect(b, i))
  {
    hide SameDb, UpdateConsent;
    if i < |a.requests| {
      assert SameRequest(a.requests[i], b.requests[i]);
      if a.requests[i].Change? {
        SameUpdate(v, a.db, b.db, a.requests[i].id, a.requests[i].channels, a.requests[i].placement,
                   b.requests[i].placement);
      }
    }
  }

  lemma SameSurvey(v: Veil, a: Server, b: Server, id: NodeId, rows: seq<Sample>, handled: set<string>)
    requires Indistinguishable(v, a, b)
    ensures Indistinguishable(v, WorkSurvey(a, id, rows, handled), WorkSurvey(b, id, rows, handled))
  {
    assert GetNode(a.db, id) == GetNode(b.db, id);
    hide SameDb;
  }

  lemma SameRegistration(v: Veil, atlas: Atlas, a: Server, b: Server, x: Op, y: Op)
    requires (x.Register? || x.Upload?) && Indistinguishable(v, a, b) && SameOp(v, atlas, x, y)
    ensures Indistinguishable(v, Effect(atlas, a, x), Effect(atlas, b, y))
  {
    hide SameDb, Registered;
    SameRegistered(v, atlas, a.db, b.db, x.id, x.token, x.account, x.place, y.place,
                   if x.Register? then x.consent else SURVEY_CHANNELS, x.profile);
  }

  lemma SameEffect(v: Veil, atlas: Atlas, a: Server, b: Server, x: Op, y: Op)
    requires Injective(v.token) && Injective(v.account)
    requires Indistinguishable(v, a, b) && SameOp(v, atlas, x, y)
    ensures Indistinguishable(v, Effect(atlas, a, x), Effect(atlas, b, y))
  {
    hide SameDb, Authenticate, Owns, Asked, TakeEffect, WorkSurvey, Delete, Registered, Injective;
    match x
    case Register(_, _, _, _, _, _) => SameRegistration(v, atlas, a, b, x, y);
    case Upload(_, _, _, _, _, _) => SameRegistration(v, atlas, a, b, x, y);
    case Post(id, presented, _, _) => SameDecisions(v, a.db, b.db, id, presented, "");
    case Patch(id, presented, channels, to) =>
      SameDecisions(v, a.db, b.db, id, presented, "");
      SameAsked(atlas, id, channels, to, y.to);
    case AdminPatch(id, owner, channels, to) =>
      SameDecisions(v, a.db, b.db, id, "", owner);
      SameAsked(atlas, id, channels, to, y.to);
    case Proceed(i) => SameProceed(v, a, b, i);
    case Erase(id, presented) =>
      SameDecisions(v, a.db, b.db, id, presented, "");
      SameDelete(v, a.db, b.db, id);
    case AdminErase(id, owner) =>
      SameDecisions(v, a.db, b.db, id, "", owner);
      SameDelete(v, a.db, b.db, id);
    case Survey(id, rows, handled) => SameSurvey(v, a, b, id, rows, handled);
  }

  ghost predicate SameHistory(v: Veil, atlas: Atlas, xs: seq<Op>, ys: seq<Op>) {
    |xs| == |ys| && forall i :: 0 <= i < |xs| ==> SameOp(v, atlas, xs[i], ys[i])
  }

  /**
   * Secrets do not reach staging. Two server histories that differ only in tokens, in account references
   * and in postcodes of the same area hand exactly the same rows to staging, in the same order, and
   * publish the same node records; only the private table and the token table tell them apart.
   */
  lemma {:induction false} SecretsNeverReachStaging(v: Veil, atlas: Atlas, xs: seq<Op>, ys: seq<Op>)
    requires Injective(v.token) && Injective(v.account) && SameHistory(v, atlas, xs, ys)
    ensures Run(atlas, xs).staged == Run(atlas, ys).staged && Run(atlas, xs).db.nodes == Run(atlas, ys).db.nodes
    ensures Indistinguishable(v, Run(atlas, xs), Run(atlas, ys))
  {
    if xs != [] {
      SecretsNeverReachStaging(v, atlas, Butlast(xs), Butlast(ys));
      assert SameOp(v, atlas, xs[|xs| - 1], ys[|ys| - 1]);
      hide SameOp, Effect;
      SameEffect(v, atlas, Run(atlas, Butlast(xs)), Run(atlas, Butlast(ys)), Last(xs), Last(ys));
    }
  }
}
