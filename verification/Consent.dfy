/**
 * What registrations and consent changes are worth over whole runs of the server: who may speak for a
 * node, what of it is staged from when on, and what becomes of its files.
 */
module Consent {
  import opened Basics
  import opened Registry
  import opened Privacy
  import opened Ingest
  import opened ServerRuns
  import S = Staging

  /** The token presented is the one stored for the node, which has not been erased. */
  predicate HoldsToken(db: Db, id: NodeId, presented: string) {
    id in db.nodes && !db.nodes[id].deleted && id in db.tokens && db.tokens[id] == presented
  }

  /** The account is the one stored for the node, which has not been erased. */
  predicate HoldsAccount(db: Db, id: NodeId, owner: string) {
    id in db.nodes && !db.nodes[id].deleted && id in db.private && db.private[id].contributor == Some(owner)
  }

  /** A place with what its tier asks for. */
  predicate Stated(place: Place) {
    && (place.tier.Region? ==> place.region.Some? && place.region.value != "")
    && (place.tier.DataShare? ==> place.postcode.Some? && place.postcode.value != "")
  }

  // --- Who may speak for a node -------------------------------------------------------------------

  /** Whether an operation on a node, other than a registration, comes with its token or from its account. */
  predicate Entitled(db: Db, op: Op) {
    match op
    case Post(id, presented, _, _) => HoldsToken(db, id, presented)
    case Patch(id, presented, _, _) => HoldsToken(db, id, presented)
    case Erase(id, presented) => HoldsToken(db, id, presented)
    case AdminPatch(id, owner, _, _) => HoldsAccount(db, id, owner)
    case AdminErase(id, owner) => HoldsAccount(db, id, owner)
    case _ => true
  }

  /** An operation on a node without its token, and not from its account, changes nothing at all. */
  lemma StrangersChangeNothing(atlas: Atlas, s: Server, op: Op)
    requires !Entitled(s.db, op)
    ensures Do(atlas, s, op) == s.(clock := s.clock + 1)
  {
    hide Asked;
  }

  /** With the token, or from the account, a post is taken on, and an erasure takes place. */
  lemma HoldersAreServed(atlas: Atlas, s: Server, op: Op)
    requires Entitled(s.db, op)
    ensures op.Post? ==>
              Do(atlas, s, op).requests
              == s.requests + [Samples(op.id, s.db.nodes[op.id], op.electrical, op.weather, s.clock)]
    ensures op.Erase? || op.AdminErase? ==> Erased(Do(atlas, s, op), op.id) && op.id !in Do(atlas, s, op).db.tokens
  {
  }

  /** A change asked for with the token, or by the account, and with a place stated in full, waits its turn. */
  lemma ChangesAreTakenOn(atlas: Atlas, s: Server, op: Op)
    requires (op.Patch? || op.AdminPatch?) && Entitled(s.db, op) && (op.to.Some? ==> Stated(op.to.value))
    ensures var s' := Do(atlas, s, op);
            && s'.db == s.db && |s'.requests| == |s.requests| + 1 && s'.requests[..|s.requests|] == s.requests
            && var r := s'.requests[|s.requests|];
               && r.Change? && r.id == op.id && r.channels == op.channels && (r.placement.Some? <==> op.to.Some?)
               && (op.to.Some? ==>
                     && r.placement.value.tier == op.to.value.tier && r.placement.value.cellId == None
                     && Shows(atlas, op.to.value, r.placement.value.locRef)
                     && r.placement.value.postcode
                        == if op.to.value.tier.DataShare? then op.to.value.postcode else None)
  {
    if op.to.Some? {
      PlacesAreCoarse(atlas, op.to.value.tier, op.to.value.postcode, op.to.value.region);
    }
    hide Resolve, PlaceMissing, IsPublished;
  }

  ghost predicate Shows(atlas: Atlas, place: Place, ref: Option<string>) {
    IsPublished(atlas, place.tier, place.postcode, place.region, ref)
  }

  // --- What stays ---------------------------------------------------------------------------------

  /** A request that is not proceeded with stays as it is. */
  lemma {:induction false} RequestWaits(atlas: Atlas, s: Server, ops: seq<Op>, i: nat)
    requires i < |s.requests| && Proceed(i) !in ops
    ensures var end := Continue(atlas, s, ops); i < |end.requests| && end.requests[i] == s.requests[i]
  {
    if ops != [] {
      assert Last(ops) in ops && forall op :: op in Butlast(ops) ==> op in ops;
      RequestWaits(atlas, s, Butlast(ops), i);
      hide Continue;
      RequestWaitsOnce(atlas, Continue(atlas, s, Butlast(ops)), Last(ops), i);
      ContinueUnfolds(atlas, s, ops);
    }
  }

  lemma ContinueUnfolds(atlas: Atlas, s: Server, ops: seq<Op>)
    requires ops != []
    ensures Continue(atlas, s, ops) == Do(atlas, Continue(atlas, s, Butlast(ops)), Last(ops))
  {
    hide Do;
  }

  lemma RequestWaitsOnce(atlas: Atlas, s: Server, op: Op, i: nat)
    requires i < |s.requests| && op != Proceed(i)
    ensures var s' := Do(atlas, s, op); i < |s'.requests| && s'.requests[i] == s.requests[i]
  {
    if op.Proceed? {
      if op.request < |s.requests| {
        ProceedChangesOne(s, op.request);
      }
      hide TakeEffect;
    } else {
      OtherSteps(atlas, s, op);
      hide Do;
      assert i < |s.requests| ==> Do(atlas, s, op).requests[i] == Do(atlas, s, op).requests[..|s.requests|][i];
    }
  }

  /** The operation is a change of the node's consent or place taking effect. */
  predicate Changes(s: Server, op: Op, id: NodeId) {
    op.Proceed? && op.request < |s.requests| && s.requests[op.request].Change? && s.requests[op.request].id == id
  }

  ghost predicate NoChange(atlas: Atlas, s: Server, ops: seq<Op>, id: NodeId) {
    forall n :: 0 <= n < |ops| ==> !Changes(Continue(atlas, s, ops[..n]), ops[n], id)
  }

  /** What no step takes from a node that is not erased: its token and its account. */
  ghost predicate SameHolders(a: Db, b: Db, id: NodeId) {
    GetTokenHash(b, id) == GetTokenHash(a, id) && GetContributorRef(b, id) == GetContributorRef(a, id)
  }

  lemma StepKeepsRecord(atlas: Atlas, s: Server, op: Op, id: NodeId)
    requires id in s.db.nodes
    ensures var s' := Do(atlas, s, op);
            && id in s'.db.nodes
            && (Live(s'.db, id) ==>
                  && Live(s.db, id) && SameHolders(s.db, s'.db, id)
                  && (!Changes(s, op, id) ==> Row(s'.db, id) == Row(s.db, id)))
  {
    hide Resolve, PlaceMissing, Admitted, FillInbox, Purge, Asked;
    match op
    case Proceed(i) =>
      if i < |s.requests| && s.requests[i].Change? {
        var Change(node, channels, placement) := s.requests[i];
        UpdateAt(s.db, node, channels, placement, id);
        hide UpdateConsent;
      } else {
        ProceedKeepsTables(s, i);
        hide TakeEffect;
      }
    case Erase(node, _) => DeleteAt(s.db, node, id);
    case AdminErase(node, _) => DeleteAt(s.db, node, id);
    case Register(node, token, account, place, channels, profile) =>
      RegisterAt(atlas, s.db, node, token, account, place, channels, profile, id);
    case Upload(node, token, account, place, profile, files) =>
      RegisterAt(atlas, s.db, node, token, account, place, SURVEY_CHANNELS, profile, id);
    case _ =>
  }

  lemma ProceedKeepsTables(s: Server, i: nat)
    requires i < |s.requests| ==> !s.requests[i].Change?
    ensures TakeEffect(s, i).db == s.db
  {
    hide Admitted;
  }

  lemma DeleteAt(db: Db, id: NodeId, other: NodeId)
    requires other in db.nodes
    ensures var db' := Delete(db, id).0;
            other in db'.nodes
            && (Live(db', other) ==>
                  Live(db, other) && SameHolders(db, db', other) && Row(db', other) == Row(db, other))
  {
  }

  lemma RegisterAt(atlas: Atlas, db: Db, id: NodeId, token: string, account: Option<string>, place: Place,
                   channels: set<Channel>, p: Profile, other: NodeId)
    requires other in db.nodes
    ensures var made := Registered(atlas, db, id, token, account, place, channels, p);
            made.Some? ==>
              other in made.value.nodes && (Live(made.value, other) <==> Live(db, other))
              && SameHolders(db, made.value, other) && Row(made.value, other) == Row(db, other)
  {
    hide Resolve, PlaceMissing;
  }

  /** As long as a node is not erased it keeps its token and its account; and until a change of it takes effect, all. */
  lemma {:induction false} RecordStays(atlas: Atlas, s: Server, ops: seq<Op>, id: NodeId)
    requires id in s.db.nodes
    ensures var end := Continue(atlas, s, ops);
            && id in end.db.nodes
            && (Live(end.db, id) ==>
                  && Live(s.db, id) && SameHolders(s.db, end.db, id)
                  && (NoChange(atlas, s, ops, id) ==> Row(end.db, id) == Row(s.db, id)))
  {
    SameHoldersChain(s.db, s.db, s.db, id);
    if ops != [] {
      var front := Butlast(ops);
      RecordStays(atlas, s, front, id);
      hide Row, Changes, SameHolders, Live, Do, Continue, NoChange;
      ContinueUnfolds(atlas, s, ops);
      StepKeepsRecord(atlas, Continue(atlas, s, front), Last(ops), id);
      SameHoldersChain(s.db, Continue(atlas, s, front).db, Continue(atlas, s, ops).db, id);
      if NoChange(atlas, s, ops, id) {
        NoChangeSoFar(atlas, s, ops, |front|, id);
        NoChangeAt(atlas, s, ops, |front|, id);
      }
    }
  }

  lemma NoChangeSoFar(atlas: Atlas, s: Server, ops: seq<Op>, n: nat, id: NodeId)
    requires NoChange(atlas, s, ops, id) && n <= |ops|
    ensures NoChange(atlas, s, ops[..n], id)
  {
    hide Continue, Changes;
    assert forall m :: 0 <= m < n ==> ops[..n][..m] == ops[..m] && ops[..n][m] == ops[m];
  }

  lemma NoChangeAt(atlas: Atlas, s: Server, ops: seq<Op>, n: nat, id: NodeId)
    requires NoChange(atlas, s, ops, id) && n < |ops|
    ensures !Changes(Continue(atlas, s, ops[..n]), ops[n], id)
  {
  }

  lemma SameHoldersChain(a: Db, b: Db, c: Db, id: NodeId)
    ensures SameHolders(a, b, id) && SameHolders(b, c, id) ==> SameHolders(a, c, id)
    ensures SameHolders(a, a, id)
  {
  }

  // --- Registrations ------------------------------------------------------------------------------

  /** A registration for a new id, or an upload, as the routes take them. */
  predicate Registers(s: Server, op: Op, id: NodeId) {
    match op
    case Register(node, _, _, place, _, _) => node == id && id !in s.db.nodes && Stated(place)
    case Upload(node, _, _, place, _, files) =>
      node == id && id !in s.db.nodes && Stated(place) && !place.tier.Anon? && files != []
    case _ => false
  }

  /** And no others: a registration of a taken id, or without what its tier asks for, changes nothing at all. */
  lemma OthersAreNotRegistered(atlas: Atlas, s: Server, op: Op)
    requires (op.Register? || op.Upload?) && Consistent(s.db) && !Registers(s, op, op.id)
    ensures Do(atlas, s, op) == s.(clock := s.clock + 1)
  {
    assert ConsistentAt(s.db, op.id);
    PlaceIsMissing(op.place);
    hide Resolve, Consistent, PlaceMissing;
  }

  lemma PlaceIsMissing(place: Place)
    ensures PlaceMissing(place.tier, place.postcode, place.region) <==> !Stated(place)
  {
  }

  /** What a registration stores of the device, the consent and the place. */
  ghost predicate Recorded(atlas: Atlas, op: Op, row: TableRow)
    requires op.Register? || op.Upload?
  {
    && row.node.Some? && row.private.Some?
    && var node, p := row.node.value, op.profile;
       && node.created == p.created && node.deviceType == p.deviceType && node.firmware == p.firmware
       && node.cadenceMs == p.cadenceMs && node.producer == p.producer
       && node.channels == (if op.Register? then op.consent else {"frequency_hz", "voltage_v"})
       && node.locTier == op.place.tier && node.cellId == None && Shows(atlas, op.place, node.locRef)
       && row.private.value.postcode == if op.place.tier.DataShare? then op.place.postcode else None
  }

  lemma RegistrationIsStored(atlas: Atlas, s: Server, op: Op, id: NodeId)
    requires Consistent(s.db) && Registers(s, op, id)
    ensures var db := Do(atlas, s, op).db;
            && Recorded(atlas, op, Row(db, id)) && Live(db, id)
            && GetTokenHash(db, id) == Some(op.token) && GetContributorRef(db, id) == op.account
  {
    assert ConsistentAt(s.db, id);
    PlacesAreCoarse(atlas, op.place.tier, op.place.postcode, op.place.region);
    hide Resolve, PlaceMissing, IsPublished, Consistent;
  }

  /**
   * What a registration is worth, whatever happens later, until the node is erased: its token and no other
   * authenticates as the node, its account and no other owns it and has it listed; and until a change of
   * it takes effect, device, consent and published place are those that were registered.
   */
  lemma ARegistrationHolds(atlas: Atlas, before: seq<Op>, op: Op, after: seq<Op>, id: NodeId)
    requires Registers(Run(atlas, before), op, id)
    ensures var end := Run(atlas, before + [op] + after);
            && id in end.db.nodes
            && (Live(end.db, id) ==>
                  && (forall presented :: Authenticate(end.db, id, presented).0.Some? <==> presented == op.token)
                  && (forall owner :: Owns(end.db, owner, id) <==> op.account == Some(owner))
                  && (forall owner :: id in NodesByContributor(end.db, owner) <==> op.account == Some(owner))
                  && (NoChange(atlas, Run(atlas, before + [op]), after, id) ==> Recorded(atlas, op, Row(end.db, id))))
  {
    var s := Run(atlas, before);
    TablesAgreeInEveryRun(atlas, before);
    RegistrationIsStored(atlas, s, op, id);
    RunSnoc(atlas, before, op);
    RunContinues(atlas, before + [op], after);
    RecordStays(atlas, Run(atlas, before + [op]), after, id);
    TablesAgreeInEveryRun(atlas, before + [op] + after);
    hide Run, Continue, Do, Recorded, NoChange, Registers, Row, Resolve;
    assert ConsistentAt(Run(atlas, before + [op] + after).db, id);
  }

  lemma RunSnoc(atlas: Atlas, ops: seq<Op>, op: Op)
    ensures Run(atlas, ops + [op]) == Do(atlas, Run(atlas, ops), op)
  {
    Snoc(atlas, Boot, ops, op);
    hide Do, Continue;
  }

  // --- Consent changes ----------------------------------------------------------------------------

  /** A change of a node that the server takes on. */
  predicate Asks(s: Server, op: Op, id: NodeId) {
    (op.Patch? || op.AdminPatch?) && op.id == id && Entitled(s.db, op) && (op.to.Some? ==> Stated(op.to.value))
  }

  /** A row staged under a change: the channels and the place it asked for, as far as it asked. */
  ghost predicate Respects(atlas: Atlas, op: Op, r: S.Row)
    requires op.Patch? || op.AdminPatch?
  {
    && (op.channels.Some? ==> r.values.Keys <= op.channels.value)
    && (op.to.Some? ==>
          && (r.tags.locTier == "anon" <==> op.to.value.tier.Anon?)
          && (r.tags.locTier == "region" <==> op.to.value.tier.Region?)
          && (r.tags.locTier == "data_share" <==> op.to.value.tier.DataShare?)
          && Shows(atlas, op.to.value, r.tags.locRef) && (r.kind.Weather? ==> r.tags.cellId == None))
  }

  /** The node record that a change leaves. */
  ghost predicate Agrees(atlas: Atlas, op: Op, node: Node)
    requires op.Patch? || op.AdminPatch?
  {
    && (op.channels.Some? ==> node.channels == op.channels.value)
    && (op.to.Some? ==>
          node.locTier == op.to.value.tier && node.cellId == None && Shows(atlas, op.to.value, node.locRef))
  }

  lemma ChangeTakesEffect(atlas: Atlas, before: seq<Op>, ask: Op, between: seq<Op>, id: NodeId)
    requires Asks(Run(atlas, before), ask, id) && Proceed(|Run(atlas, before).requests|) !in between
    ensures var s := Run(atlas, before + [ask] + between + [Proceed(|Run(atlas, before).requests|)]);
            id in s.db.nodes && Agrees(atlas, ask, s.db.nodes[id])
  {
    var s := Run(atlas, before);
    var i := |s.requests|;
    ChangesAreTakenOn(atlas, s, ask);
    RunSnoc(atlas, before, ask);
    var s1 := Run(atlas, before + [ask]);
    hide Run, Continue, Do, IsPublished;
    RunContinues(atlas, before + [ask], between);
    RunSnoc(atlas, before + [ask] + between, Proceed(i));
    RecordStays(atlas, s1, between, id);
    RequestWaits(atlas, s1, between, i);
    ChangeAt(atlas, Run(atlas, before + [ask] + between), i, id);
  }

  lemma ChangeAt(atlas: Atlas, s: Server, i: nat, id: NodeId)
    requires i < |s.requests| && s.requests[i].Change? && s.requests[i].id == id && id in s.db.nodes
    ensures var r, db := s.requests[i], Do(atlas, s, Proceed(i)).db;
            && id in db.nodes && (r.channels.Some? ==> db.nodes[id].channels == r.channels.value)
            && (r.placement.Some? ==>
                  db.nodes[id].locTier == r.placement.value.tier && db.nodes[id].locRef == r.placement.value.locRef
                  && db.nodes[id].cellId == r.placement.value.cellId)
  {
    UpdateReplacesWhatIsGiven(s.db, id, s.requests[i].channels, s.requests[i].placement);
    hide UpdateConsent;
  }

  /**
   * A change of consent holds. From when it takes effect, and until another change of the node does, every
   * row that is staged for a post or a visit that reads the node meanwhile, however late it is staged,
   * carries no channel outside the set that was asked for, and no place but the one asked for.
   */
  lemma AConsentChangeHolds(atlas: Atlas, before: seq<Op>, ask: Op, between: seq<Op>, during: seq<Op>, later: seq<Op>,
                            id: NodeId, e: Entry)
    requires Asks(Run(atlas, before), ask, id) && Proceed(|Run(atlas, before).requests|) !in between
    requires var effect := before + [ask] + between + [Proceed(|Run(atlas, before).requests|)];
             && NoChange(atlas, Run(atlas, effect), during, id)
             && e in Run(atlas, effect + during + later).staged && e.row.node == id
             && |effect| <= e.since <= |effect| + |during|
    ensures Respects(atlas, ask, e.row)
  {
    hide Continue, Do, Shows, Brought, NoChange, Agrees, Respects, TaggedAs;
    assert ask.Patch? || ask.AdminPatch?;
    var effect := before + [ask] + between + [Proceed(|Run(atlas, before).requests|)];
    ChangeTakesEffect(atlas, before, ask, between, id);
    EveryStagedRowWasConsented(atlas, effect + during + later, e);
    var part := during[..e.since - |effect|];
    assert (effect + during + later)[..e.since] == effect + part;
    hide Run, Asks;
    RunContinues(atlas, effect, part);
    NoChangeSoFar(atlas, Run(atlas, effect), during, e.since - |effect|, id);
    RecordStays(atlas, Run(atlas, effect), part, id);
    RespectsItsNode(atlas, ask, e.row, Run(atlas, effect).db.nodes[id]);
  }

  lemma RespectsItsNode(atlas: Atlas, ask: Op, r: S.Row, node: Node)
    requires (ask.Patch? || ask.AdminPatch?) && Agrees(atlas, ask, node)
    ensures r.values.Keys <= node.channels && TaggedAs(r, node) ==> Respects(atlas, ask, r)
  {
    hide Shows;
  }

  // --- Posts --------------------------------------------------------------------------------------

  /** Each of the samples that was consented to is handed over as a row that says what it says. */
  ghost predicate HandedOver(entries: seq<Entry>, kind: S.Kind, samples: seq<Sample>, channels: set<Channel>,
                             id: NodeId)
  {
    forall s :: s in samples && s.values.Keys <= channels ==> exists e :: e in entries && Says(e.row, kind, s, id)
  }

  /**
   * Consent is no excuse either: a post that came with the node's token hands over, when its turn comes,
   * a row for each of its samples within the consent of the time it came, and no more rows than those.
   */
  lemma APostHandsOverTheConsented(atlas: Atlas, before: seq<Op>, post: Op, between: seq<Op>)
    requires post.Post? && HoldsToken(Run(atlas, before).db, post.id, post.presented)
    requires Proceed(|Run(atlas, before).requests|) !in between
    ensures var s, waiting := Run(atlas, before), Run(atlas, before + [post] + between);
            var end := Run(atlas, before + [post] + between + [Proceed(|s.requests|)]);
            var channels := s.db.nodes[post.id].channels;
            && waiting.staged <= end.staged
            && var entries := end.staged[|waiting.staged|..];
               && HandedOver(entries, S.Electrical, post.electrical, channels, post.id)
               && HandedOver(entries, S.Weather, post.weather, channels, post.id)
               && |entries| == |Consenting(post.electrical, channels)| + |Consenting(post.weather, channels)|
  {
    var s := Run(atlas, before);
    var i := |s.requests|;
    HoldersAreServed(atlas, s, post);
    RunSnoc(atlas, before, post);
    hide Run, Continue, Do, HandedOver, Says;
    RunContinues(atlas, before + [post], between);
    RequestWaits(atlas, Run(atlas, before + [post]), between, i);
    RunSnoc(atlas, before + [post] + between, Proceed(i));
    var waiting := Run(atlas, before + [post] + between);
    PostStages(atlas, waiting, i);
    BringsTheConsented(waiting.requests[i]);
    var entries := Entries(Bringing(waiting.requests[i]), waiting.requests[i].since);
    assert (waiting.staged + entries)[|waiting.staged|..] == entries;
  }

  lemma BringsTheConsented(r: Request)
    requires r.Samples?
    ensures var entries := Entries(Bringing(r), r.since);
            && HandedOver(entries, S.Electrical, r.electrical, r.node.channels, r.id)
            && HandedOver(entries, S.Weather, r.weather, r.node.channels, r.id)
            && |entries| == |Consenting(r.electrical, r.node.channels)| + |Consenting(r.weather, r.node.channels)|
  {
    AdmittedSayTheConsented(S.Electrical, r.electrical, r.id, r.node);
    AdmittedSayTheConsented(S.Weather, r.weather, r.id, r.node);
    AdmittedCount(S.Electrical, r.electrical, r.id, r.node);
    AdmittedCount(S.Weather, r.weather, r.id, r.node);
    hide Admitted, Says, Faithful;
    RowsAreEntries(Admitted(S.Electrical, r.electrical, r.id, r.node), Bringing(r), S.Electrical, r.electrical, r.since,
                   r.id, r.node);
    RowsAreEntries(Admitted(S.Weather, r.weather, r.id, r.node), Bringing(r), S.Weather, r.weather, r.since, r.id,
                   r.node);
  }

  lemma RowsAreEntries(rows: seq<S.Row>, all: seq<S.Row>, kind: S.Kind, samples: seq<Sample>, since: nat, id: NodeId,
                       node: Node)
    requires Complete(rows, kind, samples, id, node) && forall r :: r in rows ==> r in all
    ensures HandedOver(Entries(all, since), kind, samples, node.channels, id)
  {
    hide Says;
    forall s | s in samples && s.values.Keys <= node.channels
      ensures exists e :: e in Entries(all, since) && Says(e.row, kind, s, id)
    {
      var r :| r in rows && Says(r, kind, s, id);
      var n :| 0 <= n < |all| && all[n] == r;
      assert Entries(all, since)[n].row == r;
    }
  }

  // --- Files of a survey --------------------------------------------------------------------------

  lemma {:induction false} ContinueJoins(atlas: Atlas, s: Server, xs: seq<Op>, ys: seq<Op>)
    ensures Continue(atlas, s, xs + ys) == Continue(atlas, Continue(atlas, s, xs), ys)
    decreases |ys|
  {
    hide Do;
    if ys == [] {
      assert xs + ys == xs;
    } else {
      assert Butlast(xs + ys) == xs + Butlast(ys);
      ContinueJoins(atlas, s, xs, Butlast(ys));
    }
  }

  function Proceeds(i: nat, n: nat): (r: seq<Op>)
    ensures |r| == n
  {
    seq(n, _ => Proceed(i))
  }

  lemma FirstProceed(atlas: Atlas, s: Server, i: nat, n: nat)
    ensures Continue(atlas, s, Proceeds(i, n + 1)) == Continue(atlas, Do(atlas, s, Proceed(i)), Proceeds(i, n))
  {
    assert Proceeds(i, n + 1) == [Proceed(i)] + Proceeds(i, n);
    Snoc(atlas, s, [], Proceed(i));
    assert [] + [Proceed(i)] == [Proceed(i)] && Continue(atlas, s, []) == s;
    hide Do, Continue, Proceeds;
    ContinueJoins(atlas, s, [Proceed(i)], Proceeds(i, n));
  }

  function FilesIn(dirs: map<NodeId, set<string>>, id: NodeId): set<string> {
    if id in dirs then dirs[id] else {}
  }

  /** An upload that nothing comes between puts its files and a manifest into the inbox of its node, and no other. */
  lemma {:induction false} AnUploadStoresItsFiles(atlas: Atlas, s: Server, i: nat, id: NodeId, files: seq<string>,
                                                  made: bool)
    requires i < |s.requests| && s.requests[i] == Filling(id, files, made) && (made ==> id in s.inbox)
    ensures var end := Continue(atlas, s, Proceeds(i, |files| + if made then 1 else 2));
            && end.inbox == s.inbox[id := FilesIn(s.inbox, id) + (set f | f in files) + {"manifest.json"}]
            && end.archive == s.archive && end.requests == s.requests[i := Finished] && end.db == s.db
    decreases |files|, if made then 0 else 1
  {
    hide Continue, Do;
    var n := |files| + if made then 0 else 1;
    FirstProceed(atlas, s, i, n);
    NoProceeds(atlas, Do(atlas, s, Proceed(i)), i);
    OneFill(atlas, s, i, id, files, made);
    var s' := Do(atlas, s, Proceed(i));
    if !made {
      assert FilesIn(s'.inbox, id) == FilesIn(s.inbox, id);
      AnUploadStoresItsFiles(atlas, s', i, id, files, true);
    } else if files != [] {
      AnUploadStoresItsFiles(atlas, s', i, id, files[1..], true);
      AddsTheFirst(FilesIn(s.inbox, id), files);
    } else {
      assert FilesIn(s.inbox, id) + (set f | f in files) == FilesIn(s.inbox, id);
    }
  }

  lemma AddsTheFirst(there: set<string>, files: seq<string>)
    requires files != []
    ensures there + {files[0]} + (set f | f in files[1..]) == there + (set f | f in files)
  {
    assert files == [files[0]] + files[1..];
  }

  lemma OneFill(atlas: Atlas, s: Server, i: nat, id: NodeId, files: seq<string>, made: bool)
    requires i < |s.requests| && s.requests[i] == Filling(id, files, made) && (made ==> id in s.inbox)
    ensures var s' := Do(atlas, s, Proceed(i));
            var more := if !made then {} else if files == [] then {"manifest.json"} else {files[0]};
            && s'.inbox == s.inbox[id := FilesIn(s.inbox, id) + more]
            && s'.archive == s.archive && s'.db == s.db
            && s'.requests == s.requests[i := if !made then Filling(id, files, true)
                                              else if files == [] then Finished else Filling(id, files[1..], true)]
  {
    hide Admitted, UpdateConsent;
    assert FilesIn(s.inbox, id) + {} == FilesIn(s.inbox, id);
  }

  lemma NoProceeds(atlas: Atlas, s: Server, i: nat)
    ensures Continue(atlas, s, Proceeds(i, 0)) == s
  {
  }

  /** The files of a node that are stored, waiting or archived. */
  function Stored(s: Server, id: NodeId): set<string> {
    FilesIn(s.inbox, id) + FilesIn(s.archive, id) - {"manifest.json"}
  }

  lemma StepKeepsFiles(atlas: Atlas, s: Server, op: Op, id: NodeId)
    requires Purged(s, id) && Live(s.db, id)
    ensures Live(Do(atlas, s, op).db, id) ==> Stored(s, id) <= Stored(Do(atlas, s, op), id)
  {
    if op.Proceed? {
      FilesOfProceed(s, op.request, id);
      hide TakeEffect;
    } else {
      OtherSteps(atlas, s, op);
      if op.Survey? {
        FilesOfVisit(s, op, id);
        hide WorkSurvey;
      } else {
        hide Do;
      }
    }
  }

  lemma FilesOfProceed(s: Server, i: nat, id: NodeId)
    requires Purged(s, id)
    ensures Stored(s, id) <= Stored(TakeEffect(s, i), id)
  {
    if i < |s.requests| && !s.requests[i].Filling? {
      ProceedChangesOne(s, i);
      hide TakeEffect;
    } else {
      hide Admitted, UpdateConsent;
    }
  }

  lemma FilesOfVisit(s: Server, op: Op, id: NodeId)
    requires op.Survey? && Live(s.db, id)
    ensures Stored(s, id) <= Stored(WorkSurvey(s, op.id, op.rows, op.handled), id)
  {
    hide Admitted;
  }

  /** While a node is not erased, no file of it that is stored is lost: it waits in the inbox, or is in the archive. */
  lemma {:induction false} StoredFilesStay(atlas: Atlas, before: seq<Op>, after: seq<Op>, id: NodeId)
    requires Live(Run(atlas, before).db, id)
    ensures var s, end := Run(atlas, before), Run(atlas, before + after);
            Live(end.db, id) ==> Stored(s, id) <= Stored(end, id)
    decreases |after|
  {
    hide Do, Run, Stored, Erased, Purged;
    if after == [] {
      assert before + after == before;
    } else {
      var front := before + Butlast(after);
      assert before + after == front + [Last(after)];
      StoredFilesStay(atlas, before, Butlast(after), id);
      RunContinues(atlas, before, Butlast(after));
      RecordStays(atlas, Run(atlas, before), Butlast(after), id);
      RunSnoc(atlas, front, Last(after));
      if Live(Run(atlas, before + after).db, id) {
        StepKeepsRecord(atlas, Run(atlas, front), Last(after), id);
        LiveIsPurged(atlas, front, id);
        StepKeepsFiles(atlas, Run(atlas, front), Last(after), id);
      }
    }
  }

  lemma LiveIsPurged(atlas: Atlas, ops: seq<Op>, id: NodeId)
    requires Live(Run(atlas, ops).db, id)
    ensures Purged(Run(atlas, ops), id)
  {
    OnlyErasedArePurged(atlas, ops, id);
    hide Run, Purged;
  }

  /**
   * A file that is not stored yet has no such promise. The worker does not ask whether an upload is over:
   * a visit that can read all that is there removes the inbox, and the upload, which then fails, has
   * stored nothing more.
   */
  lemma AVisitCutsAnUploadShort(atlas: Atlas, id: NodeId, token: string, owner: string, profile: Profile, first: string,
                                second: string, rows: seq<Sample>)
    requires first != second && first != "manifest.json" && second != "manifest.json"
    ensures var upload := Upload(id, token, Some(owner), Place(Region, None, Some("SW")), profile, [first, second]);
            var end := Run(atlas, [upload, Proceed(0)] + [Proceed(0), Survey(id, rows, {first}), Proceed(0)]);
            Live(end.db, id) && end.requests == [Finished] && Stored(end, id) == {first}
  {
    var upload := Upload(id, token, Some(owner), Place(Region, None, Some("SW")), profile, [first, second]);
    var rest := [Proceed(0), Survey(id, rows, {first}), Proceed(0)];
    MakesItsInbox(atlas, upload, id);
    hide Run, Do;
    RunContinues(atlas, [upload, Proceed(0)], rest);
    var s := Run(atlas, [upload, Proceed(0)]);
    ThreeSteps(atlas, s, rest[0], rest[1], rest[2]);
    CutShort(atlas, s, id, first, second, rows);
  }

  lemma MakesItsInbox(atlas: Atlas, upload: Op, id: NodeId)
    requires upload.Upload? && Registers(Boot, upload, id)
    ensures var s := Run(atlas, [upload, Proceed(0)]);
            && Live(s.db, id) && s.requests == [Filling(id, upload.files, true)]
            && s.inbox == map[id := {}] && s.archive == map[]
  {
    Snoc(atlas, Boot, [], upload);
    Snoc(atlas, Boot, [upload], Proceed(0));
    assert [] + [upload] == [upload] && [upload] + [Proceed(0)] == [upload, Proceed(0)];
    assert Consistent(EmptyDb) by {
      TablesAgreeInEveryRun(atlas, []);
    }
    RegistrationIsStored(atlas, Boot, upload, id);
    var s := Do(atlas, Boot, upload);
    assert s.requests == [Filling(id, upload.files, false)];
    hide Registered, Recorded;
  }

  lemma CutShort(atlas: Atlas, s: Server, id: NodeId, first: string, second: string, rows: seq<Sample>)
    requires Live(s.db, id) && s.requests == [Filling(id, [first, second], true)]
    requires s.inbox == map[id := {}] && s.archive == map[] && first != "manifest.json"
    ensures var end := Do(atlas, Do(atlas, Do(atlas, s, Proceed(0)), Survey(id, rows, {first})), Proceed(0));
            Live(end.db, id) && end.requests == [Finished] && Stored(end, id) == {first}
  {
    hide Admitted;
    var s1 := Do(atlas, s, Proceed(0));
    assert s1.inbox[id] == {first} && s1.requests == [Filling(id, [second], true)] && s1.db == s.db;
    var s2 := Do(atlas, s1, Survey(id, rows, {first}));
    assert id !in s2.inbox && FilesIn(s2.archive, id) == {first} && s2.requests == s1.requests && s2.db == s.db;
  }
}
