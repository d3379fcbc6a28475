/** One queued survey and the out-of-band worker that drains it (survey_ingest/survey_ingest.py). */
module Survey {
  import opened Basics
  import opened Registry
  import opened Privacy
  import opened Ingest
  import F = LongFormat
  import S = Staging
  import Z = ServerRuns

  /**
   * What a run makes of one file: rows; nothing yet, because it is PQDIF and there is no converter here;
   * or a row the server's model refuses, which raises. A conversion that fails reads as no rows.
   */
  datatype Reading = Deferred | Rows(rows: seq<Sample>) | Invalid

  type Reader = string -> Reading

  datatype Status = Queued | PqdifPending | Processed

  /** The files still in the inbox directory (None once it is removed), those archived, and the manifest's fields. */
  datatype Dirs = Dirs(inbox: Option<seq<string>>, archive: seq<string>, rowsStaged: nat, status: Status)

  datatype Result = Purged | Pending(accepted: nat) | Completed(accepted: nat) | Errored

  function Deferrals(files: seq<string>, read: Reader): seq<string> {
    if files == [] then []
    else if read(Last(files)).Deferred? then Deferrals(Butlast(files), read) + [Last(files)]
    else Deferrals(Butlast(files), read)
  }

  function Handled(files: seq<string>, read: Reader): seq<string> {
    if files == [] then []
    else if read(Last(files)).Deferred? then Handled(Butlast(files), read)
    else Handled(Butlast(files), read) + [Last(files)]
  }

  /** The rows of the handled files, in file order. */
  function Read(files: seq<string>, read: Reader): seq<Sample> {
    if files == [] then []
    else
      match read(Last(files))
      case Rows(rows) => Read(Butlast(files), read) + rows
      case _ => Read(Butlast(files), read)
  }

  predicate Readable(files: seq<string>, read: Reader) {
    forall f :: f in files ==> !read(f).Invalid?
  }

  /** process_survey as a whole: the directories, the staging state and the result after it. */
  function Process(d: Dirs, staged: S.Staged, size: nat, id: NodeId, node: Option<Node>, read: Reader)
    : (Dirs, S.Staged, Result)
    requires d.inbox.Some?
  {
    var files := d.inbox.value;
    if node.None? then (Dirs(None, [], d.rowsStaged, d.status), staged, Purged)
    else if !Readable(files, read) then (d, staged, Errored)
    else
      var rows := Admitted(S.Electrical, Read(files, read), id, node.value);
      var (staged', outcome) := S.Stage(staged, size, rows);
      match outcome
      case Raised => (d, staged', Errored)
      case Written(accepted, _) =>
        var left, archive := Deferrals(files, read), d.archive + Handled(files, read);
        if left != []
        then (Dirs(Some(left), archive, d.rowsStaged + accepted, PqdifPending), staged', Pending(accepted))
        else (Dirs(None, archive, d.rowsStaged + accepted, Processed), staged', Completed(accepted))
  }

  class Worker {
    const staging: S.StagingWriter
    var dirs: Dirs

    constructor (staging: S.StagingWriter, files: seq<string>)
      ensures this.staging == staging && dirs == Dirs(Some(files), [], 0, Queued)
    {
      this.staging := staging;
      dirs := Dirs(Some(files), [], 0, Queued);
    }

    method ProcessSurvey(id: NodeId, node: Option<Node>, read: Reader) returns (result: Result)
      requires staging.Valid() && dirs.inbox.Some?
      modifies this, staging, staging.dedupe
      ensures staging.Valid()
      ensures (dirs, staging.State(), result)
              == Process(old(dirs), old(staging.State()), staging.dedupe.maxsize, id, node, read)
    {
      hide S.Stage, Deferrals, Handled, Read, Admitted, Readable;
      if node.None? {
        dirs := Dirs(None, [], dirs.rowsStaged, dirs.status);
        return Purged;
      }
      var ok, rows, handled, deferred := Sift(dirs.inbox.value, id, node.value, read);
      if !ok {
        return Errored;
      }
      var outcome := staging.Write(rows);
      if outcome.Raised? {
        return Errored;
      }
      var archive, total := dirs.archive + handled, dirs.rowsStaged + outcome.accepted;
      if deferred != [] {
        dirs := Dirs(Some(deferred), archive, total, PqdifPending);
        return Pending(outcome.accepted);
      }
      dirs := Dirs(None, archive, total, Processed);
      return Completed(outcome.accepted);
    }

    /** The loop over the data files. An invalid row raises out of it. */
    method Sift(files: seq<string>, id: NodeId, node: Node, read: Reader)
      returns (ok: bool, rows: seq<S.Row>, handled: seq<string>, deferred: seq<string>)
      ensures ok == Readable(files, read)
      ensures ok ==> rows == Admitted(S.Electrical, Read(files, read), id, node)
      ensures ok ==> handled == Handled(files, read) && deferred == Deferrals(files, read)
    {
      ok, rows, handled, deferred := true, [], [], [];
      for i := 0 to |files|
        invariant Readable(files[..i], read) && ok
        invariant rows == Admitted(S.Electrical, Read(files[..i], read), id, node)
        invariant handled == Handled(files[..i], read) && deferred == Deferrals(files[..i], read)
      {
        assert Butlast(files[..i + 1]) == files[..i];
        match read(files[i]) {
          case Invalid =>
            ok := false;
            return;
          case Deferred => deferred := deferred + [files[i]];
          case Rows(more) =>
            var kept := KeepConsented(more, id, node);
            AdmittedJoins(Read(files[..i], read), more, id, node);
            rows := rows + kept;
            handled := handled + [files[i]];
        }
      }
      assert files[..|files|] == files;
    }

    method KeepConsented(samples: seq<Sample>, id: NodeId, node: Node) returns (rows: seq<S.Row>)
      ensures rows == Admitted(S.Electrical, samples, id, node)
    {
      rows := [];
      for i := 0 to |samples|
        invariant rows == Admitted(S.Electrical, samples[..i], id, node)
      {
        assert Butlast(samples[..i + 1]) == samples[..i];
        if samples[i].values.Keys <= node.channels {
          rows := rows + [Project(S.Electrical, samples[i], id, node)];
        }
      }
      assert samples[..|samples|] == samples;
    }
  }

  lemma {:induction false} AdmittedJoins(a: seq<Sample>, b: seq<Sample>, id: NodeId, node: Node)
    ensures Admitted(S.Electrical, a + b, id, node) == Admitted(S.Electrical, a, id, node)
            + Admitted(S.Electrical, b, id, node)
    decreases |b|
  {
    if b == [] {
      assert a + b == a;
    } else {
      assert Butlast(a + b) == a + Butlast(b);
      AdmittedJoins(a, Butlast(b), id, node);
    }
  }

  // --- Whole runs of the worker -------------------------------------------------------------------

  /** One scheduled run: what it can read, and whether the process (and with it the dedupe window) is new. */
  datatype Visit = Visit(read: Reader, restarted: bool)

  /** The rows of a file that was handled, and the visit that read them. */
  datatype Offer = Offer(file: string, rows: seq<Sample>, visit: nat)

  /**
   * The directories, staging and what the visits accepted; what they offered, file by file; the rows they
   * handed to the staging writer; and how many there were.
   */
  datatype Progress = Progress(dirs: Dirs, staged: S.Staged, accepted: nat, offers: seq<Offer>, handed: seq<S.Row>,
                               visits: nat)

  function Restarted(s: S.Staged, restarted: bool): S.Staged {
    if restarted then s.(history := []) else s
  }

  function Offers(files: seq<string>, read: Reader, visit: nat): seq<Offer> {
    if files == [] then []
    else
      match read(Last(files))
      case Rows(rows) => Offers(Butlast(files), read, visit) + [Offer(Last(files), rows, visit)]
      case _ => Offers(Butlast(files), read, visit)
  }

  function OneVisit(p: Progress, size: nat, id: NodeId, node: Node, v: Visit): Progress {
    var next := p.(visits := p.visits + 1);
    if p.dirs.inbox.None? then next
    else
      var files := p.dirs.inbox.value;
      var (dirs, staged, result) := Process(p.dirs, Restarted(p.staged, v.restarted), size, id, Some(node), v.read);
      if result.Pending? || result.Completed?
      then next.(dirs := dirs, staged := staged, accepted := p.accepted + result.accepted,
                 offers := p.offers + Offers(files, v.read, p.visits),
                 handed := p.handed + Admitted(S.Electrical, Read(files, v.read), id, node))
      else next.(dirs := dirs, staged := staged)
  }

  function Begun(files: seq<string>, staged: S.Staged): Progress {
    Progress(Dirs(Some(files), [], 0, Queued), staged, 0, [], [], 0)
  }

  function Visits(start: Progress, size: nat, id: NodeId, node: Node, visits: seq<Visit>): Progress {
    if visits == [] then start
    else OneVisit(Visits(start, size, id, node, Butlast(visits)), size, id, node, Last(visits))
  }

  function InboxOf(d: Dirs): seq<string> {
    if d.inbox.Some? then d.inbox.value else []
  }

  /** The positions of the files that a run could not convert, up to one. */
  function Waiting(files: seq<string>, read: Reader, upTo: nat): set<nat> {
    set i: nat | i < upTo && i < |files| && read(files[i]).Deferred?
  }

  /** The inbox keeps as many files as cannot be converted yet. */
  lemma {:induction false} DeferredFilesAreCounted(files: seq<string>, read: Reader)
    ensures |Deferrals(files, read)| == |Waiting(files, read, |files|)|
  {
    if files == [] {
      assert Waiting(files, read, 0) == {};
    } else {
      DeferredFilesAreCounted(Butlast(files), read);
      WaitingGrows(files, read);
      hide Waiting;
    }
  }

  lemma WaitingGrows(files: seq<string>, read: Reader)
    requires files != []
    ensures var front := Butlast(files);
            |Waiting(files, read, |files|)|
            == |Waiting(front, read, |front|)| + if read(Last(files)).Deferred? then 1 else 0
  {
    var front, n := Butlast(files), |files| - 1;
    assert Waiting(files, read, n) == Waiting(front, read, n);
    assert Waiting(files, read, n + 1)
           == if read(files[n]).Deferred? then Waiting(files, read, n) + {n} else Waiting(files, read, n);
  }

  /** And each of those is there, in its place. */
  lemma {:induction false} DeferredFilesStayInPlace(files: seq<string>, read: Reader, i: nat)
    requires i < |files| && read(files[i]).Deferred?
    ensures var n := |Waiting(files, read, i)|; n < |Deferrals(files, read)| && Deferrals(files, read)[n] == files[i]
  {
    var front := Butlast(files);
    assert Waiting(files, read, i) == Waiting(front, read, i);
    if i < |front| {
      DeferredFilesStayInPlace(front, read, i);
    } else {
      DeferredFilesAreCounted(front, read);
    }
  }

  lemma {:induction false} SiftIsPartition(files: seq<string>, read: Reader)
    ensures multiset(Handled(files, read)) + multiset(Deferrals(files, read)) == multiset(files)
    ensures forall f :: f in Deferrals(files, read) ==> f in files && read(f).Deferred?
    ensures forall f :: f in Handled(files, read) ==> f in files && !read(f).Deferred?
  {
    if files != [] {
      SiftIsPartition(Butlast(files), read);
      assert files == Butlast(files) + [Last(files)];
    }
  }

  function FilesOf(offers: seq<Offer>): (r: seq<string>)
    ensures |r| == |offers|
  {
    seq(|offers|, i requires 0 <= i < |offers| => offers[i].file)
  }

  /** The rows of the offers, one file behind the other. */
  function RowsOf(offers: seq<Offer>): seq<Sample> {
    if offers == [] then [] else RowsOf(Butlast(offers)) + Last(offers).rows
  }

  ghost predicate Accounted(p: Progress, files: seq<string>, id: NodeId, node: Node) {
    && multiset(InboxOf(p.dirs)) + multiset(p.dirs.archive) == multiset(files)
    && FilesOf(p.offers) == p.dirs.archive
    && p.handed == Admitted(S.Electrical, RowsOf(p.offers), id, node)
    && p.dirs.rowsStaged == p.accepted
    && (p.dirs.inbox.None? <==> p.dirs.status.Processed?)
    && (p.dirs.inbox.Some? ==> p.dirs.inbox.value != [])
  }

  /** Each offer is what the visit that made it read of its file. */
  ghost predicate OffersWereRead(offers: seq<Offer>, visits: seq<Visit>) {
    forall i :: 0 <= i < |offers| ==>
      offers[i].visit < |visits| && visits[offers[i].visit].read(offers[i].file) == Rows(offers[i].rows)
  }

  lemma {:induction false} RowsOfJoin(a: seq<Offer>, b: seq<Offer>)
    ensures RowsOf(a + b) == RowsOf(a) + RowsOf(b)
    decreases |b|
  {
    hide RowsOf;
    if b == [] {
      assert a + b == a;
      RowsOfOneMore([], Offer("", [], 0));
    } else {
      var front, last := Butlast(b), Last(b);
      assert a + b == a + front + [last] && b == front + [last];
      RowsOfJoin(a, front);
      RowsOfOneMore(a + front, last);
      RowsOfOneMore(front, last);
      ConcatIsAssociative(RowsOf(a), RowsOf(front), last.rows);
    }
  }

  lemma RowsOfOneMore(offers: seq<Offer>, o: Offer)
    ensures RowsOf(offers + [o]) == RowsOf(offers) + o.rows && RowsOf([]) == []
  {
    assert Butlast(offers + [o]) == offers;
  }

  /** The offers of a visit that can read its files: those it handles, with what it reads. */
  lemma {:induction false} OffersAreHandled(files: seq<string>, read: Reader, visit: nat)
    requires Readable(files, read)
    ensures FilesOf(Offers(files, read, visit)) == Handled(files, read)
    ensures RowsOf(Offers(files, read, visit)) == Read(files, read)
    ensures forall o :: o in Offers(files, read, visit) ==> o.visit == visit && read(o.file) == Rows(o.rows)
  {
    if files != [] {
      var front, last := Butlast(files), Last(files);
      assert files == front + [last];
      OffersAreHandled(front, read, visit);
      if read(last).Rows? {
        assert Butlast(Offers(files, read, visit)) == Offers(front, read, visit);
      }
    }
  }

  /** How many rows a visit reads in front of those of file `i`. */
  function RowsBefore(files: seq<string>, read: Reader, i: nat): nat
    requires i <= |files|
  {
    if i == 0 then 0
    else RowsBefore(files, read, i - 1) + if read(files[i - 1]).Rows? then |read(files[i - 1]).rows| else 0
  }

  lemma {:induction false} ReadJoins(a: seq<string>, b: seq<string>, read: Reader)
    ensures Read(a + b, read) == Read(a, read) + Read(b, read)
    decreases |b|
  {
    hide Read;
    if b == [] {
      assert a + b == a;
      ReadOneMore([], "", read);
    } else {
      var front, last := Butlast(b), Last(b);
      assert a + b == a + front + [last] && b == front + [last];
      ReadJoins(a, front, read);
      ReadOneMore(a + front, last, read);
      ReadOneMore(front, last, read);
      ConcatIsAssociative(Read(a, read), Read(front, read), RowsGiven(last, read));
    }
  }

  function RowsGiven(file: string, read: Reader): seq<Sample> {
    if read(file).Rows? then read(file).rows else []
  }

  lemma ReadOneMore(files: seq<string>, file: string, read: Reader)
    ensures Read(files + [file], read) == Read(files, read) + RowsGiven(file, read) && Read([], read) == []
  {
    assert Butlast(files + [file]) == files;
  }

  lemma {:induction false} ReadCount(files: seq<string>, read: Reader, i: nat)
    requires i <= |files|
    ensures |Read(files[..i], read)| == RowsBefore(files, read, i)
  {
    hide Read;
    if i == 0 {
      ReadOneMore([], "", read);
    } else {
      ReadCount(files, read, i - 1);
      assert files[..i] == files[..i - 1] + [files[i - 1]];
      ReadOneMore(files[..i - 1], files[i - 1], read);
    }
  }

  lemma Middle(a: seq<Sample>, b: seq<Sample>, c: seq<Sample>)
    ensures (a + b + c)[|a|..|a| + |b|] == b
  {
  }

  /** What a visit reads: the rows of each file it handles, in their order, files in inbox order, and no others. */
  lemma EachFileIsReadInItsPlace(files: seq<string>, read: Reader, i: nat)
    requires i < |files|
    ensures |Read(files, read)| == RowsBefore(files, read, |files|)
    ensures read(files[i]).Rows? ==>
              var at, rows := RowsBefore(files, read, i), read(files[i]).rows;
              at + |rows| <= |Read(files, read)| && Read(files, read)[at..at + |rows|] == rows
  {
    hide Read, RowsBefore;
    ReadCount(files, read, |files|);
    ReadCount(files, read, i);
    assert files[..|files|] == files && files == files[..i] + [files[i]] + files[i + 1..];
    ReadOneMore(files[..i], files[i], read);
    ReadJoins(files[..i] + [files[i]], files[i + 1..], read);
    Middle(Read(files[..i], read), RowsGiven(files[i], read), Read(files[i + 1..], read));
  }

  /** What a visit moves: on success the handled files, to the end of the archive; otherwise nothing. */
  lemma ProcessMoves(d: Dirs, staged: S.Staged, size: nat, id: NodeId, node: Node, read: Reader)
    requires d.inbox.Some?
    ensures var (dirs, _, result) := Process(d, staged, size, id, Some(node), read);
            if result.Pending? || result.Completed? then
              && InboxOf(dirs) == Deferrals(d.inbox.value, read)
              && dirs.archive == d.archive + Handled(d.inbox.value, read) && Readable(d.inbox.value, read)
              && dirs.rowsStaged == d.rowsStaged + result.accepted
              && (dirs.inbox.None? <==> dirs.status.Processed?) && (dirs.inbox.Some? ==> dirs.inbox.value != [])
            else dirs == d
  {
    hide S.Stage, Admitted, Read, Readable;
  }

  lemma VisitKeepsAccounted(p: Progress, files: seq<string>, size: nat, id: NodeId, node: Node, v: Visit)
    requires Accounted(p, files, id, node)
    ensures Accounted(OneVisit(p, size, id, node, v), files, id, node)
  {
    hide Process, Handled, Deferrals, Offers, RowsOf, Read, Admitted, Readable;
    if p.dirs.inbox.Some? {
      var inbox := p.dirs.inbox.value;
      ProcessMoves(p.dirs, Restarted(p.staged, v.restarted), size, id, node, v.read);
      SiftIsPartition(inbox, v.read);
      var handled, offers := Handled(inbox, v.read), Offers(inbox, v.read, p.visits);
      assert multiset(p.dirs.archive + handled) == multiset(p.dirs.archive) + multiset(handled);
      if Readable(inbox, v.read) {
        OffersAreHandled(inbox, v.read, p.visits);
        RowsOfJoin(p.offers, offers);
        AdmittedJoins(RowsOf(p.offers), Read(inbox, v.read), id, node);
        assert FilesOf(p.offers + offers) == FilesOf(p.offers) + FilesOf(offers);
      }
    }
  }

  lemma VisitReadsItsOffers(p: Progress, size: nat, id: NodeId, node: Node, visits: seq<Visit>, v: Visit)
    requires OffersWereRead(p.offers, visits) && p.visits == |visits|
    ensures var p' := OneVisit(p, size, id, node, v);
            OffersWereRead(p'.offers, visits + [v]) && p'.visits == |visits + [v]|
  {
    hide Process, Offers, Read, Admitted, Readable;
    if p.dirs.inbox.Some? {
      ProcessMoves(p.dirs, Restarted(p.staged, v.restarted), size, id, node, v.read);
      if Readable(p.dirs.inbox.value, v.read) {
        OffersAreHandled(p.dirs.inbox.value, v.read, p.visits);
      }
    }
    assert forall i :: 0 <= i < |visits| ==> (visits + [v])[i] == visits[i];
  }

  /**
   * Resumability. Over any sequence of visits, with the converter present or absent, restarts and
   * unreadable files: inbox and archive together hold exactly the uploaded files, each once; the rows
   * handed to the staging writer are those of the archived files, within the consent, file by file in
   * archive order, each file's as one visit read them and in that visit only; the manifest counts exactly
   * what was accepted; and the inbox goes away exactly when the survey is processed, with nothing deferred
   * and everything archived.
   */
  lemma {:induction false} SurveysAreResumable(files: seq<string>, staged: S.Staged, size: nat, id: NodeId,
                                               node: Node, visits: seq<Visit>)
    requires files != []
    ensures var p := Visits(Begun(files, staged), size, id, node, visits);
            && Accounted(p, files, id, node) && OffersWereRead(p.offers, visits) && p.visits == |visits|
            && (p.dirs.status.Processed? ==> multiset(p.dirs.archive) == multiset(files))
  {
    hide OneVisit, Accounted, OffersWereRead, Begun;
    if visits == [] {
      BegunIsAccounted(files, staged, id, node);
    } else {
      SurveysAreResumable(files, staged, size, id, node, Butlast(visits));
      var p := Visits(Begun(files, staged), size, id, node, Butlast(visits));
      VisitKeepsAccounted(p, files, size, id, node, Last(visits));
      VisitReadsItsOffers(p, size, id, node, Butlast(visits), Last(visits));
      assert visits == Butlast(visits) + [Last(visits)];
    }
    ProcessedIsArchived(Visits(Begun(files, staged), size, id, node, visits), files, id, node);
  }

  lemma BegunIsAccounted(files: seq<string>, staged: S.Staged, id: NodeId, node: Node)
    requires files != []
    ensures var p := Begun(files, staged);
            Accounted(p, files, id, node) && OffersWereRead(p.offers, []) && p.visits == 0
  {
  }

  lemma ProcessedIsArchived(p: Progress, files: seq<string>, id: NodeId, node: Node)
    requires Accounted(p, files, id, node)
    ensures p.dirs.status.Processed? ==> multiset(p.dirs.archive) == multiset(files)
  {
    hide Admitted, RowsOf;
  }

  /** What reaches staging: of each file that a visit handles, the key of every row within the consent is accepted. */
  lemma HandledFilesAreStaged(d: Dirs, staged: S.Staged, size: nat, id: NodeId, node: Node, read: Reader, file: string,
                              s: Sample)
    requires d.inbox.Some? && file in d.inbox.value && read(file).Rows? && s in read(file).rows
    requires s.values.Keys <= node.channels
    ensures var (_, staged', result) := Process(d, staged, size, id, Some(node), read);
            result.Pending? || result.Completed? ==>
              && (exists r :: Says(r, S.Electrical, s, id) && S.KeyOf(r) in staged'.history)
              && |staged'.history| == |staged.history| + result.accepted
  {
    hide *;
    var r := ReadsAndAdmits(d.inbox.value, read, id, node, file, s);
    StageRemembers(staged, size, Admitted(S.Electrical, Read(d.inbox.value, read), id, node));
    ProcessStages(d, staged, size, id, node, read, Admitted(S.Electrical, Read(d.inbox.value, read), id, node));
  }

  /**
   * A visit with a consented row whose timestamp does not parse, if the window lets it through: directories
   * and files stay as they were, but the keys of the visit's rows are remembered.
   */
  lemma ABadTimestampIsRemembered(d: Dirs, staged: S.Staged, size: nat, id: NodeId, node: Node, read: Reader)
    requires d.inbox.Some? && Readable(d.inbox.value, read)
    requires var rows := Admitted(S.Electrical, Read(d.inbox.value, read), id, node);
             !S.Stampable(S.Unique(staged.history, size, rows))
    ensures var (dirs, staged', result) := Process(d, staged, size, id, Some(node), read);
            var rows := Admitted(S.Electrical, Read(d.inbox.value, read), id, node);
            && dirs == d && staged'.files == staged.files && result == Errored
            && forall r :: r in rows ==> S.KeyOf(r) in staged'.history
  {
    hide Admitted, Read, Readable;
    var rows := Admitted(S.Electrical, Read(d.inbox.value, read), id, node);
    S.EveryKeyIsAccepted(staged.history, size, rows);
    hide S.Unique, S.Keys, S.KeyOf, S.Stampable;
  }

  lemma ReadsAndAdmits(files: seq<string>, read: Reader, id: NodeId, node: Node, file: string, s: Sample)
      returns (r: S.Row)
    requires file in files && read(file).Rows? && s in read(file).rows && s.values.Keys <= node.channels
    ensures r in Admitted(S.Electrical, Read(files, read), id, node) && Says(r, S.Electrical, s, id)
  {
    hide *;
    ReadsItsFiles(files, read, file);
    AdmittedSayTheConsented(S.Electrical, Read(files, read), id, node);
    r := CompleteHas(Admitted(S.Electrical, Read(files, read), id, node), Read(files, read), id, node, s);
  }

  lemma CompleteHas(rows: seq<S.Row>, samples: seq<Sample>, id: NodeId, node: Node, s: Sample) returns (r: S.Row)
    requires Complete(rows, S.Electrical, samples, id, node) && s in samples && s.values.Keys <= node.channels
    ensures r in rows && Says(r, S.Electrical, s, id)
  {
    hide Says;
    r :| r in rows && Says(r, S.Electrical, s, id);
  }

  lemma ProcessStages(d: Dirs, staged: S.Staged, size: nat, id: NodeId, node: Node, read: Reader, rows: seq<S.Row>)
    requires d.inbox.Some? && rows == Admitted(S.Electrical, Read(d.inbox.value, read), id, node)
    ensures var (_, staged', result) := Process(d, staged, size, id, Some(node), read);
            var (after, outcome) := S.Stage(staged, size, rows);
            result.Pending? || result.Completed? ==>
              staged' == after && outcome.Written? && outcome.accepted == result.accepted
  {
    hide Admitted, Read, Deferrals, Handled, Readable, S.Stage;
  }

  lemma StageRemembers(staged: S.Staged, size: nat, rows: seq<S.Row>)
    ensures var (staged', outcome) := S.Stage(staged, size, rows);
            && (forall r :: r in rows ==> S.KeyOf(r) in staged'.history)
            && (outcome.Written? ==> |staged'.history| == |staged.history| + outcome.accepted)
  {
    S.EveryKeyIsAccepted(staged.history, size, rows);
    hide S.Unique, S.KeyOf, S.AppendRows, S.Stampable;
  }

  lemma {:induction false} ReadsItsFiles(files: seq<string>, read: Reader, file: string)
    requires file in files && read(file).Rows?
    ensures forall s :: s in read(file).rows ==> s in Read(files, read)
  {
    if Last(files) != file {
      assert files == Butlast(files) + [Last(files)];
      ReadsItsFiles(Butlast(files), read, file);
    }
  }

  function Names(files: seq<string>): set<string> {
    set f | f in files
  }

  /** The server's runs see a survey as sets of names; these are the names of its files, and the manifest. */
  ghost predicate SeenAs(d: Dirs, s: Z.Server, id: NodeId) {
    && (id in s.inbox <==> d.inbox.Some?) && (id in s.inbox ==> s.inbox[id] == Names(d.inbox.value) + {"manifest.json"})
    && (if id in s.archive then s.archive[id] else {}) == Names(d.archive)
  }

  /** A visit that ends well is the step of the worker in the server's runs; so is the purge of a withdrawn survey. */
  lemma AVisitIsAServerStep(d: Dirs, staged: S.Staged, size: nat, id: NodeId, read: Reader, s: Z.Server)
    requires d.inbox.Some? && SeenAs(d, s, id) && "manifest.json" !in d.inbox.value
    ensures var node, files := GetNode(s.db, id), d.inbox.value;
            var (dirs, _, result) := Process(d, staged, size, id, node, read);
            var s' := Z.WorkSurvey(s, id, Read(files, read), Names(Handled(files, read)));
            && (result.Purged? ==> SeenAs(dirs, s', id) && s'.staged == s.staged)
            && (result.Pending? || result.Completed? ==>
                  && SeenAs(dirs, s', id) && node.Some?
                  && s'.staged == s.staged
                                  + Z.Entries(Admitted(S.Electrical, Read(files, read), id, node.value), s.clock))
  {
    var files, node := d.inbox.value, GetNode(s.db, id);
    hide Admitted, Read, Deferrals, Handled, Readable, S.Stage, Names, Z.Entries;
    if node.None? {
      NoNames();
    } else {
      ProcessMoves(d, staged, size, id, node.value, read);
      var (dirs, _, result) := Process(d, staged, size, id, node, read);
      hide Process, SeenAs, Z.WorkSurvey;
      assert result.Purged? ==> false by { OnlyNobodyIsPurged(d, staged, size, id, node.value, read); }
      if result.Pending? || result.Completed? {
        WorkMoves(d, dirs, id, node.value, read, s);
      }
    }
  }

  lemma OnlyNobodyIsPurged(d: Dirs, staged: S.Staged, size: nat, id: NodeId, node: Node, read: Reader)
    requires d.inbox.Some?
    ensures !Process(d, staged, size, id, Some(node), read).2.Purged?
  {
    hide Admitted, Read, Deferrals, Handled, Readable, S.Stage;
  }

  lemma WorkMoves(d: Dirs, dirs: Dirs, id: NodeId, node: Node, read: Reader, s: Z.Server)
    requires d.inbox.Some? && SeenAs(d, s, id) && "manifest.json" !in d.inbox.value && GetNode(s.db, id) == Some(node)
    requires InboxOf(dirs) == Deferrals(d.inbox.value, read) && (dirs.inbox.Some? ==> dirs.inbox.value != [])
    requires dirs.archive == d.archive + Handled(d.inbox.value, read)
    ensures var rows := Read(d.inbox.value, read);
            var s' := Z.WorkSurvey(s, id, rows, Names(Handled(d.inbox.value, read)));
            SeenAs(dirs, s', id) && s'.staged == s.staged + Z.Entries(Admitted(S.Electrical, rows, id, node), s.clock)
  {
    var files := d.inbox.value;
    SiftNames(files, read);
    NamesJoin(d.archive, Handled(files, read));
    hide Admitted, Read, Deferrals, Handled, Names, Z.Entries;
    assert s.inbox[id] - {"manifest.json"} == Names(files) by { NotAmong("manifest.json", files); }
  }

  lemma NotAmong(name: string, files: seq<string>)
    requires name !in files
    ensures Names(files) + {name} - {name} == Names(files)
  {
  }

  lemma NoNames()
    ensures Names([]) == {}
  {
  }

  lemma NamesJoin(a: seq<string>, b: seq<string>)
    ensures Names(a + b) == Names(a) + Names(b)
  {
  }

  lemma SiftNames(files: seq<string>, read: Reader)
    ensures Names(files) - Names(Handled(files, read)) == Names(Deferrals(files, read))
    ensures Names(files) * Names(Handled(files, read)) == Names(Handled(files, read))
    ensures Names(files) <= Names(Handled(files, read)) <==> Deferrals(files, read) == []
  {
    SiftHolds(files, read);
    hide Handled, Deferrals;
    if Deferrals(files, read) != [] {
      assert Deferrals(files, read)[0] in Names(files) && Deferrals(files, read)[0] !in Handled(files, read);
    }
  }

  lemma {:induction false} SiftHolds(files: seq<string>, read: Reader)
    ensures forall f :: f in Handled(files, read) <==> f in files && !read(f).Deferred?
    ensures forall f :: f in Deferrals(files, read) <==> f in files && read(f).Deferred?
  {
    if files != [] {
      assert files == Butlast(files) + [Last(files)];
      SiftHolds(Butlast(files), read);
    }
  }

  /** A visit that can read every file finishes the survey; one that meets an invalid row changes no directory. */
  lemma CompletesExactlyWhenAllIsReadable(d: Dirs, staged: S.Staged, size: nat, id: NodeId, node: Node, read: Reader)
    requires d.inbox.Some? && d.inbox.value != []
    requires S.Stampable(Admitted(S.Electrical, Read(d.inbox.value, read), id, node))
    ensures var (dirs, _, result) := Process(d, staged, size, id, Some(node), read);
            && (result.Completed? <==> forall f :: f in d.inbox.value ==> read(f).Rows?)
            && (result.Errored? <==> exists f :: f in d.inbox.value && read(f).Invalid?)
            && (result.Errored? ==> dirs == d)
            && (result.Completed? ==> dirs.status == Processed && dirs.inbox == None)
            && (result.Pending? ==> dirs.status == PqdifPending && dirs.inbox.Some? && dirs.inbox.value != [])
  {
    var files := d.inbox.value;
    S.EveryKeyIsAccepted(staged.history, size, Admitted(S.Electrical, Read(files, read), id, node));
    NothingDeferred(files, read);
    hide Admitted, Read, S.Unique, Deferrals, Handled;
  }

  lemma {:induction false} NothingDeferred(files: seq<string>, read: Reader)
    ensures Deferrals(files, read) == [] <==> forall f :: f in files ==> !read(f).Deferred?
  {
    if files != [] {
      NothingDeferred(Butlast(files), read);
      assert files == Butlast(files) + [Last(files)];
    }
  }

  // --- Rows of several files ----------------------------------------------------------------------

  /** No two rows have one timestamp and one phase. */
  ghost predicate Apart(rows: seq<S.Row>) {
    forall i, j :: 0 <= i < j < |rows| ==> rows[i].stamp != rows[j].stamp || rows[i].phase != rows[j].phase
  }

  /**
   * When all that a visit reads is staged. The rows of its files go to staging as one batch, and two rows
   * with one timestamp and phase are taken for repeats: a voltage in one file and a frequency in another,
   * say. All are staged if and only if no two are like that, and the window remembers none of their keys.
   */
  lemma AllRowsSurviveExactlyWhenApart(files: seq<string>, read: Reader, id: NodeId, node: Node, history: seq<S.Key>,
                                       size: nat)
    requires |Admitted(S.Electrical, Read(files, read), id, node)| <= size
    ensures var rows := Admitted(S.Electrical, Read(files, read), id, node);
            S.Unique(history, size, rows) == rows <==> Apart(rows) && S.Forgotten(history, size, rows)
  {
    hide S.Unique, S.Forgotten, Read;
    var rows := Admitted(S.Electrical, Read(files, read), id, node);
    AdmittedAreElectrical(Read(files, read), id, node);
    hide Admitted;
    S.KeptWholeExactlyWhenNew(history, size, rows);
    var keys := S.Keys(rows);
    forall i, j | 0 <= i < j < |rows|
      ensures keys[i] == keys[j] <==> rows[i].stamp == rows[j].stamp && rows[i].phase == rows[j].phase
    {
      assert rows[i] in rows && rows[j] in rows;
    }
  }

  lemma {:induction false} AdmittedAreElectrical(samples: seq<Sample>, id: NodeId, node: Node)
    ensures forall r :: r in Admitted(S.Electrical, samples, id, node) ==> r.kind == S.Electrical && r.node == id
  {
    if samples != [] {
      AdmittedAreElectrical(Butlast(samples), id, node);
    }
  }

  // --- Long CSV files -----------------------------------------------------------------------------

  /** The rows that the parser gives for the records of a long CSV file. */
  function ParsedLong(records: seq<F.Rec>): seq<F.ParsedRow> {
    F.Collect(F.Group(records).order, F.Group(records).rows)
  }

  /** A parsed row as the server's row model, timestamps as the parser prints them. */
  function AsSample(row: F.ParsedRow): Sample {
    var frequency: map<Channel, real> := if row.frequency.Some? then map["frequency_hz" := row.frequency.value]
                                         else map[];
    var voltage: map<Channel, real> := if row.voltage.Some? then map["voltage_v" := row.voltage.value] else map[];
    Sample(S.At(row.key.millis * 1000, ""), "device", row.key.phase, voltage + frequency)
  }

  /** What the worker checks of a parsed row is what a request body is checked for. */
  lemma ValidIsAcceptable(row: F.ParsedRow)
    ensures F.Valid(row) <==> Acceptable(S.Electrical, AsSample(row))
  {
    var s := AsSample(row);
    assert "frequency_hz" in s.values <==> row.frequency.Some?;
  }

  function Samples(rows: seq<F.ParsedRow>): (r: seq<Sample>)
    ensures |r| == |rows|
  {
    seq(|rows|, i requires 0 <= i < |rows| => AsSample(rows[i]))
  }

  predicate AllValid(rows: seq<F.ParsedRow>) {
    forall r :: r in rows ==> F.Valid(r)
  }

  /** What a run makes of a long CSV file: its rows, unless the model refuses one. */
  function ReadLong(records: seq<F.Rec>): Reading {
    if AllValid(ParsedLong(records)) then Rows(Samples(ParsedLong(records))) else Invalid
  }

  ghost predicate SoundGroup(g: F.Grouped) {
    && (forall k :: k in g.order ==> k in g.rows)
    && (forall k :: k in g.rows ==> g.rows[k].key == k)
  }

  lemma {:induction false} GroupIsSound(records: seq<F.Rec>)
    ensures SoundGroup(F.Group(records))
  {
    if records != [] {
      GroupIsSound(Butlast(records));
      hide F.SlotOf;
    }
  }

  lemma ParsedIsThere(records: seq<F.Rec>)
    ensures forall r :: r in ParsedLong(records) ==> r.key in F.Group(records).rows && F.Group(records).rows[r.key] == r
  {
    hide F.Group;
    GroupIsSound(records);
    CollectedIsThere(F.Group(records).order, F.Group(records).rows);
  }

  lemma {:induction false} CollectedIsThere(order: seq<F.Key>, rows: map<F.Key, F.ParsedRow>)
    requires forall k :: k in order ==> k in rows && rows[k].key == k
    ensures forall r :: r in F.Collect(order, rows) ==> r.key in rows && rows[r.key] == r
  {
    if order != [] {
      assert order == Butlast(order) + [Last(order)];
      CollectedIsThere(Butlast(order), rows);
    }
  }

  /** A long CSV file is refused exactly when a row it gives has a phase other than the four. */
  lemma InvalidExactlyWithAForeignPhase(records: seq<F.Rec>)
    ensures ReadLong(records).Invalid? <==>
              exists r :: r in ParsedLong(records) && r.key.phase !in {"L1", "L2", "L3", "1p"}
  {
    ParsedIsThere(records);
    hide F.Group, F.Collect;
    forall r | r in ParsedLong(records) ensures F.Valid(r) <==> r.key.phase in {"L1", "L2", "L3", "1p"} {
      F.ParsedRowsAreValid(records, r.key);
    }
    hide F.Valid;
  }

  /**
   * One long CSV file with a foreign phase label stops its whole survey, on this and on every later run:
   * nothing is staged, nothing moves, whatever the other files hold.
   */
  lemma {:induction false} AForeignPhaseStopsTheSurvey(p: Progress, size: nat, id: NodeId, node: Node,
                                                       visits: seq<Visit>,
                                                       file: string, records: seq<F.Rec>, r: F.ParsedRow)
    requires p.dirs.inbox.Some? && file in p.dirs.inbox.value
    requires forall v :: v in visits ==> v.read(file) == ReadLong(records)
    requires r in ParsedLong(records) && r.key.phase !in {"L1", "L2", "L3", "1p"}
    ensures var end := Visits(p, size, id, node, visits);
            end.dirs == p.dirs && end.accepted == p.accepted && end.staged.files == p.staged.files
  {
    InvalidExactlyWithAForeignPhase(records);
    if visits != [] {
      var v := Last(visits);
      assert v in visits && forall w :: w in Butlast(visits) ==> w in visits;
      AForeignPhaseStopsTheSurvey(p, size, id, node, Butlast(visits), file, records, r);
      assert v.read(file).Invalid?;
      hide ReadLong, ParsedLong, S.Stage, Admitted, Read, Deferrals, Handled;
    }
  }

  /** What the converter prints is never refused. */
  lemma ConverterOutputIsRead(all: seq<F.Series>)
    ensures ReadLong(F.AsRecs(F.Printed(all))).Rows?
  {
    hide F.Group, F.Collect, F.Printed, F.AsRecs, F.Valid;
    var records := F.AsRecs(F.Printed(all));
    ParsedIsThere(records);
    forall r | r in ParsedLong(records) ensures F.Valid(r) {
      F.ConverterOutputIsValid(all, r.key);
    }
  }

  /**
   * From the converter to the worker: a cell that some series fills is read as a sample of its time and
   * phase, from a device, that carries the last in-band value printed for it on its channel.
   */
  lemma AConvertedValueIsRead(all: seq<F.Series>, k: F.Key, slot: F.Slot)
    requires slot != F.Neither && exists n, i, l :: 0 <= n < |all| && F.Fills(all[n], i, l, k, slot)
    ensures ReadLong(F.AsRecs(F.Printed(all))).Rows?
    ensures var channel := if slot.Frequency? then "frequency_hz" else "voltage_v";
            var last := F.LastValue(F.Printed(all), k, slot);
            && last.Some?
            && exists s :: s in ReadLong(F.AsRecs(F.Printed(all))).rows
                && s.stamp == S.At(k.millis * 1000, "") && s.phase == k.phase && s.source == "device"
                && channel in s.values && s.values[channel] == last.value
  {
    hide *;
    var lines := F.Printed(all);
    var row := F.ParsedRow(k, F.LastValue(lines, k, F.Voltage), F.LastValue(lines, k, F.Frequency));
    ConverterOutputIsRead(all);
    F.RoundTrip(all, k);
    F.PrintedIsLabelled(all);
    F.OneRowPerFilledKey(lines, k);
    CellIsSampled(F.AsRecs(lines), row, slot);
  }

  lemma CellIsSampled(records: seq<F.Rec>, row: F.ParsedRow, slot: F.Slot)
    requires slot != F.Neither && ReadLong(records).Rows?
    requires F.Filled(row) ==> row in F.Collect(F.Group(records).order, F.Group(records).rows)
    ensures var cell := if slot.Frequency? then row.frequency else row.voltage;
            var channel := if slot.Frequency? then "frequency_hz" else "voltage_v";
            cell.Some? ==>
              exists s :: s in ReadLong(records).rows
                && s.stamp == S.At(row.key.millis * 1000, "") && s.phase == row.key.phase && s.source == "device"
                && channel in s.values && s.values[channel] == cell.value
  {
    hide F.Group, F.Collect;
    if row in ParsedLong(records) {
      var n :| 0 <= n < |ParsedLong(records)| && ParsedLong(records)[n] == row;
      assert Samples(ParsedLong(records))[n] == AsSample(row);
    }
  }
}
