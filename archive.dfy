/** One archival job (`archiveID`): open the job's log, build the video
    record with its thumbnail URL, skip the ID when its files are already
    present (marking it archived), allocate its storage path, then run the
    four content stages in order.  The first content stage that fails makes
    the job log the error, remove the video's path and return; when all
    succeed the job logs its completion.  A failure to open the log, to
    mark the ID or to allocate the path is fatal.

    The collaborators (checkFiles, markIDsArchived, genPath, parseHTML,
    fetchSubs, writeFiles, downloadThumbnail) are opaque: each is given
    by its outcome and by the file-system entries it leaves behind. */
module Archive {
  import opened Naming

  /** What one opaque stage does: whether it returned nil, and the entries
      it created (on failure, whatever it left half-written). */
  datatype StageResult = StageResult(ok: bool, created: set<string>)

  /** The outcomes of every collaborator for one job. */
  datatype Collaborators = Collaborators(
    logOpened: bool,       // os.OpenFile of the log file succeeded
    present: bool,         // checkFiles returned an error: the files are already there
    markOk: bool,          // markIDsArchived returned nil
    path: string,          // the path genPath stores in the video record
    genPath: StageResult,
    parseHTML: StageResult,
    fetchSubs: StageResult,
    writeFiles: StageResult,
    downloadThumbnail: StageResult)

  /** The calls a job makes, in the order it makes them. `CheckFiles` carries
      the thumbnail URL the video record holds when it is checked. */
  datatype Step =
    | OpenLogFile
    | CheckFiles(thumbnail: string)
    | MarkIDsArchived
    | GenPath
    | ParseHTML
    | FetchSubs
    | WriteFiles
    | DownloadThumbnail
    | RemoveAll(path: string)
    | LogError
    | LogFatal
    | LogCompleted

  /** How a job ends. */
  datatype Outcome = Fatal | Skipped | RolledBack(failed: Step) | Completed

  /** The content stages, in the order archiveID runs them. */
  const ContentStages: seq<Step> := [ParseHTML, FetchSubs, WriteFiles, DownloadThumbnail]

  function ContentResults(c: Collaborators): (rs: seq<StageResult>)
    ensures |rs| == |ContentStages|
  {
    [c.parseHTML, c.fetchSubs, c.writeFiles, c.downloadThumbnail]
  }

  // ---------------------------------------------------------------------------
  // Specification of a job
  // ---------------------------------------------------------------------------

  /** The index in ContentStages of the first content stage that fails, or
      4 when all of them succeed. */
  function FailedAt(c: Collaborators): (k: nat)
    ensures k <= |ContentStages|
    ensures forall j :: 0 <= j < k ==> ContentResults(c)[j].ok
    ensures k < |ContentStages| ==> !ContentResults(c)[k].ok
  {
    if !c.parseHTML.ok then 0
    else if !c.fetchSubs.ok then 1
    else if !c.writeFiles.ok then 2
    else if !c.downloadThumbnail.ok then 3
    else 4
  }

  /** The calls the content stages make: the stages up to the first failure,
      then the error line and the removal of the path; or all four stages
      and the completion line. */
  function ContentSteps(c: Collaborators): (steps: seq<Step>)
    ensures |steps| >= 2 && steps[0] == ParseHTML
    ensures steps[|steps| - 1] == if FailedAt(c) < |ContentStages| then RemoveAll(c.path) else LogCompleted
  {
    var k := FailedAt(c);
    if k < |ContentStages| then ContentStages[..k + 1] + [LogError, RemoveAll(c.path)]
    else ContentStages + [LogCompleted]
  }

  /** The entries created by the content stages that run. */
  function ContentCreated(c: Collaborators): (created: set<string>)
    ensures c.parseHTML.created <= created
    ensures created <= c.parseHTML.created + c.fetchSubs.created + c.writeFiles.created + c.downloadThumbnail.created
  {
    c.parseHTML.created
    + (if c.parseHTML.ok then c.fetchSubs.created else {})
    + (if c.parseHTML.ok && c.fetchSubs.ok then c.writeFiles.created else {})
    + (if c.parseHTML.ok && c.fetchSubs.ok && c.writeFiles.ok then c.downloadThumbnail.created else {})
  }

  /** The calls of the whole job. */
  function JobSteps(id: string, c: Collaborators): (steps: seq<Step>)
    ensures |steps| >= 2 && steps[0] == OpenLogFile
  {
    if !c.logOpened then [OpenLogFile, LogFatal]
    else [OpenLogFile, CheckFiles(ThumbnailUrl(id))]
         + if c.present then [MarkIDsArchived] + (if c.markOk then [] else [LogFatal])
           else [GenPath] + if !c.genPath.ok then [LogFatal] else ContentSteps(c)
  }

  /** How the job ends. */
  function JobOutcome(c: Collaborators): (outcome: Outcome)
    ensures outcome.RolledBack? ==> outcome.failed in ContentStages
    ensures outcome == Skipped ==> c.logOpened && c.present
  {
    if !c.logOpened then Fatal
    else if c.present then (if c.markOk then Skipped else Fatal)
    else if !c.genPath.ok then Fatal
    else if FailedAt(c) < |ContentStages| then RolledBack(ContentStages[FailedAt(c)])
    else Completed
  }

  /** The archived IDs after the job. */
  function ArchivedAfter(id: string, c: Collaborators, archived: set<string>): (after: set<string>)
    ensures archived <= after <= archived + {id}
  {
    if c.logOpened && c.present && c.markOk then archived + {id} else archived
  }

  /** The directory form of a path: the path itself when it already ends in
      `/`, otherwise the path with `/` appended. */
  function DirForm(p: string): (d: string)
    ensures p <= d && d != [] && d[|d| - 1] == '/'
    ensures |d| <= |p| + 1
  {
    if p != [] && p[|p| - 1] == '/' then p else p + "/"
  }

  /** `e` lies under `p` as os.RemoveAll sees it: `e` is `p` itself, or an
      entry inside the directory `p` names.  Entries name directories with a
      trailing `/`.  An empty path removes nothing. */
  predicate Within(e: string, p: string)
    ensures Within(e, p) ==> p != [] && p <= e
  {
    p != [] && (e == p || DirForm(p) <= e)
  }

  /** The entries left after os.RemoveAll(p). */
  function RemoveUnder(entries: set<string>, p: string): (r: set<string>)
    ensures r <= entries
    ensures p == [] ==> r == entries
  {
    set e | e in entries && !Within(e, p)
  }

  /** The file-system entries after the job. */
  function EntriesAfter(c: Collaborators, entries: set<string>): (after: set<string>)
    ensures after <= entries + c.genPath.created + ContentCreated(c)
  {
    if !c.logOpened || c.present then entries
    else if !c.genPath.ok then entries + c.genPath.created
    else
      var written := entries + c.genPath.created + ContentCreated(c);
      if FailedAt(c) < |ContentStages| then RemoveUnder(written, c.path) else written
  }

  // ---------------------------------------------------------------------------
  // Properties of the specification
  // ---------------------------------------------------------------------------

  /** The calls of a job that gets past genPath: the three calls before the
      content stages, then the content stages. */
  lemma PastGenPath(id: string, c: Collaborators)
    requires c.logOpened && !c.present && c.genPath.ok
    ensures JobSteps(id, c) == [OpenLogFile, CheckFiles(ThumbnailUrl(id)), GenPath] + ContentSteps(c)
  {
  }

  /** Every job ends with one of four calls: the fatal log line, the marking
      of a skipped ID, the removal of the video's path, or the completion
      line. */
  lemma JobLastStep(id: string, c: Collaborators)
    ensures JobSteps(id, c)[|JobSteps(id, c)| - 1] in {LogFatal, MarkIDsArchived, RemoveAll(c.path), LogCompleted}
  {
  }

  /** Stage ordering: a content stage runs exactly when the log opened, the
      ID was not present, the path was allocated and every earlier content
      stage succeeded. */
  lemma ContentStageRuns(id: string, c: Collaborators, k: nat)
    requires k < |ContentStages|
    ensures ContentStages[k] in JobSteps(id, c)
            <==> c.logOpened && !c.present && c.genPath.ok
                 && forall j :: 0 <= j < k ==> ContentResults(c)[j].ok
  {
    if c.logOpened && !c.present && c.genPath.ok {
      PastGenPath(id, c);
      var n := FailedAt(c);
      if forall j :: 0 <= j < k ==> ContentResults(c)[j].ok {
        assert k <= n;
        assert JobSteps(id, c)[k + 3] == ContentStages[k];
      } else {
        var j :| 0 <= j < k && !ContentResults(c)[j].ok;
        assert n < k;
        assert ContentStages[k] !in ContentStages[..n + 1];
      }
    }
  }

  /** Rollback: a job rolls back exactly when a content stage failed after
      the path was allocated, and names the first stage that failed. */
  lemma RollbackExactlyOnContentFailure(c: Collaborators)
    ensures JobOutcome(c).RolledBack?
            <==> c.logOpened && !c.present && c.genPath.ok
                 && (!c.parseHTML.ok || !c.fetchSubs.ok || !c.writeFiles.ok || !c.downloadThumbnail.ok)
    ensures JobOutcome(c).RolledBack? ==>
              exists k :: 0 <= k < |ContentStages| && JobOutcome(c).failed == ContentStages[k]
                          && !ContentResults(c)[k].ok
                          && forall j :: 0 <= j < k ==> ContentResults(c)[j].ok
  {
    if JobOutcome(c).RolledBack? {
      var k := FailedAt(c);
      assert JobOutcome(c).failed == ContentStages[k];
    }
  }

  /** The calls of a rolled-back job: those before the content stages, the
      content stages up to the one that failed, the error line and the
      removal of the video's path. */
  lemma RolledBackSteps(id: string, c: Collaborators)
    requires JobOutcome(c).RolledBack?
    ensures FailedAt(c) < |ContentStages|
    ensures JobSteps(id, c) == [OpenLogFile, CheckFiles(ThumbnailUrl(id)), GenPath]
                               + ContentStages[..FailedAt(c) + 1] + [LogError, RemoveAll(c.path)]
  {
    PastGenPath(id, c);
  }

  /** Only a rolled-back job removes anything, and what it removes is the
      video's path; it does so as its last call, right after logging the
      error. */
  lemma RollbackRemovesPath(id: string, c: Collaborators)
    ensures forall p :: RemoveAll(p) in JobSteps(id, c) ==> p == c.path && JobOutcome(c).RolledBack?
    ensures JobOutcome(c).RolledBack? ==>
              JobSteps(id, c)[|JobSteps(id, c)| - 2..] == [LogError, RemoveAll(c.path)]
  {
    if JobOutcome(c).RolledBack? {
      RolledBackSteps(id, c);
      var before := [OpenLogFile, CheckFiles(ThumbnailUrl(id)), GenPath] + ContentStages[..FailedAt(c) + 1];
      assert forall s :: s in before ==> !s.RemoveAll?;
    } else if c.logOpened && !c.present && c.genPath.ok {
      PastGenPath(id, c);
      assert FailedAt(c) == |ContentStages|;
      assert forall s :: s in JobSteps(id, c) ==> !s.RemoveAll?;
    }
  }

  /** The video's path is removed exactly once by a rolled-back job and
      never by any other. */
  lemma RollbackRemovesOnce(id: string, c: Collaborators)
    ensures multiset(JobSteps(id, c))[RemoveAll(c.path)] == if JobOutcome(c).RolledBack? then 1 else 0
  {
    if JobOutcome(c).RolledBack? {
      RolledBackSteps(id, c);
      var before := [OpenLogFile, CheckFiles(ThumbnailUrl(id)), GenPath] + ContentStages[..FailedAt(c) + 1] + [LogError];
      assert forall s :: s in before ==> !s.RemoveAll?;
      assert JobSteps(id, c) == before + [RemoveAll(c.path)];
      CountAfterAbsent(before, RemoveAll(c.path));
    } else {
      RollbackRemovesPath(id, c);
    }
  }

  /** A step appended once to calls that never made it occurs once. */
  lemma CountAfterAbsent(calls: seq<Step>, s: Step)
    requires s !in calls
    ensures multiset(calls + [s])[s] == 1
  {
    assert multiset(calls + [s]) == multiset(calls) + multiset{s};
  }

  /** A fatal job removes nothing and marks nothing; its last call is the
      fatal log line. */
  lemma FatalLeavesNoTrace(id: string, c: Collaborators, archived: set<string>)
    requires JobOutcome(c) == Fatal
    ensures forall p :: RemoveAll(p) !in JobSteps(id, c)
    ensures ArchivedAfter(id, c, archived) == archived
    ensures JobSteps(id, c)[|JobSteps(id, c)| - 1] == LogFatal
  {
  }

  /** Marking: markIDsArchived is called exactly when the files were found
      present, and only a skipped job adds the ID to the archived set. */
  lemma MarkOnlyOnSkip(id: string, c: Collaborators, archived: set<string>)
    ensures MarkIDsArchived in JobSteps(id, c) <==> c.logOpened && c.present
    ensures id !in archived ==> (id in ArchivedAfter(id, c, archived) <==> JobOutcome(c) == Skipped)
    ensures archived <= ArchivedAfter(id, c, archived)
  {
    if c.logOpened && !c.present && c.genPath.ok {
      PastGenPath(id, c);
      var k := FailedAt(c);
      if k < 4 {
        assert MarkIDsArchived !in ContentStages[..k + 1];
      }
    }
  }

  /** Completion: "archiving completed" is logged exactly when the log
      opened, the files were absent and all five stages succeeded. */
  lemma CompletedOnlyWhenAllSucceed(id: string, c: Collaborators)
    ensures LogCompleted in JobSteps(id, c) <==> JobOutcome(c) == Completed
    ensures JobOutcome(c) == Completed
            <==> c.logOpened && !c.present && c.genPath.ok && c.parseHTML.ok
                 && c.fetchSubs.ok && c.writeFiles.ok && c.downloadThumbnail.ok
  {
    if c.logOpened && !c.present && c.genPath.ok {
      PastGenPath(id, c);
      var k := FailedAt(c);
      if k < 4 {
        assert LogCompleted !in ContentStages[..k + 1];
      }
    }
  }

  /** The skip path makes no stage call and writes nothing. */
  lemma SkipWritesNothing(id: string, c: Collaborators, entries: set<string>)
    requires c.logOpened && c.present
    ensures JobSteps(id, c)[..3] == [OpenLogFile, CheckFiles(ThumbnailUrl(id)), MarkIDsArchived]
    ensures forall s :: s in JobSteps(id, c) ==> s !in ContentStages && s != GenPath
    ensures EntriesAfter(c, entries) == entries
  {
  }

  /** RemoveAll on a path without a trailing `/` takes the directory of
      that name and what it holds, and keeps a sibling whose name merely
      starts with the same text. */
  lemma RemoveAllKeepsSiblings()
    ensures RemoveUnder({"a/abc/", "a/abc/x.jpg", "a/abcd/"}, "a/abc") == {"a/abcd/"}
  {
    var p := "a/abc";
    assert DirForm(p) == "a/abc/";
    assert !Within("a/abcd/", p) by {
      assert "a/abcd/"[5] != DirForm(p)[5];
    }
    assert Within("a/abc/x.jpg", p) by {
      assert "a/abc/x.jpg"[..6] == DirForm(p);
    }
  }

  /** Rollback leaves nothing under the video's path, and everything else
      the job found or created stays. */
  lemma RollbackCleansPath(c: Collaborators, entries: set<string>)
    requires JobOutcome(c).RolledBack?
    ensures forall e :: e in EntriesAfter(c, entries) ==> !Within(e, c.path)
    ensures forall e :: e in entries && !Within(e, c.path) ==> e in EntriesAfter(c, entries)
    ensures forall e :: e in c.genPath.created && !Within(e, c.path) ==> e in EntriesAfter(c, entries)
  {
  }

  /** Whatever the outcome, a job removes nothing outside the video's path:
      every entry it found there stays. */
  lemma JobKeepsOutsidePath(c: Collaborators, entries: set<string>)
    ensures forall e :: e in entries && !Within(e, c.path) ==> e in EntriesAfter(c, entries)
  {
  }

  /** The thumbnail URL is set before the first stage looks at the record. */
  lemma ThumbnailSetBeforeStages(id: string, c: Collaborators)
    requires c.logOpened
    ensures JobSteps(id, c)[1] == CheckFiles("http://i3.ytimg.com/vi/" + id + "/maxresdefault.jpg")
  {
  }

  // ---------------------------------------------------------------------------
  // The job itself
  // ---------------------------------------------------------------------------

  /** The part of the video record archiveID uses. */
  class Video {
    var id: string
    var thumbnail: string
    var path: string

    /** `new(Video)` followed by `video.ID = ID`. */
    constructor (id: string)
      ensures this.id == id && thumbnail == "" && path == ""
    {
      this.id := id;
      thumbnail, path := "", "";
    }
  }

  /** The state the jobs share: the archived IDs and the file-system entries,
      and, for the proofs, the calls made so far. */
  class Store {
    var archived: set<string>
    var entries: set<string>
    ghost var trace: seq<Step>

    constructor (archived: set<string>, entries: set<string>)
      ensures this.archived == archived && this.entries == entries && trace == []
    {
      this.archived, this.entries, trace := archived, entries, [];
    }

    /** Opening the shared log file. */
    method OpenLogFile(ok: bool) returns (err: bool)
      modifies this
      ensures err == !ok
      ensures trace == old(trace) + [Step.OpenLogFile]
      ensures archived == old(archived) && entries == old(entries)
    {
      trace := trace + [Step.OpenLogFile];
      err := !ok;
    }

    /** checkFiles: an error means the files are already there. */
    method CheckFiles(video: Video, present: bool) returns (err: bool)
      modifies this
      ensures err == present
      ensures trace == old(trace) + [Step.CheckFiles(video.thumbnail)]
      ensures archived == old(archived) && entries == old(entries)
    {
      trace := trace + [Step.CheckFiles(video.thumbnail)];
      err := present;
    }

    /** markIDsArchived: on success the ID joins the archived set. */
    method MarkIDsArchived(id: string, ok: bool) returns (err: bool)
      modifies this
      ensures err == !ok
      ensures trace == old(trace) + [Step.MarkIDsArchived]
      ensures archived == if ok then old(archived) + {id} else old(archived)
      ensures entries == old(entries)
    {
      trace := trace + [Step.MarkIDsArchived];
      if ok {
        archived := archived + {id};
      }
      err := !ok;
    }

    /** genPath: stores the path in the record and creates entries. */
    method GenPath(video: Video, path: string, r: StageResult) returns (err: bool)
      modifies this, video
      ensures err == !r.ok
      ensures video.path == path && video.id == old(video.id) && video.thumbnail == old(video.thumbnail)
      ensures trace == old(trace) + [Step.GenPath]
      ensures archived == old(archived) && entries == old(entries) + r.created
    {
      video.path := path;
      trace := trace + [Step.GenPath];
      entries := entries + r.created;
      err := !r.ok;
    }

    /** One content stage (parseHTML, fetchSubs, writeFiles or downloadThumbnail). */
    method Stage(s: Step, r: StageResult) returns (err: bool)
      modifies this
      ensures err == !r.ok
      ensures trace == old(trace) + [s]
      ensures archived == old(archived) && entries == old(entries) + r.created
    {
      trace := trace + [s];
      entries := entries + r.created;
      err := !r.ok;
    }

    /** os.RemoveAll(path); its error is ignored by the caller. */
    method RemoveAll(path: string)
      modifies this
      ensures trace == old(trace) + [Step.RemoveAll(path)]
      ensures archived == old(archived) && entries == RemoveUnder(old(entries), path)
    {
      trace := trace + [Step.RemoveAll(path)];
      entries := RemoveUnder(entries, path);
    }

    /** A line of the job's log (`Println`, or `Fatalln` before exiting). */
    method Log(line: Step)
      modifies this
      ensures trace == old(trace) + [line]
      ensures archived == old(archived) && entries == old(entries)
    {
      trace := trace + [line];
    }
  }

  /** One content-stage block of archiveID: run the stage; if it fails, log
      the error and remove the video's path. */
  method ContentStage(store: Store, video: Video, s: Step, r: StageResult) returns (failed: bool)
    modifies store
    ensures failed == !r.ok
    ensures store.trace == old(store.trace) + [s] + (if r.ok then [] else [LogError, RemoveAll(video.path)])
    ensures store.archived == old(store.archived)
    ensures store.entries == if r.ok then old(store.entries) + r.created
                             else RemoveUnder(old(store.entries) + r.created, video.path)
  {
    failed := store.Stage(s, r);
    if failed {
      store.Log(LogError);
      store.RemoveAll(video.path);
    }
  }

  /** The content phase of archiveID, once the path is allocated: the four
      content-stage blocks in order, stopping at the first failure; the
      completion line when none fails. */
  method RunContentStages(store: Store, video: Video, c: Collaborators) returns (outcome: Outcome)
    requires video.path == c.path
    modifies store
    ensures outcome == if FailedAt(c) < |ContentStages| then RolledBack(ContentStages[FailedAt(c)]) else Completed
    ensures store.trace == old(store.trace) + ContentSteps(c)
    ensures store.archived == old(store.archived)
    ensures store.entries == if FailedAt(c) < |ContentStages|
                             then RemoveUnder(old(store.entries) + ContentCreated(c), video.path)
                             else old(store.entries) + ContentCreated(c)
  {
    ContentShape(c);
    ghost var t0, e0 := store.trace, store.entries;
    var err := ContentStage(store, video, ParseHTML, c.parseHTML);
    if err {
      assert store.trace == t0 + [ParseHTML, LogError, RemoveAll(c.path)];
      return RolledBack(ParseHTML);
    }
    err := ContentStage(store, video, FetchSubs, c.fetchSubs);
    if err {
      assert store.trace == t0 + [ParseHTML, FetchSubs, LogError, RemoveAll(c.path)];
      assert e0 + c.parseHTML.created + c.fetchSubs.created == e0 + ContentCreated(c);
      return RolledBack(FetchSubs);
    }
    ghost var e2 := store.entries;
    outcome := RunLastStages(store, video, c);
    assert e2 + LastCreated(c) == e0 + ContentCreated(c);
  }

  /** The calls and entries of the content phase, split at the first two
      stages. */
  lemma ContentShape(c: Collaborators)
    ensures !c.parseHTML.ok ==>
              ContentSteps(c) == [ParseHTML, LogError, RemoveAll(c.path)]
              && ContentCreated(c) == c.parseHTML.created
    ensures c.parseHTML.ok && !c.fetchSubs.ok ==>
              ContentSteps(c) == [ParseHTML, FetchSubs, LogError, RemoveAll(c.path)]
              && ContentCreated(c) == c.parseHTML.created + c.fetchSubs.created
    ensures c.parseHTML.ok && c.fetchSubs.ok ==>
              ContentSteps(c) == [ParseHTML, FetchSubs] + ContentSteps(c)[2..]
              && ContentCreated(c) == c.parseHTML.created + c.fetchSubs.created + LastCreated(c)
  {
    if !c.parseHTML.ok {
      assert ContentStages[..1] == [ParseHTML];
    } else if !c.fetchSubs.ok {
      assert ContentStages[..2] == [ParseHTML, FetchSubs];
    }
  }

  /** The entries writeFiles and downloadThumbnail create when they run. */
  function LastCreated(c: Collaborators): (created: set<string>)
    ensures created <= c.writeFiles.created + c.downloadThumbnail.created
  {
    c.writeFiles.created + if c.writeFiles.ok then c.downloadThumbnail.created else {}
  }

  /** The last two content-stage blocks of archiveID and the completion line,
      once parseHTML and fetchSubs have succeeded. */
  method RunLastStages(store: Store, video: Video, c: Collaborators) returns (outcome: Outcome)
    requires video.path == c.path && c.parseHTML.ok && c.fetchSubs.ok
    modifies store
    ensures outcome == if FailedAt(c) < |ContentStages| then RolledBack(ContentStages[FailedAt(c)]) else Completed
    ensures store.trace == old(store.trace) + ContentSteps(c)[2..]
    ensures store.archived == old(store.archived)
    ensures store.entries == if FailedAt(c) < |ContentStages|
                             then RemoveUnder(old(store.entries) + LastCreated(c), video.path)
                             else old(store.entries) + LastCreated(c)
  {
    ghost var t0 := store.trace;
    var err := ContentStage(store, video, WriteFiles, c.writeFiles);
    if err {
      assert ContentSteps(c)[2..] == [WriteFiles, LogError, RemoveAll(c.path)];
      return RolledBack(WriteFiles);
    }
    err := ContentStage(store, video, DownloadThumbnail, c.downloadThumbnail);
    if err {
      assert ContentSteps(c)[2..] == [WriteFiles, DownloadThumbnail, LogError, RemoveAll(c.path)];
      return RolledBack(DownloadThumbnail);
    }
    store.Log(LogCompleted);
    assert ContentSteps(c)[2..] == [WriteFiles, DownloadThumbnail, LogCompleted];
    return Completed;
  }

  /** archiveID for one ID. A fatal error ends the job at once (the process
      exits: deferred calls do not run). */
  method ArchiveID(id: string, store: Store, c: Collaborators) returns (outcome: Outcome)
    modifies store
    ensures outcome == JobOutcome(c)
    ensures store.trace == old(store.trace) + JobSteps(id, c)
    ensures store.archived == ArchivedAfter(id, c, old(store.archived))
    ensures store.entries == EntriesAfter(c, old(store.entries))
  {
    ghost var t0 := store.trace;
    var err := store.OpenLogFile(c.logOpened);
    if err {
      store.Log(LogFatal);
      return Fatal;
    }

    var video := new Video(id);
    video.thumbnail := ThumbnailUrl(id);

    err := store.CheckFiles(video, c.present);
    if err {
      err := store.MarkIDsArchived(id, c.markOk);
      if err {
        store.Log(LogFatal);
        return Fatal;
      }
      return Skipped;
    }

    err := store.GenPath(video, c.path, c.genPath);
    if err {
      store.Log(LogFatal);
      return Fatal;
    }

    PastGenPath(id, c);
    assert store.trace == t0 + [OpenLogFile, CheckFiles(ThumbnailUrl(id)), GenPath];
    outcome := RunContentStages(store, video, c);
  }
}
