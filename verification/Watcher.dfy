// pkg/watcher.go: the watcher object, which works on the cursor, the counters and the
// command topic in place. Each method is proved to make the step Polling describes.
module Watcher {
  import opened Strings
  import opened TaskIds
  import opened Cursors
  import opened Polling
  import C = Candidate
  import Filename

  /** context.Context as the polling loops use it. */
  class Context {
    var alive: nat

    constructor (alive: nat)
      ensures this.alive == alive
    {
      this.alive := alive;
    }

    method Done() returns (done: bool)
      modifies this
      ensures done <==> old(alive) == 0
      ensures alive == if old(alive) == 0 then 0 else old(alive) - 1
    {
      if alive == 0 {
        return true;
      }
      alive := alive - 1;
      return false;
    }
  }

  /** The newHeadSHAs map under construction. */
  class HeadShaMap {
    var entries: map<TaskId, string>

    constructor ()
      ensures entries == map[]
    {
      entries := map[];
    }
  }

  function MapsOf(cursor: CursorState, newHeadSHAs: HeadShaMap): Maps
    reads cursor, newHeadSHAs
  {
    Maps(cursor.headSHAs, cursor.queuedMarkers, newHeadSHAs.entries)
  }

  method BuildCreateCommand(cfg: Config, p: PRRef, d: PRDetails, id: TaskId) returns (cmd: CreateCommand)
    ensures cmd == CommandFor(cfg, p, d, id)
  {
    var title := Filename.ComputeTaskFilename(
      cfg.lower, "github", p.owner, p.repo, p.number, d.headSHA, d.title,
      cfg.maxSlugLen, cfg.maxTitleLen, cfg.taskSuffix);
    return CreateCommand(title, TargetVault(cfg, p), id, cfg.stage, p.owner + "/" + p.repo,
                         d.headSHA, p.number, d.branch);
  }

  class Watcher {
    const cfg: Config
    const fs: FileSystem
    var metrics: Metrics
    /** The commands Kafka accepted from this process. */
    var outbox: seq<CreateCommand>

    constructor (cfg: Config, fs: FileSystem)
      ensures this.cfg == cfg && this.fs == fs && outbox == []
      ensures metrics == Metrics(0, multiset{}, multiset{}, multiset{})
    {
      this.cfg, this.fs := cfg, fs;
      outbox, metrics := [], Metrics(0, multiset{}, multiset{}, multiset{});
    }

    method FetchAllPRs(ctx: Context, search: Search, since: Time)
      returns (prs: seq<PullRequest>, abortReason: string)
      modifies ctx
      ensures match FetchFrom(search, since, 0, 1, old(ctx.alive))
              case Cancelled => prs == [] && abortReason == "" && ctx.alive == 0
              case SearchFailed(alive) => prs == [] && abortReason == "github_error" && ctx.alive == alive
              case Complete(all, alive) => prs == all && abortReason == "" && ctx.alive == alive
    {
      var page := 1;
      var allPRs: seq<PullRequest> := [];
      var call := 0;
      ghost var whole := FetchFrom(search, since, 0, 1, ctx.alive);
      while true
        invariant whole == Prepend(allPRs, FetchFrom(search, since, call, page, ctx.alive))
        decreases ctx.alive
      {
        var done := ctx.Done();
        if done {
          return [], "";
        }
        var result := search(call, since, page);
        if result.None? {
          return [], "github_error";
        }
        PrependTwice(allPRs, result.value.prs, FetchFrom(search, since, call + 1, result.value.nextPage, ctx.alive));
        allPRs := allPRs + result.value.prs;
        if !result.value.hasNextPage {
          break;
        }
        page := result.value.nextPage;
        call := call + 1;
      }
      return allPRs, "";
    }

    method Publish(p: PRRef, d: PRDetails, id: TaskId, queued: bool, sent: bool) returns (ok: bool)
      modifies this
      ensures ok == sent
      ensures metrics == old(metrics).(published := old(metrics).published
                           + multiset{if sent then PublishedStatus(queued) else "error"})
      ensures outbox == if sent then old(outbox) + [CommandFor(cfg, p, d, id)] else old(outbox)
    {
      var cmd := BuildCreateCommand(cfg, p, d, id);
      if !sent {
        metrics := metrics.(published := metrics.published + multiset{"error"});
        return false;
      }
      outbox := outbox + [cmd];
      metrics := metrics.(published := metrics.published + multiset{PublishedStatus(queued)});
      return true;
    }

    method SkipFor(reason: string)
      modifies this
      ensures metrics == old(metrics).(skipped := old(metrics).skipped + multiset{reason})
      ensures outbox == old(outbox)
    {
      metrics := metrics.(skipped := metrics.skipped + multiset{reason});
    }

    /** Scope filter, details and candidate verdict. */
    method Examine(p: PRRef, obs: Observation) returns (f: Finding)
      ensures f == Judge(cfg, p, obs)
    {
      if cfg.outOfScope(RepoKey(p)) {
        return Skip("out_of_scope");
      }
      if obs.details.None? {
        return Skip("details_error");
      }
      var details := obs.details.value;
      if details.headSHA == "" {
        return Skip("empty_sha");
      }
      var result := C.Evaluate(obs.reader, C.Input(p, details.headSHA, details.isDraft, details.state));
      if result.Failed? {
        return Skip("evaluate_error");
      }
      if result.Rejected? {
        return Skip(result.reason);
      }
      return Candidate(details, result.promptsQueued);
    }

    /** The poll at work, with a watermark. */
    function Now(cursor: CursorState, newHeadSHAs: HeadShaMap, mark: Time): Working
      reads this, cursor, newHeadSHAs
    {
      Working(MapsOf(cursor, newHeadSHAs), mark, metrics, outbox)
    }

    /** The two levels of dedup and the publish; the PR is already counted as scanned. */
    method Dispatch(pr: PullRequest, details: PRDetails, queued: bool, sent: bool,
                    cursor: CursorState, newHeadSHAs: HeadShaMap)
      returns (ok: bool)
      modifies this, cursor, newHeadSHAs
      ensures var e := React(cfg, old(MapsOf(cursor, newHeadSHAs)), Item(pr, Candidate(details, queued), sent));
              && ok == e.Advances()
              && MapsOf(cursor, newHeadSHAs) == Apply(old(MapsOf(cursor, newHeadSHAs)), e)
              && metrics == Count(old(metrics), e).(scanned := old(metrics.scanned))
              && outbox == old(outbox) + CommandOf(e)
      ensures cursor.lastUpdatedAt == old(cursor.lastUpdatedAt)
    {
      var p := pr.Ref();
      var taskId := DeriveTaskID(p, details.headSHA, queued);
      var queuedKey := DeriveTaskID(p, details.headSHA, true);
      if taskId in cursor.headSHAs {
        newHeadSHAs.entries := newHeadSHAs.entries[taskId := details.headSHA];
        return true;
      }
      if MarkerKey(p) in cursor.queuedMarkers {
        SkipFor(QUEUED_MARKER);
        newHeadSHAs.entries := newHeadSHAs.entries[taskId := details.headSHA];
        return true;
      }
      var published := Publish(p, details, taskId, queued, sent);
      if published {
        cursor.headSHAs := cursor.headSHAs[taskId := details.headSHA];
        newHeadSHAs.entries := newHeadSHAs.entries[taskId := details.headSHA];
        if queued {
          cursor.queuedMarkers := cursor.queuedMarkers[MarkerKey(p) := queuedKey];
        }
        return true;
      }
      return false;
    }

    /** A completed spec or a closed PR ends the queued phase: its marker goes. */
    method Reject(p: PRRef, reason: string, cursor: CursorState, newHeadSHAs: HeadShaMap)
      modifies this, cursor
      ensures var e := Skipped(p, reason);
              && MapsOf(cursor, newHeadSHAs) == Apply(old(MapsOf(cursor, newHeadSHAs)), e)
              && metrics == Count(old(metrics), e).(scanned := old(metrics.scanned))
              && outbox == old(outbox)
      ensures cursor.lastUpdatedAt == old(cursor.lastUpdatedAt)
    {
      if reason == C.NO_SPEC || reason == C.NOT_OPEN {
        cursor.queuedMarkers := cursor.queuedMarkers - {MarkerKey(p)};
      }
      SkipFor(reason);
    }

    /** Answers the PR's updated-at when the cursor advances. mark is the watermark so far. */
    method ProcessPR(pr: PullRequest, obs: Observation, cursor: CursorState, newHeadSHAs: HeadShaMap, ghost mark: Time)
      returns (updatedAt: Time, ok: bool)
      modifies this, cursor, newHeadSHAs
      ensures Now(cursor, newHeadSHAs, if ok then Max(mark, updatedAt) else mark)
           == Step(cfg, old(Now(cursor, newHeadSHAs, mark)), ItemOf(cfg, pr, obs))
      ensures ok ==> updatedAt == pr.updatedAt
      ensures cursor.lastUpdatedAt == old(cursor.lastUpdatedAt)
    {
      ghost var before := Now(cursor, newHeadSHAs, mark);
      metrics := metrics.(scanned := metrics.scanned + 1);
      var finding := Examine(pr.Ref(), obs);
      ghost var e := React(cfg, before.maps, Item(pr, finding, obs.sent));
      if finding.Skip? {
        Reject(pr.Ref(), finding.reason, cursor, newHeadSHAs);
        updatedAt, ok := 0, false;
        assert outbox == before.sent + CommandOf(e);
      } else {
        ok := Dispatch(pr, finding.details, finding.queued, obs.sent, cursor, newHeadSHAs);
        updatedAt := if ok then pr.updatedAt else 0;
      }
      assert MapsOf(cursor, newHeadSHAs) == Apply(before.maps, e) && ok == e.Advances();
      assert metrics == Count(before.counts, e);
      assert Now(cursor, newHeadSHAs, if ok then Max(mark, updatedAt) else mark) == Record(before, e);
    }

    method ProcessPRs(ctx: Context, cursor: CursorState, allPRs: seq<PullRequest>, observe: nat -> Observation)
      returns (maxUpdatedAt: Time)
      modifies this, ctx, cursor
      ensures var before := Working(StartMaps(old(cursor.Value())), old(cursor.lastUpdatedAt),
                                    old(metrics), old(outbox));
              var after := Steps(cfg, before, Processed(cfg, allPRs, observe, old(ctx.alive)));
              && cursor.headSHAs == after.maps.rebuilt
              && cursor.queuedMarkers == after.maps.markers
              && maxUpdatedAt == after.mark
              && metrics == after.counts
              && outbox == after.sent
      ensures cursor.lastUpdatedAt == old(cursor.lastUpdatedAt)
    {
      maxUpdatedAt := cursor.lastUpdatedAt;
      var newHeadSHAs := new HeadShaMap();
      ghost var alive, before := ctx.alive, Now(cursor, newHeadSHAs, maxUpdatedAt);
      ghost var items: seq<Item> := [];
      for i := 0 to |allPRs|
        invariant fresh(newHeadSHAs)
        invariant i <= alive && ctx.alive == alive - i
        invariant items == Processed(cfg, allPRs[..i], observe, alive)
        invariant Now(cursor, newHeadSHAs, maxUpdatedAt) == Steps(cfg, before, items)
        invariant cursor.lastUpdatedAt == old(cursor.lastUpdatedAt)
      {
        ProcessedStep(cfg, allPRs, observe, alive, i);
        var done := ctx.Done();
        if done {
          cursor.headSHAs := newHeadSHAs.entries;
          return;
        }
        StepsSnoc(cfg, before, items, ItemOf(cfg, allPRs[i], observe(i)));
        ghost var mark := maxUpdatedAt;
        var updatedAt, ok := ProcessPR(allPRs[i], observe(i), cursor, newHeadSHAs, mark);
        if ok {
          if updatedAt > maxUpdatedAt {
            maxUpdatedAt := updatedAt;
          }
        }
        assert maxUpdatedAt == if ok then Max(mark, updatedAt) else mark;
        items := items + [ItemOf(cfg, allPRs[i], observe(i))];
      }
      assert allPRs[..|allPRs|] == allPRs;
      cursor.headSHAs := newHeadSHAs.entries;
    }

    method Poll(w: World) returns (ok: bool)
      modifies this, fs
      ensures var r := Polling.Poll(cfg, old(fs.disk), w);
              && ok == r.ok
              && fs.disk == r.disk
              && metrics == CountCycle(CountAll(old(metrics), r.events), r.cycle)
              && outbox == old(outbox) + Commands(r.events)
    {
      var ctx := new Context(w.alive);
      var loaded := LoadCursor(fs, w.unreadable, w.startTime);
      if loaded.None? {
        PollGivesUp(cfg, fs.disk, w);
        return false;
      }
      var cursor := loaded.value;
      var allPRs, abortReason := FetchAllPRs(ctx, w.search, cursor.lastUpdatedAt);
      if abortReason != "" {
        PollGivesUp(cfg, fs.disk, w);
        metrics := metrics.(cycles := metrics.cycles + multiset{abortReason});
        return true;
      }
      var done := ctx.Done();
      if done {
        PollGivesUp(cfg, fs.disk, w);
        return true;
      }
      Finish(ctx, cursor, allPRs, w);
      return true;
    }

    /** A poll behind a complete fetch in a context still alive. */
    method Finish(ctx: Context, cursor: CursorState, allPRs: seq<PullRequest>, w: World)
      requires !w.unreadable && cursor.Value() == Loaded(fs.disk.file, w.startTime)
      requires FetchFrom(w.search, cursor.lastUpdatedAt, 0, 1, w.alive) == Complete(allPRs, ctx.alive + 1)
      modifies this, fs, ctx, cursor
      ensures var r := Polling.Poll(cfg, old(fs.disk), w);
              && r.ok
              && fs.disk == r.disk
              && metrics == CountCycle(CountAll(old(metrics), r.events), r.cycle)
              && outbox == old(outbox) + Commands(r.events)
    {
      PollWorks(cfg, fs.disk, w, metrics, outbox, allPRs, ctx.alive);
      Work(ctx, cursor, allPRs, w.observe, w.fault);
      metrics := metrics.(cycles := metrics.cycles + multiset{"success"});
    }

    /** The part of a poll behind the fetch: process the batch, raise the watermark, save. */
    method Work(ctx: Context, cursor: CursorState, allPRs: seq<PullRequest>, observe: nat -> Observation,
                fault: SaveFault)
      modifies this, fs, ctx, cursor
      ensures var before := Working(StartMaps(old(cursor.Value())), old(cursor.lastUpdatedAt),
                                    old(metrics), old(outbox));
              var after := Steps(cfg, before, Processed(cfg, allPRs, observe, old(ctx.alive)));
              && metrics == after.counts
              && outbox == after.sent
              && fs.disk == AfterSaveSteps(old(fs.disk),
                   Cursor(Max(old(cursor.lastUpdatedAt), after.mark), after.maps.rebuilt, after.maps.markers),
                   StepsDone(fault))
    {
      var maxUpdatedAt := ProcessPRs(ctx, cursor, allPRs, observe);
      if maxUpdatedAt > cursor.lastUpdatedAt {
        cursor.lastUpdatedAt := maxUpdatedAt;
      }
      var saved := SaveCursor(fs, cursor, fault);
    }
  }
}
