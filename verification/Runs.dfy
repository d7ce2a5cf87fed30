// Runs of serial polls over the persisted cursor, whatever GitHub, Kafka, the disk and
// the context do in each of them.
module Runs {
  import opened Strings
  import opened TaskIds
  import opened Cursors
  import opened Polling
  import opened Logs
  import Fetching

  // ---- one poll and the file -----------------------------------------------

  function MarkersOf(d: Disk): map<string, TaskId> { Loaded(d.file, 0).queuedMarkers }

  function HeadsOf(d: Disk): map<TaskId, string> { Loaded(d.file, 0).headSHAs }

  function BatchOf(cfg: Config, d: Disk, w: World): Option<seq<Item>> {
    if w.unreadable then None else Batch(cfg, Loaded(d.file, w.startTime).lastUpdatedAt, w)
  }

  /** The poll got to its end and its save went through. */
  predicate Saves(cfg: Config, d: Disk, w: World) { BatchOf(cfg, d, w).Some? && w.fault.Fine? }

  /** A poll either saves its whole outcome, or leaves nothing behind that a later poll sees. */
  lemma PollSavesOrForgets(cfg: Config, d: Disk, w: World)
    ensures var r, c := Poll(cfg, d, w), Loaded(d.file, w.startTime);
            && (BatchOf(cfg, d, w).None? ==> r.events == [] && r.disk == d)
            && (BatchOf(cfg, d, w).Some? ==> r.events == Events(cfg, StartMaps(c), BatchOf(cfg, d, w).value))
            && (if Saves(cfg, d, w) then
                  && r.disk.file.Some?
                  && forall t :: Loaded(r.disk.file, t)
                                   == Cursor(Watermark(c.lastUpdatedAt, r.events), RebuiltAfter(r.events),
                                             MarkersAfter(c.queuedMarkers, r.events))
                else r.disk.file == d.file)
  {
    if BatchOf(cfg, d, w).Some? {
      var c, items := Loaded(d.file, w.startTime), BatchOf(cfg, d, w).value;
      MapsFollowTheLog(cfg, c, items);
      if w.fault.Fine? {
        forall t {
          SaveIsAllOrNothing(d, NextCursor(cfg, c, items), 3, t);
        }
      }
    }
  }

  /** Event j of a poll, from the loaded cursor and the poll's log up to it. */
  lemma EventOfPoll(cfg: Config, d: Disk, w: World, j: nat)
    requires j < |Poll(cfg, d, w).events|
    ensures BatchOf(cfg, d, w).Some? && |BatchOf(cfg, d, w).value| == |Poll(cfg, d, w).events|
    ensures Poll(cfg, d, w).events[j].pr == BatchOf(cfg, d, w).value[j].pr.Ref()
    ensures var c, es := Loaded(d.file, w.startTime), Poll(cfg, d, w).events;
            var e := es[j];
            e.Skipped? ||
              (var known := e.id in HeadsAfter(c.headSHAs, es[..j]);
               var marked := MarkerKey(e.pr) in MarkersAfter(c.queuedMarkers, es[..j]);
               && (e.Deduped? <==> known) && (e.Suppressed? <==> !known && marked)
               && (e.Attempts() <==> !known && !marked)
               && (e.id == DeriveTaskID(e.pr, e.sha, false) || e.id == QueuedId(e.pr)))
    ensures Poll(cfg, d, w).events[j].Advances() ==>
              Poll(cfg, d, w).events[j].at == BatchOf(cfg, d, w).value[j].pr.updatedAt
  {
    PollSavesOrForgets(cfg, d, w);
    var c, items := Loaded(d.file, w.startTime), BatchOf(cfg, d, w).value;
    EventAt(cfg, StartMaps(c), items, j);
    MapsFollowTheLog(cfg, c, items[..j]);
  }

  /** What a poll works through is the front part of a complete fetch for the loaded watermark,
      one context check in front of the processing and one in front of each PR. */
  lemma BatchMeans(cfg: Config, d: Disk, w: World)
    ensures var f := FetchFrom(w.search, Loaded(d.file, w.startTime).lastUpdatedAt, 0, 1, w.alive);
            && (BatchOf(cfg, d, w).Some? <==> !w.unreadable && f.Complete? && f.alive > 0)
            && (BatchOf(cfg, d, w).Some? ==>
                  var items := BatchOf(cfg, d, w).value;
                  && |items| == (if |f.prs| < f.alive then |f.prs| else f.alive - 1)
                  && forall i :: 0 <= i < |items| ==> items[i].pr == f.prs[i] && items[i].sent == w.observe(i).sent)
  {
    var f := FetchFrom(w.search, Loaded(d.file, w.startTime).lastUpdatedAt, 0, 1, w.alive);
    if BatchOf(cfg, d, w).Some? { ProcessedPRs(cfg, f.prs, w.observe, f.alive - 1); }
  }

  /** How a poll ends: an error for an unreadable cursor, and for the cycle counter a failed
      search, a batch that was worked through, or, when cancelled in front of it, nothing. */
  lemma PollEnds(cfg: Config, d: Disk, w: World)
    ensures var r, f := Poll(cfg, d, w), FetchFrom(w.search, Loaded(d.file, w.startTime).lastUpdatedAt, 0, 1, w.alive);
            && (r.ok <==> !w.unreadable)
            && (r.cycle == Some("success") <==> BatchOf(cfg, d, w).Some?)
            && (r.cycle == Some("github_error") <==> !w.unreadable && f.SearchFailed?)
            && (r.cycle.None? <==> w.unreadable || f.Cancelled? || (f.Complete? && f.alive == 0))
  {
    assert |"success"| == 7 && |"github_error"| == 12;
  }

  predicate MovesCursor(e: Event) { e.Deduped? || e.Suppressed? || e.Published? }

  /** The saved watermark is the maximum of the old one and of the updated-at of exactly those
      PRs of the batch that were deduped, suppressed or published. */
  lemma SavedWatermarkIsTheMaximum(cfg: Config, d: Disk, w: World, t: Time)
    requires Saves(cfg, d, w)
    ensures |BatchOf(cfg, d, w).value| == |Poll(cfg, d, w).events|
    ensures var since, mark := Loaded(d.file, w.startTime).lastUpdatedAt,
                               Loaded(Poll(cfg, d, w).disk.file, t).lastUpdatedAt;
            var items, es := BatchOf(cfg, d, w).value, Poll(cfg, d, w).events;
            && since <= mark
            && (forall j :: 0 <= j < |es| && MovesCursor(es[j]) ==> items[j].pr.updatedAt <= mark)
            && (mark == since || exists j :: 0 <= j < |es| && MovesCursor(es[j]) && items[j].pr.updatedAt == mark)
  {
    PollSavesOrForgets(cfg, d, w);
    var since, es := Loaded(d.file, w.startTime).lastUpdatedAt, Poll(cfg, d, w).events;
    WatermarkIsTheMaximum(since, es);
    forall j | 0 <= j < |es| && MovesCursor(es[j]) ensures es[j].at == BatchOf(cfg, d, w).value[j].pr.updatedAt {
      EventOfPoll(cfg, d, w, j);
    }
    if j :| 0 <= j < |es| && es[j].Advances() && es[j].at == Watermark(since, es) { assert MovesCursor(es[j]); }
  }

  lemma PollIsReactions(cfg: Config, d: Disk, w: World, j: nat)
    requires j < |Poll(cfg, d, w).events|
    ensures BatchOf(cfg, d, w).Some? && j < |BatchOf(cfg, d, w).value|
    ensures BatchOf(cfg, d, w).value[j].finding == Judge(cfg, BatchOf(cfg, d, w).value[j].pr.Ref(), w.observe(j))
    ensures exists m :: Poll(cfg, d, w).events[j] == React(cfg, m, BatchOf(cfg, d, w).value[j])
  {
    var since := Loaded(d.file, w.startTime).lastUpdatedAt;
    PollSavesOrForgets(cfg, d, w);
    EventAt(cfg, StartMaps(Loaded(d.file, w.startTime)), BatchOf(cfg, d, w).value, j);
    BatchItems(cfg, since, w);
  }

  lemma BatchItems(cfg: Config, since: Time, w: World)
    requires Batch(cfg, since, w).Some?
    ensures forall i :: 0 <= i < |Batch(cfg, since, w).value| ==>
              Batch(cfg, since, w).value[i].finding == Judge(cfg, Batch(cfg, since, w).value[i].pr.Ref(), w.observe(i))
  {
    var f := FetchFrom(w.search, since, 0, 1, w.alive);
    ProcessedPRs(cfg, f.prs, w.observe, f.alive - 1);
  }

  /** A poll whose save failed has never happened for those after it: they send again what
      it sent. One trigger per queued phase needs successful saves. */
  lemma FailedSaveIsRepeated(cfg: Config, d: Disk, w: World, next: World)
    requires !Saves(cfg, d, w)
    ensures Poll(cfg, Poll(cfg, d, w).disk, next).events == Poll(cfg, d, next).events
    ensures Poll(cfg, Poll(cfg, d, w).disk, w).events == Poll(cfg, d, w).events
  {
    PollSavesOrForgets(cfg, d, w);
  }

  /** Saved watermarks never fall. */
  lemma WatermarksRise(cfg: Config, d: Disk, w: World, t: Time)
    requires d.file.Some? && d.file.value.Json?
    ensures Loaded(d.file, t).lastUpdatedAt <= Loaded(Poll(cfg, d, w).disk.file, t).lastUpdatedAt
  {
    PollSavesOrForgets(cfg, d, w);
    WatermarkNeverFalls(Loaded(d.file, t).lastUpdatedAt, Poll(cfg, d, w).events);
  }

  // ---- runs ----------------------------------------------------------------

  function DiskAfter(cfg: Config, d: Disk, ws: seq<World>): Disk {
    if ws == [] then d else Poll(cfg, DiskAfter(cfg, d, ws[..|ws| - 1]), ws[|ws| - 1]).disk
  }

  function LastEvents(cfg: Config, d: Disk, ws: seq<World>): seq<Event>
    requires ws != []
  {
    Poll(cfg, DiskAfter(cfg, d, ws[..|ws| - 1]), ws[|ws| - 1]).events
  }

  predicate LastSaves(cfg: Config, d: Disk, ws: seq<World>)
    requires ws != []
  {
    Saves(cfg, DiskAfter(cfg, d, ws[..|ws| - 1]), ws[|ws| - 1])
  }

  /** The events of all saved polls, in order. */
  function History(cfg: Config, d: Disk, ws: seq<World>): seq<Event> {
    if ws == [] then []
    else
      var before := History(cfg, d, ws[..|ws| - 1]);
      if LastSaves(cfg, d, ws) then before + LastEvents(cfg, d, ws) else before
  }

  /** The events of the latest saved poll. */
  function LatestBatch(cfg: Config, d: Disk, ws: seq<World>): seq<Event> {
    if ws == [] then []
    else if LastSaves(cfg, d, ws) then LastEvents(cfg, d, ws)
    else LatestBatch(cfg, d, ws[..|ws| - 1])
  }

  /** The saved history and, behind it, the last poll, saved or not. */
  function HistoryNow(cfg: Config, d: Disk, ws: seq<World>): seq<Event>
    requires ws != []
  {
    History(cfg, d, ws[..|ws| - 1]) + LastEvents(cfg, d, ws)
  }

  /** All events of a run, of saved polls or not. */
  function AllEvents(cfg: Config, d: Disk, ws: seq<World>): seq<Event> {
    if ws == [] then [] else AllEvents(cfg, d, ws[..|ws| - 1]) + LastEvents(cfg, d, ws)
  }

  ghost predicate ValidWorlds(ws: seq<World>) {
    forall i :: 0 <= i < |ws| ==> Fetching.ValidSearch(ws[i].search)
  }

  /** When no save fails, the history is everything that happened. */
  lemma {:induction false} HistoryIsEverything(cfg: Config, d: Disk, ws: seq<World>)
    requires forall i :: 0 <= i < |ws| ==> ws[i].fault.Fine?
    ensures History(cfg, d, ws) == AllEvents(cfg, d, ws)
  {
    if ws != [] {
      var front := ws[..|ws| - 1];
      HistoryIsEverything(cfg, d, front);
      PollSavesOrForgets(cfg, DiskAfter(cfg, d, front), ws[|ws| - 1]);
    }
  }

  lemma BatchIsValid(cfg: Config, since: Time, w: World)
    requires Fetching.ValidSearch(w.search) && Batch(cfg, since, w).Some?
    ensures forall i :: 0 <= i < |Batch(cfg, since, w).value| ==> Batch(cfg, since, w).value[i].pr.Ref().Valid()
  {
    Fetching.FetchedAreValid(w.search, since, 0, 1, w.alive);
    var f := FetchFrom(w.search, since, 0, 1, w.alive);
    ProcessedPRs(cfg, f.prs, w.observe, f.alive - 1);
  }

  lemma PollEventsAreValid(cfg: Config, d: Disk, w: World)
    requires Fetching.ValidSearch(w.search)
    ensures ValidLog(Poll(cfg, d, w).events)
  {
    forall j | 0 <= j < |Poll(cfg, d, w).events| ensures Poll(cfg, d, w).events[j].pr.Valid() {
      EventOfPoll(cfg, d, w, j);
      BatchIsValid(cfg, Loaded(d.file, w.startTime).lastUpdatedAt, w);
    }
  }

  lemma {:induction false} HistoryIsValid(cfg: Config, d: Disk, ws: seq<World>)
    requires ValidWorlds(ws)
    ensures ValidLog(History(cfg, d, ws))
    ensures ws != [] ==> ValidLog(HistoryNow(cfg, d, ws))
  {
    if ws != [] {
      var front := ws[..|ws| - 1];
      HistoryIsValid(cfg, d, front);
      PollEventsAreValid(cfg, DiskAfter(cfg, d, front), ws[|ws| - 1]);
    }
  }

  /** After any run the file holds what the saved history says. */
  lemma {:induction false} FileIsHistory(cfg: Config, d: Disk, ws: seq<World>)
    ensures MarkersOf(DiskAfter(cfg, d, ws)) == MarkersAfter(MarkersOf(d), History(cfg, d, ws))
    ensures d.file.None? ==> HeadsOf(DiskAfter(cfg, d, ws)) == RebuiltAfter(LatestBatch(cfg, d, ws))
    ensures forall t :: Loaded(DiskAfter(cfg, d, ws).file, t).queuedMarkers == MarkersOf(DiskAfter(cfg, d, ws))
    ensures forall t :: Loaded(DiskAfter(cfg, d, ws).file, t).headSHAs == HeadsOf(DiskAfter(cfg, d, ws))
  {
    if ws != [] {
      var front := ws[..|ws| - 1];
      FileIsHistory(cfg, d, front);
      PollSavesOrForgets(cfg, DiskAfter(cfg, d, front), ws[|ws| - 1]);
      MarkersAfterConcat(MarkersOf(d), History(cfg, d, front), LastEvents(cfg, d, ws));
    }
  }

  // ---- one trigger per queued phase ----------------------------------------

  lemma PollSendsOnlyUnmarked(cfg: Config, d: Disk, w: World)
    ensures SendsOnlyUnmarked(MarkersOf(d), Poll(cfg, d, w).events)
  {
    var es := Poll(cfg, d, w).events;
    forall j | 0 <= j < |es| && es[j].Attempts() ensures MarkerKey(es[j].pr) !in MarkersAfter(MarkersOf(d), es[..j]) {
      EventOfPoll(cfg, d, w, j);
    }
  }

  /** A send is only ever attempted for a PR that is unmarked at that moment. */
  lemma {:induction false} RunSendsOnlyUnmarked(cfg: Config, d: Disk, ws: seq<World>)
    ensures SendsOnlyUnmarked(MarkersOf(d), History(cfg, d, ws))
    ensures ws != [] ==> SendsOnlyUnmarked(MarkersOf(d), HistoryNow(cfg, d, ws))
  {
    if ws != [] {
      var front := ws[..|ws| - 1];
      RunSendsOnlyUnmarked(cfg, d, front);
      FileIsHistory(cfg, d, front);
      PollSendsOnlyUnmarked(cfg, DiskAfter(cfg, d, front), ws[|ws| - 1]);
      SendsOnlyUnmarkedConcat(MarkersOf(d), History(cfg, d, front), LastEvents(cfg, d, ws));
    }
  }

  /** In any run of serial polls: between a successful queued publish of a PR and any later
      attempt to send for it, at whatever head and queued or drained, lies a poll's
      observation that its spec is completed or the PR closed. The publish counts once its
      poll is saved, and within its own poll. */
  lemma OneTriggerPerQueuedPhase(cfg: Config, d: Disk, ws: seq<World>, p: PRRef, i: nat, j: nat)
    requires ValidWorlds(ws) && ws != [] && i < j < |HistoryNow(cfg, d, ws)|
    requires HistoryNow(cfg, d, ws)[i].Arms(p)
    requires HistoryNow(cfg, d, ws)[j].Attempts() && HistoryNow(cfg, d, ws)[j].pr == p
    ensures exists k :: i < k < j && HistoryNow(cfg, d, ws)[k].Drops(p)
  {
    HistoryIsValid(cfg, d, ws);
    RunSendsOnlyUnmarked(cfg, d, ws);
    DropBetween(MarkersOf(d), HistoryNow(cfg, d, ws), p, i, j);
  }

  /** The same over everything that was ever sent, when every save went through. */
  lemma OneTriggerWithSaves(cfg: Config, d: Disk, ws: seq<World>, p: PRRef, i: nat, j: nat)
    requires ValidWorlds(ws) && ws != [] && forall n :: 0 <= n < |ws| - 1 ==> ws[n].fault.Fine?
    requires i < j < |AllEvents(cfg, d, ws)|
    requires AllEvents(cfg, d, ws)[i].Arms(p)
    requires AllEvents(cfg, d, ws)[j].Attempts() && AllEvents(cfg, d, ws)[j].pr == p
    ensures exists k :: i < k < j && AllEvents(cfg, d, ws)[k].Drops(p)
  {
    HistoryIsEverything(cfg, d, ws[..|ws| - 1]);
    OneTriggerPerQueuedPhase(cfg, d, ws, p, i, j);
  }

  /** From a missing file on, the saved markers are exactly the PRs whose latest event among
      queued publish and drop observation is the publish, each under its pinned id. */
  lemma SavedMarkersAreExactlyTheArmedPRs(cfg: Config, d: Disk, ws: seq<World>)
    requires ValidWorlds(ws) && d.file.None?
    ensures var markers, h := MarkersOf(DiskAfter(cfg, d, ws)), History(cfg, d, ws);
            && (forall p: PRRef :: p.Valid() ==> (MarkerKey(p) in markers <==> Armed(h, p)))
            && (forall key :: key in markers ==>
                  exists i :: 0 <= i < |h| && key == MarkerKey(h[i].pr) && markers[key] == QueuedId(h[i].pr))
  {
    var markers, h := MarkersOf(DiskAfter(cfg, d, ws)), History(cfg, d, ws);
    FileIsHistory(cfg, d, ws);
    HistoryIsValid(cfg, d, ws);
    forall p: PRRef | p.Valid() ensures MarkerKey(p) in markers <==> Armed(h, p) {
      MarkersAreHistory(map[], h, p);
    }
    forall key | key in markers
      ensures exists i :: 0 <= i < |h| && key == MarkerKey(h[i].pr) && markers[key] == QueuedId(h[i].pr)
    {
      MarkersComeFromPRs(map[], h, key);
      var i :| 0 <= i < |h| && h[i].Arms(h[i].pr) && key == MarkerKey(h[i].pr);
      MarkersAreHistory(map[], h, h[i].pr);
    }
  }

  // ---- suppression is exactly history --------------------------------------

  /** Why a candidate is sent or not, from the logs alone: deduped if its identifier
      advanced in the latest saved poll or was already published in this one; else
      suppressed if its PR is armed; else an attempt is made. */
  lemma SuppressionIsHistory(cfg: Config, d: Disk, ws: seq<World>, j: nat)
    requires ValidWorlds(ws) && d.file.None? && ws != []
    requires j < |LastEvents(cfg, d, ws)| && !LastEvents(cfg, d, ws)[j].Skipped?
    ensures var front, es := ws[..|ws| - 1], LastEvents(cfg, d, ws);
            var e, h := es[j], History(cfg, d, front) + es[..j];
            var known := AdvancedId(LatestBatch(cfg, d, front), e.id) || PublishedId(es[..j], e.id);
            && (e.Deduped? <==> known)
            && (e.Suppressed? <==> !known && Armed(h, e.pr))
            && (e.Attempts() <==> !known && !Armed(h, e.pr))
  {
    var front, w, es := ws[..|ws| - 1], ws[|ws| - 1], LastEvents(cfg, d, ws);
    var before, past := DiskAfter(cfg, d, front), History(cfg, d, front);
    FileIsHistory(cfg, d, front);
    EventOfPoll(cfg, before, w, j);
    HeadsAreLoadedOrPublished(HeadsOf(before), es[..j], es[j].id);
    RebuiltIsWhatAdvanced(LatestBatch(cfg, d, front), es[j].id);
    MarkersAfterConcat(map[], past, es[..j]);
    HistoryIsValid(cfg, d, ws);
    assert ValidLog(past + es[..j]) && es[j].pr.Valid() by {
      var h := HistoryNow(cfg, d, ws);
      assert past + es[..j] == h[..|past| + j] && h[|past| + j] == es[j];
    }
    MarkersAreHistory(map[], past + es[..j], es[j].pr);
  }

  /** The file holds nothing of p, under any identifier. */
  ghost predicate Forgotten(d: Disk, p: PRRef) {
    MarkerKey(p) !in MarkersOf(d) && forall sha, queued :: DeriveTaskID(p, sha, queued) !in HeadsOf(d)
  }

  predicate NeverAdvances(es: seq<Event>, p: PRRef) {
    forall k :: 0 <= k < |es| && es[k].pr == p ==> !es[k].Advances()
  }

  lemma NeverAdvancesConcat(a: seq<Event>, b: seq<Event>, p: PRRef)
    ensures NeverAdvances(a + b, p) <==> NeverAdvances(a, p) && NeverAdvances(b, p)
  {
    assert forall k :: 0 <= k < |a| ==> (a + b)[k] == a[k];
    assert forall k :: 0 <= k < |b| ==> (a + b)[|a| + k] == b[k];
  }

  lemma UnadvancedPRHasNoHead(cfg: Config, d: Disk, w: World, p: PRRef, sha: string, queued: bool)
    requires Fetching.ValidSearch(w.search) && p.Valid() && NeverAdvances(Poll(cfg, d, w).events, p)
    ensures DeriveTaskID(p, sha, queued) !in RebuiltAfter(Poll(cfg, d, w).events)
  {
    var es, id := Poll(cfg, d, w).events, DeriveTaskID(p, sha, queued);
    RebuiltIsWhatAdvanced(es, id);
    if k :| 0 <= k < |es| && es[k].Advances() && es[k].id == id {
      PollEventsAreValid(cfg, d, w);
      EventOfPoll(cfg, d, w, k);
      DerivedIdsSeparatePRs(p, sha, queued, es[k].pr, es[k].sha, es[k].id == QueuedId(es[k].pr));
      assert false;
    }
  }

  /** A saved poll whose only occurrence of p is a drop leaves nothing of p behind. */
  lemma DropForgets(cfg: Config, d: Disk, w: World, p: PRRef, i: nat)
    requires Fetching.ValidSearch(w.search) && p.Valid() && Saves(cfg, d, w)
    requires i < |Poll(cfg, d, w).events| && Poll(cfg, d, w).events[i].Drops(p)
    requires forall k :: 0 <= k < |Poll(cfg, d, w).events| && k != i ==> Poll(cfg, d, w).events[k].pr != p
    ensures Forgotten(Poll(cfg, d, w).disk, p)
  {
    PollSavesOrForgets(cfg, d, w);
    PollEventsAreValid(cfg, d, w);
    MarkersAreHistory(MarkersOf(d), Poll(cfg, d, w).events, p);
    forall sha, queued ensures DeriveTaskID(p, sha, queued) !in RebuiltAfter(Poll(cfg, d, w).events) {
      UnadvancedPRHasNoHead(cfg, d, w, p, sha, queued);
    }
  }

  /** Polls that miss p, skip it or fail to send for it leave it forgotten. */
  lemma StaysForgotten(cfg: Config, d: Disk, w: World, p: PRRef)
    requires Fetching.ValidSearch(w.search) && p.Valid() && Forgotten(d, p)
    requires NeverAdvances(Poll(cfg, d, w).events, p)
    ensures Forgotten(Poll(cfg, d, w).disk, p)
  {
    PollSavesOrForgets(cfg, d, w);
    PollEventsAreValid(cfg, d, w);
    MarkersAreHistory(MarkersOf(d), Poll(cfg, d, w).events, p);
    forall sha, queued ensures DeriveTaskID(p, sha, queued) !in RebuiltAfter(Poll(cfg, d, w).events) {
      UnadvancedPRHasNoHead(cfg, d, w, p, sha, queued);
    }
  }

  lemma ForgottenIsSent(cfg: Config, d: Disk, w: World, p: PRRef, j: nat)
    requires Fetching.ValidSearch(w.search) && p.Valid() && Forgotten(d, p)
    requires j < |Poll(cfg, d, w).events| && Poll(cfg, d, w).events[j].pr == p && !Poll(cfg, d, w).events[j].Skipped?
    requires NeverAdvances(Poll(cfg, d, w).events[..j], p)
    ensures Poll(cfg, d, w).events[j].Attempts()
  {
    var es := Poll(cfg, d, w).events;
    PollEventsAreValid(cfg, d, w);
    EventOfPoll(cfg, d, w, j);
    MarkersAreHistory(MarkersOf(d), es[..j], p);
    HeadsAreLoadedOrPublished(HeadsOf(d), es[..j], es[j].id);
    if k :| 0 <= k < j && es[..j][k].Published? && es[..j][k].id == es[j].id {
      EventOfPoll(cfg, d, w, k);
      DerivedIdsSeparatePRs(p, es[j].sha, es[j].id == QueuedId(p), es[k].pr, es[k].sha, es[k].id == QueuedId(es[k].pr));
      assert false;
    }
  }

  lemma {:induction false} ForgottenThroughRun(cfg: Config, d: Disk, ws: seq<World>, p: PRRef)
    requires ValidWorlds(ws) && p.Valid() && Forgotten(d, p) && NeverAdvances(AllEvents(cfg, d, ws), p)
    ensures Forgotten(DiskAfter(cfg, d, ws), p)
  {
    if ws != [] {
      var front := ws[..|ws| - 1];
      NeverAdvancesConcat(AllEvents(cfg, d, front), LastEvents(cfg, d, ws), p);
      ForgottenThroughRun(cfg, d, front, p);
      StaysForgotten(cfg, DiskAfter(cfg, d, front), ws[|ws| - 1], p);
    }
  }

  /** A drop re-arms: after a saved poll that only saw p dropped, through any polls that
      miss p, skip it or fail to send for it, p's next candidate event attempts a send. */
  lemma DroppedPRIsSentNext(cfg: Config, d: Disk, drop: World, i: nat, between: seq<World>,
                            next: World, j: nat, p: PRRef)
    requires Fetching.ValidSearch(drop.search) && ValidWorlds(between) && Fetching.ValidSearch(next.search)
    requires p.Valid() && Saves(cfg, d, drop)
    requires i < |Poll(cfg, d, drop).events| && Poll(cfg, d, drop).events[i].Drops(p)
    requires forall k :: 0 <= k < |Poll(cfg, d, drop).events| && k != i ==> Poll(cfg, d, drop).events[k].pr != p
    requires NeverAdvances(AllEvents(cfg, Poll(cfg, d, drop).disk, between), p)
    requires var es := Poll(cfg, DiskAfter(cfg, Poll(cfg, d, drop).disk, between), next).events;
             j < |es| && es[j].pr == p && !es[j].Skipped? && NeverAdvances(es[..j], p)
    ensures Poll(cfg, DiskAfter(cfg, Poll(cfg, d, drop).disk, between), next).events[j].Attempts()
  {
    DropForgets(cfg, d, drop, p, i);
    ForgottenThroughRun(cfg, Poll(cfg, d, drop).disk, between, p);
    ForgottenIsSent(cfg, DiskAfter(cfg, Poll(cfg, d, drop).disk, between), next, p, j);
  }

  /** Within one poll each identifier is sent at most once, duplicates in the batch included. */
  lemma NoIdIsSentTwiceInAPoll(cfg: Config, d: Disk, w: World, i: nat, j: nat)
    requires i < j < |Poll(cfg, d, w).events|
    requires Poll(cfg, d, w).events[i].Published? && Poll(cfg, d, w).events[j].Attempts()
    ensures Poll(cfg, d, w).events[i].id != Poll(cfg, d, w).events[j].id
  {
    var es := Poll(cfg, d, w).events;
    EventOfPoll(cfg, d, w, j);
    HeadsAreLoadedOrPublished(Loaded(d.file, w.startTime).headSHAs, es[..j], es[j].id);
    assert es[..j][i] == es[i];
  }

  // ---- conservation --------------------------------------------------------

  const ZERO := Metrics(0, multiset{}, multiset{}, multiset{})

  /** The counters of a process after a run of polls. */
  function MetricsAfter(cfg: Config, d: Disk, ws: seq<World>): Metrics {
    if ws == [] then ZERO
    else
      var r := Poll(cfg, DiskAfter(cfg, d, ws[..|ws| - 1]), ws[|ws| - 1]);
      CountCycle(CountAll(MetricsAfter(cfg, d, ws[..|ws| - 1]), r.events), r.cycle)
  }

  lemma {:induction false} CountIfConcat(a: seq<Event>, b: seq<Event>, test: Event -> bool)
    ensures CountIf(a + b, test) == CountIf(a, test) + CountIf(b, test)
  {
    if b == [] {
      assert a + b == a;
    } else {
      assert (a + b)[..|a + b| - 1] == a + b[..|b| - 1];
      CountIfConcat(a, b[..|b| - 1], test);
    }
  }

  /** Each skip reason is counted as often as a PR was skipped for it, the marker's for suppressions. */
  lemma {:induction false} SkipsAreConserved(cfg: Config, d: Disk, ws: seq<World>, reason: string)
    ensures MetricsAfter(cfg, d, ws).skipped[reason] == CountIf(AllEvents(cfg, d, ws), SkipsFor(reason))
  {
    if ws != [] {
      var front := ws[..|ws| - 1];
      SkipsAreConserved(cfg, d, front, reason);
      SkipsBalance(MetricsAfter(cfg, d, front), LastEvents(cfg, d, ws), reason);
      CountIfConcat(AllEvents(cfg, d, front), LastEvents(cfg, d, ws), SkipsFor(reason));
    }
  }

  lemma {:induction false} CommandsConcat(a: seq<Event>, b: seq<Event>)
    ensures Commands(a + b) == Commands(a) + Commands(b)
  {
    if b == [] {
      assert a + b == a;
    } else {
      assert (a + b)[..|a + b| - 1] == a + b[..|b| - 1];
      CommandsConcat(a, b[..|b| - 1]);
    }
  }

  lemma CommandOfOne(e: Event)
    ensures Commands([e]) == if e.Published? then [e.command] else []
  {
    assert Commands([e][..0]) == [];
  }

  lemma {:induction false} PublishesAreConserved(cfg: Config, d: Disk, ws: seq<World>)
    ensures MetricsAfter(cfg, d, ws).published["create"] == CountIf(AllEvents(cfg, d, ws), IsDrainedPublish)
    ensures MetricsAfter(cfg, d, ws).published["create_queued"] == CountIf(AllEvents(cfg, d, ws), IsQueuedPublish)
  {
    if ws != [] {
      var front := ws[..|ws| - 1];
      PublishesAreConserved(cfg, d, front);
      PublishKindsBalance(MetricsAfter(cfg, d, front), LastEvents(cfg, d, ws));
      CountIfConcat(AllEvents(cfg, d, front), LastEvents(cfg, d, ws), IsDrainedPublish);
      CountIfConcat(AllEvents(cfg, d, front), LastEvents(cfg, d, ws), IsQueuedPublish);
    }
  }

  /** The polls of a run that worked through a batch, and those whose search failed. */
  function WorkedThrough(cfg: Config, d: Disk, ws: seq<World>): nat {
    if ws == [] then 0
    else
      var front := ws[..|ws| - 1];
      WorkedThrough(cfg, d, front) + if BatchOf(cfg, DiskAfter(cfg, d, front), ws[|ws| - 1]).Some? then 1 else 0
  }

  function SearchesFailed(cfg: Config, d: Disk, ws: seq<World>): nat {
    if ws == [] then 0
    else
      var w := ws[|ws| - 1];
      var since := Loaded(DiskAfter(cfg, d, ws[..|ws| - 1]).file, w.startTime).lastUpdatedAt;
      SearchesFailed(cfg, d, ws[..|ws| - 1])
      + if !w.unreadable && FetchFrom(w.search, since, 0, 1, w.alive).SearchFailed? then 1 else 0
  }

  lemma {:induction false} CyclesAreConserved(cfg: Config, d: Disk, ws: seq<World>)
    ensures MetricsAfter(cfg, d, ws).cycles["success"] == WorkedThrough(cfg, d, ws)
    ensures MetricsAfter(cfg, d, ws).cycles["github_error"] == SearchesFailed(cfg, d, ws)
  {
    if ws != [] {
      var front := ws[..|ws| - 1];
      CyclesAreConserved(cfg, d, front);
      PollEnds(cfg, DiskAfter(cfg, d, front), ws[|ws| - 1]);
      PublishKindsBalance(MetricsAfter(cfg, d, front), LastEvents(cfg, d, ws));
    }
  }

  /** Over any run: every PR scanned was skipped, published, failed to be, or silently
      deduped; the create counters are the accepted commands; nothing is counted twice. */
  lemma {:induction false} OutcomesAreConserved(cfg: Config, d: Disk, ws: seq<World>)
    ensures var m, es := MetricsAfter(cfg, d, ws), AllEvents(cfg, d, ws);
            && m.scanned == |es|
            && m.scanned == |m.skipped| + |m.published| + CountIf(es, IsDedup)
            && m.published[CREATE] + m.published[CREATE_QUEUED] == |Commands(es)|
            && m.published[ERROR] == CountIf(es, IsFailure)
  {
    if ws != [] {
      var front := ws[..|ws| - 1];
      var m, es := MetricsAfter(cfg, d, front), LastEvents(cfg, d, ws);
      OutcomesAreConserved(cfg, d, front);
      ScansBalance(m, es);
      PublishesBalance(m, es);
      CountIfConcat(AllEvents(cfg, d, front), es, IsDedup);
      CountIfConcat(AllEvents(cfg, d, front), es, IsFailure);
      CommandsConcat(AllEvents(cfg, d, front), es);
    }
  }
}
