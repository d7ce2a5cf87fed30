// Is a pull request whose send failed met again? The promise of pkg/watcher.go:142-147
// against the query of pkg/githubclient.go:134-139.
module Retry {
  import opened Strings
  import opened TaskIds
  import opened Cursors
  import opened Polling
  import opened Logs
  import opened Scenes
  import Runs

  /** GitHub answers "updated:>=since" truthfully: however a search is cut into pages, a
      complete one finds of the listed PRs those that the query is about, and no others. */
  ghost predicate TruthfulSearch(search: Search, listed: seq<PullRequest>) {
    forall since, alive ::
      var f := FetchFrom(search, since, 0, 1, alive);
      f.Complete? ==> forall pr :: pr in f.prs <==> pr in listed && QueryFinds(since, pr.updatedAt)
  }

  predicate InBatch(batch: Option<seq<Item>>, pr: PullRequest) {
    batch.Some? && exists i :: 0 <= i < |batch.value| && batch.value[i].pr == pr
  }

  /** The poll gets through its search and its whole batch. */
  predicate Finishes(d: Disk, w: World) {
    && !w.unreadable
    && var f := FetchFrom(w.search, Loaded(d.file, w.startTime).lastUpdatedAt, 0, 1, w.alive);
    && f.Complete? && f.alive > |f.prs|
  }

  lemma BatchIsFetched(cfg: Config, d: Disk, w: World, listed: seq<PullRequest>, pr: PullRequest)
    requires TruthfulSearch(w.search, listed)
    ensures var found := pr in listed && QueryFinds(Loaded(d.file, w.startTime).lastUpdatedAt, pr.updatedAt);
            && (InBatch(Runs.BatchOf(cfg, d, w), pr) ==> found)
            && (Finishes(d, w) && found ==> InBatch(Runs.BatchOf(cfg, d, w), pr))
  {
    var since := Loaded(d.file, w.startTime).lastUpdatedAt;
    var f := FetchFrom(w.search, since, 0, 1, w.alive);
    if !w.unreadable && f.Complete? && f.alive > 0 {
      var items := Processed(cfg, f.prs, w.observe, f.alive - 1);
      ProcessedPRs(cfg, f.prs, w.observe, f.alive - 1);
      assert Runs.BatchOf(cfg, d, w) == Some(items);
      if i :| 0 <= i < |items| && items[i].pr == pr { assert pr == f.prs[i]; }
      if pr in f.prs && f.alive > |f.prs| {
        var i :| 0 <= i < |f.prs| && f.prs[i] == pr;
        assert items[i].pr == pr;
      }
    }
  }

  /** A PR of the batch that the poll deduped, suppressed or published was updated in a later
      second than pr. */
  predicate Overtaken(cfg: Config, d: Disk, w: World, pr: PullRequest)
    requires Runs.Saves(cfg, d, w)
  {
    var items, es := Runs.BatchOf(cfg, d, w).value, Poll(cfg, d, w).events;
    exists j :: && 0 <= j < |items| && j < |es| && (es[j].Deduped? || es[j].Suppressed? || es[j].Published?)
                && ToSecond(items[j].pr.updatedAt) > pr.updatedAt
  }

  lemma OvertakenIff(cfg: Config, d: Disk, w: World, pr: PullRequest)
    requires Runs.Saves(cfg, d, w)
    ensures var es := Poll(cfg, d, w).events;
            Overtaken(cfg, d, w, pr) <==>
            exists i :: 0 <= i < |es| && es[i].Advances() && ToSecond(es[i].at) > pr.updatedAt
  {
    var items, es := Runs.BatchOf(cfg, d, w).value, Poll(cfg, d, w).events;
    forall j | 0 <= j < |es|
      ensures |items| == |es| && (es[j].Advances() ==> es[j].at == items[j].pr.updatedAt)
    {
      Runs.EventOfPoll(cfg, d, w, j);
    }
    if i :| 0 <= i < |es| && es[i].Advances() && ToSecond(es[i].at) > pr.updatedAt {
      assert ToSecond(items[i].pr.updatedAt) > pr.updatedAt;
    }
  }

  /** A PR that a saved poll's query was about, whatever came of it there, processed or cut off
      by a cancellation, and that is still listed and has not changed: the next poll that gets
      to its end meets it exactly if nothing that advanced in the saved poll was updated in a
      later second; and no other poll does. */
  lemma FoundAgainIff(cfg: Config, d: Disk, w: World, pr: PullRequest, next: World, listed: seq<PullRequest>)
    requires Runs.Saves(cfg, d, w) && QueryFinds(Loaded(d.file, w.startTime).lastUpdatedAt, pr.updatedAt)
    requires TruthfulSearch(next.search, listed) && pr in listed
    ensures var r := Poll(cfg, d, w);
            && (InBatch(Runs.BatchOf(cfg, r.disk, next), pr) ==> !Overtaken(cfg, d, w, pr))
            && (Finishes(r.disk, next) ==>
                  (InBatch(Runs.BatchOf(cfg, r.disk, next), pr) <==> !Overtaken(cfg, d, w, pr)))
  {
    var r := Poll(cfg, d, w);
    Runs.PollSavesOrForgets(cfg, d, w);
    BatchIsFetched(cfg, r.disk, next, listed, pr);
    OvertakenIff(cfg, d, w, pr);
    QueryFindsAgainIff(Loaded(d.file, w.startTime).lastUpdatedAt, r.events, pr.updatedAt);
  }

  lemma {:induction false} WatermarksRiseThroughRuns(cfg: Config, d: Disk, ws: seq<World>, t: Time)
    requires d.file.Some? && d.file.value.Json?
    ensures var after := Runs.DiskAfter(cfg, d, ws);
            && after.file.Some? && after.file.value.Json?
            && Loaded(d.file, t).lastUpdatedAt <= Loaded(after.file, t).lastUpdatedAt
  {
    if ws != [] {
      var before, w := Runs.DiskAfter(cfg, d, ws[..|ws| - 1]), ws[|ws| - 1];
      WatermarksRiseThroughRuns(cfg, d, ws[..|ws| - 1], t);
      Runs.WatermarksRise(cfg, before, w, t);
    }
  }

  /** And a PR that was overtaken is lost for good: through whatever polls, until GitHub
      gives it a new updated-at, no poll meets it. */
  lemma OvertakenIsLost(cfg: Config, d: Disk, w: World, pr: PullRequest, between: seq<World>,
                        next: World, listed: seq<PullRequest>)
    requires Runs.Saves(cfg, d, w) && Overtaken(cfg, d, w, pr)
    requires TruthfulSearch(next.search, listed)
    ensures !InBatch(Runs.BatchOf(cfg, Runs.DiskAfter(cfg, Poll(cfg, d, w).disk, between), next), pr)
  {
    var r, t := Poll(cfg, d, w), next.startTime;
    var later := Runs.DiskAfter(cfg, r.disk, between);
    Runs.PollSavesOrForgets(cfg, d, w);
    WatermarksRiseThroughRuns(cfg, r.disk, between, t);
    BatchIsFetched(cfg, later, next, listed, pr);
    OvertakenIff(cfg, d, w, pr);
    WatermarkIsTheMaximum(Loaded(d.file, w.startTime).lastUpdatedAt, r.events);
    var i :| 0 <= i < |r.events| && r.events[i].Advances() && ToSecond(r.events[i].at) > pr.updatedAt;
    ToSecondMonotone(r.events[i].at, Loaded(later.file, t).lastUpdatedAt);
  }

  // ---- a failed send that is lost ------------------------------------------

  lemma OnePageIsTruthful(listed: seq<PullRequest>)
    ensures TruthfulSearch(OnePage(listed), listed)
  {
    forall since, alive | FetchFrom(OnePage(listed), since, 0, 1, alive).Complete?
      ensures forall pr ::
                pr in FetchFrom(OnePage(listed), since, 0, 1, alive).prs <==>
                pr in listed && QueryFinds(since, pr.updatedAt)
    {
      forall pr { AnswerIsTheFilter(listed, since, pr); }
    }
  }

  /** GitHub lists p and q, both drained candidates; the send for p fails, that for q does not. */
  function FailingWorld(p: PullRequest, q: PullRequest): World {
    World(p.updatedAt, false, OnePage([p, q]), 4, i => Draft("a", false, i > 0), Fine)
  }

  lemma TwoEvents(cfg: Config, m: Maps, a: Item, b: Item)
    ensures var e := React(cfg, m, a); Events(cfg, m, [a, b]) == [e, React(cfg, Apply(m, e), b)]
  {
    assert [a, b][..1] == [a] && [a][..0] == [];
  }

  lemma FailedThenPublished(cfg: Config, since: Time, a: Item, b: Item)
    requires a.finding.Candidate? && !a.sent && b.finding.Candidate? && b.sent
    ensures var es := Events(cfg, StartMaps(NewCursor(since)), [a, b]);
            && |es| == 2 && es[0].SendFailed? && es[0].pr == a.pr.Ref()
            && es[1].Published? && es[1].pr == b.pr.Ref() && es[1].at == b.pr.updatedAt
  {
    TwoEvents(cfg, StartMaps(NewCursor(since)), a, b);
  }

  lemma FailingWorldsPoll(cfg: Config, d: Disk, p: PullRequest, q: PullRequest)
    requires d.file.None? && ToSecond(q.updatedAt) > p.updatedAt
    ensures Runs.BatchOf(cfg, d, FailingWorld(p, q))
         == Some([ItemOf(cfg, p, Draft("a", false, false)), ItemOf(cfg, q, Draft("a", false, true))])
  {
    var w := FailingWorld(p, q);
    AnswerToBoth(p, q, p.updatedAt);
    assert QueryFinds(p.updatedAt, p.updatedAt) && QueryFinds(p.updatedAt, q.updatedAt);
    assert FetchFrom(w.search, p.updatedAt, 0, 1, 4) == Complete([p, q], 3);
    ProcessedPRs(cfg, [p, q], w.observe, 2);
    assert w.observe(0) == Draft("a", false, false) && w.observe(1) == Draft("a", false, true);
    var items := Processed(cfg, [p, q], w.observe, 2);
    assert Runs.BatchOf(cfg, d, w) == Some(items);
    assert items == [ItemOf(cfg, p, Draft("a", false, false)), ItemOf(cfg, q, Draft("a", false, true))];
  }

  /** The retry is not certain. From a first start, for any two PRs in scope of which q was
      updated a second after p: a truthful GitHub and a send that fails for p alone make a
      poll that saves, and behind which the next one, though it gets to its end, misses p. */
  lemma FailedPRIsLost(cfg: Config, d: Disk, p: PullRequest, q: PullRequest)
    requires d.file.None? && p.Ref() != q.Ref() && ToSecond(q.updatedAt) > p.updatedAt
    requires !cfg.outOfScope(RepoKey(p.Ref())) && !cfg.outOfScope(RepoKey(q.Ref()))
    ensures var w := FailingWorld(p, q);
            var r := Poll(cfg, d, w);
            && TruthfulSearch(w.search, [p, q]) && Runs.Saves(cfg, d, w)
            && |r.events| == 2 && r.events[0].SendFailed? && r.events[0].pr == p.Ref()
            && r.events[1].Published? && r.events[1].pr == q.Ref()
            && Finishes(r.disk, w) && !InBatch(Runs.BatchOf(cfg, r.disk, w), p)
  {
    var w := FailingWorld(p, q);
    var r := Poll(cfg, d, w);
    FailingWorldsPoll(cfg, d, p, q);
    DraftIsACandidate(cfg, p.Ref(), "a", false, false);
    DraftIsACandidate(cfg, q.Ref(), "a", false, true);
    Runs.PollSavesOrForgets(cfg, d, w);
    FailedThenPublished(cfg, p.updatedAt, ItemOf(cfg, p, Draft("a", false, false)),
                        ItemOf(cfg, q, Draft("a", false, true)));
    OnePageIsTruthful([p, q]);
    assert r.events[1].Advances() && ToSecond(r.events[1].at) > p.updatedAt;
    OvertakenIff(cfg, d, w, p);
    OvertakenIsLost(cfg, d, w, p, [], w, [p, q]);
    AnswerToBoth(p, q, Loaded(r.disk.file, w.startTime).lastUpdatedAt);
  }
}
