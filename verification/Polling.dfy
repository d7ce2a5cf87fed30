// What one poll of pkg/watcher.go does, as functions: the reaction to one pull request,
// the fold over a batch, the page loop and the poll as a step of the persisted state.
module Polling {
  import opened Strings
  import opened TaskIds
  import opened Cursors
  import C = Candidate
  import Filename
  import VaultMap

  // ---- the entities --------------------------------------------------------

  datatype PullRequest = PullRequest(owner: string, repo: string, number: int, updatedAt: Time) {
    function Ref(): PRRef { PRRef(owner, repo, number) }
  }

  datatype PRDetails = PRDetails(headSHA: string, branch: string, state: string, isDraft: bool, title: string)

  datatype SearchResult = SearchResult(prs: seq<PullRequest>, hasNextPage: bool, nextPage: int)

  /** The watcher's configuration; outOfScope is the scope filter's Skip on a repo key,
      covers and lower are what VaultMap and Filename need. */
  datatype Config = Config(
    outOfScope: string -> bool,
    stage: string,
    maxSlugLen: nat,
    maxTitleLen: int,
    taskSuffix: string,
    targetVault: string,
    resolver: Option<seq<VaultMap.Entry>>,
    covers: (string, string) -> bool,
    lower: char -> char)

  datatype CreateCommand = CreateCommand(
    title: string, targetVault: string, taskIdentifier: TaskId,
    stage: string, repo: string, ref: string, prNumber: int, branch: string)

  function RepoKey(p: PRRef): string { "github.com/" + p.owner + "/" + p.repo }

  function TargetVault(cfg: Config, p: PRRef): string {
    match cfg.resolver
    case Some(entries) => VaultMap.VaultFor(cfg.covers, entries, RepoKey(p))
    case None => cfg.targetVault
  }

  function CommandFor(cfg: Config, p: PRRef, d: PRDetails, id: TaskId): CreateCommand {
    CreateCommand(
      Filename.TaskFilename(cfg.lower, Filename.BaseName("github", p.owner, p.repo, p.number, d.headSHA),
                            d.title, cfg.maxSlugLen, cfg.maxTitleLen, cfg.taskSuffix),
      TargetVault(cfg, p), id, cfg.stage, p.owner + "/" + p.repo, d.headSHA, p.number, d.branch)
  }

  // ---- one pull request ----------------------------------------------------

  /** What GitHub and Kafka answer while one pull request is processed. */
  datatype Observation = Observation(details: Option<PRDetails>, reader: C.ContentReader, sent: bool)

  function InputOf(p: PRRef, d: PRDetails): C.Input { C.Input(p, d.headSHA, d.isDraft, d.state) }

  datatype Finding = Skip(reason: string) | Candidate(details: PRDetails, queued: bool)

  function Judge(cfg: Config, p: PRRef, obs: Observation): Finding {
    if cfg.outOfScope(RepoKey(p)) then Skip("out_of_scope")
    else match obs.details
         case None => Skip("details_error")
         case Some(d) =>
           if d.headSHA == "" then Skip("empty_sha")
           else match C.Verdict(obs.reader, InputOf(p, d))
                case Failed => Skip("evaluate_error")
                case Rejected(reason) => Skip(reason)
                case Kept(_, queued) => Candidate(d, queued)
  }

  /** A pull request of the batch with what is found about it and whether a send for it succeeds. */
  datatype Item = Item(pr: PullRequest, finding: Finding, sent: bool)

  function ItemOf(cfg: Config, pr: PullRequest, obs: Observation): Item {
    Item(pr, Judge(cfg, pr.Ref(), obs), obs.sent)
  }

  /** What processing a pull request amounts to; at is the PR's updated-at. */
  datatype Event =
    | Skipped(pr: PRRef, reason: string)
    | Deduped(pr: PRRef, id: TaskId, sha: string, at: Time)
    | Suppressed(pr: PRRef, id: TaskId, sha: string, at: Time)
    | Published(pr: PRRef, id: TaskId, sha: string, at: Time, queued: bool, command: CreateCommand)
    | SendFailed(pr: PRRef, id: TaskId, sha: string, queued: bool)
  {
    /** The cursor advances. */
    predicate Advances() { Deduped? || Suppressed? || Published? }

    predicate Attempts() { Published? || SendFailed? }

    /** The observations that end a queued phase. */
    predicate Drops(p: PRRef) { Skipped? && pr == p && (reason == C.NO_SPEC || reason == C.NOT_OPEN) }

    predicate Arms(p: PRRef) { Published? && pr == p && queued }
  }

  /** The maps a poll works on: the loaded HeadSHAs and QueuedMarkers, which it edits, and
      newHeadSHAs, which it builds. */
  datatype Maps = Maps(heads: map<TaskId, string>, markers: map<string, TaskId>, rebuilt: map<TaskId, string>)

  function React(cfg: Config, m: Maps, item: Item): Event {
    var p := item.pr.Ref();
    match item.finding
    case Skip(reason) => Skipped(p, reason)
    case Candidate(d, queued) =>
      var id := DeriveTaskID(p, d.headSHA, queued);
      if id in m.heads then Deduped(p, id, d.headSHA, item.pr.updatedAt)
      else if MarkerKey(p) in m.markers then Suppressed(p, id, d.headSHA, item.pr.updatedAt)
      else if item.sent then Published(p, id, d.headSHA, item.pr.updatedAt, queued, CommandFor(cfg, p, d, id))
      else SendFailed(p, id, d.headSHA, queued)
  }

  function Publishing(heads: map<TaskId, string>, e: Event): map<TaskId, string> {
    if e.Published? then heads[e.id := e.sha] else heads
  }

  function Marking(markers: map<string, TaskId>, e: Event): map<string, TaskId> {
    if e.Drops(e.pr) then markers - {MarkerKey(e.pr)}
    else if e.Arms(e.pr) then markers[MarkerKey(e.pr) := QueuedId(e.pr)]
    else markers
  }

  function Rebuilding(rebuilt: map<TaskId, string>, e: Event): map<TaskId, string> {
    if e.Advances() then rebuilt[e.id := e.sha] else rebuilt
  }

  function Apply(m: Maps, e: Event): Maps {
    Maps(Publishing(m.heads, e), Marking(m.markers, e), Rebuilding(m.rebuilt, e))
  }

  // ---- a batch -------------------------------------------------------------

  function After(cfg: Config, m: Maps, items: seq<Item>): Maps {
    if items == [] then m
    else
      var front := After(cfg, m, items[..|items| - 1]);
      Apply(front, React(cfg, front, items[|items| - 1]))
  }

  function Events(cfg: Config, m: Maps, items: seq<Item>): (es: seq<Event>)
    ensures |es| == |items|
  {
    if items == [] then []
    else
      var front := items[..|items| - 1];
      Events(cfg, m, front) + [React(cfg, After(cfg, m, front), items[|items| - 1])]
  }

  /** The watermark after a log: the latest updated-at among what advanced. */
  function Watermark(since: Time, es: seq<Event>): Time {
    if es == [] then since
    else
      var front, e := Watermark(since, es[..|es| - 1]), es[|es| - 1];
      if e.Advances() then Max(front, e.at) else front
  }

  lemma {:induction false} WatermarkNeverFalls(since: Time, es: seq<Event>)
    ensures since <= Watermark(since, es)
  {
    if es != [] { WatermarkNeverFalls(since, es[..|es| - 1]); }
  }

  // ---- the page loop -------------------------------------------------------

  /** alive counts the context checks that still find the context alive; a cancelled
      context stays cancelled. */
  datatype Fetch = Cancelled | SearchFailed(alive: nat) | Complete(prs: seq<PullRequest>, alive: nat)

  /** search answers by number of the call, since and page; None is an error. */
  type Search = (nat, Time, int) -> Option<SearchResult>

  function FetchFrom(search: Search, since: Time, call: nat, page: int, alive: nat): Fetch
    decreases alive
  {
    if alive == 0 then Cancelled
    else match search(call, since, page)
         case None => SearchFailed(alive - 1)
         case Some(r) =>
           if !r.hasNextPage then Complete(r.prs, alive - 1)
           else Prepend(r.prs, FetchFrom(search, since, call + 1, r.nextPage, alive - 1))
  }

  function Prepend(front: seq<PullRequest>, f: Fetch): Fetch {
    match f case Complete(prs, alive) => Complete(front + prs, alive) case _ => f
  }

  lemma PrependTwice(a: seq<PullRequest>, b: seq<PullRequest>, f: Fetch)
    ensures Prepend(a, Prepend(b, f)) == Prepend(a + b, f)
  {
    if f.Complete? { assert a + (b + f.prs) == a + b + f.prs; }
  }

  // ---- a poll --------------------------------------------------------------

  /** Everything outside the process that one poll meets. */
  datatype World = World(
    startTime: Time, unreadable: bool, search: Search, alive: nat,
    observe: nat -> Observation, fault: SaveFault)

  /** The processed front part of a batch: one context check stands in front of each. */
  function Processed(cfg: Config, prs: seq<PullRequest>, observe: nat -> Observation, alive: nat): seq<Item> {
    var n := if |prs| <= alive then |prs| else alive;
    seq(n, i requires 0 <= i < n => ItemOf(cfg, prs[i], observe(i)))
  }

  /** What a poll processes, or None when it gives up in front of processing. */
  function Batch(cfg: Config, since: Time, w: World): Option<seq<Item>> {
    match FetchFrom(w.search, since, 0, 1, w.alive)
    case Complete(prs, alive) => if alive == 0 then None else Some(Processed(cfg, prs, w.observe, alive - 1))
    case _ => None
  }

  function StartMaps(c: Cursor): Maps { Maps(c.headSHAs, c.queuedMarkers, map[]) }

  /** The cursor a poll saves. */
  function NextCursor(cfg: Config, c: Cursor, items: seq<Item>): Cursor {
    var m := After(cfg, StartMaps(c), items);
    Cursor(Watermark(c.lastUpdatedAt, Events(cfg, StartMaps(c), items)), m.rebuilt, m.markers)
  }

  datatype PollResult = PollResult(disk: Disk, events: seq<Event>, cycle: Option<string>, ok: bool)

  function Poll(cfg: Config, d: Disk, w: World): PollResult {
    if w.unreadable then PollResult(d, [], None, false)
    else
      var c := Loaded(d.file, w.startTime);
      match Batch(cfg, c.lastUpdatedAt, w)
      case None =>
        var f := FetchFrom(w.search, c.lastUpdatedAt, 0, 1, w.alive);
        PollResult(d, [], if f.SearchFailed? then Some("github_error") else None, true)
      case Some(items) =>
        PollResult(AfterSaveSteps(d, NextCursor(cfg, c, items), StepsDone(w.fault)),
                   Events(cfg, StartMaps(c), items), Some("success"), true)
  }

  // ---- counters and commands of a log --------------------------------------

  datatype Metrics = Metrics(
    scanned: nat, skipped: multiset<string>, published: multiset<string>, cycles: multiset<string>)

  const QUEUED_MARKER := "queued_marker"

  function PublishedStatus(queued: bool): string { if queued then "create_queued" else "create" }

  function Count(m: Metrics, e: Event): Metrics {
    var n := m.(scanned := m.scanned + 1);
    match e
    case Skipped(_, reason) => n.(skipped := n.skipped + multiset{reason})
    case Deduped(_, _, _, _) => n
    case Suppressed(_, _, _, _) => n.(skipped := n.skipped + multiset{QUEUED_MARKER})
    case Published(_, _, _, _, queued, _) => n.(published := n.published + multiset{PublishedStatus(queued)})
    case SendFailed(_, _, _, _) => n.(published := n.published + multiset{"error"})
  }

  function CountAll(m: Metrics, es: seq<Event>): Metrics {
    if es == [] then m else Count(CountAll(m, es[..|es| - 1]), es[|es| - 1])
  }

  function CountCycle(m: Metrics, cycle: Option<string>): Metrics {
    match cycle case None => m case Some(l) => m.(cycles := m.cycles + multiset{l})
  }

  function CommandOf(e: Event): seq<CreateCommand> { if e.Published? then [e.command] else [] }

  /** The accepted commands of a log, in order. */
  function Commands(es: seq<Event>): seq<CreateCommand> {
    if es == [] then []
    else
      var front, e := Commands(es[..|es| - 1]), es[|es| - 1];
      front + CommandOf(e)
  }

  // ---- the state of a poll at work -----------------------------------------

  datatype Working = Working(maps: Maps, mark: Time, counts: Metrics, sent: seq<CreateCommand>)

  function Record(w: Working, e: Event): Working {
    Working(Apply(w.maps, e), if e.Advances() then Max(w.mark, e.at) else w.mark,
            Count(w.counts, e), w.sent + CommandOf(e))
  }

  function Step(cfg: Config, w: Working, item: Item): Working {
    Record(w, React(cfg, w.maps, item))
  }

  function Steps(cfg: Config, w: Working, items: seq<Item>): Working {
    if items == [] then w else Step(cfg, Steps(cfg, w, items[..|items| - 1]), items[|items| - 1])
  }

  /** Working through a batch is what its log says. */
  lemma {:induction false} StepsFollowTheLog(cfg: Config, w: Working, items: seq<Item>)
    ensures var es := Events(cfg, w.maps, items);
            Steps(cfg, w, items) == Working(After(cfg, w.maps, items), Watermark(w.mark, es),
                                            CountAll(w.counts, es), w.sent + Commands(es))
  {
    if items != [] {
      var front, item := items[..|items| - 1], items[|items| - 1];
      StepsFollowTheLog(cfg, w, front);
      var es, e := Events(cfg, w.maps, front), React(cfg, After(cfg, w.maps, front), item);
      var es' := Events(cfg, w.maps, items);
      assert es' == es + [e] && es'[..|es'| - 1] == es;
      assert w.sent + (Commands(es) + CommandOf(e)) == w.sent + Commands(es) + CommandOf(e);
    }
  }

  lemma StepsSnoc(cfg: Config, w: Working, items: seq<Item>, item: Item)
    ensures Steps(cfg, w, items + [item]) == Step(cfg, Steps(cfg, w, items), item)
  {
    assert (items + [item])[..|items|] == items;
  }

  /** A poll that gets to its batch, in terms of the state it works on. */
  lemma PollWorks(cfg: Config, d: Disk, w: World, counts: Metrics, sent: seq<CreateCommand>,
                  prs: seq<PullRequest>, alive: nat)
    requires !w.unreadable
    requires FetchFrom(w.search, Loaded(d.file, w.startTime).lastUpdatedAt, 0, 1, w.alive) == Complete(prs, alive + 1)
    ensures var c, r := Loaded(d.file, w.startTime), Poll(cfg, d, w);
            var before := Working(StartMaps(c), c.lastUpdatedAt, counts, sent);
            var after := Steps(cfg, before, Processed(cfg, prs, w.observe, alive));
            var next := Cursor(after.mark, after.maps.rebuilt, after.maps.markers);
            && c.lastUpdatedAt <= after.mark
            && r == PollResult(AfterSaveSteps(d, next, StepsDone(w.fault)), r.events, Some("success"), true)
            && after.counts == CountAll(counts, r.events)
            && after.sent == sent + Commands(r.events)
  {
    var c := Loaded(d.file, w.startTime);
    var items := Processed(cfg, prs, w.observe, alive);
    StepsFollowTheLog(cfg, Working(StartMaps(c), c.lastUpdatedAt, counts, sent), items);
    WatermarkNeverFalls(c.lastUpdatedAt, Events(cfg, StartMaps(c), items));
  }

  /** A poll that does not has no effect but its counter. */
  lemma PollGivesUp(cfg: Config, d: Disk, w: World)
    requires var f := FetchFrom(w.search, Loaded(d.file, w.startTime).lastUpdatedAt, 0, 1, w.alive);
             w.unreadable || !f.Complete? || f.alive == 0
    ensures var r, f := Poll(cfg, d, w), FetchFrom(w.search, Loaded(d.file, w.startTime).lastUpdatedAt, 0, 1, w.alive);
            var cycle := if !w.unreadable && f.SearchFailed? then Some("github_error") else None;
            r == PollResult(d, [], cycle, !w.unreadable)
  {
  }

  lemma ProcessedPRs(cfg: Config, prs: seq<PullRequest>, observe: nat -> Observation, alive: nat)
    ensures var items := Processed(cfg, prs, observe, alive);
            |items| <= |prs| && forall i :: 0 <= i < |items| ==> items[i] == ItemOf(cfg, prs[i], observe(i))
  {
    var items := Processed(cfg, prs, observe, alive);
    forall i | 0 <= i < |items| ensures items[i] == ItemOf(cfg, prs[i], observe(i)) {
    }
  }

  lemma ProcessedStep(cfg: Config, prs: seq<PullRequest>, observe: nat -> Observation, alive: nat, i: nat)
    requires i < |prs|
    ensures i < alive ==> (Processed(cfg, prs[..i + 1], observe, alive)
                           == Processed(cfg, prs[..i], observe, alive) + [ItemOf(cfg, prs[i], observe(i))])
    ensures i == alive ==> (Processed(cfg, prs[..i], observe, alive) == Processed(cfg, prs, observe, alive))
  {
  }
}
