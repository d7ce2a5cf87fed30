// What the events of a poll mean in terms of what GitHub showed, and what the commands it
// sends promise the controller.
module Contracts {
  import opened Strings
  import opened TaskIds
  import opened Cursors
  import opened Polling
  import C = Candidate
  import Filename
  import opened Scenes
  import Fetching
  import Logs
  import Runs
  import VaultMap

  /** In scope, with details and a head. */
  predicate Examined(cfg: Config, p: PRRef, obs: Observation) {
    && !cfg.outOfScope("github.com/" + p.owner + "/" + p.repo)
    && obs.details.Some? && obs.details.value.headSHA != ""
  }

  /** The README's candidate, at a repository in scope. */
  predicate IsCandidate(cfg: Config, p: PRRef, obs: Observation) {
    Examined(cfg, p, obs) && C.Keeps(obs.reader, InputOf(p, obs.details.value))
  }

  /** What ends a queued phase: a draft seen closed, or open with a readable diff in which
      nothing is approved any more. */
  predicate EndsPhase(cfg: Config, p: PRRef, obs: Observation) {
    && Examined(cfg, p, obs)
    && (|| (obs.details.value.isDraft && obs.details.value.state != "open")
        || C.LacksSpec(obs.reader, InputOf(p, obs.details.value)))
  }

  lemma ReasonsDiffer()
    ensures "out_of_scope" !in {C.NO_SPEC, C.NOT_OPEN} && "details_error" !in {C.NO_SPEC, C.NOT_OPEN}
    ensures "empty_sha" !in {C.NO_SPEC, C.NOT_OPEN} && "evaluate_error" !in {C.NO_SPEC, C.NOT_OPEN}
  {
    assert |C.NO_SPEC| == 15 && |C.NOT_OPEN| == 8;
    assert |"out_of_scope"| == 12 && |"details_error"| == 13 && |"empty_sha"| == 9 && |"evaluate_error"| == 14;
  }

  lemma ScopeKey(p: PRRef)
    ensures RepoKey(p) == "github.com/" + p.owner + "/" + p.repo
  {
  }

  lemma FindingMeans(cfg: Config, p: PRRef, obs: Observation)
    ensures Judge(cfg, p, obs).Candidate? <==> IsCandidate(cfg, p, obs)
    ensures Judge(cfg, p, obs) in {Skip(C.NO_SPEC), Skip(C.NOT_OPEN)} <==> EndsPhase(cfg, p, obs)
    ensures IsCandidate(cfg, p, obs) ==>
              Judge(cfg, p, obs) == Candidate(obs.details.value,
                                              C.QueuedAtHead(obs.reader, InputOf(p, obs.details.value)))
  {
    ReasonsDiffer();
    ScopeKey(p);
    if Examined(cfg, p, obs) {
      var input := InputOf(p, obs.details.value);
      C.ReasonsAre();
      C.VerdictMeans(obs.reader, input);
      if C.Keeps(obs.reader, input) { C.KeptMeans(obs.reader, input); }
    }
  }

  /** Which reason a PR is skipped for, in the order in which the reasons are looked for. */
  lemma SkipsMean(cfg: Config, p: PRRef, obs: Observation)
    ensures var f, examined := Judge(cfg, p, obs), Examined(cfg, p, obs);
            var inScope := !cfg.outOfScope("github.com/" + p.owner + "/" + p.repo);
            && (!inScope ==> f == Skip("out_of_scope"))
            && (inScope && obs.details.None? ==> f == Skip("details_error"))
            && (inScope && obs.details.Some? && !examined ==> f == Skip("empty_sha"))
            && (examined ==>
                  var input := InputOf(p, obs.details.value);
                  && (C.Unjudged(obs.reader, input) ==> f == Skip("evaluate_error"))
                  && (!input.isDraft ==> f == Skip("not_draft"))
                  && (input.isDraft && input.state != "open" ==> f == Skip("not_open"))
                  && (C.LacksSpec(obs.reader, input) ==> f == Skip("no_spec_in_diff"))
                  && (f.Skip? <==> !C.Keeps(obs.reader, input)))
  {
    ScopeKey(p);
    if Examined(cfg, p, obs) { C.VerdictMeans(obs.reader, InputOf(p, obs.details.value)); }
  }

  /** Event j of a poll, in terms of what was observed of the j-th PR: it is let through to
      dedup and publish exactly if it is a candidate, at the head that was read, under the
      queued identifier exactly if a prompt waits there; what is attempted is published
      exactly if the send went through, and what advances does so to the PR's updated-at. It
      drops its marker exactly if the observation ends the phase. A closed PR that is no draft
      any more does not. */
  lemma EventMeans(cfg: Config, d: Disk, w: World, j: nat)
    requires j < |Poll(cfg, d, w).events|
    ensures Runs.BatchOf(cfg, d, w).Some? && j < |Runs.BatchOf(cfg, d, w).value|
    ensures MeansWhatWasSeen(cfg, Poll(cfg, d, w).events[j], Runs.BatchOf(cfg, d, w).value[j].pr, w.observe(j))
  {
    Runs.PollIsReactions(cfg, d, w, j);
    Runs.BatchMeans(cfg, d, w);
    var item := Runs.BatchOf(cfg, d, w).value[j];
    var m :| Poll(cfg, d, w).events[j] == React(cfg, m, item);
    ReactionMeans(cfg, m, item, w.observe(j));
  }

  predicate MeansWhatWasSeen(cfg: Config, e: Event, pr: PullRequest, obs: Observation) {
    && e.pr == pr.Ref()
    && (!e.Skipped? <==> IsCandidate(cfg, e.pr, obs))
    && (e.Drops(e.pr) <==> EndsPhase(cfg, e.pr, obs))
    && (e.Deduped? || e.Suppressed? || e.Published? ==> e.at == pr.updatedAt)
    && (!e.Skipped? ==>
          var head, queued := obs.details.value.headSHA, C.QueuedAtHead(obs.reader, InputOf(e.pr, obs.details.value));
          && e.sha == head && e.id == DeriveTaskID(e.pr, head, queued)
          && (e.Attempts() ==> e.queued == queued && (e.Published? <==> obs.sent))
          && (e.Published? ==> Describes(cfg, e.pr, obs.details.value, e.command) && e.command.taskIdentifier == e.id))
  }

  /** What becomes of a marked PR in a saved poll, in terms of what was observed of it: it keeps
      its marker unless an observation ended the phase, or if it was armed again behind that. */
  lemma MarkerKeptIff(cfg: Config, d: Disk, w: World, p: PRRef)
    requires Runs.Saves(cfg, d, w) && Fetching.ValidSearch(w.search) && p.Valid()
    requires MarkerKey(p) in Runs.MarkersOf(d)
    ensures var r := Poll(cfg, d, w);
            MarkerKey(p) in Runs.MarkersOf(r.disk) <==>
            (|| Logs.Armed(r.events, p)
             || forall j :: 0 <= j < |r.events| && r.events[j].pr == p ==> !EndsPhase(cfg, p, w.observe(j)))
  {
    var r := Poll(cfg, d, w);
    Runs.PollSavesOrForgets(cfg, d, w);
    Runs.PollEventsAreValid(cfg, d, w);
    Logs.MarkersAreHistory(Runs.MarkersOf(d), r.events, p);
    forall j | 0 <= j < |r.events| && r.events[j].pr == p
      ensures r.events[j].Drops(p) <==> EndsPhase(cfg, p, w.observe(j))
    {
      EventMeans(cfg, d, w, j);
    }
  }

  /** A PR that was made ready and closed between the search and the read of its details. */
  function ClosingWorld(pr: PullRequest, startTime: Time): World {
    World(startTime, false, OnePage([pr]), 3, i => ClosedAndReady(), Fine)
  }

  lemma ClosedPRKeepsItsMarker(cfg: Config, d: Disk, pr: PullRequest, startTime: Time)
    requires pr.Ref().Valid() && !cfg.outOfScope(RepoKey(pr.Ref())) && MarkerKey(pr.Ref()) in Runs.MarkersOf(d)
    requires Logs.QueryFinds(Loaded(d.file, startTime).lastUpdatedAt, pr.updatedAt)
    ensures var w := ClosingWorld(pr, startTime);
            var r := Poll(cfg, d, w);
            && Runs.Saves(cfg, d, w) && r.events == [Skipped(pr.Ref(), C.NOT_DRAFT)]
            && w.observe(0).details.value.state == "closed"
            && MarkerKey(pr.Ref()) in Runs.MarkersOf(r.disk)
  {
    var w, c := ClosingWorld(pr, startTime), Loaded(d.file, startTime);
    AnswerToOne(pr, c.lastUpdatedAt);
    assert FetchFrom(w.search, c.lastUpdatedAt, 0, 1, 3) == Complete([pr], 2);
    var item := ItemOf(cfg, pr, ClosedAndReady());
    assert Processed(cfg, [pr], w.observe, 1) == [item];
    assert Runs.BatchOf(cfg, d, w) == Some([item]);
    Runs.PollSavesOrForgets(cfg, d, w);
    assert [item][..0] == [];
    OnePageIsValid(pr);
    MarkerKeptIff(cfg, d, w, pr.Ref());
  }

  lemma OnePageIsValid(pr: PullRequest)
    requires pr.Ref().Valid()
    ensures Fetching.ValidSearch(OnePage([pr]))
  {
    forall n, t, q | OnePage([pr])(n, t, q).Some? ensures Fetching.AllValid(OnePage([pr])(n, t, q).value.prs) {
      AnswerToOne(pr, t);
    }
  }

  lemma ReactionMeans(cfg: Config, m: Maps, item: Item, obs: Observation)
    requires item.finding == Judge(cfg, item.pr.Ref(), obs) && item.sent == obs.sent
    ensures MeansWhatWasSeen(cfg, React(cfg, m, item), item.pr, obs)
  {
    FindingMeans(cfg, item.pr.Ref(), obs);
    var e := React(cfg, m, item);
    if e.Published? { CommandIsSound(cfg, e.pr, item.finding.details, e.id); }
  }

  /** What the agent and the controller may rely on in a command for a PR, spelled out: where to
      find repository, branch and head; a title made of the PR's name, its slug and the suffix,
      cut in front of the suffix to what fits; the vault of the first matching entry. */
  predicate Describes(cfg: Config, p: PRRef, d: PRDetails, c: CreateCommand) {
    && c.repo == p.owner + "/" + p.repo
    && c.repo + "#" + Decimal(c.prNumber) == MarkerKey(p)
    && c.branch == d.branch && c.ref == d.headSHA && c.stage == cfg.stage
    && Filename.IsFilename(cfg.lower, p.owner, p.repo, p.number, d.headSHA, d.title,
                           cfg.maxSlugLen, cfg.maxTitleLen, cfg.taskSuffix, c.title)
    && match cfg.resolver
       case None => c.targetVault == cfg.targetVault
       case Some(entries) =>
         VaultMap.FirstMatch(cfg.covers, entries, "github.com/" + p.owner + "/" + p.repo, c.targetVault)
  }

  lemma NumberSign(p: PRRef, repo: string)
    requires repo == p.owner + "/" + p.repo
    ensures repo + "#" + Decimal(p.number) == MarkerKey(p)
  {
  }

  /** Every command that is built is sound, whatever the PR is called, and where the PR's name
      fits beside the suffix its title begins with it whole. */
  lemma CommandIsSound(cfg: Config, p: PRRef, d: PRDetails, id: TaskId)
    ensures CommandFor(cfg, p, d, id).taskIdentifier == id && Describes(cfg, p, d, CommandFor(cfg, p, d, id))
    ensures var title, suffix := CommandFor(cfg, p, d, id).title, Filename.SuffixPart(cfg.taskSuffix);
            var name := Filename.BaseName("github", p.owner, p.repo, p.number, d.headSHA);
            && HasSuffix(title, suffix)
            && (|suffix| <= cfg.maxTitleLen ==> |title| <= cfg.maxTitleLen)
            && (|name| + |suffix| <= cfg.maxTitleLen ==> name <= title)
  {
    var suffix := Filename.SuffixPart(cfg.taskSuffix);
    var name := Filename.BaseName("github", p.owner, p.repo, p.number, d.headSHA);
    Filename.SuffixSurvives(cfg.lower, name, d.title, cfg.maxSlugLen, cfg.maxTitleLen, cfg.taskSuffix);
    if |name| + |suffix| <= cfg.maxTitleLen {
      Filename.OnlyTheSlugIsCut(cfg.lower, name, d.title, cfg.maxSlugLen, cfg.maxTitleLen, cfg.taskSuffix);
    }
    Filename.FilenameIs(cfg.lower, p.owner, p.repo, p.number, d.headSHA, d.title,
                        cfg.maxSlugLen, cfg.maxTitleLen, cfg.taskSuffix);
    NumberSign(p, p.owner + "/" + p.repo);
    if cfg.resolver.Some? {
      ScopeKey(p);
      VaultMap.VaultForIsFirstMatch(cfg.covers, cfg.resolver.value, RepoKey(p));
    }
  }

  /** So every command a poll gets accepted is sound for the PR and the details it was built
      from, carries the identifier pinned or of the head, and under an accepted vault map goes
      to a vault some controller can claim. */
  lemma PollCommandsAreSound(cfg: Config, d: Disk, w: World, j: nat, validGlobs: seq<string> -> bool, raw: string)
    requires cfg.resolver.Some? ==> VaultMap.ParseMap(validGlobs, raw) == VaultMap.Resolver(cfg.resolver.value)
    requires j < |Poll(cfg, d, w).events| && Poll(cfg, d, w).events[j].Published?
    ensures w.observe(j).details.Some?
    ensures var e, details := Poll(cfg, d, w).events[j], w.observe(j).details.value;
            && Describes(cfg, e.pr, details, e.command)
            && e.command.taskIdentifier
                 == DeriveTaskID(e.pr, details.headSHA, C.QueuedAtHead(w.observe(j).reader, InputOf(e.pr, details)))
            && (cfg.resolver.Some? ==> VaultMap.IsVaultSlug(e.command.targetVault))
  {
    EventMeans(cfg, d, w, j);
    if cfg.resolver.Some? { FirstMatchIsASlug(cfg, Poll(cfg, d, w).events[j], validGlobs, raw); }
  }

  lemma FirstMatchIsASlug(cfg: Config, e: Event, validGlobs: seq<string> -> bool, raw: string)
    requires e.Published? && cfg.resolver.Some?
    requires VaultMap.ParseMap(validGlobs, raw) == VaultMap.Resolver(cfg.resolver.value)
    requires VaultMap.FirstMatch(cfg.covers, cfg.resolver.value, "github.com/" + e.pr.owner + "/" + e.pr.repo,
                                 e.command.targetVault)
    ensures VaultMap.IsVaultSlug(e.command.targetVault)
  {
    VaultMap.GoodEntriesAreClean(SplitOn(raw, ','));
    assert VaultMap.IsVaultSlug("openclaw");
  }
}
