// pkg/command/trigger_executor.go: one PR pushed into the pipeline by an operator's
// command, beside the polls and without their cursor.
module Trigger {
  import opened Strings
  import opened TaskIds
  import opened Polling
  import C = Candidate
  import W = Watcher

  datatype TriggerCommand = TriggerCommand(url: string, force: bool)

  datatype PRInfo = PRInfo(onGitHub: bool, pr: PRRef)

  /** prurl.ParsePRURL. */
  type URLParser = string -> Option<PRInfo>

  /** What a run amounts to. Sent and NotSent carry the identifier used. */
  datatype Effect =
    | Ignored
    | Unavailable
    | Refused(reason: string)
    | Sent(pr: PRRef, family: Family, queued: bool, details: PRDetails)
    | NotSent(pr: PRRef, family: Family)

  /** How the framework answers: skip for good, redeliver, or done. */
  datatype Answer = SkipForGood | Redeliver | Done

  predicate ValidCommand(parse: URLParser, cmd: TriggerCommand) {
    cmd.url != "" && parse(cmd.url).Some? && parse(cmd.url).value.onGitHub
  }

  /** The key family a poll uses for a candidate. */
  function PollFamily(sha: string, queued: bool): Family { if queued then Queued else BySha(sha) }

  function Run(parse: URLParser, payload: Option<TriggerCommand>, obs: Observation, micros: int): Effect {
    if payload.None? || !ValidCommand(parse, payload.value) then Ignored
    else if obs.details.None? then Unavailable
    else
      var p, d := parse(payload.value.url).value.pr, obs.details.value;
      match C.Verdict(obs.reader, C.Input(p, d.headSHA, d.isDraft, d.state))
      case Failed => Unavailable
      case Rejected(reason) => Refused(reason)
      case Kept(_, queued) =>
        var family := if payload.value.force then Forced(d.headSHA, Decimal(micros))
                      else PollFamily(d.headSHA, queued);
        if obs.sent then Sent(p, family, queued, d) else NotSent(p, family)
  }

  function AnswerTo(e: Effect): Answer {
    match e
    case Ignored => SkipForGood
    case Refused(_) => SkipForGood
    case Unavailable => Redeliver
    case NotSent(_, _) => Redeliver
    case Sent(_, _, _, _) => Done
  }

  function CountTrigger(m: Metrics, e: Effect): Metrics {
    match e
    case Refused(reason) => m.(skipped := m.skipped + multiset{reason})
    case Sent(_, _, queued, _) => m.(published := m.published + multiset{PublishedStatus(queued)})
    case NotSent(_, _) => m.(published := m.published + multiset{"error"})
    case _ => m
  }

  class TriggerExecutor {
    const cfg: Config
    const parse: URLParser
    var metrics: Metrics
    var outbox: seq<CreateCommand>

    constructor (cfg: Config, parse: URLParser, metrics: Metrics)
      ensures this.cfg == cfg && this.parse == parse && this.metrics == metrics && outbox == []
    {
      this.cfg, this.parse, this.metrics, outbox := cfg, parse, metrics, [];
    }

    /** payload is None for a message that does not decode; micros is the clock in microseconds. */
    method RunTrigger(payload: Option<TriggerCommand>, obs: Observation, micros: int) returns (answer: Answer)
      modifies this
      ensures answer == SkipForGood <==> Invalid(parse, payload) || SeenRejected(parse, payload, obs)
      ensures answer == Redeliver
         <==> SeenUnjudged(parse, payload, obs) || (SeenKept(parse, payload, obs) && !obs.sent)
      ensures metrics.scanned == old(metrics.scanned) && metrics.cycles == old(metrics.cycles)
      ensures metrics.published == old(metrics.published) + PublishLabels(parse, payload, obs)
      ensures |metrics.skipped| == |old(metrics.skipped)| + if SeenRejected(parse, payload, obs) then 1 else 0
      ensures forall r :: SeenRejected(parse, payload, obs) && Verdict(parse, payload, obs) == C.Rejected(r) ==>
                metrics.skipped == old(metrics.skipped) + multiset{r}
      ensures answer == Done <==> SeenKept(parse, payload, obs) && obs.sent
      ensures outbox != old(outbox) <==> SeenKept(parse, payload, obs) && obs.sent
      ensures outbox != old(outbox) ==>
                var p, d := parse(payload.value.url).value.pr, obs.details.value;
                |outbox| == |old(outbox)| + 1 && old(outbox) <= outbox
                && outbox[|old(outbox)|] == CommandFor(cfg, p, d,
                     if payload.value.force then DeriveTaskIDForce(p, d.headSHA, Decimal(micros))
                     else DeriveTaskID(p, d.headSHA, C.QueuedAtHead(obs.reader, InputOf(p, d))))
      ensures var e := Run(parse, payload, obs, micros);
              && answer == AnswerTo(e)
              && metrics == CountTrigger(old(metrics), e)
              && outbox == old(outbox)
                           + (if e.Sent? then [CommandFor(cfg, e.pr, e.details, IdOf(e.pr, e.family))] else [])
    {
      RunMeans(parse, payload, obs, micros);
      CountTriggerMeans(metrics, parse, payload, obs, micros);
      if payload.None? || payload.value.url == "" {
        return SkipForGood;
      }
      var info := parse(payload.value.url);
      if info.None? || !info.value.onGitHub {
        return SkipForGood;
      }
      if obs.details.None? {
        return Redeliver;
      }
      var p, details := info.value.pr, obs.details.value;
      var result := C.Evaluate(obs.reader, C.Input(p, details.headSHA, details.isDraft, details.state));
      if result.Failed? {
        return Redeliver;
      }
      if result.Rejected? {
        metrics := metrics.(skipped := metrics.skipped + multiset{result.reason});
        return SkipForGood;
      }
      answer := PublishCreateCommand(p, payload.value.force, details, result.promptsQueued, obs.sent, micros);
    }

    method PublishCreateCommand(p: PRRef, force: bool, details: PRDetails, queued: bool, sent: bool, micros: int)
      returns (answer: Answer)
      modifies this
      ensures var family := if force then Forced(details.headSHA, Decimal(micros))
                            else PollFamily(details.headSHA, queued);
              var e := if sent then Sent(p, family, queued, details) else NotSent(p, family);
              && answer == AnswerTo(e)
              && metrics == CountTrigger(old(metrics), e)
              && outbox == old(outbox) + (if sent then [CommandFor(cfg, p, details, IdOf(p, family))] else [])
    {
      var taskId;
      if force {
        var nonce := Decimal(micros);
        taskId := DeriveTaskIDForce(p, details.headSHA, nonce);
      } else {
        taskId := DeriveTaskID(p, details.headSHA, queued);
      }
      var cmd := W.BuildCreateCommand(cfg, p, details, taskId);
      if !sent {
        metrics := metrics.(published := metrics.published + multiset{"error"});
        return Redeliver;
      }
      outbox := outbox + [cmd];
      metrics := metrics.(published := metrics.published + multiset{if queued then "create_queued" else "create"});
      return Done;
    }
  }

  // ---- what a trigger does, read off what it meets --------------------------

  /** The message does not decode, or its URL is none of a pull request on GitHub. */
  predicate Invalid(parse: URLParser, payload: Option<TriggerCommand>) {
    || payload.None?
    || payload.value.url == ""
    || parse(payload.value.url).None?
    || !parse(payload.value.url).value.onGitHub
  }

  /** A candidate, forced or not. */
  predicate SeenKept(parse: URLParser, payload: Option<TriggerCommand>, obs: Observation) {
    && !Invalid(parse, payload) && obs.details.Some?
    && C.Keeps(obs.reader, InputOf(parse(payload.value.url).value.pr, obs.details.value))
  }

  /** The details, or something in front of the verdict, could not be read or decoded. */
  predicate SeenUnjudged(parse: URLParser, payload: Option<TriggerCommand>, obs: Observation) {
    && !Invalid(parse, payload)
    && (obs.details.None? || C.Unjudged(obs.reader, InputOf(parse(payload.value.url).value.pr, obs.details.value)))
  }

  /** No draft, not open, without config, or with nothing approved in a readable diff. */
  predicate SeenRejected(parse: URLParser, payload: Option<TriggerCommand>, obs: Observation) {
    && !Invalid(parse, payload) && obs.details.Some?
    && var input := InputOf(parse(payload.value.url).value.pr, obs.details.value);
    && (|| !input.isDraft || input.state != "open"
        || obs.reader.content(input.pr.owner, input.pr.repo, ".dark-factory.yaml", input.headSHA).NotFound?
        || C.LacksSpec(obs.reader, input))
  }

  function Verdict(parse: URLParser, payload: Option<TriggerCommand>, obs: Observation): C.Evaluation
    requires !Invalid(parse, payload) && obs.details.Some?
  {
    C.Verdict(obs.reader, InputOf(parse(payload.value.url).value.pr, obs.details.value))
  }

  /** What a command adds to the publish counter. */
  function PublishLabels(parse: URLParser, payload: Option<TriggerCommand>, obs: Observation): multiset<string> {
    if !SeenKept(parse, payload, obs) then multiset{}
    else if !obs.sent then multiset{"error"}
    else if C.QueuedAtHead(obs.reader, InputOf(parse(payload.value.url).value.pr, obs.details.value))
    then multiset{"create_queued"}
    else multiset{"create"}
  }

  lemma CountTriggerMeans(m: Metrics, parse: URLParser, payload: Option<TriggerCommand>, obs: Observation, micros: int)
    ensures var n, e := CountTrigger(m, Run(parse, payload, obs, micros)), Run(parse, payload, obs, micros);
            && n.scanned == m.scanned && n.cycles == m.cycles
            && n.published == m.published + PublishLabels(parse, payload, obs)
            && |n.skipped| == |m.skipped| + (if SeenRejected(parse, payload, obs) then 1 else 0)
            && (SeenRejected(parse, payload, obs) ==>
                  && Verdict(parse, payload, obs).Rejected?
                  && n.skipped == m.skipped + multiset{Verdict(parse, payload, obs).reason})
  {
    RunMeans(parse, payload, obs, micros);
    if !Invalid(parse, payload) && obs.details.Some? {
      VerdictCases(obs.reader, InputOf(parse(payload.value.url).value.pr, obs.details.value));
    }
  }

  /** Every trigger command falls in exactly one of four cases, and the executor's effect and
      answer are those of its case. */
  lemma RunMeans(parse: URLParser, payload: Option<TriggerCommand>, obs: Observation, micros: int)
    ensures var e := Run(parse, payload, obs, micros);
            && (AnswerTo(e) == SkipForGood <==> Invalid(parse, payload) || SeenRejected(parse, payload, obs))
            && (AnswerTo(e) == Redeliver <==>
                  SeenUnjudged(parse, payload, obs) || (SeenKept(parse, payload, obs) && !obs.sent))
            && (AnswerTo(e) == Done <==> SeenKept(parse, payload, obs) && obs.sent)
            && (e.Sent? <==> SeenKept(parse, payload, obs) && obs.sent)
            && (Reaches(e) <==> SeenKept(parse, payload, obs))
    ensures SeenKept(parse, payload, obs) ==>
              var p, d := parse(payload.value.url).value.pr, obs.details.value;
              var e, queued := Run(parse, payload, obs, micros), C.QueuedAtHead(obs.reader, InputOf(p, d));
              && e.pr == p
              && IdOf(e.pr, e.family) == (if payload.value.force then DeriveTaskIDForce(p, d.headSHA, Decimal(micros))
                                          else DeriveTaskID(p, d.headSHA, queued))
              && (obs.sent ==> e == Sent(p, e.family, queued, d))
  {
    if !Invalid(parse, payload) && obs.details.Some? {
      var input := InputOf(parse(payload.value.url).value.pr, obs.details.value);
      VerdictCases(obs.reader, input);
      if C.Keeps(obs.reader, input) { C.KeptMeans(obs.reader, input); }
    }
  }

  lemma VerdictCases(reader: C.ContentReader, input: C.Input)
    ensures C.Verdict(reader, input).Kept? <==> C.Keeps(reader, input)
    ensures C.Verdict(reader, input).Failed? <==> C.Unjudged(reader, input)
    ensures C.Verdict(reader, input).Rejected?
       <==> || !input.isDraft || input.state != "open"
            || reader.content(input.pr.owner, input.pr.repo, ".dark-factory.yaml", input.headSHA).NotFound?
            || C.LacksSpec(reader, input)
  {
    C.VerdictMeans(reader, input);
  }

  // ---- what redelivery does ------------------------------------------------

  predicate Reaches(e: Effect) { e.Sent? || e.NotSent? }

  /** Unforced, the executor and a poll seeing the same use the same identifier, so that the
      controller sees one task. */
  lemma TriggerAgreesWithPoll(cfg: Config, m: Maps, parse: URLParser, cmd: TriggerCommand, pr: PullRequest,
                              obs: Observation, micros: int)
    requires ValidCommand(parse, cmd) && parse(cmd.url).value.pr == pr.Ref() && !cmd.force
    requires !React(cfg, m, ItemOf(cfg, pr, obs)).Skipped?
    ensures var e := Run(parse, Some(cmd), obs, micros);
            Reaches(e) && IdOf(e.pr, e.family) == React(cfg, m, ItemOf(cfg, pr, obs)).id
  {
  }

  /** Prompts are queued at the head that is read. */
  predicate SeenQueued(p: PRRef, obs: Observation)
    requires obs.details.Some?
  {
    var d := obs.details.value;
    var prompts := C.Prompts(obs.reader, C.Input(p, d.headSHA, d.isDraft, d.state));
    prompts.Found? && C.AnyMarkdown(prompts.value)
  }

  /** Forced: neither head nor clock has moved. Unforced: still queued, at whatever head, or
      drained both times and at the same head. */
  predicate SeenAlike(cmd: TriggerCommand, p: PRRef, first: Observation, t: int, again: Observation, u: int)
    requires first.details.Some? && again.details.Some?
  {
    var sameHead := first.details.value.headSHA == again.details.value.headSHA;
    if cmd.force then sameHead && t == u
    else if SeenQueued(p, first) then SeenQueued(p, again)
    else !SeenQueued(p, again) && sameHead
  }

  /** A redelivered or replayed command reads GitHub and the clock again. It uses the same
      identifier exactly when both read alike in this sense; even unforced, a command whose PR
      has moved or drained in between does not. Whether it gets to a send is no matter of the clock. */
  lemma RedeliveryRepeatsTheIdIff(parse: URLParser, cmd: TriggerCommand, first: Observation, t: int,
                                  again: Observation, u: int)
    requires Reaches(Run(parse, Some(cmd), first, t)) && Reaches(Run(parse, Some(cmd), again, u))
    requires parse(cmd.url).value.pr.Valid()
    requires IsSha(first.details.value.headSHA) && IsSha(again.details.value.headSHA)
    ensures var e, f := Run(parse, Some(cmd), first, t), Run(parse, Some(cmd), again, u);
            IdOf(e.pr, e.family) == IdOf(f.pr, f.family) <==>
            SeenAlike(cmd, parse(cmd.url).value.pr, first, t, again, u)
    ensures forall v :: Reaches(Run(parse, Some(cmd), first, v))
  {
    var e, f := Run(parse, Some(cmd), first, t), Run(parse, Some(cmd), again, u);
    TaskIdsDetermineTheirOrigin(e.pr, e.family, f.pr, f.family);
    if Decimal(t) == Decimal(u) { DecimalInjective(t, u); }
  }
}
