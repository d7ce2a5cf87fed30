// Polls, triggers and the task controller running at once: what the identifiers alone
// guarantee, whatever becomes of cursors and markers.
module Interleaving {
  import opened Strings
  import opened TaskIds
  import opened Cursors
  import opened Polling
  import opened Scenes
  import T = Trigger

  /** Why a task may be wanted: a candidate seen at some drained head, queued, or forced. All
      queued windows of a PR, at whatever heads, are one origin. */
  datatype Origin = Origin(pr: PRRef, family: Family)

  /** A command in Kafka's topic: the identifier it carries and, for specification, the
      observation it was published for. */
  datatype Message = Message(id: TaskId, origin: Origin)

  datatype Polled = Polled(mark: Time, maps: Maps)

  /** saved is the cursor file; polls holds the polls under way; topic the commands Kafka
      accepted; tasks the commands the controller created tasks from; seen, for specification,
      what any publisher saw as a candidate. */
  datatype System = System(
    saved: Cursor, polls: map<nat, Polled>, topic: seq<Message>, tasks: seq<Message>, seen: set<Origin>)

  function Start(saved: Cursor): System { System(saved, map[], [], [], {}) }

  /** One step of anything. A poll loads the saved cursor, or, where the file was lost, torn or
      replaced, any cursor whatever. accepted says whether Kafka takes a command, which it may
      do and yet report an error. Deliver hands the controller any command of the topic, again
      or out of order. */
  datatype Action =
    | Load(pid: nat)
    | LoadOther(pid: nat, cursor: Cursor)
    | PollPR(pid: nat, item: Item, accepted: bool)
    | Save(pid: nat)
    | EndPoll(pid: nat)
    | Crash
    | Trigger(parse: T.URLParser, payload: Option<T.TriggerCommand>, obs: Observation, micros: int, accepted: bool)
    | Deliver(index: nat)

  function OriginOf(item: Item): Origin
    requires item.finding.Candidate?
  {
    Origin(item.pr.Ref(), T.PollFamily(item.finding.details.headSHA, item.finding.queued))
  }

  predicate HasTask(tasks: seq<Message>, id: TaskId) {
    exists i :: 0 <= i < |tasks| && tasks[i].id == id
  }

  /** One pull request of poll pid; sent ids are the poll's own, origins what it saw. */
  function PollStep(cfg: Config, s: System, pid: nat, item: Item, accepted: bool): System
    requires pid in s.polls
  {
    var poll := s.polls[pid];
    var e := React(cfg, poll.maps, item);
    var s' := s.(polls := s.polls[pid := Polled(if e.Advances() then Max(poll.mark, e.at) else poll.mark,
                                                Apply(poll.maps, e))]);
    if e.Skipped? then s'
    else s'.(topic := if e.Attempts() && accepted then s.topic + [Message(e.id, OriginOf(item))] else s.topic,
             seen := s.seen + {OriginOf(item)})
  }

  function TriggerStep(s: System, parse: T.URLParser, payload: Option<T.TriggerCommand>, obs: Observation,
                       micros: int, accepted: bool): System {
    var e := T.Run(parse, payload, obs, micros);
    if !T.Reaches(e) then s
    else
      var origin := Origin(e.pr, e.family);
      s.(topic := if accepted then s.topic + [Message(IdOf(e.pr, e.family), origin)] else s.topic,
         seen := s.seen + {origin})
  }

  /** The controller looks at the identifier alone. */
  function DeliverStep(s: System, i: nat): System {
    if i < |s.topic| && !HasTask(s.tasks, s.topic[i].id) then s.(tasks := s.tasks + [s.topic[i]]) else s
  }

  function Next(cfg: Config, s: System, a: Action): System {
    match a
    case Load(pid) => s.(polls := s.polls[pid := Polled(s.saved.lastUpdatedAt, StartMaps(s.saved))])
    case LoadOther(pid, c) => s.(polls := s.polls[pid := Polled(c.lastUpdatedAt, StartMaps(c))])
    case PollPR(pid, item, accepted) => if pid in s.polls then PollStep(cfg, s, pid, item, accepted) else s
    case Save(pid) =>
      if pid !in s.polls then s
      else s.(saved := Cursor(s.polls[pid].mark, s.polls[pid].maps.rebuilt, s.polls[pid].maps.markers))
    case EndPoll(pid) => s.(polls := s.polls - {pid})
    case Crash => s.(polls := map[])
    case Trigger(parse, payload, obs, micros, accepted) => TriggerStep(s, parse, payload, obs, micros, accepted)
    case Deliver(i) => DeliverStep(s, i)
  }

  function Run(cfg: Config, saved: Cursor, actions: seq<Action>): System {
    if actions == [] then Start(saved)
    else Next(cfg, Run(cfg, saved, actions[..|actions| - 1]), actions[|actions| - 1])
  }

  // ---- every task has an origin, and no two have the same ------------------

  /** What every publisher keeps: a command carries the identifier of what was seen. */
  predicate Traceable(s: System) {
    forall i :: 0 <= i < |s.topic| ==>
      s.topic[i].origin in s.seen && s.topic[i].id == IdOf(s.topic[i].origin.pr, s.topic[i].origin.family)
  }

  /** What the controller keeps. */
  predicate OncePerId(s: System) {
    && (forall i, j :: 0 <= i < j < |s.tasks| ==> s.tasks[i].id != s.tasks[j].id)
    && (forall i :: 0 <= i < |s.tasks| ==> s.tasks[i] in s.topic)
  }

  predicate Sound(s: System) { Traceable(s) && OncePerId(s) }

  lemma TopicGrows(s: System, s': System, m: Message)
    requires Sound(s) && s'.tasks == s.tasks && s.seen <= s'.seen
    requires s'.topic == s.topic || s'.topic == s.topic + [m]
    requires m.origin in s'.seen && m.id == IdOf(m.origin.pr, m.origin.family)
    ensures Sound(s')
  {
  }

  lemma PollStepIsSound(cfg: Config, s: System, pid: nat, item: Item, accepted: bool)
    requires Sound(s) && pid in s.polls
    ensures Sound(PollStep(cfg, s, pid, item, accepted))
  {
    var e := React(cfg, s.polls[pid].maps, item);
    if !e.Skipped? {
      var o := OriginOf(item);
      assert e.id == IdOf(o.pr, o.family);
      TopicGrows(s, PollStep(cfg, s, pid, item, accepted), Message(e.id, o));
    }
  }

  lemma TriggerStepIsSound(s: System, parse: T.URLParser, payload: Option<T.TriggerCommand>, obs: Observation,
                           micros: int, accepted: bool)
    requires Sound(s)
    ensures Sound(TriggerStep(s, parse, payload, obs, micros, accepted))
  {
    var e := T.Run(parse, payload, obs, micros);
    if T.Reaches(e) {
      TopicGrows(s, TriggerStep(s, parse, payload, obs, micros, accepted),
                 Message(IdOf(e.pr, e.family), Origin(e.pr, e.family)));
    }
  }

  lemma {:induction false} RunsAreSound(cfg: Config, saved: Cursor, actions: seq<Action>)
    ensures Sound(Run(cfg, saved, actions))
  {
    if actions != [] {
      var s, a := Run(cfg, saved, actions[..|actions| - 1]), actions[|actions| - 1];
      RunsAreSound(cfg, saved, actions[..|actions| - 1]);
      match a
      case PollPR(pid, item, accepted) => if pid in s.polls { PollStepIsSound(cfg, s, pid, item, accepted); }
      case Trigger(parse, payload, obs, micros, accepted) =>
        TriggerStepIsSound(s, parse, payload, obs, micros, accepted);
      case _ =>
    }
  }

  // ---- how many tasks a PR can get -----------------------------------------

  predicate IsUnforced(o: Origin, p: PRRef) { o.pr == p && !o.family.Forced? }

  /** The tasks created for p without force, in order of creation. */
  function TasksOf(tasks: seq<Message>, p: PRRef): seq<Message> {
    if tasks == [] then []
    else
      var front, t := TasksOf(tasks[..|tasks| - 1], p), tasks[|tasks| - 1];
      if IsUnforced(t.origin, p) then front + [t] else front
  }

  /** The drained heads anyone saw p as a candidate at. */
  function DrainedHeads(s: System, p: PRRef): set<string> {
    set o | o in s.seen && o.pr == p && o.family.BySha? :: o.family.sha
  }

  /** The unforced origins of p that were seen. */
  function UnforcedOrigins(s: System, p: PRRef): set<Origin> {
    set o | o in s.seen && IsUnforced(o, p)
  }

  lemma {:induction false} FewerTasksThanOrigins(tasks: seq<Message>, p: PRRef, origins: set<Origin>)
    requires forall i, j :: 0 <= i < j < |tasks| ==> tasks[i].origin != tasks[j].origin
    requires forall i :: 0 <= i < |tasks| && IsUnforced(tasks[i].origin, p) ==> tasks[i].origin in origins
    ensures |TasksOf(tasks, p)| <= |origins|
  {
    if tasks != [] {
      var n := |tasks| - 1;
      var o := tasks[n].origin;
      FewerTasksThanOrigins(tasks[..n], p, if IsUnforced(o, p) then origins - {o} else origins);
    }
  }

  lemma {:induction false} HeadsBoundOrigins(p: PRRef, origins: set<Origin>, heads: set<string>)
    requires forall o :: o in origins ==> o.pr == p && o.family.BySha? && o.family.sha in heads
    ensures |origins| <= |heads|
  {
    if origins != {} {
      var o :| o in origins;
      HeadsBoundOrigins(p, origins - {o}, heads - {o.family.sha});
    }
  }

  lemma UnforcedOriginsAreQueuedOrDrained(s: System, p: PRRef)
    ensures |UnforcedOrigins(s, p)| <= (if Origin(p, Queued) in s.seen then 1 else 0) + |DrainedHeads(s, p)|
  {
    var queued, all := Origin(p, Queued), UnforcedOrigins(s, p);
    forall o | o in all - {queued} ensures o.family.BySha? && o.family.sha in DrainedHeads(s, p) {
      assert o.family != Queued;
    }
    HeadsBoundOrigins(p, all - {queued}, DrainedHeads(s, p));
  }

  /** In every reachable state, however polls, triggers, redeliveries, crashes and cursor
      losses interleave: no origin has two tasks, so that all queued publishes of a PR, at
      any heads and by any publisher, lead to one task, and all publishes at one drained head
      to one; and all unforced tasks of a PR together are at most one, for its queued
      windows if any was seen, and one for each drained head it was seen at. */
  lemma AtMostOneTaskPerWindow(cfg: Config, saved: Cursor, actions: seq<Action>, p: PRRef)
    ensures var s := Run(cfg, saved, actions);
            && (forall i, j :: 0 <= i < j < |s.tasks| ==> s.tasks[i].origin != s.tasks[j].origin)
            && |TasksOf(s.tasks, p)| <= (if Origin(p, Queued) in s.seen then 1 else 0) + |DrainedHeads(s, p)|
  {
    var s := Run(cfg, saved, actions);
    RunsAreSound(cfg, saved, actions);
    forall i | 0 <= i < |s.tasks| ensures s.tasks[i].id == IdOf(s.tasks[i].origin.pr, s.tasks[i].origin.family) {
      assert s.tasks[i] in s.topic;
    }
    FewerTasksThanOrigins(s.tasks, p, UnforcedOrigins(s, p));
    UnforcedOriginsAreQueuedOrDrained(s, p);
  }

  predicate ValidSeen(s: System) {
    forall o :: o in s.seen ==> o.pr.Valid() && WellFormed(o.family)
  }

  /** Any identifier an unforced publisher could use for p. */
  ghost predicate UnforcedId(id: TaskId, p: PRRef) {
    exists sha, queued :: IsSha(sha) && id == DeriveTaskID(p, sha, queued)
  }

  /** And these are all of them: a created task carries the identifier of something seen,
      which no other PR or family shares; so the tasks with an unforced identifier of p are
      exactly those counted for p, and lie within its queued identifier and those of the
      drained heads it was seen at. */
  lemma EveryTaskHasItsOrigin(cfg: Config, saved: Cursor, actions: seq<Action>, t: Message)
    requires ValidSeen(Run(cfg, saved, actions)) && t in Run(cfg, saved, actions).tasks
    ensures t.origin in Run(cfg, saved, actions).seen
    ensures forall q: PRRef, f :: q.Valid() && WellFormed(f) ==>
              (t.id == IdOf(q, f) <==> q == t.origin.pr && f == t.origin.family)
    ensures forall p: PRRef :: p.Valid() ==>
              && (UnforcedId(t.id, p) <==> IsUnforced(t.origin, p))
              && (UnforcedId(t.id, p) ==>
                    || t.id == QueuedId(p)
                    || exists sha :: && sha in DrainedHeads(Run(cfg, saved, actions), p)
                                     && t.id == DeriveTaskID(p, sha, false))
  {
    var s := Run(cfg, saved, actions);
    var o := t.origin;
    RunsAreSound(cfg, saved, actions);
    assert t in s.topic;
    forall q: PRRef, f | q.Valid() && WellFormed(f) ensures t.id == IdOf(q, f) <==> q == o.pr && f == o.family {
      TaskIdsDetermineTheirOrigin(o.pr, o.family, q, f);
    }
    forall p: PRRef | p.Valid() ensures UnforcedId(t.id, p) <==> IsUnforced(o, p) {
      UnforcedIdIff(o, p);
    }
    if o.family.BySha? { assert o.family.sha in DrainedHeads(s, o.pr); }
  }

  lemma UnforcedIdIff(o: Origin, p: PRRef)
    requires o.pr.Valid() && WellFormed(o.family) && p.Valid()
    ensures UnforcedId(IdOf(o.pr, o.family), p) <==> IsUnforced(o, p)
  {
    var id := IdOf(o.pr, o.family);
    if sha, queued :| IsSha(sha) && id == DeriveTaskID(p, sha, queued) {
      TaskIdsDetermineTheirOrigin(o.pr, o.family, p, if queued then Queued else BySha(sha));
    }
    if IsUnforced(o, p) {
      var sha := if o.family.BySha? then o.family.sha else "";
      assert IsSha("") by { assert |QUEUED| == 6; }
      assert id == DeriveTaskID(p, sha, o.family.Queued?);
    }
  }

  // ---- what does not survive interleaving ----------------------------------

  /** A poll whose maps know nothing of a candidate sends for it. */
  lemma UnknownIsSent(cfg: Config, s: System, pid: nat, item: Item)
    requires item.finding.Candidate? && item.sent && pid in s.polls
    requires var o := OriginOf(item); IdOf(o.pr, o.family) !in s.polls[pid].maps.heads
    requires MarkerKey(item.pr.Ref()) !in s.polls[pid].maps.markers
    ensures var s', m, o := Next(cfg, s, PollPR(pid, item, true)), s.polls[pid].maps, OriginOf(item);
            && s'.topic == s.topic + [Message(IdOf(o.pr, o.family), o)]
            && s'.tasks == s.tasks && s'.saved == s.saved
            && s'.polls.Keys == s.polls.Keys
            && (forall q :: q != pid && q in s.polls ==> s'.polls[q] == s.polls[q])
            && s'.polls[pid].maps == Maps(m.heads[IdOf(o.pr, o.family) := item.finding.details.headSHA],
                 if item.finding.queued then m.markers[MarkerKey(o.pr) := QueuedId(o.pr)] else m.markers,
                 m.rebuilt[IdOf(o.pr, o.family) := item.finding.details.headSHA])
  {
    var e := React(cfg, s.polls[pid].maps, item);
    assert e.Published?;
  }

  lemma TwoDelivered(cfg: Config, s: System)
    requires |s.topic| == 2 && s.tasks == []
    ensures var t := Next(cfg, Next(cfg, s, Deliver(0)), Deliver(1)).tasks;
            t == if s.topic[0].id == s.topic[1].id then [s.topic[0]] else s.topic
  {
    var s1 := Next(cfg, s, Deliver(0));
    assert s1.tasks == [s.topic[0]];
    assert HasTask(s1.tasks, s.topic[1].id) <==> s.topic[0].id == s.topic[1].id by {
      if s.topic[0].id == s.topic[1].id { assert s1.tasks[0].id == s.topic[1].id; }
    }
  }

  /** The marker guarantee needs serial polls: two polls at once, from any cursor without an
      entry for the PR, both send its queued command; the controller still creates one task. */
  lemma OverlappingPollsSendTwice(cfg: Config, c: Cursor, item: Item)
    requires item.finding.Candidate? && item.finding.queued && item.sent
    requires QueuedId(item.pr.Ref()) !in c.headSHAs && MarkerKey(item.pr.Ref()) !in c.queuedMarkers
    ensures var m := Message(QueuedId(item.pr.Ref()), Origin(item.pr.Ref(), Queued));
            var loaded := Next(cfg, Next(cfg, Start(c), Load(0)), Load(1));
            var sent := Next(cfg, Next(cfg, loaded, PollPR(0, item, true)), PollPR(1, item, true));
            sent.topic == [m, m] && Next(cfg, Next(cfg, sent, Deliver(0)), Deliver(1)).tasks == [m]
  {
    var loaded := Next(cfg, Next(cfg, Start(c), Load(0)), Load(1));
    UnknownIsSent(cfg, loaded, 0, item);
    var once := Next(cfg, loaded, PollPR(0, item, true));
    UnknownIsSent(cfg, once, 1, item);
    TwoDelivered(cfg, Next(cfg, once, PollPR(1, item, true)));
  }

  /** And a marker can be lost: a poll that loaded earlier and saves last overwrites it, and
      the next poll, though nothing overlaps it any more, sends the drained PR under its SHA
      identifier. A second task arises: the bound above is met. */
  lemma LateSaveCreatesASecondTask(cfg: Config, c: Cursor, queued: Item, drained: Item)
    requires queued.finding.Candidate? && queued.finding.queued && queued.sent
    requires drained.finding.Candidate? && !drained.finding.queued && drained.sent
    requires drained.pr.Ref() == queued.pr.Ref() && queued.pr.Ref().Valid() && IsSha(drained.finding.details.headSHA)
    requires QueuedId(queued.pr.Ref()) !in c.headSHAs && MarkerKey(queued.pr.Ref()) !in c.queuedMarkers
    ensures var p, sha := queued.pr.Ref(), drained.finding.details.headSHA;
            var published := Next(cfg, Next(cfg, Next(cfg, Start(c), Load(0)), Load(1)), PollPR(0, queued, true));
            var overwritten := Next(cfg, Next(cfg, published, Save(0)), Save(1));
            var resent := Next(cfg, Next(cfg, overwritten, Load(2)), PollPR(2, drained, true));
            Next(cfg, Next(cfg, resent, Deliver(0)), Deliver(1)).tasks
              == [Message(QueuedId(p), Origin(p, Queued)), Message(DeriveTaskID(p, sha, false), Origin(p, BySha(sha)))]
  {
    var p, sha := queued.pr.Ref(), drained.finding.details.headSHA;
    var loaded := Next(cfg, Next(cfg, Start(c), Load(0)), Load(1));
    UnknownIsSent(cfg, loaded, 0, queued);
    var published := Next(cfg, loaded, PollPR(0, queued, true));
    var overwritten := Next(cfg, Next(cfg, published, Save(0)), Save(1));
    assert overwritten.saved == Cursor(c.lastUpdatedAt, map[], c.queuedMarkers);
    UnknownIsSent(cfg, Next(cfg, overwritten, Load(2)), 2, drained);
    ShaMeetsQueued(p, sha, p);
    TwoDelivered(cfg, Next(cfg, Next(cfg, overwritten, Load(2)), PollPR(2, drained, true)));
  }

  lemma TriggerIsSent(s: System, parse: T.URLParser, cmd: T.TriggerCommand, obs: Observation, micros: int)
    requires T.Reaches(T.Run(parse, Some(cmd), obs, micros))
    ensures var e, s' := T.Run(parse, Some(cmd), obs, micros), TriggerStep(s, parse, Some(cmd), obs, micros, true);
            && s'.topic == s.topic + [Message(IdOf(e.pr, e.family), Origin(e.pr, e.family))]
            && s'.tasks == s.tasks
  {
  }

  /** A command handled twice, and what it sent delivered. */
  function TasksOfRedelivery(cfg: Config, c: Cursor, parse: T.URLParser, cmd: T.TriggerCommand,
                             first: Observation, t: int, again: Observation, u: int): seq<Message> {
    var sent := Next(cfg, Next(cfg, Start(c), Trigger(parse, Some(cmd), first, t, true)),
                     Trigger(parse, Some(cmd), again, u, true));
    Next(cfg, Next(cfg, sent, Deliver(0)), Deliver(1)).tasks
  }

  /** One command handled twice, whatever GitHub shows and the clock says each time: one task
      is created exactly if both read alike, and else two. */
  lemma RedeliveryCreatesOneIff(cfg: Config, c: Cursor, parse: T.URLParser, cmd: T.TriggerCommand,
                                first: Observation, t: int, again: Observation, u: int)
    requires T.Reaches(T.Run(parse, Some(cmd), first, t)) && T.Reaches(T.Run(parse, Some(cmd), again, u))
    requires parse(cmd.url).value.pr.Valid()
    requires IsSha(first.details.value.headSHA) && IsSha(again.details.value.headSHA)
    ensures |TasksOfRedelivery(cfg, c, parse, cmd, first, t, again, u)|
         == if T.SeenAlike(cmd, parse(cmd.url).value.pr, first, t, again, u) then 1 else 2
  {
    T.RedeliveryRepeatsTheIdIff(parse, cmd, first, t, again, u);
    TriggerIsSent(Start(c), parse, cmd, first, t);
    var once := TriggerStep(Start(c), parse, Some(cmd), first, t, true);
    TriggerIsSent(once, parse, cmd, again, u);
    TwoDelivered(cfg, TriggerStep(once, parse, Some(cmd), again, u, true));
  }

  /** A forced command redelivered once the clock has moved creates a second task. */
  lemma ForcedRedeliveryCreatesTwo(cfg: Config, c: Cursor, parse: T.URLParser, cmd: T.TriggerCommand,
                                   obs: Observation, t: int, u: int)
    requires cmd.force && t != u && T.Reaches(T.Run(parse, Some(cmd), obs, t))
    requires parse(cmd.url).value.pr.Valid() && IsSha(obs.details.value.headSHA)
    ensures |TasksOfRedelivery(cfg, c, parse, cmd, obs, t, obs, u)| == 2
  {
    T.RedeliveryRepeatsTheIdIff(parse, cmd, obs, t, obs, t);
    RedeliveryCreatesOneIff(cfg, c, parse, cmd, obs, t, obs, u);
  }

  lemma DraftReaches(parse: T.URLParser, cmd: T.TriggerCommand, sha: string, queued: bool, t: int)
    requires T.ValidCommand(parse, cmd)
    ensures T.Reaches(T.Run(parse, Some(cmd), Draft(sha, queued, true), t))
    ensures T.SeenQueued(parse(cmd.url).value.pr, Draft(sha, queued, true)) == queued
  {
    DraftIsKept(parse(cmd.url).value.pr, sha, queued);
  }

  /** So does an unforced one, at the same time on the clock: if its queue has drained in
      between, or if it was drained and its head has moved. */
  lemma UnforcedRedeliveryCreatesTwo(cfg: Config, c: Cursor, parse: T.URLParser, cmd: T.TriggerCommand,
                                     sha: string, moved: string, t: int)
    requires !cmd.force && T.ValidCommand(parse, cmd) && parse(cmd.url).value.pr.Valid()
    requires IsSha(sha) && IsSha(moved) && sha != moved
    ensures |TasksOfRedelivery(cfg, c, parse, cmd, Draft(sha, true, true), t, Draft(sha, false, true), t)| == 2
    ensures |TasksOfRedelivery(cfg, c, parse, cmd, Draft(sha, false, true), t, Draft(moved, false, true), t)| == 2
  {
    DraftReaches(parse, cmd, sha, true, t);
    DraftReaches(parse, cmd, sha, false, t);
    DraftReaches(parse, cmd, moved, false, t);
    RedeliveryCreatesOneIff(cfg, c, parse, cmd, Draft(sha, true, true), t, Draft(sha, false, true), t);
    RedeliveryCreatesOneIff(cfg, c, parse, cmd, Draft(sha, false, true), t, Draft(moved, false, true), t);
  }
}
