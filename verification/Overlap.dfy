// Polls that overlap: which of them keep one trigger per queued phase. A poll knows what its
// cursor descends from, and nothing else.
module Overlap {
  import opened Strings
  import opened TaskIds
  import opened Cursors
  import opened Polling
  import opened Logs
  import opened Interleaving
  import opened Scenes
  import C = Candidate

  // ---- descent, from the schedule alone ------------------------------------

  /** What a cursor or a poll goes back to, in steps of the schedule: the step that replaced
      the cursor, or None for the first one; the pull requests processed by each of the polls
      whose saves it descends from, in order; and those the poll itself processed. */
  datatype Lineage = Lineage(root: Option<nat>, saves: seq<seq<nat>>, own: seq<nat>)

  datatype Lineages = Lineages(saved: Lineage, polls: map<nat, Lineage>)

  function Resumed(q: Lineage): Lineage { Lineage(q.root, q.saves + [q.own], []) }

  function Descend(l: Lineages, a: Action, k: nat): Lineages {
    match a
    case Load(pid) => l.(polls := l.polls[pid := l.saved])
    case LoadOther(pid, _) => l.(polls := l.polls[pid := Lineage(Some(k), [], [])])
    case PollPR(pid, _, _) =>
      if pid !in l.polls then l
      else l.(polls := l.polls[pid := l.polls[pid].(own := l.polls[pid].own + [k])])
    case Save(pid) => if pid !in l.polls then l else l.(saved := Resumed(l.polls[pid]))
    case EndPoll(pid) => l.(polls := l.polls - {pid})
    case Crash => l.(polls := map[])
    case _ => l
  }

  function LineagesOf(actions: seq<Action>): Lineages {
    if actions == [] then Lineages(Lineage(None, [], []), map[])
    else Descend(LineagesOf(actions[..|actions| - 1]), actions[|actions| - 1], |actions| - 1)
  }

  function Flat(saves: seq<seq<nat>>): seq<nat> {
    if saves == [] then [] else Flat(saves[..|saves| - 1]) + saves[|saves| - 1]
  }

  /** All steps a lineage knows of. */
  function Past(q: Lineage): seq<nat> { Flat(q.saves) + q.own }

  /** Step k processes a pull request in a poll under way. */
  predicate Processes(actions: seq<Action>, k: nat) {
    k < |actions| && actions[k].PollPR? && actions[k].pid in LineagesOf(actions[..k]).polls
  }

  /** The lineage of the poll that step k belongs to, in front of the step. */
  function LineageAt(actions: seq<Action>, k: nat): Lineage
    requires Processes(actions, k)
  {
    LineagesOf(actions[..k]).polls[actions[k].pid]
  }

  /** Step m knows of step k: both are of one poll, or the poll of m was loaded from a save
      that descends, over any number of polls, from the poll of k behind step k. */
  predicate Knows(actions: seq<Action>, m: nat, k: nat)
    requires Processes(actions, m)
  {
    k in Past(LineageAt(actions, m))
  }

  /** How descent passes on: a save hands on all that its poll knows, in place of what was
      saved; a load takes over all that is saved. */
  lemma DescentPassesOn(actions: seq<Action>, j: nat)
    requires j < |actions|
    ensures var l, l' := LineagesOf(actions[..j]), LineagesOf(actions[..j + 1]);
            && (actions[j].Save? && actions[j].pid in l.polls ==> Past(l'.saved) == Past(l.polls[actions[j].pid]))
            && (actions[j].Load? ==> Past(l'.polls[actions[j].pid]) == Past(l.saved))
  {
    var l := LineagesOf(actions[..j]);
    assert actions[..j + 1][..j] == actions[..j];
    if actions[j].Save? && actions[j].pid in l.polls { PastOfResumed(l.polls[actions[j].pid]); }
  }

  // ---- the state is the lineage --------------------------------------------

  /** What step k amounts to; a step that processes no pull request skips none. */
  function EventOf(cfg: Config, saved: Cursor, actions: seq<Action>, k: nat): Event {
    if k < |actions| && actions[k].PollPR? && actions[k].pid in Run(cfg, saved, actions[..k]).polls then
      React(cfg, Run(cfg, saved, actions[..k]).polls[actions[k].pid].maps, actions[k].item)
    else Skipped(PRRef("", "", 0), "")
  }

  function EventsOf(cfg: Config, saved: Cursor, actions: seq<Action>, steps: seq<nat>): (es: seq<Event>)
    ensures |es| == |steps|
  {
    seq(|steps|, i requires 0 <= i < |steps| => EventOf(cfg, saved, actions, steps[i]))
  }

  function RootOf(saved: Cursor, actions: seq<Action>, q: Lineage): Cursor {
    if q.root.Some? && q.root.value < |actions| && actions[q.root.value].LoadOther? then actions[q.root.value].cursor
    else saved
  }

  /** The loaded head map: rebuilt by the latest of the saves, or that of the root. */
  function LoadedHeads(cfg: Config, saved: Cursor, actions: seq<Action>, q: Lineage): map<TaskId, string> {
    if q.saves == [] then RootOf(saved, actions, q).headSHAs
    else RebuiltAfter(EventsOf(cfg, saved, actions, q.saves[|q.saves| - 1]))
  }

  /** The maps a lineage accounts for. */
  function MapsOf(cfg: Config, saved: Cursor, actions: seq<Action>, q: Lineage): Maps {
    var own := EventsOf(cfg, saved, actions, q.own);
    Maps(HeadsAfter(LoadedHeads(cfg, saved, actions, q), own),
         MarkersAfter(RootOf(saved, actions, q).queuedMarkers, EventsOf(cfg, saved, actions, Past(q))),
         RebuiltAfter(own))
  }

  predicate AllBelow(steps: seq<nat>, n: nat) { forall i :: 0 <= i < |steps| ==> steps[i] < n }

  predicate Rising(steps: seq<nat>) { forall i, j :: 0 <= i < j < |steps| ==> steps[i] < steps[j] }

  predicate Timely(q: Lineage, n: nat) {
    AllBelow(Past(q), n) && Rising(Past(q))
  }

  lemma PastOfResumed(q: Lineage)
    ensures Past(Resumed(q)) == Past(q)
  {
    assert (q.saves + [q.own])[..|q.saves|] == q.saves;
  }

  lemma PastOfStep(q: Lineage, k: nat)
    ensures Past(q.(own := q.own + [k])) == Past(q) + [k]
  {
  }

  lemma {:induction false} LineagesAreTimely(actions: seq<Action>)
    ensures var l := LineagesOf(actions);
            Timely(l.saved, |actions|) && forall pid :: pid in l.polls ==> Timely(l.polls[pid], |actions|)
  {
    if actions != [] {
      var n := |actions| - 1;
      var l, a := LineagesOf(actions[..n]), actions[n];
      LineagesAreTimely(actions[..n]);
      match a
      case PollPR(pid, _, _) => if pid in l.polls { PastOfStep(l.polls[pid], n); }
      case Save(pid) => if pid in l.polls { PastOfResumed(l.polls[pid]); }
      case _ =>
    }
  }

  /** Every poll and the saved cursor are what their lineages account for. */
  ghost predicate Accounted(cfg: Config, saved: Cursor, actions: seq<Action>, s: System, l: Lineages) {
    && StartMaps(s.saved) == MapsOf(cfg, saved, actions, l.saved)
    && s.polls.Keys == l.polls.Keys
    && forall pid :: pid in s.polls ==> s.polls[pid].maps == MapsOf(cfg, saved, actions, l.polls[pid])
  }

  lemma EventsSnoc(cfg: Config, saved: Cursor, actions: seq<Action>, steps: seq<nat>, k: nat)
    ensures EventsOf(cfg, saved, actions, steps + [k])
         == EventsOf(cfg, saved, actions, steps) + [EventOf(cfg, saved, actions, k)]
  {
  }

  lemma FoldsSnoc(heads: map<TaskId, string>, markers: map<string, TaskId>, es: seq<Event>, e: Event)
    ensures HeadsAfter(heads, es + [e]) == Publishing(HeadsAfter(heads, es), e)
    ensures MarkersAfter(markers, es + [e]) == Marking(MarkersAfter(markers, es), e)
    ensures RebuiltAfter(es + [e]) == Rebuilding(RebuiltAfter(es), e)
  {
    assert (es + [e])[..|es|] == es;
  }

  lemma StepIsAccounted(cfg: Config, saved: Cursor, actions: seq<Action>, q: Lineage, k: nat)
    ensures MapsOf(cfg, saved, actions, q.(own := q.own + [k]))
         == Apply(MapsOf(cfg, saved, actions, q), EventOf(cfg, saved, actions, k))
  {
    var own, past, e := EventsOf(cfg, saved, actions, q.own), EventsOf(cfg, saved, actions, Past(q)),
                        EventOf(cfg, saved, actions, k);
    PastOfStep(q, k);
    EventsSnoc(cfg, saved, actions, q.own, k);
    EventsSnoc(cfg, saved, actions, Past(q), k);
    FoldsSnoc(LoadedHeads(cfg, saved, actions, q), RootOf(saved, actions, q).queuedMarkers, own, e);
    FoldsSnoc(LoadedHeads(cfg, saved, actions, q), RootOf(saved, actions, q).queuedMarkers, past, e);
  }

  lemma SaveIsAccounted(cfg: Config, saved: Cursor, actions: seq<Action>, q: Lineage)
    ensures var m, r := MapsOf(cfg, saved, actions, q), MapsOf(cfg, saved, actions, Resumed(q));
            r == Maps(m.rebuilt, m.markers, map[])
  {
    PastOfResumed(q);
  }

  lemma RootIsAccounted(cfg: Config, saved: Cursor, actions: seq<Action>, q: Lineage)
    requires q.saves == [] && q.own == []
    ensures MapsOf(cfg, saved, actions, q) == StartMaps(RootOf(saved, actions, q))
  {
  }

  lemma PollPRChanges(cfg: Config, s: System, pid: nat, item: Item, accepted: bool)
    requires pid in s.polls
    ensures var s', m := Next(cfg, s, PollPR(pid, item, accepted)), s.polls[pid].maps;
            && s'.saved == s.saved && s'.polls.Keys == s.polls.Keys
            && s'.polls[pid].maps == Apply(m, React(cfg, m, item))
            && forall q :: q in s.polls && q != pid ==> s'.polls[q] == s.polls[q]
  {
  }

  lemma OnePollIsAccounted(cfg: Config, saved: Cursor, actions: seq<Action>, s: System, l: Lineages,
                           s': System, pid: nat, q': Lineage)
    requires Accounted(cfg, saved, actions, s, l) && pid in l.polls
    requires s'.saved == s.saved && s'.polls.Keys == s.polls.Keys
    requires s'.polls[pid].maps == MapsOf(cfg, saved, actions, q')
    requires forall q :: q in s.polls && q != pid ==> s'.polls[q] == s.polls[q]
    ensures Accounted(cfg, saved, actions, s', l.(polls := l.polls[pid := q']))
  {
  }

  lemma PollPRIsAccounted(cfg: Config, saved: Cursor, actions: seq<Action>, k: nat, s: System, l: Lineages)
    requires k < |actions| && actions[k].PollPR? && actions[k].pid in l.polls
    requires s == Run(cfg, saved, actions[..k]) && Accounted(cfg, saved, actions, s, l)
    ensures Accounted(cfg, saved, actions, Next(cfg, s, actions[k]), Descend(l, actions[k], k))
  {
    var pid := actions[k].pid;
    PollPRChanges(cfg, s, pid, actions[k].item, actions[k].accepted);
    StepIsAccounted(cfg, saved, actions, l.polls[pid], k);
    OnePollIsAccounted(cfg, saved, actions, s, l, Next(cfg, s, actions[k]), pid,
                       l.polls[pid].(own := l.polls[pid].own + [k]));
  }

  lemma SavedIsAccounted(cfg: Config, saved: Cursor, actions: seq<Action>, s: System, l: Lineages, pid: nat, k: nat)
    requires pid in l.polls && Accounted(cfg, saved, actions, s, l)
    ensures Accounted(cfg, saved, actions, Next(cfg, s, Save(pid)), Descend(l, Save(pid), k))
  {
    SaveIsAccounted(cfg, saved, actions, l.polls[pid]);
  }

  lemma LoadIsAccounted(cfg: Config, saved: Cursor, actions: seq<Action>, s: System, l: Lineages, a: Action, k: nat)
    requires (a.Load? || a.EndPoll? || a.Crash?) && Accounted(cfg, saved, actions, s, l)
    ensures Accounted(cfg, saved, actions, Next(cfg, s, a), Descend(l, a, k))
  {
  }

  lemma LoadOtherIsAccounted(cfg: Config, saved: Cursor, actions: seq<Action>, s: System, l: Lineages, k: nat)
    requires k < |actions| && actions[k].LoadOther? && Accounted(cfg, saved, actions, s, l)
    ensures Accounted(cfg, saved, actions, Next(cfg, s, actions[k]), Descend(l, actions[k], k))
  {
    RootIsAccounted(cfg, saved, actions, Lineage(Some(k), [], []));
  }

  /** Triggers and the controller touch neither cursor nor polls. */
  lemma OthersChangeNothing(cfg: Config, s: System, a: Action)
    requires a.Trigger? || a.Deliver?
    ensures Next(cfg, s, a).saved == s.saved && Next(cfg, s, a).polls == s.polls
  {
  }

  lemma UnchangedIsAccounted(cfg: Config, saved: Cursor, actions: seq<Action>, s: System, l: Lineages, s': System)
    requires Accounted(cfg, saved, actions, s, l) && s'.saved == s.saved && s'.polls == s.polls
    ensures Accounted(cfg, saved, actions, s', l)
  {
  }

  lemma NextIsAccounted(cfg: Config, saved: Cursor, actions: seq<Action>, k: nat, s: System, l: Lineages)
    requires k < |actions|
    requires s == Run(cfg, saved, actions[..k]) && Accounted(cfg, saved, actions, s, l)
    ensures Accounted(cfg, saved, actions, Next(cfg, s, actions[k]), Descend(l, actions[k], k))
  {
    var a := actions[k];
    if a.PollPR? {
      if a.pid in l.polls { PollPRIsAccounted(cfg, saved, actions, k, s, l); }
    } else if a.Save? {
      if a.pid in l.polls { SavedIsAccounted(cfg, saved, actions, s, l, a.pid, k); }
    } else if a.LoadOther? {
      LoadOtherIsAccounted(cfg, saved, actions, s, l, k);
    } else if a.Trigger? || a.Deliver? {
      OthersChangeNothing(cfg, s, a);
      UnchangedIsAccounted(cfg, saved, actions, s, l, Next(cfg, s, a));
    } else {
      LoadIsAccounted(cfg, saved, actions, s, l, a, k);
    }
  }

  lemma {:induction false} RunsAreAccounted(cfg: Config, saved: Cursor, actions: seq<Action>, n: nat)
    requires n <= |actions|
    ensures Accounted(cfg, saved, actions, Run(cfg, saved, actions[..n]), LineagesOf(actions[..n]))
  {
    if n == 0 {
      RootIsAccounted(cfg, saved, actions, Lineage(None, [], []));
    } else {
      RunsAreAccounted(cfg, saved, actions, n - 1);
      NextIsAccounted(cfg, saved, actions, n - 1, Run(cfg, saved, actions[..n - 1]), LineagesOf(actions[..n - 1]));
      assert actions[..n][..n - 1] == actions[..n - 1];
    }
  }

  // ---- suppression is what the lineage knows -------------------------------

  predicate ValidActions(actions: seq<Action>) {
    forall i :: 0 <= i < |actions| && actions[i].PollPR? ==> actions[i].item.pr.Ref().Valid()
  }

  lemma EventsAreValid(cfg: Config, saved: Cursor, actions: seq<Action>, steps: seq<nat>)
    requires ValidActions(actions)
    ensures ValidLog(EventsOf(cfg, saved, actions, steps))
  {
  }

  /** The identifier advanced in the latest save the poll descends from, or stands in the
      cursor it goes back to; or the poll itself has published it. */
  predicate IdKnown(cfg: Config, saved: Cursor, actions: seq<Action>, q: Lineage, id: TaskId) {
    || PublishedId(EventsOf(cfg, saved, actions, q.own), id)
    || (if q.saves == [] then id in RootOf(saved, actions, q).headSHAs
        else AdvancedId(EventsOf(cfg, saved, actions, q.saves[|q.saves| - 1]), id))
  }

  /** The latest of what the poll knows of p, queued publish or drop, is a publish; or the
      cursor it goes back to has a marker and it knows of no drop. */
  predicate PRArmed(cfg: Config, saved: Cursor, actions: seq<Action>, q: Lineage, p: PRRef) {
    var es := EventsOf(cfg, saved, actions, Past(q));
    Armed(es, p) || (MarkerKey(p) in RootOf(saved, actions, q).queuedMarkers && NeverDropped(es, p))
  }

  lemma EventIsReaction(cfg: Config, saved: Cursor, actions: seq<Action>, k: nat)
    requires Processes(actions, k)
    ensures EventOf(cfg, saved, actions, k)
         == React(cfg, MapsOf(cfg, saved, actions, LineageAt(actions, k)), actions[k].item)
  {
    RunsAreAccounted(cfg, saved, actions, k);
  }

  lemma KnownIsInHeads(cfg: Config, saved: Cursor, actions: seq<Action>, q: Lineage, id: TaskId)
    ensures IdKnown(cfg, saved, actions, q, id) <==> id in MapsOf(cfg, saved, actions, q).heads
  {
    HeadsAreLoadedOrPublished(LoadedHeads(cfg, saved, actions, q), EventsOf(cfg, saved, actions, q.own), id);
    if q.saves != [] {
      RebuiltIsWhatAdvanced(EventsOf(cfg, saved, actions, q.saves[|q.saves| - 1]), id);
    }
  }

  lemma ArmedIsMarked(cfg: Config, saved: Cursor, actions: seq<Action>, q: Lineage, p: PRRef)
    requires ValidActions(actions) && p.Valid()
    ensures PRArmed(cfg, saved, actions, q, p) <==> MarkerKey(p) in MapsOf(cfg, saved, actions, q).markers
  {
    EventsAreValid(cfg, saved, actions, Past(q));
    MarkersAreHistory(RootOf(saved, actions, q).queuedMarkers, EventsOf(cfg, saved, actions, Past(q)), p);
  }

  lemma ReactionIsByMaps(cfg: Config, m: Maps, item: Item)
    requires !React(cfg, m, item).Skipped?
    ensures var e := React(cfg, m, item);
            var known, marked := e.id in m.heads, MarkerKey(e.pr) in m.markers;
            && e.pr == item.pr.Ref()
            && (e.Deduped? <==> known)
            && (e.Suppressed? <==> !known && marked)
            && (e.Attempts() <==> !known && !marked)
  {
  }

  /** However polls overlap, die, save late or lose the cursor: why a candidate is deduped,
      suppressed or sent, from the events its poll descends from and no others. */
  lemma SuppressionIsLineage(cfg: Config, saved: Cursor, actions: seq<Action>, k: nat)
    requires ValidActions(actions) && Processes(actions, k) && !EventOf(cfg, saved, actions, k).Skipped?
    ensures var e, q := EventOf(cfg, saved, actions, k), LineageAt(actions, k);
            var known, armed := IdKnown(cfg, saved, actions, q, e.id), PRArmed(cfg, saved, actions, q, e.pr);
            && (e.Deduped? <==> known)
            && (e.Suppressed? <==> !known && armed)
            && (e.Attempts() <==> !known && !armed)
  {
    var e, q := EventOf(cfg, saved, actions, k), LineageAt(actions, k);
    EventIsReaction(cfg, saved, actions, k);
    KnownIsInHeads(cfg, saved, actions, q, e.id);
    ArmedIsMarked(cfg, saved, actions, q, e.pr);
    ReactionIsByMaps(cfg, MapsOf(cfg, saved, actions, q), actions[k].item);
  }

  // ---- one trigger per queued phase ----------------------------------------

  /** If step k arms p and step m attempts to send for it, a step between them saw p dropped. */
  predicate KeepsOneTrigger(cfg: Config, saved: Cursor, actions: seq<Action>, k: nat, m: nat, p: PRRef) {
    var e, f := EventOf(cfg, saved, actions, k), EventOf(cfg, saved, actions, m);
    e.Arms(p) && f.Attempts() && f.pr == p ==>
      exists d :: k < d < m && EventOf(cfg, saved, actions, d).Drops(p)
  }

  lemma DropBehind(es: seq<Event>, i: nat, p: PRRef) returns (j: nat)
    requires i < |es| && es[i].Arms(p) && !Armed(es, p)
    ensures i < j < |es| && es[j].Drops(p)
  {
    j :| i < j < |es| && es[j].Drops(p);
  }

  /** A poll that knows of the publish keeps the queued phase to one trigger. */
  lemma KnownPublishIsKept(cfg: Config, saved: Cursor, actions: seq<Action>, k: nat, m: nat, p: PRRef)
    requires ValidActions(actions) && Processes(actions, m) && Knows(actions, m, k)
    ensures KeepsOneTrigger(cfg, saved, actions, k, m, p)
  {
    var e, q := EventOf(cfg, saved, actions, m), LineageAt(actions, m);
    if EventOf(cfg, saved, actions, k).Arms(p) && e.Attempts() && e.pr == p {
      var past, es := Past(q), EventsOf(cfg, saved, actions, Past(q));
      SuppressionIsLineage(cfg, saved, actions, m);
      LineagesAreTimely(actions[..m]);
      var i :| 0 <= i < |past| && past[i] == k;
      var j := DropBehind(es, i, p);
      assert k < past[j] < m && EventOf(cfg, saved, actions, past[j]).Drops(p);
    }
  }

  // ---- and one that does not know of it does not ---------------------------

  /** The same moves of the same polls; what they see, and what a lost cursor is replaced by,
      may differ. */
  predicate Alike(a: Action, b: Action) {
    match (a, b)
    case (Load(p), Load(q)) => p == q
    case (LoadOther(p, _), LoadOther(q, _)) => p == q
    case (PollPR(p, _, _), PollPR(q, _, _)) => p == q
    case (Save(p), Save(q)) => p == q
    case (EndPoll(p), EndPoll(q)) => p == q
    case (Crash, Crash) => true
    case (Trigger(_, _, _, _, _), Trigger(_, _, _, _, _)) => true
    case (Deliver(_), Deliver(_)) => true
    case _ => false
  }

  predicate SameSchedule(a: seq<Action>, b: seq<Action>) {
    |a| == |b| && forall i :: 0 <= i < |a| ==> Alike(a[i], b[i])
  }

  lemma {:induction false} LineagesFollowTheSchedule(a: seq<Action>, b: seq<Action>)
    requires SameSchedule(a, b)
    ensures LineagesOf(a) == LineagesOf(b)
  {
    if a != [] {
      LineagesFollowTheSchedule(a[..|a| - 1], b[..|b| - 1]);
      assert Alike(a[|a| - 1], b[|b| - 1]);
    }
  }

  lemma KnowsFollowsTheSchedule(a: seq<Action>, b: seq<Action>, k: nat)
    requires SameSchedule(a, b)
    ensures Processes(a, k) <==> Processes(b, k)
    ensures Processes(a, k) ==> LineageAt(a, k) == LineageAt(b, k)
  {
    if k < |a| {
      assert Alike(a[k], b[k]);
      LineagesFollowTheSchedule(a[..k], b[..k]);
    }
  }

  /** Each poll's step is what GitHub may show of some pull request. */
  ghost predicate Realizable(cfg: Config, actions: seq<Action>) {
    forall i :: 0 <= i < |actions| && actions[i].PollPR? ==> Observed(cfg, actions[i].item)
  }

  ghost predicate Observed(cfg: Config, item: Item) { exists pr, obs :: item == ItemOf(cfg, pr, obs) }

  /** The schedule of plan in which pr is seen queued at step k, drained at step m and not at
      all in between and before. */
  function Scene(cfg: Config, plan: seq<Action>, k: nat, m: nat, pr: PullRequest): seq<Action> {
    seq(|plan|, i requires 0 <= i < |plan| => SceneAction(cfg, plan[i], pr, SceneView(i, k, m)))
  }

  function SceneView(i: nat, k: nat, m: nat): Observation {
    if i == k then Draft("a", true, true) else if i == m then Draft("a", false, true) else Unreadable()
  }

  function SceneAction(cfg: Config, a: Action, pr: PullRequest, obs: Observation): Action {
    match a
    case PollPR(pid, _, _) => PollPR(pid, ItemOf(cfg, pr, obs), true)
    case LoadOther(pid, _) => LoadOther(pid, NewCursor(0))
    case _ => a
  }

  lemma SceneIsRealizable(cfg: Config, plan: seq<Action>, k: nat, m: nat, pr: PullRequest)
    requires pr.Ref().Valid()
    ensures var scene := Scene(cfg, plan, k, m, pr);
            SameSchedule(scene, plan) && ValidActions(scene) && Realizable(cfg, scene)
  {
    var scene := Scene(cfg, plan, k, m, pr);
    forall i | 0 <= i < |plan| && scene[i].PollPR? ensures Observed(cfg, scene[i].item) {
      assert scene[i].item == ItemOf(cfg, pr, SceneView(i, k, m));
    }
  }

  lemma OtherStepsAreQuiet(cfg: Config, plan: seq<Action>, k: nat, m: nat, pr: PullRequest, i: nat, p: PRRef)
    requires i != k && i != m
    ensures var e := EventOf(cfg, NewCursor(0), Scene(cfg, plan, k, m, pr), i);
            e.Skipped? && !e.Drops(p)
  {
    UnreadableIsSkipped(cfg, pr.Ref());
    var scene := Scene(cfg, plan, k, m, pr);
    if i < |plan| && scene[i].PollPR? { assert scene[i].item == ItemOf(cfg, pr, Unreadable()); }
    assert |C.NO_SPEC| == 15 && |C.NOT_OPEN| == 8;
  }

  /** A lineage with neither step in it knows nothing. */
  lemma OthersKnowNothing(cfg: Config, plan: seq<Action>, k: nat, m: nat, pr: PullRequest, q: Lineage, id: TaskId)
    requires k !in Past(q) && m !in Past(q)
    ensures var scene := Scene(cfg, plan, k, m, pr);
            !IdKnown(cfg, NewCursor(0), scene, q, id) && !PRArmed(cfg, NewCursor(0), scene, q, pr.Ref())
  {
    var scene := Scene(cfg, plan, k, m, pr);
    assert forall x :: x in q.own ==> x in Past(q);
    assert q.saves != [] ==> forall x :: x in q.saves[|q.saves| - 1] ==> x in Past(q);
    forall i | i in Past(q) ensures EventOf(cfg, NewCursor(0), scene, i).Skipped? {
      OtherStepsAreQuiet(cfg, plan, k, m, pr, i, pr.Ref());
    }
    assert RootOf(NewCursor(0), scene, q) == NewCursor(0);
  }

  lemma SceneSends(cfg: Config, plan: seq<Action>, k: nat, m: nat, pr: PullRequest, n: nat)
    requires n in {k, m} && k != m && pr.Ref().Valid() && !cfg.outOfScope(RepoKey(pr.Ref()))
    requires Processes(plan, n) && k !in Past(LineageAt(plan, n)) && m !in Past(LineageAt(plan, n))
    ensures var e := EventOf(cfg, NewCursor(0), Scene(cfg, plan, k, m, pr), n);
            e.pr == pr.Ref() && e.Published? && e.queued == (n == k)
  {
    var scene := Scene(cfg, plan, k, m, pr);
    SceneIsRealizable(cfg, plan, k, m, pr);
    KnowsFollowsTheSchedule(scene, plan, n);
    EventIsReaction(cfg, NewCursor(0), scene, n);
    DraftIsACandidate(cfg, pr.Ref(), "a", n == k, true);
    assert scene[n].item == ItemOf(cfg, pr, Draft("a", n == k, true));
    var e := EventOf(cfg, NewCursor(0), scene, n);
    SuppressionIsLineage(cfg, NewCursor(0), scene, n);
    OthersKnowNothing(cfg, plan, k, m, pr, LineageAt(plan, n), e.id);
  }

  lemma UnknownPublishIsRepeated(cfg: Config, plan: seq<Action>, k: nat, m: nat, pr: PullRequest)
    requires k < m && Processes(plan, k) && Processes(plan, m) && !Knows(plan, m, k)
    requires pr.Ref().Valid() && !cfg.outOfScope(RepoKey(pr.Ref()))
    ensures !KeepsOneTrigger(cfg, NewCursor(0), Scene(cfg, plan, k, m, pr), k, m, pr.Ref())
  {
    LineagesAreTimely(plan[..k]);
    LineagesAreTimely(plan[..m]);
    SceneSends(cfg, plan, k, m, pr, k);
    SceneSends(cfg, plan, k, m, pr, m);
    forall d | k < d < m ensures !EventOf(cfg, NewCursor(0), Scene(cfg, plan, k, m, pr), d).Drops(pr.Ref()) {
      OtherStepsAreQuiet(cfg, plan, k, m, pr, d, pr.Ref());
    }
  }

  /** Which overlaps keep one trigger per queued phase, by schedule alone: between a queued
      publish at step k and an attempt at step m a drop is sure to lie, whatever the polls
      see, exactly if step m knows of step k. */
  lemma OneTriggerIff(cfg: Config, plan: seq<Action>, k: nat, m: nat, pr: PullRequest)
    requires k < m && Processes(plan, k) && Processes(plan, m)
    requires pr.Ref().Valid() && !cfg.outOfScope(RepoKey(pr.Ref()))
    ensures Knows(plan, m, k)
       <==> forall saved, actions ::
              SameSchedule(actions, plan) && ValidActions(actions) && Realizable(cfg, actions) ==>
              KeepsOneTrigger(cfg, saved, actions, k, m, pr.Ref())
  {
    if Knows(plan, m, k) {
      forall saved, actions | SameSchedule(actions, plan) && ValidActions(actions)
        ensures KeepsOneTrigger(cfg, saved, actions, k, m, pr.Ref())
      {
        KnowsFollowsTheSchedule(actions, plan, m);
        KnownPublishIsKept(cfg, saved, actions, k, m, pr.Ref());
      }
    } else {
      SceneIsRealizable(cfg, plan, k, m, pr);
      UnknownPublishIsRepeated(cfg, plan, k, m, pr);
    }
  }

  // ---- serial polls --------------------------------------------------------

  /** A poll starts only while none is under way, and the cursor is never lost. */
  predicate Serial(actions: seq<Action>) {
    forall i :: 0 <= i < |actions| ==>
      !actions[i].LoadOther? && (actions[i].Load? ==> LineagesOf(actions[..i]).polls == map[])
  }

  predicate AtMostOne(polls: map<nat, Lineage>) { forall a, b :: a in polls && b in polls ==> a == b }

  /** The saved cursor descends from those steps, and so does every poll under way. */
  predicate Extends(l: Lineages, steps: seq<nat>) {
    steps <= Past(l.saved) && forall pid :: pid in l.polls ==> steps <= Past(l.polls[pid])
  }

  lemma SerialStep(actions: seq<Action>, k: nat, steps: seq<nat>)
    requires Serial(actions) && k < |actions|
    requires var l := LineagesOf(actions[..k]); AtMostOne(l.polls) && Extends(l, Past(l.saved)) && Extends(l, steps)
    ensures var l := LineagesOf(actions[..k + 1]); AtMostOne(l.polls) && Extends(l, Past(l.saved)) && Extends(l, steps)
  {
    var l, a := LineagesOf(actions[..k]), actions[k];
    assert actions[..k + 1][..k] == actions[..k];
    if a.PollPR? && a.pid in l.polls { PastOfStep(l.polls[a.pid], k); }
    if a.Save? && a.pid in l.polls { PastOfResumed(l.polls[a.pid]); }
  }

  lemma {:induction false} SerialPollsExtend(actions: seq<Action>, j: nat, n: nat)
    requires Serial(actions) && j <= n <= |actions|
    ensures var l := LineagesOf(actions[..n]);
            && AtMostOne(l.polls) && Extends(l, Past(l.saved))
            && Extends(l, Past(LineagesOf(actions[..j]).saved))
  {
    if j < n {
      SerialPollsExtend(actions, j, n - 1);
      SerialStep(actions, n - 1, Past(LineagesOf(actions[..j]).saved));
    } else if n > 0 {
      SerialPollsExtend(actions, n - 1, n - 1);
      SerialStep(actions, n - 1, []);
    }
  }

  /** Serial polls know of everything that was saved. */
  lemma SerialPollsKnow(actions: seq<Action>, j: nat, m: nat, k: nat)
    requires Serial(actions) && j <= m && Processes(actions, m)
    requires k in Past(LineagesOf(actions[..j]).saved)
    ensures Knows(actions, m, k)
  {
    SerialPollsExtend(actions, j, m);
  }

  /** So serial polls keep one trigger per queued phase from the moment that the publishing
      poll is saved, and within that poll. */
  lemma SerialPollsKeepOneTrigger(cfg: Config, saved: Cursor, actions: seq<Action>, k: nat, m: nat, p: PRRef)
    requires ValidActions(actions) && Serial(actions) && Processes(actions, m)
    requires || k in LineageAt(actions, m).own
             || exists j :: 0 <= j <= m && k in Past(LineagesOf(actions[..j]).saved)
    ensures KeepsOneTrigger(cfg, saved, actions, k, m, p)
  {
    if j :| 0 <= j <= m && k in Past(LineagesOf(actions[..j]).saved) {
      SerialPollsKnow(actions, j, m, k);
    }
    KnownPublishIsKept(cfg, saved, actions, k, m, p);
  }
}
