// The serial watcher in small steps, with a process crash possible between any two of
// them: what the cursor file can hold, and what backs it.
module CrashRuns {
  import opened Strings
  import opened TaskIds
  import opened Cursors
  import opened Polling
  import opened Logs
  import Fetching
  import Runs

  /** What the process is doing: nothing; a batch, from a loaded cursor, with the log so far;
      or saving, with the disk as it was and the steps of the save already done. */
  datatype Process =
    | Idle
    | Polling(loaded: Cursor, maps: Maps, log: seq<Event>)
    | Saving(next: Cursor, before: Disk, done: nat)

  /** sends and completed are for specification: every accepted send of any process, and
      every cursor a poll that got to its end set out to save. */
  datatype State = State(disk: Disk, process: Process, sends: seq<Event>, completed: seq<Cursor>)

  datatype Action =
    | Load(startTime: Time)
    | Process(item: Item)
    | CrashBehindSend(item: Item)
    | BeginSave
    | SaveStep
    | FailSave
    | Crash

  function SentBy(e: Event): seq<Event> { if e.Published? then [e] else [] }

  function Next(cfg: Config, s: State, a: Action): State {
    match (a, s.process)
    case (Load(t), Idle) =>
      var c := Loaded(s.disk.file, t);
      s.(process := Polling(c, StartMaps(c), []))
    case (Process(item), Polling(c, m, log)) =>
      var e := React(cfg, m, item);
      s.(process := Polling(c, Apply(m, e), log + [e]), sends := s.sends + SentBy(e))
    case (CrashBehindSend(item), Polling(c, m, log)) =>
      s.(process := Idle, sends := s.sends + SentBy(React(cfg, m, item)))
    case (BeginSave, Polling(c, m, log)) =>
      var next := Cursor(Watermark(c.lastUpdatedAt, log), m.rebuilt, m.markers);
      s.(process := Saving(next, s.disk, 0), completed := s.completed + [next])
    case (SaveStep, Saving(next, before, done)) =>
      s.(disk := AfterSaveSteps(before, next, done + 1),
         process := if done + 1 < 3 then Saving(next, before, done + 1) else Idle)
    case (FailSave, Saving(_, _, _)) => s.(process := Idle)
    case (Crash, _) => s.(process := Idle)
    case _ => s
  }

  function Run(cfg: Config, s: State, actions: seq<Action>): State {
    if actions == [] then s else Next(cfg, Run(cfg, s, actions[..|actions| - 1]), actions[|actions| - 1])
  }

  /** A first start: no cursor file, whatever temp file. */
  function Boot(tmp: Option<FileContent>): State { State(Disk(None, tmp), Idle, [], []) }

  // ---- what backs an entry -------------------------------------------------

  predicate SentFor(sends: seq<Event>, p: PRRef) { exists i :: 0 <= i < |sends| && sends[i].pr == p }

  predicate QueuedSentFor(sends: seq<Event>, p: PRRef) { exists i :: 0 <= i < |sends| && sends[i].Arms(p) }

  /** Any identifier of p, under some head, queued or drained. */
  ghost predicate IsIdOf(id: TaskId, p: PRRef) { exists sha, queued :: id == DeriveTaskID(p, sha, queued) }

  ghost predicate HeadBacked(sends: seq<Event>, id: TaskId) {
    exists p: PRRef :: p.Valid() && IsIdOf(id, p) && SentFor(sends, p)
  }

  ghost predicate MarkerBacked(sends: seq<Event>, key: string) {
    exists p: PRRef :: p.Valid() && key == MarkerKey(p) && QueuedSentFor(sends, p)
  }

  ghost predicate Backed(sends: seq<Event>, heads: map<TaskId, string>, markers: map<string, TaskId>) {
    (forall id :: id in heads ==> HeadBacked(sends, id)) && (forall key :: key in markers ==> MarkerBacked(sends, key))
  }

  lemma BackingGrows(sends: seq<Event>, more: seq<Event>, heads: map<TaskId, string>, markers: map<string, TaskId>)
    requires Backed(sends, heads, markers)
    ensures Backed(sends + more, heads, markers)
  {
    var all := sends + more;
    forall p ensures (SentFor(sends, p) ==> SentFor(all, p)) && (QueuedSentFor(sends, p) ==> QueuedSentFor(all, p)) {
      assert forall i :: 0 <= i < |sends| ==> all[i] == sends[i];
      if i :| 0 <= i < |sends| && sends[i].pr == p { assert all[i].pr == p; }
      if i :| 0 <= i < |sends| && sends[i].Arms(p) { assert all[i].Arms(p); }
    }
    forall id | id in heads ensures HeadBacked(all, id) {
      var p: PRRef :| p.Valid() && IsIdOf(id, p) && SentFor(sends, p);
    }
    forall key | key in markers ensures MarkerBacked(all, key) {
      var p: PRRef :| p.Valid() && key == MarkerKey(p) && QueuedSentFor(sends, p);
    }
  }

  /** A candidate is suppressed, at either level, only if its PR was already sent. */
  lemma SuppressedWasSent(cfg: Config, sends: seq<Event>, m: Maps, item: Item)
    requires Backed(sends, m.heads, m.markers) && item.pr.Ref().Valid()
    requires React(cfg, m, item).Deduped? || React(cfg, m, item).Suppressed?
    ensures SentFor(sends, item.pr.Ref())
  {
    var e, q := React(cfg, m, item), item.pr.Ref();
    if e.Deduped? {
      var p: PRRef :| p.Valid() && IsIdOf(e.id, p) && SentFor(sends, p);
      var sha, queued :| e.id == DeriveTaskID(p, sha, queued);
      DerivedIdsSeparatePRs(p, sha, queued, q, e.sha, item.finding.queued);
    } else {
      var p: PRRef :| p.Valid() && MarkerKey(q) == MarkerKey(p) && QueuedSentFor(sends, p);
      MarkerKeysInjective(p, q);
      var i :| 0 <= i < |sends| && sends[i].Arms(p);
      assert sends[i].pr == q;
    }
  }

  /** What advances is an identifier of a PR that was sent, now or earlier. */
  lemma AdvancedIsBacked(cfg: Config, sends: seq<Event>, m: Maps, item: Item)
    requires Backed(sends, m.heads, m.markers) && item.pr.Ref().Valid() && React(cfg, m, item).Advances()
    ensures HeadBacked(sends + SentBy(React(cfg, m, item)), React(cfg, m, item).id)
  {
    var e, q := React(cfg, m, item), item.pr.Ref();
    var all := sends + SentBy(e);
    if e.Published? {
      assert all[|sends|].pr == q;
    } else {
      SuppressedWasSent(cfg, sends, m, item);
      assert all == sends;
    }
    assert e.id == DeriveTaskID(q, e.sha, item.finding.queued);
    assert IsIdOf(e.id, q) && SentFor(all, q);
  }

  lemma ArmedIsBacked(sends: seq<Event>, e: Event)
    requires e.Arms(e.pr) && e.pr.Valid()
    ensures MarkerBacked(sends + SentBy(e), MarkerKey(e.pr))
  {
    assert (sends + SentBy(e))[|sends|].Arms(e.pr);
  }

  lemma EffectKeepsBacking(sends: seq<Event>, m: Maps, e: Event)
    requires Backed(sends, m.heads, m.markers) && Backed(sends, m.rebuilt, m.markers)
    requires e.Advances() ==> HeadBacked(sends, e.id)
    requires e.Arms(e.pr) ==> MarkerBacked(sends, MarkerKey(e.pr))
    ensures Backed(sends, Apply(m, e).heads, Apply(m, e).markers)
    ensures Backed(sends, Apply(m, e).rebuilt, Apply(m, e).markers)
  {
  }

  /** Processing one PR keeps the loaded and the rebuilt map and the markers backed. */
  lemma ProcessingKeepsBacking(cfg: Config, sends: seq<Event>, m: Maps, item: Item)
    requires item.pr.Ref().Valid() && Backed(sends, m.heads, m.markers) && Backed(sends, m.rebuilt, m.markers)
    ensures var e := React(cfg, m, item);
            var n, all := Apply(m, e), sends + SentBy(e);
            Backed(all, n.heads, n.markers) && Backed(all, n.rebuilt, n.markers)
  {
    var e := React(cfg, m, item);
    BackingGrows(sends, SentBy(e), m.heads, m.markers);
    BackingGrows(sends, SentBy(e), m.rebuilt, m.markers);
    if e.Advances() { AdvancedIsBacked(cfg, sends, m, item); }
    if e.Arms(e.pr) { ArmedIsBacked(sends, e); }
    EffectKeepsBacking(sends + SentBy(e), m, e);
  }

  // ---- every reachable state -----------------------------------------------

  ghost predicate CursorBacked(sends: seq<Event>, c: Cursor) { Backed(sends, c.headSHAs, c.queuedMarkers) }

  predicate FileIsCompleted(d: Disk, completed: seq<Cursor>) {
    d.file.None? || exists i :: 0 <= i < |completed| && d.file == Some(Json(Marshal(completed[i])))
  }

  ghost predicate Inv(s: State) {
    && FileIsCompleted(s.disk, s.completed)
    && (forall i :: 0 <= i < |s.completed| ==> CursorBacked(s.sends, s.completed[i]))
    && match s.process
       case Idle => true
       case Polling(_, m, _) => Backed(s.sends, m.heads, m.markers) && Backed(s.sends, m.rebuilt, m.markers)
       case Saving(next, before, done) =>
         && next in s.completed && done < 3
         && s.disk == AfterSaveSteps(before, next, done) && FileIsCompleted(before, s.completed)
  }

  predicate ValidAction(a: Action) {
    (a.Process? || a.CrashBehindSend?) ==> a.item.pr.Ref().Valid()
  }

  predicate AllActionsValid(actions: seq<Action>) {
    forall i :: 0 <= i < |actions| ==> ValidAction(actions[i])
  }

  /** The file always loads as a cold start or as a cursor that some poll completed. */
  lemma LoadsACompletedCursor(d: Disk, completed: seq<Cursor>, t: Time)
    requires FileIsCompleted(d, completed)
    ensures Loaded(d.file, t) == NewCursor(t) || Loaded(d.file, t) in completed
  {
    if d.file.Some? {
      var i :| 0 <= i < |completed| && d.file == Some(Json(Marshal(completed[i])));
      assert Loaded(d.file, t) == completed[i];
    }
  }

  lemma CompletedGrows(d: Disk, completed: seq<Cursor>, c: Cursor)
    requires FileIsCompleted(d, completed)
    ensures FileIsCompleted(d, completed + [c])
  {
    if d.file.Some? {
      var i :| 0 <= i < |completed| && d.file == Some(Json(Marshal(completed[i])));
      assert (completed + [c])[i] == completed[i];
    }
  }

  lemma SendKeepsInv(cfg: Config, s: State, item: Item)
    requires Inv(s) && s.process.Polling? && item.pr.Ref().Valid()
    ensures Inv(Next(cfg, s, Process(item))) && Inv(Next(cfg, s, CrashBehindSend(item)))
  {
    var e := React(cfg, s.process.maps, item);
    ProcessingKeepsBacking(cfg, s.sends, s.process.maps, item);
    forall i | 0 <= i < |s.completed| ensures CursorBacked(s.sends + SentBy(e), s.completed[i]) {
      BackingGrows(s.sends, SentBy(e), s.completed[i].headSHAs, s.completed[i].queuedMarkers);
    }
  }

  lemma NextKeepsInv(cfg: Config, s: State, a: Action)
    requires Inv(s) && ValidAction(a)
    ensures Inv(Next(cfg, s, a))
  {
    match (a, s.process)
    case (Load(t), Idle) =>
      LoadsACompletedCursor(s.disk, s.completed, t);
    case (Process(item), Polling(_, _, _)) =>
      SendKeepsInv(cfg, s, item);
    case (CrashBehindSend(item), Polling(_, _, _)) =>
      SendKeepsInv(cfg, s, item);
    case (BeginSave, Polling(c, m, log)) =>
      CompletedGrows(s.disk, s.completed, Cursor(Watermark(c.lastUpdatedAt, log), m.rebuilt, m.markers));
    case (SaveStep, Saving(next, before, done)) =>
      if done == 2 {
        var i :| 0 <= i < |s.completed| && s.completed[i] == next;
        assert AfterSaveSteps(before, next, 3).file == Some(Json(Marshal(s.completed[i])));
      }
    case _ =>
  }

  lemma {:induction false} RunKeepsInv(cfg: Config, tmp: Option<FileContent>, actions: seq<Action>)
    requires AllActionsValid(actions)
    ensures Inv(Run(cfg, Boot(tmp), actions))
  {
    if actions != [] {
      RunKeepsInv(cfg, tmp, actions[..|actions| - 1]);
      NextKeepsInv(cfg, Run(cfg, Boot(tmp), actions[..|actions| - 1]), actions[|actions| - 1]);
    }
  }

  /** With crashes anywhere, before, between or inside the load, each send and each effect of
      a save: the cursor path is absent or holds whole what a poll completed, loads as exactly
      that, and every entry in it is backed by an accepted send for its PR. */
  lemma CrashSafety(cfg: Config, tmp: Option<FileContent>, actions: seq<Action>, t: Time)
    requires AllActionsValid(actions)
    ensures var s := Run(cfg, Boot(tmp), actions);
            && (|| s.disk.file.None?
                || exists c :: && c in s.completed && s.disk.file == Some(Json(Marshal(c)))
                               && Loaded(s.disk.file, t) == c)
            && CursorBacked(s.sends, Loaded(s.disk.file, t))
  {
    RunKeepsInv(cfg, tmp, actions);
    var s := Run(cfg, Boot(tmp), actions);
    LoadsACompletedCursor(s.disk, s.completed, t);
    if s.disk.file.Some? {
      var i :| 0 <= i < |s.completed| && s.disk.file == Some(Json(Marshal(s.completed[i])));
      assert Loaded(s.disk.file, t) == s.completed[i];
    }
  }

  /** So in every reachable state a candidate is passed over only if its PR was already sent. */
  lemma NothingIsSuppressedUnsent(cfg: Config, tmp: Option<FileContent>, actions: seq<Action>, item: Item)
    requires AllActionsValid(actions)
    requires item.pr.Ref().Valid() && Run(cfg, Boot(tmp), actions).process.Polling?
    requires var e := React(cfg, Run(cfg, Boot(tmp), actions).process.maps, item); e.Deduped? || e.Suppressed?
    ensures SentFor(Run(cfg, Boot(tmp), actions).sends, item.pr.Ref())
  {
    RunKeepsInv(cfg, tmp, actions);
    var s := Run(cfg, Boot(tmp), actions);
    SuppressedWasSent(cfg, s.sends, s.process.maps, item);
  }

  // ---- a poll is a path of small steps -------------------------------------

  function Sent(es: seq<Event>): seq<Event> {
    if es == [] then [] else Sent(es[..|es| - 1]) + SentBy(es[|es| - 1])
  }

  lemma RunSnoc(cfg: Config, s: State, actions: seq<Action>, a: Action)
    ensures Run(cfg, s, actions + [a]) == Next(cfg, Run(cfg, s, actions), a)
  {
    assert (actions + [a])[..|actions|] == actions;
  }

  /** The state behind the load and the items processed so far. */
  function AtWork(cfg: Config, s: State, t: Time, items: seq<Item>): State {
    var c := Loaded(s.disk.file, t);
    var es := Events(cfg, StartMaps(c), items);
    State(s.disk, Polling(c, After(cfg, StartMaps(c), items), es), s.sends + Sent(es), s.completed)
  }

  lemma AtWorkStep(cfg: Config, s: State, t: Time, items: seq<Item>, item: Item)
    ensures Next(cfg, AtWork(cfg, s, t, items), Process(item)) == AtWork(cfg, s, t, items + [item])
  {
    var m := StartMaps(Loaded(s.disk.file, t));
    var es, e := Events(cfg, m, items), React(cfg, After(cfg, m, items), item);
    assert (items + [item])[..|items|] == items;
    assert (es + [e])[..|es|] == es;
    assert s.sends + Sent(es) + SentBy(e) == s.sends + (Sent(es) + SentBy(e));
  }

  lemma ProcessingIsAPath(cfg: Config, s: State, t: Time, items: seq<Item>) returns (path: seq<Action>)
    requires s.process.Idle? && forall i :: 0 <= i < |items| ==> items[i].pr.Ref().Valid()
    ensures AllActionsValid(path) && Run(cfg, s, path) == AtWork(cfg, s, t, items)
  {
    path := [Load(t)];
    RunSnoc(cfg, s, [], Load(t));
    assert [] + [Load(t)] == path;
    assert s.sends + Sent([]) == s.sends;
    for k := 0 to |items|
      invariant AllActionsValid(path)
      invariant Run(cfg, s, path) == AtWork(cfg, s, t, items[..k])
    {
      RunSnoc(cfg, s, path, Process(items[k]));
      AtWorkStep(cfg, s, t, items[..k], items[k]);
      assert items[..k + 1] == items[..k] + [items[k]];
      path := path + [Process(items[k])];
    }
    assert items[..|items|] == items;
  }

  /** Every serial poll is a path of small steps with the same sends and the same disk. */
  lemma PollIsAPath(cfg: Config, s: State, w: World) returns (actions: seq<Action>)
    requires s.process.Idle? && Fetching.ValidSearch(w.search)
    ensures AllActionsValid(actions)
    ensures var r, s' := Poll(cfg, s.disk, w), Run(cfg, s, actions);
            s'.process.Idle? && s'.disk == r.disk && s'.sends == s.sends + Sent(r.events)
  {
    if Runs.BatchOf(cfg, s.disk, w).None? {
      Runs.PollSavesOrForgets(cfg, s.disk, w);
      assert s.sends + Sent([]) == s.sends;
      actions := [];
    } else {
      Runs.BatchIsValid(cfg, Loaded(s.disk.file, w.startTime).lastUpdatedAt, w);
      var path := ProcessingIsAPath(cfg, s, w.startTime, Runs.BatchOf(cfg, s.disk, w).value);
      RunSnoc(cfg, s, path, BeginSave);
      actions := SaveOut(cfg, s, path + [BeginSave], w.fault);
      PollDisk(cfg, s.disk, w);
    }
  }

  lemma {:induction false} RunConcat(cfg: Config, s: State, a: seq<Action>, b: seq<Action>)
    ensures Run(cfg, s, a + b) == Run(cfg, Run(cfg, s, a), b)
  {
    if b == [] {
      assert a + b == a;
    } else {
      assert (a + b)[..|a + b| - 1] == a + b[..|b| - 1];
      RunConcat(cfg, s, a, b[..|b| - 1]);
    }
  }

  lemma {:induction false} SentConcat(a: seq<Event>, b: seq<Event>)
    ensures Sent(a + b) == Sent(a) + Sent(b)
  {
    if b == [] {
      assert a + b == a;
    } else {
      assert (a + b)[..|a + b| - 1] == a + b[..|b| - 1];
      SentConcat(a, b[..|b| - 1]);
    }
  }

  /** And so is every run of serial polls. */
  lemma {:induction false} SerialRunIsAPath(cfg: Config, tmp: Option<FileContent>, ws: seq<World>)
    returns (actions: seq<Action>)
    requires Runs.ValidWorlds(ws)
    ensures AllActionsValid(actions)
    ensures var s, d := Run(cfg, Boot(tmp), actions), Disk(None, tmp);
            && s.process.Idle? && s.disk == Runs.DiskAfter(cfg, d, ws)
            && s.sends == Sent(Runs.AllEvents(cfg, d, ws))
  {
    actions := [];
    if ws != [] {
      var front, w, d := ws[..|ws| - 1], ws[|ws| - 1], Disk(None, tmp);
      var path := SerialRunIsAPath(cfg, tmp, front);
      var more := PollIsAPath(cfg, Run(cfg, Boot(tmp), path), w);
      RunConcat(cfg, Boot(tmp), path, more);
      SentConcat(Runs.AllEvents(cfg, d, front), Runs.LastEvents(cfg, d, ws));
      actions := path + more;
    }
  }

  /** Hence after any run of serial polls, saved or not, each entry of the cursor file is
      backed by an accepted send of that run for its PR. */
  lemma SerialRunsAreBacked(cfg: Config, tmp: Option<FileContent>, ws: seq<World>, t: Time)
    requires Runs.ValidWorlds(ws)
    ensures CursorBacked(Sent(Runs.AllEvents(cfg, Disk(None, tmp), ws)),
                         Loaded(Runs.DiskAfter(cfg, Disk(None, tmp), ws).file, t))
  {
    var actions := SerialRunIsAPath(cfg, tmp, ws);
    CrashSafety(cfg, tmp, actions, t);
  }

  lemma PollDisk(cfg: Config, d: Disk, w: World)
    requires Runs.BatchOf(cfg, d, w).Some?
    ensures var c, items := Loaded(d.file, w.startTime), Runs.BatchOf(cfg, d, w).value;
            && Poll(cfg, d, w).events == Events(cfg, StartMaps(c), items)
            && Poll(cfg, d, w).disk == AfterSaveSteps(d, NextCursor(cfg, c, items), StepsDone(w.fault))
  {
  }

  lemma SaveOut(cfg: Config, s: State, path: seq<Action>, fault: SaveFault) returns (actions: seq<Action>)
    requires AllActionsValid(path)
    requires var saving := Run(cfg, s, path);
             saving.process.Saving? && saving.process.done == 0 && saving.process.before == saving.disk
    ensures AllActionsValid(actions)
    ensures var saving, s' := Run(cfg, s, path), Run(cfg, s, actions);
            && s'.process.Idle? && s'.sends == saving.sends
            && s'.disk == AfterSaveSteps(saving.disk, saving.process.next, StepsDone(fault))
  {
    actions := path;
    for k := 0 to StepsDone(fault)
      invariant AllActionsValid(actions)
      invariant var saving, now := Run(cfg, s, path), Run(cfg, s, actions);
                && now.sends == saving.sends
                && now.disk == AfterSaveSteps(saving.disk, saving.process.next, k)
                && now.process == if k < 3 then Saving(saving.process.next, saving.disk, k) else Idle
    {
      RunSnoc(cfg, s, actions, SaveStep);
      actions := actions + [SaveStep];
    }
    if !fault.Fine? {
      RunSnoc(cfg, s, actions, FailSave);
      actions := actions + [FailSave];
    }
  }
}
