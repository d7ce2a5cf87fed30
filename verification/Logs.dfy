// What the maps, the watermark and the counters of a poll are in terms of its log of events.
module Logs {
  import opened Strings
  import opened TaskIds
  import opened Cursors
  import opened Polling

  // ---- the three maps ------------------------------------------------------

  function MarkersAfter(markers: map<string, TaskId>, es: seq<Event>): map<string, TaskId> {
    if es == [] then markers else Marking(MarkersAfter(markers, es[..|es| - 1]), es[|es| - 1])
  }

  function RebuiltAfter(es: seq<Event>): map<TaskId, string> {
    if es == [] then map[] else Rebuilding(RebuiltAfter(es[..|es| - 1]), es[|es| - 1])
  }

  function HeadsAfter(heads: map<TaskId, string>, es: seq<Event>): map<TaskId, string> {
    if es == [] then heads else Publishing(HeadsAfter(heads, es[..|es| - 1]), es[|es| - 1])
  }

  lemma {:induction false} MapsFollowTheLog(cfg: Config, c: Cursor, items: seq<Item>)
    ensures var es := Events(cfg, StartMaps(c), items);
            After(cfg, StartMaps(c), items)
              == Maps(HeadsAfter(c.headSHAs, es), MarkersAfter(c.queuedMarkers, es), RebuiltAfter(es))
  {
    if items != [] {
      var front := items[..|items| - 1];
      MapsFollowTheLog(cfg, c, front);
      var es := Events(cfg, StartMaps(c), items);
      assert es[..|es| - 1] == Events(cfg, StartMaps(c), front);
    }
  }

  /** Event j of a log is the reaction to item j in the state the log so far leads to. */
  lemma {:induction false} EventAt(cfg: Config, m: Maps, items: seq<Item>, j: nat)
    requires j < |items|
    ensures Events(cfg, m, items)[j] == React(cfg, After(cfg, m, items[..j]), items[j])
    ensures Events(cfg, m, items)[..j] == Events(cfg, m, items[..j])
  {
    var n := |items| - 1;
    var front := items[..n];
    assert Events(cfg, m, items) == Events(cfg, m, front) + [React(cfg, After(cfg, m, front), items[n])];
    if j < n {
      EventAt(cfg, m, front, j);
      assert front[..j] == items[..j];
      assert Events(cfg, m, items)[..j] == Events(cfg, m, front)[..j];
    } else {
      assert Events(cfg, m, items)[..j] == Events(cfg, m, front);
    }
  }

  lemma {:induction false} MarkersAfterConcat(markers: map<string, TaskId>, a: seq<Event>, b: seq<Event>)
    ensures MarkersAfter(markers, a + b) == MarkersAfter(MarkersAfter(markers, a), b)
  {
    if b == [] {
      assert a + b == a;
    } else {
      assert (a + b)[..|a + b| - 1] == a + b[..|b| - 1];
      MarkersAfterConcat(markers, a, b[..|b| - 1]);
    }
  }

  // ---- markers are history -------------------------------------------------

  predicate ValidLog(es: seq<Event>) {
    forall i :: 0 <= i < |es| ==> es[i].pr.Valid()
  }

  /** p's latest event among queued publishes and drop observations is a publish. */
  predicate Armed(es: seq<Event>, p: PRRef) {
    exists i :: 0 <= i < |es| && es[i].Arms(p) && forall j :: i < j < |es| ==> !es[j].Drops(p)
  }

  predicate NeverDropped(es: seq<Event>, p: PRRef) {
    forall j :: 0 <= j < |es| ==> !es[j].Drops(p)
  }

  lemma ArmedStep(es: seq<Event>, e: Event, p: PRRef)
    ensures Armed(es + [e], p) <==> e.Arms(p) || (Armed(es, p) && !e.Drops(p))
    ensures NeverDropped(es + [e], p) <==> NeverDropped(es, p) && !e.Drops(p)
  {
    var es' := es + [e];
    assert forall j :: 0 <= j < |es| ==> es'[j] == es[j];
    assert es'[|es|] == e;
    if Armed(es, p) && !e.Drops(p) {
      var i :| 0 <= i < |es| && es[i].Arms(p) && forall j :: i < j < |es| ==> !es[j].Drops(p);
      assert es'[i].Arms(p);
    }
    if Armed(es', p) && !e.Arms(p) {
      var i :| 0 <= i < |es'| && es'[i].Arms(p) && forall j :: i < j < |es'| ==> !es'[j].Drops(p);
      assert es[i].Arms(p);
    }
  }

  /** The marker map after a log, entry by entry: p is marked exactly when it is armed, or
      was marked before and has not been dropped; what the log sets is p's pinned id. */
  lemma {:induction false} MarkersAreHistory(markers: map<string, TaskId>, es: seq<Event>, p: PRRef)
    requires p.Valid() && ValidLog(es)
    ensures MarkerKey(p) in MarkersAfter(markers, es)
       <==> Armed(es, p) || (MarkerKey(p) in markers && NeverDropped(es, p))
    ensures Armed(es, p) ==> MarkersAfter(markers, es)[MarkerKey(p)] == QueuedId(p)
    ensures MarkerKey(p) in MarkersAfter(markers, es) && !Armed(es, p) ==>
              MarkersAfter(markers, es)[MarkerKey(p)] == markers[MarkerKey(p)]
  {
    if es != [] {
      var front, e := es[..|es| - 1], es[|es| - 1];
      assert es == front + [e];
      assert ValidLog(front);
      MarkersAreHistory(markers, front, p);
      ArmedStep(front, e, p);
      MarkerKeysInjective(p, e.pr);
    }
  }

  /** Nothing but PRs the log armed gets a marker. */
  lemma {:induction false} MarkersComeFromPRs(markers: map<string, TaskId>, es: seq<Event>, key: string)
    requires key in MarkersAfter(markers, es) && key !in markers
    ensures exists i :: 0 <= i < |es| && es[i].Arms(es[i].pr) && key == MarkerKey(es[i].pr)
  {
    var n := |es| - 1;
    if key in MarkersAfter(markers, es[..n]) {
      MarkersComeFromPRs(markers, es[..n], key);
      var i :| 0 <= i < n && es[..n][i].Arms(es[..n][i].pr) && key == MarkerKey(es[..n][i].pr);
      assert es[i] == es[..n][i];
    } else {
      assert es[n].Arms(es[n].pr);
    }
  }

  predicate SendsOnlyUnmarked(markers: map<string, TaskId>, es: seq<Event>) {
    forall j :: 0 <= j < |es| && es[j].Attempts() ==> MarkerKey(es[j].pr) !in MarkersAfter(markers, es[..j])
  }

  lemma SendsOnlyUnmarkedConcat(markers: map<string, TaskId>, a: seq<Event>, b: seq<Event>)
    requires SendsOnlyUnmarked(markers, a) && SendsOnlyUnmarked(MarkersAfter(markers, a), b)
    ensures SendsOnlyUnmarked(markers, a + b)
  {
    var es := a + b;
    forall j | 0 <= j < |es| && es[j].Attempts() ensures MarkerKey(es[j].pr) !in MarkersAfter(markers, es[..j]) {
      if j < |a| {
        assert es[j] == a[j] && es[..j] == a[..j];
      } else {
        assert es[j] == b[j - |a|] && es[..j] == a + b[..j - |a|];
        MarkersAfterConcat(markers, a, b[..j - |a|]);
      }
    }
  }

  /** Where only unmarked PRs are sent, a drop lies between a queued publish and the next attempt. */
  lemma DropBetween(markers: map<string, TaskId>, es: seq<Event>, p: PRRef, i: nat, j: nat)
    requires ValidLog(es) && SendsOnlyUnmarked(markers, es)
    requires i < j < |es| && es[i].Arms(p) && es[j].Attempts() && es[j].pr == p
    ensures exists k :: i < k < j && es[k].Drops(p)
  {
    var sofar := es[..j];
    MarkersAreHistory(markers, sofar, p);
    assert sofar[i].Arms(p) && !Armed(sofar, p);
    var k :| i < k < |sofar| && sofar[k].Drops(p);
    assert es[k].Drops(p);
  }

  // ---- HeadSHAs is the last batch ------------------------------------------

  predicate AdvancedAs(es: seq<Event>, id: TaskId, sha: string) {
    exists i :: && 0 <= i < |es| && es[i].Advances() && es[i].id == id && es[i].sha == sha
                && forall j :: i < j < |es| ==> !(es[j].Advances() && es[j].id == id)
  }

  predicate AdvancedId(es: seq<Event>, id: TaskId) {
    exists i :: 0 <= i < |es| && es[i].Advances() && es[i].id == id
  }

  /** The rebuilt map holds exactly the identifiers that were deduped, suppressed or published. */
  lemma {:induction false} RebuiltIsWhatAdvanced(es: seq<Event>, id: TaskId)
    ensures id in RebuiltAfter(es) <==> AdvancedId(es, id)
  {
    if es != [] {
      var n := |es| - 1;
      RebuiltIsWhatAdvanced(es[..n], id);
      assert forall j :: 0 <= j < n ==> es[..n][j] == es[j];
      if AdvancedId(es[..n], id) {
        var i :| 0 <= i < n && es[..n][i].Advances() && es[..n][i].id == id;
        assert es[i].Advances();
      }
    }
  }

  /** Each is held with the head it was last seen at. */
  lemma {:induction false} RebuiltHoldsTheLatestHead(es: seq<Event>, id: TaskId, sha: string)
    ensures id in RebuiltAfter(es) && RebuiltAfter(es)[id] == sha <==> AdvancedAs(es, id, sha)
  {
    if es != [] {
      var n := |es| - 1;
      RebuiltHoldsTheLatestHead(es[..n], id, sha);
      assert forall j :: 0 <= j < n ==> es[..n][j] == es[j];
      if es[n].Advances() && es[n].id == id {
        assert es[n].sha == sha ==> AdvancedAs(es, id, sha);
      } else if AdvancedAs(es[..n], id, sha) {
        var i :| 0 <= i < n && es[..n][i].Advances() && es[..n][i].id == id && es[..n][i].sha == sha
                 && forall j :: i < j < n ==> !(es[..n][j].Advances() && es[..n][j].id == id);
        assert es[i].Advances();
      }
    }
  }

  lemma {:induction false} RebuiltIsNoLargerThanTheBatch(es: seq<Event>)
    ensures |RebuiltAfter(es)| <= |es|
  {
    if es != [] {
      var front, e := es[..|es| - 1], es[|es| - 1];
      RebuiltIsNoLargerThanTheBatch(front);
      if e.Advances() {
        assert RebuiltAfter(es).Keys == RebuiltAfter(front).Keys + {e.id};
      }
    }
  }

  predicate PublishedId(es: seq<Event>, id: TaskId) {
    exists i :: 0 <= i < |es| && es[i].Published? && es[i].id == id
  }

  lemma {:induction false} HeadsAreLoadedOrPublished(heads: map<TaskId, string>, es: seq<Event>, id: TaskId)
    ensures id in HeadsAfter(heads, es) <==> id in heads || PublishedId(es, id)
  {
    if es != [] {
      var n := |es| - 1;
      HeadsAreLoadedOrPublished(heads, es[..n], id);
      assert forall j :: 0 <= j < n ==> es[..n][j] == es[j];
      if PublishedId(es[..n], id) {
        var i :| 0 <= i < n && es[..n][i].Published? && es[..n][i].id == id;
        assert es[i].Published?;
      }
    }
  }

  // ---- the watermark -------------------------------------------------------

  /** The watermark is the latest of the old one and the updated-at of what advanced:
      nothing skipped or failed raises it. */
  lemma {:induction false} WatermarkIsTheMaximum(since: Time, es: seq<Event>)
    ensures since <= Watermark(since, es)
    ensures forall i :: 0 <= i < |es| && es[i].Advances() ==> es[i].at <= Watermark(since, es)
    ensures Watermark(since, es) == since
         || exists i :: 0 <= i < |es| && es[i].Advances() && es[i].at == Watermark(since, es)
  {
    if es != [] {
      var n := |es| - 1;
      WatermarkIsTheMaximum(since, es[..n]);
      assert forall j :: 0 <= j < n ==> es[..n][j] == es[j];
      if i :| 0 <= i < n && es[..n][i].Advances() && es[..n][i].at == Watermark(since, es[..n]) {
        assert es[i].Advances();
      }
    }
  }

  const SECOND: Time := 1_000_000_000

  /** RFC 3339 without fractions. */
  function ToSecond(t: Time): Time { t - t % SECOND }

  /** updated:>=since */
  predicate QueryFinds(since: Time, updatedAt: Time) { ToSecond(since) <= updatedAt }

  lemma ToSecondMonotone(a: Time, b: Time)
    requires a <= b
    ensures ToSecond(a) <= ToSecond(b)
  {
    assert a == SECOND * (a / SECOND) + a % SECOND && b == SECOND * (b / SECOND) + b % SECOND;
    assert a / SECOND <= b / SECOND;
  }

  /** What one query finds, the next finds again unless something that advanced was updated in
      a later second than that PR. */
  lemma QueryFindsAgainIff(since: Time, es: seq<Event>, updatedAt: Time)
    requires QueryFinds(since, updatedAt)
    ensures QueryFinds(Watermark(since, es), updatedAt)
       <==> forall i :: 0 <= i < |es| && es[i].Advances() ==> ToSecond(es[i].at) <= updatedAt
  {
    WatermarkIsTheMaximum(since, es);
    var mark := Watermark(since, es);
    forall i | 0 <= i < |es| && es[i].Advances() ensures ToSecond(es[i].at) <= ToSecond(mark) {
      ToSecondMonotone(es[i].at, mark);
    }
  }

  // ---- the counters --------------------------------------------------------

  function CountIf(es: seq<Event>, test: Event -> bool): nat {
    if es == [] then 0 else CountIf(es[..|es| - 1], test) + if test(es[|es| - 1]) then 1 else 0
  }

  predicate IsDedup(e: Event) { e.Deduped? }

  predicate IsFailure(e: Event) { e.SendFailed? }

  predicate IsQueuedPublish(e: Event) { e.Published? && e.queued }

  predicate IsDrainedPublish(e: Event) { e.Published? && !e.queued }

  /** What the skip counter of a reason counts. */
  function SkipsFor(reason: string): Event -> bool {
    (e: Event) => (e.Skipped? && e.reason == reason) || (e.Suppressed? && reason == "queued_marker")
  }

  /** Every scanned PR is in exactly one class: skipped with a reason, published or failed
      to, or silently deduped. */
  lemma {:induction false} ScansBalance(m: Metrics, es: seq<Event>)
    ensures CountAll(m, es).scanned == m.scanned + |es|
    ensures |CountAll(m, es).skipped| + |CountAll(m, es).published| + CountIf(es, IsDedup)
         == |m.skipped| + |m.published| + |es|
  {
    if es != [] { ScansBalance(m, es[..|es| - 1]); }
  }

  const CREATE := "create"
  const CREATE_QUEUED := "create_queued"
  const ERROR := "error"

  lemma LabelsDiffer()
    ensures CREATE != CREATE_QUEUED && CREATE != ERROR && CREATE_QUEUED != ERROR
  {
    assert |CREATE| == 6 && |CREATE_QUEUED| == 13 && |ERROR| == 5;
  }

  /** Each reason is counted for its own skips, the marker's for suppressions. */
  lemma {:induction false} SkipsBalance(m: Metrics, es: seq<Event>, reason: string)
    ensures CountAll(m, es).skipped[reason] == m.skipped[reason] + CountIf(es, SkipsFor(reason))
  {
    if es != [] { SkipsBalance(m, es[..|es| - 1], reason); }
  }

  /** Each create counter is the publishes of its kind. */
  lemma {:induction false} PublishKindsBalance(m: Metrics, es: seq<Event>)
    ensures CountAll(m, es).published["create"] == m.published["create"] + CountIf(es, IsDrainedPublish)
    ensures CountAll(m, es).published["create_queued"] == m.published["create_queued"] + CountIf(es, IsQueuedPublish)
    ensures CountAll(m, es).cycles == m.cycles
  {
    LabelsDiffer();
    if es != [] { PublishKindsBalance(m, es[..|es| - 1]); }
  }

  /** Both together are the accepted commands, and the error counter is the failed ones. */
  lemma {:induction false} PublishesBalance(m: Metrics, es: seq<Event>)
    ensures CountAll(m, es).published[CREATE] + CountAll(m, es).published[CREATE_QUEUED]
         == m.published[CREATE] + m.published[CREATE_QUEUED] + |Commands(es)|
    ensures CountAll(m, es).published[ERROR] == m.published[ERROR] + CountIf(es, IsFailure)
  {
    LabelsDiffer();
    if es != [] { PublishesBalance(m, es[..|es| - 1]); }
  }
}
