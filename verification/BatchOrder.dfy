// The outcome of a batch of distinct pull requests does not depend on the search order.
module BatchOrder {
  import opened Strings
  import opened TaskIds
  import opened Cursors
  import opened Polling

  /** All a batch leads to, sends and events as multisets. */
  datatype Outcome = Outcome(
    maps: Maps, mark: Time, counts: Metrics, sent: multiset<CreateCommand>, events: multiset<Event>)

  function Absorb(o: Outcome, e: Event): Outcome {
    Outcome(Apply(o.maps, e), if e.Advances() then Max(o.mark, e.at) else o.mark,
            Count(o.counts, e), o.sent + multiset(CommandOf(e)), o.events + multiset{e})
  }

  function Take(cfg: Config, o: Outcome, item: Item): Outcome {
    Absorb(o, React(cfg, o.maps, item))
  }

  function TakeAll(cfg: Config, o: Outcome, items: seq<Item>): Outcome {
    if items == [] then o else Take(cfg, TakeAll(cfg, o, items[..|items| - 1]), items[|items| - 1])
  }

  predicate Apart(x: Item, y: Item) {
    x.pr.Ref().Valid() && y.pr.Ref().Valid() && x.pr.Ref() != y.pr.Ref()
  }

  /** The reaction to one pull request is blind to what another one did. */
  lemma ReactionsAreIndependent(cfg: Config, m: Maps, x: Item, y: Item)
    requires Apart(x, y)
    ensures React(cfg, Apply(m, React(cfg, m, x)), y) == React(cfg, m, y)
  {
    var p, q := x.pr.Ref(), y.pr.Ref();
    MarkerKeysInjective(p, q);
    if x.finding.Candidate? && y.finding.Candidate? {
      var dx, dy := x.finding.details, y.finding.details;
      if DeriveTaskID(p, dx.headSHA, x.finding.queued) == DeriveTaskID(q, dy.headSHA, y.finding.queued) {
        DerivedIdsSeparatePRs(p, dx.headSHA, x.finding.queued, q, dy.headSHA, y.finding.queued);
      }
    }
  }

  lemma MarkingsCommute(m: map<string, TaskId>, e: Event, f: Event)
    requires MarkerKey(e.pr) != MarkerKey(f.pr)
    ensures Marking(Marking(m, e), f) == Marking(Marking(m, f), e)
  {
  }

  lemma UpdatesCommute<K, V>(m: map<K, V>, k: K, v: V, l: K, u: V)
    requires k != l
    ensures m[k := v][l := u] == m[l := u][k := v]
  {
  }

  /** Effects of events of different pull requests commute: they touch different keys. */
  lemma EffectsCommute(m: Maps, e: Event, f: Event)
    requires e.pr.Valid() && f.pr.Valid() && e.pr != f.pr
    requires e.Skipped? || f.Skipped? || e.id != f.id
    ensures Apply(Apply(m, e), f) == Apply(Apply(m, f), e)
  {
    MarkerKeysInjective(e.pr, f.pr);
    MarkingsCommute(m.markers, e, f);
    if !e.Skipped? && !f.Skipped? {
      UpdatesCommute(m.heads, e.id, e.sha, f.id, f.sha);
      UpdatesCommute(m.rebuilt, e.id, e.sha, f.id, f.sha);
    }
  }

  lemma SumsCommute<T>(a: multiset<T>, b: multiset<T>, c: multiset<T>)
    ensures a + b + c == a + c + b
  {
  }

  function SkipLabels(e: Event): multiset<string> {
    match e
    case Skipped(_, reason) => multiset{reason}
    case Suppressed(_, _, _, _) => multiset{QUEUED_MARKER}
    case _ => multiset{}
  }

  function PublishLabels(e: Event): multiset<string> {
    match e
    case Published(_, _, _, _, queued, _) => multiset{PublishedStatus(queued)}
    case SendFailed(_, _, _, _) => multiset{"error"}
    case _ => multiset{}
  }

  lemma CountAddsLabels(m: Metrics, e: Event)
    ensures Count(m, e)
         == Metrics(m.scanned + 1, m.skipped + SkipLabels(e), m.published + PublishLabels(e), m.cycles)
  {
    assert m.skipped + multiset{} == m.skipped && m.published + multiset{} == m.published;
  }

  lemma CountsCommute(m: Metrics, e: Event, f: Event)
    ensures Count(Count(m, e), f) == Count(Count(m, f), e)
  {
    CountAddsLabels(m, e);
    CountAddsLabels(m, f);
    CountAddsLabels(Count(m, e), f);
    CountAddsLabels(Count(m, f), e);
    SumsCommute(m.skipped, SkipLabels(e), SkipLabels(f));
    SumsCommute(m.published, PublishLabels(e), PublishLabels(f));
  }

  lemma AbsorbCommutes(o: Outcome, e: Event, f: Event)
    requires Apply(Apply(o.maps, e), f) == Apply(Apply(o.maps, f), e)
    ensures Absorb(Absorb(o, e), f) == Absorb(Absorb(o, f), e)
  {
    CountsCommute(o.counts, e, f);
    SumsCommute(o.sent, multiset(CommandOf(e)), multiset(CommandOf(f)));
    SumsCommute(o.events, multiset{e}, multiset{f});
  }

  lemma ApartIds(cfg: Config, m: Maps, x: Item, y: Item)
    requires Apart(x, y) && !React(cfg, m, x).Skipped? && !React(cfg, m, y).Skipped?
    ensures React(cfg, m, x).id != React(cfg, m, y).id
  {
    var e, f := React(cfg, m, x), React(cfg, m, y);
    if e.id == f.id {
      DerivedIdsSeparatePRs(e.pr, e.sha, x.finding.queued, f.pr, f.sha, y.finding.queued);
    }
  }

  lemma TakesCommute(cfg: Config, o: Outcome, x: Item, y: Item)
    requires Apart(x, y)
    ensures Take(cfg, Take(cfg, o, x), y) == Take(cfg, Take(cfg, o, y), x)
  {
    var e, f := React(cfg, o.maps, x), React(cfg, o.maps, y);
    ReactionsAreIndependent(cfg, o.maps, x, y);
    ReactionsAreIndependent(cfg, o.maps, y, x);
    if !e.Skipped? && !f.Skipped? { ApartIds(cfg, o.maps, x, y); }
    EffectsCommute(o.maps, e, f);
    AbsorbCommutes(o, e, f);
  }

  lemma TakeAllSnoc(cfg: Config, o: Outcome, items: seq<Item>, x: Item)
    ensures TakeAll(cfg, o, items + [x]) == Take(cfg, TakeAll(cfg, o, items), x)
  {
    assert (items + [x])[..|items|] == items;
  }

  /** An item can be moved to the end of the batch. */
  lemma {:induction false} MoveLast(cfg: Config, o: Outcome, a: seq<Item>, x: Item, b: seq<Item>)
    requires forall i :: 0 <= i < |b| ==> Apart(x, b[i])
    ensures TakeAll(cfg, o, a + [x] + b) == TakeAll(cfg, o, a + b + [x])
  {
    if b == [] {
      assert a + [x] + b == a + [x] && a + b + [x] == a + [x];
    } else {
      var c, y := b[..|b| - 1], b[|b| - 1];
      assert a + [x] + b == (a + [x] + c) + [y] && a + b == (a + c) + [y];
      MoveLast(cfg, o, a, x, c);
      TakeAllSnoc(cfg, o, a + [x] + c, y);
      TakeAllSnoc(cfg, o, a + c, x);
      TakeAllSnoc(cfg, o, a + c, y);
      TakeAllSnoc(cfg, o, a + b, x);
      TakesCommute(cfg, TakeAll(cfg, o, a + c), x, y);
    }
  }

  /** Distinct pull requests with valid names. */
  predicate Distinct(items: seq<Item>) {
    forall i, j :: 0 <= i < j < |items| ==> Apart(items[i], items[j])
  }

  /** Where the last item of xs stands in a permutation of xs. */
  lemma PickLast(xs: seq<Item>, ys: seq<Item>) returns (a: seq<Item>, b: seq<Item>)
    requires xs != [] && multiset(xs) == multiset(ys)
    ensures ys == a + [xs[|xs| - 1]] + b
    ensures multiset(xs[..|xs| - 1]) == multiset(a + b)
  {
    var front, x := xs[..|xs| - 1], xs[|xs| - 1];
    assert xs == front + [x];
    assert x in multiset(ys);
    var k :| 0 <= k < |ys| && ys[k] == x;
    a, b := ys[..k], ys[k + 1..];
    assert ys == a + [x] + b;
    assert multiset(front) == multiset(xs) - multiset{x} && multiset(a + b) == multiset(ys) - multiset{x};
  }

  lemma LastIsApart(xs: seq<Item>, ys: seq<Item>, i: nat)
    requires xs != [] && Distinct(xs) && multiset(xs[..|xs| - 1]) == multiset(ys) && i < |ys|
    ensures Apart(xs[|xs| - 1], ys[i])
  {
    var front := xs[..|xs| - 1];
    assert ys[i] in multiset(ys);
    assert ys[i] in multiset(front);
    var n :| 0 <= n < |front| && front[n] == ys[i];
    assert Apart(xs[n], xs[|xs| - 1]);
  }

  lemma {:induction false} AnyOrder(cfg: Config, o: Outcome, xs: seq<Item>, ys: seq<Item>)
    requires Distinct(xs) && multiset(xs) == multiset(ys)
    ensures TakeAll(cfg, o, xs) == TakeAll(cfg, o, ys)
    decreases |xs|
  {
    if xs == [] {
      assert |multiset(ys)| == |ys|;
    } else {
      var a, b := PickLast(xs, ys);
      forall i | 0 <= i < |b| ensures Apart(xs[|xs| - 1], b[i]) {
        LastIsApart(xs, a + b, |a| + i);
      }
      MoveLast(cfg, o, a, xs[|xs| - 1], b);
      AnyOrder(cfg, o, xs[..|xs| - 1], a + b);
      TakeAllSnoc(cfg, o, a + b, xs[|xs| - 1]);
    }
  }

  /** Taking in a batch is what its log says. */
  lemma {:induction false} TakeAllIsTheLog(cfg: Config, m: Maps, since: Time, counts: Metrics, items: seq<Item>)
    ensures var es := Events(cfg, m, items);
            TakeAll(cfg, Outcome(m, since, counts, multiset{}, multiset{}), items)
              == Outcome(After(cfg, m, items), Watermark(since, es), CountAll(counts, es),
                         multiset(Commands(es)), multiset(es))
  {
    if items != [] {
      var front, item := items[..|items| - 1], items[|items| - 1];
      TakeAllIsTheLog(cfg, m, since, counts, front);
      var es, e := Events(cfg, m, front), React(cfg, After(cfg, m, front), item);
      var es' := Events(cfg, m, items);
      assert es' == es + [e] && es'[..|es'| - 1] == es;
      assert Commands(es') == Commands(es) + CommandOf(e);
    }
  }

  /** Distinct pull requests, each with its observations and send outcome, in whatever order:
      the same maps, watermark and counters, the same commands and the same events. */
  lemma BatchOrderDoesNotMatter(cfg: Config, c: Cursor, counts: Metrics, xs: seq<Item>, ys: seq<Item>)
    requires Distinct(xs) && multiset(xs) == multiset(ys)
    ensures NextCursor(cfg, c, xs) == NextCursor(cfg, c, ys)
    ensures var es, fs := Events(cfg, StartMaps(c), xs), Events(cfg, StartMaps(c), ys);
            && CountAll(counts, es) == CountAll(counts, fs)
            && multiset(Commands(es)) == multiset(Commands(fs))
            && multiset(es) == multiset(fs)
  {
    AnyOrder(cfg, Outcome(StartMaps(c), c.lastUpdatedAt, counts, multiset{}, multiset{}), xs, ys);
    TakeAllIsTheLog(cfg, StartMaps(c), c.lastUpdatedAt, counts, xs);
    TakeAllIsTheLog(cfg, StartMaps(c), c.lastUpdatedAt, counts, ys);
  }
}
