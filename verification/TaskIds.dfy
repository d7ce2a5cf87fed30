// pkg/taskid.go and the key builders of pkg/watcher.go: the three families of
// task-identifier keys and the marker keys.
module TaskIds {
  import opened Strings

  /** Version 5 UUID of a key in the watcher's fixed namespace (section 5.5 of RFC 9562).
      A free constructor: distinct keys give distinct identifiers. */
  datatype TaskId = Uuid5(key: string)

  /** What identifies a pull request. */
  datatype PRRef = PRRef(owner: string, repo: string, number: int) {
    /** GitHub names: no '/' in an owner, no '#' in a repository. */
    predicate Valid() { '/' !in owner && '#' !in repo }
  }

  const QUEUED := "queued"

  /** "<owner>/<repo>#<number>", the key of Cursor.QueuedMarkers. */
  function MarkerKey(p: PRRef): string {
    p.owner + "/" + p.repo + "#" + Decimal(p.number)
  }

  function ShaKey(p: PRRef, sha: string): string { MarkerKey(p) + "@" + sha }

  function QueuedKey(p: PRRef): string { MarkerKey(p) + "@" + QUEUED }

  function ForceKey(p: PRRef, sha: string, nonce: string): string {
    MarkerKey(p) + "@" + sha + "!" + nonce
  }

  function DeriveTaskID(p: PRRef, sha: string, promptsQueued: bool): TaskId {
    Uuid5(if promptsQueued then QueuedKey(p) else ShaKey(p, sha))
  }

  function DeriveTaskIDForce(p: PRRef, sha: string, nonce: string): TaskId {
    Uuid5(ForceKey(p, sha, nonce))
  }

  function QueuedId(p: PRRef): TaskId { DeriveTaskID(p, "", true) }

  /** The keys as they are written, after the examples of the source. */
  lemma KeysAreWritten()
    ensures var p := PRRef("bborbe", "widget", 42);
            && MarkerKey(p) == "bborbe/widget#42"
            && DeriveTaskID(p, "abc123", false) == Uuid5("bborbe/widget#42@abc123")
            && DeriveTaskID(p, "abc123", true) == Uuid5("bborbe/widget#42@queued")
            && DeriveTaskIDForce(p, "abc123", "17") == Uuid5("bborbe/widget#42@abc123!17")
  {
    assert Digits(4) == "4" && Digits(42) == "42";
  }

  /** Everything behind a marker key, including nothing, can be split off again. */
  lemma TaggedKeysSplit(p: PRRef, q: PRRef, x: string, y: string)
    requires p.Valid() && q.Valid()
    ensures MarkerKey(p) + "@" + x == MarkerKey(q) + "@" + y <==> p == q && x == y
  {
    if MarkerKey(p) + "@" + x == MarkerKey(q) + "@" + y {
      var px, qy := p.repo + "#" + Decimal(p.number) + "@" + x, q.repo + "#" + Decimal(q.number) + "@" + y;
      assert MarkerKey(p) + "@" + x == p.owner + ['/'] + px;
      assert MarkerKey(q) + "@" + y == q.owner + ['/'] + qy;
      FirstSeparator(p.owner, px, q.owner, qy, '/');
      var pn, qn := Decimal(p.number) + "@" + x, Decimal(q.number) + "@" + y;
      assert px == p.repo + ['#'] + pn && qy == q.repo + ['#'] + qn;
      FirstSeparator(p.repo, pn, q.repo, qn, '#');
      FirstSeparator(Decimal(p.number), x, Decimal(q.number), y, '@');
      DecimalInjective(p.number, q.number);
    }
  }

  lemma MarkerKeysInjective(p: PRRef, q: PRRef)
    requires p.Valid() && q.Valid()
    ensures MarkerKey(p) == MarkerKey(q) <==> p == q
  {
    TaggedKeysSplit(p, q, "", "");
  }

  lemma ShaKeysInjective(p: PRRef, s: string, q: PRRef, t: string)
    requires p.Valid() && q.Valid()
    ensures ShaKey(p, s) == ShaKey(q, t) <==> p == q && s == t
  {
    TaggedKeysSplit(p, q, s, t);
  }

  lemma QueuedKeysInjective(p: PRRef, q: PRRef)
    requires p.Valid() && q.Valid()
    ensures QueuedKey(p) == QueuedKey(q) <==> p == q
  {
    TaggedKeysSplit(p, q, QUEUED, QUEUED);
  }

  /** A SHA key meets a queued key only for the impossible commit hash "queued". */
  lemma ShaMeetsQueued(p: PRRef, s: string, q: PRRef)
    requires p.Valid() && q.Valid()
    ensures ShaKey(p, s) == QueuedKey(q) <==> p == q && s == QUEUED
  {
    TaggedKeysSplit(p, q, s, QUEUED);
  }

  lemma ForceKeysInjective(p: PRRef, s: string, m: string, q: PRRef, t: string, n: string)
    requires p.Valid() && q.Valid() && '!' !in s && '!' !in t
    ensures ForceKey(p, s, m) == ForceKey(q, t, n) <==> p == q && s == t && m == n
  {
    assert ForceKey(p, s, m) == MarkerKey(p) + "@" + (s + ['!'] + m);
    assert ForceKey(q, t, n) == MarkerKey(q) + "@" + (t + ['!'] + n);
    TaggedKeysSplit(p, q, s + ['!'] + m, t + ['!'] + n);
    if s + ['!'] + m == t + ['!'] + n {
      FirstSeparator(s, m, t, n, '!');
    }
  }

  /** A forced key is never a SHA key (of a hash without '!') nor a queued key. */
  lemma ForceKeysApart(p: PRRef, s: string, n: string, q: PRRef, t: string)
    requires p.Valid() && q.Valid()
    ensures ForceKey(p, s, n) == ShaKey(q, t) <==> p == q && t == s + "!" + n
    ensures ForceKey(p, s, n) != QueuedKey(q)
  {
    assert ForceKey(p, s, n) == MarkerKey(p) + "@" + (s + "!" + n);
    TaggedKeysSplit(p, q, s + "!" + n, t);
    TaggedKeysSplit(p, q, s + "!" + n, QUEUED);
    assert '!' in s + "!" + n;
    assert '!' !in QUEUED;
  }

  /** No commit hash contains '!' or is the word "queued". */
  predicate IsSha(s: string) { '!' !in s && s != QUEUED }

  predicate IsHex(s: string) { forall c :: c in s ==> '0' <= c <= '9' || 'a' <= c <= 'f' }

  lemma HexIsSha(s: string)
    requires IsHex(s)
    ensures IsSha(s)
  {
    assert 'q' in QUEUED;
  }

  datatype Family = BySha(sha: string) | Queued | Forced(sha: string, nonce: string)

  predicate WellFormed(f: Family) {
    match f
    case BySha(s) => IsSha(s)
    case Queued => true
    case Forced(s, _) => IsSha(s)
  }

  function IdOf(p: PRRef, f: Family): TaskId {
    match f
    case BySha(s) => DeriveTaskID(p, s, false)
    case Queued => QueuedId(p)
    case Forced(s, n) => DeriveTaskIDForce(p, s, n)
  }

  /** The whole key space at once: identifier, PR, family and arguments determine each other. */
  lemma TaskIdsDetermineTheirOrigin(p: PRRef, f: Family, q: PRRef, g: Family)
    requires p.Valid() && q.Valid() && WellFormed(f) && WellFormed(g)
    ensures IdOf(p, f) == IdOf(q, g) <==> p == q && f == g
  {
    match (f, g)
    case (BySha(s), BySha(t)) => ShaKeysInjective(p, s, q, t);
    case (BySha(s), Queued) => ShaMeetsQueued(p, s, q);
    case (Queued, BySha(t)) => ShaMeetsQueued(q, t, p);
    case (Queued, Queued) => QueuedKeysInjective(p, q);
    case (Forced(s, m), Forced(t, n)) => ForceKeysInjective(p, s, m, q, t, n);
    case (Forced(s, m), BySha(t)) => ForceKeysApart(p, s, m, q, t); assert '!' in s + "!" + m;
    case (BySha(s), Forced(t, n)) => ForceKeysApart(q, t, n, p, s); assert '!' in t + "!" + n;
    case (Forced(s, m), Queued) => ForceKeysApart(p, s, m, q, "");
    case (Queued, Forced(t, n)) => ForceKeysApart(q, t, n, p, "");
  }

  predicate OverHex(f: Family) { f.Queued? || IsHex(f.sha) }

  /** So over hashes as Git writes them no condition is left, whatever the nonces are. */
  lemma HexIdsDetermineTheirOrigin(p: PRRef, f: Family, q: PRRef, g: Family)
    requires p.Valid() && q.Valid() && OverHex(f) && OverHex(g)
    ensures IdOf(p, f) == IdOf(q, g) <==> p == q && f == g
  {
    if !f.Queued? { HexIsSha(f.sha); }
    if !g.Queued? { HexIsSha(g.sha); }
    TaskIdsDetermineTheirOrigin(p, f, q, g);
  }

  /** The identifiers a poll or an unforced trigger may use for two PRs never meet. */
  lemma DerivedIdsSeparatePRs(p: PRRef, s: string, b: bool, q: PRRef, t: string, c: bool)
    requires p.Valid() && q.Valid()
    requires DeriveTaskID(p, s, b) == DeriveTaskID(q, t, c)
    ensures p == q
  {
    TaggedKeysSplit(p, q, if b then QUEUED else s, if c then QUEUED else t);
  }
}
