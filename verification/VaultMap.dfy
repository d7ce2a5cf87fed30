// pkg/vaultmap/vaultmap.go: REPO_VAULT_MAP, a comma-separated list of
// repo-glob=vault entries of which the first match wins.
module VaultMap {
  import opened Strings

  datatype Entry = Entry(glob: string, vault: string)

  /** NoMap is the nil resolver of a map without entries. */
  datatype Parsed = Invalid | NoMap | Resolver(entries: seq<Entry>)

  const DEFAULT_VAULT := "openclaw"

  predicate IsSlugHead(c: char) { 'a' <= c <= 'z' }

  predicate IsSlugChar(c: char) { IsSlugHead(c) || '0' <= c <= '9' || c == '-' }

  /** ^[a-z][a-z0-9-]*$ */
  predicate IsVaultSlug(s: string) {
    s != "" && IsSlugHead(s[0]) && forall c :: c in s ==> IsSlugChar(c)
  }

  datatype Part = Blank | Bad | Good(entry: Entry)

  /** strings.Cut at the first '=', both halves trimmed. */
  function CutEntry(part: string): Option<Entry> {
    var eq := Index(part, "=");
    if eq < 0 then None else Some(Entry(TrimSpace(part[..eq]), TrimSpace(part[eq + 1..])))
  }

  predicate Acceptable(e: Entry) {
    e.glob != "" && e.vault != "" && !HasPrefix(e.glob, "!") && IsVaultSlug(e.vault)
  }

  /** One part between commas. */
  function ReadPart(raw: string): Part {
    var part := TrimSpace(raw);
    if part == "" then Blank
    else match CutEntry(part)
         case None => Bad
         case Some(e) => if Acceptable(e) then Good(e) else Bad
  }

  function GoodEntries(parts: seq<string>): seq<Entry> {
    if parts == [] then []
    else
      var front, p := GoodEntries(parts[..|parts| - 1]), ReadPart(parts[|parts| - 1]);
      if p.Good? then front + [p.entry] else front
  }

  function Globs(entries: seq<Entry>): seq<string> {
    seq(|entries|, i requires 0 <= i < |entries| => entries[i].glob)
  }

  predicate AnyBad(parts: seq<string>) {
    exists i :: 0 <= i < |parts| && ReadPart(parts[i]).Bad?
  }

  /** validGlobs is repoallowlist.Validate. */
  function ParseMap(validGlobs: seq<string> -> bool, raw: string): Parsed {
    var parts := SplitOn(raw, ',');
    var entries := GoodEntries(parts);
    if AnyBad(parts) then Invalid
    else if entries == [] then NoMap
    else if !validGlobs(Globs(entries)) then Invalid
    else Resolver(entries)
  }

  method ParsePart(raw: string) returns (r: Part)
    ensures r == ReadPart(raw)
  {
    var part := TrimSpace(raw);
    if part == "" {
      return Blank;
    }
    var cut := CutEntry(part);
    if cut.None? || cut.value.glob == "" || cut.value.vault == "" {
      return Bad;
    }
    if HasPrefix(cut.value.glob, "!") {
      return Bad;
    }
    if !IsVaultSlug(cut.value.vault) {
      return Bad;
    }
    return Good(cut.value);
  }

  lemma AnyBadStep(parts: seq<string>, i: nat)
    requires i < |parts|
    ensures AnyBad(parts[..i + 1]) <==> AnyBad(parts[..i]) || ReadPart(parts[i]).Bad?
    ensures AnyBad(parts[..i + 1]) ==> AnyBad(parts)
  {
    var now, before := parts[..i + 1], parts[..i];
    assert forall j :: 0 <= j < i ==> now[j] == before[j];
    assert now[i] == parts[i];
  }

  method CollectGlobs(entries: seq<Entry>) returns (globs: seq<string>)
    ensures globs == Globs(entries)
  {
    globs := [];
    for i := 0 to |entries|
      invariant globs == Globs(entries)[..i]
    {
      globs := globs + [entries[i].glob];
    }
  }

  /** The loop over the parts; None is the error it returns early with. */
  method ParseParts(parts: seq<string>) returns (r: Option<seq<Entry>>)
    ensures r == if AnyBad(parts) then None else Some(GoodEntries(parts))
  {
    var entries: seq<Entry> := [];
    for i := 0 to |parts|
      invariant entries == GoodEntries(parts[..i])
      invariant !AnyBad(parts[..i])
    {
      assert parts[..i + 1][..i] == parts[..i];
      AnyBadStep(parts, i);
      var part := ParsePart(parts[i]);
      if part.Bad? {
        return None;
      }
      if part.Good? {
        entries := entries + [part.entry];
      }
    }
    assert parts[..|parts|] == parts;
    return Some(entries);
  }

  method Parse(validGlobs: seq<string> -> bool, raw: string) returns (r: Parsed)
    ensures r == ParseMap(validGlobs, raw)
    ensures var parts := SplitOn(raw, ',');
            var blank := forall p :: p in parts ==> AllSpace(p);
            && (r.Invalid? <==>
                  || (exists p :: p in parts && IsBadPart(p))
                  || (!blank && !validGlobs(Globs(EntriesIn(parts)))))
            && (r.NoMap? <==> blank)
            && (r.Resolver? ==> r.entries == EntriesIn(parts))
  {
    ParseMeans(validGlobs, raw);
    var entries := ParseParts(SplitOn(raw, ','));
    if entries.None? {
      return Invalid;
    }
    if |entries.value| == 0 {
      return NoMap;
    }
    var globs := CollectGlobs(entries.value);
    if !validGlobs(globs) {
      return Invalid;
    }
    return Resolver(entries.value);
  }

  /** covers(glob, key) is repoallowlist.IsAllowed([glob], key). */
  function VaultFor(covers: (string, string) -> bool, entries: seq<Entry>, repoKey: string): string {
    if entries == [] then DEFAULT_VAULT
    else if covers(entries[0].glob, repoKey) then entries[0].vault
    else VaultFor(covers, entries[1..], repoKey)
  }

  // ---- printing and parsing ------------------------------------------------

  /** How an operator may lay out one part: white space alone, or an entry with white
      space around the glob and the vault. */
  datatype Layout = Gap(ws: string) | Line(a: string, b: string, c: string, d: string, entry: Entry)

  predicate EntryOk(e: Entry) {
    && e.glob != "" && Trimmed(e.glob) && '=' !in e.glob && ',' !in e.glob && e.glob[0] != '!'
    && IsVaultSlug(e.vault)
  }

  predicate LayoutOk(l: Layout) {
    match l
    case Gap(ws) => AllSpace(ws)
    case Line(a, b, c, d, e) => AllSpace(a) && AllSpace(b) && AllSpace(c) && AllSpace(d) && EntryOk(e)
  }

  function Print(l: Layout): string {
    match l
    case Gap(ws) => ws
    case Line(a, b, c, d, e) => a + e.glob + b + "=" + c + e.vault + d
  }

  function PrintAll(ls: seq<Layout>): seq<string> {
    seq(|ls|, i requires 0 <= i < |ls| => Print(ls[i]))
  }

  function EntriesOf(ls: seq<Layout>): seq<Entry> {
    if ls == [] then []
    else
      var front, l := EntriesOf(ls[..|ls| - 1]), ls[|ls| - 1];
      if l.Line? then front + [l.entry] else front
  }

  lemma VaultSlugIsTrimmed(v: string)
    requires IsVaultSlug(v)
    ensures Trimmed(v) && '=' !in v && ',' !in v
  {
    assert v[|v| - 1] in v;
  }

  lemma CommaFree(l: Layout)
    requires LayoutOk(l)
    ensures ',' !in Print(l)
  {
    if l.Line? { VaultSlugIsTrimmed(l.entry.vault); }
  }

  lemma IndexOfFirst(a: string, b: string)
    requires '=' !in a
    ensures Index(a + "=" + b, "=") == |a|
  {
    var s := a + "=" + b;
    assert OccursAt(s, "=", |a|);
    assert forall i: nat :: OccursAt(s, "=", i) ==> s[i..i + 1][0] == s[i] == '=';
    assert forall i :: 0 <= i < |a| ==> s[i] == a[i];
  }

  lemma PrintedParts(glob: string, b: string, c: string, vault: string)
    ensures glob + b + "=" + c + vault == (glob + b) + "=" + (c + vault)
    ensures "" + glob + b == glob + b && c + vault + "" == c + vault
  {
  }

  lemma CutPrinted(b: string, c: string, e: Entry)
    requires AllSpace(b) && AllSpace(c) && EntryOk(e)
    ensures Trimmed(e.glob + b + "=" + c + e.vault)
    ensures CutEntry(e.glob + b + "=" + c + e.vault) == Some(e)
  {
    VaultSlugIsTrimmed(e.vault);
    var left, right := e.glob + b, c + e.vault;
    PrintedParts(e.glob, b, c, e.vault);
    assert left[0] == e.glob[0] && right[|right| - 1] == e.vault[|e.vault| - 1];
    EqualsIsTrimmed(left, right);
    CutTrimmed(left, right);
    TrimSpaceUnpads("", e.glob, b);
    TrimSpaceUnpads(c, e.vault, "");
  }

  lemma EntryOkIsAcceptable(e: Entry)
    requires EntryOk(e)
    ensures Acceptable(e)
  {
  }

  lemma PrintedEntryReads(raw: string, part: string, e: Entry)
    requires TrimSpace(raw) == part && part != "" && CutEntry(part) == Some(e) && Acceptable(e)
    ensures ReadPart(raw) == Good(e)
  {
  }

  lemma ReadPrinted(l: Layout)
    requires LayoutOk(l)
    ensures ReadPart(Print(l)) == if l.Line? then Good(l.entry) else Blank
  {
    if l.Line? {
      var part := l.entry.glob + l.b + "=" + l.c + l.entry.vault;
      CutPrinted(l.b, l.c, l.entry);
      Regroup(l.a, l.entry.glob, l.b, l.c, l.entry.vault, l.d);
      TrimSpaceUnpads(l.a, part, l.d);
      EntryOkIsAcceptable(l.entry);
      PrintedEntryReads(Print(l), part, l.entry);
    }
  }

  lemma Regroup(a: string, glob: string, b: string, c: string, vault: string, d: string)
    ensures a + glob + b + "=" + c + vault + d == a + (glob + b + "=" + c + vault) + d
  {
  }

  lemma {:induction false} GoodEntriesOfPrinted(ls: seq<Layout>)
    requires forall l :: l in ls ==> LayoutOk(l)
    ensures GoodEntries(PrintAll(ls)) == EntriesOf(ls)
  {
    if ls != [] {
      var n := |ls| - 1;
      assert PrintAll(ls)[..n] == PrintAll(ls[..n]);
      GoodEntriesOfPrinted(ls[..n]);
      ReadPrinted(ls[n]);
    }
  }

  lemma PrintedPartsAreFine(ls: seq<Layout>)
    requires forall l :: l in ls ==> LayoutOk(l)
    ensures forall p :: p in PrintAll(ls) ==> !ReadPart(p).Bad? && ',' !in p
  {
    forall l | l in ls ensures !ReadPart(Print(l)).Bad? && ',' !in Print(l) {
      ReadPrinted(l);
      CommaFree(l);
    }
  }

  /** Parsing any layout of well-formed entries gives back the entries, in order. */
  lemma ParseInvertsPrint(validGlobs: seq<string> -> bool, ls: seq<Layout>)
    requires ls != [] && forall l :: l in ls ==> LayoutOk(l)
    requires EntriesOf(ls) != [] ==> validGlobs(Globs(EntriesOf(ls)))
    ensures ParseMap(validGlobs, Join(PrintAll(ls), ","))
         == if EntriesOf(ls) == [] then NoMap else Resolver(EntriesOf(ls))
  {
    GoodEntriesOfPrinted(ls);
    PrintedPartsAreFine(ls);
    SplitInvertsJoin(PrintAll(ls), ',');
    assert [','] == ",";
    assert forall i :: 0 <= i < |ls| ==> PrintAll(ls)[i] in PrintAll(ls);
  }

  // ---- what is accepted ----------------------------------------------------

  /** A part that stops the parse: not blank, and without "=", or at its first "=" with a blank
      glob or vault, a negated glob, or a vault outside the slug language. */
  predicate IsBadPart(raw: string) {
    && !AllSpace(raw)
    && ('=' !in raw || NoEntry(GlobOf(raw), VaultOf(raw)))
  }

  predicate NoEntry(glob: string, vault: string) { glob == "" || vault == "" || glob[0] == '!' || NoSlug(vault) }

  /** Not of the form ^[a-z][a-z0-9-]*$. */
  predicate NoSlug(vault: string) {
    || vault == "" || !('a' <= vault[0] <= 'z')
    || exists c :: c in vault && c != '-' && !('a' <= c <= 'z') && !('0' <= c <= '9')
  }

  lemma NoSlugIff(vault: string)
    ensures NoSlug(vault) <==> !IsVaultSlug(vault)
  {
  }

  /** The text in front of the first "=". */
  function BeforeEquals(raw: string): (left: string)
    requires '=' in raw
    ensures '=' !in left && left + "=" <= raw
  {
    if raw[0] == '=' then "" else [raw[0]] + BeforeEquals(raw[1..])
  }

  function GlobOf(raw: string): string
    requires '=' in raw
  {
    TrimSpace(BeforeEquals(raw))
  }

  function VaultOf(raw: string): string
    requires '=' in raw
  {
    TrimSpace(raw[|BeforeEquals(raw)| + 1..])
  }

  /** The entries of the parts that are not blank, in order. */
  function EntriesIn(parts: seq<string>): seq<Entry> {
    if parts == [] then []
    else
      var front, raw := EntriesIn(parts[..|parts| - 1]), parts[|parts| - 1];
      if '=' in raw then front + [Entry(GlobOf(raw), VaultOf(raw))] else front
  }

  lemma AroundEquals(a: string, left: string, right: string, b: string)
    ensures (a + left) + "=" + (right + b) == a + (left + "=" + right) + b
  {
  }

  lemma CutTrimmed(left: string, right: string)
    requires '=' !in left
    ensures CutEntry(left + "=" + right) == Some(Entry(TrimSpace(left), TrimSpace(right)))
  {
    var part := left + "=" + right;
    IndexOfFirst(left, right);
    assert part[..|left|] == left && part[|left| + 1..] == right;
  }

  lemma EqualsIsTrimmed(left: string, right: string)
    requires left != "" ==> !IsSpace(left[0])
    requires right != "" ==> !IsSpace(right[|right| - 1])
    ensures TrimSpace(left + "=" + right) == left + "=" + right
  {
    var s := left + "=" + right;
    assert s[0] == if left == "" then '=' else left[0];
    assert s[|s| - 1] == if right == "" then '=' else right[|right| - 1];
    TrimSpaceUnpads("", s, "");
    assert "" + s + "" == s;
  }

  lemma PaddedLeft(left: string)
    ensures TrimSpace(TrimLeft(left).1) == TrimSpace(left)
  {
    var l := TrimLeft(left);
    TrimSpaceIgnoresPadding(l.0, l.1, "");
    assert l.0 + l.1 + "" == left;
  }

  lemma PaddedRight(right: string)
    ensures TrimSpace(TrimRight(right).0) == TrimSpace(right)
  {
    var r := TrimRight(right);
    TrimSpaceIgnoresPadding("", r.0, r.1);
    assert "" + r.0 + r.1 == right;
  }

  lemma TrimmedAroundEquals(left: string, right: string)
    ensures TrimSpace(left + "=" + right) == TrimLeft(left).1 + "=" + TrimRight(right).0
  {
    var l, r := TrimLeft(left), TrimRight(right);
    AroundEquals(l.0, l.1, r.0, r.1);
    TrimSpaceIgnoresPadding(l.0, l.1 + "=" + r.0, r.1);
    EqualsIsTrimmed(l.1, r.0);
  }

  lemma CutRaw(left: string, right: string)
    requires '=' !in left
    ensures CutEntry(TrimSpace(left + "=" + right)) == Some(Entry(TrimSpace(left), TrimSpace(right)))
  {
    TrimmedAroundEquals(left, right);
    CutTrimmed(TrimLeft(left).1, TrimRight(right).0);
    PaddedLeft(left);
    PaddedRight(right);
  }

  lemma UncutRaw(raw: string)
    requires '=' !in raw
    ensures CutEntry(TrimSpace(raw)).None?
  {
    var part := TrimSpace(raw);
    forall i: nat | i < |part| ensures !OccursAt(part, "=", i) {
      OccurrenceChar(part, "=", i, 0);
      assert part[i] in part;
    }
  }

  lemma NoEntryIff(glob: string, vault: string)
    ensures NoEntry(glob, vault) <==> !Acceptable(Entry(glob, vault))
  {
    NoSlugIff(vault);
    assert HasPrefix(glob, "!") <==> glob != "" && glob[0] == '!';
  }

  lemma PartWithEquals(raw: string)
    requires '=' in raw
    ensures var e := Entry(GlobOf(raw), VaultOf(raw));
            ReadPart(raw) == if Acceptable(e) then Good(e) else Bad
  {
    var left := BeforeEquals(raw);
    var right := raw[|left| + 1..];
    assert raw == left + "=" + right;
    CutRaw(left, right);
    assert !AllSpace(raw);
  }

  lemma PartWithoutEquals(raw: string)
    requires '=' !in raw
    ensures ReadPart(raw) == if AllSpace(raw) then Blank else Bad
  {
    UncutRaw(raw);
  }

  /** Part by part. */
  lemma PartMeans(raw: string)
    ensures ReadPart(raw).Blank? <==> AllSpace(raw)
    ensures ReadPart(raw).Bad? <==> IsBadPart(raw)
    ensures ReadPart(raw).Good? ==> '=' in raw && ReadPart(raw).entry == Entry(GlobOf(raw), VaultOf(raw))
  {
    if '=' in raw {
      PartWithEquals(raw);
      NoEntryIff(GlobOf(raw), VaultOf(raw));
    } else {
      PartWithoutEquals(raw);
    }
  }

  lemma {:induction false} GoodEntriesMean(parts: seq<string>)
    requires forall i :: 0 <= i < |parts| ==> !IsBadPart(parts[i])
    ensures GoodEntries(parts) == EntriesIn(parts)
  {
    if parts != [] {
      var n := |parts| - 1;
      assert forall i :: 0 <= i < n ==> parts[..n][i] == parts[i];
      GoodEntriesMean(parts[..n]);
      PartMeans(parts[n]);
    }
  }

  lemma {:induction false} NoEntriesIff(parts: seq<string>)
    requires forall i :: 0 <= i < |parts| ==> !IsBadPart(parts[i])
    ensures EntriesIn(parts) == [] <==> forall i :: 0 <= i < |parts| ==> AllSpace(parts[i])
  {
    if parts != [] {
      var n := |parts| - 1;
      assert forall i :: 0 <= i < n ==> parts[..n][i] == parts[i];
      NoEntriesIff(parts[..n]);
      assert '=' in parts[n] <==> !AllSpace(parts[n]);
    }
  }

  /** What becomes of a map, from the texts between its commas: it is refused exactly for a bad
      part or for globs the validator refuses, it is none exactly if all parts are blank, and
      else it has the entries of the others in order. */
  lemma ParseMeans(validGlobs: seq<string> -> bool, raw: string)
    ensures var parts, r := SplitOn(raw, ','), ParseMap(validGlobs, raw);
            var blank := forall p :: p in parts ==> AllSpace(p);
            && (r.Invalid? <==>
                  || (exists p :: p in parts && IsBadPart(p))
                  || (!blank && !validGlobs(Globs(EntriesIn(parts)))))
            && (r.NoMap? <==> blank)
            && (r.Resolver? ==> r.entries == EntriesIn(parts))
  {
    var parts := SplitOn(raw, ',');
    forall p ensures (ReadPart(p).Bad? <==> IsBadPart(p)) && (ReadPart(p).Blank? <==> AllSpace(p)) {
      PartMeans(p);
    }
    if p :| p in parts && IsBadPart(p) {
      var i :| 0 <= i < |parts| && parts[i] == p;
      assert ReadPart(parts[i]).Bad?;
    } else {
      GoodEntriesMean(parts);
      NoEntriesIff(parts);
    }
  }

  // ---- resolving -----------------------------------------------------------

  lemma {:induction false} GoodEntriesAreClean(parts: seq<string>)
    ensures forall e :: e in GoodEntries(parts) ==>
              IsVaultSlug(e.vault) && e.glob != "" && Trimmed(e.glob) && e.glob[0] != '!'
  {
    if parts != [] {
      var p := ReadPart(parts[|parts| - 1]);
      GoodEntriesAreClean(parts[..|parts| - 1]);
      assert p.Good? ==> !HasPrefix(p.entry.glob, "!");
    }
  }

  /** The vault of the first entry that matches, or without a match the default. */
  predicate FirstMatch(covers: (string, string) -> bool, entries: seq<Entry>, key: string, vault: string) {
    || (vault == "openclaw" && forall e :: e in entries ==> !covers(e.glob, key))
    || exists i :: && 0 <= i < |entries| && covers(entries[i].glob, key) && vault == entries[i].vault
                   && forall j :: 0 <= j < i ==> !covers(entries[j].glob, key)
  }

  lemma {:induction false} VaultForIsFirstMatch(covers: (string, string) -> bool, entries: seq<Entry>, key: string)
    ensures FirstMatch(covers, entries, key, VaultFor(covers, entries, key))
  {
    if entries != [] && !covers(entries[0].glob, key) {
      var tail := entries[1..];
      VaultForIsFirstMatch(covers, tail, key);
      if i :| 0 <= i < |tail| && covers(tail[i].glob, key) && VaultFor(covers, tail, key) == tail[i].vault
              && forall j :: 0 <= j < i ==> !covers(tail[j].glob, key) {
        assert entries[i + 1] == tail[i];
        assert forall j :: 0 < j < i + 1 ==> entries[j] == tail[j - 1];
      }
    }
  }

  /** Whatever map was accepted, every vault it resolves to can be claimed by a controller. */
  lemma ResolvedVaultsAreSlugs(validGlobs: seq<string> -> bool, raw: string,
                               covers: (string, string) -> bool, key: string)
    requires ParseMap(validGlobs, raw).Resolver?
    ensures IsVaultSlug(VaultFor(covers, ParseMap(validGlobs, raw).entries, key))
  {
    GoodEntriesAreClean(SplitOn(raw, ','));
    VaultForIsFirstMatch(covers, ParseMap(validGlobs, raw).entries, key);
    assert IsVaultSlug(DEFAULT_VAULT);
  }

  /** Appended entries only reach keys that no earlier entry matched. */
  lemma {:induction false} AppendingEntriesIsSafe(covers: (string, string) -> bool, entries: seq<Entry>,
                                                  more: seq<Entry>, key: string)
    ensures VaultFor(covers, entries + more, key)
         == if exists e :: e in entries && covers(e.glob, key) then VaultFor(covers, entries, key)
            else VaultFor(covers, more, key)
  {
    if entries == [] {
      assert entries + more == more;
    } else {
      assert (entries + more)[1..] == entries[1..] + more;
      AppendingEntriesIsSafe(covers, entries[1..], more, key);
      assert forall e :: e in entries <==> e == entries[0] || e in entries[1..];
    }
  }
}
