// pkg/filename.go: slugs and vault filenames. Strings are what Go's len counts,
// bytes, except PR titles, which are runes.
module Filename {
  import opened Strings

  predicate IsAlnum(c: char) { 'a' <= c <= 'z' || '0' <= c <= '9' }

  /** unicode.ToLower as far as slugs depend on it. */
  ghost predicate IsLowering(lower: char -> char) {
    (forall c :: IsAlnum(c) ==> lower(c) == c) && lower('-') == '-'
  }

  function Lowered(lower: char -> char, title: string): string {
    seq(|title|, i requires 0 <= i < |title| => lower(title[i]))
  }

  /** The maximal alphanumeric runs of a text, left to right. */
  function Words(s: string): (ws: seq<string>)
    ensures s != "" && IsAlnum(s[|s| - 1]) ==> ws != []
  {
    if s == "" then []
    else
      var n := |s| - 1;
      var ws := Words(s[..n]);
      if !IsAlnum(s[n]) then ws
      else if n > 0 && IsAlnum(s[n - 1]) then ws[..|ws| - 1] + [ws[|ws| - 1] + [s[n]]]
      else ws + [[s[n]]]
  }

  function FullSlug(lower: char -> char, title: string): string {
    Join(Words(Lowered(lower, title)), "-")
  }

  /** Cut to the cap, less the hyphen a cut may leave at the end. */
  function Capped(slug: string, maxSlug: nat): string {
    if |slug| <= maxSlug then slug
    else if maxSlug > 0 && slug[maxSlug - 1] == '-' then slug[..maxSlug - 1]
    else slug[..maxSlug]
  }

  /** The slug of a title: its lowercase words joined by hyphens, within the cap. */
  function Slug(lower: char -> char, title: string, maxSlug: nat): string {
    Capped(FullSlug(lower, title), maxSlug)
  }

  /** Lowercase words joined by single hyphens. */
  predicate IsSlug(s: string) {
    && (forall i :: 0 <= i < |s| ==> IsAlnum(s[i]) || s[i] == '-')
    && (forall i :: 0 < i < |s| ==> IsAlnum(s[i - 1]) || IsAlnum(s[i]))
    && (s != "" ==> IsAlnum(s[0]) && IsAlnum(s[|s| - 1]))
  }

  // ---- the code ------------------------------------------------------------

  function TrimHyphensRight(s: string): string {
    if s != "" && s[|s| - 1] == '-' then TrimHyphensRight(s[..|s| - 1]) else s
  }

  /** strings.Trim(s, "-") */
  function TrimHyphens(s: string): string {
    if s != "" && s[0] == '-' then TrimHyphens(s[1..]) else TrimHyphensRight(s)
  }

  /** What the builder holds after s: one hyphen for every stretch of other characters. */
  function Collapsed(s: string): string {
    (if s != "" && !IsAlnum(s[0]) then "-" else "") + Join(Words(s), "-") +
    (if s != "" && !IsAlnum(s[|s| - 1]) && Words(s) != [] then "-" else "")
  }

  lemma JoinAppended(ws: seq<string>, w: string, sep: string)
    ensures Join(ws + [w], sep) == if ws == [] then w else Join(ws, sep) + sep + w
  {
    assert (ws + [w])[..|ws|] == ws;
  }

  lemma JoinGrown(front: seq<string>, last: string, c: char, sep: string)
    ensures Join(front + [last + [c]], sep) == Join(front + [last], sep) + [c]
  {
    JoinAppended(front, last, sep);
    JoinAppended(front, last + [c], sep);
    var j := Join(front, sep) + sep;
    assert j + (last + [c]) == j + last + [c];
  }

  lemma JoinedStep(s: string, c: char)
    ensures Join(Words(s + [c]), "-")
         == Join(Words(s), "-") + (if !IsAlnum(c) then ""
                                   else if (s != "" && IsAlnum(s[|s| - 1])) || Words(s) == [] then [c]
                                   else "-" + [c])
    ensures Words(s + [c]) == [] <==> Words(s) == [] && !IsAlnum(c)
  {
    var t := s + [c];
    assert t[..|t| - 1] == s;
    assert s != "" ==> t[|s| - 1] == s[|s| - 1];
    var ws := Words(s);
    if IsAlnum(c) && s != "" && IsAlnum(s[|s| - 1]) {
      var front, last := ws[..|ws| - 1], ws[|ws| - 1];
      assert ws == front + [last];
      JoinGrown(front, last, c, "-");
    } else {
      JoinAppended(ws, [c], "-");
    }
  }

  lemma CollapsedStep(s: string, c: char)
    ensures Collapsed(s + [c])
         == Collapsed(s) + (if IsAlnum(c) then [c] else if s == "" || IsAlnum(s[|s| - 1]) then "-" else "")
  {
    JoinedStep(s, c);
    WordsAreWords(s);
    var t := s + [c];
    assert t[0] == if s == "" then c else s[0];
    assert t[|t| - 1] == c;
  }

  method SlugifyTitle(lower: char -> char, title: string, maxSlug: nat) returns (result: string)
    ensures result == Slug(lower, title, maxSlug)
  {
    var lowered := Lowered(lower, title);
    var b := "";
    var prevHyphen := false;
    for i := 0 to |lowered|
      invariant b == Collapsed(lowered[..i])
      invariant prevHyphen <==> i > 0 && !IsAlnum(lowered[i - 1])
    {
      var r := lowered[i];
      assert lowered[..i + 1] == lowered[..i] + [r];
      CollapsedStep(lowered[..i], r);
      if IsAlnum(r) {
        b := b + [r];
        prevHyphen := false;
      } else if !prevHyphen {
        b := b + "-";
        prevHyphen := true;
      }
    }
    assert lowered[..|lowered|] == lowered;
    result := TrimHyphens(b);
    TrimmedCollapsed(lowered);
    if |result| > maxSlug {
      result := result[..maxSlug];
      TrimAfterCut(FullSlug(lower, title), maxSlug);
      result := TrimHyphensRight(result);
    }
  }

  lemma TrimAfterCut(s: string, n: nat)
    requires IsSlug(s) && n <= |s|
    ensures TrimHyphensRight(s[..n]) == if n > 0 && s[n - 1] == '-' then s[..n - 1] else s[..n]
  {
    if n > 1 && s[n - 1] == '-' {
      assert s[..n][..n - 1] == s[..n - 1] && IsAlnum(s[n - 2]);
    }
  }

  predicate AreWords(ws: seq<string>) {
    forall i :: 0 <= i < |ws| ==> ws[i] != "" && forall k :: 0 <= k < |ws[i]| ==> IsAlnum(ws[i][k])
  }

  lemma {:induction false} WordsAreWords(s: string)
    ensures AreWords(Words(s))
    ensures Words(s) == [] <==> forall i :: 0 <= i < |s| ==> !IsAlnum(s[i])
  {
    if s != "" {
      var n := |s| - 1;
      WordsAreWords(s[..n]);
      assert forall i :: 0 <= i < n ==> s[..n][i] == s[i];
    }
  }

  lemma {:induction false} JoinedWordsAreASlug(ws: seq<string>)
    requires AreWords(ws)
    ensures IsSlug(Join(ws, "-"))
    ensures Join(ws, "-") == "" <==> ws == []
  {
    if |ws| > 1 {
      var front, last := ws[..|ws| - 1], ws[|ws| - 1];
      JoinedWordsAreASlug(front);
      var f, j := Join(front, "-"), Join(ws, "-");
      assert j == f + "-" + last;
      assert forall i :: 0 <= i < |j| ==> j[i] == if i < |f| then f[i] else if i == |f| then '-' else last[i - |f| - 1];
    }
  }

  lemma TrimmedCollapsed(s: string)
    ensures IsSlug(Join(Words(s), "-"))
    ensures TrimHyphens(Collapsed(s)) == Join(Words(s), "-")
  {
    WordsAreWords(s);
    JoinedWordsAreASlug(Words(s));
    var j := Join(Words(s), "-");
    TrimPadded(j);
    assert "" + j + "" == j && "" + j + "-" == j + "-" && "-" + j + "" == "-" + j;
  }

  lemma TrimPadded(j: string)
    requires IsSlug(j)
    ensures TrimHyphens(j) == TrimHyphens("-" + j) == j
    ensures TrimHyphens(j + "-") == TrimHyphens("-" + j + "-") == j
  {
    assert TrimHyphensRight(j) == j;
    assert (j + "-")[..|j|] == j;
    assert TrimHyphensRight(j + "-") == j;
    assert ("-" + j)[1..] == j && ("-" + j + "-")[1..] == j + "-";
    assert ("-" + "-")[1..] == "-";
  }

  // ---- what a slug promises ------------------------------------------------

  function Letters(s: string): string {
    if s == "" then "" else Letters(s[..|s| - 1]) + (if IsAlnum(s[|s| - 1]) then [s[|s| - 1]] else "")
  }

  lemma {:induction false} LettersConcat(a: string, b: string)
    ensures Letters(a + b) == Letters(a) + Letters(b)
  {
    if b == "" {
      assert a + b == a;
    } else {
      assert (a + b)[..|a + b| - 1] == a + b[..|b| - 1];
      LettersConcat(a, b[..|b| - 1]);
    }
  }

  lemma {:induction false} CollapsedKeepsLetters(s: string)
    ensures Letters(Collapsed(s)) == Letters(s)
  {
    if s != "" {
      var front, c := s[..|s| - 1], s[|s| - 1];
      CollapsedKeepsLetters(front);
      CollapsedStep(front, c);
      assert s == front + [c];
      LettersConcat(Collapsed(front), [c]);
      LettersConcat(Collapsed(front), "-");
      LettersConcat(Collapsed(front), "");
      assert Letters([c]) == if IsAlnum(c) then [c] else "";
    }
  }

  lemma {:induction false} CollapsedFixesTight(s: string)
    requires Tight(s)
    ensures Collapsed(s) == s
  {
    if s != "" {
      var front, c := s[..|s| - 1], s[|s| - 1];
      CollapsedFixesTight(front);
      CollapsedStep(front, c);
      assert s == front + [c];
    }
  }

  predicate Tight(s: string) {
    && (forall i :: 0 <= i < |s| ==> IsAlnum(s[i]) || s[i] == '-')
    && (forall i :: 0 < i < |s| ==> IsAlnum(s[i - 1]) || IsAlnum(s[i]))
  }

  /** A slug is its own full slug. */
  lemma SlugOfSlug(lower: char -> char, s: string)
    requires IsLowering(lower) && IsSlug(s)
    ensures FullSlug(lower, s) == s
  {
    assert Lowered(lower, s) == s;
    assert Tight(s);
    CollapsedFixesTight(s);
    TrimmedCollapsed(s);
    TrimPadded(s);
  }

  /** Every title slugs to a normal form within the cap, slugging again changes nothing,
      and a smaller cap only cuts further. */
  lemma SlugNormalForm(lower: char -> char, title: string, m: nat, n: nat)
    requires IsLowering(lower) && m <= n
    ensures IsSlug(Slug(lower, title, n)) && |Slug(lower, title, n)| <= n
    ensures Slug(lower, Slug(lower, title, n), n) == Slug(lower, title, n)
    ensures Slug(lower, title, m) <= Slug(lower, title, n)
  {
    var full := FullSlug(lower, title);
    TrimmedCollapsed(Lowered(lower, title));
    CappedSlugs(full, m, n);
    SlugOfSlug(lower, Slug(lower, title, n));
  }

  /** The cap cuts no more than it must: what is left is the longest front part of the full
      slug that is a slug itself and within the cap. */
  lemma SlugIsLongest(lower: char -> char, title: string, n: nat)
    ensures Slug(lower, title, n) <= FullSlug(lower, title)
    ensures IsSlug(Slug(lower, title, n)) && |Slug(lower, title, n)| <= n
    ensures forall s :: s <= FullSlug(lower, title) && IsSlug(s) && |s| <= n ==> |s| <= |Slug(lower, title, n)|
  {
    var full := FullSlug(lower, title);
    TrimmedCollapsed(Lowered(lower, title));
    CappedSlugs(full, n, n);
    forall s | s <= full && IsSlug(s) && |s| <= n ensures |s| <= |Slug(lower, title, n)| {
      if |s| == n && n > 0 { assert s[n - 1] == full[n - 1]; }
    }
  }

  function Glued(a: string, b: string): string {
    if a == "" then b else if b == "" then a else a + "-" + b
  }

  /** What a further character adds to joined words, behind a letter or digit or not. */
  function Added(joined: string, behindAlnum: bool, c: char): string {
    if !IsAlnum(c) then "" else if behindAlnum || joined == "" then [c] else "-" + [c]
  }

  predicate EndsAlnum(s: string) { s != "" && IsAlnum(s[|s| - 1]) }

  lemma JoinedAdds(s: string, c: char)
    ensures Join(Words(s + [c]), "-") == Join(Words(s), "-") + Added(Join(Words(s), "-"), EndsAlnum(s), c)
    ensures EndsAlnum(s) ==> Join(Words(s), "-") != ""
  {
    JoinedStep(s, c);
    WordsAreWords(s);
    JoinedWordsAreASlug(Words(s));
  }

  lemma GluedAdds(a: string, b: string, behindAlnum: bool, c: char)
    requires behindAlnum ==> b != ""
    ensures Glued(a, b) + Added(Glued(a, b), behindAlnum, c) == Glued(a, b + Added(b, behindAlnum, c))
  {
  }

  lemma {:induction false} WordsOfParts(a: string, c: char, b: string)
    requires !IsAlnum(c)
    ensures Join(Words(a + [c] + b), "-") == Glued(Join(Words(a), "-"), Join(Words(b), "-"))
  {
    if b == "" {
      JoinedAdds(a, c);
      assert a + [c] + b == a + [c];
    } else {
      var front, x := b[..|b| - 1], b[|b| - 1];
      var whole := a + [c] + front;
      WordsOfParts(a, c, front);
      assert b == front + [x] && a + [c] + b == whole + [x];
      assert whole[|whole| - 1] == if front == "" then c else front[|front| - 1];
      JoinedAdds(front, x);
      JoinedAdds(whole, x);
      GluedAdds(Join(Words(a), "-"), Join(Words(front), "-"), EndsAlnum(front), x);
    }
  }

  lemma {:induction false} WordIsItself(s: string)
    requires forall i :: 0 <= i < |s| ==> IsAlnum(s[i])
    ensures Join(Words(s), "-") == s
  {
    if s != "" {
      var front, c := s[..|s| - 1], s[|s| - 1];
      WordIsItself(front);
      JoinedAdds(front, c);
      assert s == front + [c];
    }
  }

  /** What determines the full slug: a title of letters and digits is its own, lowercased; and
      a character of another kind puts one hyphen between what is in front of it and behind
      it, or none where there is nothing. */
  lemma SlugOfParts(lower: char -> char, a: string, c: char, b: string)
    requires !IsAlnum(lower(c))
    ensures FullSlug(lower, a + [c] + b) == Glued(FullSlug(lower, a), FullSlug(lower, b))
    ensures (forall i :: 0 <= i < |a| ==> IsAlnum(lower(a[i]))) ==> FullSlug(lower, a) == Lowered(lower, a)
  {
    var x, y := Lowered(lower, a), Lowered(lower, b);
    assert Lowered(lower, a + [c] + b) == x + [lower(c)] + y;
    WordsOfParts(x, lower(c), y);
    if forall i :: 0 <= i < |a| ==> IsAlnum(lower(a[i])) { WordIsItself(x); }
  }

  lemma CappedSlugs(s: string, m: nat, n: nat)
    requires IsSlug(s) && m <= n
    ensures IsSlug(Capped(s, n)) && |Capped(s, n)| <= n
    ensures Capped(s, m) <= Capped(s, n)
  {
    var c := Capped(s, n);
    assert c == s[..|c|];
    assert n > 1 && n < |s| && s[n - 1] == '-' ==> IsAlnum(s[n - 2]);
    assert Capped(s, m) == s[..|Capped(s, m)|];
    assert |Capped(s, m)| <= |c|;
  }

  /** An uncapped slug keeps every letter and digit of the lowercased title, in order. */
  lemma FullSlugKeepsLetters(lower: char -> char, title: string)
    ensures Letters(FullSlug(lower, title)) == Letters(Lowered(lower, title))
  {
    var s := Lowered(lower, title);
    var j := Join(Words(s), "-");
    var lead := if s != "" && !IsAlnum(s[0]) then "-" else "";
    var trail := if s != "" && !IsAlnum(s[|s| - 1]) && Words(s) != [] then "-" else "";
    CollapsedKeepsLetters(s);
    LettersConcat(lead + j, trail);
    LettersConcat(lead, j);
    assert Letters("-") == "" == Letters("");
  }

  // ---- the filename --------------------------------------------------------

  const PREFIX := "Dark Factory Implement"

  function ShortSHA(sha: string): string { if |sha| > 8 then sha[..8] else sha }

  function BaseName(provider: string, owner: string, repo: string, number: int, sha: string): (r: string)
    ensures r != ""
  {
    PREFIX + " " + provider + " - " + owner + "-" + repo + " - " + Decimal(number) + " - " + ShortSHA(sha)
  }

  function SlugPart(slug: string): string { if slug == "" then "" else " - " + slug }

  function SuffixPart(suffix: string): string { if suffix == "" then "" else " - " + suffix }

  /** As much of head as the suffix leaves room for, then the suffix. */
  function WithinBudget(head: string, suffixPart: string, maxTitle: int): string {
    var room := Max(0, maxTitle - |suffixPart|);
    (if |head| <= room then head else head[..room]) + suffixPart
  }

  function TaskFilename(lower: char -> char, base: string, prTitle: string,
                        maxSlug: nat, maxTitle: int, taskSuffix: string): string {
    WithinBudget(base + SlugPart(Slug(lower, prTitle, maxSlug)), SuffixPart(taskSuffix), maxTitle)
  }

  method ComputeTaskFilename(lower: char -> char, provider: string, owner: string, repo: string, number: int,
                             sha: string, prTitle: string, maxSlug: nat, maxTitle: int, taskSuffix: string)
    returns (name: string)
    ensures name == TaskFilename(lower, BaseName(provider, owner, repo, number, sha), prTitle,
                                 maxSlug, maxTitle, taskSuffix)
  {
    var shortSHA := sha;
    if |shortSHA| > 8 {
      shortSHA := shortSHA[..8];
    }
    var base := PREFIX + " " + provider + " - " + owner + "-" + repo + " - " + Decimal(number) + " - " + shortSHA;
    var slug := SlugifyTitle(lower, prTitle, maxSlug);
    var t := base;
    if slug != "" {
      t := base + " - " + slug;
      assert t == base + (" - " + slug);
    } else {
      assert t == base + "";
    }
    var suffixPart := "";
    if taskSuffix != "" {
      suffixPart := " - " + taskSuffix;
    }
    if |t| + |suffixPart| > maxTitle {
      var budget := maxTitle - |suffixPart|;
      if budget < 0 {
        budget := 0;
      }
      if |t| > budget {
        t := t[..budget];
      }
    }
    return t + suffixPart;
  }

  /** The suffix always survives; the cap holds whenever the suffix alone fits, and nothing
      but the suffix is left exactly when there is no room beside it. */
  lemma SuffixSurvives(lower: char -> char, base: string, prTitle: string,
                       maxSlug: nat, maxTitle: int, taskSuffix: string)
    requires base != ""
    ensures var name := TaskFilename(lower, base, prTitle, maxSlug, maxTitle, taskSuffix);
            var suffixPart := SuffixPart(taskSuffix);
            && HasSuffix(name, suffixPart)
            && (|suffixPart| <= maxTitle ==> |name| <= maxTitle)
            && (name == suffixPart <==> maxTitle <= |suffixPart|)
  {
  }

  /** A filename for GitHub, spelled out: the PR's name and slug, cut to what room the suffix
      leaves and no shorter, then the whole suffix. */
  predicate IsFilename(lower: char -> char, owner: string, repo: string, number: int, sha: string, prTitle: string,
                       maxSlug: nat, maxTitle: int, taskSuffix: string, name: string) {
    var base := "Dark Factory Implement github - " + owner + "-" + repo + " - " + Decimal(number) + " - "
                + (if |sha| <= 8 then sha else sha[..8]);
    var slug := Slug(lower, prTitle, maxSlug);
    IsCut(base + (if slug == "" then "" else " - " + slug), if taskSuffix == "" then "" else " - " + taskSuffix,
          maxTitle, name)
  }

  predicate IsCut(whole: string, suffix: string, maxTitle: int, name: string) {
    && |suffix| <= |name| <= |whole| + |suffix|
    && name == whole[..|name| - |suffix|] + suffix
    && |name| == (if |whole| + |suffix| <= maxTitle then |whole| + |suffix| else Max(maxTitle, |suffix|))
  }

  lemma GitHubBase(owner: string, repo: string, number: int, sha: string)
    ensures BaseName("github", owner, repo, number, sha)
         == "Dark Factory Implement github - " + owner + "-" + repo + " - " + Decimal(number) + " - "
            + (if |sha| <= 8 then sha else sha[..8])
  {
    assert PREFIX + " " + "github" + " - " == "Dark Factory Implement github - ";
  }

  lemma FilenameIs(lower: char -> char, owner: string, repo: string, number: int, sha: string, prTitle: string,
                   maxSlug: nat, maxTitle: int, taskSuffix: string)
    ensures IsFilename(lower, owner, repo, number, sha, prTitle, maxSlug, maxTitle, taskSuffix,
                       TaskFilename(lower, BaseName("github", owner, repo, number, sha), prTitle,
                                    maxSlug, maxTitle, taskSuffix))
  {
    GitHubBase(owner, repo, number, sha);
    CutToRoom(BaseName("github", owner, repo, number, sha) + SlugPart(Slug(lower, prTitle, maxSlug)),
              SuffixPart(taskSuffix), maxTitle);
  }

  lemma CutToRoom(whole: string, suffix: string, maxTitle: int)
    ensures IsCut(whole, suffix, maxTitle, WithinBudget(whole, suffix, maxTitle))
  {
    assert whole[..|whole|] == whole;
  }

  /** While base and suffix fit, only slug text is cut, and none if the whole fits. */
  lemma OnlyTheSlugIsCut(lower: char -> char, base: string, prTitle: string,
                         maxSlug: nat, maxTitle: int, taskSuffix: string)
    requires |base| + |SuffixPart(taskSuffix)| <= maxTitle
    ensures var name := TaskFilename(lower, base, prTitle, maxSlug, maxTitle, taskSuffix);
            var slugPart, suffixPart := SlugPart(Slug(lower, prTitle, maxSlug)), SuffixPart(taskSuffix);
            exists cut :: cut <= slugPart && name == base + cut + suffixPart
                       && (cut == slugPart <==> |base + slugPart + suffixPart| <= maxTitle)
  {
    var slugPart, suffixPart := SlugPart(Slug(lower, prTitle, maxSlug)), SuffixPart(taskSuffix);
    var name := TaskFilename(lower, base, prTitle, maxSlug, maxTitle, taskSuffix);
    var head, room := base + slugPart, maxTitle - |suffixPart|;
    var cut := if |head| <= room then slugPart else slugPart[..room - |base|];
    assert |head| > room ==> head[..room] == base + cut;
    assert cut <= slugPart && name == base + cut + suffixPart;
  }

  /** No character a vault filename must not hold. */
  predicate IsSafe(s: string) { forall i :: 0 <= i < |s| ==> s[i] != '/' && s[i] != ':' && s[i] != '#' }

  /** Whatever the PR title, a filename is filesystem-safe as far as its other parts are. */
  lemma FilenameIsSafe(lower: char -> char, provider: string, owner: string, repo: string, number: int,
                       sha: string, prTitle: string, maxSlug: nat, maxTitle: int, taskSuffix: string)
    requires IsSafe(provider) && IsSafe(owner) && IsSafe(repo) && IsSafe(sha) && IsSafe(taskSuffix)
    ensures IsSafe(TaskFilename(lower, BaseName(provider, owner, repo, number, sha), prTitle,
                                maxSlug, maxTitle, taskSuffix))
  {
    TrimmedCollapsed(Lowered(lower, prTitle));
    CappedSlugs(FullSlug(lower, prTitle), maxSlug, maxSlug);
    var slug := Slug(lower, prTitle, maxSlug);
    assert IsSafe(slug) && IsSafe(" - ");
    SafeConcat(" - ", slug);
    SafeConcat(" - ", taskSuffix);
    BaseIsSafe(provider, owner, repo, number, sha);
    SafeConcat(BaseName(provider, owner, repo, number, sha), SlugPart(slug));
    SafeWithinBudget(BaseName(provider, owner, repo, number, sha) + SlugPart(slug), SuffixPart(taskSuffix), maxTitle);
  }

  lemma SafeWithinBudget(head: string, suffixPart: string, maxTitle: int)
    requires IsSafe(head) && IsSafe(suffixPart)
    ensures IsSafe(WithinBudget(head, suffixPart, maxTitle))
  {
  }

  lemma BaseIsSafe(provider: string, owner: string, repo: string, number: int, sha: string)
    requires IsSafe(provider) && IsSafe(owner) && IsSafe(repo) && IsSafe(sha)
    ensures IsSafe(BaseName(provider, owner, repo, number, sha))
  {
    var d := Decimal(number);
    assert forall i :: 0 <= i < |d| ==> d[i] in d;
    assert IsSafe(PREFIX) && IsSafe(" ") && IsSafe(" - ") && IsSafe("-");
    assert IsSafe(d) && IsSafe(ShortSHA(sha));
    var name := SafeJoin(PREFIX, " ", provider);
    name := SafeJoin(name, " - ", owner);
    name := SafeJoin(name, "-", repo);
    name := SafeJoin(name, " - ", d);
    name := SafeJoin(name, " - ", ShortSHA(sha));
  }

  lemma SafeJoin(a: string, sep: string, b: string) returns (joined: string)
    requires IsSafe(a) && IsSafe(sep) && IsSafe(b)
    ensures joined == a + sep + b && IsSafe(joined)
  {
    joined := a + sep + b;
  }

  lemma SafeConcat(a: string, b: string)
    requires IsSafe(a) && IsSafe(b)
    ensures IsSafe(a + b)
  {
  }
}
