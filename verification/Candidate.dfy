// pkg/darkfactory/candidate.go: is a pull request a dark-factory candidate at its head?
module Candidate {
  import opened Strings
  import opened TaskIds
  import Frontmatter

  /** A GitHub read: a 404 is kept apart from every other error. */
  datatype Read<+T> = Found(value: T) | NotFound | HardError

  datatype YamlValue = Null | Text(text: string) | Other
  /** Nil is the decoder leaving a nil map behind, as for the document "null". */
  datatype YamlDoc = Malformed | Nil | Fields(fields: map<string, YamlValue>)

  /** GitHub as one evaluation sees it, and the YAML decoder. Arguments as in the source:
      owner, repo, number; owner, repo, path, ref. */
  datatype ContentReader = ContentReader(
    prFiles: (string, string, int) -> Read<seq<string>>,
    content: (string, string, string, string) -> Read<string>,
    dir: (string, string, string, string) -> Read<seq<string>>,
    yaml: string -> YamlDoc)

  datatype Input = Input(pr: PRRef, headSHA: string, isDraft: bool, state: string)

  /** Failed stands for a returned error. */
  datatype Evaluation =
    | Failed
    | Rejected(reason: string)
    | Kept(matchedSpecs: seq<string>, promptsQueued: bool)

  const CONFIG_FILE := ".dark-factory.yaml"
  const SPEC_DIR := "specs/in-progress"
  const PROMPTS_DIR := "prompts/in-progress"
  const NOT_DRAFT := "not_draft"
  const NOT_OPEN := "not_open"
  const NO_CONFIG := "no_dark_factory_yaml"
  const NO_SPEC := "no_spec_in_diff"

  // ---- what the pieces mean ------------------------------------------------

  predicate IsSet(fields: map<string, YamlValue>, key: string) {
    key in fields && match fields[key]
                     case Null => false
                     case Text(s) => exists c :: c in s && !IsSpace(c)
                     case Other => true
  }

  /** The decoded frontmatter, or None for malformed YAML; a missing block has no fields. */
  function FieldsOf(yaml: string -> YamlDoc, content: string): Option<map<string, YamlValue>> {
    match Frontmatter.Block(content)
    case None => Some(map[])
    case Some(block) =>
      match yaml(block)
      case Malformed => None
      case Nil => Some(map[])
      case Fields(m) => Some(m)
  }

  predicate IsSpecPath(file: string) {
    HasPrefix(file, SPEC_DIR + "/") && HasSuffix(file, ".md")
  }

  function SpecAtHead(reader: ContentReader, input: Input, file: string): Read<string> {
    reader.content(input.pr.owner, input.pr.repo, file, input.headSHA)
  }

  /** A spec path whose content at head is approved and not completed. */
  predicate Approved(reader: ContentReader, input: Input, file: string) {
    && IsSpecPath(file)
    && var c := SpecAtHead(reader, input, file);
    && c.Found?
    && var fields := FieldsOf(reader.yaml, c.value);
    && fields.Some? && IsSet(fields.value, "approved") && !IsSet(fields.value, "completed")
  }

  /** A spec path that cannot be judged: a read error other than 404, or malformed YAML. */
  predicate Broken(reader: ContentReader, input: Input, file: string) {
    && IsSpecPath(file)
    && match SpecAtHead(reader, input, file)
       case NotFound => false
       case HardError => true
       case Found(c) => FieldsOf(reader.yaml, c).None?
  }

  /** The approved files of a diff, in diff order. */
  function ApprovedSpecs(reader: ContentReader, input: Input, files: seq<string>): seq<string> {
    if files == [] then []
    else
      var rest, file := ApprovedSpecs(reader, input, files[..|files| - 1]), files[|files| - 1];
      if Approved(reader, input, file) then rest + [file] else rest
  }

  function Config(reader: ContentReader, input: Input): Read<string> {
    reader.content(input.pr.owner, input.pr.repo, CONFIG_FILE, input.headSHA)
  }

  function Diff(reader: ContentReader, input: Input): Read<seq<string>> {
    reader.prFiles(input.pr.owner, input.pr.repo, input.pr.number)
  }

  function Prompts(reader: ContentReader, input: Input): Read<seq<string>> {
    reader.dir(input.pr.owner, input.pr.repo, PROMPTS_DIR, input.headSHA)
  }

  predicate AnyMarkdown(entries: seq<string>) {
    exists e :: e in entries && HasSuffix(e, ".md")
  }

  predicate DiffReadable(reader: ContentReader, input: Input) {
    && Diff(reader, input).Found?
    && forall f :: f in Diff(reader, input).value ==> !Broken(reader, input, f)
  }

  /** The verdict as a decision table. */
  function Verdict(reader: ContentReader, input: Input): Evaluation {
    if !input.isDraft then Rejected(NOT_DRAFT)
    else if input.state != "open" then Rejected(NOT_OPEN)
    else if Config(reader, input).NotFound? then Rejected(NO_CONFIG)
    else if Config(reader, input).HardError? || !DiffReadable(reader, input) then Failed
    else
      var matched := ApprovedSpecs(reader, input, Diff(reader, input).value);
      if matched == [] then Rejected(NO_SPEC)
      else match Prompts(reader, input)
           case NotFound => Kept(matched, false)
           case HardError => Failed
           case Found(entries) => Kept(matched, AnyMarkdown(entries))
  }

  // ---- the code ------------------------------------------------------------

  method FrontmatterSet(fields: map<string, YamlValue>, key: string) returns (b: bool)
    ensures b == IsSet(fields, key)
    ensures b <==> !NoValue(fields, key)
  {
    if key !in fields || fields[key].Null? {
      return false;
    }
    if fields[key].Text? {
      var trimmed := TrimSpace(fields[key].text);
      return trimmed != "";
    }
    return true;
  }

  method SpecApprovedNotCompleted(yaml: string -> YamlDoc, content: string) returns (r: Option<bool>)
    ensures r == match FieldsOf(yaml, content)
                 case None => None
                 case Some(m) => Some(IsSet(m, "approved") && !IsSet(m, "completed"))
  {
    var fields := FieldsOf(yaml, content);
    if fields.None? {
      return None;
    }
    var approved := FrontmatterSet(fields.value, "approved");
    var completed := FrontmatterSet(fields.value, "completed");
    return Some(approved && !completed);
  }

  method MatchedApprovedSpecsInDiff(reader: ContentReader, input: Input) returns (r: Option<seq<string>>)
    ensures r.Some? <==> DiffReadable(reader, input)
    ensures r.Some? ==> r.value == ApprovedSpecs(reader, input, Diff(reader, input).value)
  {
    var listing := reader.prFiles(input.pr.owner, input.pr.repo, input.pr.number);
    if !listing.Found? {
      return None;
    }
    var files := listing.value;
    var prefix := SPEC_DIR + "/";
    var matched: seq<string> := [];
    for i := 0 to |files|
      invariant matched == ApprovedSpecs(reader, input, files[..i])
      invariant forall j :: 0 <= j < i ==> !Broken(reader, input, files[j])
    {
      var file := files[i];
      assert files[..i + 1][..i] == files[..i];
      if !HasPrefix(file, prefix) || !HasSuffix(file, ".md") {
        continue;
      }
      var content := reader.content(input.pr.owner, input.pr.repo, file, input.headSHA);
      if content.NotFound? {
        continue;
      }
      if content.HardError? {
        assert Broken(reader, input, file);
        return None;
      }
      var approved := SpecApprovedNotCompleted(reader.yaml, content.value);
      if approved.None? {
        assert Broken(reader, input, file);
        return None;
      }
      if approved.value {
        matched := matched + [file];
      }
    }
    assert files[..|files|] == files;
    return Some(matched);
  }

  method HasQueuedPrompts(reader: ContentReader, input: Input) returns (r: Option<bool>)
    ensures r == match Prompts(reader, input)
                 case NotFound => Some(false)
                 case HardError => None
                 case Found(entries) => Some(AnyMarkdown(entries))
  {
    var listing := reader.dir(input.pr.owner, input.pr.repo, PROMPTS_DIR, input.headSHA);
    if !listing.Found? {
      return if listing.NotFound? then Some(false) else None;
    }
    var entries := listing.value;
    for i := 0 to |entries|
      invariant forall j :: 0 <= j < i ==> !HasSuffix(entries[j], ".md")
    {
      if HasSuffix(entries[i], ".md") {
        return Some(true);
      }
    }
    return Some(false);
  }

  method Evaluate(reader: ContentReader, input: Input) returns (e: Evaluation)
    ensures e == Verdict(reader, input)
    ensures e.Kept? <==> Keeps(reader, input)
    ensures e.Failed? <==> Unjudged(reader, input)
    ensures e == Rejected("no_spec_in_diff") <==> LacksSpec(reader, input)
  {
    VerdictMeans(reader, input);
    if !input.isDraft {
      return Rejected(NOT_DRAFT);
    }
    if input.state != "open" {
      return Rejected(NOT_OPEN);
    }
    var config := reader.content(input.pr.owner, input.pr.repo, CONFIG_FILE, input.headSHA);
    if !config.Found? {
      return if config.NotFound? then Rejected(NO_CONFIG) else Failed;
    }
    var matched := MatchedApprovedSpecsInDiff(reader, input);
    if matched.None? {
      return Failed;
    }
    if |matched.value| == 0 {
      return Rejected(NO_SPEC);
    }
    var queued := HasQueuedPrompts(reader, input);
    if queued.None? {
      return Failed;
    }
    return Kept(matched.value, queued.value);
  }

  // ---- what the verdict promises -------------------------------------------

  predicate SomeApproved(reader: ContentReader, input: Input) {
    Diff(reader, input).Found? && exists f :: f in Diff(reader, input).value && Approved(reader, input, f)
  }

  lemma {:induction false} ApprovedSpecsAreTheFilter(reader: ContentReader, input: Input, files: seq<string>)
    ensures forall f :: multiset(ApprovedSpecs(reader, input, files))[f]
                     == if Approved(reader, input, f) then multiset(files)[f] else 0
  {
    if files != [] {
      var n := |files| - 1;
      ApprovedSpecsAreTheFilter(reader, input, files[..n]);
      assert files == files[..n] + [files[n]];
    }
  }

  /** Diff order is kept: the matches of a diff are those of any front part, then the rest's. */
  lemma {:induction false} ApprovedSpecsKeepOrder(reader: ContentReader, input: Input, a: seq<string>, b: seq<string>)
    ensures ApprovedSpecs(reader, input, a + b) == ApprovedSpecs(reader, input, a) + ApprovedSpecs(reader, input, b)
  {
    if b == [] {
      assert a + b == a;
    } else {
      var n := |b| - 1;
      assert (a + b)[..|a + b| - 1] == a + b[..n];
      ApprovedSpecsKeepOrder(reader, input, a, b[..n]);
    }
  }

  lemma NothingMatchedIff(reader: ContentReader, input: Input, files: seq<string>)
    ensures ApprovedSpecs(reader, input, files) == [] <==> forall f :: f in files ==> !Approved(reader, input, f)
  {
    ApprovedSpecsAreTheFilter(reader, input, files);
    var matched := ApprovedSpecs(reader, input, files);
    if matched != [] {
      assert multiset(matched)[matched[0]] > 0;
      assert matched[0] in multiset(files);
    }
    forall f | f in files && Approved(reader, input, f) ensures f in matched {
      assert f in multiset(files) && f in multiset(matched);
    }
  }

  /** Kept exactly for an open draft with its config and an approved spec in a readable
      diff, when the prompt listing does not fail either; and then what is reported is exact. */
  lemma KeptIff(reader: ContentReader, input: Input)
    ensures Verdict(reader, input).Kept?
       <==> && input.isDraft && input.state == "open" && Config(reader, input).Found?
            && DiffReadable(reader, input) && SomeApproved(reader, input) && !Prompts(reader, input).HardError?
    ensures Verdict(reader, input).Kept? ==>
              && (forall f :: multiset(Verdict(reader, input).matchedSpecs)[f]
                            == if Approved(reader, input, f) then multiset(Diff(reader, input).value)[f] else 0)
              && (Verdict(reader, input).promptsQueued <==>
                  Prompts(reader, input).Found? && AnyMarkdown(Prompts(reader, input).value))
  {
    if Diff(reader, input).Found? {
      NothingMatchedIff(reader, input, Diff(reader, input).value);
      ApprovedSpecsAreTheFilter(reader, input, Diff(reader, input).value);
    }
  }

  /** An error is returned exactly when one is met in front of the verdict. */
  lemma FailedIff(reader: ContentReader, input: Input)
    ensures Verdict(reader, input).Failed?
       <==> && input.isDraft && input.state == "open"
            && (|| Config(reader, input).HardError?
                || (Config(reader, input).Found? && !DiffReadable(reader, input))
                || (&& Config(reader, input).Found? && DiffReadable(reader, input)
                    && SomeApproved(reader, input) && Prompts(reader, input).HardError?))
  {
    if Diff(reader, input).Found? {
      NothingMatchedIff(reader, input, Diff(reader, input).value);
    }
  }

  /** The two verdicts that end a queued phase: a closed draft, or a readable diff without
      an approved spec. A closed PR that is no draft any more is not among them. */
  lemma DropVerdictIff(reader: ContentReader, input: Input)
    ensures Verdict(reader, input) == Rejected(NOT_OPEN) <==> input.isDraft && input.state != "open"
    ensures Verdict(reader, input) == Rejected(NO_SPEC)
       <==> && input.isDraft && input.state == "open" && Config(reader, input).Found?
            && DiffReadable(reader, input) && !SomeApproved(reader, input)
  {
    assert |NO_CONFIG| == 20 && |NO_SPEC| == 15 && |NOT_OPEN| == 8 && |NOT_DRAFT| == 9;
    if Diff(reader, input).Found? {
      NothingMatchedIff(reader, input, Diff(reader, input).value);
    }
  }

  // ---- the verdict, read off the answers alone -----------------------------

  /** The key is absent, null or a text of white space. */
  predicate NoValue(fields: map<string, YamlValue>, key: string) {
    || key !in fields
    || fields[key] == Null
    || (fields[key].Text? && forall c :: c in fields[key].text ==> IsSpace(c))
  }

  /** A spec that makes a candidate: a Markdown file of the directory, there at head, with a
      frontmatter block that decodes to fields, approved and not completed. A text without a
      block, or with one that decodes to nil, is none. */
  predicate Counts(reader: ContentReader, input: Input, file: string) {
    && "specs/in-progress/" <= file && HasSuffix(file, ".md")
    && var content := reader.content(input.pr.owner, input.pr.repo, file, input.headSHA);
    && content.Found?
    && var block := Frontmatter.Block(content.value);
    && block.Some?
    && var doc := reader.yaml(block.value);
    && doc.Fields? && !NoValue(doc.fields, "approved") && NoValue(doc.fields, "completed")
  }

  /** A spec that stops the evaluation: unreadable for another reason than a 404, or with a
      block that does not decode. */
  predicate Stops(reader: ContentReader, input: Input, file: string) {
    && "specs/in-progress/" <= file && HasSuffix(file, ".md")
    && match reader.content(input.pr.owner, input.pr.repo, file, input.headSHA)
       case NotFound => false
       case HardError => true
       case Found(text) => Frontmatter.Block(text).Some? && reader.yaml(Frontmatter.Block(text).value).Malformed?
  }

  /** An open draft whose repository has the config file at head. */
  predicate HasConfig(reader: ContentReader, input: Input) {
    && input.isDraft && input.state == "open"
    && reader.content(input.pr.owner, input.pr.repo, ".dark-factory.yaml", input.headSHA).Found?
  }

  /** The files of the diff, where all of it can be judged. */
  predicate DiffIs(reader: ContentReader, input: Input, files: seq<string>) {
    && reader.prFiles(input.pr.owner, input.pr.repo, input.pr.number) == Found(files)
    && forall f :: f in files ==> !Stops(reader, input, f)
  }

  /** The README's candidate. */
  predicate Keeps(reader: ContentReader, input: Input) {
    && HasConfig(reader, input)
    && var diff := reader.prFiles(input.pr.owner, input.pr.repo, input.pr.number);
    && diff.Found? && DiffIs(reader, input, diff.value) && (exists f :: f in diff.value && Counts(reader, input, f))
    && !reader.dir(input.pr.owner, input.pr.repo, "prompts/in-progress", input.headSHA).HardError?
  }

  /** The phase is over: everything could be read, and nothing in the diff counts. */
  predicate LacksSpec(reader: ContentReader, input: Input) {
    && HasConfig(reader, input)
    && var diff := reader.prFiles(input.pr.owner, input.pr.repo, input.pr.number);
    && diff.Found? && DiffIs(reader, input, diff.value) && (forall f :: f in diff.value ==> !Counts(reader, input, f))
  }

  /** A prompt waits at head. */
  predicate QueuedAtHead(reader: ContentReader, input: Input) {
    var entries := reader.dir(input.pr.owner, input.pr.repo, "prompts/in-progress", input.headSHA);
    entries.Found? && exists e :: e in entries.value && HasSuffix(e, ".md")
  }

  /** An error other than a 404, or a block that does not decode, in front of the verdict. */
  predicate Unjudged(reader: ContentReader, input: Input) {
    && input.isDraft && input.state == "open"
    && (|| reader.content(input.pr.owner, input.pr.repo, ".dark-factory.yaml", input.headSHA).HardError?
        || (&& HasConfig(reader, input)
            && var diff := reader.prFiles(input.pr.owner, input.pr.repo, input.pr.number);
            && (|| !diff.Found?
                || !DiffIs(reader, input, diff.value)
                || (&& (exists f :: f in diff.value && Counts(reader, input, f))
                    && reader.dir(input.pr.owner, input.pr.repo, "prompts/in-progress", input.headSHA).HardError?))))
  }

  lemma PathsAre()
    ensures SPEC_DIR + "/" == "specs/in-progress/"
  {
  }

  lemma SetIff(fields: map<string, YamlValue>, key: string)
    ensures IsSet(fields, key) <==> !NoValue(fields, key)
  {
  }

  /** Which files are matched, and which make the evaluation fail. */
  lemma SpecsMean(reader: ContentReader, input: Input, file: string)
    ensures Approved(reader, input, file) <==> Counts(reader, input, file)
    ensures Broken(reader, input, file) <==> Stops(reader, input, file)
  {
    PathsAre();
    var content := SpecAtHead(reader, input, file);
    if content.Found? {
      var fields := FieldsOf(reader.yaml, content.value);
      if fields.Some? {
        SetIff(fields.value, "approved");
        SetIff(fields.value, "completed");
      }
    }
  }

  lemma DiffMeans(reader: ContentReader, input: Input)
    requires Diff(reader, input).Found?
    ensures DiffReadable(reader, input) <==> DiffIs(reader, input, Diff(reader, input).value)
    ensures SomeApproved(reader, input) <==> exists f :: f in Diff(reader, input).value && Counts(reader, input, f)
    ensures forall f :: Approved(reader, input, f) <==> Counts(reader, input, f)
  {
    forall f ensures Approved(reader, input, f) <==> Counts(reader, input, f) {
      SpecsMean(reader, input, f);
    }
    forall f ensures Broken(reader, input, f) <==> Stops(reader, input, f) {
      SpecsMean(reader, input, f);
    }
    if SomeApproved(reader, input) {
      var f :| f in Diff(reader, input).value && Approved(reader, input, f);
      assert Counts(reader, input, f);
    }
  }

  lemma ReasonsAre()
    ensures NOT_DRAFT == "not_draft" && NOT_OPEN == "not_open"
    ensures NO_CONFIG == "no_dark_factory_yaml" && NO_SPEC == "no_spec_in_diff"
    ensures |NOT_DRAFT| == 9 && |NOT_OPEN| == 8 && |NO_CONFIG| == 20 && |NO_SPEC| == 15
  {
  }

  /** Every verdict, from what GitHub and the decoder answer. */
  lemma VerdictMeans(reader: ContentReader, input: Input)
    ensures Verdict(reader, input).Kept? <==> Keeps(reader, input)
    ensures Verdict(reader, input).Failed? <==> Unjudged(reader, input)
    ensures Verdict(reader, input) == Rejected("no_spec_in_diff") <==> LacksSpec(reader, input)
    ensures Verdict(reader, input) == Rejected("not_draft") <==> !input.isDraft
    ensures Verdict(reader, input) == Rejected("not_open") <==> input.isDraft && input.state != "open"
    ensures Verdict(reader, input) == Rejected("no_dark_factory_yaml")
       <==> && input.isDraft && input.state == "open"
            && reader.content(input.pr.owner, input.pr.repo, ".dark-factory.yaml", input.headSHA).NotFound?
  {
    ReasonsAre();
    KeptIff(reader, input);
    FailedIff(reader, input);
    DropVerdictIff(reader, input);
    if Diff(reader, input).Found? { DiffMeans(reader, input); }
  }

  /** What is kept names each file that counts as often as the diff does, others never, and
      says whether a prompt waits. */
  lemma KeptMeans(reader: ContentReader, input: Input)
    requires Keeps(reader, input)
    ensures Verdict(reader, input).Kept?
    ensures Verdict(reader, input).promptsQueued <==> QueuedAtHead(reader, input)
    ensures forall f :: multiset(Verdict(reader, input).matchedSpecs)[f]
                     == if Counts(reader, input, f)
                        then multiset(reader.prFiles(input.pr.owner, input.pr.repo, input.pr.number).value)[f] else 0
  {
    VerdictMeans(reader, input);
    KeptIff(reader, input);
    DiffMeans(reader, input);
  }
}
