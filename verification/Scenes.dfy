// Concrete answers of GitHub, for the schedules and polls that show where a promise ends.
module Scenes {
  import opened Strings
  import opened TaskIds
  import opened Cursors
  import opened Polling
  import opened Logs
  import C = Candidate
  import Frontmatter

  // ---- a search ------------------------------------------------------------

  function Answer(listed: seq<PullRequest>, since: Time): seq<PullRequest> {
    if listed == [] then []
    else (if QueryFinds(since, listed[0].updatedAt) then [listed[0]] else []) + Answer(listed[1..], since)
  }

  /** A GitHub that answers truthfully on one page. */
  function OnePage(listed: seq<PullRequest>): Search {
    (call: nat, since: Time, page: int) => Some(SearchResult(Answer(listed, since), false, 0))
  }

  lemma {:induction false} AnswerIsTheFilter(listed: seq<PullRequest>, since: Time, pr: PullRequest)
    ensures pr in Answer(listed, since) <==> pr in listed && QueryFinds(since, pr.updatedAt)
  {
    if listed != [] { AnswerIsTheFilter(listed[1..], since, pr); }
  }

  lemma AnswerToOne(p: PullRequest, since: Time)
    ensures Answer([p], since) == if QueryFinds(since, p.updatedAt) then [p] else []
  {
    assert Answer([], since) == [];
  }

  lemma AnswerToBoth(p: PullRequest, q: PullRequest, since: Time)
    ensures QueryFinds(since, p.updatedAt) && QueryFinds(since, q.updatedAt) ==> Answer([p, q], since) == [p, q]
    ensures |Answer([p, q], since)| <= 2
  {
    assert [p, q][1..] == [q];
    AnswerToOne(q, since);
  }

  // ---- a candidate ---------------------------------------------------------

  const SPEC_FILE := C.SPEC_DIR + "/" + ".md"
  const SPEC_TEXT := "---\n" + "" + Frontmatter.FENCE + ""

  /** The diff holds one spec, which is approved; one prompt is queued, or no directory for them exists. */
  function Reader(queued: bool): C.ContentReader {
    C.ContentReader(
      (owner, repo, number) => C.Found([SPEC_FILE]),
      (owner, repo, path, ref) => C.Found(SPEC_TEXT),
      (owner, repo, path, ref) => if queued then C.Found([".md"]) else C.NotFound,
      block => C.Fields(map["approved" := C.Other]))
  }

  /** An open draft. */
  function Draft(sha: string, queued: bool, sent: bool): Observation {
    Observation(Some(PRDetails(sha, "b", "open", true, "")), Reader(queued), sent)
  }

  lemma SpecIsApproved(queued: bool, input: C.Input)
    ensures C.Approved(Reader(queued), input, SPEC_FILE) && !C.Broken(Reader(queued), input, SPEC_FILE)
  {
    assert |"approved"| == 8 && |"completed"| == 9;
    Frontmatter.BlockRoundTrip("", "");
  }

  lemma DraftIsKept(p: PRRef, sha: string, queued: bool)
    ensures var v := C.Verdict(Reader(queued), C.Input(p, sha, true, "open"));
            v.Kept? && v.promptsQueued == queued
  {
    var input := C.Input(p, sha, true, "open");
    SpecIsApproved(queued, input);
    C.KeptIff(Reader(queued), input);
    if queued { assert ".md" in C.Prompts(Reader(queued), input).value; }
  }

  lemma DraftIsACandidate(cfg: Config, p: PRRef, sha: string, queued: bool, sent: bool)
    requires !cfg.outOfScope(RepoKey(p)) && sha != ""
    ensures Judge(cfg, p, Draft(sha, queued, sent)) == Candidate(Draft(sha, queued, sent).details.value, queued)
  {
    DraftIsKept(p, sha, queued);
  }

  // ---- others --------------------------------------------------------------

  /** The details of the PR cannot be read. */
  function Unreadable(): Observation { Observation(None, Reader(false), true) }

  lemma UnreadableIsSkipped(cfg: Config, p: PRRef)
    ensures Judge(cfg, p, Unreadable()).Skip?
    ensures Judge(cfg, p, Unreadable()).reason != C.NO_SPEC && Judge(cfg, p, Unreadable()).reason != C.NOT_OPEN
  {
    assert |C.NO_SPEC| == 15 && |C.NOT_OPEN| == 8 && |"out_of_scope"| == 12 && |"details_error"| == 13;
  }

  /** The PR is closed, and no draft any more. */
  function ClosedAndReady(): Observation {
    Observation(Some(PRDetails("a", "b", "closed", false, "")), Reader(false), true)
  }
}
