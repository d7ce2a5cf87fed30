// parseFrontmatter of pkg/darkfactory/candidate.go: cutting the leading
// "---" block out of a spec file.
module Frontmatter {
  import opened Strings

  const FENCE := "\n---"

  predicate StartsCRLF(s: string) { |s| >= 2 && s[0] == '\r' && s[1] == '\n' }

  /** strings.ReplaceAll(s, "\r\n", "\n"). */
  function NormalizeNewlines(s: string): (r: string)
    ensures |r| <= |s|
  {
    if s == "" then ""
    else if StartsCRLF(s) then ['\n'] + NormalizeNewlines(s[2..])
    else [s[0]] + NormalizeNewlines(s[1..])
  }

  /** The text behind the opening fence, or None for a text that does not open with one. */
  function Opened(text: string): Option<string> {
    if HasPrefix(text, "---\n") then Some(text[4..])
    else if text == "---" then Some(text)
    else None
  }

  /** The text in front of the closing fence, or None when it is never closed. */
  function Cut(rest: string): Option<string> {
    var end := Index(rest, FENCE);
    if end < 0 then None else Some(rest[..end])
  }

  /** The YAML block, or None for a text without one. */
  function Block(content: string): Option<string> {
    match Opened(NormalizeNewlines(content))
    case None => None
    case Some(rest) => Cut(rest)
  }

  lemma StartsCRLFIsOccurrence(s: string)
    ensures StartsCRLF(s) <==> OccursAt(s, "\r\n", 0)
  {
    if |s| >= 2 { assert s[0..2] == [s[0], s[1]]; }
  }

  lemma {:induction false} NormalizeFixesIff(s: string)
    ensures NormalizeNewlines(s) == s <==> !Contains(s, "\r\n")
    ensures |NormalizeNewlines(s)| == |s| ==> NormalizeNewlines(s) == s
  {
    if s != "" {
      StartsCRLFIsOccurrence(s);
      ContainsStep(s, "\r\n");
      if !StartsCRLF(s) {
        NormalizeFixesIff(s[1..]);
        assert s == [s[0]] + s[1..];
      }
    }
  }

  /** No CRLF straddles a cut that is not between '\r' and '\n'. */
  lemma {:induction false} NormalizeConcat(a: string, b: string)
    requires a != "" && b != "" ==> a[|a| - 1] != '\r' || b[0] != '\n'
    ensures NormalizeNewlines(a + b) == NormalizeNewlines(a) + NormalizeNewlines(b)
  {
    if a == "" {
      assert a + b == b;
    } else if StartsCRLF(a) {
      assert (a + b)[2..] == a[2..] + b;
      NormalizeConcat(a[2..], b);
    } else {
      assert (a + b)[1..] == a[1..] + b;
      assert !StartsCRLF(a + b);
      NormalizeConcat(a[1..], b);
    }
  }

  lemma NormalizeLineEnd()
    ensures NormalizeNewlines(['\n']) == ['\n']
    ensures NormalizeNewlines(['\r', '\n']) == ['\n']
  {
    assert ['\n'][1..] == "" && ['\r', '\n'][2..] == "";
    assert StartsCRLF(['\r', '\n']) && !StartsCRLF(['\n']);
  }

  lemma NormalizeKeepsFinalNewline(b: string)
    ensures HasSuffix(NormalizeNewlines(b + ['\n']), ['\n'])
  {
    NormalizeLineEnd();
    if b != "" && b[|b| - 1] == '\r' {
      var a := b[..|b| - 1];
      assert b + ['\n'] == a + ['\r', '\n'];
      NormalizeConcat(a, ['\r', '\n']);
    } else {
      NormalizeConcat(b, ['\n']);
    }
  }

  lemma Regroup(a: string, b: string, nl: string, c: string, d: string)
    ensures a + b + (nl + c) + d == a + ((b + nl) + (c + d))
  {
  }

  lemma NoCRLFWithoutCR(s: string)
    requires '\r' !in s
    ensures !Contains(s, "\r\n")
  {
    assert forall i: nat :: OccursAt(s, "\r\n", i) ==> s[i..i + 2][0] == s[i];
  }

  /** What the printed form of a block normalises to; open and dashes stand for "---\n" and "---". */
  lemma NormalizePrinted(open: string, b: string, dashes: string, rest: string) returns (b': string)
    requires HasSuffix(open, "\n") && dashes != "" && dashes[0] == dashes[|dashes| - 1] == '-'
    requires '\r' !in open && '\r' !in dashes
    ensures b' + "\n" == NormalizeNewlines(b + "\n")
    ensures NormalizeNewlines(open + b + ("\n" + dashes) + rest)
         == open + b' + ("\n" + dashes) + NormalizeNewlines(rest)
  {
    NormalizeKeepsFinalNewline(b);
    assert ['\n'] == "\n";
    var line := NormalizeNewlines(b + "\n");
    b' := line[..|line| - 1];
    Regroup(open, b, "\n", dashes, rest);
    NormalizeConcat(open, (b + "\n") + (dashes + rest));
    NormalizeConcat(b + "\n", dashes + rest);
    NormalizeConcat(dashes, rest);
    NoCRLFWithoutCR(open);
    NoCRLFWithoutCR(dashes);
    NormalizeFixesIff(open);
    NormalizeFixesIff(dashes);
    assert b' + "\n" == line;
    var tail := NormalizeNewlines(rest);
    Regroup(open, b', "\n", dashes, tail);
  }

  /** A fence found in front of an appended fence lies wholly inside the block. */
  lemma NoStraddlingFence(b: string, rest: string, i: nat)
    requires i < |b|
    ensures OccursAt(b + FENCE + rest, FENCE, i) <==> OccursAt(b, FENCE, i)
  {
    var s := b + FENCE + rest;
    assert s[|b|] == FENCE[0] == '\n' && FENCE[1] == FENCE[2] == FENCE[3] == '-';
    if |b| - i < 4 { OccurrenceChar(s, FENCE, i, |b| - i); }
    if i + 4 <= |b| {
      assert s[i..i + 4] == b[i..i + 4];
    }
  }

  /** The cut ends at the appended fence exactly when the block holds none. */
  lemma CutPrinted(b: string, rest: string)
    ensures Cut(b + FENCE + rest).Some? && Cut(b + FENCE + rest).value <= b
    ensures Cut(b + FENCE + rest) == Some(b) <==> !Contains(b, FENCE)
  {
    var body := b + FENCE + rest;
    assert OccursAt(body, FENCE, |b|);
    var end := Index(body, FENCE);
    forall i: nat | i < |b| ensures OccursAt(body, FENCE, i) <==> OccursAt(b, FENCE, i) {
      NoStraddlingFence(b, rest, i);
    }
    assert !OccursAt(b, FENCE, |b|);
    assert body[..end] == b[..end] && b[..|b|] == b;
    if end < |b| {
      assert OccursAt(b, FENCE, end);
    }
  }

  lemma OpenedPrinted(body: string)
    ensures Opened("---\n" + body) == Some(body)
  {
    assert ("---\n" + body)[4..] == body;
  }

  /** Cutting inverts printing exactly for blocks free of a fence and of CRLF, the
      line break in front of the closing fence included. */
  lemma BlockRoundTrip(b: string, rest: string)
    ensures Block("---\n" + b + FENCE + rest) == Some(b)
       <==> !Contains(b, FENCE) && !Contains(b + "\n", "\r\n")
  {
    assert FENCE == "\n" + "---";
    var b' := NormalizePrinted("---\n", b, "---", rest);
    var tail := NormalizeNewlines(rest);
    assert "---\n" + b' + FENCE + tail == "---\n" + (b' + FENCE + tail);
    OpenedPrinted(b' + FENCE + tail);
    CutPrinted(b', tail);
    NormalizeFixesIff(b + "\n");
    LineIs(b', b);
    LineIs(b, b');
    var cut := Cut(b' + FENCE + tail);
    assert Block("---\n" + b + FENCE + rest) == cut;
    assert cut.value == b ==> b' == b;
  }

  /** There is a block exactly in a text that, with its line ends normalised, opens with a fence
      line and has another fence; the block ends at the first one. */
  lemma BlockIff(s: string, b: string)
    ensures Block(s) == Some(b)
       <==> !Contains(b, "\n---") && exists rest: string :: NormalizeNewlines(s) == "---\n" + (b + "\n---" + rest)
  {
    var text := NormalizeNewlines(s);
    if Block(s) == Some(b) {
      var body := Opened(text).value;
      var end := Index(body, FENCE);
      var rest := body[end + 4..];
      assert |FENCE| == 4 && body == b + FENCE + rest;
      CutPrinted(b, rest);
      assert |body| > 3;
      assert text == "---\n" + (b + "\n---" + rest);
    }
    if rest: string :| NormalizeNewlines(s) == "---\n" + (b + "\n---" + rest) {
      OpenedPrinted(b + FENCE + rest);
      CutPrinted(b, rest);
    }
  }

  lemma LineIs(a: string, b: string)
    ensures a + "\n" == b + "\n" <==> a == b
    ensures |a + "\n"| == |a| + 1
  {
    assert (a + "\n")[..|a|] == a && (b + "\n")[..|b|] == b;
  }

  /** Every LF written as CRLF, as a Windows checkout does. */
  function WithCRLF(s: string): string {
    if s == "" then "" else (if s[0] == '\n' then "\r\n" else [s[0]]) + WithCRLF(s[1..])
  }

  lemma {:induction false} NormalizeUndoesCRLF(s: string)
    ensures NormalizeNewlines(WithCRLF(s)) == s
  {
    if s != "" {
      NormalizeUndoesCRLF(s[1..]);
      var w, tail := WithCRLF(s), WithCRLF(s[1..]);
      assert tail != "" ==> tail[0] != '\n';
      if s[0] == '\n' {
        assert w[2..] == tail;
      } else {
        assert w[1..] == tail;
      }
      assert s == [s[0]] + s[1..];
    }
  }

  /** A CRLF checkout of a text yields the text's own block. */
  lemma CRLFCheckoutParsesAlike(s: string)
    requires !Contains(s, "\r\n")
    ensures Block(WithCRLF(s)) == Block(s)
  {
    NormalizeUndoesCRLF(s);
    NormalizeFixesIff(s);
  }
}
