// Byte-string helpers shared by the other modules: the pieces of Go's strings,
// strconv and fmt packages that the watcher's own code leans on.
module Strings {

  datatype Option<+T> = None | Some(value: T)

  function Max(a: int, b: int): int { if a < b then b else a }

  predicate HasPrefix(s: string, prefix: string) { prefix <= s }

  predicate HasSuffix(s: string, suffix: string) {
    |suffix| <= |s| && s[|s| - |suffix|..] == suffix
  }

  /** sub occurs in s at offset i. */
  predicate OccursAt(s: string, sub: string, i: nat) {
    i + |sub| <= |s| && s[i..i + |sub|] == sub
  }

  predicate Contains(s: string, sub: string) {
    exists i: nat :: i <= |s| && OccursAt(s, sub, i)
  }

  lemma OccurrenceChar(s: string, sub: string, i: nat, k: nat)
    requires k < |sub| && i + k < |s|
    ensures OccursAt(s, sub, i) ==> s[i + k] == sub[k]
  {
    if OccursAt(s, sub, i) { assert s[i..i + |sub|][k] == s[i + k]; }
  }

  lemma ContainsStep(s: string, sub: string)
    requires s != ""
    ensures Contains(s, sub) <==> OccursAt(s, sub, 0) || Contains(s[1..], sub)
  {
    if i: nat :| i <= |s| && OccursAt(s, sub, i) {
      assert i > 0 ==> s[1..][i - 1..i - 1 + |sub|] == s[i..i + |sub|];
      assert i > 0 ==> OccursAt(s[1..], sub, i - 1);
    }
    if i: nat :| i <= |s| - 1 && OccursAt(s[1..], sub, i) {
      assert s[1..][i..i + |sub|] == s[i + 1..i + 1 + |sub|];
      assert OccursAt(s, sub, i + 1);
    }
  }

  /** strings.Index: the offset of the first occurrence, or -1. */
  function Index(s: string, sub: string): (i: int)
    ensures -1 <= i <= |s|
    ensures 0 <= i ==> OccursAt(s, sub, i)
    ensures forall j: nat :: (j < i || i == -1) && j <= |s| ==> !OccursAt(s, sub, j)
  {
    if OccursAt(s, sub, 0) then 0
    else if s == "" then -1
    else
      var k := Index(s[1..], sub);
      assert forall j: nat :: 1 <= j <= |s| && OccursAt(s, sub, j) ==> OccursAt(s[1..], sub, j - 1);
      assert 0 <= k ==> s[1..][k..k + |sub|] == s[k + 1..k + 1 + |sub|];
      if k < 0 then -1 else k + 1
  }

  /** Where two strings are split by the first separator, the halves are determined. */
  lemma FirstSeparator(a: string, b: string, a': string, b': string, c: char)
    requires c !in a && c !in a'
    requires a + [c] + b == a' + [c] + b'
    ensures a == a' && b == b'
  {
    var s, s' := a + [c] + b, a' + [c] + b';
    assert s[|a|] == c && s'[|a'|] == c;
    assert |a| == |a'|;
    assert a == s[..|a|] && a' == s'[..|a'|];
    assert b == s[|a| + 1..] && b' == s'[|a'| + 1..];
  }

  /** strings.Join. */
  function Join(parts: seq<string>, sep: string): string {
    if |parts| == 0 then ""
    else if |parts| == 1 then parts[0]
    else Join(parts[..|parts| - 1], sep) + sep + parts[|parts| - 1]
  }

  /** strings.Split on a one-character separator. */
  function SplitOn(s: string, c: char): (parts: seq<string>)
    ensures parts != []
  {
    if s == "" then [""]
    else
      var n := |s| - 1;
      var front := SplitOn(s[..n], c);
      if s[n] == c then front + [""] else front[..|front| - 1] + [front[|front| - 1] + [s[n]]]
  }

  lemma {:induction false} SplitOnNothing(x: string, c: char)
    requires c !in x
    ensures SplitOn(x, c) == [x]
  {
    if x != "" {
      var n := |x| - 1;
      SplitOnNothing(x[..n], c);
      assert x[..n] + [x[n]] == x;
    }
  }

  lemma {:induction false} SplitOnBehindSeparator(s: string, x: string, c: char)
    requires c !in x
    ensures SplitOn(s + [c] + x, c) == SplitOn(s, c) + [x]
  {
    var t := s + [c] + x;
    var n := |t| - 1;
    var whole, front, base := SplitOn(t, c), SplitOn(t[..n], c), SplitOn(s, c);
    if x == "" {
      assert t[..n] == s && t[n] == c;
    } else {
      var x' := x[..|x| - 1];
      SplitOnBehindSeparator(s, x', c);
      assert t[..n] == s + [c] + x' && t[n] == x[|x| - 1] && t[n] in x;
      assert front == base + [x'];
      assert whole == base + [x' + [t[n]]];
      assert x' + [t[n]] == x;
    }
  }

  lemma {:induction false} SplitInvertsJoin(parts: seq<string>, c: char)
    requires parts != [] && forall i :: 0 <= i < |parts| ==> c !in parts[i]
    ensures SplitOn(Join(parts, [c]), c) == parts
  {
    var n := |parts| - 1;
    var front, last := parts[..n], parts[n];
    assert parts == front + [last];
    if n == 0 {
      SplitOnNothing(last, c);
    } else {
      SplitInvertsJoin(front, c);
      SplitOnBehindSeparator(Join(front, [c]), last, c);
      assert Join(parts, [c]) == Join(front, [c]) + [c] + last;
    }
  }

  /** unicode.IsSpace. */
  predicate IsSpace(c: char) {
    var u := c as int;
    || 9 <= u <= 13 || u == 0x20 || u == 0x85 || u == 0xA0 || u == 0x1680
    || 0x2000 <= u <= 0x200a || u == 0x2028 || u == 0x2029 || u == 0x202f || u == 0x205f || u == 0x3000
  }

  predicate AllSpace(s: string) { forall c :: c in s ==> IsSpace(c) }

  /** No white space at either end. */
  predicate Trimmed(s: string) { s == "" || (!IsSpace(s[0]) && !IsSpace(s[|s| - 1])) }

  function TrimSpace(s: string): (r: string)
    ensures Trimmed(r) && |r| <= |s|
    ensures forall c :: c in r ==> c in s
    ensures r == "" <==> AllSpace(s)
  {
    if s == "" then ""
    else if IsSpace(s[0]) then
      assert s == [s[0]] + s[1..];
      TrimSpace(s[1..])
    else if IsSpace(s[|s| - 1]) then
      assert s == s[..|s| - 1] + [s[|s| - 1]];
      TrimSpace(s[..|s| - 1])
    else s
  }

  /** Trimming undoes any padding of a trimmed text. */
  lemma {:induction false} TrimSpaceUnpads(left: string, x: string, right: string)
    requires AllSpace(left) && AllSpace(right) && Trimmed(x)
    ensures TrimSpace(left + x + right) == x
    decreases |left| + |right|
  {
    var s := left + x + right;
    if left != "" {
      assert s[0] == left[0] && s[1..] == left[1..] + x + right;
      TrimSpaceUnpads(left[1..], x, right);
    } else if right != "" && x != "" {
      assert s[0] == x[0] && s[..|s| - 1] == left + x + right[..|right| - 1];
      TrimSpaceUnpads(left, x, right[..|right| - 1]);
    } else if right != "" {
      assert s == right;
    } else {
      assert s == x;
    }
  }

  /** White space at the start, and the rest. */
  function TrimLeft(s: string): (r: (string, string))
    ensures s == r.0 + r.1 && AllSpace(r.0) && (r.1 != "" ==> !IsSpace(r.1[0]))
  {
    if s != "" && IsSpace(s[0]) then
      var r := TrimLeft(s[1..]);
      assert s == [s[0]] + s[1..];
      ([s[0]] + r.0, r.1)
    else ("", s)
  }

  /** White space at the end, and what is in front of it. */
  function TrimRight(s: string): (r: (string, string))
    ensures s == r.0 + r.1 && AllSpace(r.1) && (r.0 != "" ==> !IsSpace(r.0[|r.0| - 1]))
  {
    if s != "" && IsSpace(s[|s| - 1]) then
      var r := TrimRight(s[..|s| - 1]);
      assert s == s[..|s| - 1] + [s[|s| - 1]];
      (r.0, r.1 + [s[|s| - 1]])
    else (s, "")
  }

  lemma SplitPadding(x: string) returns (left: string, middle: string, right: string)
    ensures x == left + middle + right && AllSpace(left) && AllSpace(right) && Trimmed(middle)
  {
    var l := TrimLeft(x);
    var r := TrimRight(l.1);
    left, middle, right := l.0, r.0, r.1;
    assert middle != "" ==> middle[0] == l.1[0];
  }

  lemma PadTwice(a: string, left: string, middle: string, right: string, b: string)
    ensures a + (left + middle + right) + b == (a + left) + middle + (right + b)
  {
  }

  lemma SpacesConcat(a: string, b: string)
    requires AllSpace(a) && AllSpace(b)
    ensures AllSpace(a + b)
  {
  }

  lemma TrimSpaceIgnoresPadding(a: string, x: string, b: string)
    requires AllSpace(a) && AllSpace(b)
    ensures TrimSpace(a + x + b) == TrimSpace(x)
  {
    var left, middle, right := SplitPadding(x);
    SpacesConcat(a, left);
    SpacesConcat(right, b);
    PadTwice(a, left, middle, right, b);
    TrimSpaceUnpads(left, middle, right);
    TrimSpaceUnpads(a + left, middle, right + b);
  }

  function Digit(d: nat): char
    requires d < 10
  {
    "0123456789"[d]
  }

  function Digits(n: nat): (s: string)
    ensures s != "" && forall c :: c in s ==> '0' <= c <= '9'
  {
    if n < 10 then [Digit(n)] else Digits(n / 10) + [Digit(n % 10)]
  }

  /** fmt's %d and strconv.FormatInt in base 10. */
  function Decimal(n: int): (s: string)
    ensures forall c :: c in s ==> '0' <= c <= '9' || c == '-'
  {
    if n < 0 then "-" + Digits(-n) else Digits(n)
  }

  function DigitsValue(s: string): int {
    if s == "" then 0 else 10 * DigitsValue(s[..|s| - 1]) + (s[|s| - 1] as int - '0' as int)
  }

  lemma {:induction false} DigitsValueInverts(n: nat)
    ensures DigitsValue(Digits(n)) == n
  {
    if n < 10 {
      assert Digits(n)[..0] == "";
    } else {
      var s := Digits(n);
      assert s[..|s| - 1] == Digits(n / 10);
      DigitsValueInverts(n / 10);
    }
  }

  function DecimalValue(s: string): int {
    if HasPrefix(s, "-") then -DigitsValue(s[1..]) else DigitsValue(s)
  }

  lemma DecimalValueInverts(n: int)
    ensures DecimalValue(Decimal(n)) == n
  {
    var d := Digits(if n < 0 then -n else n);
    DigitsValueInverts(if n < 0 then -n else n);
    assert d[0] in d;
    assert ("-" + d)[1..] == d;
    assert HasPrefix("-" + d, "-");
    assert !HasPrefix(d, "-");
  }

  lemma DecimalInjective(m: int, n: int)
    requires Decimal(m) == Decimal(n)
    ensures m == n
  {
    DecimalValueInverts(m);
    DecimalValueInverts(n);
  }
}
