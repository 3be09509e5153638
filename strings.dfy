/**
 * The few Python `str` operations the pipeline and the API rely on:
 * `str.isspace` (also the `\s` class of a `str` regular expression),
 * `str.strip()`, `str.lower()`, `str.endswith`, the text after the last
 * occurrence of a character (`rsplit(c, 1)[-1]`, `os.path.basename`) and
 * `sep.join(parts)`.
 */
module Strings {

  /** Python's whitespace characters: every `c` with `c.isspace()`. */
  predicate IsSpace(c: char) {
    var n := c as int;
    n == 0x20 || 0x09 <= n <= 0x0D || 0x1C <= n <= 0x1F || n == 0x85 || n == 0xA0
    || n == 0x1680 || 0x2000 <= n <= 0x200A || n == 0x2028 || n == 0x2029
    || n == 0x202F || n == 0x205F || n == 0x3000
  }

  /** An ASCII decimal digit. */
  predicate IsDigit(c: char) {
    '0' <= c <= '9'
  }

  predicate AllSpace(s: string) {
    forall i :: 0 <= i < |s| ==> IsSpace(s[i])
  }

  /** Length of the maximal run of whitespace at the start of `s`. */
  function LeadingSpaces(s: string): (n: nat)
    ensures n <= |s|
    ensures forall i :: 0 <= i < n ==> IsSpace(s[i])
    ensures n < |s| ==> !IsSpace(s[n])
  {
    if s != [] && IsSpace(s[0]) then
      var n := 1 + LeadingSpaces(s[1..]);
      assert forall i :: 1 <= i < n ==> s[i] == s[1..][i - 1];
      n
    else
      0
  }

  /** Length of the maximal run of whitespace at the end of `s`. */
  function TrailingSpaces(s: string): (n: nat)
    ensures n <= |s|
    ensures forall i :: |s| - n <= i < |s| ==> IsSpace(s[i])
    ensures n < |s| ==> !IsSpace(s[|s| - n - 1])
  {
    if s != [] && IsSpace(s[|s| - 1]) then
      var n := 1 + TrailingSpaces(s[..|s| - 1]);
      assert forall i :: |s| - n <= i < |s| - 1 ==> s[i] == s[..|s| - 1][i];
      n
    else
      0
  }

  /** `r` sits in `s` at offset `a` with only whitespace before and after it. */
  predicate SpaceFramed(s: string, r: string, a: int) {
    && 0 <= a <= |s| - |r| && r == s[a..a + |r|]
    && (forall i :: 0 <= i < a ==> IsSpace(s[i]))
    && (forall i :: a + |r| <= i < |s| ==> IsSpace(s[i]))
  }

  /**
   * Python's `s.strip()`: the infix of `s` left once the whitespace at both
   * ends is removed.
   */
  function Strip(s: string): (r: string)
    ensures exists a :: SpaceFramed(s, r, a)
    ensures r != [] ==> !IsSpace(r[0]) && !IsSpace(r[|r| - 1])
    ensures r == [] <==> AllSpace(s)
  {
    var a := LeadingSpaces(s);
    if a == |s| then
      assert SpaceFramed(s, [], a);
      []
    else
      var b := |s| - TrailingSpaces(s);
      assert a < b by {
        assert !IsSpace(s[a]);
      }
      assert SpaceFramed(s, s[a..b], a);
      assert !AllSpace(s) by {
        assert !IsSpace(s[a]);
      }
      s[a..b]
  }

  /** Python's `str.lower()` on ASCII letters; every other character is kept. */
  function LowerChar(c: char): char {
    if 'A' <= c <= 'Z' then (c as int + 32) as char else c
  }

  function Lower(s: string): string {
    seq(|s|, i requires 0 <= i < |s| => LowerChar(s[i]))
  }

  /** Python's `s.endswith(suffix)`. */
  predicate EndsWith(s: string, suffix: string) {
    |suffix| <= |s| && s[|s| - |suffix|..] == suffix
  }

  /**
   * The text after the last `c` in `s`, or all of `s` when `c` does not occur:
   * `s[s.rfind(c) + 1:]`, which is `os.path.basename` for `c == '/'` and
   * `s.rsplit(c, 1)[1]` when `c in s`.
   */
  function AfterLast(s: string, c: char): (r: string)
    ensures |r| <= |s| && r == s[|s| - |r|..]
    ensures c !in r
    ensures |r| < |s| ==> s[|s| - |r| - 1] == c
  {
    if s == [] then []
    else if s[|s| - 1] == c then []
    else AfterLast(s[..|s| - 1], c) + [s[|s| - 1]]
  }

  lemma AfterLastSnoc(s: string, c: char, d: char)
    ensures AfterLast(s + [c], d) == if c == d then [] else AfterLast(s, d) + [c]
  {
    assert (s + [c])[..|s|] == s;
  }

  /** `os.path.basename(path)`: the part after the last `/`. */
  function Basename(path: string): string {
    AfterLast(path, '/')
  }

  /** Python's `sep.join(parts)`. */
  function Join(parts: seq<string>, sep: string): string {
    if parts == [] then ""
    else if |parts| == 1 then parts[0]
    else parts[0] + sep + Join(parts[1..], sep)
  }

  /** `s` occurs in `t` as a contiguous substring. */
  ghost predicate Occurs(s: string, t: string) {
    exists i :: OccursAt(s, t, i)
  }

  predicate OccursAt(s: string, t: string, i: int) {
    0 <= i <= |t| - |s| && t[i..i + |s|] == s
  }

  /** Joining two non-empty lists is joining their joins. */
  lemma {:induction false} JoinAppend(a: seq<string>, b: seq<string>, sep: string)
    requires a != [] && b != []
    ensures Join(a + b, sep) == Join(a, sep) + sep + Join(b, sep)
  {
    if |a| == 1 {
      assert (a + b)[1..] == b;
    } else {
      assert (a + b)[1..] == a[1..] + b;
      JoinAppend(a[1..], b, sep);
    }
  }

  /** Every part occurs in the joined text. */
  lemma {:induction false} JoinContains(parts: seq<string>, sep: string, k: nat)
    requires k < |parts|
    ensures Occurs(parts[k], Join(parts, sep))
  {
    var t := Join(parts, sep);
    if |parts| == 1 || k == 0 {
      assert OccursAt(parts[k], t, 0);
    } else {
      JoinContains(parts[1..], sep, k - 1);
      var rest := Join(parts[1..], sep);
      var i :| OccursAt(parts[k], rest, i);
      var off := |parts[0]| + |sep|;
      assert t == parts[0] + sep + rest;
      assert t[off + i..off + i + |parts[k]|] == rest[i..i + |parts[k]|];
      assert OccursAt(parts[k], t, off + i);
    }
  }

  /** Text around an occurrence does not hide it. */
  lemma OccursWithin(s: string, t: string, before: string, after: string)
    requires Occurs(s, t)
    ensures Occurs(s, before + t + after)
  {
    var i :| OccursAt(s, t, i);
    var whole := before + t + after;
    assert whole[|before| + i..|before| + i + |s|] == t[i..i + |s|];
    assert OccursAt(s, whole, |before| + i);
  }
}
