/**
 * The string handling the gate dialogue applies to every received line:
 * dropping the line terminator, testing a keyword prefix, and taking the
 * field value as the text after the first ':' with surrounding whitespace
 * removed (Python's `rstrip("\r\n")`, `startswith`, `split(":", 1)[1]`
 * and `strip()`).
 *
 * Trimming is written once, for any class of characters to cut off; the two
 * classes the server uses are the line terminators and Python's whitespace.
 */
module Text {

  /** The characters Python's `str.isspace` accepts, which `str.strip()` removes. */
  predicate IsSpace(c: char)
  {
    ('\t' <= c <= '\r') || ('\U{1c}' <= c <= ' ') || c == '\U{85}' || c == '\U{a0}' ||
    c == '\U{1680}' || ('\U{2000}' <= c <= '\U{200a}') || c == '\U{2028}' || c == '\U{2029}' ||
    c == '\U{202f}' || c == '\U{205f}' || c == '\U{3000}'
  }

  /** The characters `rstrip("\r\n")` removes. */
  predicate IsLineEnd(c: char)
  {
    c == '\r' || c == '\n'
  }

  /** `s` has no newline before its last character: `read_line` stops at the first newline it receives. */
  predicate OneRead(s: string)
  {
    forall k :: 0 <= k < |s| - 1 ==> s[k] != '\n'
  }

  /** Every character of `s` belongs to `cls`. */
  predicate AllIn(s: string, cls: char -> bool)
  {
    forall k :: 0 <= k < |s| ==> cls(s[k])
  }

  /** Neither end of `s` belongs to `cls`: what trimming by `cls` leaves. */
  predicate TrimmedBy(s: string, cls: char -> bool)
  {
    s == [] || (!cls(s[0]) && !cls(s[|s| - 1]))
  }

  /** Where the run of `cls` characters starting at `i` ends: the first index from `i` on outside `cls`. */
  function RunEnd(s: string, cls: char -> bool, i: nat): (j: nat)
    requires i <= |s|
    ensures i <= j <= |s|
    ensures forall k :: i <= k < j ==> cls(s[k])
    ensures j < |s| ==> !cls(s[j])
    decreases |s| - i
  {
    if i < |s| && cls(s[i]) then RunEnd(s, cls, i + 1) else i
  }

  /** Where the run of `cls` characters ending at `j` starts, scanning back no further than `lo`. */
  function RunStart(s: string, cls: char -> bool, lo: nat, j: nat): (e: nat)
    requires lo <= j <= |s|
    ensures lo <= e <= j
    ensures forall k :: e <= k < j ==> cls(s[k])
    ensures e > lo ==> !cls(s[e - 1])
    decreases j - lo
  {
    if j > lo && cls(s[j - 1]) then RunStart(s, cls, lo, j - 1) else j
  }

  /** Drop the trailing characters of class `cls` (`rstrip`). */
  function TrimEnd(s: string, cls: char -> bool): (r: string)
    ensures r <= s
    ensures forall k :: |r| <= k < |s| ==> cls(s[k])
    ensures r == [] || !cls(r[|r| - 1])
  {
    s[..RunStart(s, cls, 0, |s|)]
  }

  /**
   * Trim both ends (`strip`): the result is the slice of `s` between the
   * leading and the trailing run of `cls` characters.
   */
  function TrimBoth(s: string, cls: char -> bool): (r: string)
    ensures TrimmedBy(r, cls)
    ensures var i := RunEnd(s, cls, 0);
      i + |r| <= |s| && r == s[i..i + |r|] &&
      (forall k :: 0 <= k < i ==> cls(s[k])) && (forall k :: i + |r| <= k < |s| ==> cls(s[k]))
  {
    var i := RunEnd(s, cls, 0);
    s[i..RunStart(s, cls, i, |s|)]
  }

  /** `rstrip("\r\n")`: what `read_line` returns for the text it received. */
  function StripLineEnd(s: string): string
  {
    TrimEnd(s, IsLineEnd)
  }

  /** `strip()`. */
  function Strip(s: string): string
  {
    TrimBoth(s, IsSpace)
  }

  /** The position of the first `c` in `s`, or `|s|` when there is none. */
  function FirstIndex(s: string, c: char): (i: nat)
    ensures i <= |s|
    ensures i < |s| ==> s[i] == c
    ensures forall k :: 0 <= k < i ==> s[k] != c
    decreases |s|
  {
    if s == [] || s[0] == c then 0 else 1 + FirstIndex(s[1..], c)
  }

  /** `s.split(":", 1)[1]`: the text after the first colon. */
  function AfterFirstColon(s: string): (r: string)
    requires ':' in s
    ensures |r| < |s| && r == s[|s| - |r|..]
    ensures s[|s| - |r| - 1] == ':' && ':' !in s[..|s| - |r| - 1]
  {
    var i := FirstIndex(s, ':');
    s[i + 1..]
  }

  /** The value of a `KEY:value` line: the text after the first colon, stripped. */
  function FieldValue(line: string): (v: string)
    requires ':' in line
    ensures TrimmedBy(v, IsSpace) && |v| < |line|
  {
    Strip(AfterFirstColon(line))
  }

  /** `s.startswith(prefix)`, compared one character at a time. */
  predicate StartsWith(s: string, prefix: string)
    decreases |prefix|
  {
    prefix == [] || (s != [] && s[0] == prefix[0] && StartsWith(s[1..], prefix[1..]))
  }

  /** `startswith` is the sequence-prefix relation. */
  lemma {:induction false} StartsWithIsPrefix(s: string, prefix: string)
    ensures StartsWith(s, prefix) <==> prefix <= s
    decreases |prefix|
  {
    if prefix != [] && s != [] {
      StartsWithIsPrefix(s[1..], prefix[1..]);
      if s[0] == prefix[0] {
        assert prefix <= s <==> prefix[1..] <= s[1..];
      }
    }
  }

  /** `not line or not line.startswith(prefix)`, negated: the line carries `prefix`. */
  predicate HasPrefix(line: string, prefix: string)
  {
    line != [] && StartsWith(line, prefix)
  }

  /** A prefix that ends with its only colon, like `ID_JOUEUR:`. */
  predicate KeyPrefix(prefix: string)
  {
    |prefix| > 0 && prefix[|prefix| - 1] == ':' && ':' !in prefix[..|prefix| - 1]
  }

  /** A line carrying a prefix that ends with a colon has a colon, so its field value is defined. */
  lemma ColonOfPrefixed(line: string, prefix: string)
    requires HasPrefix(line, prefix) && |prefix| > 0 && prefix[|prefix| - 1] == ':'
    ensures ':' in line
  {
    StartsWithIsPrefix(line, prefix);
    assert line[|prefix| - 1] == prefix[|prefix| - 1];
  }

  /** Trimming is exact: the padding on either side of a trimmed text is all it removes. */
  lemma TrimBothOfPadded(a: string, m: string, b: string, cls: char -> bool)
    requires AllIn(a, cls) && AllIn(b, cls) && TrimmedBy(m, cls)
    ensures TrimBoth(a + m + b, cls) == m
  {
    var s := a + m + b;
    var i := RunEnd(s, cls, 0);
    if m == [] {
      assert i == |s|;
    } else {
      assert s[|a|] == m[0];
      assert i == |a|;
      var e := RunStart(s, cls, i, |s|);
      assert s[|a| + |m| - 1] == m[|m| - 1];
      assert e == |a| + |m|;
      assert s[|a|..|a| + |m|] == m;
    }
  }

  /** `rstrip` removes exactly the trailing run of `cls`: padding after a text not ending in `cls` is all it cuts. */
  lemma TrimEndOfPadded(m: string, b: string, cls: char -> bool)
    requires AllIn(b, cls) && (m == [] || !cls(m[|m| - 1]))
    ensures TrimEnd(m + b, cls) == m
  {
    var s := m + b;
    var e := RunStart(s, cls, 0, |s|);
    if m != [] {
      assert s[|m| - 1] == m[|m| - 1];
    }
    assert e == |m|;
    assert s[..|m|] == m;
  }

  /**
   * A text carries at most one key prefix: the shorter of two would end
   * with a colon inside the longer one's colon-free part.
   */
  lemma KeyPrefixesExclusive(p: string, q: string, s: string)
    requires KeyPrefix(p) && KeyPrefix(q) && HasPrefix(s, p) && p != q
    ensures !HasPrefix(s, q)
  {
    StartsWithIsPrefix(s, p);
    StartsWithIsPrefix(s, q);
  }

  /**
   * A line written as `prefix + value` and ended by line terminators, the
   * newline, if any, coming last: `read_line` gives back `prefix + value`,
   * which carries `prefix` and whose field value is `value`.
   */
  lemma ReadField(prefix: string, value: string, end: string)
    requires KeyPrefix(prefix) && TrimmedBy(value, IsSpace) && AllIn(end, IsLineEnd) && OneRead(end)
    ensures StripLineEnd(prefix + value + end) == prefix + value
    ensures HasPrefix(prefix + value, prefix) && ':' in prefix + value
    ensures FieldValue(prefix + value) == value
  {
    var text := prefix + value;
    assert text[|text| - 1] == if value == [] then ':' else value[|value| - 1];
    TrimEndOfPadded(text, end, IsLineEnd);
    KeyedValue(prefix, value);
  }

  /** The line `prefix + value`, for an unpadded `value`, carries `prefix` and has value `value`. */
  lemma KeyedValue(prefix: string, value: string)
    requires KeyPrefix(prefix) && TrimmedBy(value, IsSpace)
    ensures HasPrefix(prefix + value, prefix) && ':' in prefix + value
    ensures FieldValue(prefix + value) == value
  {
    FieldValueOf(prefix, [], value, []);
    assert prefix + [] + value + [] == prefix + value;
  }

  /** `strip()` is idempotent. */
  lemma StripIdempotent(s: string)
    ensures Strip(Strip(s)) == Strip(s)
  {
    var r := Strip(s);
    TrimBothOfPadded([], r, [], IsSpace);
    assert [] + r + [] == r;
  }

  /** After a key prefix, `split(":", 1)[1]` yields the rest of the line unchanged. */
  lemma AfterKeyPrefix(prefix: string, rest: string)
    requires KeyPrefix(prefix)
    ensures HasPrefix(prefix + rest, prefix)
    ensures ':' in prefix + rest
    ensures AfterFirstColon(prefix + rest) == rest
  {
    var line := prefix + rest;
    StartsWithIsPrefix(line, prefix);
    assert line[|prefix| - 1] == ':';
    var i := FirstIndex(line, ':');
    assert i == |prefix| - 1;
    assert line[i + 1..] == rest;
  }

  /**
   * The value of a line `prefix + a + v + b`, where `prefix` ends with its
   * only colon and `a`, `b` are whitespace, is exactly `v`, whatever `v`
   * holds (further colons included).
   */
  lemma FieldValueOf(prefix: string, a: string, v: string, b: string)
    requires KeyPrefix(prefix) && AllIn(a, IsSpace) && AllIn(b, IsSpace) && TrimmedBy(v, IsSpace)
    ensures HasPrefix(prefix + a + v + b, prefix)
    ensures ':' in prefix + a + v + b
    ensures FieldValue(prefix + a + v + b) == v
  {
    AfterKeyPrefix(prefix, a + v + b);
    assert prefix + a + v + b == prefix + (a + v + b);
    TrimBothOfPadded(a, v, b, IsSpace);
  }
}
