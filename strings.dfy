/**
 The few JavaScript string operations the bot relies on, over `seq<char>`:
 `s.split(sep)[0]`, `toLowerCase` (ASCII letters only), `trim`, `startsWith`,
 `endsWith`, and the `a || b` fallback between an optional string and a default.
 */
module Strings {
  import opened Wrappers

  /** `t` occurs in `s` starting at position `i`. */
  predicate OccursAt(s: string, t: string, i: int) {
    0 <= i <= |s| - |t| && s[i..i + |t|] == t
  }

  /** `s.includes(t)`: `t` occurs somewhere inside `s` as a contiguous piece. */
  ghost predicate Contains(s: string, t: string) {
    exists i :: OccursAt(s, t, i)
  }

  /** A string contains every piece it is glued from. */
  lemma ContainsMiddle(a: string, b: string, c: string)
    ensures Contains(a + b + c, b)
  {
    var s := a + b + c;
    assert s[|a|..|a| + |b|] == b;
    assert OccursAt(s, b, |a|);
  }

  /** `s.startsWith(p)` */
  predicate StartsWith(s: string, p: string) {
    p <= s
  }

  /** `s.endsWith(t)` */
  predicate EndsWith(s: string, t: string) {
    |t| <= |s| && s[|s| - |t|..] == t
  }

  /**
   `s.split(sep)[0]`: everything before the first `sep`, or all of `s` when it
   holds no `sep`. The three ensures clauses together pin the result down
   (see FirstFieldUnique).
   */
  function FirstField(s: string, sep: char): (r: string)
    ensures r <= s
    ensures sep !in r
    ensures |r| < |s| ==> s[|r|] == sep
  {
    if s == [] || s[0] == sep then [] else [s[0]] + FirstField(s[1..], sep)
  }

  /** Every prefix of `s` that stops at the first `sep` (or runs to the end) is `FirstField(s, sep)`. */
  lemma FirstFieldUnique(s: string, sep: char, p: string)
    requires p <= s && sep !in p
    requires |p| < |s| ==> s[|p|] == sep
    ensures FirstField(s, sep) == p
  {
  }

  /** The field before `sep` when the text is `head + [sep] + tail` and `head` holds no `sep`. */
  lemma FirstFieldOfJoin(head: string, sep: char, tail: string)
    requires sep !in head
    ensures FirstField(head + [sep] + tail, sep) == head
  {
    FirstFieldUnique(head + [sep] + tail, sep, head);
  }

  /** A string without `sep` is its own first field. */
  lemma FirstFieldOfPlain(s: string, sep: char)
    requires sep !in s
    ensures FirstField(s, sep) == s
  {
    FirstFieldUnique(s, sep, s);
  }

  /** The KELVIN SIGN, the one character whose lower case is an ASCII letter without being `A`..`Z`. */
  const KELVIN: char := '\U{212A}'

  /**
   `toLowerCase` on the characters that lower-case to ASCII: `A`..`Z` become
   `a`..`z`, the KELVIN SIGN becomes `k`, every other character is kept.
   */
  function LowerChar(c: char): char {
    if 'A' <= c <= 'Z' then (c as int + 32) as char
    else if c == KELVIN then 'k'
    else c
  }

  /** `s.toLowerCase()` with ASCII case mapping, character by character. */
  function Lower(s: string): (r: string)
    ensures |r| == |s|
    ensures forall i :: 0 <= i < |s| ==> r[i] == LowerChar(s[i])
  {
    if s == [] then [] else [LowerChar(s[0])] + Lower(s[1..])
  }

  /** A string without upper-case ASCII letters or KELVIN SIGNs is its own lower case. */
  lemma LowerIdentity(s: string)
    requires forall i :: 0 <= i < |s| ==> !('A' <= s[i] <= 'Z') && s[i] != KELVIN
    ensures Lower(s) == s
  {
  }

  /**
   Lower-casing and then taking the first space-separated field gives the same
   string as taking the field first and lower-casing it: the order of
   `toLowerCase()` and `split(' ')[0]` does not matter.
   */
  lemma LowerFirstField(s: string)
    ensures FirstField(Lower(s), ' ') == Lower(FirstField(s, ' '))
  {
    FirstFieldUnique(Lower(s), ' ', Lower(FirstField(s, ' ')));
  }

  /**
   The characters `String.prototype.trim` removes: the ECMAScript WhiteSpace
   code points (TAB, VT, FF, SP, NBSP, ZWNBSP and the space separators) and the
   LineTerminator code points (LF, CR, LS, PS).
   */
  predicate IsJsSpace(c: char) {
    c == '\t' || c == '\n' || c == '\U{000B}' || c == '\U{000C}' || c == '\r' || c == ' '
    || c == '\U{00A0}' || c == '\U{1680}' || ('\U{2000}' <= c <= '\U{200A}')
    || c == '\U{2028}' || c == '\U{2029}' || c == '\U{202F}' || c == '\U{205F}'
    || c == '\U{3000}' || c == '\U{FEFF}'
  }

  predicate AllSpace(s: string) {
    forall i :: 0 <= i < |s| ==> IsJsSpace(s[i])
  }

  /** Leading white space removed: the result is a suffix of `s` that starts with a visible character. */
  function TrimStart(s: string): (r: string)
    ensures |r| <= |s| && r == s[|s| - |r|..]
    ensures AllSpace(s[..|s| - |r|])
    ensures r != [] ==> !IsJsSpace(r[0])
  {
    if s != [] && IsJsSpace(s[0]) then TrimStart(s[1..]) else s
  }

  /** Trailing white space removed: the result is a prefix of `s` that ends with a visible character. */
  function TrimEnd(s: string): (r: string)
    ensures r <= s
    ensures AllSpace(s[|r|..])
    ensures r != [] ==> !IsJsSpace(r[|r| - 1])
  {
    if s != [] && IsJsSpace(s[|s| - 1]) then TrimEnd(s[..|s| - 1]) else s
  }

  /**
   `s.trim()`: the result is a contiguous piece of `s` with only white space
   around it in `s`, and it starts and ends with a visible character.
   */
  function Trim(s: string): (r: string)
    ensures exists i :: OccursAt(s, r, i) && AllSpace(s[..i]) && AllSpace(s[i + |r|..])
    ensures r != [] ==> !IsJsSpace(r[0]) && !IsJsSpace(r[|r| - 1])
  {
    var t := TrimStart(s);
    var r := TrimEnd(t);
    var i := |s| - |t|;
    assert s[i..i + |r|] == r;
    assert s[i + |r|..] == t[|r|..];
    assert OccursAt(s, r, i);
    r
  }

  lemma {:induction false} TrimStartPadded(lead: string, rest: string)
    requires AllSpace(lead)
    requires rest != [] && !IsJsSpace(rest[0])
    ensures TrimStart(lead + rest) == rest
  {
    if lead != [] {
      assert (lead + rest)[1..] == lead[1..] + rest;
      TrimStartPadded(lead[1..], rest);
    }
  }

  lemma {:induction false} TrimEndPadded(body: string, trail: string)
    requires AllSpace(trail)
    requires body != [] && !IsJsSpace(body[|body| - 1])
    ensures TrimEnd(body + trail) == body
  {
    if trail != [] {
      assert (body + trail)[..|body + trail| - 1] == body + trail[..|trail| - 1];
      TrimEndPadded(body, trail[..|trail| - 1]);
    }
  }

  /**
   Trimming a text whose visible part starts and ends with a non-space
   character gives exactly that visible part, whatever white space surrounds it.
   */
  lemma TrimPadded(lead: string, body: string, trail: string)
    requires AllSpace(lead) && AllSpace(trail)
    requires body != [] && !IsJsSpace(body[0]) && !IsJsSpace(body[|body| - 1])
    ensures Trim(lead + body + trail) == body
  {
    assert lead + body + trail == lead + (body + trail);
    TrimStartPadded(lead, body + trail);
    TrimEndPadded(body, trail);
  }

  /** `a || fallback` for a string property `a` that may be missing: the empty string is falsy too. */
  function OrElse(a: Option<string>, fallback: string): (r: string)
    ensures r == fallback || (a == Some(r) && r != "")
    ensures a.Some? && a.value != "" ==> r == a.value
  {
    if a.Some? && a.value != "" then a.value else fallback
  }
}
