/** The Python string built-ins the location parser relies on: the `in` test,
    `str.split` with a one-character separator, `str.strip()` and `int()` on
    decimal text. */
module TextOps {

  datatype Option<+T> = None | Some(value: T)

  // ---------------------------------------------------------------------------
  // Searching

  /** Position of the first `c` in `s`. */
  function FirstIndex(s: string, c: char): (i: nat)
    requires c in s
    ensures i < |s| && s[i] == c && c !in s[..i]
  {
    if s[0] == c then 0
    else
      var j := FirstIndex(s[1..], c);
      assert s[..j + 1] == [s[0]] + s[1..][..j];
      1 + j
  }

  /** Text before the first `c`; all of `s` when `c` does not occur. */
  function Before(s: string, c: char): (b: string)
    ensures c !in b
    ensures c !in s ==> b == s
    ensures c in s ==> |b| < |s| && s[..|b|] == b && s[|b|] == c
  {
    if c in s then s[..FirstIndex(s, c)] else s
  }

  /** Text after the first `c`. */
  function After(s: string, c: char): (a: string)
    requires c in s
    ensures s == Before(s, c) + [c] + a
    ensures |a| < |s|
  {
    var i := FirstIndex(s, c);
    assert s == s[..i] + [c] + s[i + 1..];
    s[i + 1..]
  }

  /** Python's `pat in text` for two strings. */
  predicate Contains(text: string, pat: string) {
    exists i | 0 <= i <= |text| - |pat| :: OccursAt(text, pat, i)
  }

  /** `pat` occurs in `text` starting at position `i`. */
  predicate OccursAt(text: string, pat: string, i: int) {
    0 <= i <= |text| - |pat| && text[i..i + |pat|] == pat
  }

  /** Every character of a contained string occurs in the text. */
  lemma ContainsElement(text: string, pat: string, k: nat)
    requires Contains(text, pat) && k < |pat|
    ensures pat[k] in text
  {
    var i :| 0 <= i <= |text| - |pat| && OccursAt(text, pat, i);
    assert text[i..i + |pat|] == pat;
    assert text[i..i + |pat|][k] == pat[k];
    assert text[i + k] == pat[k];
  }

  // ---------------------------------------------------------------------------
  // Splitting

  /** Python's `s.split(sep)` for a one-character separator: the fields
      between successive occurrences of `sep`, from left to right. */
  function Split(s: string, sep: char): (parts: seq<string>)
    ensures |parts| >= 1 && parts[0] == Before(s, sep)
    ensures sep in s ==> |parts| >= 2 && parts[1] == Before(After(s, sep), sep)
    decreases |s|
  {
    if sep in s then [Before(s, sep)] + Split(After(s, sep), sep) else [s]
  }

  /** Python's `sep.join(parts)` for a one-character separator. */
  function Join(parts: seq<string>, sep: char): string
    requires |parts| >= 1
    decreases |parts|
  {
    if |parts| == 1 then parts[0] else parts[0] + [sep] + Join(parts[1..], sep)
  }

  /** Splitting loses nothing: the fields contain no separator and joining
      them back gives the original text. */
  lemma {:induction false} JoinSplit(s: string, sep: char)
    ensures Join(Split(s, sep), sep) == s
    ensures forall k :: 0 <= k < |Split(s, sep)| ==> sep !in Split(s, sep)[k]
    decreases |s|
  {
    if sep in s {
      JoinSplit(After(s, sep), sep);
      assert Split(s, sep)[1..] == Split(After(s, sep), sep);
    }
  }

  /** Splitting a join of separator-free fields gives the fields back. */
  lemma {:induction false} SplitJoin(parts: seq<string>, sep: char)
    requires |parts| >= 1
    requires forall k :: 0 <= k < |parts| ==> sep !in parts[k]
    ensures Split(Join(parts, sep), sep) == parts
    decreases |parts|
  {
    if |parts| > 1 {
      var s := Join(parts, sep);
      var rest := Join(parts[1..], sep);
      assert s == parts[0] + [sep] + rest;
      assert s[|parts[0]|] == sep;
      BeforeAt(parts[0], sep, rest);
      SplitJoin(parts[1..], sep);
    }
  }

  /** The first separator of `b + [c] + a`, when `b` has none, sits right after `b`. */
  lemma BeforeAt(b: string, c: char, a: string)
    requires c !in b
    ensures c in b + [c] + a
    ensures Before(b + [c] + a, c) == b && After(b + [c] + a, c) == a
  {
    var s := b + [c] + a;
    assert s[|b|] == c;
    var i := FirstIndex(s, c);
    assert s[..|b|] == b;
    assert i == |b|;
    assert s[..i] == b;
    assert s[i + 1..] == a;
  }

  /** `s.split(sep)` has one field more than `s` has separators; so the
      two-name unpacking `a, b = s.split(sep)` succeeds exactly when `sep`
      occurs once. */
  lemma {:induction false} SplitLength(s: string, sep: char)
    ensures |Split(s, sep)| == multiset(s)[sep] + 1
    decreases |s|
  {
    if sep in s {
      var b, a := Before(s, sep), After(s, sep);
      SplitLength(a, sep);
      assert multiset(s) == multiset(b) + multiset{sep} + multiset(a);
      assert multiset(b)[sep] == 0;
    } else {
      assert multiset(s)[sep] == 0;
    }
  }

  // ---------------------------------------------------------------------------
  // Stripping

  /** The characters for which Python's `str.isspace()` holds, which
      `str.strip()` removes from both ends. */
  predicate IsSpace(c: char) {
    c == ' ' || '\t' <= c <= '\r' || '\U{1C}' <= c <= '\U{1F}' || c == '\U{85}' || c == '\U{A0}'
    || c == '\U{1680}' || '\U{2000}' <= c <= '\U{200A}' || c == '\U{2028}' || c == '\U{2029}'
    || c == '\U{202F}' || c == '\U{205F}' || c == '\U{3000}'
  }

  predicate AllSpace(s: string) {
    forall i :: 0 <= i < |s| ==> IsSpace(s[i])
  }

  function TrimStart(s: string): (r: string)
    ensures r == [] || !IsSpace(r[0])
    decreases |s|
  {
    if |s| > 0 && IsSpace(s[0]) then TrimStart(s[1..]) else s
  }

  function TrimEnd(s: string): (r: string)
    ensures r == [] || !IsSpace(r[|r| - 1])
    ensures |r| <= |s| && r == s[..|r|]
    decreases |s|
  {
    if |s| > 0 && IsSpace(s[|s| - 1]) then TrimEnd(s[..|s| - 1]) else s
  }

  /** Python's `s.strip()`. */
  function Strip(s: string): (r: string)
    ensures r == [] || (!IsSpace(r[0]) && !IsSpace(r[|r| - 1]))
  {
    TrimEnd(TrimStart(s))
  }

  lemma {:induction false} TrimStartPadded(pre: string, core: string)
    requires AllSpace(pre)
    requires core == [] || !IsSpace(core[0])
    ensures TrimStart(pre + core) == core
    decreases |pre|
  {
    if pre != [] {
      assert (pre + core)[1..] == pre[1..] + core;
      TrimStartPadded(pre[1..], core);
    }
  }

  lemma {:induction false} TrimEndPadded(core: string, post: string)
    requires AllSpace(post)
    requires core == [] || !IsSpace(core[|core| - 1])
    ensures TrimEnd(core + post) == core
    decreases |post|
  {
    if post != [] {
      assert (core + post)[..|core + post| - 1] == core + post[..|post| - 1];
      TrimEndPadded(core, post[..|post| - 1]);
    } else {
      assert core + post == core;
    }
  }

  /** Stripping removes exactly the surrounding white space. */
  lemma StripPadded(pre: string, core: string, post: string)
    requires AllSpace(pre) && AllSpace(post)
    requires core == [] || (!IsSpace(core[0]) && !IsSpace(core[|core| - 1]))
    ensures Strip(pre + core + post) == core
  {
    assert pre + core + post == pre + (core + post);
    if core == [] {
      assert core + post == post;
      TrimStartPadded(pre + post, []);
      assert pre + post + [] == pre + post;
      TrimEndPadded([], pre + post);
      assert [] + (pre + post) == pre + post;
    } else {
      TrimStartPadded(pre, core + post);
      TrimEndPadded(core, post);
    }
  }

  // ---------------------------------------------------------------------------
  // Integers

  predicate IsDigit(c: char) {
    '0' <= c <= '9'
  }

  predicate AllDigits(s: string) {
    forall i :: 0 <= i < |s| ==> IsDigit(s[i])
  }

  /** The value of a string of decimal digits, most significant first. */
  function DigitsValue(s: string): nat
    requires AllDigits(s)
    decreases |s|
  {
    if s == [] then 0 else 10 * DigitsValue(s[..|s| - 1]) + (s[|s| - 1] as int - '0' as int)
  }

  /** Python's `int(s)` on stripped text: an optional `+` or `-` followed by
      one or more ASCII decimal digits; `None` stands for the `ValueError`. */
  function ParseInt(s: string): Option<int> {
    if |s| > 0 && (s[0] == '+' || s[0] == '-') then
      if |s| > 1 && AllDigits(s[1..]) then
        var magnitude: int := DigitsValue(s[1..]);
        Some(if s[0] == '-' then -magnitude else magnitude)
      else None
    else if |s| > 0 && AllDigits(s) then Some(DigitsValue(s))
    else None
  }

  /** Decimal text of a natural number, without leading zeros. */
  function NatText(n: nat): (s: string)
    ensures |s| > 0 && AllDigits(s)
    decreases n
  {
    if n < 10 then [('0' as int + n) as char]
    else NatText(n / 10) + [('0' as int + n % 10) as char]
  }

  /** Python's `str(n)` for an integer. */
  function IntText(n: int): (s: string)
    ensures |s| > 0 && !IsSpace(s[0]) && !IsSpace(s[|s| - 1])
  {
    if n < 0 then "-" + NatText(-n) else NatText(n)
  }

  lemma {:induction false} NatTextValue(n: nat)
    ensures DigitsValue(NatText(n)) == n
    decreases n
  {
    if n >= 10 {
      NatTextValue(n / 10);
      var s := NatText(n);
      assert s[..|s| - 1] == NatText(n / 10);
    }
  }

  /** `int(str(n)) == n`. */
  lemma IntTextRoundTrip(n: int)
    ensures ParseInt(IntText(n)) == Some(n)
  {
    var s := IntText(n);
    if n < 0 {
      var digits := NatText(-n);
      NatTextValue(-n);
      assert s == "-" + digits;
      assert s[0] == '-' && |s| > 1;
      assert s[1..] == digits;
      assert ParseInt(s) == Some(0 - DigitsValue(digits) as int);
    } else {
      var digits := NatText(n);
      NatTextValue(n);
      assert s == digits;
      assert IsDigit(s[0]);
      assert ParseInt(s) == Some(DigitsValue(digits));
    }
  }
}
