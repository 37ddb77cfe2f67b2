/**
 * Character classes of ECMAScript regular expressions and the `minify` helper of
 * src/index.ts, which removes every newline and then every run of whitespace from a
 * CSS text and trims the result.
 */
module CssText {

  /**
   * LineTerminator of ECMAScript: the characters the regex `.` does not match. None of them
   * is printable ASCII.
   */
  predicate IsLineTerminator(c: char): (r: bool)
    ensures r ==> !(0x20 <= c as int <= 0x7E)
  {
    c == '\n' || c == '\r' || c as int == 0x2028 || c as int == 0x2029
  }

  /**
   * The class `\s` of ECMAScript regular expressions: WhiteSpace (tab, vertical tab,
   * form feed, the byte order mark and every space separator) plus LineTerminator.
   * String.prototype.trim removes exactly the same set. Line terminators, the space and
   * the tab belong to it; printable ASCII other than the space does not.
   */
  predicate IsWhitespace(c: char): (r: bool)
    ensures IsLineTerminator(c) ==> r
    ensures c == ' ' || c == '\t' ==> r
    ensures 0x21 <= c as int <= 0x7E ==> !r
  {
    var n := c as int;
    || n == 0x09 || n == 0x0B || n == 0x0C || n == 0x20 || n == 0xA0 || n == 0x1680
    || (0x2000 <= n <= 0x200A) || n == 0x202F || n == 0x205F || n == 0x3000 || n == 0xFEFF
    || IsLineTerminator(c)
  }

  predicate WhitespaceFree(s: string) {
    forall i :: 0 <= i < |s| ==> !IsWhitespace(s[i])
  }

  predicate NoLineTerminator(s: string) {
    forall i :: 0 <= i < |s| ==> !IsLineTerminator(s[i])
  }

  /** Reference definition: the non-whitespace characters of `s`, in their order. */
  function NonWhitespace(s: string): (r: string)
    ensures WhitespaceFree(r)
    ensures |r| <= |s|
  {
    if s == [] then []
    else if IsWhitespace(s[0]) then NonWhitespace(s[1..])
    else [s[0]] + NonWhitespace(s[1..])
  }

  /** `s.replace(/\n/g, "")`. */
  function RemoveNewlines(s: string): (r: string)
    ensures forall i :: 0 <= i < |r| ==> r[i] != '\n'
    ensures |r| <= |s|
    ensures (forall i :: 0 <= i < |s| ==> s[i] != '\n') ==> r == s
  {
    if s == [] then []
    else if s[0] == '\n' then RemoveNewlines(s[1..])
    else [s[0]] + RemoveNewlines(s[1..])
  }

  /** Length of the whitespace run that starts `s`. */
  function LeadingRun(s: string): (n: nat)
    ensures n <= |s|
    ensures forall i :: 0 <= i < n ==> IsWhitespace(s[i])
    ensures n < |s| ==> !IsWhitespace(s[n])
  {
    if s != [] && IsWhitespace(s[0]) then 1 + LeadingRun(s[1..]) else 0
  }

  /** `s.replace(/\s+/g, "")`: every maximal run of whitespace is replaced by nothing. */
  function RemoveWhitespaceRuns(s: string): (r: string)
    ensures WhitespaceFree(r)
    decreases |s|
  {
    if s == [] then []
    else if IsWhitespace(s[0]) then RemoveWhitespaceRuns(s[LeadingRun(s)..])
    else [s[0]] + RemoveWhitespaceRuns(s[1..])
  }

  function TrimStart(s: string): (r: string)
    ensures r != [] ==> !IsWhitespace(r[0])
    ensures |r| <= |s|
    ensures forall i :: 0 <= i < |s| - |r| ==> IsWhitespace(s[i])
  {
    if s != [] && IsWhitespace(s[0]) then TrimStart(s[1..]) else s
  }

  /** `TrimStart` keeps a suffix of its input. */
  lemma {:induction false} TrimStartIsSuffix(s: string)
    ensures TrimStart(s) == s[|s| - |TrimStart(s)|..]
  {
    if s != [] && IsWhitespace(s[0]) {
      TrimStartIsSuffix(s[1..]);
      assert s[1..][|s[1..]| - |TrimStart(s)|..] == s[|s| - |TrimStart(s)|..];
    }
  }

  function TrimEnd(s: string): (r: string)
    ensures r != [] ==> !IsWhitespace(r[|r| - 1])
    ensures |r| <= |s| && r == s[..|r|]
    ensures forall i :: |r| <= i < |s| ==> IsWhitespace(s[i])
  {
    if s != [] && IsWhitespace(s[|s| - 1]) then TrimEnd(s[..|s| - 1]) else s
  }

  /** `r` is `s[i..i + |r|]` and everything of `s` outside that slice is whitespace. */
  ghost predicate TrimmedSlice(s: string, r: string, i: int) {
    && 0 <= i <= |s| - |r| && r == s[i..i + |r|]
    && (forall k :: 0 <= k < i ==> IsWhitespace(s[k]))
    && (forall k :: i + |r| <= k < |s| ==> IsWhitespace(s[k]))
  }

  /**
   * String.prototype.trim: the slice of `s` left after dropping its leading and trailing
   * whitespace, neither starting nor ending with whitespace.
   */
  function Trim(s: string): (r: string)
    ensures r != [] ==> !IsWhitespace(r[0]) && !IsWhitespace(r[|r| - 1])
    ensures exists i :: TrimmedSlice(s, r, i)
    ensures WhitespaceFree(s) ==> r == s
  {
    var t := TrimStart(s);
    var r := TrimEnd(t);
    TrimStartIsSuffix(s);
    TrimSlice(s, t, r);
    r
  }

  /** The slice bookkeeping behind `Trim`: a whitespace suffix cut from a whitespace-stripped suffix. */
  lemma TrimSlice(s: string, t: string, r: string)
    requires |t| <= |s| && t == s[|s| - |t|..]
    requires forall k :: 0 <= k < |s| - |t| ==> IsWhitespace(s[k])
    requires |r| <= |t| && r == t[..|r|]
    requires forall k :: |r| <= k < |t| ==> IsWhitespace(t[k])
    ensures TrimmedSlice(s, r, |s| - |t|)
  {
    var i := |s| - |t|;
    assert r == s[i..i + |r|];
    forall k | i + |r| <= k < |s| ensures IsWhitespace(s[k]) {
      assert s[k] == t[k - i];
    }
  }

  /**
   * `minify` (src/index.ts:47-49): the non-whitespace characters of the input in their
   * original order, so no whitespace and no newline is left.
   */
  function Minify(css: string): (r: string)
    ensures r == NonWhitespace(css)
    ensures WhitespaceFree(r)
    ensures forall i :: 0 <= i < |r| ==> r[i] != '\n'
  {
    RemoveWhitespaceRunsIsNonWhitespace(RemoveNewlines(css));
    RemoveNewlinesKeepsNonWhitespace(css);
    Trim(RemoveWhitespaceRuns(RemoveNewlines(css)))
  }

  lemma {:induction false} NonWhitespaceOfFree(s: string)
    requires WhitespaceFree(s)
    ensures NonWhitespace(s) == s
  {
    if s != [] {
      NonWhitespaceOfFree(s[1..]);
    }
  }

  /** Helper: text that starts with a non-whitespace character keeps a character. */
  lemma NonWhitespaceNonEmpty(s: string)
    requires s != [] && !IsWhitespace(s[0])
    ensures NonWhitespace(s) != []
  {
  }

  lemma {:induction false} NonWhitespaceConcat(a: string, b: string)
    ensures NonWhitespace(a + b) == NonWhitespace(a) + NonWhitespace(b)
  {
    if a == [] {
      assert a + b == b;
    } else {
      assert (a + b)[1..] == a[1..] + b;
      NonWhitespaceConcat(a[1..], b);
    }
  }

  lemma {:induction false} NonWhitespaceContains(s: string, c: char)
    ensures c in NonWhitespace(s) <==> c in s && !IsWhitespace(c)
  {
    if s != [] {
      NonWhitespaceContains(s[1..], c);
      assert s == [s[0]] + s[1..];
    }
  }

  lemma {:induction false} RemoveNewlinesKeepsNonWhitespace(s: string)
    ensures NonWhitespace(RemoveNewlines(s)) == NonWhitespace(s)
  {
    if s != [] {
      RemoveNewlinesKeepsNonWhitespace(s[1..]);
      if s[0] != '\n' {
        NonWhitespaceConcat([s[0]], RemoveNewlines(s[1..]));
      }
    }
  }

  lemma {:induction false} RemoveNewlinesConcat(a: string, b: string)
    ensures RemoveNewlines(a + b) == RemoveNewlines(a) + RemoveNewlines(b)
  {
    if a == [] {
      assert a + b == b;
    } else {
      assert (a + b)[1..] == a[1..] + b;
      RemoveNewlinesConcat(a[1..], b);
    }
  }

  /** With RemoveNewlinesConcat this fixes the function: only `\n` is dropped. */
  lemma RemoveNewlinesChar(c: char)
    ensures RemoveNewlines([c]) == if c == '\n' then [] else [c]
  {
    assert [c][1..] == [];
  }

  lemma {:induction false} NonWhitespaceSkipsRun(s: string, n: nat)
    requires n <= |s|
    requires forall i :: 0 <= i < n ==> IsWhitespace(s[i])
    ensures NonWhitespace(s) == NonWhitespace(s[n..])
  {
    if n > 0 {
      NonWhitespaceSkipsRun(s[1..], n - 1);
      assert s[1..][n - 1..] == s[n..];
    }
  }

  /** Deleting whole runs removes exactly the whitespace characters. */
  lemma {:induction false} RemoveWhitespaceRunsIsNonWhitespace(s: string)
    ensures RemoveWhitespaceRuns(s) == NonWhitespace(s)
    decreases |s|
  {
    if s != [] {
      if IsWhitespace(s[0]) {
        var n := LeadingRun(s);
        RemoveWhitespaceRunsIsNonWhitespace(s[n..]);
        NonWhitespaceSkipsRun(s, n);
      } else {
        RemoveWhitespaceRunsIsNonWhitespace(s[1..]);
      }
    }
  }

  /** A character is in the output of `minify` exactly when it is a non-whitespace character of the input. */
  lemma MinifyCharacters(css: string, c: char)
    ensures c in Minify(css) <==> c in css && !IsWhitespace(c)
  {
    NonWhitespaceContains(css, c);
  }

  lemma MinifyIdempotent(css: string)
    ensures Minify(Minify(css)) == Minify(css)
  {
    NonWhitespaceOfFree(Minify(css));
  }

  lemma MinifyConcat(a: string, b: string)
    ensures Minify(a + b) == Minify(a) + Minify(b)
  {
    NonWhitespaceConcat(a, b);
  }

  /** The number a string of decimal digits denotes. */
  function DigitsValue(s: string): int {
    if s == [] then 0
    else DigitsValue(s[..|s| - 1]) * 10 + (s[|s| - 1] as int - '0' as int)
  }

  /** Decimal digits of `n`, as a template literal `${n}` prints it: no leading zero. */
  function DecimalString(n: nat): (r: string)
    ensures |r| >= 1
    ensures forall i :: 0 <= i < |r| ==> '0' <= r[i] <= '9'
    ensures DigitsValue(r) == n
    ensures n >= 10 ==> r[0] != '0'
    ensures n < 10 ==> |r| == 1
  {
    var digit := [(('0' as int) + n % 10) as char];
    if n < 10 then digit
    else
      var high := DecimalString(n / 10);
      assert (high + digit)[..|high|] == high;
      high + digit
  }

  lemma DecimalWhitespaceFree(n: nat)
    ensures WhitespaceFree(DecimalString(n))
  {
  }
}
