/** Small value types and string operations shared by every module: the
    Option and Result wrappers that stand for Rust's `Option` and `Result`,
    the `str` methods the crates call (`find`, `contains`, `matches().count()`,
    `replace`, `trim`, `lines`, `repeat`), and decimal formatting of integers
    as `format!("{}")` does it. */
module Util {

  datatype Option<T> = None | Some(value: T) {
    function GetOr(default: T): T {
      match this
      case Some(v) => v
      case None => default
    }
  }

  datatype Result<T, E> = Ok(value: T) | Err(error: E)

  // ---------------------------------------------------------------- searching

  /** `pat` occurs in `s` starting at index `i`. */
  predicate OccursAt(s: string, pat: string, i: nat) {
    i + |pat| <= |s| && s[i..i + |pat|] == pat
  }

  predicate StartsWith(s: string, pat: string) {
    OccursAt(s, pat, 0)
  }

  /** First occurrence of `pat` at an index `>= i` (the search `str::find` does from `i`). */
  function FindFrom(s: string, pat: string, i: nat): (r: Option<nat>)
    ensures r.Some? ==> i <= r.value && OccursAt(s, pat, r.value)
    ensures r.Some? ==> forall j :: i <= j < r.value ==> !OccursAt(s, pat, j)
    ensures r.None? ==> forall j :: i <= j ==> !OccursAt(s, pat, j)
    decreases |s| - i
  {
    if i + |pat| > |s| then None
    else if OccursAt(s, pat, i) then Some(i)
    else FindFrom(s, pat, i + 1)
  }

  /** `str::find`: the index of the first occurrence of `pat`. */
  function Find(s: string, pat: string): (r: Option<nat>)
    ensures r.Some? ==> OccursAt(s, pat, r.value)
    ensures r.Some? ==> forall j :: 0 <= j < r.value ==> !OccursAt(s, pat, j)
    ensures r.None? ==> forall j: nat :: !OccursAt(s, pat, j)
  {
    FindFrom(s, pat, 0)
  }

  /** `str::contains`. */
  predicate Contains(s: string, pat: string) {
    Find(s, pat).Some?
  }

  lemma ContainsIff(s: string, pat: string)
    ensures Contains(s, pat) <==> exists j: nat :: OccursAt(s, pat, j)
  {
  }

  /** A string that contains `pat` also contains every substring of `pat`. */
  lemma {:induction false} ContainsInner(s: string, pat: string, k: nat, len: nat)
    requires k + len <= |pat|
    requires Contains(s, pat)
    ensures Contains(s, pat[k..k + len])
  {
    var j := Find(s, pat).value;
    assert s[j + k..j + k + len] == pat[k..k + len] by {
      assert s[j..j + |pat|] == pat;
      assert s[j + k..j + k + len] == s[j..j + |pat|][k..k + len];
    }
    assert OccursAt(s, pat[k..k + len], j + k);
  }

  /** Number of occurrences of the character `c` in `s` (`s.matches(c).count()`). */
  function CountChar(s: string, c: char): (n: nat)
    ensures n <= |s|
    ensures n == 0 <==> c !in s
  {
    if s == [] then 0
    else CountChar(s[..|s| - 1], c) + (if s[|s| - 1] == c then 1 else 0)
  }

  /** Non-overlapping occurrences of `pat` at indices `>= i`, scanned left to right
      (`s[i..].matches(pat).count()` for a non-empty `pat`). */
  function CountMatchesFrom(s: string, pat: string, i: nat): nat
    requires |pat| > 0
    decreases |s| - i
  {
    if i + |pat| > |s| then 0
    else if OccursAt(s, pat, i) then 1 + CountMatchesFrom(s, pat, i + |pat|)
    else CountMatchesFrom(s, pat, i + 1)
  }

  /** `s.matches(pat).count()` for a non-empty string pattern. */
  function CountMatches(s: string, pat: string): (n: nat)
    requires |pat| > 0
  {
    CountMatchesFrom(s, pat, 0)
  }

  lemma {:induction false} CountMatchesFromZero(s: string, pat: string, i: nat)
    requires |pat| > 0
    requires forall j :: i <= j ==> !OccursAt(s, pat, j)
    ensures CountMatchesFrom(s, pat, i) == 0
    decreases |s| - i
  {
    if i + |pat| <= |s| {
      CountMatchesFromZero(s, pat, i + 1);
    }
  }

  /** A string without any occurrence of `pat` has no matches, and one with
      an occurrence has at least one. */
  lemma CountMatchesPositiveIff(s: string, pat: string)
    requires |pat| > 0
    ensures CountMatches(s, pat) > 0 <==> Contains(s, pat)
  {
    if !Contains(s, pat) {
      CountMatchesFromZero(s, pat, 0);
    } else {
      CountMatchesPositiveFrom(s, pat, 0, Find(s, pat).value);
    }
  }

  lemma {:induction false} CountMatchesPositiveFrom(s: string, pat: string, i: nat, j: nat)
    requires |pat| > 0 && i <= j && OccursAt(s, pat, j)
    ensures CountMatchesFrom(s, pat, i) > 0
    decreases |s| - i
  {
    if !OccursAt(s, pat, i) {
      CountMatchesPositiveFrom(s, pat, i + 1, j);
    }
  }

  // --------------------------------------------------------------- rewriting

  /** `s.replace(c, rep)` for a character pattern: every `c` becomes `rep`. */
  function ReplaceChar(s: string, c: char, rep: string): string
  {
    if s == [] then [] else (if s[0] == c then rep else [s[0]]) + ReplaceChar(s[1..], c, rep)
  }

  /** A string without `c` is left unchanged. */
  lemma {:induction false} ReplaceCharAbsent(s: string, c: char, rep: string)
    requires c !in s
    ensures ReplaceChar(s, c, rep) == s
  {
    if s != [] {
      ReplaceCharAbsent(s[1..], c, rep);
      assert s == [s[0]] + s[1..];
    }
  }

  /** Regrouping concatenations of three, four and five sequences. */
  lemma AppendAssoc3<T>(a: seq<T>, b: seq<T>, c: seq<T>)
    ensures a + b + c == a + (b + c)
  {
  }

  lemma AppendAssoc4<T>(a: seq<T>, b: seq<T>, c: seq<T>, d: seq<T>)
    ensures a + b + c + d == a + (b + c + d)
  {
  }

  lemma AppendAssoc5<T>(a: seq<T>, b: seq<T>, c: seq<T>, d: seq<T>, e: seq<T>)
    ensures a + b + c + d + e == a + (b + c + d + e)
  {
  }

  /** Extending a prefix of `ys` after `xs` by one more element of `ys`. */
  lemma PrefixSnoc<T>(xs: seq<T>, ys: seq<T>, j: nat)
    requires j < |ys|
    ensures xs + ys[..j + 1] == xs + ys[..j] + [ys[j]]
  {
    assert ys[..j + 1] == ys[..j] + [ys[j]];
  }

  /** On a one-character string the replacement acts on that character alone. */
  lemma ReplaceCharSingle(d: char, c: char, rep: string)
    ensures ReplaceChar([d], c, rep) == if d == c then rep else [d]
  {
    assert [d][1..] == [];
  }

  lemma {:induction false} ReplaceCharAppend(a: string, b: string, c: char, rep: string)
    ensures ReplaceChar(a + b, c, rep) == ReplaceChar(a, c, rep) + ReplaceChar(b, c, rep)
  {
    if a == [] {
      assert a + b == b;
    } else {
      assert (a + b)[0] == a[0];
      assert (a + b)[1..] == a[1..] + b;
      ReplaceCharAppend(a[1..], b, c, rep);
    }
  }

  /** Replacing `c` by a string without `d` leaves exactly the `d`s that were there. */
  lemma {:induction false} ReplaceCharKeepsOut(s: string, c: char, rep: string, d: char)
    requires d !in rep && d !in s
    ensures d !in ReplaceChar(s, c, rep)
  {
    if s != [] {
      ReplaceCharKeepsOut(s[1..], c, rep, d);
    }
  }

  /** `s.repeat(n)`. */
  function Repeat(s: string, n: nat): (r: string)
    ensures |r| == n * |s|
  {
    if n == 0 then "" else s + Repeat(s, n - 1)
  }

  lemma {:induction false} RepeatChars(s: string, n: nat, k: nat)
    requires |s| == 1 && k < n
    ensures Repeat(s, n)[k] == s[0]
  {
    if k > 0 {
      RepeatChars(s, n - 1, k - 1);
    }
  }

  lemma RepeatAllChars(s: string, n: nat)
    requires |s| == 1
    ensures forall k :: 0 <= k < n ==> Repeat(s, n)[k] == s[0]
  {
    forall k | 0 <= k < n ensures Repeat(s, n)[k] == s[0] {
      RepeatChars(s, n, k);
    }
  }

  // ----------------------------------------------------------------- trimming

  /** The ASCII characters that Rust's `char::is_whitespace` accepts. */
  predicate IsWhitespace(c: char) {
    c == ' ' || c == '\t' || c == '\n' || c == '\r' || c == '\U{0B}' || c == '\U{0C}'
  }

  /** `str::trim_start`. */
  function TrimStart(s: string): (r: string)
    ensures |r| <= |s| && r == s[|s| - |r|..]
    ensures r == [] || !IsWhitespace(r[0])
  {
    if s != [] && IsWhitespace(s[0]) then TrimStart(s[1..]) else s
  }

  /** `str::trim_end`. */
  function TrimEnd(s: string): (r: string)
    ensures |r| <= |s| && r == s[..|r|]
    ensures r == [] || !IsWhitespace(r[|r| - 1])
  {
    if s != [] && IsWhitespace(s[|s| - 1]) then TrimEnd(s[..|s| - 1]) else s
  }

  /** `str::trim`. */
  function Trim(s: string): (r: string)
    ensures |r| <= |s|
    ensures r == [] || (!IsWhitespace(r[0]) && !IsWhitespace(r[|r| - 1]))
  {
    TrimEnd(TrimStart(s))
  }

  lemma TrimOfTrimmed(s: string)
    requires s == [] || (!IsWhitespace(s[0]) && !IsWhitespace(s[|s| - 1]))
    ensures Trim(s) == s
  {
  }

  /** `str::lines`: the pieces between line feeds; a final line feed does not
      start an extra, empty line. */
  function Lines(s: string): (r: seq<string>)
    ensures forall i :: 0 <= i < |r| ==> '\n' !in r[i]
    decreases |s|
  {
    match Find(s, "\n")
    case None =>
      assert '\n' !in s by {
        forall j | 0 <= j < |s| ensures s[j] != '\n' {
          assert !OccursAt(s, "\n", j);
          assert s[j..j + 1] == [s[j]];
        }
      }
      if s == [] then [] else [s]
    case Some(k) =>
      assert forall j :: 0 <= j < k ==> s[j] != '\n' by {
        forall j | 0 <= j < k ensures s[j] != '\n' {
          assert !OccursAt(s, "\n", j);
          assert s[j..j + 1] == [s[j]];
        }
      }
      [s[..k]] + Lines(s[k + 1..])
  }

  // ------------------------------------------------------------------ numbers

  predicate IsDigit(c: char) {
    '0' <= c <= '9'
  }

  predicate AllDigits(s: string) {
    forall i :: 0 <= i < |s| ==> IsDigit(s[i])
  }

  function DigitChar(d: nat): (c: char)
    requires d < 10
    ensures IsDigit(c)
  {
    ('0' as int + d) as char
  }

  function DigitValue(c: char): (d: nat)
    requires IsDigit(c)
    ensures d < 10
  {
    (c as int - '0' as int) as nat
  }

  /** Decimal rendering of a natural number, as `format!("{}", n)` prints it. */
  function NatToString(n: nat): (r: string)
    ensures |r| >= 1 && AllDigits(r)
    decreases n
  {
    if n < 10 then [DigitChar(n)] else NatToString(n / 10) + [DigitChar(n % 10)]
  }

  /** The value of a string of decimal digits. */
  function DigitsValue(s: string): nat
    requires AllDigits(s)
  {
    if s == [] then 0 else DigitsValue(s[..|s| - 1]) * 10 + DigitValue(s[|s| - 1])
  }

  /** Reads a non-empty string of decimal digits; the inverse of `NatToString`. */
  function ParseNat(s: string): Option<nat> {
    if s != [] && AllDigits(s) then Some(DigitsValue(s)) else None
  }

  lemma {:induction false} ParseNatToString(n: nat)
    ensures ParseNat(NatToString(n)) == Some(n)
    decreases n
  {
    var s := NatToString(n);
    if n < 10 {
      assert s[..|s| - 1] == [];
      assert DigitsValue(s) == DigitsValue(s[..|s| - 1]) * 10 + DigitValue(s[|s| - 1]);
    } else {
      ParseNatToString(n / 10);
      assert s[..|s| - 1] == NatToString(n / 10);
    }
  }

  /** Distinct numbers print differently. */
  lemma NatToStringInjective(a: nat, b: nat)
    requires NatToString(a) == NatToString(b)
    ensures a == b
  {
    ParseNatToString(a);
    ParseNatToString(b);
  }

  /** `tag + n` strings (references like "A7", "R2") are distinct for distinct numbers. */
  lemma TaggedNumberInjective(tag: string, a: nat, b: nat)
    requires tag + NatToString(a) == tag + NatToString(b)
    ensures a == b
  {
    assert NatToString(a) == (tag + NatToString(a))[|tag|..];
    assert NatToString(b) == (tag + NatToString(b))[|tag|..];
    NatToStringInjective(a, b);
  }

  lemma TaggedNumberIff(tag: string, a: nat, b: nat)
    ensures tag + NatToString(a) == tag + NatToString(b) <==> a == b
  {
    if tag + NatToString(a) == tag + NatToString(b) {
      TaggedNumberInjective(tag, a, b);
    }
  }

  /** `format!("{:03}", n)`: at least three digits, padded with leading zeros. */
  function ZeroPad3(n: nat): (r: string)
    ensures |r| >= 3 && AllDigits(r) && |NatToString(n)| <= |r|
    ensures r[|r| - |NatToString(n)|..] == NatToString(n)
    ensures forall i :: 0 <= i < |r| - |NatToString(n)| ==> r[i] == '0'
  {
    var d := NatToString(n);
    if n < 10 then "00" + d
    else if n < 100 then
      assert |d| == 2 by { assert d == NatToString(n / 10) + [DigitChar(n % 10)]; }
      "0" + d
    else
      assert |d| >= 3 by {
        assert d == NatToString(n / 10) + [DigitChar(n % 10)];
        assert NatToString(n / 10) == NatToString(n / 100) + [DigitChar(n / 10 % 10)];
      }
      d
  }

  /** `pre + n + suf` strings (messages like "Release 3 missing title") are
      distinct for distinct numbers. */
  lemma FramedNumberInjective(pre: string, suf: string, a: nat, b: nat)
    requires pre + NatToString(a) + suf == pre + NatToString(b) + suf
    ensures a == b
  {
    var x, y := NatToString(a), NatToString(b);
    assert |x| == |y|;
    assert x == (pre + x + suf)[|pre|..|pre| + |x|];
    assert y == (pre + y + suf)[|pre|..|pre| + |y|];
    NatToStringInjective(a, b);
  }

  // -------------------------------------------------------------------- UTF-8

  /** The number of bytes UTF-8 spends on one scalar value. */
  function Utf8Width(c: char): (n: nat)
    ensures 1 <= n <= 4
    ensures n == 1 <==> (c as int) < 0x80
  {
    if (c as int) < 0x80 then 1
    else if (c as int) < 0x800 then 2
    else if (c as int) < 0x1_0000 then 3
    else 4
  }

  /** The length of `s` in UTF-8 bytes, which is what `str::len` reports. */
  function Utf8Length(s: string): nat {
    if s == [] then 0 else Utf8Length(s[..|s| - 1]) + Utf8Width(s[|s| - 1])
  }

  /** Every character takes one to four bytes, and ASCII text takes one byte
      per character. */
  lemma {:induction false} Utf8LengthBounds(s: string)
    ensures |s| <= Utf8Length(s) <= 4 * |s|
    ensures Utf8Length(s) == |s| <==> forall i :: 0 <= i < |s| ==> (s[i] as int) < 0x80
  {
    if s != [] {
      var init := s[..|s| - 1];
      Utf8LengthBounds(init);
      if Utf8Length(s) == |s| {
        forall i | 0 <= i < |s| ensures (s[i] as int) < 0x80 {
          if i < |s| - 1 { assert s[i] == init[i]; }
        }
      }
      if forall i :: 0 <= i < |s| ==> (s[i] as int) < 0x80 {
        assert forall i :: 0 <= i < |init| ==> init[i] == s[i];
      }
    }
  }

  /** The byte length of a concatenation is the sum of the byte lengths. */
  lemma {:induction false} Utf8LengthAppend(a: string, b: string)
    ensures Utf8Length(a + b) == Utf8Length(a) + Utf8Length(b)
    decreases |b|
  {
    if b == [] {
      assert a + b == a;
    } else {
      var init := b[..|b| - 1];
      Utf8LengthAppend(a, init);
      assert (a + b)[..|a + b| - 1] == a + init;
      assert (a + b)[|a + b| - 1] == b[|b| - 1];
    }
  }
}
