/**
 * The string operations the program's parsers rely on, on `seq<char>`.
 * `char::is_whitespace` and `to_lowercase` are taken on their ASCII part.
 */
module Text {
  import opened Wrappers
  import opened MachineInts

  // ---------------------------------------------------------------- characters

  /** The ASCII characters Rust's `char::is_whitespace` accepts. */
  predicate IsSpace(c: char) {
    c == ' ' || '\t' <= c <= '\r'
  }

  predicate IsDigit(c: char) {
    '0' <= c <= '9'
  }

  predicate AllDigits(s: string) {
    forall i :: 0 <= i < |s| ==> IsDigit(s[i])
  }

  function DigitValue(c: char): (d: nat)
    requires IsDigit(c)
    ensures d < 10
  {
    c as int - '0' as int
  }

  function DigitChar(d: nat): (c: char)
    requires d < 10
    ensures IsDigit(c) && DigitValue(c) == d
  {
    ('0' as int + d) as char
  }

  /** ASCII lower-casing of one character. */
  function Lower(c: char): (r: char)
    ensures 'A' <= c <= 'Z' ==> 'a' <= r <= 'z'
    ensures !('A' <= c <= 'Z') ==> r == c
  {
    if 'A' <= c <= 'Z' then (c as int + 32) as char else c
  }

  function ToLower(s: string): (r: string)
    ensures |r| == |s| && forall i :: 0 <= i < |s| ==> r[i] == Lower(s[i])
  {
    seq(|s|, i requires 0 <= i < |s| => Lower(s[i]))
  }

  // ---------------------------------------------------------------- searching

  /** `s.contains(p)`: `p` occurs somewhere in `s`. */
  predicate Contains(s: string, p: string) {
    p <= s || (s != [] && Contains(s[1..], p))
  }

  /** An occurrence of `p` in `s` at index `i` means `s` contains `p`. */
  lemma {:induction false} ContainsAt(s: string, p: string, i: nat)
    requires i + |p| <= |s| && s[i..i + |p|] == p
    ensures Contains(s, p)
  {
    if i > 0 {
      assert s[1..][i - 1..i - 1 + |p|] == s[i..i + |p|];
      ContainsAt(s[1..], p, i - 1);
    }
  }

  /** A text without some character of `p` does not contain `p`. */
  lemma {:induction false} NotContainsChar(s: string, p: string, c: char)
    requires c in p && c !in s
    ensures !Contains(s, p)
  {
    if s != [] {
      assert c !in s[1..] by { assert forall k :: 0 <= k < |s| - 1 ==> s[1..][k] == s[k + 1]; }
      NotContainsChar(s[1..], p, c);
    }
  }

  /** Index of the first occurrence of `c` in `s` (`s.find(c)`). */
  function Find(s: string, c: char): (r: Option<nat>)
    ensures r.None? <==> c !in s
    ensures r.Some? ==> r.value < |s| && s[r.value] == c && c !in s[..r.value]
  {
    if s == [] then None
    else if s[0] == c then Some(0)
    else
      match Find(s[1..], c)
      case None => None
      case Some(i) =>
        assert s[..i + 1] == [s[0]] + s[1..][..i];
        Some(i + 1)
  }

  /** `s.split_once(c)`: the text around the first `c`. */
  function SplitOnce(s: string, c: char): (r: Option<(string, string)>)
    ensures r.None? <==> c !in s
    ensures r.Some? ==> s == r.value.0 + [c] + r.value.1 && c !in r.value.0
  {
    match Find(s, c)
    case None => None
    case Some(i) =>
      assert s == s[..i] + [c] + s[i + 1..];
      Some((s[..i], s[i + 1..]))
  }

  /** The first `c` of `a + [c] + b` is the one after `a` when `a` has none. */
  lemma {:induction false} FindFirst(a: string, c: char, b: string)
    requires c !in a
    ensures Find(a + [c] + b, c) == Some(|a|)
  {
    if a != [] {
      assert (a + [c] + b)[1..] == a[1..] + [c] + b;
      FindFirst(a[1..], c, b);
    }
  }

  /** `split_once` at the first `c`, when `a` has none. */
  lemma SplitOnceAt(a: string, c: char, b: string)
    requires c !in a
    ensures SplitOnce(a + [c] + b, c) == Some((a, b))
  {
    var s := a + [c] + b;
    FindFirst(a, c, b);
    assert s[..|a|] == a && s[|a| + 1..] == b;
  }

  /** `s.split(c)`: the pieces between occurrences of `c`, empty ones included. */
  function SplitOn(s: string, c: char): (parts: seq<string>)
    ensures |parts| > 0
    ensures forall k :: 0 <= k < |parts| ==> c !in parts[k]
  {
    if s == [] then [[]]
    else
      var rest := SplitOn(s[1..], c);
      if s[0] == c then [[]] + rest
      else [[s[0]] + rest[0]] + rest[1..]
  }

  /** Pieces joined back with the separator. */
  function Join(parts: seq<string>, c: char): string
    requires |parts| > 0
  {
    if |parts| == 1 then parts[0] else parts[0] + [c] + Join(parts[1..], c)
  }

  /** Splitting and joining again gives back the original text. */
  lemma {:induction false} SplitJoin(s: string, c: char)
    ensures Join(SplitOn(s, c), c) == s
  {
    if s != [] {
      SplitJoin(s[1..], c);
      var rest := SplitOn(s[1..], c);
      if s[0] != c && |rest| > 1 {
        assert SplitOn(s, c)[1..] == rest[1..];
      }
    }
  }

  // ---------------------------------------------------------------- trimming

  /** `s.trim_start()`. */
  function TrimStart(s: string): (r: string)
    ensures |r| <= |s| && r == s[|s| - |r|..]
    ensures r == [] || !IsSpace(r[0])
    ensures forall i :: 0 <= i < |s| - |r| ==> IsSpace(s[i])
  {
    if s != [] && IsSpace(s[0]) then TrimStart(s[1..]) else s
  }

  /** `s.trim_end()`. */
  function TrimEnd(s: string): (r: string)
    ensures |r| <= |s| && r == s[..|r|]
    ensures r == [] || !IsSpace(r[|r| - 1])
    ensures forall i :: |r| <= i < |s| ==> IsSpace(s[i])
  {
    if s != [] && IsSpace(s[|s| - 1]) then TrimEnd(s[..|s| - 1]) else s
  }

  /** `s.trim()`: no white space left at either end. */
  function Trim(s: string): (r: string)
    ensures |r| <= |s|
    ensures r == [] || (!IsSpace(r[0]) && !IsSpace(r[|r| - 1]))
  {
    TrimStart(TrimEnd(s))
  }

  /** Text with no white space at either end is its own trim. */
  lemma TrimKeeps(s: string)
    requires s == [] || (!IsSpace(s[0]) && !IsSpace(s[|s| - 1]))
    ensures Trim(s) == s
  {
  }

  lemma {:induction false} TrimEndLower(s: string)
    ensures TrimEnd(ToLower(s)) == ToLower(TrimEnd(s))
  {
    if s != [] && IsSpace(s[|s| - 1]) {
      assert ToLower(s)[..|s| - 1] == ToLower(s[..|s| - 1]);
      TrimEndLower(s[..|s| - 1]);
    }
  }

  lemma {:induction false} TrimStartLower(s: string)
    ensures TrimStart(ToLower(s)) == ToLower(TrimStart(s))
  {
    if s != [] {
      var lowered := ToLower(s);
      assert lowered[0] == Lower(s[0]);
      if IsSpace(s[0]) {
        assert IsSpace(lowered[0]);
        assert lowered[1..] == ToLower(s[1..]);
        TrimStartLower(s[1..]);
      } else {
        assert !IsSpace(lowered[0]);
      }
    }
  }

  /** Trimming and lower-casing can be done in either order. */
  lemma TrimLower(s: string)
    ensures Trim(ToLower(s)) == ToLower(Trim(s))
  {
    TrimEndLower(s);
    TrimStartLower(TrimEnd(s));
  }

  /** Lower-casing works piece by piece. */
  lemma ToLowerAppend(a: string, b: string)
    ensures ToLower(a + b) == ToLower(a) + ToLower(b)
  {
    assert forall i :: 0 <= i < |a + b| ==> ToLower(a + b)[i] == (ToLower(a) + ToLower(b))[i];
  }

  /** Lower-casing words joined by a space lower-cases each word. */
  lemma ToLowerSpaced(a: string, b: string)
    ensures ToLower(a + " " + b) == ToLower(a) + " " + ToLower(b)
  {
    ToLowerAppend(a + " ", b);
    ToLowerAppend(a, " ");
    assert ToLower(" ") == " ";
  }

  /** Digits are their own lower case. */
  lemma ToLowerDigits(s: string)
    requires AllDigits(s)
    ensures ToLower(s) == s
  {
    assert forall i :: 0 <= i < |s| ==> ToLower(s)[i] == s[i];
  }

  /** Lower-casing twice is lower-casing once. */
  /** Trimming and lower-casing a second time changes nothing. */
  lemma NormaliseTwice(s: string)
    ensures ToLower(Trim(ToLower(Trim(s)))) == ToLower(Trim(s))
  {
    var trimmed := Trim(s);
    var t := ToLower(trimmed);
    assert Trim(trimmed) == trimmed by { TrimKeeps(trimmed); }
    assert Trim(t) == ToLower(trimmed) by { TrimLower(trimmed); }
    LowerTwice(trimmed);
  }

  lemma LowerTwice(s: string)
    ensures ToLower(ToLower(s)) == ToLower(s)
  {
    assert forall i :: 0 <= i < |s| ==> ToLower(ToLower(s))[i] == ToLower(s)[i];
  }

  // ---------------------------------------------------------------- lines and tokens

  /** A line that ended in "\n" loses a final "\r" too. */
  function DropCR(line: string): string {
    if line != [] && line[|line| - 1] == '\r' then line[..|line| - 1] else line
  }

  /**
   * `s.lines()`: the text split at '\n'; a "\r" before a '\n' is dropped, and a
   * final '\n' does not start another (empty) line.
   */
  function Lines(s: string): (lines: seq<string>)
    ensures forall k :: 0 <= k < |lines| ==> '\n' !in lines[k]
  {
    if s == [] then []
    else
      var parts := SplitOn(s, '\n');
      var n := |parts| - 1;
      var ended := seq(n, k requires 0 <= k < n => DropCR(parts[k]));
      assert forall k :: 0 <= k < n ==> '\n' !in ended[k] by {
        forall k | 0 <= k < n ensures '\n' !in ended[k] {
          assert '\n' !in parts[k];
          assert ended[k] == DropCR(parts[k]);
          assert ended[k] == parts[k] || ended[k] == parts[k][..|parts[k]| - 1];
        }
      }
      if parts[n] == [] then ended else ended + [parts[n]]
  }

  /** Length of the run of non-white-space characters that starts `s`. */
  function WordLength(s: string): (n: nat)
    ensures n <= |s|
    ensures forall i :: 0 <= i < n ==> !IsSpace(s[i])
    ensures n < |s| ==> IsSpace(s[n])
  {
    if s == [] || IsSpace(s[0]) then 0 else 1 + WordLength(s[1..])
  }

  /** `s.split_whitespace()`: the maximal runs of non-white-space characters. */
  function Words(s: string): (words: seq<string>)
    ensures forall k :: 0 <= k < |words| ==> words[k] != [] && forall i :: 0 <= i < |words[k]| ==> !IsSpace(words[k][i])
    decreases |s|
  {
    if s == [] then []
    else if IsSpace(s[0]) then Words(s[1..])
    else
      var n := WordLength(s);
      [s[..n]] + Words(s[n..])
  }

  /** Non-empty text without white space: one word. */
  predicate IsWord(w: string) {
    w != [] && forall i :: 0 <= i < |w| ==> !IsSpace(w[i])
  }

  /** A word followed by a space is the first word. */
  lemma WordsCons(w: string, rest: string)
    requires IsWord(w)
    ensures Words(w + " " + rest) == [w] + Words(rest)
  {
    var s := w + " " + rest;
    assert s[0] == w[0] && s[|w|] == ' ';
    assert forall i :: 0 <= i < |w| ==> s[i] == w[i];
    assert WordLength(s) == |w|;
    assert s[..|w|] == w;
    assert s[|w|..] == " " + rest;
    assert (" " + rest)[1..] == rest;
  }

  /** A single word is its only word. */
  lemma WordsSingle(w: string)
    requires IsWord(w)
    ensures Words(w) == [w]
  {
    assert WordLength(w) == |w|;
    assert w[..|w|] == w && w[|w|..] == [];
  }

  /** Two words with a space between them. */
  lemma WordsTwo(a: string, b: string)
    requires IsWord(a) && IsWord(b)
    ensures Words(a + " " + b) == [a, b]
  {
    WordsCons(a, b);
    WordsSingle(b);
    assert [a] + [b] == [a, b];
  }

  /** Three words with spaces between them. */
  lemma WordsThree(a: string, b: string, c: string)
    requires IsWord(a) && IsWord(b) && IsWord(c)
    ensures Words(a + " " + (b + " " + c)) == [a, b, c]
  {
    WordsCons(a, b + " " + c);
    WordsTwo(b, c);
    assert [a] + [b, c] == [a, b, c];
  }

  /** Four words with spaces between them. */
  lemma WordsFour(a: string, b: string, c: string, d: string)
    requires IsWord(a) && IsWord(b) && IsWord(c) && IsWord(d)
    ensures Words(a + " " + (b + " " + (c + " " + d))) == [a, b, c, d]
  {
    WordsCons(a, b + " " + (c + " " + d));
    WordsThree(b, c, d);
    assert [a] + [b, c, d] == [a, b, c, d];
  }

  /** `s.replace(p, "")`: every non-overlapping occurrence of `p`, left to right, removed. */
  function RemoveAll(s: string, p: string): (r: string)
    requires p != []
    ensures |r| <= |s|
    decreases |s|
  {
    if |s| < |p| then s
    else if p <= s then RemoveAll(s[|p|..], p)
    else [s[0]] + RemoveAll(s[1..], p)
  }

  // ---------------------------------------------------------------- numbers

  /** Value of a decimal digit string, most significant digit first. */
  function DigitsValue(s: string): nat
    requires AllDigits(s)
  {
    if s == [] then 0 else DigitsValue(s[..|s| - 1]) * 10 + DigitValue(s[|s| - 1])
  }

  /** Decimal text of a natural number, as `format!("{}", n)` prints it. */
  function NatToString(n: nat): (s: string)
    ensures s != [] && AllDigits(s)
  {
    if n < 10 then [DigitChar(n)] else NatToString(n / 10) + [DigitChar(n % 10)]
  }

  /** Decimal text of an integer, with a leading '-' when negative. */
  function IntToString(i: int): string {
    if i < 0 then "-" + NatToString(-i) else NatToString(i)
  }

  /** `format!("{:02}", n)` for a value below 100. */
  function Pad2(n: nat): (s: string)
    requires n < 100
    ensures |s| == 2 && AllDigits(s)
  {
    [DigitChar(n / 10), DigitChar(n % 10)]
  }

  /** Reading back the printed digits gives the number. */
  lemma {:induction false} NatToStringValue(n: nat)
    ensures DigitsValue(NatToString(n)) == n
  {
    if n >= 10 {
      var s := NatToString(n);
      assert s[..|s| - 1] == NatToString(n / 10);
      NatToStringValue(n / 10);
    }
  }

  lemma Pad2Value(n: nat)
    requires n < 100
    ensures DigitsValue(Pad2(n)) == n
  {
    var s := Pad2(n);
    assert s[..1][..0] == [];
    assert DigitsValue(s[..1]) == n / 10;
  }

  /** `s.parse::<u32>()`: an optional '+', then one or more digits, within range. */
  function ParseU32(s: string): (r: Option<U32>)
    ensures r.Some? ==> exists d :: (s == d || s == "+" + d) && d != [] && AllDigits(d) && DigitsValue(d) == r.value
  {
    var d := if s != [] && s[0] == '+' then s[1..] else s;
    if d != [] && AllDigits(d) && DigitsValue(d) < U32_LIMIT then
      assert s == d || s == "+" + d;
      Some(DigitsValue(d))
    else None
  }

  /** `s.parse::<i64>()`: an optional sign, then one or more digits, within range. */
  function ParseI64(s: string): (r: Option<int>)
    ensures r.Some? ==> I64_MIN <= r.value <= I64_MAX
  {
    var negative := s != [] && s[0] == '-';
    var d := if s != [] && (s[0] == '+' || s[0] == '-') then s[1..] else s;
    if d == [] || !AllDigits(d) then None
    else
      var v: int := if negative then -(DigitsValue(d) as int) else DigitsValue(d);
      if I64_MIN <= v <= I64_MAX then Some(v) else None
  }

  /** Printed numbers parse back (the inverse of `NatToString`). */
  lemma ParseNatToString(n: nat)
    ensures n < U32_LIMIT ==> ParseU32(NatToString(n)) == Some(n)
    ensures n <= I64_MAX ==> ParseI64(NatToString(n)) == Some(n)
  {
    NatToStringValue(n);
  }

  lemma ParsePad2(n: nat)
    requires n < 100
    ensures ParseI64(Pad2(n)) == Some(n)
  {
    Pad2Value(n);
  }

  /** The maximal run of ASCII digits at the end of `s`. */
  function TrailingDigits(s: string): (d: string)
    ensures |d| <= |s| && d == s[|s| - |d|..] && AllDigits(d)
    ensures |d| < |s| ==> !IsDigit(s[|s| - |d| - 1])
  {
    if s != [] && IsDigit(s[|s| - 1]) then
      var d := TrailingDigits(s[..|s| - 1]);
      assert (s[..|s| - 1])[|s| - 1 - |d|..] == s[|s| - 1 - |d|..|s| - 1];
      d + [s[|s| - 1]]
    else []
  }
}
