/** The few JavaScript string operations the modelled code relies on, written
    out with the semantics the ECMAScript standard gives them. */
module Text {
  import opened Wrappers

  /** The characters matched by the regular-expression class `\s` and removed by
      `String.prototype.trim` (white space and line terminators). */
  predicate IsJsSpace(c: char) {
    || c == ' ' || c == '\t' || c == '\n' || c == '\r' || c == '\U{000B}' || c == '\U{000C}'
    || c == '\U{00A0}' || c == '\U{1680}' || ('\U{2000}' <= c <= '\U{200A}')
    || c == '\U{2028}' || c == '\U{2029}' || c == '\U{202F}' || c == '\U{205F}'
    || c == '\U{3000}' || c == '\U{FEFF}'
  }

  /** Drops the leading white space of `s`. */
  function TrimStart(s: string): (r: string)
    ensures |r| <= |s|
  {
    if s != [] && IsJsSpace(s[0]) then TrimStart(s[1..]) else s
  }

  /** Drops the trailing white space of `s`. */
  function TrimEnd(s: string): (r: string)
    ensures |r| <= |s|
  {
    if s != [] && IsJsSpace(s[|s| - 1]) then TrimEnd(s[..|s| - 1]) else s
  }

  /** `TrimStart` removes exactly the leading white space. */
  lemma {:induction false} TrimStartRemovesLeadingSpace(s: string)
    ensures var r := TrimStart(s);
      && r == s[|s| - |r|..]
      && (forall i :: 0 <= i < |s| - |r| ==> IsJsSpace(s[i]))
      && (r == [] || !IsJsSpace(r[0]))
    decreases |s|
  {
    if s != [] && IsJsSpace(s[0]) {
      TrimStartRemovesLeadingSpace(s[1..]);
    }
  }

  /** `TrimEnd` removes exactly the trailing white space. */
  lemma {:induction false} TrimEndRemovesTrailingSpace(s: string)
    ensures var r := TrimEnd(s);
      && r == s[..|r|]
      && (forall i :: |r| <= i < |s| ==> IsJsSpace(s[i]))
      && (r == [] || !IsJsSpace(r[|r| - 1]))
    decreases |s|
  {
    if s != [] && IsJsSpace(s[|s| - 1]) {
      TrimEndRemovesTrailingSpace(s[..|s| - 1]);
    }
  }

  /** `s.trim()`. */
  function Trim(s: string): string {
    TrimEnd(TrimStart(s))
  }

  /** The lower case of an ASCII letter; every other character is kept. */
  function LowerChar(c: char): char {
    if 'A' <= c <= 'Z' then (c as int + 32) as char else c
  }

  /** `s.toLowerCase()`, restricted to ASCII letters. */
  function ToLower(s: string): (r: string)
    ensures |r| == |s|
  {
    seq(|s|, i requires 0 <= i < |s| => LowerChar(s[i]))
  }

  /** `s.startsWith(p)`. */
  predicate StartsWith(s: string, p: string) {
    |p| <= |s| && s[..|p|] == p
  }

  /** `s.includes(p)`: `p` occurs somewhere in `s`. */
  predicate Contains(s: string, p: string)
    decreases |s|
  {
    StartsWith(s, p) || (s != [] && Contains(s[1..], p))
  }

  /** An occurrence of `p` needs at least `|p|` characters. */
  lemma {:induction false} ContainsLength(s: string, p: string)
    requires Contains(s, p)
    ensures |p| <= |s|
    decreases |s|
  {
    if !StartsWith(s, p) {
      ContainsLength(s[1..], p);
    }
  }

  /** Text stays findable when more characters are written around it. */
  lemma {:induction false} ContainsWithin(a: string, p: string, b: string)
    ensures Contains(a + p + b, p)
    decreases |a|
  {
    if a == [] {
      assert (a + p + b)[..|p|] == p;
    } else {
      assert (a + p + b)[1..] == a[1..] + p + b;
      ContainsWithin(a[1..], p, b);
    }
  }

  /** `s.padStart(width, c)` for a one-character pad string. */
  function PadStart(s: string, width: nat, c: char): (r: string)
    ensures |r| == if |s| >= width then |s| else width
  {
    if |s| >= width then s else seq(width - |s|, _ => c) + s
  }

  /** The padded text is the pad character repeated, then the original text. */
  lemma PadStartParts(s: string, width: nat, c: char)
    ensures var r := PadStart(s, width, c);
      && r[|r| - |s|..] == s
      && (forall i :: 0 <= i < |r| - |s| ==> r[i] == c)
  {
  }

  function DigitChar(d: nat): char
    requires d < 10
  {
    ('0' as int + d) as char
  }

  predicate IsDigit(c: char) {
    '0' <= c <= '9'
  }

  function DigitValue(c: char): nat
    requires IsDigit(c)
  {
    c as int - '0' as int
  }

  /** `String(n)` for a non-negative integer: its shortest decimal spelling. */
  function NatToString(n: nat): (r: string)
    ensures 1 <= |r|
    ensures forall i :: 0 <= i < |r| ==> IsDigit(r[i])
    ensures r[0] == '0' ==> n == 0
    decreases n
  {
    if n < 10 then [DigitChar(n)] else NatToString(n / 10) + [DigitChar(n % 10)]
  }

  /** `String(i)` for any integer. */
  function IntToString(i: int): string {
    if i < 0 then "-" + NatToString(-i) else NatToString(i)
  }

  /** The value of a run of decimal digits, most significant first. */
  function DigitsValue(d: string): nat
    requires forall i :: 0 <= i < |d| ==> IsDigit(d[i])
  {
    if d == [] then 0 else DigitsValue(d[..|d| - 1]) * 10 + DigitValue(d[|d| - 1])
  }

  /** The longest prefix of `s` made of decimal digits. */
  function LeadingDigits(s: string): (r: string)
    ensures |r| <= |s| && r == s[..|r|]
    ensures forall i :: 0 <= i < |r| ==> IsDigit(r[i])
    ensures |r| < |s| ==> !IsDigit(s[|r|])
  {
    if s != [] && IsDigit(s[0]) then [s[0]] + LeadingDigits(s[1..]) else []
  }

  /** `parseInt(s, 10)`: leading white space is skipped, then one optional sign,
      then as many decimal digits as there are; no digit at all gives `NaN`
      (here `None`). `-0` and `0` are both `Some(0)`. */
  function ParseInt10(s: string): (r: Option<int>)
  {
    var t := TrimStart(s);
    var negative := t != [] && t[0] == '-';
    var u := if t != [] && (t[0] == '-' || t[0] == '+') then t[1..] else t;
    var z := LeadingDigits(u);
    var v: int := DigitsValue(z);
    if z == [] then None
    else if negative then Some(-v)
    else Some(v)
  }

  lemma {:induction false} DigitsValueOfNatToString(n: nat)
    ensures DigitsValue(NatToString(n)) == n
    decreases n
  {
    if n >= 10 {
      var s := NatToString(n / 10) + [DigitChar(n % 10)];
      assert s[..|s| - 1] == NatToString(n / 10);
      DigitsValueOfNatToString(n / 10);
    }
  }

  lemma {:induction false} DigitsValueLeadingZeros(z: string, d: string)
    requires forall i :: 0 <= i < |z| ==> z[i] == '0'
    requires forall i :: 0 <= i < |d| ==> IsDigit(d[i])
    ensures DigitsValue(z + d) == DigitsValue(d)
    decreases |d|
  {
    if d == [] {
      assert z + d == z;
      AllZerosValue(z);
    } else {
      var d' := d[..|d| - 1];
      assert (z + d)[..|z + d| - 1] == z + d';
      DigitsValueLeadingZeros(z, d');
    }
  }

  lemma {:induction false} AllZerosValue(z: string)
    requires forall i :: 0 <= i < |z| ==> z[i] == '0'
    ensures DigitsValue(z) == 0
    decreases |z|
  {
    if z != [] {
      AllZerosValue(z[..|z| - 1]);
    }
  }

  lemma {:induction false} AllDigitsAreLeading(d: string, rest: string)
    requires forall i :: 0 <= i < |d| ==> IsDigit(d[i])
    requires rest == [] || !IsDigit(rest[0])
    ensures LeadingDigits(d + rest) == d
    decreases |d|
  {
    if d != [] {
      assert (d + rest)[1..] == d[1..] + rest;
      AllDigitsAreLeading(d[1..], rest);
    } else {
      assert d + rest == rest;
    }
  }

  /** A run of digits followed by a non-digit parses to the run's value. */
  lemma ParseDigits(d: string, rest: string)
    requires d != [] && forall i :: 0 <= i < |d| ==> IsDigit(d[i])
    requires rest == [] || !IsDigit(rest[0])
    ensures ParseInt10(d + rest) == Some(DigitsValue(d))
  {
    var s := d + rest;
    assert s[0] == d[0];
    assert IsDigit(s[0]);
    assert TrimStart(s) == s by {
      assert !IsJsSpace(s[0]);
    }
    assert s[0] != '-' && s[0] != '+';
    AllDigitsAreLeading(d, rest);
    assert LeadingDigits(s) == d;
  }

  /** A decimal spelling padded with zeros is all digits. */
  lemma PaddedDecimalDigits(n: nat, width: nat)
    ensures forall i :: 0 <= i < |PadStart(NatToString(n), width, '0')| ==> IsDigit(PadStart(NatToString(n), width, '0')[i])
  {
    var d := NatToString(n);
    var p := PadStart(d, width, '0');
    PadStartParts(d, width, '0');
    forall i | 0 <= i < |p| ensures IsDigit(p[i]) {
      if i >= |p| - |d| { assert p[i] == p[|p| - |d|..][i - (|p| - |d|)]; }
    }
  }

  /** Reading back a decimal spelling, possibly padded on the left with zeros
      and followed by a non-digit, gives the number again. */
  lemma ParsePaddedDecimal(n: nat, width: nat, rest: string)
    requires rest == [] || !IsDigit(rest[0])
    ensures ParseInt10(PadStart(NatToString(n), width, '0') + rest) == Some(n)
  {
    var d := NatToString(n);
    var p := PadStart(d, width, '0');
    var z := p[..|p| - |d|];
    PadStartParts(d, width, '0');
    assert p == z + d;
    PaddedDecimalDigits(n, width);
    ParseDigits(p, rest);
    DigitsValueLeadingZeros(z, d);
    DigitsValueOfNatToString(n);
  }

  /** `parseInt(String(i), 10) == i`. */
  lemma ParseIntToString(i: int)
    ensures ParseInt10(IntToString(i)) == Some(i)
  {
    if i >= 0 {
      ParsePaddedDecimal(i, 0, []);
      assert PadStart(NatToString(i), 0, '0') + [] == IntToString(i);
    } else {
      var d := NatToString(-i);
      var s := "-" + d;
      assert !IsJsSpace(s[0]);
      assert TrimStart(s) == s;
      assert s[1..] == d;
      AllDigitsAreLeading(d, []);
      assert d + [] == d;
      DigitsValueOfNatToString(-i);
    }
  }

  /** `Array.prototype.slice(start, end)` with its clamping of out-of-range
      and negative positions. */
  function JsSlice<T>(s: seq<T>, start: int, end: int): (r: seq<T>)
    ensures |r| <= |s|
  {
    var n := |s|;
    var from := if start < 0 then (if n + start < 0 then 0 else n + start) else (if start > n then n else start);
    var to := if end < 0 then (if n + end < 0 then 0 else n + end) else (if end > n then n else end);
    if from >= to then [] else s[from..to]
  }

  /** `Array.prototype.slice(start)`: everything from `start` on. */
  function SliceFrom<T>(s: seq<T>, start: int): (r: seq<T>)
    ensures 0 <= start <= |s| ==> r == s[start..]
    ensures start >= |s| ==> r == []
  {
    JsSlice(s, start, |s|)
  }

  /** `s.split(sep)` for a one-character separator. */
  function SplitOn(s: string, sep: char): (r: seq<string>)
    ensures |r| >= 1
  {
    if s == [] then [""]
    else if s[0] == sep then [""] + SplitOn(s[1..], sep)
    else var rest := SplitOn(s[1..], sep); [[s[0]] + rest[0]] + rest[1..]
  }

  /** `s.split(/\s+/)`: every maximal run of white space separates two pieces. */
  function SplitOnSpaceRuns(s: string): (r: seq<string>)
    ensures |r| >= 1
    decreases |s|
  {
    if s == [] then [""]
    else if IsJsSpace(s[0]) then [""] + SplitOnSpaceRuns(TrimStart(s[1..]))
    else var rest := SplitOnSpaceRuns(s[1..]); [[s[0]] + rest[0]] + rest[1..]
  }

  /** `words.join(sep)`. */
  function Join(words: seq<string>, sep: string): string {
    if words == [] then ""
    else if |words| == 1 then words[0]
    else words[0] + sep + Join(words[1..], sep)
  }

  /** Splitting at a character and joining with it again gives the text back. */
  lemma {:induction false} JoinSplitOn(s: string, sep: char)
    ensures Join(SplitOn(s, sep), [sep]) == s
    ensures forall k :: 0 <= k < |SplitOn(s, sep)| ==> sep !in SplitOn(s, sep)[k]
    decreases |s|
  {
    if s != [] {
      var rest := SplitOn(s[1..], sep);
      JoinSplitOn(s[1..], sep);
      if s[0] == sep {
        assert SplitOn(s, sep) == [""] + rest;
        if |rest| == 1 {
          assert Join([""] + rest, [sep]) == "" + [sep] + rest[0];
        } else {
          assert ([""] + rest)[1..] == rest;
        }
      } else {
        var r := SplitOn(s, sep);
        assert r == [[s[0]] + rest[0]] + rest[1..];
        if |rest| == 1 {
          assert Join(r, [sep]) == [s[0]] + rest[0];
        } else {
          assert r[1..] == rest[1..];
          assert Join(rest, [sep]) == rest[0] + [sep] + Join(rest[1..], [sep]);
        }
        assert s == [s[0]] + s[1..];
      }
    }
  }

  /** The piece after the last `/`, as `s.split('/').pop()` gives it. */
  function LastSegment(s: string): (r: string)
    ensures '/' !in r
    ensures |r| <= |s|
    ensures r == s[|s| - |r|..]
    ensures |r| < |s| ==> s[|s| - |r| - 1] == '/'
  {
    if s == [] then []
    else if s[|s| - 1] == '/' then []
    else LastSegment(s[..|s| - 1]) + [s[|s| - 1]]
  }

  /** A character other than `/` appended to a path extends its last segment. */
  lemma LastSegmentSnoc(p: string, c: char)
    requires c != '/'
    ensures LastSegment(p + [c]) == LastSegment(p) + [c]
  {
    var u := p + [c];
    assert u[..|u| - 1] == p;
  }

  /** Text without a `/` appended to a path extends its last segment. */
  lemma {:induction false} LastSegmentAppend(s: string, t: string)
    requires '/' !in t
    ensures LastSegment(s + t) == LastSegment(s) + t
    decreases |t|
  {
    if t == [] {
      assert s + t == s;
    } else {
      var t', c := t[..|t| - 1], t[|t| - 1];
      assert t == t' + [c];
      assert s + t == (s + t') + [c];
      LastSegmentAppend(s, t');
      LastSegmentSnoc(s + t', c);
    }
  }

  /** After a `/`, a piece without one is what `pop` returns. */
  lemma LastSegmentAfterSlash(a: string, x: string)
    requires a != [] && a[|a| - 1] == '/'
    requires '/' !in x
    ensures LastSegment(a + x) == x
  {
    var s := a + x;
    var r := LastSegment(s);
    assert (a + x)[|a| - 1] == '/';
    assert forall i :: |a| <= i < |s| ==> s[i] == x[i - |a|];
    assert |r| == |x|;
    assert r == s[|s| - |r|..];
  }

  /** `s.replace(pat, value)` with a string pattern: only the first occurrence
      of `pat` is replaced, and a text without one is returned unchanged. */
  function ReplaceFirst(s: string, pat: string, value: string): string
    decreases |s|
  {
    if StartsWith(s, pat) then value + s[|pat|..]
    else if s == [] then []
    else [s[0]] + ReplaceFirst(s[1..], pat, value)
  }

  /** When the text before the pattern cannot start it, the pattern's
      placeholder is exactly what gets replaced. */
  lemma {:induction false} ReplaceFirstAt(a: string, pat: string, b: string, value: string)
    requires pat != [] && pat[0] !in a
    ensures ReplaceFirst(a + pat + b, pat, value) == a + value + b
    decreases |a|
  {
    var s := a + pat + b;
    if a == [] {
      assert s == pat + b;
      assert s[..|pat|] == pat;
      assert s[|pat|..] == b;
    } else {
      assert s[0] == a[0] != pat[0];
      assert s[1..] == a[1..] + pat + b;
      ReplaceFirstAt(a[1..], pat, b, value);
    }
  }
}
