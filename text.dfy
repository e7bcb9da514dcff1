/** String and collection helpers that stand for the Python built-ins the
    modelled code relies on: str.strip/lstrip/rstrip, str.lower/upper,
    str.split, str.join, str.find/rfind, str.splitlines, int() and the
    code-point order Python uses to compare strings. */
module Text {

  datatype Option<+T> = None | Some(value: T)

  datatype Result<+T, +E> = Ok(value: T) | Err(error: E)

  newtype byte = x: int | 0 <= x < 256

  type Bytes = seq<byte>

  /** The characters for which Python's str.isspace() holds; `re`'s `\s`
      matches the same set on str patterns. */
  predicate IsSpace(c: char) {
    ('\t' <= c <= '\r') || ('\U{1c}' <= c <= ' ') || c == '\U{85}' || c == '\U{a0}'
    || c == '\U{1680}' || ('\U{2000}' <= c <= '\U{200a}') || c == '\U{2028}'
    || c == '\U{2029}' || c == '\U{202f}' || c == '\U{205f}' || c == '\U{3000}'
  }

  predicate IsBlank(s: string) {
    forall i :: 0 <= i < |s| ==> IsSpace(s[i])
  }

  predicate HasSpace(s: string) {
    exists i :: 0 <= i < |s| && IsSpace(s[i])
  }

  predicate IsDigit(c: char) {
    '0' <= c <= '9'
  }

  function DigitValue(c: char): (d: nat)
    requires IsDigit(c)
    ensures d < 10
  {
    c as int - '0' as int
  }

  function DigitChar(d: nat): (c: char)
    requires d < 10
    ensures IsDigit(c) && DigitValue(c) == d
  {
    ('0' as int + d) as char
  }

  /** str.lower() on the ASCII letters; other characters are kept. */
  function LowerChar(c: char): (r: char)
    ensures IsSpace(r) <==> IsSpace(c)
  {
    if 'A' <= c <= 'Z' then (c as int + 32) as char else c
  }

  function UpperChar(c: char): (r: char)
    ensures IsSpace(r) <==> IsSpace(c)
  {
    if 'a' <= c <= 'z' then (c as int - 32) as char else c
  }

  function Lower(s: string): (r: string)
    ensures |r| == |s|
    ensures forall i :: 0 <= i < |s| ==> r[i] == LowerChar(s[i])
  {
    seq(|s|, i requires 0 <= i < |s| => LowerChar(s[i]))
  }

  function Upper(s: string): (r: string)
    ensures |r| == |s|
    ensures forall i :: 0 <= i < |s| ==> r[i] == UpperChar(s[i])
  {
    seq(|s|, i requires 0 <= i < |s| => UpperChar(s[i]))
  }

  /** Lower-casing ignores the case the text was written in. */
  lemma LowerOfUpper(s: string)
    ensures Lower(Upper(s)) == Lower(s)
  {
    assert forall i :: 0 <= i < |s| ==> LowerChar(UpperChar(s[i])) == LowerChar(s[i]);
  }

  lemma LowerIdempotent(s: string)
    ensures Lower(Lower(s)) == Lower(s)
  {
    assert forall i :: 0 <= i < |s| ==> LowerChar(LowerChar(s[i])) == LowerChar(s[i]);
  }

  lemma UpperIdempotent(s: string)
    ensures Upper(Upper(s)) == Upper(s)
  {
    assert forall i :: 0 <= i < |s| ==> UpperChar(UpperChar(s[i])) == UpperChar(s[i]);
  }

  /** s.lstrip(chars) for the characters satisfying `drop`. */
  function LStripBy(s: string, drop: char -> bool): (r: string)
    ensures |r| <= |s|
  {
    if |s| > 0 && drop(s[0]) then LStripBy(s[1..], drop) else s
  }

  /** What lstrip drops is a prefix of dropped characters, and what it
      keeps does not start with one. */
  lemma {:induction false} LStripByFacts(s: string, drop: char -> bool)
    ensures LStripBy(s, drop) == s[|s| - |LStripBy(s, drop)|..]
    ensures LStripBy(s, drop) == [] || !drop(LStripBy(s, drop)[0])
    ensures forall i :: 0 <= i < |s| - |LStripBy(s, drop)| ==> drop(s[i])
  {
    if |s| > 0 && drop(s[0]) {
      LStripByFacts(s[1..], drop);
      assert forall i :: 1 <= i < |s| ==> s[1..][i - 1] == s[i];
    }
  }

  /** A run of m dropped characters followed by a kept one (or the end) is
      exactly what lstrip removes. */
  lemma {:induction false} LStripByIs(s: string, drop: char -> bool, m: nat)
    requires m <= |s| && (forall i :: 0 <= i < m ==> drop(s[i]))
    requires m < |s| ==> !drop(s[m])
    ensures LStripBy(s, drop) == s[m..]
  {
    if m > 0 {
      assert forall i :: 0 <= i < m - 1 ==> s[1..][i] == s[i + 1];
      LStripByIs(s[1..], drop, m - 1);
      assert s[1..][m - 1..] == s[m..];
    }
  }

  /** s.rstrip(chars) for the characters satisfying `drop`. */
  function RStripBy(s: string, drop: char -> bool): (r: string)
    ensures |r| <= |s|
  {
    if |s| > 0 && drop(s[|s| - 1]) then RStripBy(s[..|s| - 1], drop) else s
  }

  /** What rstrip drops is a suffix of dropped characters, and what it
      keeps does not end with one. */
  lemma {:induction false} RStripByFacts(s: string, drop: char -> bool)
    ensures RStripBy(s, drop) == s[..|RStripBy(s, drop)|]
    ensures RStripBy(s, drop) == [] || !drop(RStripBy(s, drop)[|RStripBy(s, drop)| - 1])
    ensures forall i :: |RStripBy(s, drop)| <= i < |s| ==> drop(s[i])
  {
    if |s| > 0 && drop(s[|s| - 1]) {
      RStripByFacts(s[..|s| - 1], drop);
    }
  }

  function LStrip(s: string): (r: string)
    ensures |r| <= |s|
  {
    LStripBy(s, IsSpace)
  }

  function RStrip(s: string): (r: string)
    ensures |r| <= |s|
  {
    RStripBy(s, IsSpace)
  }

  /** str.strip(): leading and trailing whitespace removed. */
  function Strip(s: string): (r: string)
    ensures |r| <= |s|
  {
    if |s| > 0 && IsSpace(s[0]) then Strip(s[1..])
    else if |s| > 0 && IsSpace(s[|s| - 1]) then Strip(s[..|s| - 1])
    else s
  }

  /** The stripped text has no whitespace at either end, and is empty
      exactly when the text is blank. */
  lemma {:induction false} StripFacts(s: string)
    ensures Strip(s) == [] || (!IsSpace(Strip(s)[0]) && !IsSpace(Strip(s)[|Strip(s)| - 1]))
    ensures Strip(s) == [] <==> IsBlank(s)
  {
    if |s| > 0 && IsSpace(s[0]) {
      StripFacts(s[1..]);
      assert IsBlank(s) <==> IsBlank(s[1..]) by {
        assert forall i :: 1 <= i < |s| ==> s[1..][i - 1] == s[i];
      }
    } else if |s| > 0 && IsSpace(s[|s| - 1]) {
      StripFacts(s[..|s| - 1]);
      assert IsBlank(s) <==> IsBlank(s[..|s| - 1]) by {
        assert forall i :: 0 <= i < |s| - 1 ==> s[..|s| - 1][i] == s[i];
      }
    }
  }

  lemma StripOfStripped(s: string)
    requires s == [] || (!IsSpace(s[0]) && !IsSpace(s[|s| - 1]))
    ensures Strip(s) == s
  {
  }

  /** Stripping only removes characters. */
  lemma {:induction false} StripSubset(s: string)
    ensures forall c :: c in Strip(s) ==> c in s
  {
    if |s| > 0 && IsSpace(s[0]) {
      StripSubset(s[1..]);
    } else if |s| > 0 && IsSpace(s[|s| - 1]) {
      StripSubset(s[..|s| - 1]);
    }
  }

  /** Stripping twice strips once. */
  lemma StripIdempotent(s: string)
    ensures Strip(Strip(s)) == Strip(s)
  {
    StripFacts(s);
    StripOfStripped(Strip(s));
  }

  /** The stripped parts that are not blank, in order. */
  function StrippedNonBlank(parts: seq<string>): (r: seq<string>)
    ensures |r| <= |parts|
    ensures forall k :: 0 <= k < |r| ==> r[k] != "" && Strip(r[k]) == r[k]
    ensures forall k, c :: 0 <= k < |r| && c in r[k] ==> exists j :: 0 <= j < |parts| && c in parts[j]
  {
    if |parts| == 0 then []
    else
      var rest := StrippedNonBlank(parts[1..]);
      var o := Strip(parts[0]);
      StripIdempotent(parts[0]);
      StripSubset(parts[0]);
      assert forall k, c :: 0 <= k < |rest| && c in rest[k] ==> exists j :: 0 <= j < |parts| && c in parts[j] by {
        forall k, c | 0 <= k < |rest| && c in rest[k] ensures exists j :: 0 <= j < |parts| && c in parts[j] {
          var j :| 0 <= j < |parts[1..]| && c in parts[1..][j];
          assert c in parts[j + 1];
        }
      }
      if o == "" then rest else [o] + rest
  }

  /** Parts already clean pass through unchanged. */
  lemma {:induction false} StrippedNonBlankOfClean(parts: seq<string>)
    requires forall k :: 0 <= k < |parts| ==> parts[k] != "" && Strip(parts[k]) == parts[k]
    ensures StrippedNonBlank(parts) == parts
  {
    if |parts| > 0 {
      StrippedNonBlankOfClean(parts[1..]);
    }
  }

  predicate StartsWith(s: string, p: string) {
    |p| <= |s| && s[..|p|] == p
  }

  predicate EndsWith(s: string, p: string) {
    |p| <= |s| && s[|s| - |p|..] == p
  }

  predicate OccursAt(s: string, sub: string, i: nat) {
    i + |sub| <= |s| && s[i..i + |sub|] == sub
  }

  function FindFrom(s: string, sub: string, i: nat): (r: Option<nat>)
    requires i <= |s|
    ensures r.Some? ==> i <= r.value && OccursAt(s, sub, r.value)
    ensures r.Some? ==> forall j :: i <= j < r.value ==> !OccursAt(s, sub, j)
    ensures r.None? ==> forall j :: i <= j <= |s| ==> !OccursAt(s, sub, j)
    decreases |s| - i
  {
    if OccursAt(s, sub, i) then Some(i)
    else if i == |s| then None
    else FindFrom(s, sub, i + 1)
  }

  /** str.find: the first position where `sub` occurs. */
  function Find(s: string, sub: string): (r: Option<nat>)
    ensures r.Some? ==> OccursAt(s, sub, r.value)
    ensures r.Some? ==> forall j :: 0 <= j < r.value ==> !OccursAt(s, sub, j)
    ensures r.None? ==> forall j :: 0 <= j <= |s| ==> !OccursAt(s, sub, j)
  {
    FindFrom(s, sub, 0)
  }

  function RFindUpTo(s: string, sub: string, i: nat): (r: Option<nat>)
    requires i <= |s|
    ensures r.Some? ==> r.value <= i && OccursAt(s, sub, r.value)
    ensures r.Some? ==> forall j :: r.value < j <= i ==> !OccursAt(s, sub, j)
    ensures r.None? ==> forall j :: 0 <= j <= i ==> !OccursAt(s, sub, j)
  {
    if OccursAt(s, sub, i) then Some(i)
    else if i == 0 then None
    else RFindUpTo(s, sub, i - 1)
  }

  /** str.rfind: the last position where `sub` occurs. */
  function RFind(s: string, sub: string): (r: Option<nat>)
    ensures r.Some? ==> OccursAt(s, sub, r.value)
    ensures r.Some? ==> forall j :: r.value < j <= |s| ==> !OccursAt(s, sub, j)
    ensures r.None? ==> forall j :: 0 <= j <= |s| ==> !OccursAt(s, sub, j)
  {
    RFindUpTo(s, sub, |s|)
  }

  /** `sub` occurs in s at position i or later. */
  predicate ContainsFrom(s: string, sub: string, i: nat)
    decreases |s| - i
  {
    i + |sub| <= |s| && (OccursAt(s, sub, i) || ContainsFrom(s, sub, i + 1))
  }

  /** Python's `sub in s` on strings. */
  predicate Contains(s: string, sub: string) {
    ContainsFrom(s, sub, 0)
  }

  lemma {:induction false} ContainsFromIff(s: string, sub: string, i: nat)
    ensures ContainsFrom(s, sub, i) <==> exists j :: i <= j <= |s| && OccursAt(s, sub, j)
    decreases |s| - i
  {
    if i + |sub| <= |s| {
      ContainsFromIff(s, sub, i + 1);
      if !OccursAt(s, sub, i) && !ContainsFrom(s, sub, i + 1) {
        forall j | i <= j <= |s| ensures !OccursAt(s, sub, j) {
          if j == i {
          } else {
            assert i + 1 <= j;
          }
        }
      }
    }
  }

  /** `sub in s` holds exactly when `sub` occurs at some position, that is
      when str.find finds it. */
  lemma ContainsIff(s: string, sub: string)
    ensures Contains(s, sub) <==> exists j :: 0 <= j <= |s| && OccursAt(s, sub, j)
    ensures Contains(s, sub) <==> Find(s, sub).Some?
  {
    ContainsFromIff(s, sub, 0);
    if Find(s, sub).Some? {
      assert OccursAt(s, sub, Find(s, sub).value);
    }
  }

  lemma ContainsAt(s: string, sub: string, i: nat)
    requires OccursAt(s, sub, i)
    ensures Contains(s, sub)
  {
    ContainsIff(s, sub);
  }

  /** sep.join(parts). */
  function Join(parts: seq<string>, sep: string): string
  {
    if |parts| == 0 then ""
    else if |parts| == 1 then parts[0]
    else parts[0] + sep + Join(parts[1..], sep)
  }

  lemma JoinEmpty(parts: seq<string>, sep: string)
    requires Join(parts, sep) == [] && |sep| > 0
    ensures |parts| == 0 || (|parts| == 1 && parts[0] == [])
  {
  }

  lemma JoinAppend(parts: seq<string>, x: string, sep: string)
    requires |parts| > 0
    ensures Join(parts + [x], sep) == Join(parts, sep) + sep + x
  {
    if |parts| > 1 {
      assert (parts + [x])[1..] == parts[1..] + [x];
      JoinAppend(parts[1..], x, sep);
    }
  }

  function IndexOfChar(s: string, c: char): (r: nat)
    requires c in s
    ensures r < |s| && s[r] == c && c !in s[..r]
  {
    if s[0] == c then 0 else 1 + IndexOfChar(s[1..], c)
  }

  lemma {:induction false} IndexOfCharAt(s: string, c: char, k: nat)
    requires k < |s| && s[k] == c && c !in s[..k]
    ensures IndexOfChar(s, c) == k
  {
    if k > 0 {
      assert s[0] == s[..k][0];
      assert s[1..][..k - 1] == s[..k][1..];
      IndexOfCharAt(s[1..], c, k - 1);
    }
  }

  /** s.split(sep) for a one-character separator: always at least one part. */
  function Split(s: string, sep: char): (r: seq<string>)
    ensures |r| >= 1
    ensures forall k :: 0 <= k < |r| ==> sep !in r[k]
    decreases |s|
  {
    if sep !in s then [s]
    else
      var i := IndexOfChar(s, sep);
      [s[..i]] + Split(s[i + 1..], sep)
  }

  /** Joining the parts with the separator gives the string back. */
  lemma {:induction false} JoinSplit(s: string, sep: char)
    ensures Join(Split(s, sep), [sep]) == s
    decreases |s|
  {
    if sep in s {
      var i := IndexOfChar(s, sep);
      JoinSplit(s[i + 1..], sep);
      assert s == s[..i] + [sep] + s[i + 1..];
    }
  }

  /** Splitting what was joined gives the parts back when none holds the separator. */
  lemma {:induction false} SplitJoin(parts: seq<string>, sep: char)
    requires |parts| >= 1
    requires forall k :: 0 <= k < |parts| ==> sep !in parts[k]
    ensures Split(Join(parts, [sep]), sep) == parts
  {
    if |parts| == 1 {
    } else {
      var s := Join(parts, [sep]);
      assert s == parts[0] + [sep] + Join(parts[1..], [sep]);
      assert sep in s by { assert s[|parts[0]|] == sep; }
      var i := IndexOfChar(s, sep);
      assert s[..|parts[0]|] == parts[0];
      IndexOfCharAt(s, sep, |parts[0]|);
      assert s[..i] == parts[0];
      assert s[i + 1..] == Join(parts[1..], [sep]);
      SplitJoin(parts[1..], sep);
    }
  }

  /** s.split(sep, 1) for a one-character separator. */
  function SplitOnce(s: string, sep: char): (r: Option<(string, string)>)
    ensures r.None? <==> sep !in s
    ensures r.Some? ==> sep !in r.value.0 && s == r.value.0 + [sep] + r.value.1
  {
    if sep !in s then None
    else
      var i := IndexOfChar(s, sep);
      assert s == s[..i] + [sep] + s[i + 1..];
      Some((s[..i], s[i + 1..]))
  }

  function NonSpacePrefix(s: string): (n: nat)
    ensures n <= |s|
    ensures forall i :: 0 <= i < n ==> !IsSpace(s[i])
    ensures n == |s| || IsSpace(s[n])
  {
    if |s| == 0 || IsSpace(s[0]) then 0 else 1 + NonSpacePrefix(s[1..])
  }

  /** s.split() with no argument: the maximal runs of non-whitespace. */
  function Words(s: string): (r: seq<string>)
    ensures forall k :: 0 <= k < |r| ==> |r[k]| > 0 && !HasSpace(r[k])
    decreases |s|
  {
    if |s| == 0 then []
    else if IsSpace(s[0]) then Words(s[1..])
    else
      var n := NonSpacePrefix(s);
      [s[..n]] + Words(s[n..])
  }

  /** s.split() is empty exactly when s is blank. */
  lemma {:induction false} WordsEmptyIff(s: string)
    ensures Words(s) == [] <==> IsBlank(s)
    decreases |s|
  {
    if |s| > 0 && IsSpace(s[0]) {
      WordsEmptyIff(s[1..]);
      assert IsBlank(s) <==> IsBlank(s[1..]) by {
        assert forall i :: 1 <= i < |s| ==> s[1..][i - 1] == s[i];
      }
    }
  }

  /** The characters at which str.splitlines() breaks a line. */
  predicate IsLineBreak(c: char) {
    c == '\n' || c == '\r' || c == '\U{b}' || c == '\U{c}' || c == '\U{1c}' || c == '\U{1d}'
    || c == '\U{1e}' || c == '\U{85}' || c == '\U{2028}' || c == '\U{2029}'
  }

  function LineLength(s: string): (n: nat)
    ensures n <= |s|
    ensures forall i :: 0 <= i < n ==> !IsLineBreak(s[i])
    ensures n == |s| || IsLineBreak(s[n])
  {
    if |s| == 0 || IsLineBreak(s[0]) then 0 else 1 + LineLength(s[1..])
  }

  /** str.splitlines(): "\r\n" counts as one break and a final break adds no empty line. */
  function SplitLines(s: string): (r: seq<string>)
    ensures forall k :: 0 <= k < |r| ==> forall i :: 0 <= i < |r[k]| ==> !IsLineBreak(r[k][i])
    decreases |s|
  {
    if s == [] then []
    else
      var n := LineLength(s);
      if n == |s| then [s]
      else
        var skip := if s[n] == '\r' && n + 1 < |s| && s[n + 1] == '\n' then 2 else 1;
        [s[..n]] + SplitLines(s[n + skip..])
  }

  function DigitsValue(ds: string): nat
    requires forall i :: 0 <= i < |ds| ==> IsDigit(ds[i])
  {
    if ds == [] then 0 else 10 * DigitsValue(ds[..|ds| - 1]) + DigitValue(ds[|ds| - 1])
  }

  predicate AllDigits(s: string) {
    forall i :: 0 <= i < |s| ==> IsDigit(s[i])
  }

  /** The decimal digits of n, without leading zeros. */
  function NatToString(n: nat): (r: string)
    ensures |r| > 0
  {
    if n < 10 then [DigitChar(n)] else NatToString(n / 10) + [DigitChar(n % 10)]
  }

  /** The digits read back as n. */
  lemma {:induction false} NatToStringValue(n: nat)
    ensures AllDigits(NatToString(n)) && DigitsValue(NatToString(n)) == n
  {
    if n >= 10 {
      NatToStringValue(n / 10);
      var r := NatToString(n);
      assert r[..|r| - 1] == NatToString(n / 10);
    }
  }

  lemma DigitsValueZeros(k: nat, ds: string)
    requires AllDigits(ds)
    ensures AllDigits(Zeros(k) + ds) && DigitsValue(Zeros(k) + ds) == DigitsValue(ds)
    decreases |ds|
  {
    var z := Zeros(k) + ds;
    if ds == [] {
      assert z == Zeros(k);
      ZerosValue(k);
    } else {
      assert z[..|z| - 1] == Zeros(k) + ds[..|ds| - 1];
      DigitsValueZeros(k, ds[..|ds| - 1]);
    }
  }

  function Zeros(k: nat): (r: string)
    ensures |r| == k && AllDigits(r)
  {
    if k == 0 then "" else "0" + Zeros(k - 1)
  }

  lemma ZerosValue(k: nat)
    ensures DigitsValue(Zeros(k)) == 0
  {
    if k > 0 {
      assert Zeros(k)[..k - 1] == Zeros(k - 1) by {
        ZerosShift(k);
      }
      ZerosValue(k - 1);
    }
  }

  lemma ZerosShift(k: nat)
    requires k > 0
    ensures Zeros(k) == Zeros(k - 1) + "0"
  {
    if k > 1 { ZerosShift(k - 1); }
  }

  /** Python's "%0<width>d" formatting of a natural number. */
  function ZeroPad(n: nat, width: nat): (r: string)
    ensures |r| >= width
  {
    var d := NatToString(n);
    if |d| >= width then d else Zeros(width - |d|) + d
  }

  /** The padded digits still read as n. */
  lemma ZeroPadValue(n: nat, width: nat)
    ensures AllDigits(ZeroPad(n, width)) && DigitsValue(ZeroPad(n, width)) == n
  {
    var d := NatToString(n);
    NatToStringValue(n);
    if |d| < width {
      DigitsValueZeros(width - |d|, d);
    }
  }

  /** int(s) for a decimal integer literal: optional surrounding whitespace and sign.
      Digit-group underscores are not accepted here. */
  function ParseInt(s: string): (r: Option<int>)
  {
    var t := Strip(s);
    if |t| > 0 && (t[0] == '-' || t[0] == '+') then
      var ds := t[1..];
      if |ds| > 0 && AllDigits(ds) then
        var v: int := DigitsValue(ds);
        Some(if t[0] == '-' then -v else v)
      else None
    else if |t| > 0 && AllDigits(t) then Some(DigitsValue(t))
    else None
  }

  lemma ParseIntOfNat(n: nat)
    ensures ParseInt(NatToString(n)) == Some(n)
  {
    var d := NatToString(n);
    NatToStringValue(n);
    assert !IsSpace(d[0]) && !IsSpace(d[|d| - 1]);
    StripOfStripped(d);
  }

  /** Python's ordering of strings: lexicographic by code point. */
  predicate Less(a: string, b: string) {
    |b| > 0 && (|a| == 0 || a[0] < b[0] || (a[0] == b[0] && Less(a[1..], b[1..])))
  }

  lemma {:induction false} LessIrreflexive(a: string)
    ensures !Less(a, a)
  {
    if |a| > 0 { LessIrreflexive(a[1..]); }
  }

  lemma {:induction false} LessTransitive(a: string, b: string, c: string)
    requires Less(a, b) && Less(b, c)
    ensures Less(a, c)
  {
    if |a| > 0 && a[0] == b[0] && b[0] == c[0] {
      LessTransitive(a[1..], b[1..], c[1..]);
    }
  }

  lemma {:induction false} LessTotal(a: string, b: string)
    ensures a == b || Less(a, b) || Less(b, a)
  {
    if |a| > 0 && |b| > 0 && a[0] == b[0] {
      LessTotal(a[1..], b[1..]);
      if a[1..] == b[1..] { assert a == [a[0]] + a[1..] && b == [b[0]] + b[1..]; }
    }
  }

  lemma LessAsymmetric(a: string, b: string)
    requires Less(a, b)
    ensures !Less(b, a)
  {
    if Less(b, a) {
      LessTransitive(a, b, a);
      LessIrreflexive(a);
    }
  }

  predicate StrictlySorted(xs: seq<string>) {
    forall i, j :: 0 <= i < j < |xs| ==> Less(xs[i], xs[j])
  }

  function InsertSorted(xs: seq<string>, x: string): (r: seq<string>)
    requires StrictlySorted(xs)
    ensures StrictlySorted(r)
    ensures forall y :: y in r <==> y in xs || y == x
  {
    if |xs| == 0 then [x]
    else if x == xs[0] then xs
    else if Less(x, xs[0]) then
      assert forall j :: 0 < j < |xs| ==> Less(x, xs[j]) by {
        forall j | 0 < j < |xs| ensures Less(x, xs[j]) { LessTransitive(x, xs[0], xs[j]); }
      }
      [x] + xs
    else
      LessTotal(x, xs[0]);
      var t := InsertSorted(xs[1..], x);
      assert forall y :: y in t ==> Less(xs[0], y) by {
        forall y | y in t ensures Less(xs[0], y) {
          if y != x { var j :| 0 <= j < |xs[1..]| && xs[1..][j] == y; assert xs[j + 1] == y; }
        }
      }
      [xs[0]] + t
  }

  /** sorted(set(xs)): the distinct elements of xs in ascending order. */
  function SortedUnique(xs: seq<string>): (r: seq<string>)
    ensures StrictlySorted(r)
    ensures forall y :: y in r <==> y in xs
  {
    if |xs| == 0 then []
    else
      var t := SortedUnique(xs[..|xs| - 1]);
      assert forall y :: y in xs <==> y in xs[..|xs| - 1] || y == xs[|xs| - 1] by {
        assert xs == xs[..|xs| - 1] + [xs[|xs| - 1]];
      }
      InsertSorted(t, xs[|xs| - 1])
  }

  /** Python's `s in (a, b, ...)` on a tuple of strings. */
  predicate OneOf(s: string, options: seq<string>) {
    s in options
  }
}
