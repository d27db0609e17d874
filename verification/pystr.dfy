/** The few Python `str` operations the modelled code relies on:
    `isspace`-based stripping, `startswith`, `in`, `find`, `partition`,
    `join`, `str(int)` and `int(str)`. */
module PyStr {
  import opened Wrappers

  /** Python's `str.isspace()` on one character: the characters that
      `strip`, `lstrip`, `rstrip` and `int()` treat as white space. */
  predicate IsSpace(c: char) {
    || c == ' ' || c == '\t' || c == '\n' || c == '\r' || c == '\U{0b}' || c == '\U{0c}'
    || ('\U{1c}' <= c <= '\U{1f}')
    || c == '\U{85}' || c == '\U{a0}' || c == '\U{1680}'
    || ('\U{2000}' <= c <= '\U{200a}')
    || c == '\U{2028}' || c == '\U{2029}' || c == '\U{202f}' || c == '\U{205f}' || c == '\U{3000}'
  }

  predicate AllSpace(s: string) {
    forall i :: 0 <= i < |s| ==> IsSpace(s[i])
  }

  /** `s.rstrip()`: the longest prefix of `s` that does not end in white space. */
  function RStrip(s: string): (r: string)
    ensures r <= s
    ensures AllSpace(s[|r|..])
    ensures r == [] || !IsSpace(r[|r| - 1])
  {
    if |s| > 0 && IsSpace(s[|s| - 1]) then
      var r := RStrip(s[..|s| - 1]);
      assert s[|r|..] == s[..|s| - 1][|r|..] + [s[|s| - 1]];
      r
    else s
  }

  /** `s.lstrip()`: the longest suffix of `s` that does not start with white space. */
  function LStrip(s: string): (r: string)
    ensures |r| <= |s| && r == s[|s| - |r|..]
    ensures AllSpace(s[..|s| - |r|])
    ensures r == [] || !IsSpace(r[0])
  {
    if |s| > 0 && IsSpace(s[0]) then
      var r := LStrip(s[1..]);
      assert s[..|s| - |r|] == [s[0]] + s[1..][..|s[1..]| - |r|];
      r
    else s
  }

  /** `s.strip()`. */
  function Strip(s: string): string {
    RStrip(LStrip(s))
  }

  /** `s.startswith(p)`. */
  predicate StartsWith(s: string, p: string) {
    |p| <= |s| && s[..|p|] == p
  }

  /** `s.endswith(p)`. */
  predicate EndsWith(s: string, p: string) {
    |p| <= |s| && s[|s| - |p|..] == p
  }

  /** `sub` occurs in `s` at index `i`. */
  predicate OccursAt(s: string, sub: string, i: int) {
    0 <= i && i + |sub| <= |s| && s[i..i + |sub|] == sub
  }

  /** `s.find(sub, i)` as an option: the first occurrence at or after `i`. */
  function FindFrom(s: string, sub: string, i: nat): (r: Option<nat>)
    requires i <= |s|
    ensures r.Some? ==> i <= r.value && OccursAt(s, sub, r.value)
    ensures r.Some? ==> forall j :: i <= j < r.value ==> !OccursAt(s, sub, j)
    ensures r.None? ==> forall j :: i <= j ==> !OccursAt(s, sub, j)
    decreases |s| - i
  {
    if OccursAt(s, sub, i) then Some(i)
    else if i == |s| then None
    else FindFrom(s, sub, i + 1)
  }

  /** `s.find(sub)` as an option. */
  function Find(s: string, sub: string): Option<nat> {
    FindFrom(s, sub, 0)
  }

  /** Python's `sub in s` for strings. */
  predicate Contains(s: string, sub: string) {
    Find(s, sub).Some?
  }

  lemma ContainsIff(s: string, sub: string)
    ensures Contains(s, sub) <==> exists i :: OccursAt(s, sub, i)
  {
  }

  /** `s.partition(sep)`: the text before the first `sep`, the separator
      itself, and the text after it; `(s, "", "")` when `sep` is absent.
      Python raises `ValueError` for an empty separator, so callers pass a
      non-empty one. */
  function Partition(s: string, sep: string): (r: (string, string, string))
    requires |sep| > 0
    ensures r.0 + r.1 + r.2 == s
    ensures Contains(s, sep) ==> r.1 == sep && forall j :: 0 <= j < |r.0| ==> !OccursAt(s, sep, j)
    ensures !Contains(s, sep) ==> r == (s, "", "")
  {
    match Find(s, sep)
    case None => (s, "", "")
    case Some(i) =>
      assert s == s[..i] + sep + s[i + |sep|..];
      (s[..i], sep, s[i + |sep|..])
  }

  /** `partition` splits at the first occurrence of the separator. */
  lemma PartitionAt(s: string, sep: string, k: nat)
    requires |sep| > 0 && OccursAt(s, sep, k)
    requires forall j :: 0 <= j < k ==> !OccursAt(s, sep, j)
    ensures Partition(s, sep) == (s[..k], sep, s[k + |sep|..])
  {
    assert Find(s, sep) == Some(k);
  }

  /** What follows the separator is a tail of the text, empty when the
      separator does not occur. */
  lemma PartitionTail(s: string, sep: string)
    requires |sep| > 0
    ensures EndsWith(s, Partition(s, sep).2)
    ensures Contains(s, sep) ==> EndsWith(s, sep + Partition(s, sep).2)
    ensures !Contains(s, sep) ==> Partition(s, sep).2 == ""
  {
    var p := Partition(s, sep);
    assert s == p.0 + (p.1 + p.2);
    assert s == (p.0 + p.1) + p.2;
  }

  /** Partitioning at the first `c` of a text whose front part holds none. */
  lemma PartitionAtChar(a: string, c: char, b: string)
    requires c !in a
    ensures Partition(a + [c] + b, [c]) == (a, [c], b)
  {
    var s := a + [c] + b;
    assert OccursAt(s, [c], |a|) by {
      assert s[|a|..|a| + 1] == [c];
    }
    forall j | 0 <= j < |a|
      ensures !OccursAt(s, [c], j)
    {
      assert s[j..j + 1] == [a[j]];
    }
    PartitionAt(s, [c], |a|);
    assert s[..|a|] == a;
    assert s[|a| + 1..] == b;
  }

  /** When the text `a` holds no `sep` character and `b` starts with it,
      partitioning `a + b` at `sep` yields `a` in front. */
  lemma FirstCharSeparator(a: string, b: string, sep: string)
    requires |sep| == 1 && |b| > 0 && b[0] == sep[0]
    requires forall i :: 0 <= i < |a| ==> a[i] != sep[0]
    ensures Partition(a + b, sep).0 == a
  {
    var s := a + b;
    assert OccursAt(s, sep, |a|);
    forall j | 0 <= j < |a|
      ensures !OccursAt(s, sep, j)
    {
      assert s[j] == a[j];
    }
    PartitionAt(s, sep, |a|);
  }

  /** `sep.join(parts)`. */
  function Join(parts: seq<string>, sep: string): (r: string)
    ensures |parts| == 0 ==> r == ""
    ensures |parts| == 1 ==> r == parts[0]
    decreases |parts|
  {
    if |parts| == 0 then ""
    else if |parts| == 1 then parts[0]
    else Join(parts[..|parts| - 1], sep) + sep + parts[|parts| - 1]
  }

  /** `''.join` of one more part appends that part. */
  lemma JoinNothingSnoc(parts: seq<string>, p: string)
    ensures Join(parts + [p], "") == Join(parts, "") + p
  {
    if |parts| == 0 {
      assert parts + [p] == [p];
    } else {
      assert (parts + [p])[..|parts|] == parts;
    }
  }

  // ---------------------------------------------------------------------
  // Decimal rendering and parsing of integers

  predicate IsDigit(c: char) {
    '0' <= c <= '9'
  }

  function DigitChar(d: nat): (c: char)
    requires d < 10
    ensures IsDigit(c)
  {
    ['0', '1', '2', '3', '4', '5', '6', '7', '8', '9'][d]
  }

  function DigitValue(c: char): (d: nat)
    requires IsDigit(c)
    ensures d < 10 && DigitChar(d) == c
  {
    (c as int - '0' as int)
  }

  predicate AllDigits(s: string) {
    forall i :: 0 <= i < |s| ==> IsDigit(s[i])
  }

  /** The decimal digits of `n`, most significant first, without leading zeros. */
  function Digits(n: nat): (r: string)
    ensures |r| > 0 && AllDigits(r)
    ensures |r| > 1 ==> r[0] != '0'
    decreases n
  {
    if n < 10 then [DigitChar(n)] else Digits(n / 10) + [DigitChar(n % 10)]
  }

  /** The value of a string of decimal digits. */
  function DigitsValue(s: string): nat
    requires AllDigits(s)
  {
    if |s| == 0 then 0 else DigitsValue(s[..|s| - 1]) * 10 + DigitValue(s[|s| - 1])
  }

  /** `str(n)`, also what `%d` and an f-string render an `int` as. */
  function Decimal(n: int): (r: string)
    ensures |r| > 0
  {
    if n < 0 then "-" + Digits(-n) else Digits(n)
  }

  /** A rendered integer holds digits and possibly a leading minus sign. */
  lemma DecimalChars(n: int)
    ensures forall i :: 0 <= i < |Decimal(n)| ==> IsDigit(Decimal(n)[i]) || (i == 0 && Decimal(n)[i] == '-')
  {
    var d := Decimal(n);
    if n < 0 {
      assert d == "-" + Digits(-n);
      assert forall i :: 1 <= i < |d| ==> d[i] == Digits(-n)[i - 1];
    }
  }

  lemma {:induction false} DigitsRoundTrip(n: nat)
    ensures DigitsValue(Digits(n)) == n
    decreases n
  {
    if n >= 10 {
      DigitsRoundTrip(n / 10);
      var ds := Digits(n);
      assert ds[..|ds| - 1] == Digits(n / 10);
    }
  }

  /** The body of an integer literal as `int()` accepts it in base 10:
      digits, optionally separated by single underscores. */
  predicate IsDigitGroups(b: string) {
    && |b| > 0
    && IsDigit(b[0]) && IsDigit(b[|b| - 1])
    && (forall i :: 0 <= i < |b| ==> IsDigit(b[i]) || b[i] == '_')
    && (forall i :: 0 <= i < |b| - 1 ==> b[i] == '_' ==> b[i + 1] != '_')
  }

  function DropUnderscores(s: string): (r: string)
    ensures (forall i :: 0 <= i < |s| ==> IsDigit(s[i]) || s[i] == '_') ==> AllDigits(r)
    ensures AllDigits(s) ==> r == s
  {
    if |s| == 0 then ""
    else if s[0] == '_' then DropUnderscores(s[1..])
    else [s[0]] + DropUnderscores(s[1..])
  }

  /** `int(s)` for base 10: surrounding white space is ignored, one optional
      sign, then digit groups; anything else raises `ValueError`. */
  function ParseInt(s: string): (r: Result<int, Exception>)
    ensures r.Ok? ==> var t := Strip(s); |t| > 0 && !IsSpace(t[0])
    ensures Strip(s) == [] ==> r.Err?
  {
    var t := Strip(s);
    var neg := |t| > 0 && t[0] == '-';
    var body := if |t| > 0 && (t[0] == '-' || t[0] == '+') then t[1..] else t;
    if !IsDigitGroups(body) then
      Err(ValueError("invalid literal for int() with base 10"))
    else
      var v: int := DigitsValue(DropUnderscores(body));
      Ok(if neg then -v else v)
  }

  lemma StripNoSpaceEnds(s: string)
    requires |s| > 0 && !IsSpace(s[0]) && !IsSpace(s[|s| - 1])
    ensures Strip(s) == s
  {
  }

  lemma DigitsAreGroups(m: nat)
    ensures IsDigitGroups(Digits(m))
    ensures DropUnderscores(Digits(m)) == Digits(m)
  {
  }

  /** Stripping removes white space only: every other character survives. */
  lemma StripKeepsNonSpace(s: string, i: nat)
    requires i < |s| && !IsSpace(s[i])
    ensures s[i] in Strip(s)
  {
    var l := LStrip(s);
    var d := |s| - |l|;
    assert l[i - d] == s[i];
    var r := RStrip(l);
    assert r[i - d] == s[i];
  }

  /** `int()` rejects any text holding a lower-case letter. */
  lemma ParseIntRejectsLetter(s: string, i: nat)
    requires i < |s| && 'a' <= s[i] <= 'z'
    ensures ParseInt(s).Err?
  {
    StripKeepsNonSpace(s, i);
    var t := Strip(s);
    var j :| 0 <= j < |t| && t[j] == s[i];
    var signed := |t| > 0 && (t[0] == '-' || t[0] == '+');
    var body := if signed then t[1..] else t;
    var k: int := if signed then j - 1 else j;
    assert 0 <= k < |body| && body[k] == t[j];
    assert !IsDigitGroups(body);
  }

  /** `int(str(n)) == n`. */
  lemma DecimalRoundTrip(n: int)
    ensures ParseInt(Decimal(n)) == Ok(n)
  {
    var d := Decimal(n);
    StripNoSpaceEnds(d);
    assert Strip(d) == d;
    var m: nat := if n < 0 then -n else n;
    DigitsRoundTrip(m);
    DigitsAreGroups(m);
    if n < 0 {
      assert d[0] == '-' && d[1..] == Digits(m);
    } else {
      assert d == Digits(m) && d[0] != '-' && d[0] != '+';
    }
  }
}
