// The C string routines the core leans on: character classes, bounded copies,
// trimming and strtol. Strings are NUL-free sequences of characters.

module CText {
  import opened Types

  // isspace in the "C" locale.
  predicate IsSpace(c: char) {
    c == ' ' || 9 <= c as int <= 13
  }

  // tolower in the "C" locale.
  function Lower(c: char): char {
    if 'A' <= c <= 'Z' then (c as int + 32) as char else c
  }

  predicate CharEq(a: char, b: char, ci: bool) {
    if ci then Lower(a) == Lower(b) else a == b
  }

  // Case-insensitive equality of whole strings.
  predicate CiEq(a: string, b: string) {
    |a| == |b| && forall i :: 0 <= i < |a| ==> Lower(a[i]) == Lower(b[i])
  }

  // pmx_strlcpy: keep what fits in `cap` bytes including the terminator.
  function Clip(s: string, cap: nat): (r: string)
    requires cap > 0
    ensures r <= s && |r| == if |s| < cap then |s| else cap - 1
    ensures |s| < cap ==> r == s
  {
    if |s| < cap then s else s[..cap - 1]
  }

  // ---- trimming ---------------------------------------------------------

  function TrimLeft(s: string): string {
    if s != [] && IsSpace(s[0]) then TrimLeft(s[1..]) else s
  }

  function TrimRight(s: string): string {
    if s != [] && IsSpace(s[|s| - 1]) then TrimRight(s[..|s| - 1]) else s
  }

  function Trimmed(s: string): string {
    TrimRight(TrimLeft(s))
  }

  // The pointer walk used by every trimming loop: advance the left bound, then
  // retreat the right one.
  method Trim(s: string) returns (r: string)
    ensures r == Trimmed(s)
  {
    var b := 0;
    while b < |s| && IsSpace(s[b])
      invariant b <= |s|
      invariant TrimLeft(s) == TrimLeft(s[b..])
    {
      assert s[b..][1..] == s[b + 1..];
      b := b + 1;
    }
    assert TrimLeft(s) == s[b..];
    var e := |s|;
    assert s[b..e] == s[b..];
    while e > b && IsSpace(s[e - 1])
      invariant b <= e <= |s|
      invariant Trimmed(s) == TrimRight(s[b..e])
    {
      assert s[b..e][..e - b - 1] == s[b..e - 1];
      e := e - 1;
    }
    r := s[b..e];
  }

  // What trimming means: the result is the one middle part with blank
  // surroundings and no blank at either end.
  ghost predicate IsTrimOf(s: string, r: string, left: nat) {
    && left + |r| <= |s|
    && s[left..left + |r|] == r
    && (forall i :: 0 <= i < left ==> IsSpace(s[i]))
    && (forall i :: left + |r| <= i < |s| ==> IsSpace(s[i]))
    && (r != [] ==> !IsSpace(r[0]) && !IsSpace(r[|r| - 1]))
  }

  lemma {:induction false} TrimLeftMeaning(s: string) returns (left: nat)
    ensures left <= |s| && TrimLeft(s) == s[left..]
    ensures forall i :: 0 <= i < left ==> IsSpace(s[i])
    ensures left < |s| ==> !IsSpace(s[left])
  {
    if s != [] && IsSpace(s[0]) {
      var l := TrimLeftMeaning(s[1..]);
      left := l + 1;
      assert s[1..][l..] == s[left..];
      forall i | 0 <= i < left ensures IsSpace(s[i]) {
        if i > 0 { assert s[1..][i - 1] == s[i]; }
      }
    } else {
      left := 0;
    }
  }

  lemma {:induction false} TrimRightMeaning(s: string) returns (end: nat)
    ensures end <= |s| && TrimRight(s) == s[..end]
    ensures forall i :: end <= i < |s| ==> IsSpace(s[i])
    ensures end > 0 ==> !IsSpace(s[end - 1])
  {
    if s != [] && IsSpace(s[|s| - 1]) {
      end := TrimRightMeaning(s[..|s| - 1]);
      assert s[..|s| - 1][..end] == s[..end];
    } else {
      end := |s|;
      assert s[..end] == s;
    }
  }

  lemma TrimMeaning(s: string) returns (left: nat)
    ensures IsTrimOf(s, Trimmed(s), left)
  {
    left := TrimLeftMeaning(s);
    var t := TrimLeft(s);
    var end := TrimRightMeaning(t);
    assert t[..end] == s[left..left + end];
    forall i | left + end <= i < |s| ensures IsSpace(s[i]) {
      assert t[i - left] == s[i];
    }
    if end > 0 { assert t[0] == s[left]; }
  }

  // ---- strtol -----------------------------------------------------------

  const LONG_MAX := 0x7FFF_FFFF
  const LONG_MIN := -0x8000_0000

  predicate IsDigit(c: char) {
    '0' <= c <= '9'
  }

  function SkipSpace(s: string, i: nat): (j: nat)
    requires i <= |s|
    ensures i <= j <= |s| && (j < |s| ==> !IsSpace(s[j]))
    decreases |s| - i
  {
    if i < |s| && IsSpace(s[i]) then SkipSpace(s, i + 1) else i
  }

  function DigitsEnd(s: string, i: nat): (j: nat)
    requires i <= |s|
    ensures i <= j <= |s|
    ensures forall k :: i <= k < j ==> IsDigit(s[k])
    ensures j < |s| ==> !IsDigit(s[j])
    decreases |s| - i
  {
    if i < |s| && IsDigit(s[i]) then DigitsEnd(s, i + 1) else i
  }

  function DigitsValue(ds: string): nat
    requires forall c :: c in ds ==> IsDigit(c)
  {
    if ds == [] then 0
    else
      assert IsDigit(ds[|ds| - 1]);
      DigitsValue(ds[..|ds| - 1]) * 10 + (ds[|ds| - 1] as int - '0' as int)
  }

  // NoNumber is strtol's "end == start".
  datatype Number = NoNumber | Number(value: int, end: nat)

  // strtol(s + i, &end, 10) with a 32-bit long: leading blanks, one sign,
  // digits, saturation on overflow.
  function Strtol(s: string, i: nat): (r: Number)
    requires i <= |s|
    ensures r.Number? ==> i < r.end <= |s|
    ensures r.Number? ==> LONG_MIN <= r.value <= LONG_MAX
  {
    var j := SkipSpace(s, i);
    var signed := j < |s| && (s[j] == '-' || s[j] == '+');
    var k := if signed then j + 1 else j;
    var e := DigitsEnd(s, k);
    if e == k then NoNumber
    else
      var v: int := DigitsValue(s[k..e]);
      if signed && s[j] == '-'
      then Number(Max(-v, LONG_MIN), e)
      else Number(Min(v, LONG_MAX), e)
  }

  // (pmx_port)strtol(tok, NULL, 10): no digits reads as 0, and the cast keeps
  // the low sixteen bits.
  function PortCast(s: string): Port {
    match Strtol(s, 0)
    case NoNumber => 0
    case Number(v, _) => v % 0x1_0000
  }

  // ---- what the character routines mean ------------------------------------------

  // The six blank characters.
  lemma BlankCharacters(c: char)
    ensures IsSpace(c) <==> c in {' ', '\t', '\n', '\r', 11 as char, 12 as char}
  {
  }

  // Folding maps the 26 upper-case letters to the lower-case ones and nothing else.
  lemma FoldsLetters(c: char, k: nat)
    ensures k < 26 ==> Lower((65 + k) as char) == (97 + k) as char
    ensures c as int < 65 || c as int >= 65 + 26 ==> Lower(c) == c
  {
  }

  // ---- decimal text -----------------------------------------------------------------

  function Digit(d: nat): (c: char)
    requires d < 10
    ensures IsDigit(c) && c as int - '0' as int == d
  {
    (d + '0' as int) as char
  }

  function Decimal(n: nat): (s: string)
    ensures s != [] && (forall c :: c in s ==> IsDigit(c)) && DigitsValue(s) == n
  {
    if n < 10 then
      assert [Digit(n)][..0] == [];
      [Digit(n)]
    else
      var s := Decimal(n / 10) + [Digit(n % 10)];
      assert s[..|s| - 1] == Decimal(n / 10);
      s
  }

  lemma {:induction false} DigitsEndAt(s: string, i: nat, e: nat)
    requires i <= e <= |s|
    requires forall k :: i <= k < e ==> IsDigit(s[k])
    requires e == |s| || !IsDigit(s[e])
    ensures DigitsEnd(s, i) == e
    decreases e - i
  {
    if i < e { DigitsEndAt(s, i + 1, e); }
  }

  lemma {:induction false} SkipSpaceAt(s: string, i: nat, j: nat)
    requires i <= j <= |s| && forall k :: i <= k < j ==> IsSpace(s[k])
    requires j == |s| || !IsSpace(s[j])
    ensures SkipSpace(s, i) == j
    decreases j - i
  {
    if i < j { SkipSpaceAt(s, i + 1, j); }
  }

  // Blanks up to j and perhaps a sign up to k.
  predicate SignedFrom(s: string, i: nat, j: nat, k: nat) {
    && i <= j <= k <= |s| && (forall x :: i <= x < j ==> IsSpace(s[x]))
    && (k == j || (k == j + 1 && s[j] in {'+', '-'}))
  }

  // strtol reads blanks, one sign and a number, and saturates at 32 bits.
  lemma StrtolReadsNumber(s: string, i: nat, j: nat, k: nat, e: nat, n: nat)
    requires SignedFrom(s, i, j, k) && k <= e <= |s| && s[k..e] == Decimal(n) && (e == |s| || !IsDigit(s[e]))
    ensures Strtol(s, i)
         == Number(if k > j && s[j] == '-' then Max(-(n as int), -2147483648) else Min(n, 2147483647), e)
  {
    var d := Decimal(n);
    forall x | k <= x < e ensures IsDigit(s[x]) {
      assert s[x] == s[k..e][x - k] == d[x - k] && d[x - k] in d;
    }
    SkipSpaceAt(s, i, j);
    DigitsEndAt(s, k, e);
    hide Decimal, SkipSpace, DigitsEnd;
  }

  // Where no digit follows the sign there is no number.
  lemma StrtolFindsNone(s: string, i: nat, j: nat, k: nat)
    requires SignedFrom(s, i, j, k) && (k == |s| || !IsDigit(s[k]))
    requires k == j ==> j == |s| || (!IsSpace(s[j]) && s[j] !in {'+', '-'})
    ensures Strtol(s, i) == NoNumber
  {
    SkipSpaceAt(s, i, j);
  }

  lemma CastOfNumber(s: string, v: int, e: nat)
    requires Strtol(s, 0) == Number(v, e)
    ensures PortCast(s) == v % 65536
  {
    hide Strtol;
  }

  lemma PlainNumber(n: nat)
    ensures Strtol(Decimal(n), 0) == Number(if n <= 2147483647 then n else 2147483647, |Decimal(n)|)
  {
    var d := Decimal(n);
    assert d[0..|d|] == d && d[0] in d;
    hide Decimal, Strtol;
    StrtolReadsNumber(d, 0, 0, 0, |d|, n);
  }

  lemma NoNumberIsPortZero()
    ensures PortCast("") == 0
  {
    StrtolFindsNone("", 0, 0, 0);
  }

  // A number read as a port keeps its low sixteen bits; no number is port 0.
  lemma PortOfNumber(n: nat)
    ensures PortCast(Decimal(n)) == if n <= 2147483647 then n % 65536 else 65535
    ensures PortCast("") == 0
  {
    hide *;
    PlainNumber(n);
    CastOfNumber(Decimal(n), if n <= 2147483647 then n else 2147483647, |Decimal(n)|);
    NoNumberIsPortZero();
  }
}
