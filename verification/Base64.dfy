// pmx_base64_encode and a reference decoder (section 4 of RFC 4648).

module Base64 {
  import opened Types

  const PAD := '='
  const NUL := 0 as char

  // Shifts and masks are written as the divisions they are: (n >> 6) & 0x3F is
  // n / 64 % 64.
  type Sextet = x: int | 0 <= x < 64

  // The alphabet A-Z a-z 0-9 + /.
  function Char(v: Sextet): char {
    if v < 26 then ('A' as int + v) as char
    else if v < 52 then ('a' as int + (v - 26)) as char
    else if v < 62 then ('0' as int + (v - 52)) as char
    else if v == 62 then '+' else '/'
  }

  function Value(c: char): Option<Sextet> {
    if 'A' <= c <= 'Z' then Some(c as int - 'A' as int)
    else if 'a' <= c <= 'z' then Some(c as int - 'a' as int + 26)
    else if '0' <= c <= '9' then Some(c as int - '0' as int + 52)
    else if c == '+' then Some(62)
    else if c == '/' then Some(63)
    else None
  }

  function Need(n: nat): nat {
    (n + 2) / 3 * 4
  }

  // Three bytes as one 24-bit number, and its four sextets.
  function Bits(a: Byte, b: Byte, c: Byte): (n: nat)
    ensures n < 0x100_0000
  {
    a as int * 0x1_0000 + b as int * 0x100 + c as int
  }

  function Sextets(n: nat): (r: (Sextet, Sextet, Sextet, Sextet)) {
    (n / 0x4_0000 % 64, n / 0x1000 % 64, n / 64 % 64, n % 64)
  }

  function Group(n: nat): (r: string)
    ensures |r| == 4
  {
    var x := Sextets(n);
    [Char(x.0), Char(x.1), Char(x.2), Char(x.3)]
  }

  // The text of the bytes from i on.
  function EncodeFrom(s: seq<Byte>, i: nat): (r: string)
    requires i <= |s|
    decreases |s| - i
  {
    if |s| - i >= 3 then Group(Bits(s[i], s[i + 1], s[i + 2])) + EncodeFrom(s, i + 3)
    else if |s| - i == 2 then Group(Bits(s[i], s[i + 1], 0))[..3] + [PAD]
    else if |s| - i == 1 then Group(Bits(s[i], 0, 0))[..2] + [PAD, PAD]
    else []
  }

  // pmx_base64_encode; on success the text is terminated and nothing behind the
  // terminator is touched.
  method Encode(input: seq<Byte>, out: array<char>) returns (st: Status, len: nat)
    modifies out
    ensures st == if out.Length < Need(|input|) + 1 then ErrInvalidArg else Ok
    ensures st != Ok ==> out[..] == old(out[..])
    ensures st == Ok ==>
      && len == Need(|input|) < out.Length
      && out[..len] == EncodeFrom(input, 0) && out[len] == NUL
      && out[len + 1..] == old(out[len + 1..])
  {
    hide Char, Sextets, Bits, Group, Need, EncodeFrom;
    len := 0;
    if out.Length < Need(|input|) + 1 { return ErrInvalidArg, 0; }
    st := Ok;
    ghost var whole, before := EncodeFrom(input, 0), out[..];
    EncodedLength(input, 0);
    assert |whole| < out.Length;
    var o, i := 0, 0;
    while i + 3 <= |input|
      invariant i <= |input| && o <= |whole| < out.Length
      invariant out[..o] + EncodeFrom(input, i) == whole
      invariant forall k :: o <= k < out.Length ==> out[k] == before[k]
    {
      EncodeStep(input, i);
      ghost var front, group := out[..o], Group(Bits(input[i], input[i + 1], input[i + 2]));
      assert whole == front + (group + EncodeFrom(input, i + 3)) == (front + group) + EncodeFrom(input, i + 3);
      PutGroup(out, o, Bits(input[i], input[i + 1], input[i + 2]));
      o := o + 4;
      i := i + 3;
    }
    o := EncodeRest(input, i, out, o);
    ghost var text := out[..o];
    out[o] := NUL;
    assert out[..o] == text;
    len := o;
  }

  method PutGroup(out: array<char>, o: nat, n: nat)
    requires o + 4 <= out.Length
    modifies out
    ensures out[..o + 4] == old(out[..o]) + Group(n)
    ensures forall k :: o + 4 <= k < out.Length ==> out[k] == old(out[k])
  {
    var x := Sextets(n);
    Put4(out, o, Char(x.0), Char(x.1), Char(x.2), Char(x.3));
  }

  // The one or two bytes left over, padded.
  method EncodeRest(input: seq<Byte>, i: nat, out: array<char>, from: nat) returns (o: nat)
    requires i <= |input| < i + 3 && from + |EncodeFrom(input, i)| < out.Length
    modifies out
    ensures o == from + |EncodeFrom(input, i)| && out[..o] == old(out[..from]) + EncodeFrom(input, i)
    ensures forall k :: o <= k < out.Length ==> out[k] == old(out[k])
  {
    hide Char, Sextets, Bits;
    o := from;
    if |input| - i == 1 {
      var x := Sextets(Bits(input[i], 0, 0));
      Put4(out, o, Char(x.0), Char(x.1), PAD, PAD);
      o := o + 4;
    } else if |input| - i == 2 {
      var x := Sextets(Bits(input[i], input[i + 1], 0));
      Put4(out, o, Char(x.0), Char(x.1), Char(x.2), PAD);
      o := o + 4;
    }
  }

  // Four characters at the running index.
  method Put4(out: array<char>, o: nat, a: char, b: char, c: char, d: char)
    requires o + 4 <= out.Length
    modifies out
    ensures out[..o + 4] == old(out[..o]) + [a, b, c, d]
    ensures forall k :: o + 4 <= k < out.Length ==> out[k] == old(out[k])
  {
    out[o], out[o + 1], out[o + 2], out[o + 3] := a, b, c, d;
  }

  lemma EncodeStep(s: seq<Byte>, i: nat)
    requires i <= |s|
    ensures EncodeFrom(s, i) ==
      if |s| - i >= 3 then Group(Bits(s[i], s[i + 1], s[i + 2])) + EncodeFrom(s, i + 3)
      else if |s| - i == 2 then Group(Bits(s[i], s[i + 1], 0))[..3] + [PAD]
      else if |s| - i == 1 then Group(Bits(s[i], 0, 0))[..2] + [PAD, PAD]
      else []
  {
  }

  // Four characters for every three bytes begun.
  lemma {:induction false} EncodedLength(s: seq<Byte>, i: nat)
    requires i <= |s|
    ensures |EncodeFrom(s, i)| == Need(|s| - i)
    decreases |s| - i
  {
    NeedStep(|s| - i);
    EncodeStep(s, i);
    hide Need, EncodeFrom;
    if |s| - i >= 3 { EncodedLength(s, i + 3); }
  }

  lemma NeedStep(n: nat)
    ensures Need(n) == if n >= 3 then 4 + Need(n - 3) else if n > 0 then 4 else 0
  {
  }

  // ---- the reference decoder ---------------------------------------------------------

  // Groups of four characters carry three bytes; padding ends the text.
  function DecodeFrom(t: string, i: nat): Option<seq<Byte>>
    requires i <= |t|
    decreases |t| - i
  {
    if i == |t| then Some([])
    else if |t| - i < 4 || Value(t[i]).None? || Value(t[i + 1]).None? then None
    else if t[i + 2] == PAD then
      if t[i + 3] == PAD && i + 4 == |t|
      then Some([ByteOf(Join(Value(t[i]).value, Value(t[i + 1]).value, 0, 0)).0])
      else None
    else if Value(t[i + 2]).None? then None
    else if t[i + 3] == PAD then
      if i + 4 == |t|
      then
        var x := ByteOf(Join(Value(t[i]).value, Value(t[i + 1]).value, Value(t[i + 2]).value, 0));
        Some([x.0, x.1])
      else None
    else if Value(t[i + 3]).None? then None
    else
      var x := ByteOf(Join(Value(t[i]).value, Value(t[i + 1]).value, Value(t[i + 2]).value, Value(t[i + 3]).value));
      match DecodeFrom(t, i + 4)
      case None => None
      case Some(rest) => Some([x.0, x.1, x.2] + rest)
  }

  function Join(p: Sextet, q: Sextet, r: Sextet, s: Sextet): nat {
    p as int * 0x4_0000 + q as int * 0x1000 + r as int * 64 + s as int
  }

  function ByteOf(n: nat): (Byte, Byte, Byte) {
    (n / 0x1_0000 % 0x100, n / 0x100 % 0x100, n % 0x100)
  }

  lemma CharValue(v: Sextet)
    ensures Value(Char(v)) == Some(v) && Char(v) != PAD
  {
  }

  // Four sextets put a 24-bit number back together; the digits are named so
  // that each division is by a constant.
  lemma Digits(n: nat) returns (q: nat, r: nat, s: nat, t: nat)
    requires n < 0x100_0000
    ensures q < 64 && r < 64 && s < 64 && t < 64
    ensures n == 64 * (64 * (64 * q + r) + s) + t
    ensures Sextets(n) == (q, r, s, t)
  {
    var n1 := n / 64;
    var n2 := n1 / 64;
    t, s, r, q := n % 64, n1 % 64, n2 % 64, n2 / 64;
    assert n2 == n / 0x1000 && q == n / 0x4_0000;
  }

  lemma Recombine(n: nat)
    requires n < 0x100_0000
    ensures var x := Sextets(n); Join(x.0, x.1, x.2, x.3) == n
  {
    var q, r, s, t := Digits(n);
    hide Sextets;
  }

  lemma Bytes3(a: Byte, b: Byte, c: Byte)
    ensures ByteOf(Bits(a, b, c)) == (a, b, c)
  {
    var n := Bits(a, b, c);
    var m := a as int * 0x100 + b as int;
    assert n == 0x100 * m + c as int;
    assert n / 0x100 == m && n % 0x100 == c;
    assert n / 0x1_0000 == a;
  }

  // With fewer bytes the low sextets are zero, so padding loses nothing.
  lemma ShortGroups(a: Byte, b: Byte)
    ensures Sextets(Bits(a, b, 0)).3 == 0
    ensures Sextets(Bits(a, 0, 0)).2 == 0 && Sextets(Bits(a, 0, 0)).3 == 0
  {
    var k, m := a as int * 1024 + b as int * 4, a as int * 16;
    assert Bits(a, b, 0) == 64 * k && Bits(a, 0, 0) == 64 * (64 * m);
    Multiple(k);
    Multiple(64 * m);
    Multiple(m);
  }

  lemma Multiple(k: nat)
    ensures 64 * k / 64 == k && 64 * k % 64 == 0
  {
  }

  // Decoding from the start of the text of s[i..], wherever it stands.
  lemma {:induction false} DecodesBack(s: seq<Byte>, i: nat, t: string, j: nat)
    requires i <= |s| && j <= |t| && t[j..] == EncodeFrom(s, i)
    ensures DecodeFrom(t, j) == Some(s[i..])
    decreases |s| - i
  {
    hide *;
    var left, w := |s| - i, EncodeFrom(s, i);
    EncodeStep(s, i);
    EncodedLength(s, i);
    if left >= 3 {
      FourAt(t, j, w);
      assert t[j + 4..] == t[j..][4..] == EncodeFrom(s, i + 3);
      DecodesBack(s, i + 3, t, j + 4);
      ReadThree(t, j, s[i], s[i + 1], s[i + 2]);
      assert s[i..] == [s[i], s[i + 1], s[i + 2]] + s[i + 3..];
    } else if left == 2 {
      FourAt(t, j, w);
      ReadTwo(t, j, s[i], s[i + 1]);
      assert s[i..] == [s[i], s[i + 1]];
    } else if left == 1 {
      FourAt(t, j, w);
      ReadOne(t, j, s[i]);
      assert s[i..] == [s[i]];
    } else {
      assert s[i..] == [] && j == |t|;
      NothingLeft(t);
    }
  }

  // How the decoder reads one group.
  lemma NothingLeft(t: string)
    ensures DecodeFrom(t, |t|) == Some([])
  {
  }

  lemma ReadThree(t: string, j: nat, a: Byte, b: Byte, c: Byte)
    requires j + 4 <= |t| && [t[j], t[j + 1], t[j + 2], t[j + 3]] == Group(Bits(a, b, c))
    ensures DecodeFrom(t, j) ==
      match DecodeFrom(t, j + 4) case None => None case Some(rest) => Some([a, b, c] + rest)
  {
    hide Char, Value, Sextets, Bits, Join, ByteOf;
    var n := Bits(a, b, c);
    var x := Sextets(n);
    Bytes3(a, b, c);
    Recombine(n);
    assert t[j] == Group(n)[0] && t[j + 1] == Group(n)[1] && t[j + 2] == Group(n)[2] && t[j + 3] == Group(n)[3];
    CharValue(x.0);
    CharValue(x.1);
    CharValue(x.2);
    CharValue(x.3);
  }

  lemma ReadTwo(t: string, j: nat, a: Byte, b: Byte)
    requires j + 4 == |t| && t[j + 3] == PAD
    requires t[j] == Group(Bits(a, b, 0))[0] && t[j + 1] == Group(Bits(a, b, 0))[1]
    requires t[j + 2] == Group(Bits(a, b, 0))[2]
    ensures DecodeFrom(t, j) == Some([a, b])
  {
    hide Char, Value, Sextets, Bits, Join, ByteOf;
    var n := Bits(a, b, 0);
    var x := Sextets(n);
    Bytes3(a, b, 0);
    Recombine(n);
    ShortGroups(a, b);
    CharValue(x.0);
    CharValue(x.1);
    CharValue(x.2);
  }

  lemma ReadOne(t: string, j: nat, a: Byte)
    requires j + 4 == |t| && t[j + 2] == PAD && t[j + 3] == PAD
    requires t[j] == Group(Bits(a, 0, 0))[0] && t[j + 1] == Group(Bits(a, 0, 0))[1]
    ensures DecodeFrom(t, j) == Some([a])
  {
    hide Char, Value, Sextets, Bits, Join, ByteOf;
    var n := Bits(a, 0, 0);
    var x := Sextets(n);
    Bytes3(a, 0, 0);
    Recombine(n);
    ShortGroups(a, 0);
    CharValue(x.0);
    CharValue(x.1);
  }

  lemma FourAt(t: string, j: nat, w: string)
    requires j <= |t| && t[j..] == w && |w| >= 4
    ensures |t| - j == |w| && t[j] == w[0] && t[j + 1] == w[1] && t[j + 2] == w[2] && t[j + 3] == w[3]
  {
    assert forall k :: 0 <= k < |w| ==> t[j..][k] == w[k];
  }

  // The decoder recovers the input, so no two inputs share a text.
  lemma RoundTrip(s: seq<Byte>)
    ensures DecodeFrom(EncodeFrom(s, 0), 0) == Some(s)
  {
    var t := EncodeFrom(s, 0);
    assert t[0..] == t && s[0..] == s;
    DecodesBack(s, 0, t, 0);
  }

  lemma Injective(s: seq<Byte>, s': seq<Byte>)
    requires EncodeFrom(s, 0) == EncodeFrom(s', 0)
    ensures s == s'
  {
    RoundTrip(s);
    RoundTrip(s');
  }

  // ---- the alphabet and the bits ------------------------------------------------------

  // Table 1 of RFC 4648: two runs of letters, the digits and two more characters.
  lemma AlphabetIsStandard(v: nat)
    ensures Char(0) == 'A' && Char(25) == 'Z' && Char(26) == 'a' && Char(51) == 'z'
    ensures Char(52) == '0' && Char(61) == '9' && Char(62) == '+' && Char(63) == '/'
    ensures v < 61 && v != 25 && v != 51 ==> Char(v + 1) as int == Char(v) as int + 1
  {
  }

  lemma GroupOfBits(a: Byte, b: Byte, c: Byte)
    ensures var n := a as int * 65536 + b as int * 256 + c as int;
      Group(Bits(a, b, c)) == [Char(n / 262144 % 64), Char(n / 4096 % 64), Char(n / 64 % 64), Char(n % 64)]
  {
    hide Char;
  }

  // The text of each whole three bytes: their 24 bits, six at a time from the top;
  // what follows it is the text of what follows them.
  lemma {:induction false} GroupAt(s: seq<Byte>, i: nat, k: nat)
    requires i <= |s| && i + 3 * k + 3 <= |s|
    ensures 4 * k + 4 <= |EncodeFrom(s, i)|
    ensures var j := i + 3 * k;
      var n := s[j] as int * 65536 + s[j + 1] as int * 256 + s[j + 2] as int;
      EncodeFrom(s, i)[4 * k..4 * k + 4]
      == [Char(n / 262144 % 64), Char(n / 4096 % 64), Char(n / 64 % 64), Char(n % 64)]
    ensures EncodeFrom(s, i)[4 * k + 4..] == EncodeFrom(s, i + 3 * k + 3)
    decreases k
  {
    hide *;
    FirstGroup(s, i);
    if k == 0 {
      GroupOfBits(s[i], s[i + 1], s[i + 2]);
    } else {
      GroupAt(s, i + 3, k - 1);
      var t := EncodeFrom(s, i);
      assert t[4 * k..4 * k + 4] == t[4..][4 * (k - 1)..4 * (k - 1) + 4];
      assert t[4 * k + 4..] == t[4..][4 * (k - 1) + 4..];
    }
  }

  lemma FirstGroup(s: seq<Byte>, i: nat)
    requires i + 3 <= |s|
    ensures var t := EncodeFrom(s, i);
      |t| >= 4 && t[0..4] == Group(Bits(s[i], s[i + 1], s[i + 2])) && t[4..] == EncodeFrom(s, i + 3)
  {
    hide Group, Bits;
  }

  lemma SameDigits(q: Sextet, r: Sextet, s: Sextet, t: Sextet, q': Sextet, r': Sextet, s': Sextet, t': Sextet)
    requires q * 0x4_0000 + r * 0x1000 + s * 64 + t == q' * 0x4_0000 + r' * 0x1000 + s' * 64 + t'
    ensures q == q' && r == r' && s == s' && t == t'
  {
  }

  // Two bytes left make three characters and a pad, one byte two and two pads.
  lemma LastGroup(s: seq<Byte>, i: nat)
    requires i <= |s|
    ensures |s| - i == 2 ==> var a, b := s[i], s[i + 1];
      EncodeFrom(s, i) == [Char(a / 4), Char(a % 4 * 16 + b / 16), Char(b % 16 * 4), '=']
    ensures |s| - i == 1 ==> var a := s[i]; EncodeFrom(s, i) == [Char(a / 4), Char(a % 4 * 16), '=', '=']
    ensures |s| == i ==> EncodeFrom(s, i) == []
  {
    if |s| - i == 2 { SextetsAre(s[i], s[i + 1]); }
    if |s| - i == 1 { SextetsAre(s[i], 0); }
    hide Char, Bits, Sextets;
  }

  lemma SextetsAre(a: Byte, b: Byte)
    ensures var x := Sextets(Bits(a, b, 0)); x.0 == a / 4 && x.1 == a % 4 * 16 + b / 16 && x.2 == b % 16 * 4
  {
    var n := Bits(a, b, 0);
    var q, r, s, t := Digits(n);
    SplitByte(a, 4);
    SplitByte(b, 16);
    assert n == a as int * 0x1_0000 + b as int * 0x100;
    hide Bits, Sextets;
    SameDigits(q, r, s, t, a / 4, a % 4 * 16 + b / 16, b % 16 * 4, 0);
  }

  lemma SplitByte(a: Byte, d: nat)
    requires d > 0
    ensures a as int == d * (a as int / d) + a as int % d
  {
  }
}
