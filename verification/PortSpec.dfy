// Port specifications such as "80,443,8000 - 8080": the validator and the
// matcher are two independent scanners, proved to agree on what a spec denotes.

module PortSpec {
  import opened Types
  import opened CText

  // The two bounds as written; either may be the larger one.
  datatype Range = Range(a: int, b: int)

  predicate Covers(r: Range, port: Port) {
    Min(r.a, r.b) <= port <= Max(r.a, r.b)
  }

  ghost predicate Covered(rs: seq<Range>, port: Port) {
    exists r :: r in rs && Covers(r, port)
  }

  function SkipBlanks(s: string, i: nat): (j: nat)
    requires i <= |s|
    ensures i <= j <= |s| && (j < |s| ==> s[j] != ' ')
    decreases |s| - i
  {
    if i < |s| && s[i] == ' ' then SkipBlanks(s, i + 1) else i
  }

  function SkipSeparators(s: string, i: nat): (j: nat)
    requires i <= |s|
    ensures i <= j <= |s| && (j < |s| ==> s[j] != ' ' && s[j] != ',')
    decreases |s| - i
  {
    if i < |s| && (s[i] == ' ' || s[i] == ',') then SkipSeparators(s, i + 1) else i
  }

  predicate IsPort(v: int) {
    0 <= v <= 65535
  }

  // What stands at a position that is no separator: nothing numeric, or one
  // item. An item is strict when both bounds are ports and no dash is left
  // without a second bound.
  datatype Token = NoToken | Token(range: Range, strict: bool, next: nat)

  function TokenAt(s: string, j: nat): (t: Token)
    requires j <= |s|
    ensures t.Token? ==> j < t.next <= |s|
  {
    match Strtol(s, j)
    case NoNumber => NoToken
    case Number(a, e) => Bounded(s, a, e)
  }

  function Bounded(s: string, a: int, e: nat): (t: Token)
    requires e <= |s|
    ensures t.Token? && e <= t.next <= |s|
  {
    var k := SkipBlanks(s, e);
    if k < |s| && s[k] == '-' then
      var k' := SkipBlanks(s, k + 1);
      match Strtol(s, k')
      case NoNumber => Token(Range(a, a), false, k')
      case Number(b, e') => Token(Range(a, b), IsPort(a) && IsPort(b), e')
    else Token(Range(a, a), IsPort(a), k)
  }

  // ---- the strict reading (what the validator accepts) -------------------

  // Some(ranges) when the text from i on is a well-formed list: strict items,
  // each followed by a comma or the end.
  function Denotes(s: string, i: nat): (r: Option<seq<Range>>)
    requires i <= |s|
    decreases |s| - i
  {
    var j := SkipSeparators(s, i);
    if j == |s| then Some([]) else
    match TokenAt(s, j)
    case NoToken => None
    case Token(range, strict, next) =>
      var k := SkipBlanks(s, next);
      if !strict || (k < |s| && s[k] != ',') then None else
      match Denotes(s, k)
      case None => None
      case Some(rest) => Some([range] + rest)
  }

  predicate Acceptable(s: string) {
    s == [] || (Denotes(s, 0).Some? && Denotes(s, 0).value != [])
  }

  // Step over blanks.
  method Blanks(spec: string, from: nat) returns (s: nat)
    requires from <= |spec|
    ensures s == SkipBlanks(spec, from)
  {
    s := from;
    while s < |spec| && spec[s] == ' '
      invariant from <= s <= |spec|
      invariant SkipBlanks(spec, from) == SkipBlanks(spec, s)
    {
      s := s + 1;
    }
  }

  // Step over blanks and commas.
  method Separators(spec: string, from: nat) returns (s: nat)
    requires from <= |spec|
    ensures s == SkipSeparators(spec, from)
  {
    s := from;
    while s < |spec| && (spec[s] == ' ' || spec[s] == ',')
      invariant from <= s <= |spec|
      invariant SkipSeparators(spec, from) == SkipSeparators(spec, s)
    {
      s := s + 1;
    }
  }

  // Reading on from position s still decides the whole spec, given the ranges
  // already seen.
  ghost predicate Resumes(spec: string, s: nat, seen: seq<Range>)
    requires s <= |spec|
  {
    Denotes(spec, 0) == match Denotes(spec, s)
                        case None => None
                        case Some(rest) => Some(seen + rest)
  }

  lemma ResumesNext(spec: string, s: nat, seen: seq<Range>, t: Token, k: nat)
    requires s <= |spec| && Resumes(spec, s, seen)
    requires SkipSeparators(spec, s) < |spec| && t == TokenAt(spec, SkipSeparators(spec, s))
    requires t.Token? && t.strict && k == SkipBlanks(spec, t.next)
    requires k < |spec| ==> spec[k] == ','
    ensures Resumes(spec, k, seen + [t.range])
  {
    hide TokenAt;
    if Denotes(spec, k).Some? {
      var rest := Denotes(spec, k).value;
      assert seen + ([t.range] + rest) == (seen + [t.range]) + rest;
    }
  }

  lemma ResumesEnd(spec: string, s: nat, seen: seq<Range>)
    requires s <= |spec| && Resumes(spec, s, seen) && SkipSeparators(spec, s) == |spec|
    ensures Denotes(spec, 0) == Some(seen)
  {
    assert seen + [] == seen;
  }

  lemma ResumesNot(spec: string, s: nat, seen: seq<Range>, t: Token)
    requires s <= |spec| && Resumes(spec, s, seen)
    requires SkipSeparators(spec, s) < |spec| && t == TokenAt(spec, SkipSeparators(spec, s))
    requires t.NoToken? || !t.strict
             || (SkipBlanks(spec, t.next) < |spec| && spec[SkipBlanks(spec, t.next)] != ',')
    ensures Denotes(spec, 0) == None
  {
    hide TokenAt;
  }

  // pmx_port_spec_validate.
  method Validate(spec: string) returns (st: Status)
    ensures st == Ok || st == ErrParse
    ensures st == Ok <==> Acceptable(spec)
  {
    hide Denotes, Strtol, SkipSeparators, Resumes, SkipBlanks;
    if spec == [] { return Ok; }
    var s := 0;
    var sawNumber := false;
    ghost var seen: seq<Range> := [];
    assert Resumes(spec, 0, []) by { ResumesStart(spec); }
    while s < |spec|
      invariant s <= |spec|
      invariant sawNumber <==> seen != []
      invariant Resumes(spec, s, seen)
      decreases |spec| - s
    {
      ghost var i := s;
      s := Separators(spec, s);
      if s == |spec| {
        ResumesEnd(spec, i, seen);
        return if sawNumber then Ok else ErrParse;
      }
      ghost var t := TokenAt(spec, s);
      var na := Strtol(spec, s);
      if na.NoNumber? || na.value < 0 || na.value > 65535 {
        ResumesNot(spec, i, seen, t);
        return ErrParse;
      }
      s := na.end;
      s := Blanks(spec, s);
      if s < |spec| && spec[s] == '-' {
        s := s + 1;
        s := Blanks(spec, s);
        var nb := Strtol(spec, s);
        if nb.NoNumber? || nb.value < 0 || nb.value > 65535 {
          ResumesNot(spec, i, seen, t);
          return ErrParse;
        }
        s := nb.end;
      }
      sawNumber := true;
      BlanksTwice(spec, na.end);
      s := Blanks(spec, s);
      if s < |spec| && spec[s] != ',' {
        ResumesNot(spec, i, seen, t);
        return ErrParse;
      }
      ResumesNext(spec, i, seen, t, s);
      seen := seen + [t.range];
    }
    SeparatorsAtEnd(spec);
    ResumesEnd(spec, s, seen);
    return if sawNumber then Ok else ErrParse;
  }

  lemma ResumesStart(spec: string)
    ensures Resumes(spec, 0, [])
  {
    if Denotes(spec, 0).Some? { assert [] + Denotes(spec, 0).value == Denotes(spec, 0).value; }
  }

  lemma SeparatorsAtEnd(s: string)
    ensures SkipSeparators(s, |s|) == |s|
  {
  }

  lemma BlanksTwice(s: string, i: nat)
    requires i <= |s|
    ensures SkipBlanks(s, SkipBlanks(s, i)) == SkipBlanks(s, i)
  {
  }

  // ---- the lenient reading (what the matcher scans) -----------------------

  // Every range the matcher looks at, in order, for any text at all: text that
  // is no number is skipped a character at a time, a dash without a second
  // bound is dropped, and nothing is range checked.
  function Scanned(s: string, i: nat): seq<Range>
    requires i <= |s|
    decreases |s| - i
  {
    var j := SkipSeparators(s, i);
    if j == |s| then [] else
    match TokenAt(s, j)
    case NoToken => Scanned(s, j + 1)
    case Token(range, _, next) => [range] + Scanned(s, next)
  }

  // pmx_port_spec_match.
  method Match(spec: string, port: Port) returns (r: bool)
    ensures r <==> spec == [] || Covered(Scanned(spec, 0), port)
  {
    hide Scanned, Strtol, SkipSeparators, SkipBlanks, Covered;
    if spec == [] { return true; }
    var s := 0;
    while s < |spec|
      invariant s <= |spec|
      invariant Covered(Scanned(spec, 0), port) <==> Covered(Scanned(spec, s), port)
      decreases |spec| - s
    {
      ghost var i := s;
      s := Separators(spec, s);
      ScannedStep(spec, i, port);
      if s == |spec| { break; }
      var na := Strtol(spec, s);
      if na.NoNumber? {
        s := s + 1;
        continue;
      }
      var a, b := na.value, na.value;
      s := na.end;
      s := Blanks(spec, s);
      if s < |spec| && spec[s] == '-' {
        s := s + 1;
        s := Blanks(spec, s);
        var nb := Strtol(spec, s);
        if nb.Number? {
          b := nb.value;
          s := nb.end;
        }
      }
      if a > b { a, b := b, a; }
      if a <= port <= b { return true; }
    }
    ScannedEnd(spec, port);
    return false;
  }

  lemma ScannedStep(s: string, i: nat, port: Port)
    requires i <= |s|
    ensures var j := SkipSeparators(s, i);
      if j == |s| then Scanned(s, i) == Scanned(s, |s|)
      else match TokenAt(s, j)
        case NoToken => Scanned(s, i) == Scanned(s, j + 1)
        case Token(range, _, next) =>
          Covered(Scanned(s, i), port) <==> Covers(range, port) || Covered(Scanned(s, next), port)
  {
    hide TokenAt, Covered;
    var j := SkipSeparators(s, i);
    if j < |s| && TokenAt(s, j).Token? {
      CoveredCons(TokenAt(s, j).range, Scanned(s, TokenAt(s, j).next), port);
    }
  }

  lemma ScannedEnd(s: string, port: Port)
    ensures !Covered(Scanned(s, |s|), port)
  {
  }

  lemma CoveredCons(item: Range, rest: seq<Range>, port: Port)
    ensures Covered([item] + rest, port) <==> Covers(item, port) || Covered(rest, port)
  {
    assert item in [item] + rest;
    forall r | r in rest ensures r in [item] + rest {}
  }

  // On every spec the validator accepts, the matcher visits exactly the ranges
  // the spec denotes.
  lemma {:induction false} ScannersAgree(s: string, i: nat)
    requires i <= |s| && Denotes(s, i).Some?
    ensures Scanned(s, i) == Denotes(s, i).value
    decreases |s| - i
  {
    hide TokenAt;
    var j := SkipSeparators(s, i);
    if j < |s| {
      var t := TokenAt(s, j);
      ScannersAgree(s, SkipBlanks(s, t.next));
      BlanksThenSeparators(s, t.next);
    }
  }

  lemma BlanksThenSeparators(s: string, i: nat)
    requires i <= |s|
    ensures Scanned(s, SkipBlanks(s, i)) == Scanned(s, i)
  {
    hide TokenAt;
    BlanksAreSeparators(s, i);
  }

  lemma {:induction false} BlanksAreSeparators(s: string, i: nat)
    requires i <= |s|
    ensures SkipSeparators(s, SkipBlanks(s, i)) == SkipSeparators(s, i)
    decreases |s| - i
  {
    if i < |s| && s[i] == ' ' { BlanksAreSeparators(s, i + 1); }
  }

  // The agreement, as a caller sees it: an accepted spec matches a port exactly
  // when the port lies in the union of the denoted ranges.
  lemma MatchIsMembership(spec: string, port: Port)
    requires spec != [] && Acceptable(spec)
    ensures Covered(Scanned(spec, 0), port) <==> Covered(Denotes(spec, 0).value, port)
  {
    ScannersAgree(spec, 0);
  }

  // ---- canonical text -----------------------------------------------------

  // An item as a user may write it: one port, or two bounds in either order
  // with any number of blanks around the dash.
  datatype Item =
    | Single(n: Port)
    | Dash(a: Port, b: Port, left: nat, right: nat)

  // The ports an item stands for.
  predicate Includes(it: Item, port: Port) {
    match it
    case Single(n) => port == n
    case Dash(a, b, _, _) => a <= port <= b || b <= port <= a
  }

  function RangeOf(it: Item): Range {
    match it
    case Single(n) => Range(n, n)
    case Dash(a, b, _, _) => Range(a, b)
  }

  function Ranges(its: seq<Item>): seq<Range> {
    seq(|its|, i requires 0 <= i < |its| => RangeOf(its[i]))
  }

  function Blank(n: nat): (s: string)
    ensures |s| == n && forall i :: 0 <= i < n ==> s[i] == ' '
  {
    seq(n, _ => ' ')
  }

  function Written(it: Item): string {
    match it
    case Single(n) => Decimal(n)
    case Dash(a, b, l, r) => Decimal(a) + Blank(l) + "-" + Blank(r) + Decimal(b)
  }

  function Text(its: seq<Item>): string {
    if its == [] then ""
    else if |its| == 1 then Written(its[0])
    else Written(its[0]) + "," + Text(its[1..])
  }

  // The text w stands in s at position i.
  predicate Occurs(s: string, i: nat, w: string) {
    i + |w| <= |s| && s[i..i + |w|] == w
  }

  lemma OccursSplit(s: string, i: nat, u: string, v: string)
    requires Occurs(s, i, u + v)
    ensures Occurs(s, i, u) && Occurs(s, i + |u|, v)
  {
    assert s[i..i + |u|] == (u + v)[..|u|];
    assert s[i + |u|..i + |u| + |v|] == (u + v)[|u|..];
  }

  lemma OccursAt(s: string, i: nat, w: string, x: nat)
    requires Occurs(s, i, w) && x < |w|
    ensures i + x < |s| && s[i + x] == w[x]
  {
    assert s[i..i + |w|][x] == s[i + x];
  }

  lemma StrtolReads(s: string, i: nat, n: Port)
    requires Occurs(s, i, Decimal(n))
    requires i + |Decimal(n)| == |s| || !IsDigit(s[i + |Decimal(n)|])
    ensures IsDigit(s[i]) && Strtol(s, i) == Number(n, i + |Decimal(n)|)
  {
    var e := i + |Decimal(n)|;
    assert s[i] == s[i..e][0] && Decimal(n)[0] in Decimal(n);
    StrtolReadsNumber(s, i, i, i, e, n);
  }

  lemma {:induction false} SkipBlanksAt(s: string, i: nat, n: nat)
    requires Occurs(s, i, Blank(n))
    requires i + n == |s| || s[i + n] != ' '
    ensures SkipBlanks(s, i) == i + n
    decreases n
  {
    if n > 0 {
      assert s[i] == Blank(n)[0];
      assert s[i + 1..i + n] == Blank(n)[1..] == Blank(n - 1);
      SkipBlanksAt(s, i + 1, n - 1);
    }
  }

  lemma DashLayout(s: string, i: nat, a: Port, b: Port, l: nat, r: nat)
    requires Occurs(s, i, Decimal(a) + Blank(l) + "-" + Blank(r) + Decimal(b))
    ensures var k := i + |Decimal(a)|;
      && Occurs(s, i, Decimal(a)) && Occurs(s, k, Blank(l)) && Occurs(s, k + l, "-")
      && Occurs(s, k + l + 1, Blank(r)) && Occurs(s, k + l + 1 + r, Decimal(b))
  {
    hide Decimal, Occurs, Blank;
    var da, db := Decimal(a), Decimal(b);
    OccursSplit(s, i, da + Blank(l) + "-" + Blank(r), db);
    OccursSplit(s, i, da + Blank(l) + "-", Blank(r));
    OccursSplit(s, i, da + Blank(l), "-");
    OccursSplit(s, i, da, Blank(l));
  }

  // One written item is read back as its range, wherever it stands, provided
  // a comma or the end follows.
  lemma ReadItem(s: string, i: nat, it: Item)
    requires Occurs(s, i, Written(it))
    requires var e := i + |Written(it)|; e == |s| || s[e] == ','
    ensures i < |s| && IsDigit(s[i])
    ensures TokenAt(s, i) == Token(RangeOf(it), true, i + |Written(it)|)
  {
    hide Strtol, Decimal, Occurs, SkipBlanks, Blank, TokenAt;
    match it {
      case Single(n) => ReadSingle(s, i, n);
      case Dash(a, b, l, r) => ReadDash(s, i, a, b, l, r);
    }
  }

  lemma ReadSingle(s: string, i: nat, n: Port)
    requires Occurs(s, i, Decimal(n))
    requires var e := i + |Decimal(n)|; e == |s| || s[e] == ','
    ensures i < |s| && IsDigit(s[i])
    ensures TokenAt(s, i) == Token(Range(n, n), true, i + |Decimal(n)|)
  {
    hide Strtol, Decimal;
    StrtolReads(s, i, n);
  }

  lemma ReadDash(s: string, i: nat, a: Port, b: Port, l: nat, r: nat)
    requires Occurs(s, i, Decimal(a) + Blank(l) + "-" + Blank(r) + Decimal(b))
    requires var e := i + |Decimal(a)| + l + 1 + r + |Decimal(b)|; e == |s| || s[e] == ','
    ensures i < |s| && IsDigit(s[i])
    ensures TokenAt(s, i)
         == Token(Range(a, b), true, i + |Decimal(a)| + l + 1 + r + |Decimal(b)|)
  {
    hide Strtol, Decimal, Occurs, SkipBlanks, Blank, TokenAt;
    DashLayout(s, i, a, b, l, r);
    var k := i + |Decimal(a)|;
    var m := k + l + 1 + r;
    OccursAt(s, k + l, "-", 0);
    if l > 0 { OccursAt(s, k, Blank(l), 0); }
    StrtolReads(s, i, a);
    SkipBlanksAt(s, k, l);
    StrtolReads(s, m, b);
    SkipBlanksAt(s, k + l + 1, r);
    TokenOfParts(s, i, a, k, k + l, m, b, m + |Decimal(b)|);
  }

  lemma TokenOfParts(s: string, i: nat, a: Port, k: nat, dash: nat, m: nat, b: Port, e: nat)
    requires i <= |s| && Strtol(s, i) == Number(a, k)
    requires k <= |s| && SkipBlanks(s, k) == dash < |s| && s[dash] == '-'
    requires SkipBlanks(s, dash + 1) == m && Strtol(s, m) == Number(b, e)
    ensures TokenAt(s, i) == Token(Range(a, b), true, e)
  {
    hide Strtol, SkipBlanks;
  }

  lemma DenotesItem(s: string, i: nat, it: Item)
    requires Occurs(s, i, Written(it))
    requires var e := i + |Written(it)|; e == |s| || s[e] == ','
    ensures i + |Written(it)| <= |s|
    ensures var rest := Denotes(s, i + |Written(it)|);
      Denotes(s, i) == if rest.None? then None else Some([RangeOf(it)] + rest.value)
  {
    hide TokenAt, Written, RangeOf, Occurs;
    assert i + |Written(it)| <= |s| by { OccursFits(s, i, Written(it)); }
    ReadItem(s, i, it);
    assert SkipSeparators(s, i) == i;
    assert SkipBlanks(s, i + |Written(it)|) == i + |Written(it)|;
  }

  lemma OccursFits(s: string, i: nat, w: string)
    requires Occurs(s, i, w)
    ensures i + |w| <= |s|
  {
  }

  lemma DenotesComma(s: string, k: nat)
    requires k < |s| && s[k] == ','
    ensures Denotes(s, k) == Denotes(s, k + 1)
  {
    hide TokenAt;
    assert SkipSeparators(s, k) == SkipSeparators(s, k + 1);
  }

  lemma SplitAt(s: string, i: nat, w: string, post: string)
    requires i <= |s| && s[i..] == w + post
    ensures Occurs(s, i, w) && i + |w| <= |s| && s[i + |w|..] == post
    ensures post != [] ==> i + |w| < |s| && s[i + |w|] == post[0] && s[i + |w| + 1..] == post[1..]
  {
    var k := i + |w|;
    assert |s[i..]| == |w| + |post|;
    assert s[i..k] == s[i..][..|w|] == w;
    assert s[k..] == s[i..][|w|..] == post;
    if post != [] { assert s[k + 1..] == s[k..][1..] && s[k] == s[k..][0]; }
  }

  lemma {:induction false} ReadText(s: string, i: nat, its: seq<Item>)
    requires i <= |s| && s[i..] == Text(its)
    ensures Denotes(s, i) == Some(Ranges(its))
    decreases |its|
  {
    hide Denotes, Written, RangeOf, Occurs;
    if its == [] {
      DenotesEnd(s);
      assert Ranges(its) == [];
    } else {
      var w := Written(its[0]);
      var post := if |its| == 1 then "" else "," + Text(its[1..]);
      var k := i + |w|;
      assert s[i..] == w + post;
      SplitAt(s, i, w, post);
      DenotesItem(s, i, its[0]);
      if |its| == 1 {
        DenotesEnd(s);
        assert Ranges(its) == [RangeOf(its[0])] + [];
      } else {
        assert post[1..] == Text(its[1..]);
        ReadText(s, k + 1, its[1..]);
        DenotesComma(s, k);
        assert Ranges(its) == [RangeOf(its[0])] + Ranges(its[1..]);
      }
    }
  }

  lemma DenotesEnd(s: string)
    ensures Denotes(s, |s|) == Some([])
  {
  }

  // Every non-empty list of items, written out, is accepted and matches exactly
  // the union of its ranges.
  lemma WrittenSpecMatchesUnion(its: seq<Item>, port: Port)
    requires its != []
    ensures Text(its) != [] && Acceptable(Text(its))
    ensures Covered(Scanned(Text(its), 0), port)
       <==> exists i :: 0 <= i < |its| && Includes(its[i], port)
  {
    hide *;
    var s := Text(its);
    TextNonEmpty(its);
    assert s[0..] == s;
    ReadText(s, 0, its);
    ScannersAgree(s, 0);
    UnionOfItems(its, port);
    Accepted(s, its);
  }

  lemma TextNonEmpty(its: seq<Item>)
    requires its != []
    ensures Text(its) != []
  {
  }

  lemma Accepted(s: string, its: seq<Item>)
    requires its != [] && Denotes(s, 0) == Some(Ranges(its))
    ensures Acceptable(s)
  {
    assert |Ranges(its)| == |its|;
  }

  lemma UnionOfItems(its: seq<Item>, port: Port)
    ensures Covered(Ranges(its), port) <==> exists i :: 0 <= i < |its| && Includes(its[i], port)
  {
    var rs := Ranges(its);
    if i :| 0 <= i < |its| && Includes(its[i], port) {
      assert rs[i] in rs && Covers(rs[i], port);
    }
    if r :| r in rs && Covers(r, port) {
      var i :| 0 <= i < |its| && rs[i] == r;
      assert Includes(its[i], port);
    }
  }

  // ---- what is refused ---------------------------------------------------------------

  // Every bound of an accepted spec is a port.
  lemma {:induction false} AcceptedBoundsArePorts(s: string, i: nat)
    requires i <= |s| && Denotes(s, i).Some?
    ensures forall r :: r in Denotes(s, i).value ==> 0 <= r.a <= 65535 && 0 <= r.b <= 65535
    decreases |s| - i
  {
    hide Strtol, SkipSeparators, SkipBlanks;
    var j := SkipSeparators(s, i);
    if j < |s| {
      var t := TokenAt(s, j);
      StrictBounds(s, j);
      AcceptedBoundsArePorts(s, SkipBlanks(s, t.next));
    }
  }

  lemma StrictBounds(s: string, j: nat)
    requires j <= |s| && TokenAt(s, j).Token? && TokenAt(s, j).strict
    ensures var r := TokenAt(s, j).range; 0 <= r.a <= 65535 && 0 <= r.b <= 65535
  {
    hide Strtol, SkipBlanks;
  }

  // A number too big for a port is refused, wherever its item stands first.
  lemma BigNumberRefused(n: nat)
    requires n > 65535
    ensures !Acceptable(Decimal(n))
  {
    var s := Decimal(n);
    assert s[0..|s|] == s && s[0] in s;
    StrtolReadsNumber(s, 0, 0, 0, |s|, n);
    hide Strtol, Decimal;
  }

  // So are a dash with nothing behind it and anything else behind a number that
  // is neither a dash nor a comma.
  lemma DanglingRefused(n: Port, c: char)
    requires !IsDigit(c) && c != ',' && c != ' '
    ensures !Acceptable(Decimal(n) + [c])
  {
    var d := Decimal(n);
    var s := d + [c];
    assert s[0..|d|] == d && s[0] == d[0] && d[0] in d;
    StrtolReadsNumber(s, 0, 0, 0, |d|, n);
    StrtolFindsNone(s, |s|, |s|, |s|);
    hide Strtol, Decimal;
  }

  // Text without a number is refused.
  lemma WordRefused(c: char, rest: string)
    requires !IsDigit(c) && !IsSpace(c) && c !in {',', '+', '-'}
    ensures !Acceptable([c] + rest)
  {
    StrtolFindsNone([c] + rest, 0, 0, 0);
    hide Strtol;
  }

  // The matcher, which is lenient, steps over such text.
  lemma WordsAreSkipped(w: string, s: string)
    requires forall c :: c in w ==> !IsDigit(c) && !IsSpace(c) && c !in {',', '+', '-'}
    ensures Scanned(w + s, |w|) == Scanned(w + s, 0)
  {
    SkippedFrom(w, s, 0);
  }

  lemma OneSkipped(s: string, i: nat)
    requires i < |s| && s[i] != ' ' && s[i] != ',' && Strtol(s, i) == NoNumber
    ensures Scanned(s, i) == Scanned(s, i + 1)
  {
    hide Strtol, Bounded;
  }

  lemma {:induction false} SkippedFrom(w: string, s: string, i: nat)
    requires i <= |w| && forall c :: c in w ==> !IsDigit(c) && !IsSpace(c) && c !in {',', '+', '-'}
    ensures Scanned(w + s, |w|) == Scanned(w + s, i)
    decreases |w| - i
  {
    if i < |w| {
      assert (w + s)[i] == w[i] && w[i] in w && w[i] != ' ';
      StrtolFindsNone(w + s, i, i, i);
      hide *;
      OneSkipped(w + s, i);
      SkippedFrom(w, s, i + 1);
    }
  }
}
