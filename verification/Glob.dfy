// pmx_glob_match and pmx_glob_list_match: a matcher that backtracks only to the
// last star, proved equal to the declarative meaning of '*', '?' and literals.

module Glob {
  import opened Types
  import opened CText

  // One pattern character that is not a star accepts one text character.
  predicate Accepts(p: char, t: char, ci: bool) {
    p == '?' || CharEq(p, t, ci)
  }

  // The meaning of a glob: a star stands for any run of text, every other
  // pattern character for exactly one.
  ghost predicate Matches(p: string, t: string, ci: bool)
    decreases |p|
  {
    if p == [] then t == []
    else if p[0] == '*' then exists k :: 0 <= k <= |t| && Matches(p[1..], t[k..], ci)
    else t != [] && Accepts(p[0], t[0], ci) && Matches(p[1..], t[1..], ci)
  }

  // p[a..a+n] has no star and accepts t[b..b+n] character by character.
  ghost predicate Aligned(p: string, t: string, a: nat, b: nat, n: nat, ci: bool) {
    && a + n <= |p| && b + n <= |t|
    && forall x :: a <= x < a + n ==> p[x] != '*' && Accepts(p[x], t[x - a + b], ci)
  }

  // An aligned stretch can be dropped from both sides.
  lemma {:induction false} DropAligned(p: string, t: string, a: nat, b: nat, n: nat, ci: bool)
    requires Aligned(p, t, a, b, n, ci)
    ensures Matches(p[a..], t[b..], ci) <==> Matches(p[a + n..], t[b + n..], ci)
    decreases n
  {
    if n > 0 {
      assert p[a] != '*' && Accepts(p[a], t[b], ci);
      assert p[a..][1..] == p[a + 1..] && t[b..][1..] == t[b + 1..];
      DropAligned(p, t, a + 1, b + 1, n - 1, ci);
    }
  }

  // A star-free stretch of the pattern consumes exactly its own length.
  lemma {:induction false} StretchConsumes(p: string, t: string, a: nat, n: nat, k: nat, ci: bool)
    requires a + n <= |p| && k <= |t|
    requires forall x :: a <= x < a + n ==> p[x] != '*'
    requires Matches(p[a..], t[k..], ci)
    ensures k + n <= |t| && Matches(p[a + n..], t[k + n..], ci)
    decreases n
  {
    if n > 0 {
      assert p[a..][0] == p[a];
      assert p[a..][1..] == p[a + 1..] && t[k..][1..] == t[k + 1..];
      StretchConsumes(p, t, a + 1, n - 1, k + 1, ci);
    }
  }

  // Some text suffix starting at `from` or later matches p[a..].
  ghost predicate MatchesFrom(p: string, t: string, a: nat, from: nat, ci: bool)
    requires a <= |p|
  {
    exists k :: from <= k <= |t| && Matches(p[a..], t[k..], ci)
  }

  lemma StarMeans(p: string, t: string, i: nat, j: nat, ci: bool)
    requires i < |p| && p[i] == '*' && j <= |t|
    ensures Matches(p[i..], t[j..], ci) <==> MatchesFrom(p, t, i + 1, j, ci)
  {
    assert p[i..][1..] == p[i + 1..];
    if Matches(p[i..], t[j..], ci) {
      var k :| 0 <= k <= |t[j..]| && Matches(p[i..][1..], t[j..][k..], ci);
      assert t[j..][k..] == t[j + k..];
    }
    if MatchesFrom(p, t, i + 1, j, ci) {
      var k :| j <= k <= |t| && Matches(p[i + 1..], t[k..], ci);
      assert t[j..][k - j..] == t[k..];
    }
  }

  // What the matcher knows at pattern position i and text position j: either no
  // star was met and the rest decides, or everything since the last star at sp
  // is aligned from st on, and some placement of that star at st or later
  // decides.
  ghost predicate Frontier(p: string, t: string, ci: bool, star: bool, sp: nat, st: nat, i: nat, j: nat) {
    && i <= |p| && j <= |t|
    && if star
       then
         && sp < i && st <= j && i - sp - 1 == j - st
         && Aligned(p, t, sp + 1, st, j - st, ci)
         && (Matches(p, t, ci) <==> MatchesFrom(p, t, sp + 1, st, ci))
       else Matches(p, t, ci) <==> Matches(p[i..], t[j..], ci)
  }

  // Why forgetting every star but the last is safe: once the stretch between
  // two stars has been aligned at its leftmost place, any later placement of
  // the earlier star is also a placement of the later one.
  lemma MeetStar(p: string, t: string, ci: bool, star: bool, sp: nat, st: nat, i: nat, j: nat)
    requires Frontier(p, t, ci, star, sp, st, i, j)
    requires i < |p| && p[i] == '*'
    ensures Frontier(p, t, ci, true, i, j, i + 1, j)
  {
    hide Matches;
    StarMeans(p, t, i, j, ci);
    if star { LastStarSuffices(p, t, ci, sp, st, i, j); }
  }

  lemma LastStarSuffices(p: string, t: string, ci: bool, sp: nat, st: nat, i: nat, j: nat)
    requires sp < i < |p| && p[i] == '*' && st <= j <= |t| && i - sp - 1 == j - st
    requires Aligned(p, t, sp + 1, st, j - st, ci)
    ensures MatchesFrom(p, t, sp + 1, st, ci) <==> MatchesFrom(p, t, i + 1, j, ci)
  {
    hide Matches, Accepts;
    var n := j - st;
    StarMeans(p, t, i, j, ci);
    DropAligned(p, t, sp + 1, st, n, ci);
    if MatchesFrom(p, t, sp + 1, st, ci) {
      var k :| st <= k <= |t| && Matches(p[sp + 1..], t[k..], ci);
      StretchConsumes(p, t, sp + 1, n, k, ci);
      StarMeans(p, t, i, k + n, ci);
    }
  }

  lemma AcceptOne(p: string, t: string, ci: bool, star: bool, sp: nat, st: nat, i: nat, j: nat)
    requires Frontier(p, t, ci, star, sp, st, i, j)
    requires i < |p| && j < |t| && p[i] != '*' && Accepts(p[i], t[j], ci)
    ensures Frontier(p, t, ci, star, sp, st, i + 1, j + 1)
  {
    hide Matches;
    if !star { DropAligned(p, t, i, j, 1, ci); }
  }

  // A failed character rules out the current placement of the star.
  lemma Retreat(p: string, t: string, ci: bool, sp: nat, st: nat, i: nat, j: nat)
    requires Frontier(p, t, ci, true, sp, st, i, j) && j < |t|
    requires i == |p| || (p[i] != '*' && !Accepts(p[i], t[j], ci))
    ensures Frontier(p, t, ci, true, sp, st + 1, sp + 1, st + 1)
  {
    assert !Matches(p[i..], t[j..], ci);
    hide Matches, Accepts;
    DropAligned(p, t, sp + 1, st, j - st, ci);
  }

  lemma NoWayOn(p: string, t: string, ci: bool, sp: nat, st: nat, i: nat, j: nat)
    requires Frontier(p, t, ci, false, sp, st, i, j) && j < |t|
    requires i == |p| || (p[i] != '*' && !Accepts(p[i], t[j], ci))
    ensures !Matches(p, t, ci)
  {
  }

  // With the text used up, only the placement at hand can still succeed.
  lemma TextUsedUp(p: string, t: string, ci: bool, star: bool, sp: nat, st: nat, i: nat)
    requires Frontier(p, t, ci, star, sp, st, i, |t|)
    ensures Matches(p, t, ci) <==> forall x :: i <= x < |p| ==> p[x] == '*'
  {
    hide Matches, Accepts;
    assert t[|t|..] == [];
    EmptyTextNeedsStars(p, i, ci);
    if star {
      var n := |t| - st;
      DropAligned(p, t, sp + 1, st, n, ci);
      if MatchesFrom(p, t, sp + 1, st, ci) {
        var k :| st <= k <= |t| && Matches(p[sp + 1..], t[k..], ci);
        StretchConsumes(p, t, sp + 1, n, k, ci);
        assert k == st;
      }
    }
  }

  lemma {:induction false} EmptyTextNeedsStars(p: string, i: nat, ci: bool)
    requires i <= |p|
    ensures Matches(p[i..], [], ci) <==> forall x :: i <= x < |p| ==> p[x] == '*'
    decreases |p| - i
  {
    if i < |p| {
      assert p[i..][1..] == p[i + 1..];
      EmptyTextNeedsStars(p, i + 1, ci);
      if p[i] == '*' {
        var t: string := [];
        assert t[0..] == t;
        StarMeans(p, t, i, 0, ci);
        assert Matches(p[i + 1..], t, ci) <==> Matches(p[i + 1..], t[0..], ci);
      }
    }
  }

  // pmx_glob_match. `steps` counts iterations of the main loop: every retreat
  // moves the star's text position forward for good, and between retreats the
  // pattern position only grows.
  method GlobMatch(pattern: string, text: string, ci: bool) returns (b: bool, ghost steps: nat)
    ensures b <==> Matches(pattern, text, ci)
    ensures steps <= (|pattern| + 1) * (|text| + 1)
  {
    hide Matches, Aligned, MatchesFrom;
    var p, t := 0, 0;
    var star := false;
    var starP, starT := 0, 0;
    steps := 0;
    ghost var retreats := 0;
    assert pattern[0..] == pattern && text[0..] == text;
    while t < |text|
      invariant Frontier(pattern, text, ci, star, starP, starT, p, t)
      invariant retreats <= (if star then starT else 0)
      invariant WithinBudget(|pattern|, retreats, p, steps)
      decreases if star then |pattern| - starP else |pattern| + 1, |text| - starT, |text| - t
    {
      BudgetSuffices(|pattern|, |text|, retreats, p, steps);
      steps := steps + 1;
      if p < |pattern| && pattern[p] == '*' {
        MeetStar(pattern, text, ci, star, starP, starT, p, t);
        star, starP, starT := true, p, t;
        p := p + 1;
      } else if p < |pattern| && (pattern[p] == '?' || CharEq(pattern[p], text[t], ci)) {
        AcceptOne(pattern, text, ci, star, starP, starT, p, t);
        p, t := p + 1, t + 1;
      } else if star {
        Retreat(pattern, text, ci, starP, starT, p, t);
        BudgetRetreat(|pattern|, retreats, p, steps, starP + 1);
        retreats := retreats + 1;
        p := starP + 1;
        starT := starT + 1;
        t := starT;
      } else {
        NoWayOn(pattern, text, ci, starP, starT, p, t);
        return false, steps;
      }
    }
    BudgetSuffices(|pattern|, |text|, retreats, p, steps);
    TextUsedUp(pattern, text, ci, star, starP, starT, p);
    ghost var q := p;
    while p < |pattern| && pattern[p] == '*'
      invariant q <= p <= |pattern|
      invariant forall x :: q <= x < p ==> pattern[x] == '*'
    {
      p := p + 1;
    }
    b := p == |pattern|;
  }

  // A round between two retreats takes at most one step per pattern position,
  // plus the retreat itself.
  ghost predicate WithinBudget(m: nat, retreats: nat, p: nat, steps: nat) {
    steps <= retreats * (m + 1) + p
  }

  lemma BudgetRetreat(m: nat, retreats: nat, p: nat, steps: nat, p': nat)
    requires p <= m && steps > 0 && WithinBudget(m, retreats, p, steps - 1)
    ensures WithinBudget(m, retreats + 1, p', steps)
  {
    assert (retreats + 1) * (m + 1) == retreats * (m + 1) + m + 1;
  }

  lemma BudgetSuffices(m: nat, n: nat, retreats: nat, p: nat, steps: nat)
    requires p <= m && retreats <= n && WithinBudget(m, retreats, p, steps)
    ensures steps < (m + 1) * (n + 1)
  {
    assert retreats * (m + 1) <= n * (m + 1);
    assert (m + 1) * (n + 1) == n * (m + 1) + m + 1;
  }

  // ---- ';'-separated lists ---------------------------------------------

  // list[a..b] is one maximal stretch without a separator.
  ghost predicate IsSegment(list: string, a: nat, b: nat) {
    && a <= b <= |list|
    && (a == 0 || list[a - 1] == ';')
    && (b == |list| || list[b] == ';')
    && forall x :: a <= x < b ==> list[x] != ';'
  }

  // The segment is not blank and its trimmed text, cut to the pattern buffer,
  // matches.
  ghost predicate SegmentMatches(list: string, a: nat, b: nat, text: string, ci: bool)
    requires a <= b <= |list|
  {
    var seg := Trimmed(list[a..b]);
    seg != [] && Matches(Clip(seg, MAX_PATTERN), text, ci)
  }

  ghost predicate ListMatches(list: string, text: string, ci: bool) {
    list == [] || exists a: nat, b: nat :: IsSegment(list, a, b) && SegmentMatches(list, a, b, text, ci)
  }

  // No segment that starts before `start` matches.
  ghost predicate Cleared(list: string, start: nat, text: string, ci: bool) {
    && start <= |list|
    && (start == 0 || list[start - 1] == ';')
    && forall a: nat, b: nat ::
         a < start && IsSegment(list, a, b) ==> !SegmentMatches(list, a, b, text, ci)
  }

  lemma ClearNext(list: string, start: nat, sep: nat, text: string, ci: bool)
    requires Cleared(list, start, text, ci) && IsSegment(list, start, sep)
    requires !SegmentMatches(list, start, sep, text, ci)
    ensures sep < |list| ==> Cleared(list, sep + 1, text, ci)
    ensures sep == |list| ==> !ListMatches(list, text, ci) || list == []
  {
    hide SegmentMatches;
    forall a: nat, b: nat | start <= a <= sep && IsSegment(list, a, b)
      ensures !SegmentMatches(list, a, b, text, ci)
    {
      assert a == start && b == sep;
    }
  }

  lemma ClearAtEnd(list: string, text: string, ci: bool)
    requires list != [] && Cleared(list, |list|, text, ci)
    ensures !ListMatches(list, text, ci)
  {
    forall a: nat, b: nat | IsSegment(list, a, b) && a == |list|
      ensures !SegmentMatches(list, a, b, text, ci)
    {
      assert list[a..b] == [];
    }
  }

  // strchr(start, ';'), or the end of the string.
  method SegmentEnd(list: string, start: nat) returns (sep: nat)
    requires start <= |list| && (start == 0 || list[start - 1] == ';')
    ensures IsSegment(list, start, sep)
  {
    sep := start;
    while sep < |list| && list[sep] != ';'
      invariant start <= sep <= |list|
      invariant forall x :: start <= x < sep ==> list[x] != ';'
    {
      sep := sep + 1;
    }
  }

  // pmx_glob_list_match; a missing list means "any", a missing text is empty.
  method GlobListMatch(list: Option<string>, text: Option<string>, ci: bool) returns (r: bool)
    ensures r <==> list.None? || ListMatches(list.value, if text.Some? then text.value else "", ci)
  {
    if list.None? || list.value == [] { return true; }
    hide Matches, Trimmed, Clip;
    var l := list.value;
    var t := if text.Some? then text.value else "";
    var start := 0;
    while start < |l|
      invariant Cleared(l, start, t, ci)
    {
      var sep := SegmentEnd(l, start);
      var pat := Trim(l[start..sep]);
      if pat != [] {
        var hit, _ := GlobMatch(Clip(pat, MAX_PATTERN), t, ci);
        if hit {
          assert SegmentMatches(l, start, sep, t, ci);
          return true;
        }
      }
      ClearNext(l, start, sep, t, ci);
      if sep == |l| { return false; }
      start := sep + 1;
    }
    ClearAtEnd(l, t, ci);
    return false;
  }

  // ---- what patterns mean -------------------------------------------------------------

  // One pattern character: a star stands for any text, a question mark for any
  // one character, and a literal for itself or, folded, for its other case.
  lemma OneCharacter(c: char, t: string, ci: bool)
    ensures Matches([c], t, ci)
       <==> c == '*' || (|t| == 1 && (c == '?' || c == t[0] || (ci && Lower(c) == Lower(t[0]))))
  {
    assert [c][1..] == [];
    if c == '*' { assert t[|t|..] == [] && Matches([], t[|t|..], ci); }
  }

  // Some place to split the text fits both parts.
  ghost predicate Splits(p: string, q: string, t: string, ci: bool) {
    exists k :: 0 <= k <= |t| && Matches(p, t[..k], ci) && Matches(q, t[k..], ci)
  }

  lemma SplitAt(p: string, q: string, t: string, k: nat, ci: bool)
    requires k <= |t| && Matches(p, t[..k], ci) && Matches(q, t[k..], ci)
    ensures Splits(p, q, t, ci)
  {
  }

  // And a pattern in two parts splits the text between them.
  lemma {:induction false} TwoParts(p: string, q: string, t: string, ci: bool)
    ensures Matches(p + q, t, ci) <==> Splits(p, q, t, ci)
    decreases |p|, 1
  {
    if p == [] {
      assert p + q == q && t[0..] == t && t[..0] == [];
    } else if p[0] == '*' {
      if Matches(p + q, t, ci) { StarSplits(p, q, t, ci); }
      if Splits(p, q, t, ci) { SplitsStar(p, q, t, ci); }
    } else {
      OneThenRest(p, q, t, ci);
    }
  }

  lemma {:induction false} OneThenRest(p: string, q: string, t: string, ci: bool)
    requires p != [] && p[0] != '*'
    ensures Matches(p + q, t, ci) <==> Splits(p, q, t, ci)
    decreases |p|, 0
  {
    assert (p + q)[0] == p[0] && (p + q)[1..] == p[1..] + q;
    if t != [] {
      TwoParts(p[1..], q, t[1..], ci);
      if k :| 0 <= k <= |t[1..]| && Matches(p[1..], t[1..][..k], ci) && Matches(q, t[1..][k..], ci) {
        assert t[..k + 1][1..] == t[1..][..k] && t[k + 1..] == t[1..][k..] && t[..k + 1][0] == t[0];
      }
      if k :| 0 <= k <= |t| && Matches(p, t[..k], ci) && Matches(q, t[k..], ci) {
        assert t[..k][1..] == t[1..][..k - 1] && t[k..] == t[1..][k - 1..] && t[..k][0] == t[0];
      }
    }
  }

  lemma StarMatches(p: string, t: string, j: nat, ci: bool)
    requires p != [] && p[0] == '*' && j <= |t| && Matches(p[1..], t[j..], ci)
    ensures Matches(p, t, ci)
  {
  }

  lemma StarPlace(p: string, t: string, ci: bool) returns (j: nat)
    requires p != [] && p[0] == '*' && Matches(p, t, ci)
    ensures j <= |t| && Matches(p[1..], t[j..], ci)
  {
    j :| 0 <= j <= |t| && Matches(p[1..], t[j..], ci);
  }

  lemma SplitPlace(p: string, q: string, t: string, ci: bool) returns (k: nat)
    requires Splits(p, q, t, ci)
    ensures k <= |t| && Matches(p, t[..k], ci) && Matches(q, t[k..], ci)
  {
    k :| 0 <= k <= |t| && Matches(p, t[..k], ci) && Matches(q, t[k..], ci);
  }

  lemma {:induction false} StarSplits(p: string, q: string, t: string, ci: bool)
    requires p != [] && p[0] == '*' && Matches(p + q, t, ci)
    ensures Splits(p, q, t, ci)
    decreases |p|, 0
  {
    hide *;
    assert (p + q)[0] == p[0] && (p + q)[1..] == p[1..] + q;
    var j := StarPlace(p + q, t, ci);
    TwoParts(p[1..], q, t[j..], ci);
    var k := SplitPlace(p[1..], q, t[j..], ci);
    assert t[..j + k][j..] == t[j..][..k] && t[j + k..] == t[j..][k..];
    StarMatches(p, t[..j + k], j, ci);
    SplitAt(p, q, t, j + k, ci);
  }

  lemma {:induction false} SplitsStar(p: string, q: string, t: string, ci: bool)
    requires p != [] && p[0] == '*' && Splits(p, q, t, ci)
    ensures Matches(p + q, t, ci)
    decreases |p|, 0
  {
    hide *;
    var k := SplitPlace(p, q, t, ci);
    var j := StarPlace(p, t[..k], ci);
    assert t[j..][..k - j] == t[..k][j..] && t[j..][k - j..] == t[k..];
    SplitAt(p[1..], q, t[j..], k - j, ci);
    TwoParts(p[1..], q, t[j..], ci);
    assert (p + q)[0] == p[0] && (p + q)[1..] == p[1..] + q;
    StarMatches(p + q, t, j, ci);
  }

  // ---- what lists mean ------------------------------------------------------------------

  function ListText(items: seq<string>): string {
    if items == [] then ""
    else if |items| == 1 then items[0]
    else items[0] + ";" + ListText(items[1..])
  }

  lemma HeadSegment(x: string, rest: string, a: nat, b: nat)
    requires ';' !in x
    ensures IsSegment(x + ";" + rest, a, b) <==>
      (a == 0 && b == |x|) || (a > |x| && b > |x| && IsSegment(rest, a - |x| - 1, b - |x| - 1))
  {
    var l, n := x + ";" + rest, |x| + 1;
    forall k | 0 <= k < |x| ensures l[k] != ';' { assert l[k] == x[k] && x[k] in x; }
    assert l[|x|] == ';' && forall k :: n <= k < |l| ==> l[k] == rest[k - n];
    if IsSegment(l, a, b) && a > 0 {
      assert forall k :: a - n <= k < b - n && 0 <= k ==> rest[k] == l[k + n];
    }
    if a > |x| && b > |x| && IsSegment(rest, a - n, b - n) {
      assert forall k :: a <= k < b ==> l[k] == rest[k - n];
    }
  }

  lemma OneSegment(x: string, a: nat, b: nat)
    requires ';' !in x
    ensures IsSegment(x, a, b) <==> a == 0 && b == |x|
  {
    forall k | 0 <= k < |x| ensures x[k] != ';' { assert x[k] in x; }
  }

  // The segment a..b of the text is item i of the list.
  lemma {:induction false} SegmentIsItem(items: seq<string>, a: nat, b: nat) returns (i: nat)
    requires items != [] && (forall x :: x in items ==> ';' !in x) && IsSegment(ListText(items), a, b)
    ensures i < |items| && ListText(items)[a..b] == items[i]
    decreases |items|
  {
    var l, x := ListText(items), items[0];
    if |items| == 1 {
      OneSegment(x, a, b);
      i := 0;
      assert l[0..|x|] == x;
    } else {
      var rest, n := ListText(items[1..]), |x| + 1;
      HeadSegment(x, rest, a, b);
      if a == 0 {
        i := 0;
        assert l[0..|x|] == x;
      } else {
        i := SegmentIsItem(items[1..], a - n, b - n);
        assert l[a..b] == rest[a - n..b - n];
        i := i + 1;
      }
    }
  }

  lemma {:induction false} ItemIsSegment(items: seq<string>, i: nat) returns (a: nat, b: nat)
    requires i < |items| && forall x :: x in items ==> ';' !in x
    ensures IsSegment(ListText(items), a, b) && ListText(items)[a..b] == items[i]
    decreases |items|
  {
    var l, x := ListText(items), items[0];
    if |items| == 1 {
      OneSegment(x, 0, |x|);
      a, b := 0, |x|;
      assert l[0..|x|] == x;
    } else {
      var rest, n := ListText(items[1..]), |x| + 1;
      if i == 0 {
        HeadSegment(x, rest, 0, |x|);
        a, b := 0, |x|;
        assert l[0..|x|] == x;
      } else {
        a, b := ItemIsSegment(items[1..], i - 1);
        HeadSegment(x, rest, a + n, b + n);
        assert l[a + n..b + n] == rest[a..b];
        a, b := a + n, b + n;
      }
    }
  }

  // A list written from its items matches when one of them does, blanks around it
  // aside and cut to 511 characters; items that are only blanks never match.
  lemma WrittenListMatchesAny(items: seq<string>, text: string, ci: bool)
    requires (forall x :: x in items ==> ';' !in x) && ListText(items) != []
    ensures ListMatches(ListText(items), text, ci)
       <==> exists i :: 0 <= i < |items| && Trimmed(items[i]) != []
              && Matches(if |Trimmed(items[i])| < 512 then Trimmed(items[i]) else Trimmed(items[i])[..511], text, ci)
  {
    hide Matches, Trimmed, ListText;
    var l := ListText(items);
    assert items != [] by { NoItems(items); }
    if a: nat, b: nat :| IsSegment(l, a, b) && SegmentMatches(l, a, b, text, ci) {
      var i := SegmentIsItem(items, a, b);
    }
    if i :| 0 <= i < |items| && Trimmed(items[i]) != []
            && Matches(if |Trimmed(items[i])| < 512 then Trimmed(items[i]) else Trimmed(items[i])[..511], text, ci) {
      var a, b := ItemIsSegment(items, i);
      assert SegmentMatches(l, a, b, text, ci);
    }
  }

  lemma NoItems(items: seq<string>)
    requires ListText(items) != []
    ensures items != []
  {
  }
}
