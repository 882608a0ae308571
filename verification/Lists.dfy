// The three in-place list edits of the core: shift one element out, compact,
// move one element.

module Lists {
  function RemoveAt<T>(s: seq<T>, i: nat): (r: seq<T>)
    requires i < |s|
    ensures |r| == |s| - 1
  {
    s[..i] + s[i + 1..]
  }

  function InsertAt<T>(s: seq<T>, i: nat, x: T): (r: seq<T>)
    requires i <= |s|
    ensures |r| == |s| + 1
  {
    s[..i] + [x] + s[i..]
  }

  // The element at `from` ends up at `to`.
  function Moved<T>(s: seq<T>, from: nat, to: nat): (r: seq<T>)
    requires from < |s| && to < |s|
    ensures |r| == |s|
  {
    InsertAt(RemoveAt(s, from), to, s[from])
  }

  // Which element a removal, and a move, puts at each place.
  lemma RemovedAt<T>(s: seq<T>, i: nat)
    requires i < |s|
    ensures forall k :: 0 <= k < |s| - 1 ==> RemoveAt(s, i)[k] == s[if k < i then k else k + 1]
  {
  }

  lemma InsertedAt<T>(s: seq<T>, i: nat, x: T)
    requires i <= |s|
    ensures forall k :: 0 <= k <= |s| ==> InsertAt(s, i, x)[k] == if k < i then s[k] else if k == i then x else s[k - 1]
  {
    var r := InsertAt(s, i, x);
    forall k | 0 <= k <= |s| ensures r[k] == if k < i then s[k] else if k == i then x else s[k - 1] {
      if k > i { assert r[k] == s[i..][k - i - 1]; }
    }
  }

  function Origin(from: nat, to: nat, k: nat): nat {
    if k == to then from else if from <= k < to then k + 1 else if to < k <= from then k - 1 else k
  }

  lemma MovedAt<T>(s: seq<T>, from: nat, to: nat)
    requires from < |s| && to < |s|
    ensures forall k :: 0 <= k < |s| ==> Moved(s, from, to)[k] == s[Origin(from, to, k)]
  {
    RemovedAt(s, from);
    InsertedAt(RemoveAt(s, from), to, s[from]);
    hide RemoveAt, InsertAt;
  }

  // Shift every element behind idx down by one and drop the last place.
  method ShiftOut<T>(s: seq<T>, idx: nat) returns (r: seq<T>)
    requires idx < |s|
    ensures r == RemoveAt(s, idx)
  {
    r := s;
    var i := idx;
    while i + 1 < |s|
      invariant idx <= i < |s| == |r|
      invariant forall k :: 0 <= k < |r| ==> r[k] == s[if idx <= k < i then k + 1 else k]
    {
      r := r[i := r[i + 1]];
      i := i + 1;
    }
    r := r[..|s| - 1];
    RemovedAt(s, idx);
  }

  // The shifting loops of pmx_profile_move_rule and pmx_chain_move_hop.
  method Move<T>(s: seq<T>, from: nat, to: nat) returns (r: seq<T>)
    requires from < |s| && to < |s|
    ensures r == Moved(s, from, to)
  {
    r := s;
    MovedAt(s, from, to);
    hide Moved;
    if from == to { return; }
    var moved := s[from];
    var i := from;
    if from < to {
      while i < to
        invariant from <= i <= to && |r| == |s|
        invariant forall k :: 0 <= k < |r| ==> r[k] == s[if from <= k < i then k + 1 else k]
      {
        r := r[i := r[i + 1]];
        i := i + 1;
      }
    } else {
      while i > to
        invariant to <= i <= from && |r| == |s|
        invariant forall k :: 0 <= k < |r| ==> r[k] == s[if i < k <= from then k - 1 else k]
      {
        r := r[i := r[i - 1]];
        i := i - 1;
      }
    }
    r := r[to := moved];
  }

  // A move loses nothing, invents nothing, keeps the relative order of all
  // other elements, and the opposite move undoes it.
  lemma MoveIsLocal<T>(s: seq<T>, from: nat, to: nat)
    requires from < |s| && to < |s|
    ensures multiset(Moved(s, from, to)) == multiset(s)
    ensures RemoveAt(Moved(s, from, to), to) == RemoveAt(s, from) && Moved(s, from, to)[to] == s[from]
    ensures Moved(Moved(s, from, to), to, from) == s
  {
    var rest := RemoveAt(s, from);
    var m := Moved(s, from, to);
    assert RemoveAt(m, to) == rest;
    InsertRemoved(s, from);
    InsertedBag(rest, from, s[from]);
    InsertedBag(rest, to, s[from]);
  }

  lemma InsertRemoved<T>(s: seq<T>, i: nat)
    requires i < |s|
    ensures InsertAt(RemoveAt(s, i), i, s[i]) == s
  {
  }

  lemma InsertedBag<T>(s: seq<T>, i: nat, x: T)
    requires i <= |s|
    ensures multiset(InsertAt(s, i, x)) == multiset(s) + multiset{x}
  {
    assert s == s[..i] + s[i..];
  }

  // ---- compaction ------------------------------------------------------------

  // The elements other than x, in order.
  function Without<T(==,!new)>(s: seq<T>, x: T): (r: seq<T>)
    ensures |r| <= |s| && x !in r
    ensures forall y :: y in r <==> y in s && y != x
  {
    if s == [] then []
    else if s[|s| - 1] == x then Without(s[..|s| - 1], x)
    else Without(s[..|s| - 1], x) + [s[|s| - 1]]
  }

  // One pass with a write index behind the read index, keeping all but x.
  method Compact<T(==,!new)>(s: seq<T>, x: T) returns (r: seq<T>)
    ensures r == Without(s, x)
  {
    r := s;
    var w, h := 0, 0;
    while h < |s|
      invariant 0 <= w <= h <= |s| == |r|
      invariant r[..w] == Without(s[..h], x)
      invariant forall k :: h <= k < |s| ==> r[k] == s[k]
    {
      assert s[..h + 1][..h] == s[..h];
      if r[h] != x {
        r := r[w := r[h]];
        w := w + 1;
      }
      h := h + 1;
    }
    assert s[..|s|] == s;
    r := r[..w];
  }

  // Every x replaced by y, in place.
  function Replaced<T(==)>(s: seq<T>, x: T, y: T): (r: seq<T>)
    ensures |r| == |s| && forall i :: 0 <= i < |s| ==> r[i] == if s[i] == x then y else s[i]
  {
    seq(|s|, i requires 0 <= i < |s| => if s[i] == x then y else s[i])
  }

  method Replace<T(==)>(s: seq<T>, x: T, y: T) returns (r: seq<T>)
    ensures r == Replaced(s, x, y)
  {
    r := s;
    var h := 0;
    while h < |s|
      invariant h <= |s| == |r|
      invariant forall i :: 0 <= i < |s| ==> r[i] == if i < h && s[i] == x then y else s[i]
    {
      if r[h] == x { r := r[h := y]; }
      h := h + 1;
    }
  }

  // Compaction works element by element, so it keeps the order: the elements of
  // a front and a back are kept apart.
  lemma {:induction false} WithoutParts<T(!new)>(a: seq<T>, b: seq<T>, x: T)
    ensures Without(a + b, x) == Without(a, x) + Without(b, x)
    ensures |a| == 1 ==> Without(a, x) == if a[0] == x then [] else a
    decreases |b|
  {
    if b == [] {
      assert a + b == a && Without(a, x) + [] == Without(a, x);
    } else {
      var n := |b| - 1;
      assert (a + b)[..|a + b| - 1] == a + b[..n] && (a + b)[|a + b| - 1] == b[n];
      WithoutParts(a, b[..n], x);
    }
    if |a| == 1 { assert a[..0] == [] && a == [a[0]]; }
  }
}
