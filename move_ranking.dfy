/**
 * Candidate moves of the computer opponent and their ranking. The opponent
 * sorts its candidates with `sort((a, b) => b.value - a.value)`: a stable sort
 * (as the language's array sort is) by value, highest first. `SortDesc` is
 * that sort as a function; `SortByValueDesc` sorts an array in place by
 * insertion and is proved to compute it.
 */
module MoveRanking {

  /** A candidate move: origin key, target key, the moving symbol and its running score. */
  datatype Move = Move(from: string, to: string, piece: string, value: int)

  predicate SortedDesc(s: seq<Move>) {
    forall i, j :: 0 <= i < j < |s| ==> s[i].value >= s[j].value
  }

  /** Inserts x into s after every element whose value is at least x's (keeps ties in order). */
  function Insert(s: seq<Move>, x: Move): seq<Move>
    decreases |s|
  {
    if s == [] then [x]
    else if s[|s| - 1].value >= x.value then s + [x]
    else Insert(s[..|s| - 1], x) + [s[|s| - 1]]
  }

  /** Stable sort by value, highest first: insert each element in turn. */
  function SortDesc(s: seq<Move>): seq<Move>
    decreases |s|
  {
    if s == [] then [] else Insert(SortDesc(s[..|s| - 1]), s[|s| - 1])
  }

  lemma {:induction false} InsertFacts(s: seq<Move>, x: Move)
    requires SortedDesc(s)
    ensures |Insert(s, x)| == |s| + 1
    ensures multiset(Insert(s, x)) == multiset(s) + multiset{x}
    ensures SortedDesc(Insert(s, x))
  {
    if s != [] && s[|s| - 1].value < x.value {
      var init, last := s[..|s| - 1], s[|s| - 1];
      assert s == init + [last];
      InsertFacts(init, x);
      var r := Insert(init, x);
      // every element of r is init's or x, so none is below last
      forall k | 0 <= k < |r| ensures r[k].value >= last.value {
        assert r[k] in multiset(init) + multiset{x};
        if r[k] != x {
          var m :| 0 <= m < |init| && init[m] == r[k];
        }
      }
    }
  }

  /** The sort yields a descending permutation of its input. */
  lemma {:induction false} SortDescFacts(s: seq<Move>)
    ensures |SortDesc(s)| == |s|
    ensures multiset(SortDesc(s)) == multiset(s)
    ensures SortedDesc(SortDesc(s))
  {
    if s != [] {
      var init := s[..|s| - 1];
      SortDescFacts(init);
      InsertFacts(SortDesc(init), s[|s| - 1]);
      assert s == init + [s[|s| - 1]];
    }
  }

  /** The moves of s whose value is exactly v, in their order in s. */
  function WithValue(s: seq<Move>, v: int): seq<Move>
    decreases |s|
  {
    if s == [] then []
    else WithValue(s[..|s| - 1], v) + (if s[|s| - 1].value == v then [s[|s| - 1]] else [])
  }

  /** Inserting x adds it behind the moves of its own value and leaves every other value's moves alone. */
  lemma {:induction false} InsertWithValue(s: seq<Move>, x: Move, v: int)
    ensures WithValue(Insert(s, x), v) == WithValue(s, v) + (if x.value == v then [x] else [])
    decreases |s|
  {
    if s == [] {
      assert Insert(s, x) == [x];
      assert [x][..0] == [];
    } else if s[|s| - 1].value >= x.value {
      assert (s + [x])[..|s|] == s;
    } else {
      var init, last := s[..|s| - 1], s[|s| - 1];
      InsertWithValue(init, x, v);
      var r := Insert(init, x);
      assert (r + [last])[..|r|] == r;
    }
  }

  /**
   * The sort is stable: the moves of any one value come out in the order they
   * went in, so among tied candidates the earlier one is ranked first.
   */
  lemma {:induction false} SortDescStable(s: seq<Move>, v: int)
    ensures WithValue(SortDesc(s), v) == WithValue(s, v)
    decreases |s|
  {
    if s != [] {
      var init := s[..|s| - 1];
      SortDescStable(init, v);
      InsertWithValue(SortDesc(init), s[|s| - 1], v);
    }
  }

  /** Three moves, two of them tied: the tie keeps its input order behind the larger one. */
  lemma SortDescTieExample()
    ensures var a, b, c := Move("0-0", "1-0", "車", 5), Move("0-1", "2-2", "馬", 9), Move("0-8", "1-8", "車", 5);
      SortDesc([a, b, c]) == [b, a, c]
  {
    var a, b, c := Move("0-0", "1-0", "車", 5), Move("0-1", "2-2", "馬", 9), Move("0-8", "1-8", "車", 5);
    assert [a, b, c][..2] == [a, b];
    assert [a, b][..1] == [a];
    assert [a][..0] == [];
    assert SortDesc([a]) == [a];
    assert SortDesc([a, b]) == Insert([a], b) == [b, a];
    assert [b, a][..1] == [b];
  }

  /** How many moves have a value strictly greater than v. */
  function CountAbove(s: seq<Move>, v: int): nat
    decreases |s|
  {
    if s == [] then 0 else (if s[0].value > v then 1 else 0) + CountAbove(s[1..], v)
  }

  lemma {:induction false} CountAboveConcat(a: seq<Move>, b: seq<Move>, v: int)
    ensures CountAbove(a + b, v) == CountAbove(a, v) + CountAbove(b, v)
  {
    if a == [] {
      assert a + b == b;
    } else {
      assert (a + b)[1..] == a[1..] + b;
      CountAboveConcat(a[1..], b, v);
    }
  }

  /** Taking out position i: the multiset loses b[i], the count loses b[i]'s share. */
  lemma RemoveAt(b: seq<Move>, i: nat, v: int)
    requires i < |b|
    ensures multiset(b[..i] + b[i + 1..]) == multiset(b) - multiset{b[i]}
    ensures CountAbove(b, v) == CountAbove(b[..i] + b[i + 1..], v) + (if b[i].value > v then 1 else 0)
  {
    var x := b[i];
    assert b == b[..i] + [x] + b[i + 1..];
    CountAboveConcat(b[..i] + [x], b[i + 1..], v);
    CountAboveConcat(b[..i], [x], v);
    CountAboveConcat(b[..i], b[i + 1..], v);
  }

  /** The count depends only on the multiset of moves. */
  lemma {:induction false} CountAbovePerm(a: seq<Move>, b: seq<Move>, v: int)
    requires multiset(a) == multiset(b)
    ensures CountAbove(a, v) == CountAbove(b, v)
    decreases |a|
  {
    if a == [] {
      assert |b| == |multiset(b)| == 0;
    } else {
      var x := a[0];
      assert x in multiset(b);
      var i :| 0 <= i < |b| && b[i] == x;
      RemoveAt(b, i, v);
      assert a == [x] + a[1..];
      assert multiset(a[1..]) == multiset(a) - multiset{x};
      CountAbovePerm(a[1..], b[..i] + b[i + 1..], v);
    }
  }

  /** In a descending sequence only the elements before position k can be worth more than s[k]. */
  lemma {:induction false} CountAboveSorted(s: seq<Move>, k: nat)
    requires SortedDesc(s) && k < |s|
    ensures CountAbove(s, s[k].value) <= k
  {
    var v := s[k].value;
    assert s == s[..k] + s[k..];
    CountAboveConcat(s[..k], s[k..], v);
    CountAboveBound(s[..k], v);
    CountAboveNone(s[k..], v);
  }

  lemma {:induction false} CountAboveBound(s: seq<Move>, v: int)
    ensures CountAbove(s, v) <= |s|
  {
    if s != [] {
      CountAboveBound(s[1..], v);
    }
  }

  lemma {:induction false} CountAboveNone(s: seq<Move>, v: int)
    requires forall i :: 0 <= i < |s| ==> s[i].value <= v
    ensures CountAbove(s, v) == 0
  {
    if s != [] {
      CountAboveNone(s[1..], v);
    }
  }

  /**
   * Picking position k of the ranking picks one of the input moves, and at
   * most k input moves are worth strictly more than it.
   */
  lemma RankedPick(s: seq<Move>, k: nat)
    requires k < |s|
    ensures |SortDesc(s)| == |s|
    ensures SortDesc(s)[k] in multiset(s)
    ensures CountAbove(s, SortDesc(s)[k].value) <= k
  {
    SortDescFacts(s);
    var r := SortDesc(s);
    assert r[k] in multiset(r);
    CountAboveSorted(r, k);
    CountAbovePerm(r, s, r[k].value);
  }

  /**
   * x lands right behind the last element at least as large: after s[..j] when
   * everything from j on is strictly smaller and s[j - 1] (if any) is not.
   */
  lemma {:induction false} InsertSplit(s: seq<Move>, j: nat, x: Move)
    requires j <= |s| && (j == 0 || s[j - 1].value >= x.value)
    requires forall k :: j <= k < |s| ==> s[k].value < x.value
    ensures Insert(s, x) == s[..j] + [x] + s[j..]
    decreases |s|
  {
    if |s| > j {
      var init := s[..|s| - 1];
      assert init[..j] == s[..j];
      InsertSplit(init, j, x);
      assert s[j..] == init[j..] + [s[|s| - 1]];
    } else {
      assert s[..j] == s;
    }
  }

  /**
   * One insertion step: moves a[i] back past every strictly smaller element
   * of a[..i], leaving a[..i + 1] equal to Insert(a[..i], a[i]).
   */
  method InsertLast(a: array<Move>, i: nat)
    requires i < a.Length
    modifies a
    ensures a[..i + 1] == Insert(old(a[..i]), old(a[i]))
    ensures a[i + 1..] == old(a[i + 1..])
  {
    ghost var sorted := a[..i];
    var x := a[i];
    var j := i;
    while j > 0 && a[j - 1].value < x.value
      invariant 0 <= j <= i
      invariant forall k :: 0 <= k < j ==> a[k] == sorted[k]
      invariant forall k :: j < k <= i ==> a[k] == sorted[k - 1]
      invariant forall k :: i < k < a.Length ==> a[k] == old(a[k])
      invariant forall k :: j <= k < i ==> sorted[k].value < x.value
    {
      a[j] := a[j - 1];
      j := j - 1;
    }
    a[j] := x;
    InsertSplit(sorted, j, x);
    assert a[..i + 1] == sorted[..j] + [x] + sorted[j..];
  }

  /** Sorting one more element inserts it into the sorted prefix. */
  lemma SortDescSnoc(s: seq<Move>, i: nat)
    requires i < |s|
    ensures SortDesc(s[..i + 1]) == Insert(SortDesc(s[..i]), s[i])
  {
    assert s[..i + 1][..i] == s[..i];
  }

  /** The array sort: stable insertion sort by value, highest first. */
  method SortByValueDesc(a: array<Move>)
    modifies a
    ensures a[..] == SortDesc(old(a[..]))
  {
    ghost var orig := a[..];
    var i := 0;
    while i < a.Length
      invariant 0 <= i <= a.Length
      invariant a[..i] == SortDesc(orig[..i])
      invariant a[i..] == orig[i..]
    {
      ghost var rest := a[i + 1..];
      assert a[i] == orig[i];
      InsertLast(a, i);
      SortDescSnoc(orig, i);
      assert a[i + 1..] == rest == orig[i + 1..];
      i := i + 1;
    }
    assert a[..] == a[..a.Length];
    assert orig == orig[..a.Length];
  }
}
