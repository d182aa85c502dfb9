/**
 * Generic facts about the collection operations the pages use: the
 * element filter of arrays, and flipping one member of a set.
 */
module Collections {

  /** The elements of `s` that satisfy `keep`, in their original order. */
  function Filter<T>(s: seq<T>, keep: T -> bool): (r: seq<T>)
    ensures |r| <= |s|
  {
    if s == [] then []
    else
      var init := Filter(s[..|s| - 1], keep);
      if keep(s[|s| - 1]) then init + [s[|s| - 1]] else init
  }

  /** Filtering a concatenation filters each part. */
  lemma {:induction false} FilterAppend<T>(a: seq<T>, b: seq<T>, keep: T -> bool)
    ensures Filter(a + b, keep) == Filter(a, keep) + Filter(b, keep)
    decreases |b|
  {
    if b == [] {
      assert a + b == a;
    } else {
      var b' := b[..|b| - 1];
      assert (a + b)[..|a + b| - 1] == a + b';
      assert (a + b)[|a + b| - 1] == b[|b| - 1];
      FilterAppend(a, b', keep);
    }
  }

  /** An element survives the filter exactly when it occurs in the input and satisfies `keep`. */
  lemma {:induction false} FilterMember<T>(s: seq<T>, keep: T -> bool, x: T)
    ensures x in Filter(s, keep) <==> x in s && keep(x)
    decreases |s|
  {
    if s != [] {
      var init := s[..|s| - 1];
      FilterMember(init, keep, x);
      assert s == init + [s[|s| - 1]];
    }
  }

  /** Filtering a sequence that ends with `x` keeps `x` last when it qualifies. */
  lemma FilterSnoc<T>(s: seq<T>, x: T, keep: T -> bool)
    ensures Filter(s + [x], keep) == Filter(s, keep) + if keep(x) then [x] else []
  {
    assert (s + [x])[..|s|] == s;
  }

  /** Filtering a sequence that starts with `x` keeps `x` first when it qualifies. */
  lemma FilterCons<T>(x: T, s: seq<T>, keep: T -> bool)
    ensures Filter([x] + s, keep) == (if keep(x) then [x] else []) + Filter(s, keep)
  {
    FilterAppend([x], s, keep);
    assert [x][..0] == [];
  }

  /** Two leading elements that the filter does not both keep can change places without changing the result. */
  lemma FilterSwapHead<T>(a: T, b: T, t: seq<T>, keep: T -> bool)
    requires !(keep(a) && keep(b))
    ensures Filter([a] + ([b] + t), keep) == Filter([b] + ([a] + t), keep)
  {
    FilterCons(a, [b] + t, keep);
    FilterCons(b, t, keep);
    FilterCons(b, [a] + t, keep);
    FilterCons(a, t, keep);
  }

  /** A filter that keeps everything is the identity. */
  lemma {:induction false} FilterAll<T>(s: seq<T>, keep: T -> bool)
    requires forall x :: x in s ==> keep(x)
    ensures Filter(s, keep) == s
    decreases |s|
  {
    if s != [] {
      assert forall x :: x in s[..|s| - 1] ==> x in s;
      FilterAll(s[..|s| - 1], keep);
      assert s[..|s| - 1] + [s[|s| - 1]] == s;
    }
  }

  /** The positions of `s` whose elements satisfy `keep`, in increasing order. */
  ghost function KeptIndices<T>(s: seq<T>, keep: T -> bool): seq<int>
  {
    if s == [] then []
    else KeptIndices(s[..|s| - 1], keep) + if keep(s[|s| - 1]) then [|s| - 1] else []
  }

  ghost predicate Increasing(idx: seq<int>)
  {
    forall k, l :: 0 <= k < l < |idx| ==> idx[k] < idx[l]
  }

  /**
   * `r` is `s` restricted to the increasing positions `idx`, and those are
   * exactly the positions whose element satisfies `keep`.
   */
  ghost predicate SelectedAt<T>(r: seq<T>, s: seq<T>, idx: seq<int>, keep: T -> bool)
  {
    && |idx| == |r|
    && Increasing(idx)
    && (forall k :: 0 <= k < |idx| ==> 0 <= idx[k] < |s| && r[k] == s[idx[k]])
    && (forall i :: 0 <= i < |s| ==> (keep(s[i]) <==> i in idx))
  }

  /**
   * The filter is a sub-sequence of its input in the original order that
   * keeps every satisfying element and nothing else.
   */
  lemma {:induction false} FilterIsSelection<T>(s: seq<T>, keep: T -> bool)
    ensures SelectedAt(Filter(s, keep), s, KeptIndices(s, keep), keep)
    decreases |s|
  {
    if s != [] {
      var init := s[..|s| - 1];
      FilterIsSelection(init, keep);
      assert s == init + [s[|s| - 1]];
      SelectionStep(Filter(init, keep), init, KeptIndices(init, keep), s[|s| - 1], keep);
    }
  }

  /** Appending one element to the input extends a selection by at most that element. */
  lemma SelectionStep<T>(r: seq<T>, s: seq<T>, idx: seq<int>, x: T, keep: T -> bool)
    requires SelectedAt(r, s, idx, keep)
    ensures keep(x) ==> SelectedAt(r + [x], s + [x], idx + [|s|], keep)
    ensures !keep(x) ==> SelectedAt(r, s + [x], idx, keep)
  {
    var s' := s + [x];
    assert forall i :: 0 <= i < |s| ==> s'[i] == s[i];
    if keep(x) {
      var r', idx' := r + [x], idx + [|s|];
      assert forall k :: 0 <= k < |idx| ==> idx'[k] == idx[k] && r'[k] == r[k];
      assert forall i :: 0 <= i < |s| ==> (i in idx' <==> i in idx);
    } else {
      assert |s| !in idx;
    }
  }

  /** The positions of `s` whose elements satisfy `keep`. */
  ghost function Positions<T>(s: seq<T>, keep: T -> bool): set<int>
  {
    set i | 0 <= i < |s| && keep(s[i])
  }

  /** The filter keeps one element per satisfying position, duplicates included. */
  lemma {:induction false} FilterCountsPositions<T>(s: seq<T>, keep: T -> bool)
    ensures |Filter(s, keep)| == |Positions(s, keep)|
    decreases |s|
  {
    if s != [] {
      var init, x := s[..|s| - 1], s[|s| - 1];
      FilterCountsPositions(init, keep);
      assert s == init + [x];
      FilterSnoc(init, x, keep);
      var extra: set<int> := if keep(x) then {|init|} else {};
      assert Positions(s, keep) == Positions(init, keep) + extra by {
        forall i | 0 <= i < |init| ensures s[i] == init[i] { }
      }
      assert |init| !in Positions(init, keep);
    }
  }

  /** No element occurs twice. */
  ghost predicate Distinct<T>(s: seq<T>)
  {
    forall i, j :: 0 <= i < j < |s| ==> s[i] != s[j]
  }

  /** An element of a non-empty sequence is among the elements before the last or is the last. */
  lemma InitOrLast<T>(s: seq<T>, y: T)
    requires s != []
    ensures y in s <==> y in s[..|s| - 1] || y == s[|s| - 1]
  {
    assert s == s[..|s| - 1] + [s[|s| - 1]];
  }

  /** Dropping the last element keeps a sequence distinct, and that element is not among the rest. */
  lemma DistinctInit<T>(ps: seq<T>)
    requires ps != [] && Distinct(ps)
    ensures Distinct(ps[..|ps| - 1])
    ensures ps[|ps| - 1] !in ps[..|ps| - 1]
  {
    var init := ps[..|ps| - 1];
    assert forall i :: 0 <= i < |init| ==> init[i] == ps[i];
  }

  /** The set `s` with the membership of `x` flipped. */
  function Flip<T(!new)>(s: set<T>, x: T): (r: set<T>)
    ensures x in r <==> x !in s
    ensures forall y :: y != x ==> (y in r <==> y in s)
  {
    if x in s then s - {x} else s + {x}
  }

  /** Flipping the same member twice restores the set. */
  lemma FlipTwice<T(!new)>(s: set<T>, x: T)
    ensures Flip(Flip(s, x), x) == s
  {
  }
}
