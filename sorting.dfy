/**
 * Python's stable `sorted` / `list.sort`, as an insertion sort under a total
 * preorder `le` ("a sorts no later than b").
 */
module Sorting {

  ghost predicate TotalPreorder<T(!new)>(le: (T, T) -> bool) {
    && (forall a, b :: le(a, b) || le(b, a))
    && (forall a, b, c :: le(a, b) && le(b, c) ==> le(a, c))
  }

  ghost predicate Sorted<T>(s: seq<T>, le: (T, T) -> bool) {
    forall i, j :: 0 <= i < j < |s| ==> le(s[i], s[j])
  }

  /** Places `x` after every element of `t` that sorts no later than it. */
  function Insert<T>(t: seq<T>, x: T, le: (T, T) -> bool): (r: seq<T>)
    ensures multiset(r) == multiset(t) + multiset{x}
  {
    if |t| == 0 || le(t[|t| - 1], x) then t + [x]
    else
      assert t == t[..|t| - 1] + [t[|t| - 1]];
      Insert(t[..|t| - 1], x, le) + [t[|t| - 1]]
  }

  function Sort<T>(s: seq<T>, le: (T, T) -> bool): (r: seq<T>)
    ensures multiset(r) == multiset(s)
  {
    if |s| == 0 then []
    else
      assert s == s[..|s| - 1] + [s[|s| - 1]];
      Insert(Sort(s[..|s| - 1], le), s[|s| - 1], le)
  }

  lemma {:induction false} InsertSorted<T(!new)>(t: seq<T>, x: T, le: (T, T) -> bool)
    requires TotalPreorder(le) && Sorted(t, le)
    ensures Sorted(Insert(t, x, le), le)
  {
    if |t| == 0 || le(t[|t| - 1], x) {
      forall k | 0 <= k < |t| ensures le(t[k], x) {
        if k < |t| - 1 {
          assert le(t[k], t[|t| - 1]);
        }
      }
      AppendSorted(t, x, le);
    } else {
      var p := t[..|t| - 1];
      var last := t[|t| - 1];
      InsertSorted(p, x, le);
      var q := Insert(p, x, le);
      InsertBelow(p, x, last, le);
      AppendSorted(q, last, le);
    }
  }

  /** Appending an element no earlier than all the others keeps a sequence ordered. */
  lemma {:induction false} AppendSorted<T>(s: seq<T>, x: T, le: (T, T) -> bool)
    requires Sorted(s, le) && forall k :: 0 <= k < |s| ==> le(s[k], x)
    ensures Sorted(s + [x], le)
  {
    forall i, j | 0 <= i < j < |s| + 1 ensures le((s + [x])[i], (s + [x])[j]) {
      if j == |s| {
        assert (s + [x])[i] == s[i];
      } else {
        assert (s + [x])[i] == s[i] && (s + [x])[j] == s[j];
      }
    }
  }

  /** When `x` and every element of `p` sort no later than `last`, so does every element after inserting `x`. */
  lemma {:induction false} InsertBelow<T(!new)>(p: seq<T>, x: T, last: T, le: (T, T) -> bool)
    requires TotalPreorder(le) && !le(last, x)
    requires forall k :: 0 <= k < |p| ==> le(p[k], last)
    ensures forall k :: 0 <= k < |Insert(p, x, le)| ==> le(Insert(p, x, le)[k], last)
  {
    var q := Insert(p, x, le);
    forall k | 0 <= k < |q| ensures le(q[k], last) {
      assert q[k] in multiset(q);
      assert q[k] in multiset(p) + multiset{x};
      if q[k] in multiset(p) {
        var i :| 0 <= i < |p| && p[i] == q[k];
      }
    }
  }

  /** The result is ordered and is a permutation of the input. */
  lemma {:induction false} SortSorted<T(!new)>(s: seq<T>, le: (T, T) -> bool)
    requires TotalPreorder(le)
    ensures Sorted(Sort(s, le), le) && multiset(Sort(s, le)) == multiset(s)
  {
    if |s| > 0 {
      SortSorted(s[..|s| - 1], le);
      InsertSorted(Sort(s[..|s| - 1], le), s[|s| - 1], le);
    }
  }

  /** The elements of `s` that sort level with `y` (each no later than the other), in their order in `s`. */
  function Level<T>(s: seq<T>, y: T, le: (T, T) -> bool): (r: seq<T>)
    ensures |r| <= |s|
    ensures forall k :: 0 <= k < |r| ==> le(r[k], y) && le(y, r[k])
  {
    if |s| == 0 then []
    else
      var a := s[|s| - 1];
      Level(s[..|s| - 1], y, le) + (if le(a, y) && le(y, a) then [a] else [])
  }

  lemma {:induction false} LevelSnoc<T>(s: seq<T>, a: T, y: T, le: (T, T) -> bool)
    ensures Level(s + [a], y, le) == Level(s, y, le) + (if le(a, y) && le(y, a) then [a] else [])
  {
    assert (s + [a])[..|s|] == s;
  }

  /** Inserting `x` puts it after every element level with it, so it joins its level class at the end. */
  lemma {:induction false} InsertStable<T(!new)>(t: seq<T>, x: T, y: T, le: (T, T) -> bool)
    requires TotalPreorder(le)
    ensures Level(Insert(t, x, le), y, le) == Level(t, y, le) + (if le(x, y) && le(y, x) then [x] else [])
  {
    if |t| == 0 || le(t[|t| - 1], x) {
      LevelSnoc(t, x, y, le);
    } else {
      var p := t[..|t| - 1];
      var last := t[|t| - 1];
      assert t == p + [last];
      InsertStable(p, x, y, le);
      LevelSnoc(Insert(p, x, le), last, y, le);
      LevelSnoc(p, last, y, le);
      // `x` and `last` are not both level with `y`: that would give `le(last, x)`.
      assert !(le(x, y) && le(y, x)) || !(le(last, y) && le(y, last));
    }
  }

  /** Stability: elements that sort level with each other keep their input order. */
  lemma {:induction false} SortStable<T(!new)>(s: seq<T>, y: T, le: (T, T) -> bool)
    requires TotalPreorder(le)
    ensures Level(Sort(s, le), y, le) == Level(s, y, le)
  {
    if |s| > 0 {
      SortStable(s[..|s| - 1], y, le);
      InsertStable(Sort(s[..|s| - 1], le), s[|s| - 1], y, le);
    }
  }
}
