/** Sequence helpers shared by the model: Rust's `filter_map`. */
module Seqs {
  import opened Wrappers

  /** `iter().filter_map(f).collect()`: the `Some` results of `f`, in order. */
  function FilterMap<T, U>(f: T -> Option<U>, s: seq<T>): (r: seq<U>)
    ensures |r| <= |s|
  {
    if s == [] then []
    else
      var head := match f(s[0])
        case Some(u) => [u]
        case None => [];
      head + FilterMap(f, s[1..])
  }

  predicate StrictlyIncreasing(xs: seq<nat>) {
    forall k, l :: 0 <= k < l < |xs| ==> xs[k] < xs[l]
  }

  /** The positions `FilterMap` keeps, counted from `start`, in increasing order. */
  ghost function KeptIndices<T, U>(f: T -> Option<U>, s: seq<T>, start: nat): (idx: seq<nat>)
    ensures forall k :: 0 <= k < |idx| ==> start <= idx[k] < start + |s|
  {
    if s == [] then []
    else (if f(s[0]).Some? then [start] else []) + KeptIndices(f, s[1..], start + 1)
  }

  lemma {:induction false} KeptIndicesSelect<T, U>(f: T -> Option<U>, s: seq<T>, start: nat)
    ensures var r, idx := FilterMap(f, s), KeptIndices(f, s, start);
      && |idx| == |r|
      && (forall k :: 0 <= k < |idx| ==> f(s[idx[k] - start]) == Some(r[k]))
    decreases |s|
  {
    if s != [] {
      KeptIndicesSelect(f, s[1..], start + 1);
      var r, idx := FilterMap(f, s), KeptIndices(f, s, start);
      var r', idx' := FilterMap(f, s[1..]), KeptIndices(f, s[1..], start + 1);
      var off := if f(s[0]).Some? then 1 else 0;
      forall k | 0 <= k < |idx| ensures f(s[idx[k] - start]) == Some(r[k]) {
        if k >= off {
          assert idx[k] == idx'[k - off] && r[k] == r'[k - off];
          assert s[idx[k] - start] == s[1..][idx'[k - off] - (start + 1)];
        }
      }
    }
  }

  lemma {:induction false} KeptIndicesIncrease<T, U>(f: T -> Option<U>, s: seq<T>, start: nat)
    ensures StrictlyIncreasing(KeptIndices(f, s, start))
    decreases |s|
  {
    if s != [] {
      KeptIndicesIncrease(f, s[1..], start + 1);
      var idx, idx' := KeptIndices(f, s, start), KeptIndices(f, s[1..], start + 1);
      var off := if f(s[0]).Some? then 1 else 0;
      assert idx == (if off == 1 then [start] else []) + idx';
      forall k, l | 0 <= k < l < |idx| ensures idx[k] < idx[l] {
        assert idx[l] == idx'[l - off] >= start + 1;
        if k >= off {
          assert idx[k] == idx'[k - off];
          assert idx'[k - off] < idx'[l - off];
        } else {
          assert idx[k] == start;
        }
      }
    }
  }

  lemma {:induction false} KeptIndicesComplete<T, U>(f: T -> Option<U>, s: seq<T>, start: nat)
    ensures forall j :: 0 <= j < |s| && f(s[j]).Some? ==> start + j in KeptIndices(f, s, start)
    decreases |s|
  {
    if s != [] {
      KeptIndicesComplete(f, s[1..], start + 1);
      forall j | 1 <= j < |s| && f(s[j]).Some?
        ensures start + j in KeptIndices(f, s, start)
      {
        assert s[1..][j - 1] == s[j];
      }
    }
  }

  /**
   `FilterMap` keeps order and drops only `None`: its k-th result is the
   value at the k-th kept position, the kept positions increase, and every
   position whose result is `Some` is kept.
   */
  lemma FilterMapOrder<T, U>(f: T -> Option<U>, s: seq<T>)
    ensures var r, idx := FilterMap(f, s), KeptIndices(f, s, 0);
      && |idx| == |r|
      && (forall k :: 0 <= k < |idx| ==> idx[k] < |s| && f(s[idx[k]]) == Some(r[k]))
      && StrictlyIncreasing(idx)
      && (forall j :: 0 <= j < |s| && f(s[j]).Some? ==> j in idx)
  {
    KeptIndicesSelect(f, s, 0);
    KeptIndicesIncrease(f, s, 0);
    KeptIndicesComplete(f, s, 0);
  }

  /** Every result of `FilterMap` is the `Some` value of some element. */
  lemma FilterMapFrom<T, U>(f: T -> Option<U>, s: seq<T>, k: nat)
    requires k < |FilterMap(f, s)|
    ensures exists j :: 0 <= j < |s| && f(s[j]) == Some(FilterMap(f, s)[k])
  {
    FilterMapOrder(f, s);
    var idx := KeptIndices(f, s, 0);
    assert f(s[idx[k]]) == Some(FilterMap(f, s)[k]);
  }

  /** `FilterMap` distributes over concatenation. */
  lemma {:induction false} FilterMapAppend<T, U>(f: T -> Option<U>, a: seq<T>, b: seq<T>)
    ensures FilterMap(f, a + b) == FilterMap(f, a) + FilterMap(f, b)
    decreases |a|
  {
    if a == [] {
      assert a + b == b;
    } else {
      assert (a + b)[0] == a[0];
      assert (a + b)[1..] == a[1..] + b;
      FilterMapAppend(f, a[1..], b);
    }
  }

  /** When `f` never yields a value, nothing is collected. */
  lemma {:induction false} FilterMapNone<T, U>(f: T -> Option<U>, s: seq<T>)
    requires forall j :: 0 <= j < |s| ==> f(s[j]).None?
    ensures FilterMap(f, s) == []
    decreases |s|
  {
    if s != [] {
      FilterMapNone(f, s[1..]);
    }
  }
}
