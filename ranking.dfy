/**
 * The top-5 reduction of a repository's functions: a stable sort by size,
 * largest first, then the first five. Python's `sorted(..., reverse=True)`
 * keeps records of equal size in their original order; the insertion sort
 * below is a reference definition with that behaviour.
 */
module Ranking {
  import opened Wrappers
  import opened FunctionRecords

  /** How many functions each repository reports. */
  const TopCount: nat := 5

  /** Sizes never increase along the sequence. */
  predicate Descending(s: seq<FunctionInfo>)
  {
    forall p, q :: 0 <= p < q < |s| ==> s[p].size >= s[q].size
  }

  /** The records of size `v`, in their order in `s`. */
  function WithSize(s: seq<FunctionInfo>, v: int): seq<FunctionInfo>
  {
    if s == [] then []
    else WithSize(s[..|s| - 1], v) + (if s[|s| - 1].size == v then [s[|s| - 1]] else [])
  }

  lemma {:induction false} WithSizeConcat(a: seq<FunctionInfo>, b: seq<FunctionInfo>, v: int)
    ensures WithSize(a + b, v) == WithSize(a, v) + WithSize(b, v)
    decreases |b|
  {
    if b == [] {
      assert a + b == a;
    } else {
      assert (a + b)[..|a + b| - 1] == a + b[..|b| - 1];
      WithSizeConcat(a, b[..|b| - 1], v);
    }
  }

  /** Places `f` after every record at least as large, keeping `s` descending. */
  function Insert(f: FunctionInfo, s: seq<FunctionInfo>): (r: seq<FunctionInfo>)
    ensures |r| == |s| + 1
  {
    if s == [] then [f]
    else if s[0].size >= f.size then [s[0]] + Insert(f, s[1..])
    else [f] + s
  }

  /** Insert adds exactly `f`. */
  lemma {:induction false} InsertPermutes(f: FunctionInfo, s: seq<FunctionInfo>)
    ensures multiset(Insert(f, s)) == multiset(s) + multiset{f}
  {
    if s != [] && s[0].size >= f.size {
      InsertPermutes(f, s[1..]);
      assert s == [s[0]] + s[1..];
    }
  }

  /** Inserting into a descending sequence keeps it descending. */
  lemma {:induction false} InsertDescending(f: FunctionInfo, s: seq<FunctionInfo>)
    requires Descending(s)
    ensures Descending(Insert(f, s))
  {
    if s != [] && s[0].size >= f.size {
      InsertDescending(f, s[1..]);
      InsertPermutes(f, s[1..]);
      var rest := Insert(f, s[1..]);
      forall q | 0 <= q < |rest|
        ensures s[0].size >= rest[q].size
      {
        assert rest[q] in multiset(rest);
        if rest[q] != f {
          assert rest[q] in multiset(s[1..]);
        }
      }
    }
  }

  /** `f` lands after every record of its own size: the records of each size keep their order. */
  lemma {:induction false} InsertStable(f: FunctionInfo, s: seq<FunctionInfo>, v: int)
    requires Descending(s)
    ensures WithSize(Insert(f, s), v) == WithSize(s, v) + (if f.size == v then [f] else [])
  {
    assert WithSize([f], v) == (if f.size == v then [f] else []) by { assert [f][..0] == []; }
    if s == [] {
    } else if s[0].size >= f.size {
      InsertStable(f, s[1..], v);
      assert s == [s[0]] + s[1..];
      WithSizeConcat([s[0]], Insert(f, s[1..]), v);
      WithSizeConcat([s[0]], s[1..], v);
    } else {
      WithSizeConcat([f], s, v);
      if f.size == v {
        NoneOfSize(s, v);
      }
    }
  }

  /** A descending sequence whose first record is smaller than `v` has no record of size `v`. */
  lemma {:induction false} NoneOfSize(s: seq<FunctionInfo>, v: int)
    requires Descending(s) && s != [] && s[0].size < v
    ensures WithSize(s, v) == []
    decreases |s|
  {
    if |s| > 1 {
      NoneOfSize(s[..|s| - 1], v);
    }
  }

  /** `sorted(functions, key=size, reverse=True)`. */
  function SortBySize(s: seq<FunctionInfo>): (r: seq<FunctionInfo>)
    ensures |r| == |s|
  {
    if s == [] then [] else Insert(s[|s| - 1], SortBySize(s[..|s| - 1]))
  }

  /**
   * The sort is descending, a permutation of its input, and stable: the
   * records of any one size keep their input order.
   */
  lemma {:induction false} SortBySizeCorrect(s: seq<FunctionInfo>)
    ensures Descending(SortBySize(s))
    ensures multiset(SortBySize(s)) == multiset(s)
    ensures forall v :: WithSize(SortBySize(s), v) == WithSize(s, v)
  {
    if s != [] {
      var init, last := s[..|s| - 1], s[|s| - 1];
      SortBySizeCorrect(init);
      assert s == init + [last];
      InsertPermutes(last, SortBySize(init));
      InsertDescending(last, SortBySize(init));
      forall v
        ensures WithSize(SortBySize(s), v) == WithSize(s, v)
      {
        InsertStable(last, SortBySize(init), v);
        WithSizeConcat(init, [last], v);
      }
    }
  }

  /** `sorted(functions, key=size, reverse=True)[:5]`: the functions a sheet reports, largest first. */
  function TopFunctions(functions: seq<FunctionInfo>): (r: seq<FunctionInfo>)
    ensures |r| == Min(TopCount, |functions|)
  {
    SortBySize(functions)[..Min(TopCount, |functions|)]
  }

  /** The top selection holds min(5, n) of the input's records, largest first. */
  lemma TopFunctionsSelects(functions: seq<FunctionInfo>)
    ensures |TopFunctions(functions)| == Min(TopCount, |functions|)
    ensures Descending(TopFunctions(functions))
    ensures multiset(TopFunctions(functions)) <= multiset(functions)
  {
    var sorted := SortBySize(functions);
    var n := Min(TopCount, |functions|);
    SortBySizeCorrect(functions);
    assert sorted == sorted[..n] + sorted[n..];
    assert multiset(sorted) == multiset(sorted[..n]) + multiset(sorted[n..]);
  }

  /**
   * Records of equal size keep their input order: the kept records of each
   * size are the first ones of that size in the input.
   */
  lemma TopFunctionsStable(functions: seq<FunctionInfo>, v: int)
    ensures WithSize(TopFunctions(functions), v) <= WithSize(functions, v)
  {
    var sorted := SortBySize(functions);
    var n := Min(TopCount, |functions|);
    SortBySizeCorrect(functions);
    assert sorted == sorted[..n] + sorted[n..];
    WithSizeConcat(sorted[..n], sorted[n..], v);
  }

  /** Every record left out of the top selection is no larger than any record kept. */
  lemma TopFunctionsOmitsSmaller(functions: seq<FunctionInfo>, x: FunctionInfo, k: nat)
    requires x in multiset(functions) - multiset(TopFunctions(functions))
    requires k < |TopFunctions(functions)|
    ensures x.size <= TopFunctions(functions)[k].size
  {
    var sorted := SortBySize(functions);
    var n := Min(TopCount, |functions|);
    var top, rest := sorted[..n], sorted[n..];
    SortBySizeCorrect(functions);
    assert sorted == top + rest;
    assert multiset(functions) == multiset(top) + multiset(rest);
    assert x in multiset(rest);
    var j :| 0 <= j < |rest| && rest[j] == x;
    assert sorted[n + j] == x;
  }

  /**
   * The test suite's six functions of sizes 10, 20, 15, 5, 8, 12 reduce to
   * those of sizes 20, 15, 12, 10 and 8, in that order.
   */
  lemma TopFunctionsExample()
    ensures TopFunctions([
      FunctionInfo("func1", "file1.js", 1, 10, 10),
      FunctionInfo("func2", "file2.js", 1, 20, 20),
      FunctionInfo("func3", "file3.js", 1, 15, 15),
      FunctionInfo("func4", "file4.js", 1, 5, 5),
      FunctionInfo("func5", "file5.js", 1, 8, 8),
      FunctionInfo("func6", "file6.js", 1, 12, 12)]) == [
      FunctionInfo("func2", "file2.js", 1, 20, 20),
      FunctionInfo("func3", "file3.js", 1, 15, 15),
      FunctionInfo("func6", "file6.js", 1, 12, 12),
      FunctionInfo("func1", "file1.js", 1, 10, 10),
      FunctionInfo("func5", "file5.js", 1, 8, 8)]
  {
    var f1 := FunctionInfo("func1", "file1.js", 1, 10, 10);
    var f2 := FunctionInfo("func2", "file2.js", 1, 20, 20);
    var f3 := FunctionInfo("func3", "file3.js", 1, 15, 15);
    var f4 := FunctionInfo("func4", "file4.js", 1, 5, 5);
    var f5 := FunctionInfo("func5", "file5.js", 1, 8, 8);
    var f6 := FunctionInfo("func6", "file6.js", 1, 12, 12);
    var s := [f1, f2, f3, f4, f5, f6];
    assert SortBySize([f1]) == [f1];
    assert SortBySize([f1, f2]) == Insert(f2, [f1]) == [f2, f1];
    assert Insert(f3, [f1]) == [f3, f1];
    assert [f1, f2, f3][..2] == [f1, f2];
    assert SortBySize([f1, f2, f3]) == Insert(f3, [f2, f1]) == [f2, f3, f1];
    assert Insert(f4, []) == [f4];
    assert Insert(f4, [f1]) == [f1, f4];
    assert Insert(f4, [f3, f1]) == [f3, f1, f4];
    assert [f1, f2, f3, f4][..3] == [f1, f2, f3];
    assert SortBySize([f1, f2, f3, f4]) == Insert(f4, [f2, f3, f1]) == [f2, f3, f1, f4];
    assert Insert(f5, [f4]) == [f5, f4];
    assert Insert(f5, [f1, f4]) == [f1, f5, f4];
    assert Insert(f5, [f3, f1, f4]) == [f3, f1, f5, f4];
    assert [f1, f2, f3, f4, f5][..4] == [f1, f2, f3, f4];
    assert SortBySize([f1, f2, f3, f4, f5]) == Insert(f5, [f2, f3, f1, f4]) == [f2, f3, f1, f5, f4];
    assert Insert(f6, [f1, f5, f4]) == [f6, f1, f5, f4];
    assert Insert(f6, [f3, f1, f5, f4]) == [f3, f6, f1, f5, f4];
    assert s[..5] == [f1, f2, f3, f4, f5];
    assert SortBySize(s) == Insert(f6, [f2, f3, f1, f5, f4]) == [f2, f3, f6, f1, f5, f4];
  }
}
