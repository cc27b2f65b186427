/** Sequence operations the modelled code gets from LINQ and from its own collection helper. */
module Collections {
  import opened Wrappers

  /** `collection.AddRange(range)`: every item of `range` is added to the end, one at a time, in order. */
  function AddRange<T>(collection: seq<T>, range: seq<T>): (r: seq<T>)
    ensures |r| == |collection| + |range|
    ensures r[..|collection|] == collection
    ensures forall i :: 0 <= i < |range| ==> r[|collection| + i] == range[i]
    decreases |range|
  {
    if |range| == 0 then collection
    else AddRange(collection + [range[0]], range[1..])
  }

  /** Adding the items one by one amounts to appending the whole range. */
  lemma AddRangeIsAppend<T>(collection: seq<T>, range: seq<T>)
    ensures AddRange(collection, range) == collection + range
    ensures |range| == 0 ==> AddRange(collection, range) == collection
  {
    var r := AddRange(collection, range);
    assert forall i :: 0 <= i < |r| ==> r[i] == (collection + range)[i] by {
      forall i | 0 <= i < |r|
        ensures r[i] == (collection + range)[i]
      {
        if i < |collection| {
          assert r[i] == r[..|collection|][i];
        } else {
          assert r[|collection| + (i - |collection|)] == range[i - |collection|];
        }
      }
    }
  }

  /**
   * The elements of `s` that `keep` accepts, in their original order: LINQ `OfType`, and the
   * binding-flag selection of `GetProperties`.
   */
  function Filter<T(!new)>(s: seq<T>, keep: T -> bool): (r: seq<T>)
    ensures |r| <= |s|
    ensures forall i :: 0 <= i < |r| ==> keep(r[i])
    ensures forall x :: x in r <==> x in s && keep(x)
    ensures forall x :: multiset(r)[x] == if keep(x) then multiset(s)[x] else 0
    decreases |s|
  {
    if |s| == 0 then []
    else
      assert s == [s[0]] + s[1..];
      if keep(s[0]) then [s[0]] + Filter(s[1..], keep)
      else Filter(s[1..], keep)
  }

  /** Filtering distributes over concatenation, so the kept elements keep their relative order. */
  lemma {:induction false} FilterAppend<T(!new)>(a: seq<T>, b: seq<T>, keep: T -> bool)
    ensures Filter(a + b, keep) == Filter(a, keep) + Filter(b, keep)
    decreases |a|
  {
    if |a| == 0 {
      assert a + b == b;
    } else {
      assert (a + b)[0] == a[0];
      assert (a + b)[1..] == a[1..] + b;
      FilterAppend(a[1..], b, keep);
    }
  }

  /** Total length of a sequence of sequences. */
  function SumLengths<T>(seqs: seq<seq<T>>): nat
    decreases |seqs|
  {
    if |seqs| == 0 then 0 else |seqs[0]| + SumLengths(seqs[1..])
  }

  /** LINQ `SelectMany` followed by `ToList`: the sequences one after another. */
  function Concat<T>(seqs: seq<seq<T>>): (r: seq<T>)
    ensures |r| == SumLengths(seqs)
    ensures |seqs| == 0 ==> r == []
    decreases |seqs|
  {
    if |seqs| == 0 then [] else seqs[0] + Concat(seqs[1..])
  }

  /** Element `j` of the `k`-th sequence sits right after everything of the sequences before it. */
  lemma {:induction false} ConcatIndex<T>(seqs: seq<seq<T>>, k: nat, j: nat)
    requires k < |seqs| && j < |seqs[k]|
    ensures SumLengths(seqs[..k]) + j < |Concat(seqs)|
    ensures Concat(seqs)[SumLengths(seqs[..k]) + j] == seqs[k][j]
    decreases k
  {
    if k == 0 {
      assert seqs[..0] == [];
    } else {
      ConcatIndex(seqs[1..], k - 1, j);
      assert seqs[..k][1..] == seqs[1..][..k - 1];
      assert seqs[..k][0] == seqs[0];
    }
  }

  /** Concatenating two lists of sequences concatenates their results. */
  lemma {:induction false} ConcatAppend<T>(a: seq<seq<T>>, b: seq<seq<T>>)
    ensures Concat(a + b) == Concat(a) + Concat(b)
    decreases |a|
  {
    if |a| == 0 {
      assert a + b == b;
    } else {
      assert (a + b)[0] == a[0];
      assert (a + b)[1..] == a[1..] + b;
      ConcatAppend(a[1..], b);
    }
  }

  /**
   * LINQ `Select(f).ToList()` where `f` may throw: `f` is applied to each element in order and the
   * first failure ends the enumeration with that failure.
   */
  function MapResult<A, B, E>(xs: seq<A>, f: A -> Result<B, E>): (r: Result<seq<B>, E>)
    ensures r.Success? <==> forall i :: 0 <= i < |xs| ==> f(xs[i]).Success?
    ensures r.Success? ==> |r.value| == |xs|
    ensures r.Success? ==> forall i :: 0 <= i < |xs| ==> r.value[i] == f(xs[i]).value
    ensures r.Failure? ==> exists k :: 0 <= k < |xs| && f(xs[k]) == Failure(r.error)
                                       && forall j :: 0 <= j < k ==> f(xs[j]).Success?
    decreases |xs|
  {
    if |xs| == 0 then Success([])
    else
      match f(xs[0])
      case Failure(e) => Failure(e)
      case Success(y) =>
        match MapResult(xs[1..], f)
        case Failure(e) =>
          assert exists k :: 0 <= k < |xs| && f(xs[k]) == Failure(e)
                             && forall j :: 0 <= j < k ==> f(xs[j]).Success? by {
            var k :| 0 <= k < |xs| - 1 && f(xs[1..][k]) == Failure(e)
                     && forall j :: 0 <= j < k ==> f(xs[1..][j]).Success?;
            assert f(xs[k + 1]) == Failure(e);
            forall j | 0 <= j < k + 1 ensures f(xs[j]).Success? {
              if j > 0 { assert xs[j] == xs[1..][j - 1]; }
            }
          }
          Failure(e)
        case Success(ys) =>
          assert forall i :: 1 <= i < |xs| ==> xs[i] == xs[1..][i - 1];
          Success([y] + ys)
  }
}
