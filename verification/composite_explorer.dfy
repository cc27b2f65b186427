/**
 * `CompositeApiExplorer`: the descriptions of several explorers merged into one collection, in
 * explorer order and without de-duplication, computed on the first read and cached.
 *
 * The composite keeps the wrapped explorers themselves, not what they yield: the constructor only
 * captures them, and each one is read when the composite is read for the first time. Changing a
 * wrapped explorer, or the array, before that read is an update of `apiExplorers`.
 */
module CompositeExplorer {
  import opened Wrappers
  import opened Errors
  import opened Descriptions
  import Collections
  import Lazy
  import ApiExplorer
  import ApiExplorerProperties

  type ExplorerResult = Result<seq<ApiDescription>, Error>

  /**
   * One wrapped `IApiExplorer`: a controllerless explorer with its own settings and cache, or an
   * explorer of another kind, represented by what each read of it yields.
   */
  datatype WrappedExplorer =
    | Controllerless(explorer: ApiExplorer.ControllerlessApiExplorer)
    | Other(answer: ExplorerResult)

  datatype CompositeApiExplorer = CompositeApiExplorer(apiExplorers: seq<WrappedExplorer>,
                                                       descriptions: Lazy.Lazy<ExplorerResult>)

  /** The constructor: a null explorer array is rejected; the explorers are kept and not read. */
  function NewCompositeApiExplorer(apiExplorers: Option<seq<WrappedExplorer>>): (r: Result<CompositeApiExplorer, Error>)
    ensures r.Failure? <==> apiExplorers.None?
    ensures r.Failure? ==> r.error == ArgumentNull("apiExplorers")
    ensures r.Success? ==> r.value.apiExplorers == apiExplorers.value
                           && r.value.descriptions.cached.None? && r.value.descriptions.evaluations == 0
  {
    match apiExplorers
    case None => Failure(ArgumentNull("apiExplorers"))
    case Some(es) => Success(CompositeApiExplorer(es, Lazy.Create()))
  }

  /** A wrapped controllerless explorer has run its synthesis exactly when its cache is filled. */
  predicate ValidWrapped(x: WrappedExplorer) {
    x.Controllerless? ==> Lazy.Valid(x.explorer.descriptions)
  }

  /**
   * `x.ApiDescriptions` on one wrapped explorer: what the read yields and the explorer after it.
   * A controllerless explorer synthesises from its current settings on its first read.
   */
  function Read(x: WrappedExplorer): (r: (ExplorerResult, WrappedExplorer))
    ensures x.Other? ==> r == (x.answer, x)
    ensures x.Controllerless? ==> r.1.Controllerless?
                                  && r.1.explorer == x.explorer.(descriptions := r.1.explorer.descriptions)
                                  && r.1.explorer.descriptions.cached == Some(r.0)
    ensures x.Controllerless? && x.explorer.descriptions.cached.None? ==>
              r.0 == ApiExplorer.GetDescriptions(x.explorer)
    ensures x.Controllerless? && x.explorer.descriptions.cached.Some? ==>
              r == (x.explorer.descriptions.cached.value, x)
    ensures ValidWrapped(x) ==> ValidWrapped(r.1)
  {
    match x
    case Other(_) => (x.answer, x)
    case Controllerless(e) =>
      var (value, e') := ApiExplorer.ApiDescriptions(e);
      (value, Controllerless(e'))
  }

  /**
   * Reading a wrapped explorer twice yields the first read's value and changes nothing more, so
   * an explorer that occurs twice in the array contributes the same descriptions twice.
   */
  lemma ReadStable(x: WrappedExplorer)
    ensures Read(Read(x).1).0 == Read(x).0
    ensures Read(Read(x).1).1 == Read(x).1
  {
  }

  /** The descriptions of successful explorers, in explorer order. */
  function Values(results: seq<ExplorerResult>): seq<seq<ApiDescription>>
    requires forall k :: 0 <= k < |results| ==> results[k].Success?
  {
    seq(|results|, k requires 0 <= k < |results| => results[k].value)
  }

  /**
   * `SelectMany(x => x.ApiDescriptions).ToList()` over what the reads yield: the explorers'
   * descriptions one after another; a read that throws ends the merge with that exception.
   */
  function Merge(results: seq<ExplorerResult>): (r: ExplorerResult)
    ensures r.Success? <==> forall k :: 0 <= k < |results| ==> results[k].Success?
    ensures r.Success? ==> r.value == Collections.Concat(Values(results))
                           && |r.value| == Collections.SumLengths(Values(results))
    ensures r.Failure? ==> exists k :: 0 <= k < |results| && results[k] == Failure(r.error)
                                       && forall j :: 0 <= j < k ==> results[j].Success?
    ensures |results| == 0 ==> r == Success([])
  {
    var all :- Collections.MapResult(results, (e: ExplorerResult) => e);
    assert all == Values(results);
    Success(Collections.Concat(all))
  }

  /**
   * The merge reads left to right: a failing first explorer fails the merge with its error,
   * otherwise its descriptions come first and are followed by the merge of the rest.
   */
  lemma MergeCons(first: ExplorerResult, rest: seq<ExplorerResult>)
    ensures first.Failure? ==> Merge([first] + rest) == Failure(first.error)
    ensures first.Success? && Merge(rest).Failure? ==> Merge([first] + rest) == Merge(rest)
    ensures first.Success? && Merge(rest).Success? ==>
              Merge([first] + rest) == Success(first.value + Merge(rest).value)
  {
    var results := [first] + rest;
    assert results[0] == first && results[1..] == rest;
    var id := (e: ExplorerResult) => e;
    assert Collections.MapResult(results, id) == match first
      case Failure(e) => Failure(e)
      case Success(y) =>
        match Collections.MapResult(rest, id)
        case Failure(e) => Failure(e)
        case Success(ys) => Success([y] + ys);
    if first.Success? && Merge(rest).Success? {
      var ys := Collections.MapResult(rest, id).value;
      assert ([first.value] + ys)[0] == first.value && ([first.value] + ys)[1..] == ys;
    }
  }

  /**
   * When every explorer succeeds, description `j` of explorer `k` sits right after all
   * descriptions of the explorers before `k`.
   */
  lemma MergeIsConcatenation(results: seq<ExplorerResult>, k: nat, j: nat)
    requires forall i :: 0 <= i < |results| ==> results[i].Success?
    requires k < |results| && j < |results[k].value|
    ensures var offset := Collections.SumLengths(Values(results)[..k]);
            offset + j < |Merge(results).value|
            && Merge(results).value[offset + j] == results[k].value[j]
  {
    Collections.ConcatIndex(Values(results), k, j);
  }

  /** Merging `A` then `B` gives `A`'s descriptions followed by `B`'s, e.g. `a1, a2` and `b1` give `a1, a2, b1`. */
  lemma MergeTwo(a: seq<ApiDescription>, b: seq<ApiDescription>)
    ensures Merge([Success(a), Success(b)]) == Success(a + b)
  {
    var ra: ExplorerResult, rb: ExplorerResult := Success(a), Success(b);
    MergeCons(rb, []);
    assert [rb] + [] == [rb];
    MergeCons(ra, [rb]);
    assert [ra] + [rb] == [ra, rb];
    assert b + [] == b;
  }

  /** What each explorer yields when `read` reads it now. */
  function FirstReads<X>(apiExplorers: seq<X>, read: X -> (ExplorerResult, X)): seq<ExplorerResult> {
    seq(|apiExplorers|, k requires 0 <= k < |apiExplorers| => read(apiExplorers[k]).0)
  }

  /** Every explorer before position `k` yields descriptions, so the merge goes on to read explorer `k`. */
  predicate Reached<X>(apiExplorers: seq<X>, read: X -> (ExplorerResult, X), k: nat)
    requires k <= |apiExplorers|
  {
    forall j :: 0 <= j < k ==> read(apiExplorers[j]).0.Success?
  }

  lemma FirstReadsCons<X>(apiExplorers: seq<X>, read: X -> (ExplorerResult, X))
    requires |apiExplorers| > 0
    ensures FirstReads(apiExplorers, read) == [read(apiExplorers[0]).0] + FirstReads(apiExplorers[1..], read)
  {
    assert forall k :: 1 <= k < |apiExplorers| ==> apiExplorers[k] == apiExplorers[1..][k - 1];
  }

  lemma ReachedCons<X>(apiExplorers: seq<X>, read: X -> (ExplorerResult, X))
    requires |apiExplorers| > 0
    ensures Reached(apiExplorers, read, 0)
    ensures forall k :: 1 <= k <= |apiExplorers| ==>
              (Reached(apiExplorers, read, k)
               <==> read(apiExplorers[0]).0.Success? && Reached(apiExplorers[1..], read, k - 1))
  {
    assert forall k :: 1 <= k < |apiExplorers| ==> apiExplorers[k] == apiExplorers[1..][k - 1];
  }

  /**
   * The merge over the explorers themselves, reading each with `read` in turn until one throws.
   * The result is the merge of what the reads yield; the second component is the array after the
   * reads (see `ReadAllLeavesRead`).
   */
  function ReadAll<X>(apiExplorers: seq<X>, read: X -> (ExplorerResult, X)): (r: (ExplorerResult, seq<X>))
    ensures r.0 == Merge(FirstReads(apiExplorers, read))
    ensures |r.1| == |apiExplorers|
    decreases |apiExplorers|
  {
    if |apiExplorers| == 0 then (Success([]), [])
    else
      var (first, x) := read(apiExplorers[0]);
      var rest := apiExplorers[1..];
      FirstReadsCons(apiExplorers, read);
      MergeCons(first, FirstReads(rest, read));
      if first.Failure? then (Failure(first.error), [x] + rest)
      else
        var (merged, xs) := ReadAll(rest, read);
        (if merged.Success? then Success(first.value + merged.value) else merged, [x] + xs)
  }

  /**
   * After the merge, the explorers it reached have been read and the ones after a failing read
   * are untouched.
   */
  lemma {:induction false} ReadAllLeavesRead<X>(apiExplorers: seq<X>, read: X -> (ExplorerResult, X), k: nat)
    requires k < |apiExplorers|
    ensures ReadAll(apiExplorers, read).1[k]
            == if Reached(apiExplorers, read, k) then read(apiExplorers[k]).1 else apiExplorers[k]
    decreases k
  {
    ReachedCons(apiExplorers, read);
    if k > 0 {
      assert apiExplorers[1..][k - 1] == apiExplorers[k];
      if read(apiExplorers[0]).0.Success? {
        ReadAllLeavesRead(apiExplorers[1..], read, k - 1);
      }
    }
  }

  /**
   * `ApiDescriptions`: on the first read the wrapped explorers are read and merged, and the result
   * is cached; later reads return the cache and change nothing.
   */
  function ApiDescriptions(composite: CompositeApiExplorer): (r: (ExplorerResult, CompositeApiExplorer))
    ensures r.1.descriptions.cached == Some(r.0)
    ensures composite.descriptions.cached.None? ==>
              && r.0 == Merge(FirstReads(composite.apiExplorers, Read))
              && r.1.apiExplorers == ReadAll(composite.apiExplorers, Read).1
              && r.1.descriptions.evaluations == composite.descriptions.evaluations + 1
    ensures composite.descriptions.cached.Some? ==> r.0 == composite.descriptions.cached.value && r.1 == composite
  {
    match composite.descriptions.cached
    case Some(v) => (v, composite)
    case None =>
      var (merged, apiExplorers) := ReadAll(composite.apiExplorers, Read);
      var (value, descriptions) := Lazy.Force(composite.descriptions, () => merged);
      (value, CompositeApiExplorer(apiExplorers, descriptions))
  }

  /** The merge is computed once: a second read returns the first read's collection unchanged. */
  lemma {:induction false} MergedOnce(composite: CompositeApiExplorer)
    requires Lazy.Valid(composite.descriptions)
    ensures ApiDescriptions(composite).1.descriptions.evaluations == 1
    ensures ApiDescriptions(ApiDescriptions(composite).1).0 == ApiDescriptions(composite).0
    ensures ApiDescriptions(ApiDescriptions(composite).1).1 == ApiDescriptions(composite).1
  {
  }

  /** Wrapped explorers that are all controllerless explorers not read yet. */
  predicate AllUnread(xs: seq<WrappedExplorer>) {
    forall k :: 0 <= k < |xs| ==> xs[k].Controllerless? && xs[k].explorer.descriptions.cached.None?
  }

  /** What the synthesis of each such explorer gives with its settings as they are now. */
  function Syntheses(xs: seq<WrappedExplorer>): seq<ExplorerResult>
    requires AllUnread(xs)
  {
    seq(|xs|, k requires 0 <= k < |xs| => ApiExplorer.GetDescriptions(xs[k].explorer))
  }

  /** Unread controllerless explorers yield, when read, what their synthesis gives now. */
  lemma UnreadExplorersSynthesise(xs: seq<WrappedExplorer>)
    requires AllUnread(xs)
    ensures FirstReads(xs, Read) == Syntheses(xs)
  {
    forall k | 0 <= k < |xs|
      ensures FirstReads(xs, Read)[k] == Syntheses(xs)[k]
    {
      assert Read(xs[k]).0 == ApiExplorer.GetDescriptions(xs[k].explorer);
    }
  }

  /**
   * Wrapped controllerless explorers that have not been read yet are synthesised at the
   * composite's first read, each from the settings it has at that moment.
   */
  lemma ChildrenReadAtFirstRead(composite: CompositeApiExplorer)
    requires composite.descriptions.cached.None? && AllUnread(composite.apiExplorers)
    ensures ApiDescriptions(composite).0 == Merge(Syntheses(composite.apiExplorers))
  {
    UnreadExplorersSynthesise(composite.apiExplorers);
  }

  /**
   * A prefix set on a wrapped explorer after the composite was built, but before it was first
   * read, appears in the composite's routes.
   */
  lemma PrefixSetAfterWrapping(a: ApiExplorer.ControllerlessApiExplorer, prefix: string, i: nat)
    requires a.descriptions.cached.None? && a.settings.relativePathSelector.DefaultRelativePath?
    requires i < |a.messageTypes|
    ensures var composite := NewCompositeApiExplorer(Some([Controllerless(a)])).value;
            var a' := a.(settings := a.settings.(apiPrefix := prefix));
            var r := ApiDescriptions(composite.(apiExplorers := [Controllerless(a')])).0;
            r.Success? ==>
              && |r.value| == |a.messageTypes|
              && r.value[i].relativePath == prefix + a.settings.controllerDescriptor.controllerName + "/"
                                            + a.settings.actionNameSelector(a.messageTypes[i])
  {
    var a' := a.(settings := a.settings.(apiPrefix := prefix));
    var d := ApiExplorer.GetDescriptions(a');
    ChildrenReadAtFirstRead(CompositeApiExplorer([Controllerless(a')], Lazy.Create()));
    MergeCons(d, []);
    assert [d] + [] == [d];
    if d.Success? {
      assert d.value + [] == d.value;
    }
    ApiExplorerProperties.OneDescriptionPerMessageType(a', i);
    ApiExplorerProperties.DefaultRoute(a', i);
  }
}
