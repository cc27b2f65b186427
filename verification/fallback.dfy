/**
 * The ordered fallback search shared by the composite providers: ask each provider in turn and
 * return the first answer that counts as a hit. A `None` answer is a C# `null`.
 */
module Fallback {
  import opened Wrappers

  /** The description providers' hit: `!string.IsNullOrEmpty(description)`. */
  predicate HasDescription(answer: Option<string>) {
    answer.Some? && |answer.value| > 0
  }

  /** The documentation provider's hit (`NotNull`): any non-null answer, the empty string included. */
  predicate IsNotNull(answer: Option<string>) {
    answer.Some?
  }

  /**
   * Declarative meaning of "the first hit": either no answer is a hit and the result is null, or
   * the result is the answer at some position that is a hit while no earlier answer is.
   */
  ghost predicate IsFirstHit(answers: seq<Option<string>>, hit: Option<string> -> bool, r: Option<string>) {
    || (r.None? && forall i :: 0 <= i < |answers| ==> !hit(answers[i]))
    || (exists k :: 0 <= k < |answers| && answers[k] == r && hit(answers[k])
                    && forall j :: 0 <= j < k ==> !hit(answers[j]))
  }

  /** At most one result is the first hit. */
  lemma FirstHitUnique(answers: seq<Option<string>>, hit: Option<string> -> bool, r1: Option<string>, r2: Option<string>)
    requires IsFirstHit(answers, hit, r1) && IsFirstHit(answers, hit, r2)
    ensures r1 == r2
  {
    if exists k :: 0 <= k < |answers| && answers[k] == r1 && hit(answers[k])
                   && forall j :: 0 <= j < k ==> !hit(answers[j]) {
      var k1 :| 0 <= k1 < |answers| && answers[k1] == r1 && hit(answers[k1])
                && forall j :: 0 <= j < k1 ==> !hit(answers[j]);
      var k2 :| 0 <= k2 < |answers| && answers[k2] == r2 && hit(answers[k2])
                && forall j :: 0 <= j < k2 ==> !hit(answers[j]);
      assert !(k1 < k2) && !(k2 < k1);
    }
  }

  /** The search itself: the first answer, in order, that is a hit; null when there is none. */
  function FirstHit(answers: seq<Option<string>>, hit: Option<string> -> bool): (r: Option<string>)
    ensures IsFirstHit(answers, hit, r)
    decreases |answers|
  {
    if |answers| == 0 then None
    else if hit(answers[0]) then answers[0]
    else
      var r := FirstHit(answers[1..], hit);
      assert forall i :: 1 <= i < |answers| ==> answers[i] == answers[1..][i - 1];
      assert IsFirstHit(answers, hit, r) by {
        if r.Some? || exists k :: 0 <= k < |answers| - 1 && answers[1..][k] == r && hit(answers[1..][k])
                                  && forall j :: 0 <= j < k ==> !hit(answers[1..][j]) {
          var k :| 0 <= k < |answers| - 1 && answers[1..][k] == r && hit(answers[1..][k])
                   && forall j :: 0 <= j < k ==> !hit(answers[1..][j]);
          assert answers[k + 1] == r;
        }
      }
      r
  }

  /** The answers of `providers` for `x`, in provider order (`providers.Select(p => p(x))`). */
  function Ask<X>(providers: seq<X -> Option<string>>, x: X): (r: seq<Option<string>>)
    ensures |r| == |providers|
    ensures forall i :: 0 <= i < |providers| ==> r[i] == providers[i](x)
  {
    seq(|providers|, i requires 0 <= i < |providers| => providers[i](x))
  }

  /** Asking two provider lists one after the other gives their answers one after the other. */
  lemma AskAppend<X>(first: seq<X -> Option<string>>, rest: seq<X -> Option<string>>, x: X)
    ensures Ask(first + rest, x) == Ask(first, x) + Ask(rest, x)
  {
    assert forall i :: 0 <= i < |first| + |rest| ==> Ask(first + rest, x)[i] == (Ask(first, x) + Ask(rest, x))[i];
  }

  /** Answers after the first hit do not matter, so providers after it need not be asked. */
  lemma {:induction false} LaterAnswersIgnored(answers: seq<Option<string>>, later: seq<Option<string>>,
                                               hit: Option<string> -> bool)
    requires exists k :: 0 <= k < |answers| && hit(answers[k])
    ensures FirstHit(answers + later, hit) == FirstHit(answers, hit)
    decreases |answers|
  {
    assert (answers + later)[0] == answers[0];
    if !hit(answers[0]) {
      var k :| 0 <= k < |answers| && hit(answers[k]);
      assert k > 0 && answers[1..][k - 1] == answers[k];
      assert (answers + later)[1..] == answers[1..] + later;
      LaterAnswersIgnored(answers[1..], later, hit);
    }
  }

  /** Without a hit among the leading answers, the search continues with the rest. */
  lemma {:induction false} LeadingMissesSkipped(misses: seq<Option<string>>, rest: seq<Option<string>>,
                                                hit: Option<string> -> bool)
    requires forall i :: 0 <= i < |misses| ==> !hit(misses[i])
    ensures FirstHit(misses + rest, hit) == FirstHit(rest, hit)
    decreases |misses|
  {
    if |misses| == 0 {
      assert misses + rest == rest;
    } else {
      assert (misses + rest)[0] == misses[0];
      assert (misses + rest)[1..] == misses[1..] + rest;
      assert forall i :: 0 <= i < |misses| - 1 ==> misses[1..][i] == misses[i + 1];
      LeadingMissesSkipped(misses[1..], rest, hit);
    }
  }

  /**
   * The provider loop as it executes: providers are asked in order and the loop stops at the first
   * hit. `consulted` is the number of providers that were asked.
   */
  method Consult<X>(providers: seq<X -> Option<string>>, x: X, hit: Option<string> -> bool)
    returns (r: Option<string>, consulted: nat)
    ensures r == FirstHit(Ask(providers, x), hit)
    ensures || (consulted == |providers| && r.None?
                && forall j :: 0 <= j < |providers| ==> !hit(providers[j](x)))
            || (0 < consulted <= |providers| && r == providers[consulted - 1](x) && hit(r)
                && forall j :: 0 <= j < consulted - 1 ==> !hit(providers[j](x)))
  {
    var i := 0;
    while i < |providers|
      invariant 0 <= i <= |providers|
      invariant forall j :: 0 <= j < i ==> !hit(providers[j](x))
      invariant FirstHit(Ask(providers, x), hit) == FirstHit(Ask(providers, x)[i..], hit)
    {
      var answer := providers[i](x);
      if hit(answer) {
        assert Ask(providers, x)[i..][0] == answer;
        return answer, i + 1;
      }
      assert Ask(providers, x)[i..][1..] == Ask(providers, x)[i + 1..];
      i := i + 1;
    }
    return None, i;
  }

  /** The three-provider case: a null, then `"X"`, then `"Y"` gives `"X"` under either rule. */
  lemma FirstHitExamples()
    ensures FirstHit([None, Some("X"), Some("Y")], HasDescription) == Some("X")
    ensures FirstHit([None, Some("X"), Some("Y")], IsNotNull) == Some("X")
    ensures FirstHit([None, Some(""), Some("X")], HasDescription) == Some("X")
    ensures FirstHit([None, Some(""), Some("X")], IsNotNull) == Some("")
    ensures FirstHit([None, Some("")], HasDescription) == None
    ensures FirstHit([], IsNotNull) == None
  {
    assert [None, Some("X"), Some("Y")][1..] == [Some("X"), Some("Y")];
    assert [None, Some(""), Some("X")][1..] == [Some(""), Some("X")];
    assert [Some(""), Some("X")][1..] == [Some("X")];
    assert [None, Some("")][1..] == [Some("")];
    assert [Some("")][1..] == [];
  }
}
