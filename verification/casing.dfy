/**
 * Character casing. The host's `ToLower` is culture-sensitive; this model fixes it to the ASCII
 * letters `A`-`Z`, which it maps to `a`-`z`, and leaves every other character alone.
 */
module Casing {
  import opened Wrappers
  import opened Errors

  predicate IsAsciiUpper(c: char) {
    'A' <= c <= 'Z'
  }

  predicate IsAsciiLower(c: char) {
    'a' <= c <= 'z'
  }

  /** `char.ToLower` on the ASCII letters. */
  function ToLower(c: char): (r: char)
    ensures !IsAsciiUpper(r)
    ensures !IsAsciiUpper(c) ==> r == c
    ensures IsAsciiUpper(c) ==> IsAsciiLower(r) && r as int - c as int == 'a' as int - 'A' as int
  {
    if IsAsciiUpper(c) then (c as int - 'A' as int + 'a' as int) as char else c
  }

  /** `char.ToUpperInvariant` on the ASCII letters. */
  function ToUpper(c: char): (r: char)
    ensures !IsAsciiLower(r)
    ensures !IsAsciiLower(c) ==> r == c
    ensures IsAsciiLower(c) ==> IsAsciiUpper(r) && c as int - r as int == 'a' as int - 'A' as int
  {
    if IsAsciiLower(c) then (c as int - 'a' as int + 'A' as int) as char else c
  }

  /** `StringComparison.OrdinalIgnoreCase`: same length and the same characters once upper-cased. */
  predicate EqualsIgnoreCase(a: string, b: string) {
    |a| == |b| && forall i :: 0 <= i < |a| ==> ToUpper(a[i]) == ToUpper(b[i])
  }

  /** An upper-case ASCII letter is the upper-case form of exactly itself and its lower-case letter. */
  lemma UpperCaseOf(c: char, u: char)
    requires IsAsciiUpper(u)
    ensures ToUpper(c) == u <==> c == u || c as int == u as int + ('a' as int - 'A' as int)
  {
  }

  /** Ignoring case is an equivalence: reflexive, symmetric and transitive. */
  lemma EqualsIgnoreCaseIsEquivalence(a: string, b: string, c: string)
    ensures EqualsIgnoreCase(a, a)
    ensures EqualsIgnoreCase(a, b) ==> EqualsIgnoreCase(b, a)
    ensures EqualsIgnoreCase(a, b) && EqualsIgnoreCase(b, c) ==> EqualsIgnoreCase(a, c)
  {
  }

  /**
   * `ControllerlessParameterDescriptor.ToCamelCase`: `name.Substring(0, 1).ToLower() + name.Substring(1)`.
   * On the empty name `Substring(0, 1)` throws, which is the `Failure` here.
   */
  function ToCamelCase(name: string): (r: Result<string, Error>)
    ensures r.Failure? <==> |name| == 0
    ensures r.Failure? ==> r.error == ArgumentOutOfRange("length")
    ensures r.Success? ==> |r.value| == |name|
    ensures r.Success? ==> r.value[0] == ToLower(name[0]) && !IsAsciiUpper(r.value[0])
    ensures r.Success? ==> forall i :: 1 <= i < |name| ==> r.value[i] == name[i]
  {
    if |name| == 0 then Failure(ArgumentOutOfRange("length"))
    else Success([ToLower(name[0])] + name[1..])
  }

  /** Camel-casing an already camel-cased name changes nothing. */
  lemma CamelCaseIdempotent(name: string)
    requires |name| > 0
    ensures ToCamelCase(ToCamelCase(name).value) == ToCamelCase(name)
  {
    var once := ToCamelCase(name).value;
    var twice := ToCamelCase(once).value;
    assert |twice| == |once|;
    assert forall i :: 0 <= i < |once| ==> twice[i] == once[i];
  }

  /** Two names that differ only in the case of their first letter camel-case to the same name. */
  lemma CamelCaseIgnoresFirstLetterCase(a: string, b: string)
    requires |a| > 0 && |a| == |b|
    requires ToLower(a[0]) == ToLower(b[0]) && a[1..] == b[1..]
    ensures ToCamelCase(a) == ToCamelCase(b)
  {
    var ra := ToCamelCase(a).value;
    var rb := ToCamelCase(b).value;
    assert forall i :: 1 <= i < |a| ==> a[i] == a[1..][i - 1] && b[i] == b[1..][i - 1];
    assert forall i :: 0 <= i < |ra| ==> ra[i] == rb[i];
  }

  /** Only the first character changes: `"Message"` becomes `"message"` and `"ID"` becomes `"iD"`. */
  lemma CamelCaseExamples()
    ensures ToCamelCase("Message") == Success("message")
    ensures ToCamelCase("ID") == Success("iD")
    ensures ToCamelCase("message") == Success("message")
    ensures ToCamelCase("") == Failure(ArgumentOutOfRange("length"))
  {
    assert ToLower('M') == 'm' && ToLower('I') == 'i';
    assert "Message"[1..] == "essage" && ['m'] + "essage" == "message";
    assert "ID"[1..] == "D" && ['i'] + "D" == "iD";
    assert "message"[1..] == "essage";
  }

  /** The GET check of the explorer: `"get"` and `"Get"` are the same method as `"GET"`. */
  lemma IgnoreCaseExamples()
    ensures EqualsIgnoreCase("get", "GET") && EqualsIgnoreCase("Get", "GET")
    ensures !EqualsIgnoreCase("POST", "GET") && !EqualsIgnoreCase("GETS", "GET")
  {
    assert ToUpper('g') == 'G' && ToUpper('e') == 'E' && ToUpper('t') == 'T';
    assert ToUpper('P') != ToUpper('G');
  }
}
