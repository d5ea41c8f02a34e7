/**
 * The operator-input validators of DBproject.java and the re-prompt loop
 * they sit in: read an answer, stop at the first one that is valid,
 * otherwise print a complaint and read again.
 */
module Validation {
  import opened Wrappers

  /** The status options listed by AddAppointment (lines 442-446). */
  const StatusOptions: seq<string> := ["PA", "AC", "AV", "WL"]

  /** `status_opt.contains(status)`: list membership by `equals`. */
  predicate IsStatusOption(s: string)
  {
    s in StatusOptions
  }

  /** `gender.equals("M") || gender.equals("F")`. */
  predicate IsGender(g: string)
  {
    g == "M" || g == "F"
  }

  /** `y_n.equals("Y") || y_n.equals("N")`. */
  predicate IsYesNo(a: string)
  {
    a == "Y" || a == "N"
  }

  /** A status is accepted exactly when it is one of the four two-letter codes. */
  lemma StatusOptionsAreTheFourCodes(s: string)
    ensures IsStatusOption(s) <==> s == "PA" || s == "AC" || s == "AV" || s == "WL"
  {
  }

  predicate IsUpper(c: char)
  {
    'A' <= c <= 'Z'
  }

  /**
   * Every validator compares exactly: an accepted answer is upper-case and
   * of the code's length, so lower-case answers and long forms are refused.
   */
  lemma ValidatorsAreCaseSensitive(a: string)
    ensures IsYesNo(a) || IsGender(a) ==> |a| == 1 && IsUpper(a[0])
    ensures IsStatusOption(a) ==> |a| == 2 && IsUpper(a[0]) && IsUpper(a[1])
  {
  }

  /** Position of the first answer the prompt accepts, if any. */
  function FirstValid<T>(answers: seq<T>, valid: T -> bool): (r: Option<nat>)
    ensures r.Some? ==> r.value < |answers| && valid(answers[r.value])
    ensures r.Some? ==> forall j :: 0 <= j < r.value ==> !valid(answers[j])
    ensures r.None? ==> forall j :: 0 <= j < |answers| ==> !valid(answers[j])
    decreases |answers|
  {
    if answers == [] then None
    else if valid(answers[0]) then Some(0)
    else match FirstValid(answers[1..], valid)
      case None => None
      case Some(k) => Some(k + 1)
  }

  /**
   * The `do { read; if valid break; else complain } while (true)` loop.
   * The answers the operator would type are given up front; `None` means
   * they ran out before a valid one came.
   */
  method Prompt<T>(answers: seq<T>, valid: T -> bool) returns (r: Option<nat>)
    ensures r == FirstValid(answers, valid)
  {
    var i := 0;
    while i < |answers| && !valid(answers[i])
      invariant 0 <= i <= |answers|
      invariant forall j :: 0 <= j < i ==> !valid(answers[j])
    {
      i := i + 1;
    }
    r := if i < |answers| then Some(i) else None;
  }
}
