/** The early-return validators of the admin forms: checks run in a fixed
    order and the message of the first one that fails is reported. */
module Validation {
  import opened Wrappers

  /** One check: whether it passes, and the message shown when it does not. */
  datatype Check = Check(passes: bool, message: string)

  predicate AllPass(checks: seq<Check>) {
    forall i :: 0 <= i < |checks| ==> checks[i].passes
  }

  /** The message of the first failing check, or `None` when all pass. */
  function FirstFailure(checks: seq<Check>): (r: Option<string>)
    ensures r.None? <==> AllPass(checks)
  {
    if |checks| == 0 then None
    else if !checks[0].passes then Some(checks[0].message)
    else
      assert forall i :: 1 <= i < |checks| ==> checks[i] == checks[1..][i - 1];
      FirstFailure(checks[1..])
  }

  /** The check at `i` fails while all before it pass: its message is the one
      reported. */
  lemma {:induction false} FirstFailureAt(checks: seq<Check>, i: nat)
    requires i < |checks| && !checks[i].passes && AllPass(checks[..i])
    ensures FirstFailure(checks) == Some(checks[i].message)
  {
    if i > 0 {
      assert checks[0] == checks[..i][0];
      assert checks[1..][..i - 1] == checks[..i][1..];
      FirstFailureAt(checks[1..], i - 1);
    }
  }
}
