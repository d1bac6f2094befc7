/** Small value types shared by both reconcilers. */
module Base {

  /** An optional value: a query parameter that may be absent, a lookup that may miss. */
  datatype Option<+T> = None | Some(value: T)

  /** The run verdict the script prints as `Result: success` or `Result: failure`. */
  datatype Verdict = Success | Failure

  /** How a script ends: an early exit with an HTTP status, or `Result: <verdict>`. */
  datatype Status = Aborted(code: int) | Completed(verdict: Verdict)

  /** PHP's `empty()` on a string: true for "" and for "0". Every other string, "00",
      " " and "false" included, is non-empty. */
  function PhpEmpty(s: string): (e: bool)
    ensures e <==> |s| <= 1 && forall k :: 0 <= k < |s| ==> s[k] == '0'
  {
    s == "" || s == "0"
  }

  /** How the verdict accumulator moves after one step: once `Failure`, always `Failure`. */
  function Fold(v: Verdict, ok: bool): (r: Verdict)
    ensures r == Success <==> v == Success && ok
  {
    if ok then v else Failure
  }
}
