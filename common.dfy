/** Small shared vocabulary: optional values, results with an error message,
    and the decimal rendering of a natural number used in messages. */
module Common {

  datatype Option<T> = None | Some(value: T)

  /** Success, or a failure carrying the message the caller would see. */
  datatype Result<T> = Ok(value: T) | Err(message: string)

  /** `message || fallback`: an error's message, or the fallback when the
      message is empty. */
  function MessageOr(message: string, fallback: string): (m: string)
    ensures message != "" ==> m == message
    ensures message == "" ==> m == fallback
    ensures fallback != "" ==> m != ""
  {
    if message != "" then message else fallback
  }

  function DigitChar(d: nat): (c: char)
    requires d < 10
    ensures '0' <= c <= '9'
  {
    "0123456789"[d]
  }

  /** The decimal text of `n`, as a template literal renders it. */
  function NatToString(n: nat): (s: string)
    ensures |s| > 0
    ensures forall i :: 0 <= i < |s| ==> '0' <= s[i] <= '9'
    decreases n
  {
    if n < 10 then [DigitChar(n)] else NatToString(n / 10) + [DigitChar(n % 10)]
  }
}
