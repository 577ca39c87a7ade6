/** Values shared by the frontend components: the status strings the audit
    data carries, the colour tones the views pick from, and JavaScript's
    `x || fallback` on values that may be missing. */
module Values {
  import opened Wrappers

  const PASS: string := "PASS"
  const WARN: string := "WARN"
  const FAIL: string := "FAIL"

  /** The palette the views choose from; `Neutral` is the plain (white or
      dark) style used when none of the accent colours applies. */
  datatype Tone = Green | Amber | Red | Neutral

  /** Hex code of a tone in the dark dashboard palette. */
  function Hex(t: Tone): string {
    match t
    case Green => "#00d4aa"
    case Amber => "#ffa500"
    case Red => "#e50914"
    case Neutral => "#ffffff"
  }

  /** A string is truthy in JavaScript when it is present and not empty. */
  predicate Truthy(v: Option<string>) {
    v.Some? && v.value != ""
  }

  /** `v || fallback` for an optional string. */
  function OrElse(v: Option<string>, fallback: string): (r: string)
    ensures Truthy(v) ==> r == v.value
    ensures !Truthy(v) ==> r == fallback
  {
    if Truthy(v) then v.value else fallback
  }

  /** `a || b || c`: the first truthy operand, or the last one. */
  function FirstTruthy(a: Option<string>, b: Option<string>, c: Option<string>): (r: Option<string>)
    ensures Truthy(a) ==> r == a
    ensures !Truthy(a) && Truthy(b) ==> r == b
    ensures !Truthy(a) && !Truthy(b) ==> r == c
  {
    if Truthy(a) then a else if Truthy(b) then b else c
  }

  /** The border the node cards share: red when the card's extra alarm is
      raised or its status is FAIL, amber for WARN, green otherwise. */
  function BorderTone(status: string, alarm: bool): (t: Tone)
    ensures t == Red <==> alarm || status == FAIL
    ensures t == Amber <==> !alarm && status == WARN
    ensures t == Green <==> !alarm && status != FAIL && status != WARN
  {
    if alarm || status == FAIL then Red
    else if status == WARN then Amber
    else Green
  }
}
