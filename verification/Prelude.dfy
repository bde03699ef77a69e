/** Result shapes and texts shared by the other modules. */
module Prelude {

  /** A value that JavaScript may leave `undefined`. */
  datatype Option<+T> = None | Some(value: T) {
    function GetOr(default: T): T {
      if Some? then value else default
    }
  }

  /** The outcome of code that may throw. */
  datatype Result<+T> = Ok(value: T) | Thrown(reason: string) {
    predicate IsFailure() {
      Thrown?
    }

    function PropagateFailure<U>(): Result<U>
      requires Thrown?
    {
      Thrown(reason)
    }

    function Extract(): T
      requires Ok?
    {
      value
    }
  }

  /** A UTF-16 code unit, and a JavaScript string. */
  type Unit = u: int | 0 <= u < 0x1_0000

  type Text = seq<Unit>

  /** The code units of a text without characters beyond the basic plane; those become replacement characters. */
  function Units(s: string): (t: Text)
    ensures |t| == |s|
    ensures forall i :: 0 <= i < |s| && s[i] as int < 0x80 ==> t[i] == s[i] as int
  {
    seq(|s|, i requires 0 <= i < |s| => if s[i] as int < 0x1_0000 then s[i] as int else 0xFFFD)
  }
}
