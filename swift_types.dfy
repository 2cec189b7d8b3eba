/** Value types of the Swift standard library that the modelled code relies on. */
module SwiftTypes {

  /** Swift's `Optional`. */
  datatype Option<+T> = None | Some(value: T)

  /** Swift's `Int32`: arithmetic on it traps when a result leaves this range, so every
      operation on an `int32` here must prove the result stays inside it. */
  newtype int32 = x: int | -0x8000_0000 <= x < 0x8000_0000

  /** Swift's `abs`, on an unbounded integer: the magnitude. Swift's `abs` traps on
      `Int32.min`; callers rule that argument out (`VoiceChatTimer.Representable`). */
  function Abs(x: int): (r: nat)
    ensures r == x || r == -x
  {
    if x < 0 then -x else x
  }
}
