/** Names shared by every module: result codes, fixed-width integers, threads, options. */
module Common {

  /** The result codes of the API, by name; an int32_t in C. */
  datatype Status =
    | Success
    | Generic
    | InvalidPointer
    | InvalidId
    | InvalidSize
    | NameTooLong
    | NameIsTaken
    | NoFreeIds
    | InvalidPriority
    | InvalidParam
    | CreationFailed
    | TimedOut
    | Busy
    | InvalidState
    | Unsupported
    | PermissionDenied

  datatype Option<+T> = None | Some(value: T)

  type u8 = x: nat | x < 0x100
  type u16 = x: nat | x < 0x1_0000
  type u32 = x: nat | x < 0x1_0000_0000

  const TWO32: nat := 0x1_0000_0000

  /** AOS_MAX_NAME: the size of a name buffer, the terminating NUL included. */
  const MAX_NAME: nat := 20

  /** The largest pool the 16-bit index field of an id can address. */
  const MAX_POOL: nat := 0x1_0000

  /** An application thread, whether or not it is an AOS task. */
  type Tid = nat

  /** Unsigned 32-bit arithmetic, which wraps. */
  function Inc32(x: u32): u32 { (x + 1) % TWO32 }

  function Bit(b: bool): nat { if b then 1 else 0 }

  lemma {:induction false} SubsetSize<T>(a: set<T>, b: set<T>)
    requires a <= b
    ensures |a| <= |b|
  {
    if a != {} {
      var x :| x in a;
      SubsetSize(a - {x}, b - {x});
    }
  }
}
