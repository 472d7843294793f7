/**
 * Machine-level vocabulary shared by the decoders: fixed-width unsigned
 * integers, little-endian words in a byte buffer, and the outcome of a
 * computation that may run into undefined behaviour or a failed assertion.
 */
module Memory {

  type byte = x: int | 0 <= x < 0x100
  type u16 = x: int | 0 <= x < 0x1_0000
  type u32 = x: int | 0 <= x < 0x1_0000_0000
  type u64 = x: int | 0 <= x < 0x1_0000_0000_0000_0000

  const U32_MAX: u32 := 0xFFFF_FFFF

  datatype Option<+T> = None | Some(value: T)

  /** Lookup in a map that answers None for an absent key. */
  function Get<K, V>(m: map<K, V>, k: K): Option<V>
  {
    if k in m then Some(m[k]) else None
  }

  /**
   * The result of running a piece of the source: a value, undefined
   * behaviour (an out-of-range read or write, a null dereference), or an
   * `assert` that fails. Failure-compatible, so `:-` propagates both kinds.
   */
  datatype Exec<+T> = Done(value: T) | Undefined | Aborted
  {
    predicate IsFailure() { !Done? }

    function PropagateFailure<U>(): Exec<U>
      requires IsFailure()
    {
      if Undefined? then Undefined else Aborted
    }

    function Extract(): T
      requires Done?
    {
      value
    }

    /** The same outcome, with `s` paired to the value when there is one. */
    function Paired<S>(s: S): Exec<(S, T)>
    {
      match this
      case Done(v) => Done((s, v))
      case Undefined => Undefined
      case Aborted => Aborted
    }

    /** The same outcome, carrying `s` instead of the value. */
    function Then<S>(s: S): Exec<S>
    {
      match this
      case Done(_) => Done(s)
      case Undefined => Undefined
      case Aborted => Aborted
    }
  }

  /** The 32-bit little-endian word stored at byte offset `pos`. */
  function Word(buf: seq<byte>, pos: nat): u32
    requires pos + 4 <= |buf|
  {
    buf[pos] as int + 0x100 * buf[pos + 1] as int + 0x1_0000 * buf[pos + 2] as int + 0x100_0000 * buf[pos + 3] as int
  }

  /** A 32-bit read at `pos`; undefined when it would leave the buffer. */
  function WordAt(buf: seq<byte>, pos: nat): Exec<u32>
  {
    if pos + 4 <= |buf| then Done(Word(buf, pos)) else Undefined
  }

  /** Low and high halves of the word at `pos`, as a struct of two uint16_t reads them. */
  function Low16(buf: seq<byte>, pos: nat): u16
    requires pos + 4 <= |buf|
  {
    buf[pos] as int + 0x100 * buf[pos + 1] as int
  }

  function High16(buf: seq<byte>, pos: nat): u16
    requires pos + 4 <= |buf|
  {
    buf[pos + 2] as int + 0x100 * buf[pos + 3] as int
  }

  /** Conversion to a 16-bit unsigned type: keeps the low 16 bits. */
  function Trunc16(x: nat): u16
  {
    x % 0x1_0000
  }

  /** Conversion to a 32-bit unsigned type: keeps the low 32 bits. */
  function Trunc32(x: int): u32
  {
    x % 0x1_0000_0000
  }

  /**
   * The bytes of the NUL-terminated text starting at `pos`, copied out of
   * the buffer; text that runs to the end of the buffer stops there.
   */
  function CString(buf: seq<byte>, pos: nat): (s: seq<byte>)
    ensures 0 !in s
    ensures pos + |s| <= |buf| || s == []
    ensures forall i :: 0 <= i < |s| ==> s[i] == buf[pos + i]
    decreases |buf| - pos
  {
    if pos >= |buf| || buf[pos] == 0 then [] else [buf[pos]] + CString(buf, pos + 1)
  }

  /** The text at `pos` is the stretch of non-NUL bytes up to the first NUL or the end. */
  lemma {:induction false} CStringUpTo(buf: seq<byte>, pos: nat, len: nat)
    requires pos <= len <= |buf|
    requires forall k :: pos <= k < len ==> buf[k] != 0
    requires len == |buf| || buf[len] == 0
    ensures CString(buf, pos) == buf[pos..len]
    decreases len - pos
  {
    if pos < len {
      CStringUpTo(buf, pos + 1, len);
    }
  }
}
