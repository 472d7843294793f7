/**
 * The text form of a `Guid`: lower-case hexadecimal digits. `generate`
 * writes two digits per random byte into a caller's buffer, `isguid`
 * checks that a string holds nothing else. The random source is a
 * parameter: the successive values `rand()` returns.
 */
module Guid {
  import opened Memory

  /** `"0123456789abcdef"`. */
  const DIGITS: seq<byte> := ['0' as byte, '1' as byte, '2' as byte, '3' as byte, '4' as byte, '5' as byte,
                              '6' as byte, '7' as byte, '8' as byte, '9' as byte, 'a' as byte, 'b' as byte,
                              'c' as byte, 'd' as byte, 'e' as byte, 'f' as byte]

  /** `sizeof(tmp)`: the random bytes `generate` draws. */
  const RANDOM_BYTES: nat := 38

  /** The digit of a value below 16: `DIGITS[v]`. */
  function Digit(v: nat): (c: byte)
    requires v < 16
  {
    if v < 10 then 48 + v else 87 + v
  }

  /** A lower-case hexadecimal digit. */
  predicate IsDigit(c: byte)
  {
    48 <= c <= 57 || 97 <= c <= 102
  }

  /** The table `generate` indexes holds the digits in order. */
  lemma DigitsInOrder()
    ensures |DIGITS| == 16
    ensures forall v :: 0 <= v < 16 ==> DIGITS[v] == Digit(v)
  {
  }

  /** The bytes `strchr` finds in the table `isguid` searches are exactly the digits. */
  lemma DigitsTable()
    ensures forall c: byte :: c in DIGITS <==> IsDigit(c)
  {
    DigitsInOrder();
    forall c: byte | IsDigit(c)
      ensures c in DIGITS
    {
      assert DIGITS[DigitValue(c)] == c;
    }
  }

  /** Text made of lower-case hexadecimal digits only; the empty text is one. */
  predicate HexText(s: seq<byte>)
  {
    forall i :: 0 <= i < |s| ==> IsDigit(s[i])
  }

  /** `Guid::isguid` on a null pointer (`None`) or on memory holding a NUL-terminated string. */
  method IsGuid(buff: Option<seq<byte>>) returns (r: bool)
    requires buff.Some? ==> 0 in buff.value
    ensures r <==> buff.Some? && HexText(CString(buff.value, 0))
  {
    if buff.None? {
      return false;
    }
    var s := buff.value;
    var len := 0;
    while s[len] != 0
      invariant len < |s| && 0 in s[len..]
      invariant forall k :: 0 <= k < len ==> s[k] != 0
      decreases |s| - len
    {
      assert s[len..] == [s[len]] + s[len + 1..];
      len := len + 1;
    }
    CStringUpTo(s, 0, len);
    DigitsTable();
    var i := 0;
    while i < len
      invariant i <= len
      invariant HexText(s[..i])
    {
      if s[i] !in DIGITS {
        assert s[..len][i] == s[i];
        return false;
      }
      i := i + 1;
      assert s[..i] == s[..i - 1] + [s[i - 1]];
    }
    assert s[..i] == s[0..len];
    return true;
  }

  /** The empty string is accepted and an upper-case digit is not. */
  lemma IsGuidEdgeCases()
    ensures HexText(CString([0], 0))
    ensures !HexText(CString(['A' as byte, 0], 0))
  {
    assert CString(['A' as byte, 0], 0)[0] == 'A' as byte;
  }

  // ---------------------------------------------------------------------
  // generate
  // ---------------------------------------------------------------------

  /** A value below 256 stored into a `char`, then promoted to `int`. */
  function SignedChar(v: nat): int
    requires v < 256
  {
    if v >= 128 then v - 256 else v
  }

  /** `(c >> 4) & 0xf`: `>>` on a negative `int` rounds down, `& 0xf` keeps the low four bits. */
  function HighNibble(c: int): nat
  {
    (c / 16) % 16
  }

  /** `(c >> 0) & 0xf`. */
  function LowNibble(c: int): nat
  {
    c % 16
  }

  /** The sign of the `char` never shows: the digits are those of the unsigned byte. */
  lemma NibblesOfByte(v: nat)
    requires v < 256
    ensures HighNibble(SignedChar(v)) == v / 16
    ensures LowNibble(SignedChar(v)) == v % 16
  {
  }

  /** The two digits of every byte, high nibble first. */
  function Hex(bytes: seq<byte>): (s: seq<byte>)
  {
    if bytes == [] then []
    else [Digit(bytes[0] / 16), Digit(bytes[0] % 16)] + Hex(bytes[1..])
  }

  lemma {:induction false} HexAppend(bytes: seq<byte>, v: byte)
    ensures Hex(bytes + [v]) == Hex(bytes) + [Digit(v / 16), Digit(v % 16)]
  {
    if bytes != [] {
      assert (bytes + [v])[1..] == bytes[1..] + [v];
      HexAppend(bytes[1..], v);
    } else {
      assert [] + [v] == [v];
    }
  }

  /** Twice as long as its input, made of digits only, and so free of NUL. */
  lemma {:induction false} HexShape(bytes: seq<byte>)
    ensures |Hex(bytes)| == 2 * |bytes|
    ensures HexText(Hex(bytes))
    ensures 0 !in Hex(bytes)
  {
    if bytes != [] {
      HexShape(bytes[1..]);
      var s := Hex(bytes);
      assert s == [Digit(bytes[0] / 16), Digit(bytes[0] % 16)] + Hex(bytes[1..]);
      forall i | 0 <= i < |s|
        ensures IsDigit(s[i])
      {
        if i >= 2 {
          assert s[i] == Hex(bytes[1..])[i - 2];
        }
      }
    }
  }

  /** The value of a hexadecimal digit: its place in `DIGITS`. */
  function DigitValue(c: byte): (v: nat)
    requires IsDigit(c)
    ensures v < 16 && Digit(v) == c
  {
    if c <= 57 then c - 48 else c - 87
  }

  /** Reads back the bytes of a digit string of even length. */
  function Unhex(s: seq<byte>): seq<byte>
    requires |s| % 2 == 0 && HexText(s)
    decreases |s|
  {
    if s == [] then []
    else [16 * DigitValue(s[0]) + DigitValue(s[1])] + Unhex(s[2..])
  }

  /** The digits `generate` writes determine the random bytes they came from. */
  lemma {:induction false} HexRoundTrip(bytes: seq<byte>)
    ensures |Hex(bytes)| % 2 == 0 && HexText(Hex(bytes))
    ensures Unhex(Hex(bytes)) == bytes
  {
    HexShape(bytes);
    if bytes != [] {
      var b := bytes[0];
      var hi, lo := Digit(b / 16), Digit(b % 16);
      var s := Hex(bytes);
      assert s == [hi, lo] + Hex(bytes[1..]);
      assert s[0] == hi && s[1] == lo && s[2..] == Hex(bytes[1..]);
      HexRoundTrip(bytes[1..]);
      assert DigitValue(hi) == b / 16 && DigitValue(lo) == b % 16;
      assert Unhex(s) == [16 * DigitValue(hi) + DigitValue(lo)] + Unhex(s[2..]);
      assert bytes == [b] + bytes[1..];
    }
  }

  /** The byte `rand() % 255` leaves, as a value below 256. */
  function Drawn(random: seq<nat>): seq<byte>
    ensures |Drawn(random)| == |random|
    ensures forall i :: 0 <= i < |random| ==> Drawn(random)[i] == random[i] % 255
  {
    if random == [] then [] else [random[0] % 255] + Drawn(random[1..])
  }

  /** `char tmp[38]`, each element set to `rand() % 255`. */
  method Draw(random: seq<nat>) returns (tmp: array<int>)
    requires |random| == RANDOM_BYTES
    ensures fresh(tmp) && tmp.Length == RANDOM_BYTES
    ensures forall k :: 0 <= k < RANDOM_BYTES ==> tmp[k] == SignedChar(Drawn(random)[k])
  {
    tmp := new int[RANDOM_BYTES];
    for i := 0 to RANDOM_BYTES
      invariant forall k :: 0 <= k < i ==> tmp[k] == SignedChar(random[k] % 255)
    {
      tmp[i] := SignedChar(random[i] % 255);
    }
  }

  /**
   * `*ptr++ = digits[(c >> 4) & 0xf]; *ptr++ = digits[c & 0xf];` with `ptr`
   * just past the digits `done` already written.
   */
  method PutDigits(buff: array<byte>, ptr: nat, c: int, ghost done: seq<byte>, ghost rest: seq<byte>)
    requires buff[..] == done + rest && |done| == ptr && |rest| >= 2
    modifies buff
    ensures buff[..] == done + [Digit(HighNibble(c)), Digit(LowNibble(c))] + rest[2..]
  {
    DigitsInOrder();
    buff[ptr] := DIGITS[HighNibble(c)];
    buff[ptr + 1] := DIGITS[LowNibble(c)];
    assert buff[..] == (done + rest)[ptr := Digit(HighNibble(c))][ptr + 1 := Digit(LowNibble(c))];
  }

  /** The `for` loop of `generate`: the digits of the first `n` bytes of `tmp`, from `buff[0]` on. */
  method PutHex(buff: array<byte>, tmp: array<int>, ghost bytes: seq<byte>, n: nat)
    requires n <= |bytes| == tmp.Length && 2 * n <= buff.Length
    requires forall k :: 0 <= k < tmp.Length ==> tmp[k] == SignedChar(bytes[k])
    modifies buff
    ensures buff[..] == Hex(bytes[..n]) + old(buff[..])[2 * n..]
  {
    ghost var orig := buff[..];
    var ptr := 0;
    for i := 0 to n
      invariant ptr == 2 * i
      invariant buff[..] == Hex(bytes[..i]) + orig[ptr..]
    {
      HexShape(bytes[..i]);
      NibblesOfByte(bytes[i]);
      PutDigits(buff, ptr, tmp[i], Hex(bytes[..i]), orig[ptr..]);
      HexAppend(bytes[..i], bytes[i]);
      assert bytes[..i + 1] == bytes[..i] + [bytes[i]];
      assert orig[ptr..][2..] == orig[ptr + 2..];
      ptr := ptr + 2;
    }
  }

  /**
   * `Guid::generate`: `random` holds the 38 values `rand()` returns, `buff`
   * is the caller's buffer and `size` the size it passes. Reading past
   * `tmp[38]` or writing past the buffer is undefined; both depend on
   * `size` alone, so they are decided before the loop.
   */
  method Generate(buff: array<byte>, size: nat, random: seq<nat>) returns (r: Exec<()>)
    requires |random| == RANDOM_BYTES
    modifies buff
    ensures var n := size / 2; r.Done? <==> n <= RANDOM_BYTES && 2 * n < buff.Length
    ensures var n := size / 2; r.Done? ==> buff[..] == Hex(Drawn(random)[..n]) + [0] + old(buff[2 * n + 1..])
    ensures !r.Aborted?
  {
    var n := size / 2;
    if n > RANDOM_BYTES || 2 * n >= buff.Length {
      return Undefined;
    }
    var tmp := Draw(random);
    ghost var bytes := Drawn(random);
    PutHex(buff, tmp, bytes, n);
    HexShape(bytes[..n]);
    ghost var written := buff[..];
    buff[2 * n] := 0;
    assert buff[..] == written[2 * n := 0];
    assert buff[..] == Hex(bytes[..n]) + [0] + old(buff[..])[2 * n + 1..];
    return Done(());
  }

  /** What `generate` writes passes `isguid`: its digits, then the NUL that ends them. */
  lemma GeneratedIsGuid(bytes: seq<byte>, rest: seq<byte>)
    ensures CString(Hex(bytes) + [0] + rest, 0) == Hex(bytes)
    ensures HexText(CString(Hex(bytes) + [0] + rest, 0))
  {
    var s := Hex(bytes) + [0] + rest;
    HexShape(bytes);
    assert s[|Hex(bytes)|] == 0;
    assert forall k :: 0 <= k < |Hex(bytes)| ==> s[k] == Hex(bytes)[k];
    CStringUpTo(s, 0, |Hex(bytes)|);
    assert s[0..|Hex(bytes)|] == Hex(bytes);
  }
}
