/**
 * `SpirvAnalyzer::analyze` as the source runs it: a cursor over the byte
 * buffer, a first loop that records where every instruction starts, a
 * second loop that revisits each record and updates the map of named ids.
 * Every method is proved to do what the corresponding function of
 * SpirvAnalyzerSpec says.
 */
module SpirvAnalyzer {
  import opened Memory
  import opened SpirvAnalyzerSpec

  /** `stream_view`: a read-only buffer and a byte cursor. */
  class StreamView {
    const data: seq<byte>
    var cur: nat

    constructor (d: seq<byte>)
      ensures data == d && cur == 0
    {
      data := d;
      cur := 0;
    }

    /** `shift<T>`: steps over `size` bytes without reading them. */
    method Shift(size: nat)
      modifies this
      ensures cur == old(cur) + size
    {
      cur := cur + size;
    }

    /** `read(&x, sizeof(uint32_t))`. */
    method ReadWord() returns (r: Exec<u32>)
      modifies this
      ensures r == WordAt(data, old(cur))
      ensures cur == old(cur) + 4
    {
      r := WordAt(data, cur);
      cur := cur + 4;
    }

    /** `read(dst, size)`: the bytes `memcpy` takes from under the cursor. */
    method Read(size: nat) returns (r: Exec<seq<byte>>)
      modifies this
      ensures old(cur) + size <= |data| ==> r == Done(data[old(cur)..old(cur) + size])
      ensures old(cur) + size > |data| ==> r == Undefined
      ensures cur == old(cur) + size
    {
      if cur + size <= |data| {
        r := Done(data[cur..cur + size]);
      } else {
        r := Undefined;
      }
      cur := cur + size;
    }

    method Seek(pos: nat)
      modifies this
      ensures cur == pos
    {
      cur := pos;
    }

    function Tell(): nat
      reads this
    {
      cur
    }

    predicate Eof()
      reads this
    {
      cur >= |data|
    }
  }

  /** `memcpy` into a fixed array: false, before any write, when `src` does not fit. */
  method CopyInto(dst: array<byte>, src: seq<byte>) returns (ok: bool)
    modifies dst
    ensures ok <==> |src| <= dst.Length
    ensures ok ==> dst[..] == src + old(dst[|src|..])
  {
    if |src| > dst.Length {
      return false;
    }
    var k := 0;
    while k < |src|
      invariant k <= |src|
      invariant dst[..k] == src[..k]
      invariant dst[k..] == old(dst[k..])
    {
      dst[k] := src[k];
      k := k + 1;
    }
    return true;
  }

  /** `strlen`: the index of the first NUL; running off the end of the array is undefined. */
  method Strlen(s: array<byte>) returns (r: Exec<nat>)
    ensures r.Done? <==> 0 in s[..]
    ensures r.Done? ==> r.value < s.Length && s[r.value] == 0 && 0 !in s[..r.value]
    ensures !r.Aborted?
  {
    var len := 0;
    while len < s.Length && s[len] != 0
      invariant len <= s.Length
      invariant 0 !in s[..len]
    {
      len := len + 1;
    }
    if len == s.Length {
      return Undefined;
    }
    return Done(len);
  }

  /**
   * The name an `OpName` or `OpMemberName` copies into `char buff[64] = ""`
   * and measures with `strlen`. A byte count is always 3 modulo 4, which
   * keeps a NUL in the buffer whenever the copy fits.
   */
  method ReadName(stream: StreamView, n: u32) returns (r: Exec<seq<byte>>)
    requires n % 4 == 3
    modifies stream
    ensures r == if n > NAME_BUFFER || old(stream.cur) + n > |stream.data| then Undefined
                 else Done(NameIn(stream.data, old(stream.cur), n))
  {
    ghost var at := stream.cur;
    var buff := new byte[NAME_BUFFER](_ => 0);
    var bytes :- stream.Read(n);
    var ok := CopyInto(buff, bytes);
    if !ok {
      return Undefined;
    }
    assert buff[n] == 0;
    assert 0 in buff[..];
    var measured := Strlen(buff);
    assert measured.Done?;
    var len := measured.value;
    assert len <= n;
    forall k | 0 <= k < len
      ensures bytes[k] != 0
    {
      assert bytes[k] == buff[k] == buff[..len][k];
    }
    CStringUpTo(bytes, 0, len);
    assert buff[..len] == bytes[..len];
    return Done(buff[..len]);
  }

  /** `case 5`: an id not named yet gets the name, when it is not empty. */
  method NameCase(stream: StreamView, rec: Record, d: map<u32, Entry>) returns (r: Exec<map<u32, Entry>>)
    requires stream.cur == rec.offset
    modifies stream
    ensures r == ApplyName(stream.data, rec, d)
  {
    var id :- stream.ReadWord();
    NameBytesOdd(rec.size);
    var name :- ReadName(stream, NameBytes(rec.size));
    if id !in d && |name| > 0 {
      return Done(d[id := Named(id, name)]);
    }
    return Done(d);
  }

  /** `case 6`: `decorates.find(id)->second.add(...)`, with no check that the id is there. */
  method MemberNameCase(stream: StreamView, rec: Record, d: map<u32, Entry>) returns (r: Exec<map<u32, Entry>>)
    requires stream.cur == rec.offset
    modifies stream
    ensures r == ApplyMemberName(stream.data, rec, d)
  {
    var id :- stream.ReadWord();
    var mid :- stream.ReadWord();
    NameBytesOdd(rec.size);
    var name :- ReadName(stream, NameBytes(rec.size));
    if id !in d {
      return Undefined;
    }
    return Done(d[id := d[id].(children := d[id].children + [Named(mid, name)])]);
  }

  /** `case SpvOpDecorate`: each literal word is stored through the iterator `find(id)` returned. */
  method DecorateCase(stream: StreamView, rec: Record, d: map<u32, Entry>) returns (r: Exec<map<u32, Entry>>)
    requires stream.cur == rec.offset
    modifies stream
    ensures r == ApplyDecorate(stream.data, rec, d)
  {
    var id :- stream.ReadWord();
    var kind :- stream.ReadWord();
    var found := id in d;
    var m := DecorationWords(rec.size);
    var out := d;
    var j: nat := 0;
    while j < m
      invariant j <= m
      invariant stream.cur == rec.offset + 8 + 4 * j <= |stream.data|
      invariant j == 0 || kind !in {DecorationLocation, DecorationBinding, DecorationDescriptorSet} ==> out == d
      invariant j > 0 && kind in {DecorationLocation, DecorationBinding, DecorationDescriptorSet} ==>
        found && out == d[id := SetDecoration(d[id], kind, Word(stream.data, rec.offset + 8 + 4 * (j - 1)))]
    {
      var value :- stream.ReadWord();
      if kind == DecorationLocation {
        if !found {
          return Undefined;
        }
        out := out[id := out[id].(location := value)];
      }
      if kind == DecorationBinding {
        if !found {
          return Undefined;
        }
        out := out[id := out[id].(binding := value)];
      }
      if kind == DecorationDescriptorSet {
        if !found {
          return Undefined;
        }
        out := out[id := out[id].(description := value)];
      }
      j := j + 1;
    }
    return Done(out);
  }

  /** One turn of the second loop: the `switch` on the recorded opcode, after `seek(offset)`. */
  method Revisit(stream: StreamView, rec: Record, d: map<u32, Entry>) returns (r: Exec<map<u32, Entry>>)
    requires stream.cur == rec.offset
    modifies stream
    ensures r == Apply(stream.data, rec, d)
  {
    if rec.op == OpName {
      r := NameCase(stream, rec, d);
    } else if rec.op == OpMemberName {
      r := MemberNameCase(stream, rec, d);
    } else if rec.op == OpDecorate {
      r := DecorateCase(stream, rec, d);
    } else if rec.op == OpMemberDecorate {
      var id :- stream.ReadWord();
      var mid :- stream.ReadWord();
      var decor :- stream.ReadWord();
      var builtin :- stream.ReadWord();
      r := Done(d);
    } else if rec.op == OpTypePointer {
      var tokens := new byte[POINTER_TOKENS](_ => 0);
      var bytes :- stream.Read(TokenBytes(rec.size));
      var ok := CopyInto(tokens, bytes);
      r := if ok then Done(d) else Undefined;
    } else if rec.op == OpTypeStruct {
      var id :- stream.ReadWord();
      var ty :- stream.ReadWord();
      r := Done(d);
    } else if rec.op == OpVariable {
      var ty :- stream.ReadWord();
      var id :- stream.ReadWord();
      var storage :- stream.ReadWord();
      if rec.size == 4 {
        var initializer :- stream.ReadWord();
      }
      r := Done(d);
    } else {
      r := Done(d);
    }
  }

  /** `SpirvAnalyzer::analyze`. */
  method Analyze(data: seq<byte>) returns (v: Verdict)
    ensures v == SpirvAnalyzerSpec.Analyze(data)
  {
    var stream := new StreamView(data);
    stream.Shift(HEADER_BYTES);
    if |data| < 4 {
      return Fault;
    }
    if Word(data, 0) != SPIRV_MAGIC {
      return Rejected;
    }
    if |data| < 8 {
      return Fault;
    }
    if Word(data, 4) != SPIRV_VERSION {
      return Rejected;
    }

    var instructions: seq<Record> := [];
    while !stream.Eof()
      invariant stream.data == data
      invariant Split(data, stream.cur, instructions) == Split(data, HEADER_BYTES, [])
      decreases |data| - stream.cur
    {
      var at := stream.Tell();
      stream.Shift(4);
      if at + 4 > |data| {
        return Fault;
      }
      var op, count := Low16(data, at), High16(data, at);
      instructions := instructions + [Record(op, Trunc32(count as int - 1), Trunc32(stream.Tell()))];
      var i: u16 := 0;
      while i as int < count as int - 1
        invariant i <= Skipped(count)
        invariant stream.cur == at + 4 + 4 * i
      {
        stream.Shift(4);
        i := i + 1;
      }
      assert i == Skipped(count);
    }

    var decorates: map<u32, Entry> := map[];
    var i := 0;
    while i < |instructions|
      invariant i <= |instructions|
      invariant stream.data == data
      invariant Split(data, HEADER_BYTES, []) == Done(instructions)
      invariant Collect(data, instructions, i, decorates) == Collect(data, instructions, 0, map[])
    {
      var rec := instructions[i];
      stream.Seek(rec.offset);
      var e := Revisit(stream, rec, decorates);
      if e.IsFailure() {
        return Fault;
      }
      decorates := e.value;
      i := i + 1;
    }
    return Accepted(instructions, decorates);
  }
}
