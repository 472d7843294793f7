/**
 * Functional specification of `SpirvAnalyzer::analyze`, the two-pass
 * variant of the SPIR-V reader: pass 1 cuts the word stream into
 * instruction records, pass 2 revisits every record and collects names,
 * member names and the Location / Binding / DescriptorSet decorations of
 * each named id. The lemmas state what the two passes guarantee.
 */
module SpirvAnalyzerSpec {
  import opened Memory

  const SPIRV_MAGIC: u32 := 0x0723_0203
  const SPIRV_VERSION: u32 := 0x0001_0000
  const HEADER_BYTES: nat := 20

  const OpName: u16 := 5
  const OpMemberName: u16 := 6
  const OpTypeStruct: u16 := 30
  const OpTypePointer: u16 := 32
  const OpVariable: u16 := 59
  const OpDecorate: u16 := 71
  const OpMemberDecorate: u16 := 72

  const DecorationLocation: u32 := 30
  const DecorationBinding: u32 := 33
  const DecorationDescriptorSet: u32 := 34

  /** Capacity of the `buff` a name is copied into, and of the `tokens` of a pointer type, in bytes. */
  const NAME_BUFFER: nat := 64
  const POINTER_TOKENS: nat := 16

  /**
   * `Instruction`: the opcode of the header it points at, `count - 1` stored
   * as `uint32_t` (so a zero word count reads as 0xFFFFFFFF), and the byte
   * offset just after the header, also stored as `uint32_t`.
   */
  datatype Record = Record(op: u16, size: u32, offset: u32)

  /** `Decorate`: an id, its name, three decoration values (UINT32_MAX when absent), its members. */
  datatype Entry = Entry(id: u32, name: seq<byte>, description: u32, binding: u32, location: u32,
                         children: seq<Entry>)

  /** A freshly named id or member: every decoration holds the sentinel. */
  function Named(id: u32, name: seq<byte>): Entry
  {
    Entry(id, name, U32_MAX, U32_MAX, U32_MAX, [])
  }

  /** `analyze`: false on a bad header, true otherwise, or undefined behaviour on the way. */
  datatype Verdict = Rejected | Accepted(instructions: seq<Record>, decorates: map<u32, Entry>) | Fault

  // ---------------------------------------------------------------------
  // Pass 1
  // ---------------------------------------------------------------------

  /** The words skipped after a header: `for (uint16_t i = 0; i < count - 1; i++)`. */
  function Skipped(count: u16): nat
  {
    if count >= 1 then count - 1 else 0
  }

  /** The record pass 1 makes of the header at byte `p`. */
  function RecordAt(buf: seq<byte>, p: nat): Record
    requires p + 4 <= |buf|
  {
    Record(Low16(buf, p), Trunc32(High16(buf, p) - 1), Trunc32(p + 4))
  }

  /** Pass 1 from byte `p` on, after the records `acc`. */
  function Split(buf: seq<byte>, p: nat, acc: seq<Record>): Exec<seq<Record>>
    decreases |buf| - p
  {
    if p >= |buf| then Done(acc)
    else if p + 4 > |buf| then Undefined
    else Split(buf, p + 4 + 4 * Skipped(High16(buf, p)), acc + [RecordAt(buf, p)])
  }

  // ---------------------------------------------------------------------
  // Pass 2
  // ---------------------------------------------------------------------

  /**
   * `sizeof(uint32_t) * size - 1` bytes, computed in `size_t` and passed as
   * `uint32_t`: a record of size 0 asks for 0xFFFFFFFF bytes. (Reducing
   * modulo 2^64 first changes nothing modulo 2^32.)
   */
  function NameBytes(size: u32): u32
  {
    Trunc32(4 * size - 1)
  }

  /** A name is always 3 bytes beyond a multiple of four long, so never exactly fills `buff`. */
  lemma NameBytesOdd(size: u32)
    ensures NameBytes(size) % 4 == 3
  {
    var r := size % 0x4000_0000;
    var k := if r == 0 then 0x4000_0000 else r;
    assert 4 * size - 1 == 0x1_0000_0000 * (size / 0x4000_0000) + 4 * r - 1;
    assert NameBytes(size) == 4 * k - 1;
  }

  /** `sizeof(uint32_t) * size` bytes, passed as `uint32_t`. */
  function TokenBytes(size: u32): u32
  {
    Trunc32(4 * size)
  }

  /** `j < size - 2` in `uint32_t`: a record of size 0 or 1 asks for about four billion words. */
  function DecorationWords(size: u32): u32
  {
    Trunc32(size - 2)
  }

  /** The text `strlen` finds in `buff` after `n < 64` bytes were copied into the zeroed buffer. */
  function NameIn(buf: seq<byte>, at: nat, n: nat): seq<byte>
    requires at + n <= |buf|
  {
    CString(buf[at..at + n], 0)
  }

  /** `OpName`: the first non-empty name of an id is kept. */
  function ApplyName(buf: seq<byte>, r: Record, d: map<u32, Entry>): Exec<map<u32, Entry>>
  {
    var n := NameBytes(r.size);
    if n > NAME_BUFFER || r.offset + 4 + n > |buf| then Undefined
    else
      var id := Word(buf, r.offset);
      var name := NameIn(buf, r.offset + 4, n);
      if id !in d && |name| > 0 then Done(d[id := Named(id, name)]) else Done(d)
  }

  /** `OpMemberName`: appends a member to an id that must already be named. */
  function ApplyMemberName(buf: seq<byte>, r: Record, d: map<u32, Entry>): Exec<map<u32, Entry>>
  {
    var n := NameBytes(r.size);
    if n > NAME_BUFFER || r.offset + 8 + n > |buf| then Undefined
    else
      var id := Word(buf, r.offset);
      if id !in d then Undefined
      else
        var member := Named(Word(buf, r.offset + 4), NameIn(buf, r.offset + 8, n));
        Done(d[id := d[id].(children := d[id].children + [member])])
  }

  /** The entry with the field decoration `kind` selects set to `value`; other kinds change nothing. */
  function SetDecoration(e: Entry, kind: u32, value: u32): Entry
  {
    if kind == DecorationLocation then e.(location := value)
    else if kind == DecorationBinding then e.(binding := value)
    else if kind == DecorationDescriptorSet then e.(description := value)
    else e
  }

  /** The decoration field a kind selects, if any. */
  function Field(e: Entry, kind: u32): u32
    requires kind in {DecorationLocation, DecorationBinding, DecorationDescriptorSet}
  {
    if kind == DecorationLocation then e.location
    else if kind == DecorationBinding then e.binding
    else e.description
  }

  /**
   * `OpDecorate`: every literal word is stored in turn into the field the
   * kind selects, so the last one stays; the id must be named unless the
   * kind selects no field or there is no literal.
   */
  function ApplyDecorate(buf: seq<byte>, r: Record, d: map<u32, Entry>): Exec<map<u32, Entry>>
  {
    var m := DecorationWords(r.size);
    if r.offset + 8 + 4 * m > |buf| then Undefined
    else
      var id, kind := Word(buf, r.offset), Word(buf, r.offset + 4);
      if m == 0 || kind !in {DecorationLocation, DecorationBinding, DecorationDescriptorSet} then Done(d)
      else if id !in d then Undefined
      else Done(d[id := SetDecoration(d[id], kind, Word(buf, r.offset + 8 + 4 * (m - 1)))])
  }

  /** The record at index `i`, revisited by pass 2. */
  function Apply(buf: seq<byte>, r: Record, d: map<u32, Entry>): Exec<map<u32, Entry>>
  {
    if r.op == OpName then ApplyName(buf, r, d)
    else if r.op == OpMemberName then ApplyMemberName(buf, r, d)
    else if r.op == OpDecorate then ApplyDecorate(buf, r, d)
    else if r.op == OpMemberDecorate then (if r.offset + 16 <= |buf| then Done(d) else Undefined)
    else if r.op == OpTypePointer then
      (if TokenBytes(r.size) <= POINTER_TOKENS && r.offset + TokenBytes(r.size) <= |buf| then Done(d) else Undefined)
    else if r.op == OpTypeStruct then (if r.offset + 8 <= |buf| then Done(d) else Undefined)
    else if r.op == OpVariable then
      (if r.offset + (if r.size == 4 then 16 else 12) <= |buf| then Done(d) else Undefined)
    else Done(d)
  }

  /** Pass 2 over the records from index `i` on. */
  function Collect(buf: seq<byte>, rs: seq<Record>, i: nat, d: map<u32, Entry>): Exec<map<u32, Entry>>
    requires i <= |rs|
    decreases |rs| - i
  {
    if i == |rs| then Done(d)
    else
      var d1 :- Apply(buf, rs[i], d);
      Collect(buf, rs, i + 1, d1)
  }

  /**
   * `SpirvAnalyzer::analyze`. The header is reached through a pointer, so
   * only the two words it tests are read, the version only after a good
   * magic word.
   */
  function Analyze(buf: seq<byte>): Verdict
  {
    if |buf| < 4 then Fault
    else if Word(buf, 0) != SPIRV_MAGIC then Rejected
    else if |buf| < 8 then Fault
    else if Word(buf, 4) != SPIRV_VERSION then Rejected
    else match Split(buf, HEADER_BYTES, [])
      case Done(rs) =>
        (match Collect(buf, rs, 0, map[])
         case Done(d) => Accepted(rs, d)
         case _ => Fault)
      case _ => Fault
  }
}
