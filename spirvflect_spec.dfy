/**
 * Functional specification of the SPIR-V reflection decoder `Spirvflect`:
 * the data it collects and, instruction by instruction, what one pass over
 * the word stream does to its four tables and to the list of uniform
 * blocks it reports. The imperative decoder in module Spirvflect is proved
 * to compute exactly `Analyze` below; the lemmas at the end state what the
 * decoder promises.
 */
module SpirvflectSpec {
  import opened Memory

  const SPIRV_MAGIC: u32 := 0x0723_0203
  const SPIRV_VERSION: u32 := 0x0001_0000
  /** magic, version, generator, bound, reserved */
  const HEADER_BYTES: nat := 20

  // Opcodes handled by the decoder (section 3.32 of the SPIR-V specification).
  const OpName: u16 := 5
  const OpMemberName: u16 := 6
  const OpTypeBool: u16 := 20
  const OpTypeInt: u16 := 21
  const OpTypeFloat: u16 := 22
  const OpTypeVector: u16 := 23
  const OpTypeMatrix: u16 := 24
  const OpTypeImage: u16 := 25
  const OpTypeSampler: u16 := 26
  const OpTypeSampledImage: u16 := 27
  const OpTypeArray: u16 := 28
  const OpTypeRuntimeArray: u16 := 29
  const OpTypeStruct: u16 := 30
  const OpTypePointer: u16 := 32
  const OpConstant: u16 := 43
  const OpVariable: u16 := 59
  const OpDecorate: u16 := 71
  const OpMemberDecorate: u16 := 72

  // Storage classes and decorations the decoder tests (sections 3.7 and 3.20 of the SPIR-V specification).
  const StorageInput: u32 := 1
  const StorageUniform: u32 := 2
  const DecorationLocation: u32 := 30

  /** The opcodes whose result id is entered into the type table. */
  predicate IsTypeOpcode(op: u16)
  {
    op in {OpTypeBool, OpTypeInt, OpTypeFloat, OpTypeVector, OpTypeMatrix, OpTypeImage,
           OpTypeSampler, OpTypeSampledImage, OpTypeArray, OpTypeRuntimeArray, OpTypeStruct,
           OpTypePointer}
  }

  /** `Spirvflect::UniformType` has `uint16_t` as underlying type: any 16-bit value can be stored. */
  type UniformType = u16

  const Unusable: UniformType := 0
  const Int8: UniformType := 1
  const Int16: UniformType := 2
  const Int32: UniformType := 3
  const Int64: UniformType := 4
  const Float16: UniformType := 5
  const Float32: UniformType := 6
  const Float64: UniformType := 7
  const Vec2i: UniformType := 8
  const Vec3i: UniformType := 9
  const Vec4i: UniformType := 10
  const Vec2f: UniformType := 11
  const Vec3f: UniformType := 12
  const Vec4f: UniformType := 13
  const Mat3: UniformType := 14
  const Mat4: UniformType := 15
  const Structure: UniformType := 16

  /** Capacity of `UniformBufferObject::uniforms`. */
  const MAX_UNIFORMS: nat := 128

  /** `SpvTypeInfo`: classification, element count (arrays), pointee id (pointers). */
  datatype TypeInfo = TypeInfo(kind: UniformType, count: u32, basetypeid: u32)

  /** The value `std::map::operator[]` inserts for an id never defined. */
  const DefaultType := TypeInfo(Unusable, 0, 0)

  /** `SpvConstant`: the type of the constant and its first word. */
  datatype Constant = Constant(kind: UniformType, value: u32)

  const DefaultConstant := Constant(Unusable, 0)

  /** `SpvDecorate`: an id, its name, its members (as children) and its decorations. */
  datatype Decorate = Decorate(id: u32, name: seq<byte>, children: seq<Decorate>, decors: map<u32, u32>)

  /** One field of a uniform block (`Uniform`; its `offset` is never written). */
  datatype Uniform = Uniform(name: seq<byte>, kind: UniformType)

  /** `UniformBufferObject` as assembled for a struct type: `count` fields, in operand order. */
  datatype Ubo = Ubo(name: seq<byte>, count: nat, uniforms: seq<Uniform>)

  /** `SpvStorage`: the four id-keyed tables. */
  datatype Tables = Tables(
    decorates: map<u32, Decorate>,
    types: map<u32, TypeInfo>,
    constants: map<u32, Constant>,
    ubos: map<u32, Ubo>)

  const EmptyTables := Tables(map[], map[], map[], map[])

  /**
   * What `analyze` produces: false on a bad header, otherwise true with the
   * blocks pushed onto `uniforms` (a null pointer is pushed when no block is
   * registered for the pointee), or undefined behaviour, or a failed assert.
   */
  datatype Report = Rejected | Accepted(uniforms: seq<Option<Ubo>>) | Fault(undefined: bool)

  // ---------------------------------------------------------------------
  // Table primitives
  // ---------------------------------------------------------------------

  /** `std::map::emplace`: an existing entry is kept. */
  function Emplace<V>(m: map<u32, V>, k: u32, v: V): map<u32, V>
  {
    if k in m then m else m[k := v]
  }

  /** The entry `get_type` answers for `id`. */
  function TypeOf(t: Tables, id: u32): TypeInfo
  {
    if id in t.types then t.types[id] else DefaultType
  }

  /** `get_type`: `operator[]`, which inserts the default entry for an unknown id. */
  function LookupType(t: Tables, id: u32): (Tables, TypeInfo)
  {
    if id in t.types then (t, t.types[id]) else (t.(types := t.types[id := DefaultType]), DefaultType)
  }

  /** `get_const`: `operator[]` on the constant table. */
  function LookupConst(t: Tables, id: u32): (Tables, Constant)
  {
    if id in t.constants then (t, t.constants[id]) else (t.(constants := t.constants[id := DefaultConstant]), DefaultConstant)
  }

  /** `SpvDecorate::get_child`: index of the first child whose id is `id`. */
  function FirstChild(children: seq<Decorate>, id: u32): (r: Option<nat>)
    ensures r.Some? ==> r.value < |children| && children[r.value].id == id
  {
    if |children| == 0 then None
    else if children[0].id == id then Some(0)
    else match FirstChild(children[1..], id)
      case None => None
      case Some(j) => Some(j + 1)
  }

  // ---------------------------------------------------------------------
  // Instruction words
  // ---------------------------------------------------------------------

  /** Low half of the instruction's first word. */
  function Opcode(buf: seq<byte>, p: nat): u16
    requires p + 4 <= |buf|
  {
    Low16(buf, p)
  }

  /** High half of the instruction's first word: its length in words, header included. */
  function WordCount(buf: seq<byte>, p: nat): u16
    requires p + 4 <= |buf|
  {
    High16(buf, p)
  }

  /** Operand `k` of the instruction at `p`, read with no regard for the word count. */
  function Operand(buf: seq<byte>, p: nat, k: nat): Exec<u32>
  {
    WordAt(buf, p + 4 + 4 * k)
  }

  /** `size_t filedcount = instruction.count - 2`, which wraps for a one-word instruction. */
  function FieldCount(count: u16): nat
  {
    if count >= 2 then count - 2 else 0x1_0000_0000_0000_0000 + count - 2
  }

  // ---------------------------------------------------------------------
  // Type classification (`parse_type`)
  // ---------------------------------------------------------------------

  /** `int8 + (width / 8) / 2`, computed in 32 bits and stored in 16. */
  function IntKind(width: u32): (k: UniformType)
    ensures width == 8 ==> k == Int8
    ensures width == 16 ==> k == Int16
    ensures width == 32 ==> k == Int32
    ensures width == 64 ==> k == Float16
  {
    Trunc16(Int8 + (width / 8) / 2)
  }

  /** `float16 + (width / 8) / 2 - 1`, computed in 32 bits and stored in 16. */
  function FloatKind(width: u32): (k: UniformType)
    ensures width == 16 ==> k == Float16
    ensures width == 32 ==> k == Float32
    ensures width == 64 ==> k == Vec2i
  {
    Trunc16(Float16 + (width / 8) / 2 - 1)
  }

  /** Vector of `n` components over a scalar of kind `base`. */
  function VectorKind(base: UniformType, n: u32): (k: UniformType)
    ensures Int8 <= base <= Int64 && 2 <= n <= 3 ==> k == Vec3i
    ensures Int8 <= base <= Int64 && n == 4 ==> k == Vec4i
    ensures Float16 <= base <= Float32 && 2 <= n <= 3 ==> k == Vec3f
    ensures Float16 <= base <= Float32 && n == 4 ==> k == Vec4f
    ensures !(Int8 <= base <= Float32) ==> k == Unusable
  {
    if Int8 <= base <= Int64 then Trunc16(Vec2i + n / 2)
    else if Float16 <= base <= Float32 then Trunc16(Vec2f + n / 2)
    else Unusable
  }

  /** Matrix of `n` columns whose column type has kind `column`. */
  function MatrixKind(column: UniformType, n: u32): (k: UniformType)
    ensures Vec3f <= column <= Vec4f && 2 <= n <= 3 ==> k == Mat3
    ensures Vec3f <= column <= Vec4f && n == 4 ==> k == Mat4
    ensures Vec3f <= column <= Vec4f && n <= 1 ==> k == Vec4f
    ensures !(Vec3f <= column <= Vec4f) ==> k == Unusable
  {
    if Vec3f <= column <= Vec4f then Trunc16(Mat3 + n / 2 - 1) else Unusable
  }

  /** The `printf` loop over operands 1..n: defined only when all of them lie in the buffer. */
  function SkipOperands(buf: seq<byte>, p: nat, n: nat): Exec<()>
  {
    if n == 0 || p + 8 + 4 * n <= |buf| then Done(()) else Undefined
  }

  /**
   * The loop of `OpTypeStruct` from field `u` on: field `u` takes the name of
   * member-name child `u` of the struct and the kind of operand `1 + u`; a
   * missing child or an operand past the end of the buffer is undefined.
   */
  function StructFields(buf: seq<byte>, p: nat, children: seq<Decorate>, t: Tables, u: nat, n: nat,
                        acc: seq<Uniform>): Exec<(Tables, seq<Uniform>)>
    requires u <= n <= MAX_UNIFORMS
    decreases n - u
  {
    if u == n then Done((t, acc))
    else if FirstChild(children, u).None? || p + 12 + 4 * u > |buf| then Undefined
    else
      var tid := Word(buf, p + 8 + 4 * u);
      var field := Uniform(children[FirstChild(children, u).value].name, TypeOf(t, tid).kind);
      StructFields(buf, p, children, LookupType(t, tid).0, u + 1, n, acc + [field])
  }

  /** `OpTypeStruct`: registers a block for the struct id (first one wins). */
  function ParseStruct(buf: seq<byte>, p: nat, id: u32, count: u16, t: Tables): Exec<(Tables, TypeInfo)>
  {
    var n := FieldCount(count);
    if id !in t.decorates || n > MAX_UNIFORMS then Undefined
    else
      var decor := t.decorates[id];
      var (t1, fields) :- StructFields(buf, p, decor.children, t, 0, n, []);
      Done((t1.(ubos := Emplace(t1.ubos, id, Ubo(decor.name, n, fields))), TypeInfo(Structure, 0, 0)))
  }

  /** `parse_type` for the instruction at `p`, whose result id `id` has been read. */
  function ParseType(buf: seq<byte>, p: nat, op: u16, count: u16, id: u32, t: Tables): Exec<(Tables, TypeInfo)>
  {
    if op == OpTypeInt then
      var w :- Operand(buf, p, 1);
      Done((t, TypeInfo(IntKind(w), 0, 0)))
    else if op == OpTypeFloat then
      var w :- Operand(buf, p, 1);
      Done((t, TypeInfo(FloatKind(w), 0, 0)))
    else if op == OpTypeVector then
      var base :- Operand(buf, p, 1);
      var n :- Operand(buf, p, 2);
      var (t1, bt) := LookupType(t, base);
      Done((t1, TypeInfo(VectorKind(bt.kind, n), 0, 0)))
    else if op == OpTypeMatrix then
      var base :- Operand(buf, p, 1);
      var n :- Operand(buf, p, 2);
      var (t1, bt) := LookupType(t, base);
      Done((t1, TypeInfo(MatrixKind(bt.kind, n), 0, 0)))
    else if op == OpTypeArray then
      var base :- Operand(buf, p, 1);
      var cid :- Operand(buf, p, 2);
      var (t1, et) := LookupType(t, base);
      var (t2, c) := LookupConst(t1, cid);
      Done((t2, et.(count := c.value)))
    else if op == OpTypeStruct then
      ParseStruct(buf, p, id, count, t)
    else if op == OpTypePointer then
      var storageClass :- Operand(buf, p, 1);
      var pointee :- Operand(buf, p, 2);
      var (t1, pt) := LookupType(t, pointee);
      Done((t1, pt.(basetypeid := pointee)))
    else if op in {OpTypeImage, OpTypeSampler, OpTypeSampledImage} then
      var _ :- SkipOperands(buf, p, FieldCount(count));
      Done((t, DefaultType))
    else
      Aborted
  }

  // ---------------------------------------------------------------------
  // One instruction, and the whole pass
  // ---------------------------------------------------------------------

  /** A type opcode: parse the type and enter it under its result id (first definition wins). */
  function OnType(buf: seq<byte>, p: nat, t: Tables): Exec<Tables>
    requires p + 4 <= |buf|
  {
    var id :- Operand(buf, p, 0);
    var (t1, ti) :- ParseType(buf, p, Opcode(buf, p), WordCount(buf, p), id, t);
    Done(t1.(types := Emplace(t1.types, id, ti)))
  }

  /** `OpConstant`: the constant takes the kind of its (looked-up) type and its first value word. */
  function OnConstant(buf: seq<byte>, p: nat, t: Tables): (r: Exec<Tables>)
    ensures r.Done? <==> p + 16 <= |buf|
    ensures r.Done? ==>
      var id := Word(buf, p + 8);
      id in r.value.constants &&
      r.value.constants[id] == (if id in t.constants then t.constants[id]
                                else Constant(TypeOf(t, Word(buf, p + 4)).kind, Word(buf, p + 12)))
  {
    var ty :- Operand(buf, p, 0);
    var id :- Operand(buf, p, 1);
    var value :- Operand(buf, p, 2);
    var (t1, tt) := LookupType(t, ty);
    Done(t1.(constants := Emplace(t1.constants, id, Constant(tt.kind, value))))
  }

  /** `OpName`: an id gets a decoration record named by the text after it (first name wins). */
  function OnName(buf: seq<byte>, p: nat, t: Tables): (r: Exec<Tables>)
    ensures r.Done? <==> p + 8 <= |buf|
    ensures r.Done? && Word(buf, p + 4) in t.decorates ==> r.value == t
    ensures r.Done? && Word(buf, p + 4) !in t.decorates ==>
      r.value.types == t.types && r.value.constants == t.constants && r.value.ubos == t.ubos &&
      r.value.decorates.Keys == t.decorates.Keys + {Word(buf, p + 4)} &&
      r.value.decorates[Word(buf, p + 4)].name == CString(buf, p + 8) &&
      (forall id :: id in t.decorates ==> r.value.decorates[id] == t.decorates[id])
  {
    var id :- Operand(buf, p, 0);
    Done(t.(decorates := Emplace(t.decorates, id, Decorate(id, CString(buf, p + 8), [], map[]))))
  }

  /** `OpMemberName`: a named parent gets one more child; for an unnamed parent nothing happens. */
  function OnMemberName(buf: seq<byte>, p: nat, t: Tables): (r: Exec<Tables>)
    ensures r.Done? <==> p + 12 <= |buf|
    ensures r.Done? && Word(buf, p + 4) !in t.decorates ==> r.value == t
    ensures r.Done? && Word(buf, p + 4) in t.decorates ==>
      var parent := Word(buf, p + 4);
      r.value.decorates.Keys == t.decorates.Keys &&
      r.value.decorates[parent].name == t.decorates[parent].name &&
      r.value.decorates[parent].children
        == t.decorates[parent].children + [Decorate(Word(buf, p + 8), CString(buf, p + 12), [], map[])]
  {
    var parent :- Operand(buf, p, 0);
    var member :- Operand(buf, p, 1);
    if parent in t.decorates then
      var d := t.decorates[parent];
      var child := Decorate(member, CString(buf, p + 12), [], map[]);
      Done(t.(decorates := t.decorates[parent := d.(children := d.children + [child])]))
    else Done(t)
  }

  /** `OpDecorate`: on a named id the decoration's value is read and stored (last one wins). */
  function OnDecorate(buf: seq<byte>, p: nat, t: Tables): (r: Exec<Tables>)
    ensures !r.Aborted?
    ensures r.Done? ==> p + 12 <= |buf|
    ensures p + 12 <= |buf| && Word(buf, p + 4) !in t.decorates ==> r == Done(t)
    ensures r.Done? && Word(buf, p + 4) in t.decorates ==>
      var id, kind := Word(buf, p + 4), Word(buf, p + 8);
      p + 16 <= |buf| && r.value.decorates.Keys == t.decorates.Keys &&
      r.value.decorates[id].name == t.decorates[id].name &&
      r.value.decorates[id].children == t.decorates[id].children &&
      kind in r.value.decorates[id].decors && r.value.decorates[id].decors[kind] == Word(buf, p + 12) &&
      (forall k :: k in t.decorates[id].decors && k != kind ==>
        k in r.value.decorates[id].decors && r.value.decorates[id].decors[k] == t.decorates[id].decors[k])
  {
    var id :- Operand(buf, p, 0);
    var kind :- Operand(buf, p, 1);
    if id in t.decorates then
      var value :- Operand(buf, p, 2);
      var d := t.decorates[id];
      Done(t.(decorates := t.decorates[id := d.(decors := d.decors[kind := value])]))
    else Done(t)
  }

  /** Child `i` of `d` with decoration `kind` set to `value`. */
  function SetMemberDecor(d: Decorate, i: nat, kind: u32, value: u32): Decorate
    requires i < |d.children|
  {
    d.(children := d.children[i := d.children[i].(decors := d.children[i].decors[kind := value])])
  }

  /** `OpMemberDecorate`: both the parent and the member must have been named. */
  function OnMemberDecorate(buf: seq<byte>, p: nat, t: Tables): (r: Exec<Tables>)
    ensures r.Done? <==>
      p + 20 <= |buf| && Word(buf, p + 4) in t.decorates &&
      FirstChild(t.decorates[Word(buf, p + 4)].children, Word(buf, p + 8)).Some?
    ensures !r.Aborted?
    ensures r.Done? ==>
      var parent, i := Word(buf, p + 4), FirstChild(t.decorates[Word(buf, p + 4)].children, Word(buf, p + 8)).value;
      parent in r.value.decorates &&
      var kids := r.value.decorates[parent].children;
      |kids| == |t.decorates[parent].children| &&
      Word(buf, p + 12) in kids[i].decors && kids[i].decors[Word(buf, p + 12)] == Word(buf, p + 16)
  {
    var parent :- Operand(buf, p, 0);
    var member :- Operand(buf, p, 1);
    var kind :- Operand(buf, p, 2);
    var value :- Operand(buf, p, 3);
    if parent !in t.decorates then Undefined
    else
      var d := t.decorates[parent];
      var i := FirstChild(d.children, member);
      if i.None? then Undefined
      else Done(t.(decorates := t.decorates[parent := SetMemberDecor(d, i.value, kind, value)]))
  }

  /**
   * `OpVariable`: a uniform variable of struct type reports the block of its
   * pointee (None when no block is registered under that id); an input
   * variable must have been named.
   */
  function OnVariable(buf: seq<byte>, p: nat, t: Tables, out: seq<Option<Ubo>>): (r: Exec<(Tables, seq<Option<Ubo>>)>)
    ensures !r.Aborted?
    ensures r.Undefined? <==> p + 16 > |buf| || (Word(buf, p + 12) == StorageInput && Word(buf, p + 8) !in t.decorates)
    ensures r.Done? ==>
      var ty := TypeOf(t, Word(buf, p + 4));
      r.value.1 == if Word(buf, p + 12) == StorageUniform && ty.kind == Structure
                   then out + [Get(t.ubos, ty.basetypeid)] else out
  {
    var vartype :- Operand(buf, p, 0);
    var decorid :- Operand(buf, p, 1);
    var storageClass :- Operand(buf, p, 2);
    var (t1, ty) := LookupType(t, vartype);
    if storageClass == StorageUniform then
      if ty.kind == Structure then Done((t1, out + [Get(t1.ubos, ty.basetypeid)])) else Done((t1, out))
    else if storageClass == StorageInput then
      if decorid !in t1.decorates then Undefined else Done((t1, out))
    else Done((t1, out))
  }

  /** The outcome of an instruction that leaves the output as it is. */
  function WithOutput(e: Exec<Tables>, out: seq<Option<Ubo>>): Exec<(Tables, seq<Option<Ubo>>)>
  {
    match e
    case Done(t) => Done((t, out))
    case Undefined => Undefined
    case Aborted => Aborted
  }

  /** The effect of the instruction at `p` (its first word in bounds) on the tables and the output. */
  function Execute(buf: seq<byte>, p: nat, t: Tables, out: seq<Option<Ubo>>): (r: Exec<(Tables, seq<Option<Ubo>>)>)
    requires p + 4 <= |buf|
    ensures r.Done? && Opcode(buf, p) != OpVariable ==> r.value.1 == out
  {
    var op := Opcode(buf, p);
    if IsTypeOpcode(op) then WithOutput(OnType(buf, p, t), out)
    else if op == OpConstant then WithOutput(OnConstant(buf, p, t), out)
    else if op == OpName then WithOutput(OnName(buf, p, t), out)
    else if op == OpMemberName then WithOutput(OnMemberName(buf, p, t), out)
    else if op == OpDecorate then WithOutput(OnDecorate(buf, p, t), out)
    else if op == OpMemberDecorate then WithOutput(OnMemberDecorate(buf, p, t), out)
    else if op == OpVariable then OnVariable(buf, p, t, out)
    else Done((t, out))
  }

  /** One instruction appends to the output the same blocks whatever the output held before. */
  lemma ExecuteAppends(buf: seq<byte>, p: nat, t: Tables, out: seq<Option<Ubo>>)
    requires p + 4 <= |buf|
    ensures Execute(buf, p, t, out).Done? == Execute(buf, p, t, []).Done?
    ensures Execute(buf, p, t, out).Undefined? == Execute(buf, p, t, []).Undefined?
    ensures Execute(buf, p, t, out).Done? ==>
      Execute(buf, p, t, out).value == (Execute(buf, p, t, []).value.0, out + Execute(buf, p, t, []).value.1)
  {
    assert out + [] == out;
    if Opcode(buf, p) == OpVariable {
      var r, r0 := OnVariable(buf, p, t, out), OnVariable(buf, p, t, []);
      if r.Done? {
        assert r.value.0 == r0.value.0;
        assert r.value.1 == out + r0.value.1 by {
          if r0.value.1 != [] {
            assert r0.value.1 == [] + r0.value.1[..1];
          }
        }
      }
    }
  }

  /**
   * The source's loop ends unless an instruction it completes declares no
   * words: a zero word count then seeks back to the same header forever.
   * An instruction that faults or aborts ends the pass there, whatever its
   * word count, and so does a header cut off by the end of the buffer.
   */
  predicate Framed(buf: seq<byte>, p: nat, t: Tables, out: seq<Option<Ubo>>)
    decreases |buf| - p
  {
    p + 4 > |buf| ||
    match Execute(buf, p, t, out)
    case Done((t1, out1)) => WordCount(buf, p) >= 1 && Framed(buf, p + 4 * WordCount(buf, p), t1, out1)
    case _ => true
  }

  /** Whether the loop ends does not depend on what the output held before. */
  lemma {:induction false} FramedIndependent(buf: seq<byte>, p: nat, t: Tables, out: seq<Option<Ubo>>, out': seq<Option<Ubo>>)
    ensures Framed(buf, p, t, out) <==> Framed(buf, p, t, out')
    decreases |buf| - p
  {
    if p + 4 <= |buf| {
      ExecuteAppends(buf, p, t, out);
      ExecuteAppends(buf, p, t, out');
      var e0 := Execute(buf, p, t, []);
      if e0.Done? && WordCount(buf, p) >= 1 {
        FramedIndependent(buf, p + 4 * WordCount(buf, p), e0.value.0, out + e0.value.1, out' + e0.value.1);
      }
    }
  }

  /** The `while (!stream.eof())` loop from byte offset `p` on. */
  function Run(buf: seq<byte>, p: nat, t: Tables, out: seq<Option<Ubo>>): Report
    requires Framed(buf, p, t, out)
    decreases |buf| - p
  {
    if p >= |buf| then Accepted(out)
    else if p + 4 > |buf| then Fault(true)
    else match Execute(buf, p, t, out)
      case Done((t1, out1)) => Run(buf, p + 4 * WordCount(buf, p), t1, out1)
      case Undefined => Fault(true)
      case Aborted => Fault(false)
  }

  predicate HeaderOk(buf: seq<byte>)
    requires |buf| >= HEADER_BYTES
  {
    Word(buf, 0) == SPIRV_MAGIC && Word(buf, 4) == SPIRV_VERSION
  }

  /** What the caller of `analyze` must guarantee: after a good header, the loop ends. */
  predicate Terminates(buf: seq<byte>)
  {
    |buf| >= HEADER_BYTES && HeaderOk(buf) ==> Framed(buf, HEADER_BYTES, EmptyTables, [])
  }

  /**
   * `Spirvflect::analyze` on the buffer `buf`, appending to a vector that
   * holds `prior` on entry.
   */
  function Analyze(buf: seq<byte>, prior: seq<Option<Ubo>>): Report
    requires Terminates(buf)
  {
    if |buf| < HEADER_BYTES then Fault(true)
    else if !HeaderOk(buf) then Rejected
    else
      FramedIndependent(buf, HEADER_BYTES, EmptyTables, [], prior);
      Run(buf, HEADER_BYTES, EmptyTables, prior)
  }
}
