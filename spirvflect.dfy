/**
 * The decoder `Spirvflect::analyze` as the source runs it: a cursor over
 * the byte buffer, four mutable tables, one pass over the instructions.
 * Every method is proved to do what the corresponding function of
 * SpirvflectSpec says.
 */
module Spirvflect {
  import opened Memory
  import opened SpirvflectSpec

  /** `stream_view`: a read-only buffer and a byte cursor that every read advances. */
  class StreamView {
    const data: seq<byte>
    var cur: nat

    constructor (d: seq<byte>)
      ensures data == d && cur == 0
    {
      data := d;
      cur := 0;
    }

    /** `read<uint32_t>`: the word under the cursor, which moves on by four bytes in any case. */
    method Read() returns (r: Exec<u32>)
      modifies this
      ensures r == WordAt(data, old(cur))
      ensures cur == old(cur) + 4
    {
      r := WordAt(data, cur);
      cur := cur + 4;
    }

    /** `read<InstructionHeader>`: opcode and word count, the low and high halves of one word. */
    method ReadInstruction() returns (r: Exec<(u16, u16)>)
      modifies this
      ensures old(cur) + 4 <= |data| ==> r == Done((Opcode(data, old(cur)), WordCount(data, old(cur))))
      ensures old(cur) + 4 > |data| ==> r == Undefined
      ensures cur == old(cur) + 4
    {
      if cur + 4 <= |data| {
        r := Done((Low16(data, cur), High16(data, cur)));
      } else {
        r := Undefined;
      }
      cur := cur + 4;
    }

    method Seek(pos: nat)
      modifies this
      ensures cur == pos
    {
      cur := pos;
    }

    /** `map`: the text under the cursor. */
    function Map(): seq<byte>
      reads this
    {
      CString(data, cur)
    }

    function Tell(): nat
      reads this
    {
      cur
    }

    predicate Eof()
      reads this
    {
      cur >= |data|
    }
  }

  /** `SpvStorage`: the four tables, updated in place. */
  class Storage {
    var decorates: map<u32, Decorate>
    var types: map<u32, TypeInfo>
    var constants: map<u32, Constant>
    var ubos: map<u32, Ubo>

    /** The tables as one value. */
    function State(): Tables
      reads this
    {
      Tables(decorates, types, constants, ubos)
    }

    constructor ()
      ensures State() == EmptyTables
    {
      decorates, types, constants, ubos := map[], map[], map[], map[];
    }

    method AddDecor(id: u32, d: Decorate)
      modifies this
      ensures State() == old(State()).(decorates := Emplace(old(decorates), id, d))
    {
      if id !in decorates {
        decorates := decorates[id := d];
      }
    }

    /** `get_decor`; the record handed out is written back with `PutDecor`. */
    method GetDecor(id: u32) returns (r: Option<Decorate>)
      ensures r == Get(decorates, id)
    {
      if id in decorates {
        r := Some(decorates[id]);
      } else {
        r := None;
      }
    }

    /** A write through the pointer `get_decor` returned for `id`. */
    method PutDecor(id: u32, d: Decorate)
      requires id in decorates
      modifies this
      ensures State() == old(State()).(decorates := old(decorates)[id := d])
    {
      decorates := decorates[id := d];
    }

    method AddType(id: u32, ti: TypeInfo)
      modifies this
      ensures State() == old(State()).(types := Emplace(old(types), id, ti))
    {
      if id !in types {
        types := types[id := ti];
      }
    }

    /** `get_type`, which enters the default entry for an unknown id. */
    method GetType(id: u32) returns (ti: TypeInfo)
      modifies this
      ensures (State(), ti) == LookupType(old(State()), id)
    {
      if id !in types {
        types := types[id := DefaultType];
      }
      ti := types[id];
    }

    method AddConst(id: u32, c: Constant)
      modifies this
      ensures State() == old(State()).(constants := Emplace(old(constants), id, c))
    {
      if id !in constants {
        constants := constants[id := c];
      }
    }

    /** `get_const`, which enters the default entry for an unknown id. */
    method GetConst(id: u32) returns (c: Constant)
      modifies this
      ensures (State(), c) == LookupConst(old(State()), id)
    {
      if id !in constants {
        constants := constants[id := DefaultConstant];
      }
      c := constants[id];
    }

    method AddUbo(id: u32, ubo: Ubo)
      modifies this
      ensures State() == old(State()).(ubos := Emplace(old(ubos), id, ubo))
    {
      if id !in ubos {
        ubos := ubos[id := ubo];
      }
    }

    method GetUbo(id: u32) returns (r: Option<Ubo>)
      ensures r == Get(ubos, id)
    {
      if id in ubos {
        r := Some(ubos[id]);
      } else {
        r := None;
      }
    }
  }

  /**
   * The `OpTypeStruct` case of `parse_type`: the cursor is on operand 1 of the
   * instruction at `p`; fields are filled into the block's fixed array.
   */
  method ParseStructType(stream: StreamView, storage: Storage, ghost p: nat, id: u32, count: u16)
    returns (r: Exec<TypeInfo>)
    requires stream.cur == p + 8
    modifies stream, storage
    ensures r.Paired(storage.State()) == ParseStruct(stream.data, p, id, count, old(storage.State()))
  {
    var n := FieldCount(count);
    var decor := storage.GetDecor(id);
    if decor.None? || n > MAX_UNIFORMS {
      return Undefined;
    }
    ghost var buf, children, t0 := stream.data, decor.value.children, storage.State();
    var fields := new Uniform[MAX_UNIFORMS](_ => Uniform([], Unusable));
    var u := 0;
    while u < n
      invariant u <= n
      invariant stream.cur == p + 8 + 4 * u
      invariant storage.decorates == t0.decorates && storage.ubos == t0.ubos
      invariant StructFields(buf, p, children, storage.State(), u, n, fields[..u])
             == StructFields(buf, p, children, t0, 0, n, [])
    {
      ghost var t := storage.State();
      var child := FirstChild(decor.value.children, u);
      var typeId := stream.Read();
      if typeId.IsFailure() {
        assert StructFields(buf, p, children, t, u, n, fields[..u]) == Undefined;
        return Undefined;
      }
      var ti := storage.GetType(typeId.value);
      if child.None? {
        assert StructFields(buf, p, children, t, u, n, fields[..u]) == Undefined;
        return Undefined;
      }
      var field := Uniform(decor.value.children[child.value].name, ti.kind);
      assert StructFields(buf, p, children, t, u, n, fields[..u])
          == StructFields(buf, p, children, storage.State(), u + 1, n, fields[..u] + [field]);
      fields[u] := field;
      assert fields[..u + 1] == fields[..u] + [field];
      u := u + 1;
    }
    assert StructFields(buf, p, children, t0, 0, n, []) == Done((storage.State(), fields[..n]));
    storage.AddUbo(id, Ubo(decor.value.name, n, fields[..n]));
    r := Done(TypeInfo(Structure, 0, 0));
  }

  /** `parse_type` for the instruction at `p`: the cursor is on operand 1, the result id has been read. */
  method ParseType(stream: StreamView, storage: Storage, ghost p: nat, op: u16, count: u16, id: u32)
    returns (r: Exec<TypeInfo>)
    requires stream.cur == p + 8
    modifies stream, storage
    ensures r.Paired(storage.State()) == SpirvflectSpec.ParseType(stream.data, p, op, count, id, old(storage.State()))
  {
    if op == OpTypeInt {
      var width :- stream.Read();
      r := Done(TypeInfo(IntKind(width), 0, 0));
    } else if op == OpTypeFloat {
      var width :- stream.Read();
      r := Done(TypeInfo(FloatKind(width), 0, 0));
    } else if op == OpTypeVector {
      var baseTypeId :- stream.Read();
      var n :- stream.Read();
      var baseType := storage.GetType(baseTypeId);
      r := Done(TypeInfo(VectorKind(baseType.kind, n), 0, 0));
    } else if op == OpTypeMatrix {
      var baseTypeId :- stream.Read();
      var n :- stream.Read();
      var baseType := storage.GetType(baseTypeId);
      r := Done(TypeInfo(MatrixKind(baseType.kind, n), 0, 0));
    } else if op == OpTypeArray {
      var baseTypeId :- stream.Read();
      var constantId :- stream.Read();
      var elementType := storage.GetType(baseTypeId);
      var length := storage.GetConst(constantId);
      r := Done(elementType.(count := length.value));
    } else if op == OpTypeStruct {
      r := ParseStructType(stream, storage, p, id, count);
    } else if op == OpTypePointer {
      var storageClass :- stream.Read();
      var pointee :- stream.Read();
      var pointeeType := storage.GetType(pointee);
      r := Done(pointeeType.(basetypeid := pointee));
    } else if op in {OpTypeImage, OpTypeSampler, OpTypeSampledImage} {
      ghost var buf := stream.data;
      var n := FieldCount(count);
      var j := 0;
      while j < n
        invariant j <= n
        invariant stream.cur == p + 8 + 4 * j
        invariant j == 0 || p + 8 + 4 * j <= |buf|
        modifies stream
      {
        var operand := stream.Read();
        if operand.IsFailure() {
          return Undefined;
        }
        j := j + 1;
      }
      r := Done(DefaultType);
    } else {
      r := Aborted;
    }
  }

  /** A type instruction: the cursor is past its first word. */
  method TypeInstruction(stream: StreamView, storage: Storage, ghost p: nat, op: u16, count: u16)
    returns (r: Exec<()>)
    requires p + 4 <= |stream.data| && stream.cur == p + 4
    requires op == Opcode(stream.data, p) && count == WordCount(stream.data, p)
    modifies stream, storage
    ensures r.Then(storage.State()) == OnType(stream.data, p, old(storage.State()))
  {
    var id :- stream.Read();
    var ti :- ParseType(stream, storage, p, op, count, id);
    storage.AddType(id, ti);
    r := Done(());
  }

  method ConstantInstruction(stream: StreamView, storage: Storage, ghost p: nat)
    returns (r: Exec<()>)
    requires stream.cur == p + 4
    modifies stream, storage
    ensures r.Then(storage.State()) == OnConstant(stream.data, p, old(storage.State()))
  {
    var typeId :- stream.Read();
    var id :- stream.Read();
    var value :- stream.Read();
    var ty := storage.GetType(typeId);
    storage.AddConst(id, Constant(ty.kind, value));
    r := Done(());
  }

  method NameInstruction(stream: StreamView, storage: Storage, ghost p: nat)
    returns (r: Exec<()>)
    requires stream.cur == p + 4
    modifies stream, storage
    ensures r.Then(storage.State()) == OnName(stream.data, p, old(storage.State()))
  {
    var id :- stream.Read();
    var name := stream.Map();
    storage.AddDecor(id, Decorate(id, name, [], map[]));
    r := Done(());
  }

  method MemberNameInstruction(stream: StreamView, storage: Storage, ghost p: nat)
    returns (r: Exec<()>)
    requires stream.cur == p + 4
    modifies stream, storage
    ensures r.Then(storage.State()) == OnMemberName(stream.data, p, old(storage.State()))
  {
    var parentId :- stream.Read();
    var memberId :- stream.Read();
    var name := stream.Map();
    var decor := storage.GetDecor(parentId);
    if decor.Some? {
      var d := decor.value;
      storage.PutDecor(parentId, d.(children := d.children + [Decorate(memberId, name, [], map[])]));
    }
    r := Done(());
  }

  method DecorateInstruction(stream: StreamView, storage: Storage, ghost p: nat)
    returns (r: Exec<()>)
    requires stream.cur == p + 4
    modifies stream, storage
    ensures r.Then(storage.State()) == OnDecorate(stream.data, p, old(storage.State()))
  {
    var id :- stream.Read();
    var kind :- stream.Read();
    var decor := storage.GetDecor(id);
    if decor.Some? {
      var value :- stream.Read();
      var d := decor.value;
      storage.PutDecor(id, d.(decors := d.decors[kind := value]));
    }
    r := Done(());
  }

  method MemberDecorateInstruction(stream: StreamView, storage: Storage, ghost p: nat)
    returns (r: Exec<()>)
    requires stream.cur == p + 4
    modifies stream, storage
    ensures r.Then(storage.State()) == OnMemberDecorate(stream.data, p, old(storage.State()))
  {
    var parentId :- stream.Read();
    var memberId :- stream.Read();
    var kind :- stream.Read();
    var value :- stream.Read();
    var parent := storage.GetDecor(parentId);
    if parent.None? {
      return Undefined;
    }
    var member := FirstChild(parent.value.children, memberId);
    if member.None? {
      return Undefined;
    }
    storage.PutDecor(parentId, SetMemberDecor(parent.value, member.value, kind, value));
    r := Done(());
  }

  method VariableInstruction(stream: StreamView, storage: Storage, ghost p: nat, uniforms: seq<Option<Ubo>>)
    returns (r: Exec<seq<Option<Ubo>>>)
    requires stream.cur == p + 4
    modifies stream, storage
    ensures r.Paired(storage.State()) == OnVariable(stream.data, p, old(storage.State()), uniforms)
  {
    var varType :- stream.Read();
    var decorId :- stream.Read();
    var storageClass :- stream.Read();
    var decor := storage.GetDecor(decorId);
    var ty := storage.GetType(varType);
    if storageClass == StorageUniform {
      if ty.kind == Structure {
        var ubo := storage.GetUbo(ty.basetypeid);
        return Done(uniforms + [ubo]);
      }
    } else if storageClass == StorageInput {
      if decor.None? {
        return Undefined;
      }
    }
    r := Done(uniforms);
  }

  /** The `switch` on the opcode: the cursor is past the first word of the instruction at `p`. */
  method Execute(stream: StreamView, storage: Storage, ghost p: nat, op: u16, count: u16,
                 uniforms: seq<Option<Ubo>>)
    returns (r: Exec<seq<Option<Ubo>>>)
    requires p + 4 <= |stream.data| && stream.cur == p + 4
    requires op == Opcode(stream.data, p) && count == WordCount(stream.data, p)
    modifies stream, storage
    ensures r.Paired(storage.State()) == SpirvflectSpec.Execute(stream.data, p, old(storage.State()), uniforms)
  {
    var e: Exec<()> := Done(());
    if IsTypeOpcode(op) {
      e := TypeInstruction(stream, storage, p, op, count);
    } else if op == OpConstant {
      e := ConstantInstruction(stream, storage, p);
    } else if op == OpName {
      e := NameInstruction(stream, storage, p);
    } else if op == OpMemberName {
      e := MemberNameInstruction(stream, storage, p);
    } else if op == OpDecorate {
      e := DecorateInstruction(stream, storage, p);
    } else if op == OpMemberDecorate {
      e := MemberDecorateInstruction(stream, storage, p);
    } else if op == OpVariable {
      r := VariableInstruction(stream, storage, p, uniforms);
      return;
    }
    r := e.Then(uniforms);
  }

  /**
   * `Spirvflect::analyze`: checks the header, then decodes instruction after
   * instruction, seeking past each by its word count, and appends to
   * `uniforms` the block of every uniform variable of struct type.
   */
  method Analyze(data: seq<byte>, uniforms: seq<Option<Ubo>>) returns (r: Report)
    requires Terminates(data)
    ensures r == SpirvflectSpec.Analyze(data, uniforms)
  {
    var stream := new StreamView(data);
    var magic := stream.Read();
    var version := stream.Read();
    var generator := stream.Read();
    var bound := stream.Read();
    var reserved := stream.Read();
    if reserved.IsFailure() {
      return Fault(true);
    }
    if magic.value != SPIRV_MAGIC || version.value != SPIRV_VERSION {
      return Rejected;
    }
    var storage := new Storage();
    var out := uniforms;
    FramedIndependent(data, HEADER_BYTES, EmptyTables, [], uniforms);
    while !stream.Eof()
      invariant Framed(data, stream.cur, storage.State(), out)
      invariant Run(data, stream.cur, storage.State(), out) == SpirvflectSpec.Analyze(data, uniforms)
      decreases |data| - stream.cur
    {
      ghost var p := stream.cur;
      var header := stream.ReadInstruction();
      if header.IsFailure() {
        return Fault(true);
      }
      var (op, count) := header.value;
      var next: nat := stream.Tell() + 4 * (count as int - 1);
      var e := Execute(stream, storage, p, op, count, out);
      if e.IsFailure() {
        return Fault(e.Undefined?);
      }
      out := e.value;
      stream.Seek(next);
    }
    r := Accepted(out);
  }
}
