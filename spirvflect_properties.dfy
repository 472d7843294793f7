/**
 * What `Spirvflect::analyze` promises, proved about its specification:
 * header acceptance, append-only output, the shape of the block a struct
 * registers, and the first-wins discipline of the tables.
 */
module SpirvflectProperties {
  import opened Memory
  import opened SpirvflectSpec

  // ---------------------------------------------------------------------
  // Header acceptance
  // ---------------------------------------------------------------------

  /** Once past the header, the pass never answers `false`. */
  lemma {:induction false} RunNeverRejected(buf: seq<byte>, p: nat, t: Tables, out: seq<Option<Ubo>>)
    requires Framed(buf, p, t, out)
    ensures Run(buf, p, t, out) != Rejected
    decreases |buf| - p
  {
    if p + 4 <= |buf| {
      match Execute(buf, p, t, out)
      case Done((t1, out1)) => RunNeverRejected(buf, p + 4 * WordCount(buf, p), t1, out1);
      case Undefined =>
      case Aborted =>
    }
  }

  /**
   * `analyze` answers `false` exactly when the magic word is not 0x07230203
   * or the version word is not 0x00010000 (every other version included).
   */
  lemma HeaderDecides(buf: seq<byte>, prior: seq<Option<Ubo>>)
    requires Terminates(buf) && |buf| >= HEADER_BYTES
    ensures Analyze(buf, prior) == Rejected <==> Word(buf, 0) != SPIRV_MAGIC || Word(buf, 4) != SPIRV_VERSION
  {
    if HeaderOk(buf) {
      FramedIndependent(buf, HEADER_BYTES, EmptyTables, [], prior);
      RunNeverRejected(buf, HEADER_BYTES, EmptyTables, prior);
    }
  }

  // ---------------------------------------------------------------------
  // The output vector is only appended to
  // ---------------------------------------------------------------------

  /** `r` with `prior` put in front of the reported blocks. */
  function Behind(prior: seq<Option<Ubo>>, r: Report): Report
  {
    if r.Accepted? then Accepted(prior + r.uniforms) else r
  }

  /** One turn of the loop, as the equation the proofs below step with. */
  lemma RunStep(buf: seq<byte>, p: nat, t: Tables, out: seq<Option<Ubo>>)
    requires Framed(buf, p, t, out) && p + 4 <= |buf|
    ensures Execute(buf, p, t, out).Done? ==>
      Run(buf, p, t, out)
        == Run(buf, p + 4 * WordCount(buf, p), Execute(buf, p, t, out).value.0, Execute(buf, p, t, out).value.1)
    ensures Execute(buf, p, t, out).Done? ==>
      WordCount(buf, p) >= 1 &&
      Framed(buf, p + 4 * WordCount(buf, p), Execute(buf, p, t, out).value.0, Execute(buf, p, t, out).value.1)
    ensures Execute(buf, p, t, out).IsFailure() ==> Run(buf, p, t, out) == Fault(Execute(buf, p, t, out).Undefined?)
  {
  }

  /** The pass from `p` leaves what the output held before in front of everything it appends. */
  lemma {:induction false} RunAppends(buf: seq<byte>, p: nat, t: Tables, out: seq<Option<Ubo>>)
    requires Framed(buf, p, t, out) && Framed(buf, p, t, [])
    ensures Run(buf, p, t, out) == Behind(out, Run(buf, p, t, []))
    decreases |buf| - p
  {
    if p < |buf| && p + 4 <= |buf| {
      ExecuteAppends(buf, p, t, out);
      RunStep(buf, p, t, out);
      RunStep(buf, p, t, []);
      var e0 := Execute(buf, p, t, []);
      if e0.Done? {
        var t1, out1 := e0.value.0, e0.value.1;
        var next := p + 4 * WordCount(buf, p);
        FramedIndependent(buf, next, t1, out1, []);
        RunAppends(buf, next, t1, out + out1);
        RunAppends(buf, next, t1, out1);
        var tail := Run(buf, next, t1, []);
        if tail.Accepted? {
          assert out + out1 + tail.uniforms == out + (out1 + tail.uniforms);
        }
      }
    }
  }

  /** `analyze` never removes or changes what the caller's vector already held. */
  lemma AnalyzeAppends(buf: seq<byte>, prior: seq<Option<Ubo>>)
    requires Terminates(buf)
    ensures Analyze(buf, prior) == Behind(prior, Analyze(buf, []))
  {
    if |buf| >= HEADER_BYTES && HeaderOk(buf) {
      FramedIndependent(buf, HEADER_BYTES, EmptyTables, [], prior);
      RunAppends(buf, HEADER_BYTES, EmptyTables, prior);
    }
  }

  // ---------------------------------------------------------------------
  // The block registered for a struct
  // ---------------------------------------------------------------------

  /** `get_child` finds the first child carrying the id, and finds none only when no child carries it. */
  lemma {:induction false} FirstChildIsFirst(children: seq<Decorate>, id: u32)
    ensures FirstChild(children, id).Some? ==> forall j :: 0 <= j < FirstChild(children, id).value ==> children[j].id != id
    ensures FirstChild(children, id).None? <==> forall j :: 0 <= j < |children| ==> children[j].id != id
  {
    if |children| > 0 && children[0].id != id {
      FirstChildIsFirst(children[1..], id);
      assert forall j :: 1 <= j < |children| ==> children[j] == children[1..][j - 1];
    }
  }

  /** Every field from `u` on has a member name and an operand inside the buffer. */
  predicate FieldsReadable(buf: seq<byte>, p: nat, children: seq<Decorate>, u: nat, n: nat)
    requires n <= MAX_UNIFORMS
  {
    forall k :: u <= k < n ==> FirstChild(children, k).Some? && p + 12 + 4 * k <= |buf|
  }

  /** Field `k` of the block: the name of member-name child `k`, the kind of operand `1 + k`. */
  function FieldOf(buf: seq<byte>, p: nat, children: seq<Decorate>, t: Tables, k: nat): Uniform
    requires k <= MAX_UNIFORMS && p + 12 + 4 * k <= |buf| && FirstChild(children, k).Some?
  {
    Uniform(children[FirstChild(children, k).value].name, TypeOf(t, Word(buf, p + 8 + 4 * k)).kind)
  }

  /** Looking up types only ever adds default entries. */
  predicate AddsDefaultsOnly(t: Tables, t': Tables)
  {
    t'.decorates == t.decorates && t'.constants == t.constants && t'.ubos == t.ubos &&
    t.types.Keys <= t'.types.Keys &&
    forall id :: id in t'.types ==> t'.types[id] == TypeOf(t, id)
  }

  /** One field: the loop goes on from `u + 1` with the field appended, or stops in undefined behaviour. */
  lemma StructFieldsStep(buf: seq<byte>, p: nat, children: seq<Decorate>, t: Tables,
                         u: nat, n: nat, acc: seq<Uniform>)
    requires u < n <= MAX_UNIFORMS
    ensures !(FirstChild(children, u).Some? && p + 12 + 4 * u <= |buf|) ==>
      StructFields(buf, p, children, t, u, n, acc) == Undefined
    ensures FirstChild(children, u).Some? && p + 12 + 4 * u <= |buf| ==>
      var t1 := LookupType(t, Word(buf, p + 8 + 4 * u)).0;
      AddsDefaultsOnly(t, t1) && (forall id :: TypeOf(t1, id) == TypeOf(t, id)) &&
      StructFields(buf, p, children, t, u, n, acc)
        == StructFields(buf, p, children, t1, u + 1, n, acc + [FieldOf(buf, p, children, t, u)])
  {
  }

  lemma {:induction false} StructFieldsDefined(buf: seq<byte>, p: nat, children: seq<Decorate>, t: Tables,
                                               u: nat, n: nat, acc: seq<Uniform>)
    requires u <= n <= MAX_UNIFORMS
    ensures StructFields(buf, p, children, t, u, n, acc).Done? <==> FieldsReadable(buf, p, children, u, n)
    ensures !StructFields(buf, p, children, t, u, n, acc).Aborted?
    decreases n - u
  {
    if u < n {
      StructFieldsStep(buf, p, children, t, u, n, acc);
      if FirstChild(children, u).Some? && p + 12 + 4 * u <= |buf| {
        var t1 := LookupType(t, Word(buf, p + 8 + 4 * u)).0;
        StructFieldsDefined(buf, p, children, t1, u + 1, n, acc + [FieldOf(buf, p, children, t, u)]);
      }
    }
  }

  /** The struct's field loop only adds default type entries. */
  lemma {:induction false} StructFieldsTables(buf: seq<byte>, p: nat, children: seq<Decorate>, t: Tables,
                                              u: nat, n: nat, acc: seq<Uniform>)
    requires u <= n <= MAX_UNIFORMS
    requires StructFields(buf, p, children, t, u, n, acc).Done?
    ensures AddsDefaultsOnly(t, StructFields(buf, p, children, t, u, n, acc).value.0)
    decreases n - u
  {
    if u < n {
      StructFieldsStep(buf, p, children, t, u, n, acc);
      var t1 := LookupType(t, Word(buf, p + 8 + 4 * u)).0;
      StructFieldsTables(buf, p, children, t1, u + 1, n, acc + [FieldOf(buf, p, children, t, u)]);
    }
  }

  /** Field `k` of the block is the name of member child `k` and the kind of operand `1 + k`. */
  lemma {:induction false} StructFieldsMeaning(buf: seq<byte>, p: nat, children: seq<Decorate>, t: Tables,
                                               u: nat, n: nat, acc: seq<Uniform>)
    requires u <= n <= MAX_UNIFORMS
    requires FieldsReadable(buf, p, children, u, n)
    ensures StructFields(buf, p, children, t, u, n, acc).Done?
    ensures |StructFields(buf, p, children, t, u, n, acc).value.1| == |acc| + n - u
    ensures forall i :: 0 <= i < |acc| ==> StructFields(buf, p, children, t, u, n, acc).value.1[i] == acc[i]
    ensures forall k :: u <= k < n ==>
      StructFields(buf, p, children, t, u, n, acc).value.1[|acc| + k - u] == FieldOf(buf, p, children, t, k)
    decreases n - u
  {
    if u < n {
      StructFieldsStep(buf, p, children, t, u, n, acc);
      var t1 := LookupType(t, Word(buf, p + 8 + 4 * u)).0;
      var acc1 := acc + [FieldOf(buf, p, children, t, u)];
      StructFieldsMeaning(buf, p, children, t1, u + 1, n, acc1);
      var fields := StructFields(buf, p, children, t1, u + 1, n, acc1).value.1;
      assert fields[|acc|] == acc1[|acc|];
      forall k | u < k < n
        ensures fields[|acc| + k - u] == FieldOf(buf, p, children, t, k)
      {
        assert fields[|acc1| + k - (u + 1)] == FieldOf(buf, p, children, t1, k);
      }
    }
  }

  /**
   * `OpTypeStruct` succeeds exactly when the struct is named, has at most 128
   * fields and every field is named and has its operand in the buffer;
   * otherwise the behaviour is undefined.
   */
  lemma StructDefined(buf: seq<byte>, p: nat, id: u32, count: u16, t: Tables)
    ensures !ParseStruct(buf, p, id, count, t).Aborted?
    ensures ParseStruct(buf, p, id, count, t).Done? <==>
      id in t.decorates && FieldCount(count) <= MAX_UNIFORMS &&
      FieldsReadable(buf, p, t.decorates[id].children, 0, FieldCount(count))
  {
    var n := FieldCount(count);
    if id in t.decorates && n <= MAX_UNIFORMS {
      StructFieldsDefined(buf, p, t.decorates[id].children, t, 0, n, []);
    }
  }

  /**
   * A struct with word count `count` classifies as a structure and, unless a
   * block is already registered for its id, registers one named after the
   * struct with `count - 2` fields in operand order.
   */
  lemma StructRegistersBlock(buf: seq<byte>, p: nat, id: u32, count: u16, t: Tables)
    requires id in t.decorates && FieldCount(count) <= MAX_UNIFORMS
    requires FieldsReadable(buf, p, t.decorates[id].children, 0, FieldCount(count))
    ensures ParseStruct(buf, p, id, count, t).Done?
    ensures
      var (t', ti) := ParseStruct(buf, p, id, count, t).value;
      ti == TypeInfo(Structure, 0, 0) && id in t'.ubos &&
      (id in t.ubos ==> t'.ubos[id] == t.ubos[id]) &&
      (id !in t.ubos ==>
        var n := FieldCount(count);
        var block := t'.ubos[id];
        block.name == t.decorates[id].name && block.count == n && |block.uniforms| == n &&
        forall k :: 0 <= k < n ==> block.uniforms[k] == FieldOf(buf, p, t.decorates[id].children, t, k))
  {
    var n := FieldCount(count);
    var decor := t.decorates[id];
    StructFieldsMeaning(buf, p, decor.children, t, 0, n, []);
    StructFieldsTables(buf, p, decor.children, t, 0, n, []);
    var (t1, fields) := StructFields(buf, p, decor.children, t, 0, n, []).value;
    assert ParseStruct(buf, p, id, count, t)
        == Done((t1.(ubos := Emplace(t1.ubos, id, Ubo(decor.name, n, fields))), TypeInfo(Structure, 0, 0)));
  }

  // ---------------------------------------------------------------------
  // Table discipline
  // ---------------------------------------------------------------------

  /** `t'` keeps every entry of `t`: types, constants and blocks unchanged, names unchanged. */
  predicate Keeps(t: Tables, t': Tables)
  {
    (forall id :: id in t.types ==> id in t'.types && t'.types[id] == t.types[id]) &&
    (forall id :: id in t.constants ==> id in t'.constants && t'.constants[id] == t.constants[id]) &&
    (forall id :: id in t.ubos ==> id in t'.ubos && t'.ubos[id] == t.ubos[id]) &&
    (forall id :: id in t.decorates ==> id in t'.decorates && t'.decorates[id].name == t.decorates[id].name)
  }

  lemma ParseStructKeeps(buf: seq<byte>, p: nat, id: u32, count: u16, t: Tables)
    ensures ParseStruct(buf, p, id, count, t).Done? ==> Keeps(t, ParseStruct(buf, p, id, count, t).value.0)
  {
    var n := FieldCount(count);
    StructDefined(buf, p, id, count, t);
    if id in t.decorates && n <= MAX_UNIFORMS && FieldsReadable(buf, p, t.decorates[id].children, 0, n) {
      var decor := t.decorates[id];
      StructFieldsTables(buf, p, decor.children, t, 0, n, []);
      var (t1, fields) := StructFields(buf, p, decor.children, t, 0, n, []).value;
      assert Keeps(t, t1);
      assert Keeps(t, t1.(ubos := Emplace(t1.ubos, id, Ubo(decor.name, n, fields))));
    }
  }

  lemma ParseTypeKeeps(buf: seq<byte>, p: nat, op: u16, count: u16, id: u32, t: Tables)
    ensures ParseType(buf, p, op, count, id, t).Done? ==> Keeps(t, ParseType(buf, p, op, count, id, t).value.0)
  {
    if op == OpTypeStruct {
      ParseStructKeeps(buf, p, id, count, t);
    }
  }

  lemma OnTypeKeeps(buf: seq<byte>, p: nat, t: Tables)
    requires p + 4 <= |buf|
    ensures OnType(buf, p, t).Done? ==> Keeps(t, OnType(buf, p, t).value)
  {
    if p + 8 <= |buf| {
      var id := Word(buf, p + 4);
      var r := ParseType(buf, p, Opcode(buf, p), WordCount(buf, p), id, t);
      ParseTypeKeeps(buf, p, Opcode(buf, p), WordCount(buf, p), id, t);
      if r.Done? {
        var (t1, ti) := r.value;
        assert Keeps(t1, t1.(types := Emplace(t1.types, id, ti)));
      }
    }
  }

  lemma OnConstantKeeps(buf: seq<byte>, p: nat, t: Tables)
    ensures OnConstant(buf, p, t).Done? ==> Keeps(t, OnConstant(buf, p, t).value)
  {
  }

  lemma OnNameKeeps(buf: seq<byte>, p: nat, t: Tables)
    ensures OnName(buf, p, t).Done? ==> Keeps(t, OnName(buf, p, t).value)
  {
  }

  lemma OnMemberNameKeeps(buf: seq<byte>, p: nat, t: Tables)
    ensures OnMemberName(buf, p, t).Done? ==> Keeps(t, OnMemberName(buf, p, t).value)
  {
  }

  lemma OnDecorateKeeps(buf: seq<byte>, p: nat, t: Tables)
    ensures OnDecorate(buf, p, t).Done? ==> Keeps(t, OnDecorate(buf, p, t).value)
  {
  }

  lemma OnMemberDecorateKeeps(buf: seq<byte>, p: nat, t: Tables)
    ensures OnMemberDecorate(buf, p, t).Done? ==> Keeps(t, OnMemberDecorate(buf, p, t).value)
  {
  }

  lemma OnVariableKeeps(buf: seq<byte>, p: nat, t: Tables, out: seq<Option<Ubo>>)
    ensures OnVariable(buf, p, t, out).Done? ==> Keeps(t, OnVariable(buf, p, t, out).value.0)
  {
  }

  /**
   * Every instruction keeps what the tables already hold: the first
   * definition of a type, constant, block or name is the one that stays.
   */
  lemma ExecuteKeeps(buf: seq<byte>, p: nat, t: Tables, out: seq<Option<Ubo>>)
    requires p + 4 <= |buf|
    ensures Execute(buf, p, t, out).Done? ==> Keeps(t, Execute(buf, p, t, out).value.0)
  {
    var op := Opcode(buf, p);
    if IsTypeOpcode(op) {
      OnTypeKeeps(buf, p, t);
    } else if op == OpConstant {
      OnConstantKeeps(buf, p, t);
    } else if op == OpName {
      OnNameKeeps(buf, p, t);
    } else if op == OpMemberName {
      OnMemberNameKeeps(buf, p, t);
    } else if op == OpDecorate {
      OnDecorateKeeps(buf, p, t);
    } else if op == OpMemberDecorate {
      OnMemberDecorateKeeps(buf, p, t);
    } else if op == OpVariable {
      OnVariableKeeps(buf, p, t, out);
    }
  }

  /** Only `OpTypeBool` and `OpTypeRuntimeArray` reach the failed assertion of `parse_type`. */
  lemma AbortsOnlyOnUnhandledTypes(buf: seq<byte>, p: nat, t: Tables, out: seq<Option<Ubo>>)
    requires p + 4 <= |buf|
    ensures Execute(buf, p, t, out).Aborted? ==> Opcode(buf, p) in {OpTypeBool, OpTypeRuntimeArray}
  {
    if Opcode(buf, p) == OpTypeStruct && p + 8 <= |buf| {
      StructDefined(buf, p, Word(buf, p + 4), WordCount(buf, p), t);
    }
  }

  /**
   * An array type is its element's entry with the count set to the
   * constant's value; a pointer type is its pointee's entry with the pointee
   * id recorded. An id nobody defined answers the default entry.
   */
  lemma ArrayAndPointerTypes(buf: seq<byte>, p: nat, count: u16, id: u32, t: Tables)
    requires p + 16 <= |buf|
    ensures
      var cid := Word(buf, p + 12);
      var length := if cid in t.constants then t.constants[cid].value else 0;
      ParseType(buf, p, OpTypeArray, count, id, t).Done? &&
      ParseType(buf, p, OpTypeArray, count, id, t).value.1 == TypeOf(t, Word(buf, p + 8)).(count := length)
    ensures
      ParseType(buf, p, OpTypePointer, count, id, t).Done? &&
      ParseType(buf, p, OpTypePointer, count, id, t).value.1
        == TypeOf(t, Word(buf, p + 12)).(basetypeid := Word(buf, p + 12))
  {
  }

  /**
   * A vector naming a component type that is not yet defined enters the
   * default entry under that id, so a definition of it that comes later is
   * ignored (see ExecuteKeeps) and the id stays unusable.
   */
  lemma UseBeforeDefinitionSticks(buf: seq<byte>, p: nat, t: Tables)
    requires p + 16 <= |buf| && Opcode(buf, p) == OpTypeVector
    requires Word(buf, p + 8) !in t.types && Word(buf, p + 8) != Word(buf, p + 4)
    ensures OnType(buf, p, t).Done?
    ensures Word(buf, p + 8) in OnType(buf, p, t).value.types
    ensures OnType(buf, p, t).value.types[Word(buf, p + 8)] == DefaultType
  {
  }

  /**
   * An instruction that aborts ends the pass, so a zero word count on a
   * header after it is never reached: a good header, `OpTypeBool` of two
   * words, then an empty header, is admitted and aborts.
   */
  lemma AbortBeforeZeroCount()
    ensures var buf: seq<byte> := [0x03, 0x02, 0x23, 0x07, 0x00, 0x00, 0x01, 0x00, 0, 0, 0, 0, 0, 0, 0, 0, 0, 0, 0, 0,
                                   0x14, 0x00, 0x02, 0x00, 0x01, 0x00, 0x00, 0x00, 0x00, 0x00, 0x00, 0x00];
      Terminates(buf) && Analyze(buf, []) == Fault(false)
  {
    var buf: seq<byte> := [0x03, 0x02, 0x23, 0x07, 0x00, 0x00, 0x01, 0x00, 0, 0, 0, 0, 0, 0, 0, 0, 0, 0, 0, 0,
                           0x14, 0x00, 0x02, 0x00, 0x01, 0x00, 0x00, 0x00, 0x00, 0x00, 0x00, 0x00];
    assert Opcode(buf, HEADER_BYTES) == OpTypeBool;
    assert Execute(buf, HEADER_BYTES, EmptyTables, []) == Aborted;
  }
}
