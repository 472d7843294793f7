/**
 * What `SpirvAnalyzer::analyze` guarantees: the header test, the layout of
 * the records pass 1 produces, and the discipline pass 2 keeps on the map
 * of named ids (a name once given stays, member lists only grow, a
 * decoration field keeps UINT32_MAX until a decoration sets it, and the
 * last literal of the last decoration wins).
 */
module SpirvAnalyzerProperties {
  import opened Memory
  import opened SpirvAnalyzerSpec

  // ---------------------------------------------------------------------
  // Header
  // ---------------------------------------------------------------------

  /** `analyze` answers false exactly when the magic word, or after it the version word, is wrong. */
  lemma HeaderDecides(buf: seq<byte>)
    ensures Analyze(buf).Rejected? <==>
      (|buf| >= 4 && Word(buf, 0) != SPIRV_MAGIC) ||
      (|buf| >= 8 && Word(buf, 0) == SPIRV_MAGIC && Word(buf, 4) != SPIRV_VERSION)
    ensures Analyze(buf).Fault? && |buf| >= 8 ==> Word(buf, 0) == SPIRV_MAGIC && Word(buf, 4) == SPIRV_VERSION
  {
  }

  // ---------------------------------------------------------------------
  // Pass 1
  // ---------------------------------------------------------------------

  /** The words pass 1 stepped over after a record's header, read back from its `size`. */
  function Advance(size: u32): nat
  {
    if size == U32_MAX then 0 else size
  }

  /** A `size` pass 1 can store: `count - 1` for a 16-bit word count. */
  predicate FromCount(size: u32)
  {
    size < 0xFFFF || size == U32_MAX
  }

  lemma AdvanceIsSkipped(buf: seq<byte>, p: nat)
    requires p + 4 <= |buf|
    ensures Advance(RecordAt(buf, p).size) == Skipped(High16(buf, p))
    ensures FromCount(RecordAt(buf, p).size)
  {
  }

  /**
   * For a buffer under 4 GiB, the records pass 1 adds after `acc` start at
   * `p + 4`, each next one starts one header past the words its
   * predecessor skipped, every record lies inside the buffer, and the
   * last one reaches its end.
   */
  lemma {:induction false} SplitLayout(buf: seq<byte>, p: nat, acc: seq<Record>, rs: seq<Record>)
    requires |buf| <= 0x1_0000_0000 - 4
    requires Split(buf, p, acc) == Done(rs)
    ensures |acc| <= |rs| && rs[..|acc|] == acc
    ensures |rs| == |acc| <==> p >= |buf|
    ensures |rs| > |acc| ==> rs[|acc|].offset == p + 4
    ensures forall k :: |acc| <= k < |rs| ==> rs[k].offset <= |buf| && FromCount(rs[k].size)
    ensures forall k :: |acc| <= k < |rs| - 1 ==> rs[k + 1].offset == rs[k].offset + 4 * Advance(rs[k].size) + 4
    ensures |rs| > |acc| ==> rs[|rs| - 1].offset + 4 * Advance(rs[|rs| - 1].size) >= |buf|
    decreases |buf| - p
  {
    if p < |buf| {
      var next := p + 4 + 4 * Skipped(High16(buf, p));
      var acc1 := acc + [RecordAt(buf, p)];
      AdvanceIsSkipped(buf, p);
      SplitLayout(buf, next, acc1, rs);
      assert rs[..|acc1|][..|acc|] == acc;
      assert rs[|acc|] == rs[..|acc1|][|acc|];
    }
  }

  /** Pass 1 never faults on a whole number of words: a header is always there to read. */
  lemma {:induction false} SplitWholeWords(buf: seq<byte>, p: nat, acc: seq<Record>)
    requires |buf| % 4 == 0 && p % 4 == 0
    ensures Split(buf, p, acc).Done?
    decreases |buf| - p
  {
    if p < |buf| {
      SplitWholeWords(buf, p + 4 + 4 * Skipped(High16(buf, p)), acc + [RecordAt(buf, p)]);
    }
  }

  // ---------------------------------------------------------------------
  // Pass 2: per-record bounds
  // ---------------------------------------------------------------------

  /**
   * A name fits `buff` exactly for records of 1 to 16 words after the
   * header; size 0 and more than 16 words overflow it.
   */
  lemma NameBounds(buf: seq<byte>, r: Record, d: map<u32, Entry>)
    requires FromCount(r.size)
    ensures ApplyName(buf, r, d).Done? <==> 1 <= r.size <= 16 && r.offset + 4 * r.size + 3 <= |buf|
    ensures ApplyMemberName(buf, r, d).Done? ==> 1 <= r.size <= 16 && r.offset + 4 * r.size + 7 <= |buf|
  {
  }

  /** A pointer type of more than four words overflows `tokens[4]`. */
  lemma PointerBounds(buf: seq<byte>, r: Record, d: map<u32, Entry>)
    requires r.op == OpTypePointer && FromCount(r.size)
    ensures Apply(buf, r, d).Done? <==> r.size <= 4 && r.offset + 4 * r.size <= |buf|
  {
  }

  /**
   * A decoration of fewer than two words after the header makes `size - 2`
   * wrap, and the reads run off any buffer under 4 GiB.
   */
  lemma DecorateWraps(buf: seq<byte>, r: Record, d: map<u32, Entry>)
    requires r.size < 2 || r.size == U32_MAX
    requires |buf| < 0x1_0000_0000
    ensures ApplyDecorate(buf, r, d) == Undefined
  {
  }

  /** Records other than names, member names and decorations only read: the map stays as it is. */
  lemma ReadOnlyRecords(buf: seq<byte>, r: Record, d: map<u32, Entry>)
    requires r.op !in {OpName, OpMemberName, OpDecorate}
    ensures !Apply(buf, r, d).Aborted?
    ensures Apply(buf, r, d).Done? ==> Apply(buf, r, d).value == d
  {
  }

  // ---------------------------------------------------------------------
  // Pass 2: the map discipline
  // ---------------------------------------------------------------------

  /** No id disappears, no name changes, and member lists only grow at the end. */
  predicate Grows(d: map<u32, Entry>, d1: map<u32, Entry>)
  {
    forall id :: id in d ==>
      (id in d1 && d1[id].id == d[id].id && d1[id].name == d[id].name && d[id].children <= d1[id].children)
  }

  /** A member as `OpMemberName` adds it: its decorations are the sentinel and it has no members. */
  predicate IsMember(c: Entry)
  {
    c.description == U32_MAX && c.binding == U32_MAX && c.location == U32_MAX && c.children == [] && 0 !in c.name
  }

  /** Every entry sits under its own id and has a non-empty name without NUL. */
  predicate WellFormed(d: map<u32, Entry>)
  {
    forall id :: id in d ==>
      (d[id].id == id && |d[id].name| > 0 && 0 !in d[id].name && forall c :: c in d[id].children ==> IsMember(c))
  }

  lemma ApplyGrows(buf: seq<byte>, r: Record, d: map<u32, Entry>)
    requires Apply(buf, r, d).Done?
    ensures Grows(d, Apply(buf, r, d).value)
    ensures WellFormed(d) ==> WellFormed(Apply(buf, r, d).value)
  {
    var d1 := Apply(buf, r, d).value;
    if r.op == OpMemberName {
      var id := Word(buf, r.offset);
      assert forall c :: c in d1[id].children ==> c in d[id].children || IsMember(c);
    }
  }

  /** The whole of pass 2 keeps `Grows` and `WellFormed`. */
  lemma {:induction false} CollectGrows(buf: seq<byte>, rs: seq<Record>, i: nat, d: map<u32, Entry>)
    requires i <= |rs|
    requires Collect(buf, rs, i, d).Done?
    ensures Grows(d, Collect(buf, rs, i, d).value)
    ensures WellFormed(d) ==> WellFormed(Collect(buf, rs, i, d).value)
    decreases |rs| - i
  {
    if i < |rs| {
      var d1 := Apply(buf, rs[i], d).value;
      ApplyGrows(buf, rs[i], d);
      CollectGrows(buf, rs, i + 1, d1);
    }
  }

  /** Every id `analyze` collects carries its first non-empty name, under its own key. */
  lemma AcceptedWellFormed(buf: seq<byte>)
    requires Analyze(buf).Accepted?
    ensures WellFormed(Analyze(buf).decorates)
  {
    var rs :| Split(buf, HEADER_BYTES, []) == Done(rs);
    CollectGrows(buf, rs, 0, map[]);
  }

  /**
   * The first `OpName` that gives a not yet named id a non-empty name
   * fixes that name for the rest of pass 2.
   */
  lemma FirstNameWins(buf: seq<byte>, rs: seq<Record>, k: nat, d: map<u32, Entry>, id: u32)
    requires k < |rs| && Collect(buf, rs, k, d).Done?
    requires rs[k].op == OpName && rs[k].offset + 4 <= |buf| && Word(buf, rs[k].offset) == id && id !in d
    ensures rs[k].offset + 4 + NameBytes(rs[k].size) <= |buf|
    ensures var name := NameIn(buf, rs[k].offset + 4, NameBytes(rs[k].size));
            |name| > 0 ==> id in Collect(buf, rs, k, d).value && Collect(buf, rs, k, d).value[id].name == name
  {
    var d1 := Apply(buf, rs[k], d).value;
    CollectGrows(buf, rs, k + 1, d1);
  }

  /** Record `r` is an `OpDecorate` of `id` with `kind` that carries at least one literal. */
  predicate Decorates(buf: seq<byte>, r: Record, id: u32, kind: u32)
  {
    r.op == OpDecorate && r.offset + 8 <= |buf| && Word(buf, r.offset) == id &&
      Word(buf, r.offset + 4) == kind && DecorationWords(r.size) > 0
  }

  /** A record that does not decorate `id` with `kind` leaves that field as it was, or UINT32_MAX for a new id. */
  lemma ApplyKeepsField(buf: seq<byte>, r: Record, d: map<u32, Entry>, id: u32, kind: u32)
    requires kind in {DecorationLocation, DecorationBinding, DecorationDescriptorSet}
    requires Apply(buf, r, d).Done? && id in Apply(buf, r, d).value
    requires !Decorates(buf, r, id, kind)
    ensures Field(Apply(buf, r, d).value[id], kind) == if id in d then Field(d[id], kind) else U32_MAX
  {
  }

  lemma {:induction false} CollectKeepsField(buf: seq<byte>, rs: seq<Record>, i: nat, d: map<u32, Entry>,
                                             id: u32, kind: u32)
    requires kind in {DecorationLocation, DecorationBinding, DecorationDescriptorSet}
    requires i <= |rs|
    requires Collect(buf, rs, i, d).Done? && id in Collect(buf, rs, i, d).value
    requires forall k :: i <= k < |rs| ==> !Decorates(buf, rs[k], id, kind)
    ensures Field(Collect(buf, rs, i, d).value[id], kind) == if id in d then Field(d[id], kind) else U32_MAX
    decreases |rs| - i
  {
    if i < |rs| {
      var d1 := Apply(buf, rs[i], d).value;
      CollectKeepsField(buf, rs, i + 1, d1, id, kind);
      if id in d1 {
        ApplyKeepsField(buf, rs[i], d, id, kind);
      } else {
        ApplyGrows(buf, rs[i], d);
      }
    }
  }

  /** A decoration nothing in the module sets reads UINT32_MAX. */
  lemma SentinelStays(buf: seq<byte>, id: u32, kind: u32)
    requires kind in {DecorationLocation, DecorationBinding, DecorationDescriptorSet}
    requires Analyze(buf).Accepted? && id in Analyze(buf).decorates
    requires forall k :: 0 <= k < |Analyze(buf).instructions| ==> !Decorates(buf, Analyze(buf).instructions[k], id, kind)
    ensures Field(Analyze(buf).decorates[id], kind) == U32_MAX
  {
    CollectKeepsField(buf, Analyze(buf).instructions, 0, map[], id, kind);
  }

  /**
   * When record `k` is the last to decorate `id` with `kind`, the field
   * ends up holding that record's last literal word.
   */
  lemma LastDecorationWins(buf: seq<byte>, rs: seq<Record>, k: nat, d: map<u32, Entry>, id: u32, kind: u32)
    requires kind in {DecorationLocation, DecorationBinding, DecorationDescriptorSet}
    requires k < |rs| && Collect(buf, rs, k, d).Done?
    requires Decorates(buf, rs[k], id, kind)
    requires forall j :: k < j < |rs| ==> !Decorates(buf, rs[j], id, kind)
    ensures rs[k].offset + 8 + 4 * DecorationWords(rs[k].size) <= |buf|
    ensures id in Collect(buf, rs, k, d).value
    ensures Field(Collect(buf, rs, k, d).value[id], kind) ==
            Word(buf, rs[k].offset + 8 + 4 * (DecorationWords(rs[k].size) - 1))
  {
    var d1 := Apply(buf, rs[k], d).value;
    CollectGrows(buf, rs, k + 1, d1);
    CollectKeepsField(buf, rs, k + 1, d1, id, kind);
  }
}
