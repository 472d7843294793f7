/**
 * The 64-bit resource handles of the Vulkan back ends. `resourserunion`
 * overlays a `uint64_t` with the fields type (byte 0), reserved (byte 1),
 * internalid (bytes 2-3) and userdata (bytes 4-7); on a little-endian
 * machine the handle is therefore their weighted sum.
 */
module ResourceId {
  import opened Memory

  /** `eResourceType` (and its twin `eResurceType`). */
  const INVALID: byte := 0
  const VDECL: byte := 1
  const VB: byte := 2
  const IB: byte := 3
  const SHADER: byte := 4
  const TEXTURE: byte := 5
  const SAMPLER: byte := 6
  const PIPELINE: byte := 7
  const RENDERPASS: byte := 8
  const FBO: byte := 9

  /** `makeresourceid` / `makeresource`: a zeroed union with three fields set, read as `id`. */
  function MakeResourceId(t: byte, internal: u16, user: u32): u64
  {
    t + 0x1_0000 * internal + 0x1_0000_0000 * user
  }

  /** `restype`: the `type` field of a handle. */
  function TypeOf(id: u64): byte
  {
    id % 0x100
  }

  /** The `reserved` field. */
  function Reserved(id: u64): byte
  {
    (id / 0x100) % 0x100
  }

  /** The `internalid` field: the 1-based index into the back end's vector. */
  function InternalId(id: u64): u16
  {
    (id / 0x1_0000) % 0x1_0000
  }

  /** The `userdata` field. */
  function UserData(id: u64): u32
  {
    id / 0x1_0000_0000
  }

  /** Every field of a made handle reads back as written, and the reserved byte stays zero. */
  lemma FieldsOfMade(t: byte, internal: u16, user: u32)
    ensures TypeOf(MakeResourceId(t, internal, user)) == t
    ensures Reserved(MakeResourceId(t, internal, user)) == 0
    ensures InternalId(MakeResourceId(t, internal, user)) == internal
    ensures UserData(MakeResourceId(t, internal, user)) == user
  {
    var id := MakeResourceId(t, internal, user);
    var low := t + 0x1_0000 * internal;
    assert low < 0x1_0000_0000;
    assert id == low + 0x1_0000_0000 * user;
    assert id / 0x1_0000_0000 == user;
    assert id % 0x1_0000_0000 == low;
    assert id / 0x1_0000 == internal + 0x1_0000 * user;
    assert (id / 0x1_0000) % 0x1_0000 == internal;
    assert id / 0x100 == 0x100 * internal + 0x100_0000 * user;
    assert (id / 0x100) % 0x100 == 0;
    assert id % 0x100 == t;
  }

  /** A handle is one `makeresourceid` can build exactly when its reserved byte is zero. */
  lemma MadeFromFields(id: u64)
    ensures id == MakeResourceId(TypeOf(id), InternalId(id), UserData(id)) <==> Reserved(id) == 0
  {
    var t: int, r: int, i: int, u: int := TypeOf(id), Reserved(id), InternalId(id), UserData(id);
    assert id == t + 0x100 * (id / 0x100);
    assert id / 0x100 == r + 0x100 * (id / 0x1_0000);
    assert id / 0x1_0000 == i + 0x1_0000 * u;
    assert id == t + 0x100 * r + 0x1_0000 * i + 0x1_0000_0000 * u;
    if Reserved(id) == 0 {
      assert id == MakeResourceId(t, i, u);
    } else {
      FieldsOfMade(t, i, u);
    }
  }

  /** Distinct fields give distinct handles. */
  lemma MakeInjective(t: byte, i: u16, u: u32, t': byte, i': u16, u': u32)
    requires MakeResourceId(t, i, u) == MakeResourceId(t', i', u')
    ensures t == t' && i == i' && u == u'
  {
    FieldsOfMade(t, i, u);
    FieldsOfMade(t', i', u');
  }

  /** The handle 0 that failed creations return is tagged `eResourceType_invalid`, and no valid tag makes it. */
  lemma ZeroIsInvalid(t: byte, i: u16, u: u32)
    ensures TypeOf(0) == INVALID
    ensures MakeResourceId(t, i, u) == 0 <==> t == INVALID && i == 0 && u == 0
  {
  }

  /**
   * How a back end finds the element a handle names in a vector of `count`
   * elements: a handle tagged with another type is ignored (`None`), and
   * `vector[internalid - 1]` outside the vector is undefined.
   */
  function Resolve(id: u64, tag: byte, count: nat): Exec<Option<nat>>
  {
    if TypeOf(id) != tag then Done(None)
    else if 1 <= InternalId(id) <= count then Done(Some(InternalId(id) - 1))
    else Undefined
  }

  /**
   * The handle a `create_*` returns after its push names the element it
   * pushed, as long as the vector has fewer than 65536 elements.
   */
  lemma ResolveMade(tag: byte, count: nat, user: u32)
    requires 0 < count < 0x1_0000
    ensures Resolve(MakeResourceId(tag, Trunc16(count), user), tag, count) == Done(Some(count - 1))
  {
    FieldsOfMade(tag, Trunc16(count), user);
  }

  /** The 65536th element gets `internalid` 0, and binding its handle is undefined. */
  lemma ResolveWraps(tag: byte, user: u32)
    ensures Resolve(MakeResourceId(tag, Trunc16(0x1_0000), user), tag, 0x1_0000) == Undefined
  {
    FieldsOfMade(tag, Trunc16(0x1_0000), user);
  }

  /** The 0 a failed `create_*` returns is ignored by every operation that checks the tag. */
  lemma ResolveZero(tag: byte, count: nat)
    requires tag != INVALID
    ensures Resolve(0, tag, count) == Done(None)
  {
    assert TypeOf(0) == INVALID;
  }
}
