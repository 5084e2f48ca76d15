/**
 * Bit fields over a set of byte-coded values (BitField): `construct` ORs the
 * bytes of some values into an int, `extract` recovers every registered
 * value whose byte is covered by an int.
 *
 * Java widens a byte to int by sign extension, so a byte with its top bit
 * set becomes an int with its top 25 bits set; the int is `bv32` here and
 * the widening is `Widen`.
 */
module Bits {

  /** A Java byte widened to int: the low 8 bits, the sign bit copied into the 24 bits above. */
  function Widen(b: bv8): (w: bv32)
    ensures w & 0xFF == b as bv32
    ensures b & 0x80 == 0 ==> w & 0xFFFF_FF00 == 0
    ensures b & 0x80 != 0 ==> w & 0xFFFF_FF00 == 0xFFFF_FF00
  {
    if b & 0x80 == 0 then b as bv32 else 0xFFFF_FF00 | b as bv32
  }

  /** Widening commutes with OR, so or-ing bytes and widening the result is or-ing widened bytes. */
  lemma WidenOr(a: bv8, b: bv8)
    ensures Widen(a | b) == Widen(a) | Widen(b)
  {
  }

  /** `m` has every bit of `b` set: the test extract applies, `field & b == b`. */
  predicate Covers(m: bv8, b: bv8)
  {
    m & b == b
  }

  /** Widening preserves coverage: a widened byte covers another exactly when the bytes do. */
  lemma WidenCovers(x: bv8, b: bv8)
    ensures Widen(x) & Widen(b) == Widen(b) <==> Covers(x, b)
  {
  }

  /** The OR of the bytes of `xs`, folded left to right as the construct loop does. */
  function OrBytes<E>(byteOf: E -> bv8, xs: seq<E>): (o: bv8)
    ensures xs != [] ==> Covers(o, byteOf(xs[|xs| - 1]))
  {
    if xs == [] then 0 else OrBytes(byteOf, xs[..|xs| - 1]) | byteOf(xs[|xs| - 1])
  }

  /** construct(objects): 0 for no objects, otherwise the OR of their bytes, widened to int. */
  function Construction<E>(byteOf: E -> bv8, xs: seq<E>): (field: bv32)
    ensures field == Widen(OrBytes(byteOf, xs))
  {
    if xs == [] then 0 else Widen(OrBytes(byteOf, xs))
  }

  lemma CoversOr(m: bv8, a: bv8, b: bv8)
    ensures Covers(m, a | b) <==> Covers(m, a) && Covers(m, b)
  {
  }

  lemma OrCoversOperands(a: bv8, b: bv8)
    ensures Covers(a | b, a) && Covers(a | b, b)
  {
  }

  lemma CoversTransitive(a: bv8, b: bv8, c: bv8)
    requires Covers(a, b) && Covers(b, c)
    ensures Covers(a, c)
  {
  }

  /** The OR covers the byte of every element. */
  lemma {:induction false} OrBytesCoversEach<E>(byteOf: E -> bv8, xs: seq<E>, x: E)
    requires x in xs
    ensures Covers(OrBytes(byteOf, xs), byteOf(x))
  {
    var init, last := xs[..|xs| - 1], xs[|xs| - 1];
    assert xs == init + [last];
    var a, b := OrBytes(byteOf, init), byteOf(last);
    assert OrBytes(byteOf, xs) == a | b;
    OrCoversOperands(a, b);
    if x != last {
      assert x in init;
      OrBytesCoversEach(byteOf, init, x);
      CoversTransitive(a | b, a, byteOf(x));
    }
  }

  /** Any byte that covers the byte of every element covers the OR: the OR is the least such byte. */
  lemma {:induction false} OrBytesIsLeast<E>(byteOf: E -> bv8, xs: seq<E>, m: bv8)
    requires forall x :: x in xs ==> Covers(m, byteOf(x))
    ensures Covers(m, OrBytes(byteOf, xs))
  {
    if xs != [] {
      var init, last := xs[..|xs| - 1], xs[|xs| - 1];
      assert xs == init + [last];
      assert forall x :: x in init ==> x in xs;
      OrBytesIsLeast(byteOf, init, m);
      CoversOr(m, OrBytes(byteOf, init), byteOf(last));
    }
  }

  /** The OR depends only on which values occur: not on their order, not on repetitions. */
  lemma OrBytesOfSameElements<E>(byteOf: E -> bv8, xs: seq<E>, ys: seq<E>)
    requires forall x :: x in xs <==> x in ys
    ensures OrBytes(byteOf, xs) == OrBytes(byteOf, ys)
    ensures Construction(byteOf, xs) == Construction(byteOf, ys)
  {
    var a, b := OrBytes(byteOf, xs), OrBytes(byteOf, ys);
    forall x | x in ys ensures Covers(a, byteOf(x)) { OrBytesCoversEach(byteOf, xs, x); }
    forall x | x in xs ensures Covers(b, byteOf(x)) { OrBytesCoversEach(byteOf, ys, x); }
    OrBytesIsLeast(byteOf, ys, a);
    OrBytesIsLeast(byteOf, xs, b);
  }

  /** A boxed java.lang.Byte, the key type of the map. */
  datatype Byte = Byte(bits: bv8)

  /** The map the constructor builds: each value under its byte, later values replacing earlier ones. */
  function Registry<E>(byteOf: E -> bv8, values: seq<E>): (m: map<Byte, E>)
    ensures forall x :: x in values ==> Byte(byteOf(x)) in m
    ensures forall k :: k in m ==> m[k] in values && byteOf(m[k]) == k.bits
  {
    if values == [] then map[]
    else
      var init, last := values[..|values| - 1], values[|values| - 1];
      assert values == init + [last];
      assert forall x :: x in init ==> x in values;
      Registry(byteOf, init)[Byte(byteOf(last)) := last]
  }

  /** Of several values sharing a byte, the one registered last is the one kept. */
  lemma {:induction false} LaterRegistrationWins<E>(byteOf: E -> bv8, values: seq<E>, i: nat)
    requires i < |values|
    requires forall j :: i < j < |values| ==> byteOf(values[j]) != byteOf(values[i])
    ensures Registry(byteOf, values)[Byte(byteOf(values[i]))] == values[i]
  {
    var init, last := values[..|values| - 1], values[|values| - 1];
    assert Registry(byteOf, values) == Registry(byteOf, init)[Byte(byteOf(last)) := last];
    if i < |values| - 1 {
      assert init[i] == values[i];
      assert forall j :: i < j < |init| ==> init[j] == values[j];
      LaterRegistrationWins(byteOf, init, i);
      assert byteOf(last) != byteOf(values[i]);
    }
  }

  /** A byte with exactly one bit set. */
  predicate SingleBit(b: bv8)
  {
    b != 0 && b & (b - 1) == 0
  }

  lemma SingleBitCovers(k: bv8, a: bv8, b: bv8)
    requires SingleBit(k)
    ensures Covers(a | b, k) <==> Covers(a, k) || Covers(b, k)
    ensures SingleBit(b) ==> (Covers(b, k) <==> b == k)
  {
  }

  /** With single-bit bytes, an OR covers a single bit exactly when one of the bytes is that bit. */
  lemma {:induction false} OrCoversBit<E>(byteOf: E -> bv8, xs: seq<E>, k: bv8)
    requires SingleBit(k) && forall x :: x in xs ==> SingleBit(byteOf(x))
    ensures Covers(OrBytes(byteOf, xs), k) <==> exists x :: x in xs && byteOf(x) == k
  {
    if xs != [] {
      var init, last := xs[..|xs| - 1], xs[|xs| - 1];
      assert xs == init + [last];
      OrCoversBit(byteOf, init, k);
      SingleBitCovers(k, OrBytes(byteOf, init), byteOf(last));
      if exists x :: x in xs && byteOf(x) == k {
        var x :| x in xs && byteOf(x) == k;
        if x != last { assert x in init; }
      }
    }
  }

  /** BitField<E>: the registered values, by byte. */
  class BitField<E(==)> {
    /** ByteProvider.getByte() of each value. */
    const byteOf: E -> bv8
    /** The constructor's argument, kept for stating properties. */
    ghost const values: seq<E>
    const internalMap: map<Byte, E>

    /** new BitField(values): registers every value under its byte, in array order. */
    constructor (byteOf: E -> bv8, values: seq<E>)
      ensures this.byteOf == byteOf && this.values == values
      ensures internalMap == Registry(byteOf, values)
    {
      var m: map<Byte, E> := map[];
      var n := 0;
      while n < |values|
        invariant 0 <= n <= |values|
        invariant m == Registry(byteOf, values[..n])
      {
        assert values[..n + 1][..n] == values[..n];
        m := m[Byte(byteOf(values[n])) := values[n]];
        n := n + 1;
      }
      assert values[..n] == values;
      this.byteOf := byteOf;
      this.values := values;
      internalMap := m;
    }

    /** construct(Collection): the iterator loop or-ing each byte into a byte accumulator. */
    method Construct(objects: seq<E>) returns (field: bv32)
      ensures field == Construction(byteOf, objects)
      ensures objects == [] ==> field == 0
    {
      if |objects| == 0 {
        return 0;
      }
      var i := byteOf(objects[0]);
      var n := 1;
      assert objects[..1][..0] == [];
      while n < |objects|
        invariant 1 <= n <= |objects|
        invariant i == OrBytes(byteOf, objects[..n])
      {
        assert objects[..n + 1][..n] == objects[..n];
        i := i | byteOf(objects[n]);
        n := n + 1;
      }
      assert objects[..n] == objects;
      return Widen(i);
    }

    /** construct(E...): the same as construct on the array seen as a list. */
    method ConstructArray(objects: array<E>) returns (field: bv32)
      ensures field == Construction(byteOf, objects[..])
    {
      field := Construct(objects[..]);
    }

    /**
     * extract(field): nothing for 0; otherwise every registered value whose
     * widened byte is covered by the field.
     */
    function Extract(field: bv32): (r: set<E>)
      ensures field == 0 ==> r == {}
      ensures field != 0 ==> forall k :: k in internalMap && Selects(field, k) ==> internalMap[k] in r
      ensures forall e :: e in r ==> exists k :: k in internalMap && internalMap[k] == e && Selects(field, k)
    {
      if field == 0 then {}
      else set k | k in internalMap && Selects(field, k) :: internalMap[k]
    }
  }

  /** The filter of extract: the int field has every bit of the byte, widened to int. */
  predicate Selects(field: bv32, k: Byte)
  {
    field & Widen(k.bits) == Widen(k.bits)
  }

  /** extract only ever returns values that were given to the constructor. */
  lemma ExtractReturnsRegistered<E>(bf: BitField<E>, field: bv32)
    requires bf.internalMap == Registry(bf.byteOf, bf.values)
    ensures forall e :: e in bf.Extract(field) ==> e in bf.values
  {
  }

  /** A value registered under byte 0 is covered by every field, so it is in every non-empty extraction. */
  lemma ZeroByteAlwaysExtracted<E>(bf: BitField<E>, field: bv32)
    requires Byte(0) in bf.internalMap && field != 0
    ensures bf.internalMap[Byte(0)] in bf.Extract(field)
  {
    assert Selects(field, Byte(0));
  }

  /**
   * Extracting a constructed field gives back exactly the values it was
   * built from, when every registered value has its own single-bit byte
   * and the field is built from registered values.
   */
  lemma ExtractConstruct<E>(bf: BitField<E>, objects: seq<E>)
    requires bf.internalMap == Registry(bf.byteOf, bf.values)
    requires forall v :: v in bf.values ==> SingleBit(bf.byteOf(v))
    requires forall v, w :: v in bf.values && w in bf.values && bf.byteOf(v) == bf.byteOf(w) ==> v == w
    requires forall x :: x in objects ==> x in bf.values
    ensures bf.Extract(Construction(bf.byteOf, objects)) == set x | x in objects
  {
    var byteOf, m := bf.byteOf, bf.internalMap;
    var field := Construction(byteOf, objects);
    if objects == [] {
      assert field == 0;
    } else {
      ConstructionNonZero(byteOf, objects);
      forall x | x in objects ensures x in bf.Extract(field) {
        var k := Byte(byteOf(x));
        ConstructionSelects(byteOf, objects, k);
        assert k in m && Selects(field, k);
      }
      forall e | e in bf.Extract(field) ensures e in objects {
        var k :| k in m && m[k] == e && Selects(field, k);
        ConstructionSelects(byteOf, objects, k);
      }
    }
  }

  /** A construction from single-bit bytes is not 0. */
  lemma ConstructionNonZero<E>(byteOf: E -> bv8, objects: seq<E>)
    requires objects != [] && forall x :: x in objects ==> SingleBit(byteOf(x))
    ensures Construction(byteOf, objects) != 0
  {
    OrBytesCoversEach(byteOf, objects, objects[0]);
    assert OrBytes(byteOf, objects) != 0;
  }

  /** With single-bit bytes, a construction selects a single-bit key exactly when some object has that byte. */
  lemma ConstructionSelects<E>(byteOf: E -> bv8, objects: seq<E>, k: Byte)
    requires SingleBit(k.bits) && forall x :: x in objects ==> SingleBit(byteOf(x))
    ensures Selects(Construction(byteOf, objects), k) <==> exists x :: x in objects && byteOf(x) == k.bits
  {
    SelectsWiden(OrBytes(byteOf, objects), k);
    OrCoversBit(byteOf, objects, k.bits);
  }

  /** Widening commutes with AND as well. */
  lemma WidenAnd(a: bv8, b: bv8)
    ensures Widen(a & b) == Widen(a) & Widen(b)
  {
  }

  lemma CoversAnd(a: bv8, b: bv8, k: bv8)
    ensures Covers(a & b, k) <==> Covers(a, k) && Covers(b, k)
  {
  }

  /** Two bytes that cover the same single bits are equal. */
  lemma SameSingleBits(a: bv8, b: bv8)
    requires forall k :: SingleBit(k) ==> (Covers(a, k) <==> Covers(b, k))
    ensures a == b
  {
    assert SingleBit(0x01) && SingleBit(0x02) && SingleBit(0x04) && SingleBit(0x08);
    assert SingleBit(0x10) && SingleBit(0x20) && SingleBit(0x40) && SingleBit(0x80);
  }

  /**
   * Packing what a sign-extended field unpacks gives back that field,
   * restricted to the bits of the registered values.
   */
  lemma ConstructUnpack<E>(bf: BitField<E>, f8: bv8, objects: seq<E>)
    requires bf.internalMap == Registry(bf.byteOf, bf.values)
    requires forall v :: v in bf.values ==> SingleBit(bf.byteOf(v))
    requires forall v, w :: v in bf.values && w in bf.values && bf.byteOf(v) == bf.byteOf(w) ==> v == w
    requires forall x :: x in objects ==> x in bf.values
    requires (set x | x in objects) == bf.Extract(Widen(f8))
    ensures Construction(bf.byteOf, objects) == Widen(f8) & Widen(OrBytes(bf.byteOf, bf.values))
  {
    var byteOf, m := bf.byteOf, bf.internalMap;
    var o := OrBytes(byteOf, bf.values);
    forall k | SingleBit(k)
      ensures Covers(OrBytes(byteOf, objects), k) <==> Covers(f8 & o, k)
    {
      UnpackedBit(bf, f8, objects, k);
      OrCoversBit(byteOf, objects, k);
      OrCoversBit(byteOf, bf.values, k);
      CoversAnd(f8, o, k);
    }
    SameSingleBits(OrBytes(byteOf, objects), f8 & o);
    WidenAnd(f8, o);
  }

  /** One bit of ConstructUnpack: an unpacked value has bit k exactly when the field and some registered value do. */
  lemma UnpackedBit<E>(bf: BitField<E>, f8: bv8, objects: seq<E>, k: bv8)
    requires bf.internalMap == Registry(bf.byteOf, bf.values)
    requires forall v, w :: v in bf.values && w in bf.values && bf.byteOf(v) == bf.byteOf(w) ==> v == w
    requires forall x :: x in objects ==> x in bf.values
    requires (set x | x in objects) == bf.Extract(Widen(f8))
    requires SingleBit(k)
    ensures (exists x :: x in objects && bf.byteOf(x) == k)
        <==> Covers(f8, k) && exists v :: v in bf.values && bf.byteOf(v) == k
  {
    var byteOf, m := bf.byteOf, bf.internalMap;
    SelectsWiden(f8, Byte(k));
    if exists x :: x in objects && byteOf(x) == k {
      var x :| x in objects && byteOf(x) == k;
      assert x in bf.Extract(Widen(f8));
      var kk :| kk in m && m[kk] == x && Selects(Widen(f8), kk);
      assert kk == Byte(k);
    }
    if Covers(f8, k) && exists v :: v in bf.values && byteOf(v) == k {
      var v :| v in bf.values && byteOf(v) == k;
      assert Byte(k) in m;
      assert m[Byte(k)] == v;
      assert f8 != 0;
      assert v in bf.Extract(Widen(f8));
      assert v in objects;
    }
  }

  /**
   * A field that is the raw int 0x80, not a sign-extended byte, does not
   * select a value registered under byte 0x80.
   */
  lemma RawTopBitNotExtracted<E>(bf: BitField<E>)
    requires Byte(0x80) in bf.internalMap
    requires forall k :: k in bf.internalMap ==> bf.internalMap[k] == bf.internalMap[Byte(0x80)] ==> k == Byte(0x80)
    ensures bf.internalMap[Byte(0x80)] !in bf.Extract(0x80)
  {
    assert !Selects(0x80, Byte(0x80));
  }

  /** A widened byte selects a key exactly when the byte covers the key's byte. */
  lemma SelectsWiden(o: bv8, k: Byte)
    ensures Selects(Widen(o), k) <==> Covers(o, k.bits)
  {
    WidenCovers(o, k.bits);
  }
}
