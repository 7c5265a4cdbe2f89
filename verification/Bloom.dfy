/** The per-chain Bloom filter: a bit array probed at `k` hash positions. The hash family is left
    uninterpreted; nothing below depends on how the positions are spread. */
module Bloom {

  type Hash = (string, nat) -> nat

  /** The value of a filter: `k` probes into a non-empty bit array. */
  datatype RawBits = RawBits(k: nat, bits: seq<bool>)
  type Bits = b: RawBits | 0 < b.k && 0 < |b.bits| witness RawBits(1, [false])

  /** What a snapshot key of Redis may hold: an encoded filter, or bytes that do not decode. */
  datatype Blob = Encoded(value: Bits) | Garbage

  predicate IsEmpty(f: Bits) {
    forall j :: 0 <= j < |f.bits| ==> !f.bits[j]
  }

  function Position(h: Hash, f: Bits, item: string, i: nat): (j: nat)
    ensures j < |f.bits|
  {
    h(item, i) % |f.bits|
  }

  /** The filter reports `item` as possibly present. */
  predicate Hit(h: Hash, f: Bits, item: string) {
    forall i :: 0 <= i < f.k ==> f.bits[Position(h, f, item, i)]
  }

  ghost predicate Probed(h: Hash, f: Bits, item: string, j: nat) {
    exists i :: 0 <= i < f.k && Position(h, f, item, i) == j
  }

  /** The filter after all of `items` were added, in whatever order: precisely their probe positions become set. */
  ghost function Absorb(h: Hash, f: Bits, items: set<string>): Bits {
    RawBits(f.k,
            seq(|f.bits|, j requires 0 <= j < |f.bits| => f.bits[j] || exists x :: x in items && Probed(h, f, x, j)))
  }

  lemma AbsorbNothing(h: Hash, f: Bits)
    ensures Absorb(h, f, {}) == f
  {
    assert Absorb(h, f, {}).bits == f.bits;
  }

  lemma AbsorbTwice(h: Hash, f: Bits, a: set<string>, b: set<string>)
    ensures Absorb(h, Absorb(h, f, a), b) == Absorb(h, f, a + b)
  {
    var g := Absorb(h, f, a);
    forall x, j: nat | j < |f.bits|
      ensures Probed(h, g, x, j) == Probed(h, f, x, j)
    {
      forall i: nat | i < f.k ensures Position(h, g, x, i) == Position(h, f, x, i) {
      }
    }
    assert Absorb(h, g, b).bits == Absorb(h, f, a + b).bits;
  }

  /** No false negatives: whatever was added is reported, and adding more never hides anything. */
  lemma NoFalseNegatives(h: Hash, f: Bits, items: set<string>, x: string)
    requires x in items || Hit(h, f, x)
    ensures Hit(h, Absorb(h, f, items), x)
  {
    var g := Absorb(h, f, items);
    forall i | 0 <= i < g.k
      ensures g.bits[Position(h, g, x, i)]
    {
      assert Position(h, g, x, i) == Position(h, f, x, i);
      if x in items {
        assert Probed(h, f, x, Position(h, f, x, i));
      }
    }
  }

  /** A filter that already reports every item is not changed by adding them. */
  lemma AbsorbHit(h: Hash, f: Bits, x: string)
    requires Hit(h, f, x)
    ensures Absorb(h, f, {x}) == f
  {
    var g := Absorb(h, f, {x});
    forall j: nat | j < |f.bits| && Probed(h, f, x, j)
      ensures f.bits[j]
    {
    }
    assert g.bits == f.bits;
  }

  lemma EmptyMisses(h: Hash, f: Bits, x: string)
    requires IsEmpty(f)
    ensures !Hit(h, f, x)
  {
    assert 0 < f.k;
    assert !f.bits[Position(h, f, x, 0)];
  }

  class Filter {
    const h: Hash
    var bf: Bits

    constructor (h: Hash, m: nat, k: nat)
      requires 0 < m && 0 < k
      ensures this.h == h && bf.k == k && |bf.bits| == m && IsEmpty(bf)
    {
      this.h := h;
      this.bf := RawBits(k, seq(m, _ => false));
    }

    method Add(item: string)
      modifies this
      ensures bf == Absorb(h, old(bf), {item})
    {
      var bits := bf.bits;
      for i := 0 to bf.k
        invariant |bits| == |bf.bits|
        invariant forall j :: 0 <= j < |bits| ==>
                    (bits[j] <==> bf.bits[j] || exists n :: 0 <= n < i && Position(h, bf, item, n) == j)
      {
        bits := bits[Position(h, bf, item, i) := true];
      }
      forall j | 0 <= j < |bits|
        ensures bits[j] == Absorb(h, bf, {item}).bits[j]
      {
        assert Probed(h, bf, item, j) <==> exists n :: 0 <= n < bf.k && Position(h, bf, item, n) == j;
        assert (exists x :: x in {item} && Probed(h, bf, x, j)) <==> Probed(h, bf, item, j) by {
          if Probed(h, bf, item, j) {
            assert item in {item};
          }
        }
      }
      assert bits == Absorb(h, bf, {item}).bits;
      bf := RawBits(bf.k, bits);
    }

    method Test(item: string) returns (found: bool)
      ensures found == Hit(h, bf, item)
    {
      for i := 0 to bf.k
        invariant forall n :: 0 <= n < i ==> bf.bits[Position(h, bf, item, n)]
      {
        if !bf.bits[Position(h, bf, item, i)] {
          return false;
        }
      }
      return true;
    }

    method Encode() returns (data: Blob)
      ensures data == Encoded(bf)
    {
      data := Encoded(bf);
    }

    /** Replaces the whole filter; bytes that do not decode leave it as it was. */
    method Decode(data: Blob) returns (ok: bool)
      modifies this
      ensures ok == data.Encoded?
      ensures bf == if data.Encoded? then data.value else old(bf)
    {
      match data
      case Encoded(value) => bf := value; ok := true;
      case Garbage => ok := false;
    }
  }
}
