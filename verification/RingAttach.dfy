/** Adopting a ring that another process laid out, AttachRing of ring.go: the header is checked against the
    bytes that are mapped, and after that every slot of every index lies inside them. */
module RingAttach {
  import opened Ring

  const RING_MAGIC: int := 0x474e4952
  const OFF_HEAD: nat := 64
  const OFF_TAIL: nat := 128
  const HEADER_BYTES: nat := 192
  const WORD32: int := 0x1_0000_0000

  /** Bitwise and of unsigned words. */
  function And(a: nat, b: nat): nat
    decreases a
  {
    if a == 0 || b == 0 then 0 else 2 * And(a / 2, b / 2) + (a % 2) * (b % 2)
  }

  lemma {:induction false} AndBounded(a: nat, b: nat)
    ensures And(a, b) <= a && And(a, b) <= b
    decreases a
  {
    if a != 0 && b != 0 {
      AndBounded(a / 2, b / 2);
      OneBit(a, b, And(a / 2, b / 2));
      hide And;
      AndStep(a, b);
    }
  }

  lemma AndStep(a: nat, b: nat)
    requires a != 0 && b != 0
    ensures And(a, b) == 2 * And(a / 2, b / 2) + (a % 2) * (b % 2)
  {
  }

  lemma OneBit(a: nat, b: nat, rest: nat)
    requires rest <= a / 2 && rest <= b / 2
    ensures 2 * rest + (a % 2) * (b % 2) <= a && 2 * rest + (a % 2) * (b % 2) <= b
  {
    var x, y := a % 2, b % 2;
    assert x == 0 || x == 1;
    assert y == 0 || y == 1;
    assert x * y <= x && x * y <= y;
  }

  /** Masking with a power of two less one is taking the remainder. */
  lemma {:induction false} MaskIsRemainder(index: nat, capacity: nat)
    requires PowerOfTwo(capacity)
    ensures And(index, capacity - 1) == index % capacity
    decreases capacity
  {
    if capacity == 1 {
      AndBounded(index, 0);
    } else {
      var half := capacity / 2;
      assert capacity == 2 * half && (capacity - 1) / 2 == half - 1 && (capacity - 1) % 2 == 1;
      MaskIsRemainder(index / 2, half);
      HalfRemainder(index, half);
      if index != 0 && half == 1 {
        AndBounded(index / 2, 0);
      }
    }
  }

  lemma HalfRemainder(index: nat, half: nat)
    requires half > 0
    ensures index % (2 * half) == 2 * (index / 2 % half) + index % 2
  {
    var q, r := index / 2 / half, index / 2 % half;
    assert index / 2 == q * half + r;
    assert index == 2 * (q * half + r) + index % 2;
    var rest := 2 * r + index % 2;
    assert 0 <= rest < 2 * half;
    assert index == q * (2 * half) + rest by {
      assert 2 * (q * half) == q * (2 * half);
    }
    RemainderUnique(index, q, rest, 2 * half);
  }

  lemma Apart(a: int, b: int, d: nat)
    requires a < b
    ensures a * d + d <= b * d
  {
    var k := b - a - 1;
    Scaled(0, k, d);
    Spread(a, k, d);
    assert b == a + 1 + k;
  }

  lemma Spread(a: int, k: int, d: nat)
    ensures (a + 1 + k) * d == a * d + d + k * d
  {
  }

  /** The bit trick of the check: a positive word shares no bit with its predecessor exactly when it is a power
      of two. */
  lemma {:induction false} PowerTest(c: nat)
    requires c > 0
    ensures And(c, c - 1) == 0 <==> PowerOfTwo(c)
  {
    if c > 1 {
      var half := c / 2;
      AndStep(c, c - 1);
      PowerStep(c);
      hide And, PowerOfTwo;
      if c % 2 == 0 {
        EvenBefore(c);
        PowerTest(half);
      } else {
        OddBefore(c);
        AndSelf(half);
      }
    }
  }

  lemma PowerStep(c: nat)
    requires c > 1
    ensures PowerOfTwo(c) <==> c % 2 == 0 && PowerOfTwo(c / 2)
  {
  }

  lemma EvenBefore(c: nat)
    requires c > 1 && c % 2 == 0
    ensures c / 2 > 0 && (c - 1) / 2 == c / 2 - 1 && (c % 2) * ((c - 1) % 2) == 0
  {
  }

  lemma OddBefore(c: nat)
    requires c > 1 && c % 2 == 1
    ensures c / 2 > 0 && (c - 1) / 2 == c / 2 && (c % 2) * ((c - 1) % 2) == 0
  {
  }

  lemma {:induction false} AndSelf(n: nat)
    ensures And(n, n) == n
  {
    if n > 0 {
      AndStep(n, n);
      hide And;
      AndSelf(n / 2);
      BitSquare(n);
    } else {
      AndBounded(n, n);
    }
  }

  lemma BitSquare(n: nat)
    ensures (n % 2) * (n % 2) == n % 2 && n == 2 * (n / 2) + n % 2
  {
    var b := n % 2;
    assert b == 0 || b == 1;
  }

  /** The header words as they are read from the mapping. */
  datatype Header = Header(magic: nat, slot: nat, capacity: nat, mask: nat, slotsOff: nat, head: nat, tail: nat)
  {
    predicate Words() {
      && magic < WORD32 && slot < WORD32 && capacity < WORD32 && mask < WORD32 && slotsOff < WORD32
      && head < WORD && tail < WORD
    }
  }

  /** What AttachRing lets through. */
  predicate Accepts(mapped: nat, h: Header) {
    && mapped >= HEADER_BYTES && h.magic == RING_MAGIC
    && !(h.capacity < 2 || And(h.capacity, h.capacity - 1) != 0 || h.slot == 0 || h.mask != h.capacity - 1
         || h.slotsOff != HEADER_BYTES)
    && mapped >= h.slotsOff + h.slot * h.capacity
    && Wrap(h.head - h.tail) <= h.capacity
  }

  /** Where `slot(index)` starts. */
  function SlotFrom(h: Header, index: nat): nat {
    h.slotsOff + And(index, h.mask) * h.slot
  }

  /** An accepted ring has a geometry the protocol is right for, and the size that is compared with the mapping
      fits a signed 64-bit integer: the capacity, being a power of two, is at most 2^31. */
  lemma AcceptedGeometry(mapped: nat, h: Header)
    requires h.Words() && Accepts(mapped, h)
    ensures Geometry(h.capacity)
    ensures h.slotsOff + h.slot * h.capacity < 0x8000_0000_0000_0000
  {
    PowerTest(h.capacity);
    TwoToThe31();
    PowersBelow(h.capacity, 0x8000_0000);
    assert h.slot * h.capacity <= (WORD32 - 1) * 0x8000_0000 by {
      Scaled(h.slot, WORD32 - 1, h.capacity);
      Scaled(h.capacity, 0x8000_0000, WORD32 - 1);
    }
  }

  lemma TwoToThe31()
    ensures PowerOfTwo(0x8000_0000)
  {
    PowerProduct(2, 2);
    PowerProduct(4, 2);
    PowerProduct(4, 4);
    PowerProduct(16, 8);
    PowerProduct(16, 16);
    PowerProduct(0x100, 0x80);
    PowerProduct(0x100, 0x100);
    PowerProduct(0x1_0000, 0x8000);
  }

  lemma Scaled(a: nat, b: nat, d: nat)
    requires a <= b
    ensures a * d <= b * d
  {
  }

  /** A power of two below twice another is at most that one. */
  lemma {:induction false} PowersBelow(c: nat, p: nat)
    requires PowerOfTwo(c) && PowerOfTwo(p) && c < 2 * p
    ensures c <= p
  {
    if c > 1 && p > 1 {
      PowersBelow(c / 2, p / 2);
    }
  }

  /** Every slot of an accepted ring lies behind the header and inside the mapping, whatever the 64-bit index,
      and two indices share a slot exactly when they are the same modulo the capacity; otherwise their bytes
      are apart. */
  lemma SlotsAreInside(mapped: nat, h: Header, i: nat, j: nat)
    requires h.Words() && Accepts(mapped, h)
    ensures And(i, h.mask) == SlotOf(i, h.capacity)
    ensures OFF_HEAD + 8 <= OFF_TAIL && OFF_TAIL + 8 <= SlotFrom(h, i) && SlotFrom(h, i) + h.slot <= mapped
    ensures SlotOf(i, h.capacity) == SlotOf(j, h.capacity) ==> SlotFrom(h, i) == SlotFrom(h, j)
    ensures SlotOf(i, h.capacity) != SlotOf(j, h.capacity) ==>
              SlotFrom(h, i) + h.slot <= SlotFrom(h, j) || SlotFrom(h, j) + h.slot <= SlotFrom(h, i)
  {
    hide *;
    SlotAt(mapped, h, i);
    SlotAt(mapped, h, j);
    PlacesApart(SlotOf(i, h.capacity), SlotOf(j, h.capacity), h.capacity, h.slot);
    Bounds(h.capacity * h.slot, SlotOf(i, h.capacity) * h.slot, SlotOf(j, h.capacity) * h.slot, h.slot, mapped);
  }

  lemma Bounds(whole: int, a: int, b: int, slot: int, mapped: int)
    requires 0 <= a && a + slot <= whole && HEADER_BYTES + whole <= mapped
    ensures OFF_HEAD + 8 <= OFF_TAIL && OFF_TAIL + 8 <= HEADER_BYTES + a && HEADER_BYTES + a + slot <= mapped
  {
  }

  lemma PlacesApart(a: nat, b: nat, capacity: nat, slot: nat)
    requires a < capacity && b < capacity
    ensures 0 <= a * slot && a * slot + slot <= capacity * slot
    ensures a < b ==> a * slot + slot <= b * slot
    ensures b < a ==> b * slot + slot <= a * slot
  {
    Scaled(0, a, slot);
    Apart(a, capacity, slot);
    if a < b {
      Apart(a, b, slot);
    } else if b < a {
      Apart(b, a, slot);
    }
  }

  lemma SlotAt(mapped: nat, h: Header, i: nat)
    requires Accepts(mapped, h)
    ensures h.capacity > 0 && And(i, h.mask) == SlotOf(i, h.capacity) < h.capacity
    ensures SlotFrom(h, i) == HEADER_BYTES + SlotOf(i, h.capacity) * h.slot
    ensures HEADER_BYTES + h.capacity * h.slot <= mapped
  {
    PowerTest(h.capacity);
    MaskIsRemainder(i, h.capacity);
    hide And, PowerOfTwo;
  }
}
