/** Free-running 32-bit ring pointers and the 16-bit pointer registers of the NIC. */
module Pointers {
  import opened Common

  /** Masking a wrapped pointer to the ring gives the slot of the true pointer. */
  lemma WrapKeepsSlot(p: nat)
    ensures Wrap32(p) % 256 == p % 256
    ensures Wrap32(p) % 65536 == p % 65536
  {
    var k := p / 0x1_0000_0000;
    assert p == Wrap32(p) + 65536 * (65536 * k);
    AddMultiple(Wrap32(p), 65536 * k);
    AddMultipleOf256(Wrap32(p), 0x100_0000 * k);
  }

  /** The difference of two wrapped pointers is the true distance. */
  lemma WrapDistance(a: nat, b: nat)
    requires b <= a < b + 0x1_0000_0000
    ensures Wrap32(Wrap32(a) - Wrap32(b)) == a - b
    ensures Wrap32(a) == Wrap32(b) <==> a == b
  {
  }

  lemma WrapStep(a: nat)
    ensures Wrap32(Wrap32(a) + 1) == Wrap32(a + 1)
  {
  }

  lemma WrapAdd(a: nat, n: nat)
    ensures Wrap32(Wrap32(a) + n) == Wrap32(a + n)
  {
  }

  /** `ptr += (reg - ptr) & hw_ptr_mask`, all in 32-bit words. */
  function Widen(ptr: nat, reg: nat): (r: nat)
    ensures r < 0x1_0000_0000
  {
    Wrap32(ptr + Wrap32(reg - ptr) % 65536)
  }

  /**
   Reading a 16-bit register recovers the true pointer exactly when it advanced by less than
   65536 since it was last read.
   */
  lemma WidenRecovers(last: nat, now: nat)
    requires last <= now < last + 0x1_0000_0000
    ensures Widen(Wrap32(last), now % 65536) == Wrap32(now) <==> now - last < 65536
  {
    var d := (now - last) % 65536;
    WidenDistance(last, now);
    WrapAdd(last, d);
    assert Widen(Wrap32(last), now % 65536) == Wrap32(last + d);
    if Wrap32(last + d) == Wrap32(now) {
      WrapDistance(now, last + d);
    }
  }

  lemma WidenDistance(last: nat, now: nat)
    requires last <= now
    ensures Wrap32(now % 65536 - Wrap32(last)) % 65536 == (now - last) % 65536
  {
    var x := now % 65536 - Wrap32(last);
    var q := now / 65536;
    var w := last / 0x1_0000_0000;
    var u := x / 0x1_0000_0000;
    assert now == 65536 * q + now % 65536;
    assert last == 0x1_0000_0000 * w + Wrap32(last);
    assert x == 0x1_0000_0000 * u + Wrap32(x);
    assert now - last == Wrap32(x) + 65536 * (q - 65536 * w + 65536 * u);
    AddMultiple(Wrap32(x), q - 65536 * w + 65536 * u);
  }

  lemma AddMultiple(a: int, k: int)
    ensures (a + 65536 * k) % 65536 == a % 65536
  {
  }

  lemma AddMultipleOf256(a: int, k: int)
    ensures (a + 256 * k) % 256 == a % 256
  {
  }
}
