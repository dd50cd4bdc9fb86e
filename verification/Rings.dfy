/** Slot numbers of the two circular buffers. */
module Rings {
  import opened Bytes

  function Index(k: nat, size: nat): (i: nat)
    requires size > 0
    ensures i < size
  {
    k % size
  }

  lemma IndexSmall(k: nat, size: nat)
    requires k < size
    ensures Index(k, size) == k
  {
  }

  /** Fewer than size consecutive sequence numbers never share a slot. */
  lemma IndexInjective(a: nat, b: nat, size: nat)
    requires size > 0 && a < b < a + size
    ensures Index(a, size) != Index(b, size)
  {
    if a % size == b % size {
      var qa, qb := a / size, b / size;
      assert a == size * qa + a % size && b == size * qb + b % size;
      assert b - a == size * (qb - qa) by { Distribute(size, qb, qa); }
      if qb > qa {
        AtLeastOnce(size, qb - qa);
      }
      assert false;
    }
  }

  lemma Distribute(x: int, a: int, b: int)
    ensures x * a - x * b == x * (a - b)
  {
  }

  lemma AtLeastOnce(x: nat, k: nat)
    requires k >= 1
    ensures x * k >= x
  {
  }

  lemma IndexPeriod(k: nat, size: nat)
    requires size > 0
    ensures Index(k + size, size) == Index(k, size)
  {
    var q, r := k / size, k % size;
    assert k == size * q + r;
    assert k + size == size * (q + 1) + r;
    ModUnique(k + size, q + 1, r, size);
  }

  lemma ModUnique(n: nat, q: nat, r: nat, size: nat)
    requires r < size && n == size * q + r
    ensures n % size == r
  {
    var q', r' := n / size, n % size;
    assert n == size * q' + r';
    Distribute(size, q, q');
    if q < q' {
      AtLeastOnce(size, q' - q);
      Distribute(size, q', q);
    } else if q > q' {
      AtLeastOnce(size, q - q');
    }
  }
}
