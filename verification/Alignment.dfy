/** Rounding sizes up to an alignment: the arithmetic form, and the mask form on machine words. */
module Alignment {

  function Pow2(n: nat): (p: nat)
    ensures p >= 1
  {
    if n == 0 then 1 else 2 * Pow2(n - 1)
  }

  function PaddingLen(align: nat, size: nat): (padding: nat)
    requires align > 0
    ensures padding < align
  {
    (align - size % align) % align
  }

  function AlignUp(align: nat, size: nat): nat
    requires align > 0
  {
    size + PaddingLen(align, size)
  }

  /** The low `bits` bits that `x` and `y` have in common. */
  function And(x: nat, y: nat, bits: nat): nat {
    if bits == 0 then 0
    else 2 * And(x / 2, y / 2, bits - 1) + (if x % 2 == 1 && y % 2 == 1 then 1 else 0)
  }

  function Complement(x: nat, bits: nat): nat
    requires x < Pow2(bits)
  {
    Pow2(bits) - 1 - x
  }

  /** `(size + mask) & ~mask` for the alignment `2^log`, where `size_t` has `bits` bits. */
  function AlignedByMask(log: nat, size: nat, bits: nat): nat
    requires log <= bits
  {
    Pow2Monotonic(log, bits);
    var mask := Pow2(log) - 1;
    And((size + mask) % Pow2(bits), Complement(mask, bits), bits)
  }

  // ----- the arithmetic form -----

  lemma AtLeast(d: int, align: nat)
    requires d >= 1
    ensures d * align >= align
  {
    assert (d - 1) * align >= 0;
    assert d * align == (d - 1) * align + align;
  }

  lemma QuotientUnique(p: int, r: int, q: int, s: int, align: nat)
    requires align > 0 && 0 <= r < align && 0 <= s < align
    requires p * align + r == q * align + s
    ensures p == q && r == s
  {
    assert (p - q) * align == p * align - q * align == s - r;
    if p > q {
      AtLeast(p - q, align);
    } else if p < q {
      AtLeast(q - p, align);
    }
  }

  lemma AddMultiple(q: int, align: nat, r: int)
    requires align > 0 && 0 <= r < align
    ensures (q * align + r) % align == r && (q * align + r) / align == q
  {
    var x := q * align + r;
    QuotientUnique(x / align, x % align, q, r, align);
  }

  /** The rounded size is the least multiple of the alignment not below the size. */
  lemma AlignUpIsLeast(align: nat, size: nat, multiple: nat)
    requires align > 0
    ensures AlignUp(align, size) % align == 0
    ensures size <= AlignUp(align, size) < size + align
    ensures multiple % align == 0 && multiple >= size ==> multiple >= AlignUp(align, size)
  {
    var q, r := size / align, size % align;
    PaddingCases(align, size);
    if r == 0 {
    } else {
      var up := q * align + align;
      assert AlignUp(align, size) == up == (q + 1) * align + 0;
      AddMultiple(q + 1, align, 0);
      if multiple % align == 0 && size <= multiple < up {
        var k := multiple / align;
        assert multiple == k * align;
        if k <= q {
          NoMore(k, q, align);
        } else {
          NoMore(q + 1, k, align);
        }
      }
    }
  }

  lemma NoMore(p: int, q: int, align: nat)
    requires p <= q
    ensures p * align <= q * align
  {
    assert (q - p) * align >= 0;
    assert q * align == p * align + (q - p) * align;
  }

  lemma PaddingCases(align: nat, size: nat)
    requires align > 0
    ensures size == (size / align) * align + size % align
    ensures AlignUp(align, size) == if size % align == 0 then size else size - size % align + align
  {
    var r := size % align;
    if r == 0 {
      AddMultiple(1, align, 0);
    } else {
      AddMultiple(0, align, align - r);
    }
  }

  // ----- the mask form -----

  lemma {:induction false} Pow2Monotonic(m: nat, n: nat)
    requires m <= n
    ensures Pow2(m) <= Pow2(n)
  {
    if m < n {
      Pow2Monotonic(m, n - 1);
    }
  }

  lemma HalfModulo(x: nat, p: nat)
    requires p > 0
    ensures x % (2 * p) == 2 * ((x / 2) % p) + x % 2
  {
    var q, r := x / 2 / p, x / 2 % p;
    assert x / 2 == q * p + r && x == 2 * (x / 2) + x % 2;
    assert x == q * (2 * p) + (2 * r + x % 2);
    AddMultiple(q, 2 * p, 2 * r + x % 2);
  }

  lemma {:induction false} AndAllOnes(x: nat, bits: nat)
    requires x < Pow2(bits)
    ensures And(x, Pow2(bits) - 1, bits) == x
  {
    if bits > 0 {
      AndAllOnes(x / 2, bits - 1);
      assert (Pow2(bits) - 1) / 2 == Pow2(bits - 1) - 1;
    }
  }

  lemma HalfComplement(log: nat, bits: nat)
    requires 0 < log <= bits
    ensures Pow2(log) <= Pow2(bits) && Pow2(log - 1) <= Pow2(bits - 1)
    ensures Complement(Pow2(log) - 1, bits) == 2 * Complement(Pow2(log - 1) - 1, bits - 1)
  {
    Pow2Monotonic(log, bits);
    Pow2Monotonic(log - 1, bits - 1);
  }

  /** A word whose lowest bit is clear, seen bit by bit. */
  lemma AndEven(x: nat, y: nat, bits: nat)
    requires bits > 0
    ensures And(x, 2 * y, bits) == 2 * And(x / 2, y, bits - 1)
  {
    assert 2 * y / 2 == y && 2 * y % 2 == 0;
  }

  /** `x` with its lowest `log` bits cleared, and the lowest `bits` bits of `x`. */
  function Down(x: nat, log: nat): nat {
    if log == 0 then x else 2 * Down(x / 2, log - 1)
  }

  function Low(x: nat, bits: nat): nat {
    if bits == 0 then 0 else 2 * Low(x / 2, bits - 1) + x % 2
  }

  lemma {:induction false} LowIsRemainder(x: nat, bits: nat)
    ensures Low(x, bits) == x % Pow2(bits)
  {
    if bits > 0 {
      LowIsRemainder(x / 2, bits - 1);
      HalfModulo(x, Pow2(bits - 1));
    }
  }

  lemma {:induction false} DownIsMultiple(x: nat, log: nat)
    ensures Down(x, log) == x - x % Pow2(log)
  {
    if log > 0 {
      DownIsMultiple(x / 2, log - 1);
      HalfModulo(x, Pow2(log - 1));
    }
  }

  /** The complement of the mask clears the lowest `log` bits of a machine word. */
  lemma {:induction false} AndClearsLowBits(x: nat, log: nat, bits: nat)
    requires log <= bits && Pow2(log) - 1 < Pow2(bits)
    ensures And(Low(x, bits), Complement(Pow2(log) - 1, bits), bits) == Low(Down(x, log), bits)
  {
    if log == 0 {
      LowFits(x, bits);
      AndAllOnes(Low(x, bits), bits);
    } else {
      HalfComplement(log, bits);
      AndClearsLowBits(x / 2, log - 1, bits - 1);
      AndEven(Low(x, bits), Complement(Pow2(log - 1) - 1, bits - 1), bits);
      assert Low(x, bits) / 2 == Low(x / 2, bits - 1);
      assert Down(x, log) / 2 == Down(x / 2, log - 1);
    }
  }

  lemma {:induction false} LowFits(x: nat, bits: nat)
    ensures Low(x, bits) < Pow2(bits)
  {
    if bits > 0 {
      LowFits(x / 2, bits - 1);
    }
  }

  lemma RoundDown(align: nat, size: nat)
    requires align > 0
    ensures (size + (align - 1)) - (size + (align - 1)) % align == AlignUp(align, size)
  {
    var q, r := size / align, size % align;
    PaddingCases(align, size);
    if r == 0 {
      AddMultiple(q, align, align - 1);
    } else {
      assert size + (align - 1) == (q + 1) * align + (r - 1);
      AddMultiple(q + 1, align, r - 1);
    }
  }

  lemma Remainder(x: nat, word: nat)
    requires word > 0
    ensures x % word == x <==> x < word
  {
    if x < word {
      AddMultiple(0, word, x);
    }
  }

  lemma DownIsRounded(log: nat, size: nat)
    ensures Down(size + (Pow2(log) - 1), log) == AlignUp(Pow2(log), size)
  {
    DownIsMultiple(size + (Pow2(log) - 1), log);
    RoundDown(Pow2(log), size);
  }

  /** The mask form is the rounded size modulo the machine word. */
  lemma MaskIsRoundedModuloWord(log: nat, size: nat, bits: nat)
    requires log <= bits
    ensures AlignedByMask(log, size, bits) == AlignUp(Pow2(log), size) % Pow2(bits)
  {
    var mask := Pow2(log) - 1;
    Pow2Monotonic(log, bits);
    calc {
      AlignedByMask(log, size, bits);
      { LowIsRemainder(size + mask, bits); }
      And(Low(size + mask, bits), Complement(mask, bits), bits);
      { AndClearsLowBits(size + mask, log, bits); }
      Low(Down(size + mask, log), bits);
      { DownIsRounded(log, size); }
      Low(AlignUp(Pow2(log), size), bits);
      { LowIsRemainder(AlignUp(Pow2(log), size), bits); }
      AlignUp(Pow2(log), size) % Pow2(bits);
    }
  }

  /** The mask form is the rounded size as far as it fits: the two agree exactly when the rounded size
      is still a `size_t`. */
  lemma MaskRoundsUp(log: nat, size: nat, bits: nat)
    requires log <= bits && size < Pow2(bits)
    ensures AlignedByMask(log, size, bits) == AlignUp(Pow2(log), size) % Pow2(bits)
    ensures AlignedByMask(log, size, bits) == AlignUp(Pow2(log), size) <==> AlignUp(Pow2(log), size) < Pow2(bits)
  {
    MaskIsRoundedModuloWord(log, size, bits);
    Remainder(AlignUp(Pow2(log), size), Pow2(bits));
  }
}
