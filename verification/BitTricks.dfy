/** Bit arithmetic used by the queue: bitwise operations on the binary digits of a number, and the 64-bit
    words of the source as numbers below two to the power of 64. */
module BitTricks {

  // ------------------------------------------------------------------ powers of two

  predicate PowerOfTwo(n: nat) {
    n == 1 || (n != 0 && n % 2 == 0 && PowerOfTwo(n / 2))
  }

  /** The least power of two from `p` on that is at least `x`. */
  function CeilPow2(x: nat, p: nat := 1): (r: nat)
    requires PowerOfTwo(p)
    ensures PowerOfTwo(r) && x <= r && p <= r && (p < x ==> r < 2 * x) && (x <= p ==> r == p)
    decreases x - p
  {
    if x <= p then p else CeilPow2(x, 2 * p)
  }

  /** Powers of two are at least a factor of two apart. */
  lemma {:induction false} PowersApart(a: nat, b: nat)
    requires PowerOfTwo(a) && PowerOfTwo(b) && a <= b < 2 * a
    ensures a == b
  {
    if a != 1 { PowersApart(a / 2, b / 2); }
  }

  // ------------------------------------------------------------------ binary digits

  function Or(a: nat, b: nat): nat {
    if a == 0 then b
    else if b == 0 then a
    else 2 * Or(a / 2, b / 2) + if a % 2 == 1 || b % 2 == 1 then 1 else 0
  }

  function And(a: nat, b: nat): nat {
    if a == 0 || b == 0 then 0
    else 2 * And(a / 2, b / 2) + if a % 2 == 1 && b % 2 == 1 then 1 else 0
  }

  /** `x >> k`. */
  function Shr(x: nat, k: nat): nat {
    if k == 0 then x else Shr(x / 2, k - 1)
  }

  lemma OrDigits(a: nat, b: nat)
    ensures Or(a, b) / 2 == Or(a / 2, b / 2)
    ensures Or(a, b) % 2 == if a % 2 == 1 || b % 2 == 1 then 1 else 0
  {
  }

  lemma {:induction false} OrAssociates(a: nat, b: nat, c: nat)
    ensures Or(Or(a, b), c) == Or(a, Or(b, c))
  {
    if a != 0 && b != 0 && c != 0 {
      OrDigits(a, b);
      OrDigits(b, c);
      OrAssociates(a / 2, b / 2, c / 2);
    }
  }

  lemma {:induction false} ShrOfOr(a: nat, b: nat, k: nat)
    ensures Shr(Or(a, b), k) == Or(Shr(a, k), Shr(b, k))
  {
    if k != 0 {
      OrDigits(a, b);
      ShrOfOr(a / 2, b / 2, k - 1);
    }
  }

  lemma {:induction false} ShrOfShr(x: nat, j: nat, k: nat)
    ensures Shr(Shr(x, j), k) == Shr(x, j + k)
  {
    if j != 0 { ShrOfShr(x / 2, j - 1, k); }
  }

  // ------------------------------------------------------------------ wrapping round with a mask

  /** Masking with `size - 1` leaves what is below the size and makes the size zero. */
  lemma {:induction false} MaskWraps(x: nat, size: nat)
    requires PowerOfTwo(size) && x <= size
    ensures And(x, size - 1) == if x == size then 0 else x
  {
    if size != 1 {
      assert (size - 1) / 2 == size / 2 - 1 && (size - 1) % 2 == 1;
      MaskWraps(x / 2, size / 2);
    }
  }

  // ------------------------------------------------------------------ the next power of two

  /** Or-ing `n` shifts of `x` by 0, 1, 2 and so on. */
  function Shifts(x: nat, n: nat): nat {
    if n == 0 then 0 else Or(x, Shifts(x / 2, n - 1))
  }

  lemma {:induction false} ShiftsAdd(x: nat, m: nat, n: nat)
    ensures Shifts(x, m + n) == Or(Shifts(x, m), Shifts(Shr(x, m), n))
  {
    if m != 0 {
      ShiftsAdd(x / 2, m - 1, n);
      OrAssociates(x, Shifts(x / 2, m - 1), Shifts(Shr(x, m), n));
    }
  }

  lemma {:induction false} ShrOfShifts(x: nat, n: nat, k: nat)
    ensures Shr(Shifts(x, n), k) == Shifts(Shr(x, k), n)
    decreases n
  {
    if n == 0 {
      ShrOfZero(k);
    } else {
      ShrOfOr(x, Shifts(x / 2, n - 1), k);
      ShrOfShifts(x / 2, n - 1, k);
      ShrOfShr(x, 1, k);
      ShrOfShr(x, k, 1);
    }
  }

  lemma {:induction false} ShrOfZero(k: nat)
    ensures Shr(0, k) == 0
  {
    if k != 0 { ShrOfZero(k - 1); }
  }

  /** One step of `x |= x >> k` doubles the number of shifts. */
  lemma Doubling(x: nat, k: nat)
    ensures Or(Shifts(x, k), Shr(Shifts(x, k), k)) == Shifts(x, 2 * k)
  {
    ShiftsAdd(x, k, k);
    ShrOfShifts(x, k, k);
  }

  /** All binary digits from the highest one down are set. */
  function Filled(x: nat): nat {
    if x == 0 then 0 else 2 * Filled(x / 2) + 1
  }

  lemma {:induction false} FilledIsPow2(x: nat)
    ensures PowerOfTwo(Filled(x) + 1)
  {
    if x != 0 {
      FilledIsPow2(x / 2);
      assert (Filled(x) + 1) / 2 == Filled(x / 2) + 1;
    }
  }

  lemma {:induction false} FilledBounds(x: nat)
    ensures x <= Filled(x) && (0 < x ==> Filled(x) < 2 * x)
  {
    if x != 0 { FilledBounds(x / 2); }
  }

  lemma {:induction false} OrFilled(x: nat)
    ensures Or(x, Filled(x / 2)) == Filled(x)
  {
    if 1 < x {
      OrFilled(x / 2);
      OrDigits(x, Filled(x / 2));
      hide Or;
      assert Filled(x / 2) / 2 == Filled(x / 2 / 2);
    }
  }

  function TwoTo(n: nat): nat {
    if n == 0 then 1 else 2 * TwoTo(n - 1)
  }

  lemma {:induction false} ShiftsFill(x: nat, n: nat)
    requires x < TwoTo(n)
    ensures Shifts(x, n) == Filled(x)
  {
    if n != 0 {
      ShiftsFill(x / 2, n - 1);
      OrFilled(x);
    }
  }

  lemma {:induction false} TwoToIsPow2(n: nat)
    ensures PowerOfTwo(TwoTo(n))
  {
    if n != 0 { TwoToIsPow2(n - 1); }
  }

  lemma ByteMore(n: nat)
    ensures TwoTo(n + 8) == 256 * TwoTo(n)
  {
    assert TwoTo(n + 4) == 2 * TwoTo(n + 3) == 4 * TwoTo(n + 2) == 8 * TwoTo(n + 1) == 16 * TwoTo(n);
    assert TwoTo(n + 8) == 2 * TwoTo(n + 7) == 4 * TwoTo(n + 6) == 8 * TwoTo(n + 5) == 16 * TwoTo(n + 4);
  }

  lemma FourBytesMore(n: nat)
    ensures TwoTo(n + 32) == 0x1_0000_0000 * TwoTo(n)
  {
    hide TwoTo;
    ByteMore(n);
    ByteMore(n + 8);
    ByteMore(n + 16);
    ByteMore(n + 24);
  }

  const WORD: nat := 0x1_0000_0000_0000_0000

  lemma WordIsTwoTo(bits: nat)
    requires bits == 64
    ensures TwoTo(bits) == WORD
  {
    var none := bits - 64;
    assert TwoTo(none) == 1;
    hide TwoTo;
    FourBytesMore(none);
    FourBytesMore(none + 32);
  }

  lemma FilledIsCeil(x: nat)
    requires 0 < x
    ensures Filled(x - 1) + 1 == CeilPow2(x)
  {
    FilledIsPow2(x - 1);
    FilledBounds(x - 1);
    var a, b := Filled(x - 1) + 1, CeilPow2(x);
    hide Filled, CeilPow2, PowerOfTwo;
    if a <= b { PowersApart(a, b); } else { PowersApart(b, a); }
  }

  /** The smeared word is all ones if its highest digit is set. */
  lemma FilledIsFull(y: nat, bits: nat)
    requires TwoTo(bits) / 2 <= y < TwoTo(bits) && 0 < bits
    ensures Filled(y) + 1 == TwoTo(bits)
  {
    TwoToIsPow2(bits);
    FilledIsPow2(y);
    FilledBounds(y);
    var a, b := Filled(y) + 1, TwoTo(bits);
    assert b % 2 == 0;
    hide Filled, PowerOfTwo, TwoTo;
    if a <= b { PowersApart(a, b); } else { PowersApart(b, a); }
  }

  lemma FilledWraps(x: nat, y: nat, bits: nat)
    requires TwoTo(bits) == WORD && 0 < bits
    requires x < WORD && y == if x == 0 then WORD - 1 else x - 1
    ensures (Filled(y) + 1) % WORD == if x == 0 || WORD / 2 < x then 0 else CeilPow2(x)
  {
    if x == 0 || WORD / 2 < x {
      FilledIsFull(y, bits);
    } else {
      FilledIsCeil(x);
      hide Filled;
    }
  }

  /** `ceilToPow2` on a 64-bit word: decrement, smear the highest digit down, increment. It is the least
      power of two not below the argument, and zero if there is none or the argument is zero. */
  method CeilToPow2(x: nat) returns (r: nat)
    requires x < WORD
    ensures r == if x == 0 || WORD / 2 < x then 0 else CeilPow2(x)
  {
    hide Or, Shr, CeilPow2, Filled;
    r := if x == 0 then WORD - 1 else x - 1;
    ghost var y := r;
    OneShift(y);
    Doubling(y, 1);
    r := Or(r, Shr(r, 1));
    Doubling(y, 2);
    r := Or(r, Shr(r, 2));
    Doubling(y, 4);
    r := Or(r, Shr(r, 4));
    hide Shifts;
    var i := 1;
    while i < 8
      invariant i in {1, 2, 4, 8} && r == Shifts(y, 8 * i)
    {
      Doubling(y, 8 * i);
      r := Or(r, Shr(r, 8 * i));
      i := 2 * i;
    }
    WordIsTwoTo(8 * i);
    ShiftsFill(y, 8 * i);
    FilledWraps(x, y, 8 * i);
    r := (r + 1) % WORD;
  }

  lemma OneShift(x: nat)
    ensures Shifts(x, 1) == x
  {
    assert Shifts(x / 2, 0) == 0;
  }
}
