/**
 * Bitwise operations on the non-negative integers that machine words
 * hold: `^`, `&`, `|`, `1 << n` and the test of one bit.
 */
module Bits {

  function Pow2(n: nat): nat
  {
    if n == 0 then 1 else 2 * Pow2(n - 1)
  }

  /** Bit `k` of `x`. */
  predicate Bit(x: nat, k: nat)
  {
    if k == 0 then x % 2 == 1 else Bit(x / 2, k - 1)
  }

  /** Bitwise exclusive or. */
  function Xor(a: nat, b: nat): nat
    decreases a + b
  {
    if a == 0 then b
    else if b == 0 then a
    else (if a % 2 == b % 2 then 0 else 1) + 2 * Xor(a / 2, b / 2)
  }

  /** Bitwise and. */
  function And(a: nat, b: nat): nat
    decreases a + b
  {
    if a == 0 || b == 0 then 0
    else (if a % 2 == 1 && b % 2 == 1 then 1 else 0) + 2 * And(a / 2, b / 2)
  }

  /** Bitwise or. */
  function Or(a: nat, b: nat): nat
    decreases a + b
  {
    if a == 0 then b
    else if b == 0 then a
    else (if a % 2 == 1 || b % 2 == 1 then 1 else 0) + 2 * Or(a / 2, b / 2)
  }

  /** Exclusive or never sets a bit above the operands' width. */
  lemma {:induction false} XorBelow(a: nat, b: nat, n: nat)
    requires a < Pow2(n) && b < Pow2(n)
    ensures Xor(a, b) < Pow2(n)
    decreases n
  {
    if a != 0 && b != 0 {
      XorBelow(a / 2, b / 2, n - 1);
    }
  }

  /** Nor does or. */
  lemma {:induction false} OrBelow(a: nat, b: nat, n: nat)
    requires a < Pow2(n) && b < Pow2(n)
    ensures Or(a, b) < Pow2(n)
    decreases n
  {
    if a != 0 && b != 0 {
      OrBelow(a / 2, b / 2, n - 1);
    }
  }

  lemma {:induction false} AndBit(a: nat, b: nat, k: nat)
    ensures Bit(And(a, b), k) <==> Bit(a, k) && Bit(b, k)
    decreases k
  {
    if a == 0 || b == 0 {
      ZeroBit(k);
    } else if k > 0 {
      AndBit(a / 2, b / 2, k - 1);
    }
  }

  lemma {:induction false} OrBit(a: nat, b: nat, k: nat)
    ensures Bit(Or(a, b), k) <==> Bit(a, k) || Bit(b, k)
    decreases k
  {
    if a == 0 {
      ZeroBit(k);
    } else if b == 0 {
      ZeroBit(k);
    } else if k > 0 {
      OrBit(a / 2, b / 2, k - 1);
    }
  }

  lemma {:induction false} ZeroBit(k: nat)
    ensures !Bit(0, k)
  {
    if k > 0 {
      ZeroBit(k - 1);
    }
  }

  /** `1 << t` has bit `t` and no other. */
  lemma {:induction false} PowBit(t: nat, k: nat)
    ensures Bit(Pow2(t), k) <==> k == t
    decreases t
  {
    if t == 0 {
      if k > 0 {
        ZeroBit(k - 1);
      }
    } else if k == 0 {
    } else {
      PowBit(t - 1, k - 1);
    }
  }

  /** No bit at or above `n` is set in a number below `2^n`. */
  lemma {:induction false} BitBelow(x: nat, n: nat, k: nat)
    requires x < Pow2(n) && k >= n
    ensures !Bit(x, k)
    decreases n
  {
    if n == 0 {
      ZeroBit(k);
    } else if k > 0 {
      BitBelow(x / 2, n - 1, k - 1);
    }
  }

  /** Numbers with the same bits are equal. */
  lemma {:induction false} SameBits(x: nat, y: nat)
    requires forall k: nat :: Bit(x, k) == Bit(y, k)
    ensures x == y
    decreases x + y
  {
    if x != 0 || y != 0 {
      assert Bit(x, 0) == Bit(y, 0);
      forall k: nat
        ensures Bit(x / 2, k) == Bit(y / 2, k)
      {
        assert Bit(x, k + 1) == Bit(y, k + 1);
      }
      SameBits(x / 2, y / 2);
    }
  }

  /** A set bit of a non-zero number. */
  lemma {:induction false} LowestBit(x: nat) returns (k: nat)
    requires x != 0
    ensures Bit(x, k)
  {
    if x % 2 == 1 {
      k := 0;
    } else {
      var j := LowestBit(x / 2);
      k := j + 1;
    }
  }

  /** `(x & (1 << t)) == (1 << t)` tests bit `t` of `x`. */
  lemma MaskTest(x: nat, t: nat)
    ensures And(x, Pow2(t)) == Pow2(t) <==> Bit(x, t)
  {
    AndBit(x, Pow2(t), t);
    PowBit(t, t);
    if Bit(x, t) {
      forall k: nat
        ensures Bit(And(x, Pow2(t)), k) == Bit(Pow2(t), k)
      {
        AndBit(x, Pow2(t), k);
        PowBit(t, k);
      }
      SameBits(And(x, Pow2(t)), Pow2(t));
    }
  }

  /** `x & (1 << t)` is non-zero exactly when bit `t` of `x` is set. */
  lemma NonZeroTest(x: nat, t: nat)
    ensures And(x, Pow2(t)) != 0 <==> Bit(x, t)
  {
    AndBit(x, Pow2(t), t);
    PowBit(t, t);
    ZeroBit(t);
    if And(x, Pow2(t)) != 0 {
      var k := LowestBit(And(x, Pow2(t)));
      AndBit(x, Pow2(t), k);
      PowBit(t, k);
    }
  }

  /** `(flags & props) == props`: every bit of `props` is set in `flags`. */
  lemma SubsetTest(flags: nat, props: nat)
    ensures And(flags, props) == props <==> forall k: nat :: Bit(props, k) ==> Bit(flags, k)
  {
    if And(flags, props) == props {
      forall k: nat | Bit(props, k)
        ensures Bit(flags, k)
      {
        AndBit(flags, props, k);
      }
    } else {
      var k := SubsetWitness(flags, props);
    }
  }

  /** Where `flags & props` differs from `props`, a bit of `props` that `flags` lacks. */
  lemma SubsetWitness(flags: nat, props: nat) returns (k: nat)
    requires And(flags, props) != props
    ensures Bit(props, k) && !Bit(flags, k)
  {
    if forall j: nat :: Bit(props, j) ==> Bit(flags, j) {
      forall j: nat
        ensures Bit(And(flags, props), j) == Bit(props, j)
      {
        AndBit(flags, props, j);
      }
      SameBits(And(flags, props), props);
      assert false;
    }
    k :| Bit(props, k) && !Bit(flags, k);
  }

  lemma {:induction false} PowMonotone(a: nat, b: nat)
    requires a <= b
    ensures Pow2(a) <= Pow2(b)
    decreases b
  {
    if a < b {
      PowMonotone(a, b - 1);
    }
  }
}
