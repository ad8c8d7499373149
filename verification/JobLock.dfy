/** The advisory-lock key of a job name (apps/backend/src/jobs/lock.ts): FNV-1a, 64 bits, with the sign bit masked off. */
module JobLock {
  import opened Arith

  const OFFSET_BASIS := 0xcbf29ce484222325
  const FNV_PRIME := 0x100000001b3
  const TWO_63 := 0x8000000000000000
  const TWO_64 := 0x10000000000000000
  const MASK_64 := 0xffffffffffffffff
  const MASK_63 := 0x7fffffffffffffff

  /** FNV_PRIME * INVERSE is 1 modulo 2^64. */
  const INVERSE := 0xce965057aff6957b

  /** Bitwise `^` on non-negative BigInts. */
  function Xor(a: nat, b: nat): nat {
    if a == 0 && b == 0 then 0 else 2 * Xor(a / 2, b / 2) + if a % 2 == b % 2 then 0 else 1
  }

  /** Bitwise `&` on non-negative BigInts. */
  function And(a: nat, b: nat): nat {
    if a == 0 || b == 0 then 0 else 2 * And(a / 2, b / 2) + if a % 2 == 1 && b % 2 == 1 then 1 else 0
  }

  function Pow2(n: nat): (p: nat)
    ensures p > 0
  {
    if n == 0 then 1 else 2 * Pow2(n - 1)
  }

  lemma Powers()
    ensures Pow2(63) == TWO_63 && Pow2(64) == TWO_64
  {
    assert Pow2(4) == 16 && Pow2(3) == 8;
    PowAdd(4, 4);
    PowAdd(8, 8);
    PowAdd(16, 16);
    PowAdd(32, 16);
    PowAdd(48, 8);
    PowAdd(56, 4);
    PowAdd(60, 3);
    PowAdd(60, 4);
  }

  lemma {:induction false} PowAdd(a: nat, b: nat)
    ensures Pow2(a + b) == Pow2(a) * Pow2(b)
  {
    if a > 0 {
      PowAdd(a - 1, b);
    }
  }

  /** Masking with n ones is reduction modulo 2^n. */
  lemma {:induction false} AndMask(a: nat, n: nat)
    ensures And(a, Pow2(n) - 1) == a % Pow2(n)
  {
    if a == 0 || n == 0 {
      DivMod(a, Pow2(n), if n == 0 then a else 0, 0);
    } else {
      var p: nat := Pow2(n - 1);
      AndStep(a, p);
      AndMask(a / 2, n - 1);
      HalveMod(a, p);
    }
  }

  lemma AndStep(a: nat, p: nat)
    requires a > 0 && p > 0
    ensures And(a, 2 * p - 1) == 2 * And(a / 2, p - 1) + a % 2
  {
    var mask: nat := 2 * p - 1;
    assert mask / 2 == p - 1 && mask % 2 == 1;
  }

  lemma HalveMod(a: nat, p: nat)
    requires p > 0
    ensures a % (2 * p) == 2 * (a / 2 % p) + a % 2
  {
    var q, r := a / 2 / p, a / 2 % p;
    assert a == 2 * (q * p + r) + a % 2;
    DivMod(a, 2 * p, q, 2 * r + a % 2);
  }

  lemma {:induction false} XorUndoes(a: nat, b: nat)
    ensures Xor(Xor(a, b), b) == a
  {
    if a != 0 || b != 0 {
      var x := Xor(a, b);
      assert x / 2 == Xor(a / 2, b / 2) && (x % 2 == 0 <==> a % 2 == b % 2);
      XorUndoes(a / 2, b / 2);
    }
  }

  lemma {:induction false} XorCommutes(a: nat, b: nat)
    ensures Xor(a, b) == Xor(b, a)
  {
    if a != 0 || b != 0 {
      XorCommutes(a / 2, b / 2);
    }
  }

  lemma {:induction false} XorBound(a: nat, b: nat, n: nat)
    requires a < Pow2(n) && b < Pow2(n)
    ensures Xor(a, b) < Pow2(n)
  {
    if n > 0 {
      XorBound(a / 2, b / 2, n - 1);
    }
  }

  // ---- The hash ----

  /** One round: xor in a code unit, multiply by the prime, keep 64 bits. */
  function Round(h: nat, c: char): nat {
    And(Xor(h, c as nat) * FNV_PRIME, MASK_64)
  }

  function State(h: nat, s: string): nat {
    if s == "" then h else Round(State(h, s[..|s| - 1]), s[|s| - 1])
  }

  function Key(s: string): nat {
    And(State(OFFSET_BASIS, s), MASK_63)
  }

  method HashToBigint(s: string) returns (key: nat)
    ensures key == Key(s) && key < TWO_63
  {
    var h: nat := OFFSET_BASIS;
    for i := 0 to |s|
      invariant h == State(OFFSET_BASIS, s[..i])
    {
      assert s[..i + 1][..i] == s[..i];
      h := Xor(h, s[i] as nat);
      h := And(h * FNV_PRIME, MASK_64);
    }
    assert s[..|s|] == s;
    key := And(h, MASK_63);
    KeyMod(s);
  }

  lemma RoundMod(h: nat, c: char)
    ensures Round(h, c) == Xor(h, c as nat) * FNV_PRIME % TWO_64 < TWO_64
  {
    hide And, Xor;
    Powers();
    AndMask(Xor(h, c as nat) * FNV_PRIME, 64);
  }

  /** Multiplying by the inverse constant undoes the multiplication by the prime. */
  lemma PrimeInvertible(x: nat)
    requires x < TWO_64
    ensures x * FNV_PRIME % TWO_64 * INVERSE % TWO_64 == x
  {
    var y := x * FNV_PRIME;
    var q, r := y / TWO_64, y % TWO_64;
    var k := (FNV_PRIME * INVERSE - 1) / TWO_64;
    assert FNV_PRIME * INVERSE == k * TWO_64 + 1;
    assert r * INVERSE == y * INVERSE - q * TWO_64 * INVERSE;
    assert y * INVERSE == x * (k * TWO_64 + 1);
    DivMod(r * INVERSE, TWO_64, x * k - q * INVERSE, x);
  }

  /** For each code unit a round is injective on 64-bit states. */
  lemma RoundInjective(g: nat, h: nat, c: char)
    requires g < TWO_64 && h < TWO_64 && g != h
    ensures Round(g, c) != Round(h, c)
  {
    hide Round;
    UnitIsSmall(c);
    XorBound(g, c as nat, 64);
    XorBound(h, c as nat, 64);
    RoundMod(g, c);
    RoundMod(h, c);
    PrimeInvertible(Xor(g, c as nat));
    PrimeInvertible(Xor(h, c as nat));
    XorUndoes(g, c as nat);
    XorUndoes(h, c as nat);
  }

  /** From one state, different code units lead to different states. */
  lemma RoundSeparates(h: nat, a: char, b: char)
    requires h < TWO_64 && a != b
    ensures Round(h, a) != Round(h, b)
  {
    UnitIsSmall(a);
    UnitIsSmall(b);
    XorBound(h, a as nat, 64);
    XorBound(h, b as nat, 64);
    RoundMod(h, a);
    RoundMod(h, b);
    PrimeInvertible(Xor(h, a as nat));
    PrimeInvertible(Xor(h, b as nat));
    XorCommutes(h, a as nat);
    XorCommutes(h, b as nat);
    XorUndoes(a as nat, h);
    XorUndoes(b as nat, h);
  }

  lemma UnitIsSmall(c: char)
    ensures (c as nat) < Pow2(64) == TWO_64
  {
    Powers();
  }

  lemma StateBound(h: nat, s: string)
    requires h < TWO_64
    ensures State(h, s) < TWO_64
  {
    if s != "" {
      RoundMod(State(h, s[..|s| - 1]), s[|s| - 1]);
    }
  }

  lemma {:induction false} StateConcat(h: nat, s: string, t: string)
    ensures State(h, s + t) == State(State(h, s), t)
  {
    if t == "" {
      assert s + t == s;
    } else {
      assert (s + t)[..|s + t| - 1] == s + t[..|t| - 1];
      StateConcat(h, s, t[..|t| - 1]);
    }
  }

  /** The state map of every suffix is injective. */
  lemma {:induction false} SuffixInjective(g: nat, h: nat, suffix: string)
    requires g < TWO_64 && h < TWO_64 && g != h
    ensures State(g, suffix) != State(h, suffix)
  {
    if suffix != "" {
      var front := suffix[..|suffix| - 1];
      SuffixInjective(g, h, front);
      StateBound(g, front);
      StateBound(h, front);
      RoundInjective(State(g, front), State(h, front), suffix[|suffix| - 1]);
    }
  }

  /**
   * Two names that differ in one character have different 64-bit states, so their lock keys coincide exactly when the
   * states differ in bit 63 and nowhere else.
   */
  lemma OneCharacterApart(prefix: string, a: char, b: char, suffix: string)
    requires a != b
    ensures var s, t := prefix + [a] + suffix, prefix + [b] + suffix;
      var x, y := State(OFFSET_BASIS, s), State(OFFSET_BASIS, t);
      && x != y
      && (Key(s) == Key(t) <==> x == y + TWO_63 || y == x + TWO_63)
  {
    var h := State(OFFSET_BASIS, prefix);
    StateBound(OFFSET_BASIS, prefix);
    RoundSeparates(h, a, b);
    assert State(h, [a]) == Round(h, a) && State(h, [b]) == Round(h, b) by {
      assert [a][..0] == "" && [b][..0] == "";
    }
    StateConcat(OFFSET_BASIS, prefix, [a]);
    StateConcat(OFFSET_BASIS, prefix, [b]);
    StateBound(OFFSET_BASIS, prefix + [a]);
    StateBound(OFFSET_BASIS, prefix + [b]);
    SuffixInjective(Round(h, a), Round(h, b), suffix);
    StateConcat(OFFSET_BASIS, prefix + [a], suffix);
    StateConcat(OFFSET_BASIS, prefix + [b], suffix);
    KeysCoincide(prefix + [a] + suffix, prefix + [b] + suffix);
  }

  lemma KeyMod(s: string)
    ensures Key(s) == State(OFFSET_BASIS, s) % TWO_63
  {
    hide And;
    Powers();
    AndMask(State(OFFSET_BASIS, s), 63);
  }

  /** For any two names at all: equal keys mean equal states, up to bit 63. */
  lemma KeysCoincide(s: string, t: string)
    ensures var x, y := State(OFFSET_BASIS, s), State(OFFSET_BASIS, t);
      Key(s) == Key(t) <==> x == y || x == y + TWO_63 || y == x + TWO_63
  {
    hide State, Key;
    StateBound(OFFSET_BASIS, s);
    StateBound(OFFSET_BASIS, t);
    KeyMod(s);
    KeyMod(t);
  }
}
