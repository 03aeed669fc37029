/** The address arithmetic of linear hashing: powers of two, masks, and what one split does to every key. */
module HashArithmetic {
  import opened Sequences

  /** Bitwise and of two unsigned words. */
  function BitAnd(a: nat, b: nat): nat
    decreases a
  {
    if a == 0 then 0 else 2 * BitAnd(a / 2, b / 2) + (a % 2) * (b % 2)
  }

  /** Larson's address function: modulo the smaller table, or the larger one if that bucket has been split. */
  function BucketOf(h: nat, split: nat, max: nat): (b: nat)
    requires split <= max && max > 0
    ensures b < max + split
  {
    LargerMod(h, max);
    if Mod(h, max) < split then Mod(h, 2 * max) else Mod(h, max)
  }

  function Mod(h: nat, m: nat): (r: nat)
    requires m > 0
    ensures r < m
  {
    h % m
  }

  /** hashWord's masks compute Larson's address. */
  lemma MasksAddress(h: nat, split: nat, max: nat, level: nat)
    requires split <= max == Pow2(level)
    ensures var b := BitAnd(h, max - 1);
            BucketOf(h, split, max) == if b < split then BitAnd(h, 2 * max - 1) else b
  {
    hide Mod, BitAnd;
    MaskIsMod(h, level);
    MaskIsMod(h, level + 1);
  }

  /** Masking with 2^n - 1 is the remainder modulo 2^n. */
  lemma {:induction false} MaskIsMod(h: nat, n: nat)
    ensures BitAnd(h, Pow2(n) - 1) == Mod(h, Pow2(n))
    decreases h
  {
    if n == 0 {
      MaskZero(h);
      ModUnique(h, 1, h, 0);
    } else if h > 0 {
      var p := Pow2(n - 1);
      MaskIsMod(h / 2, n - 1);
      HalfMod(h, p);
      MaskStep(h, p);
      assert BitAnd(h, 2 * p - 1) == h % (2 * p);
    } else {
      ModUnique(0, Pow2(n), 0, 0);
    }
  }

  lemma MaskStep(h: nat, p: nat)
    requires p > 0 && h > 0
    ensures BitAnd(h, 2 * p - 1) == 2 * BitAnd(h / 2, p - 1) + h % 2
  {
    assert (2 * p - 1) / 2 == p - 1 && (2 * p - 1) % 2 == 1;
  }

  lemma MaskZero(h: nat)
    ensures BitAnd(h, 0) == 0
  {
  }

  lemma HalfMod(h: nat, p: nat)
    requires p > 0
    ensures h % (2 * p) == 2 * ((h / 2) % p) + h % 2
  {
    var q, r := (h / 2) / p, (h / 2) % p;
    assert h == (2 * p) * q + (2 * r + h % 2);
    ModUnique(h, 2 * p, q, 2 * r + h % 2);
  }

  lemma ModUnique(h: nat, m: nat, q: nat, r: nat)
    requires m > 0 && h == m * q + r && r < m
    ensures h % m == r && h / m == q
  {
    MulSteps(m, q, h / m);
    MulSteps(m, h / m, q);
  }

  lemma {:induction false} MulSteps(m: nat, a: nat, b: nat)
    ensures a < b ==> m * a + m <= m * b
  {
    if a < b {
      MulSteps(m, a, b - 1);
      Distribute(m, b - 1, 1);
    }
  }

  lemma Distribute(m: int, x: int, y: int)
    ensures m * (x + y) == m * x + m * y
  {
  }

  /** The larger table refines the smaller: a key stays in its bucket or moves up by `m`. */
  lemma LargerMod(h: nat, m: nat)
    requires m > 0
    ensures Mod(h, 2 * m) == Mod(h, m) || Mod(h, 2 * m) == Mod(h, m) + m
  {
    var q, r := h / m, Mod(h, m);
    DivMod(h, m);
    TwiceHalf(m, q / 2, q % 2);
    ModUnique(h, 2 * m, q / 2, if q % 2 == 0 then r else r + m);
  }

  lemma DivMod(h: nat, m: nat)
    requires m > 0
    ensures h == m * (h / m) + Mod(h, m)
  {
  }

  lemma TwiceHalf(m: nat, half: nat, odd: nat)
    ensures m * (2 * half + odd) == 2 * m * half + m * odd
  {
    Distribute(m, 2 * half, odd);
    Distribute(m, half, half);
    Distribute(half, m, m);
    assert m * (2 * half) == m * half + m * half;
    assert 2 * m * half == half * (m + m);
  }

  /** The tables after one more bucket has been split. */
  function NextSplit(split: nat, max: nat): nat { if split + 1 == max then 0 else split + 1 }
  function NextMax(split: nat, max: nat): nat { if split + 1 == max then 2 * max else max }

  /** One expansion step moves keys only out of bucket `split`, and only into the new bucket `max + split`. */
  lemma SplitMoves(h: nat, split: nat, max: nat)
    requires split < max
    ensures var b := BucketOf(h, split, max);
            var b' := BucketOf(h, NextSplit(split, max), NextMax(split, max));
            if b == split then b' == split || b' == max + split else b' == b
  {
    hide Mod;
    LargerMod(h, max);
    LargerMod(h, 2 * max);
  }
}
