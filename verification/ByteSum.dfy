/** The sum of declared file sizes in binary64 arithmetic and the safe-integer test on it. */
module ByteSum {

  /** 2^53: integers below it have at most 53 significant bits. */
  const P: nat := 9007199254740992
  const MAX_SAFE: nat := P - 1

  // ----- Rounding to 53 significant bits (roundTiesToEven, section 4.3.1 of IEEE 754-2019) -----

  /** The distance of neighbouring representable integers around `n`. */
  function Ulp(n: nat): nat {
    if n < P then 1 else 2 * Ulp(n / 2)
  }

  /** The largest representable integer that is at most `n`. */
  function Below(n: nat): nat {
    if n < P then n else 2 * Below(n / 2)
  }

  /** The 53-bit significand of `n`, cut off, is even. */
  predicate EvenSignificand(n: nat) {
    if n < P then n % 2 == 0 else EvenSignificand(n / 2)
  }

  function Round(n: nat): nat {
    var lo := Below(n);
    var hi := lo + Ulp(n);
    if n - lo < hi - n || (n - lo == hi - n && EvenSignificand(n)) then lo else hi
  }

  /** An integer of at most 53 significant bits followed by zeros. */
  predicate Representable(n: nat) {
    n < P || (n % 2 == 0 && Representable(n / 2))
  }

  function Pow2(e: nat): nat {
    if e == 0 then 1 else 2 * Pow2(e - 1)
  }

  predicate IsScaled(n: nat, q: nat, e: nat) {
    q < P && n == q * Pow2(e)
  }

  lemma {:induction false} Scaled(n: nat) returns (q: nat, e: nat)
    requires Representable(n)
    ensures IsScaled(n, q, e)
  {
    if n < P {
      q, e := n, 0;
    } else {
      var f;
      q, f := Scaled(n / 2);
      e := f + 1;
      Doubled(q, f);
    }
  }

  lemma Doubled(q: nat, e: nat)
    ensures q * Pow2(e + 1) == 2 * (q * Pow2(e))
  {}

  lemma {:induction false} ScaledRepresentable(q: nat, e: nat)
    requires q < P
    ensures Representable(q * Pow2(e))
  {
    if e > 0 {
      Doubled(q, e - 1);
      ScaledRepresentable(q, e - 1);
    }
  }

  /** The representable integers are the q * 2^e with a significand q of at most 53 bits. */
  lemma RepresentableMeans(n: nat)
    ensures Representable(n) <==> exists q: nat, e: nat :: IsScaled(n, q, e)
  {
    if Representable(n) {
      var q, e := Scaled(n);
    }
    if q: nat, e: nat :| IsScaled(n, q, e) {
      ScaledRepresentable(q, e);
    }
  }

  lemma {:induction false} BelowBounds(n: nat)
    ensures Below(n) <= n < Below(n) + Ulp(n)
    ensures n >= P ==> Below(n) >= P
    ensures Representable(Below(n)) && Representable(Below(n) + Ulp(n))
  {
    if n >= P {
      BelowBounds(n / 2);
    }
  }

  /** Nothing representable lies strictly between the two neighbours of `n`. */
  lemma {:induction false} NothingBetween(n: nat, m: nat)
    requires Representable(m)
    ensures m <= Below(n) || m >= Below(n) + Ulp(n)
  {
    if n >= P {
      BelowBounds(n);
      if m >= P {
        NothingBetween(n / 2, m / 2);
      }
    }
  }

  function Distance(a: nat, b: nat): nat {
    if a <= b then b - a else a - b
  }

  /** Rounding gives a representable integer, and none is closer. */
  lemma RoundNearest(n: nat, m: nat)
    requires Representable(m)
    ensures Representable(Round(n)) && Distance(Round(n), n) <= Distance(m, n)
  {
    BelowBounds(n);
    NothingBetween(n, m);
  }

  lemma RoundExact(n: nat)
    requires Representable(n)
    ensures Round(n) == n
  {
    RoundNearest(n, n);
  }

  lemma RoundMonotone(n: nat, m: nat)
    requires n <= m
    ensures Round(n) <= Round(m)
  {
    RoundNearest(n, 0);
    RoundNearest(m, 0);
    RoundNearest(n, Round(m));
    RoundNearest(m, Round(n));
  }

  lemma {:induction false} NeighbourParity(n: nat)
    ensures EvenSignificand(Below(n)) == EvenSignificand(n)
    ensures !EvenSignificand(n) ==> EvenSignificand(Below(n) + Ulp(n))
  {
    if n >= P {
      BelowBounds(n);
      NeighbourParity(n / 2);
    }
  }

  /** Of two equally close neighbours the one with the even significand is taken. */
  lemma TiesToEven(n: nat)
    requires n - Below(n) == Below(n) + Ulp(n) - n
    ensures EvenSignificand(Round(n))
  {
    NeighbourParity(n);
  }

  // ----- The sum -----

  function Sum(sizes: seq<nat>): nat {
    if sizes == [] then 0 else Sum(sizes[..|sizes| - 1]) + sizes[|sizes| - 1]
  }

  function FloatSum(sizes: seq<nat>): nat {
    if sizes == [] then 0 else Round(FloatSum(sizes[..|sizes| - 1]) + sizes[|sizes| - 1])
  }

  /** The rounded sum is exact as long as the exact sum is at most 2^53, and at least 2^53 from then on. */
  lemma {:induction false} FloatSumTracks(sizes: seq<nat>)
    ensures Sum(sizes) <= P ==> FloatSum(sizes) == Sum(sizes)
    ensures Sum(sizes) >= P ==> FloatSum(sizes) >= P
  {
    if sizes != [] {
      var init := sizes[..|sizes| - 1];
      FloatSumTracks(init);
      var exact := FloatSum(init) + sizes[|init|];
      RoundExact(P);
      if exact <= P {
        RoundExact(exact);
      } else {
        RoundMonotone(P, exact);
      }
    }
  }

  /** The safe-integer test on the rounded sum is exact. */
  lemma SafeSumExact(sizes: seq<nat>)
    ensures FloatSum(sizes) <= MAX_SAFE <==> Sum(sizes) <= MAX_SAFE
  {
    FloatSumTracks(sizes);
  }

  /** Beyond 2^53 the rounded sum can differ from the exact one. */
  lemma RoundedSumDiffers()
    ensures Sum([P - 1, 1, 1]) == P + 1 && FloatSum([P - 1, 1, 1]) == P
  {
    assert [P - 1, 1, 1][..2] == [P - 1, 1] && [P - 1, 1][..1] == [P - 1] && [P - 1][..0] == [];
    assert Sum([P - 1]) == P - 1;
    assert Sum([P - 1, 1]) == P;
    FloatSumTracks([P - 1, 1]);
    assert FloatSum([P - 1, 1, 1]) == Round(FloatSum([P - 1, 1]) + 1);
    assert Below(P + 1) == P && Ulp(P + 1) == 2;
    assert EvenSignificand(P + 1) == EvenSignificand(P / 2);
    assert Round(P + 1) == P;
  }

  /** Adds the sizes up one after the other, as binary64 does, and tests the total. */
  method DeclaredBytesAreSafe(sizes: seq<nat>) returns (total: nat, safe: bool)
    ensures total == FloatSum(sizes)
    ensures safe <==> Sum(sizes) <= MAX_SAFE
    ensures safe ==> total == Sum(sizes)
  {
    total := 0;
    for i := 0 to |sizes|
      invariant total == FloatSum(sizes[..i])
    {
      assert sizes[..i + 1][..i] == sizes[..i];
      total := Round(total + sizes[i]);
    }
    assert sizes[..|sizes|] == sizes;
    safe := total <= MAX_SAFE;
    FloatSumTracks(sizes);
  }
}
