/** The synthesizer arithmetic of the E4000 tuner. */
module E4000 {
  import opened Words

  const PLL_Y := 65536
  const TWO32 := 0x1_0000_0000
  const EINVAL := 22

  /** One row: below freq the oscillator runs at mult times the frequency. */
  datatype Row = Row(freq: uint32, synth7: nat, mult: nat)

  const PLL_VARS: seq<Row> := [
    Row(72400000, 15, 48), Row(81200000, 14, 40), Row(108300000, 13, 32), Row(162500000, 12, 24),
    Row(216600000, 11, 16), Row(325000000, 10, 12), Row(350000000, 9, 8), Row(432000000, 3, 8),
    Row(667000000, 2, 6), Row(1200000000, 1, 4)]

  /** The divider for a frequency. */
  function Mult(flo: uint32): (r: nat)
    ensures r in {2, 4, 6, 8, 12, 16, 24, 32, 40, 48}
  {
    if flo < 72400000 then 48 else if flo < 81200000 then 40 else if flo < 108300000 then 32
    else if flo < 162500000 then 24 else if flo < 216600000 then 16 else if flo < 325000000 then 12
    else if flo < 432000000 then 8 else if flo < 667000000 then 6 else if flo < 1200000000 then 4 else 2
  }

  datatype Params = Params(
    fosc: uint32, intended: uint32, flo: int, x: nat, z: nat, r: nat, rIdx: nat, threePhase: bool)

  /** What the register for r makes of its low three bits; bit 3 is three-phase mixing,
      without which the divider is half of that. */
  const DIVIDERS: seq<nat> := [4, 8, 12, 16, 24, 32, 40, 48]

  predicate Selects(rIdx: nat, r: nat, threePhase: bool) {
    && rIdx < 16 && (threePhase <==> rIdx >= 8)
    && DIVIDERS[rIdx % 8] == if threePhase then r else 2 * r
  }

  function Fvco(fosc: nat, z: nat, x: nat): nat { fosc * z + fosc * x / PLL_Y }

  /** compute_fvco() for the registers z and x is not above the intended frequency
      and less than one step of x and one Hertz below it. */
  ghost predicate Close(fosc: nat, intended: nat, fvco: nat) {
    fvco <= intended && PLL_Y * (intended - fvco) < fosc + PLL_Y
  }

  /** The two quotients before they are put into registers */
  ghost predicate Divided(fosc: nat, intended: nat, z: nat, x: nat) {
    && fosc * z <= intended < fosc * z + fosc
    && fosc * x <= (intended - fosc * z) * PLL_Y < fosc * x + fosc
  }

  lemma Mono(f: nat, a: nat, b: nat)
    requires a <= b
    ensures f * a <= f * b
  {
  }

  lemma CutFraction(fosc: nat, rem: nat, x: nat)
    requires fosc * x <= rem * PLL_Y < fosc * x + fosc && rem < fosc
    ensures x < PLL_Y && fosc * x / PLL_Y <= rem && PLL_Y * (rem - fosc * x / PLL_Y) < fosc + PLL_Y
  {
    if x >= PLL_Y { Mono(fosc, PLL_Y, x); }
  }

  /** z is cut to 8 bits without a check: the oscillator is close to what was
      intended exactly if it did fit. */
  lemma CloseIffZFits(fosc: nat, intended: nat, z: nat, x: nat)
    requires fosc >= 16000000 && Divided(fosc, intended, z, x)
    ensures x < PLL_Y
    ensures Close(fosc, intended, Fvco(fosc, z % 256, x)) <==> z <= 255
  {
    CutFraction(fosc, intended - fosc * z, x);
    if z > 255 {
      var c := z % 256;
      assert z >= c + 256;
      assert fosc * z >= fosc * (c + 256) == fosc * c + 256 * fosc;
    }
  }

  /** Within the range of the oscillator and of the table it need not: from 16 MHz
      to just below 1.2 GHz z would have to be 299. */
  lemma ZTooLarge()
    ensures Mult(1199999999) == 4 && Divided(16000000, 4 * 1199999999, 299, 65535)
    ensures !Close(16000000, 4 * 1199999999, Fvco(16000000, 299 % 256, 65535))
  {
    CloseIffZFits(16000000, 4 * 1199999999, 299, 65535);
  }

  method Divide(a: nat, b: nat) returns (q: nat)
    requires b > 0
    ensures b * q <= a < b * q + b
  {
    q := a / b;
  }

  /** compute_flo(): unsigned, so the error code comes out as a large number */
  method ComputeFlo(fosc: nat, z: nat, x: nat, r: nat) returns (flo: nat)
    requires z < 256 && x < PLL_Y && r > 0
    ensures Fvco(fosc, z, x) == 0 ==> flo == 4294967274
    ensures Fvco(fosc, z, x) > 0 ==> r * flo <= Fvco(fosc, z, x) < r * flo + r
  {
    var fvco := fosc * z + fosc * x / PLL_Y;
    if fvco == 0 {
      return TWO32 - EINVAL;
    }
    flo := Divide(fvco, r);
  }

  /** The search in the table */
  method LookUp(intended: uint32) returns (r: nat, rIdx: nat, threePhase: bool)
    ensures r == Mult(intended) && (threePhase <==> intended < 350000000) && Selects(rIdx, r, threePhase)
  {
    r, rIdx, threePhase := 2, 0, false;
    var i := 0;
    while i < |PLL_VARS|
      invariant 0 <= i <= |PLL_VARS| && r == 2 && rIdx == 0 && !threePhase
      invariant forall k | 0 <= k < i :: intended >= PLL_VARS[k].freq
    {
      if intended < PLL_VARS[i].freq {
        threePhase := PLL_VARS[i].synth7 / 8 % 2 == 1;
        rIdx := PLL_VARS[i].synth7;
        r := PLL_VARS[i].mult;
        RowFound(intended, i);
        return;
      }
      i := i + 1;
    }
    assert intended >= PLL_VARS[9].freq;
  }

  lemma RowFound(intended: uint32, i: nat)
    requires i < |PLL_VARS| && intended < PLL_VARS[i].freq
    requires forall k | 0 <= k < i :: intended >= PLL_VARS[k].freq
    ensures PLL_VARS[i].mult == Mult(intended)
    ensures PLL_VARS[i].synth7 / 8 % 2 == 1 <==> intended < 350000000
    ensures Selects(PLL_VARS[i].synth7, PLL_VARS[i].mult, intended < 350000000)
  {
    if i > 0 { assert intended >= PLL_VARS[i - 1].freq; }
  }

  /** What the tuner is programmed for is at most the intended frequency and short
      of it by less than one Hertz and one step of x, divided by r. */
  ghost predicate Tuned(fosc: nat, intended: nat, flo: int, r: nat) {
    flo <= intended && PLL_Y * (r * (intended - flo)) < fosc + PLL_Y * r
  }

  lemma TunedIfClose(fosc: nat, intended: nat, fvco: nat, flo: nat, r: nat)
    requires r > 0 && Close(fosc, r * intended, fvco) && r * flo <= fvco < r * flo + r
    ensures Tuned(fosc, intended, flo, r)
  {
    assert r * (intended - flo) == r * intended - r * flo;
    if flo > intended { Mono(r, intended + 1, flo); }
  }

  /** e4k_compute_pll_params(): 0 for an oscillator out of range, and all parameters
      but the register for r as they were before; otherwise the frequency is tuned
      whenever the quotient fits in the register z and the registers are not both 0. */
  method ComputePllParams(before: Params, fosc: uint32, intended: uint32) returns (flo: nat, p: Params)
    ensures fosc < 16000000 || fosc > 30000000 ==> flo == 0 && p == before.(rIdx := 0)
    ensures 16000000 <= fosc <= 30000000 ==>
              && p.fosc == fosc && p.intended == intended && p.flo == flo
              && p.r == Mult(intended) && (p.threePhase <==> intended < 350000000) && p.z < 256 && p.x < PLL_Y
              && Selects(p.rIdx, p.r, p.threePhase)
              && (p.r * intended < 256 * fosc ==> Divided(fosc, p.r * intended, p.z, p.x))
              && (p.r * intended < 256 * fosc && Fvco(fosc, p.z, p.x) > 0 ==> Tuned(fosc, intended, flo, p.r))
              && (p.r * intended >= 256 * fosc ==> !Close(fosc, p.r * intended, Fvco(fosc, p.z, p.x)))
              && (Fvco(fosc, p.z, p.x) == 0 ==> flo == 4294967274)
  {
    p := before.(rIdx := 0);
    if fosc < 16000000 || fosc > 30000000 {
      return 0, p;
    }
    var r, rIdx, threePhase := LookUp(intended);
    var fvco: nat := intended * r;
    var z := Divide(fvco, fosc);
    var x := Divide((fvco - fosc * z) * PLL_Y, fosc);
    CloseIffZFits(fosc, fvco, z, x);
    flo := ComputeFlo(fosc, z % 256, x, r);
    ZFits(fosc, fvco, z);
    if z <= 255 && Fvco(fosc, z, x) > 0 { TunedIfClose(fosc, intended, Fvco(fosc, z, x), flo, r); }
    p := Params(fosc, intended, flo, x, z % 256, r, rIdx, threePhase);
  }

  lemma ZFits(fosc: nat, fvco: nat, z: nat)
    requires fosc > 0 && fosc * z <= fvco < fosc * z + fosc
    ensures z <= 255 <==> fvco < 256 * fosc
  {
    if z <= 255 { Mono(fosc, z, 255); } else { Mono(fosc, 256, z); }
  }
}
