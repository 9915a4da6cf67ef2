/** The resampler ratio of the RTL2832: 28 bits of which the low two are not used
    and the highest is a sign. */
module Resampler {

  const TWO22 := 0x400000
  const TWO27 := 0x8000000
  const TWO28 := 0x10000000

  /** The sample rates that the resampler supports */
  predicate Accepted(rate: nat) { 225000 < rate <= 300000 || 900000 < rate <= 3200000 }

  /** Crystal frequencies that rtlsdr_set_xtal_freq() accepts */
  predicate Tunable(xtal: nat) { 28799000 <= xtal <= 28801000 }

  /** ratio & 0x0ffffffc */
  function Masked(ratio: nat): nat { ratio % TWO28 / 4 * 4 }

  /** ratio | ((ratio & 0x08000000) << 1), for a masked ratio */
  function Restored(ratio: nat): nat
    requires ratio < TWO28
  {
    if ratio >= TWO27 then ratio + TWO28 else ratio
  }

  /** The rate that results; a ratio of 0 gives infinity, of which the conversion
      to an integer is undefined. */
  datatype Rate = Rate(hz: nat) | Undefined

  function ResultingRate(xtal: nat, ratio: nat): Rate
    requires ratio < TWO28
  {
    var used := Restored(ratio);
    if used == 0 then Undefined else Rate(xtal * TWO22 / used)
  }

  /** rtlsdr_set_sample_rate(): the ratio for the chip and the rate that results,
      or -EINVAL.  The quotients are exact before they are cut to integers. */
  method SetSampleRate(xtal: nat, rate: nat) returns (r: int, ratio: nat, devRate: Rate)
    requires Tunable(xtal)
    ensures if Accepted(rate) then r == 0 else r == -22 && ratio == 0 && devRate == Undefined
    ensures r == 0 ==> ratio % 4 == 0 && ratio < TWO28 && devRate == ResultingRate(xtal, ratio)
    ensures r == 0 ==> (devRate == Rate(rate) <==> SignBitsAgree(xtal, rate))
  {
    if rate <= 225000 || rate > 3200000 || (rate > 300000 && rate <= 900000) {
      return -22, 0, Undefined;
    }
    ratio := xtal * TWO22 / rate;
    RateExact(xtal, rate, ratio);
    ratio := Masked(ratio);
    var realRatio := Restored(ratio);
    devRate := if realRatio == 0 then Undefined else Rate(xtal * TWO22 / realRatio);
    r := 0;
  }

  lemma QuotientBounds(x: nat, d: nat, q: nat)
    requires d > 0 && q == x / d
    ensures q * d <= x < (q + 1) * d
  {
  }

  lemma Between(x: nat, d: nat, q: nat)
    requires d > 0
    ensures x / d == q <==> q * d <= x < (q + 1) * d
  {
    var p := x / d;
    QuotientBounds(x, d, p);
    AtLeast(x, d, p, q);
    AtLeast(x, d, p, q + 1);
  }

  lemma AtLeast(x: nat, d: nat, q: nat, k: nat)
    requires q * d <= x < (q + 1) * d
    ensures q >= k <==> k * d <= x
  {
    if q >= k {
      assert k * d <= q * d;
    } else {
      assert (q + 1) * d <= k * d;
    }
  }

  /** The ratio of an accepted rate, and on which side of the sign bits it is. */
  lemma RatioRange(xtal: nat, rate: nat, ratio: nat)
    requires Tunable(xtal) && Accepted(rate) && ratio == xtal * TWO22 / rate
    ensures ratio * rate <= xtal * TWO22 < (ratio + 1) * rate && 4 * rate + 8 <= ratio
    ensures rate <= 300000 ==> TWO28 + 4 <= ratio < 2 * TWO28 + TWO27
    ensures ratio >= TWO28 + TWO27 <==> xtal >= 96 * rate
    ensures ratio >= 2 * TWO28 <==> xtal >= 128 * rate
    ensures rate > 900000 ==> ratio < TWO28
    ensures ratio >= TWO27 <==> xtal >= 32 * rate
  {
    var x := xtal * TWO22;
    QuotientBounds(x, rate, ratio);
    AtLeast(x, rate, ratio, TWO28 + 4);
    AtLeast(x, rate, ratio, 2 * TWO28 + TWO27);
    AtLeast(x, rate, ratio, 2 * TWO28);
    AtLeast(x, rate, ratio, TWO28 + TWO27);
    AtLeast(x, rate, ratio, TWO28);
    AtLeast(x, rate, ratio, TWO27);
    RatioLarge(x, rate, ratio);
  }

  lemma RatioLarge(x: nat, rate: nat, ratio: nat)
    requires x < (ratio + 1) * rate && rate <= 3200000 && x >= 28799000 * TWO22
    ensures 4 * rate + 8 <= ratio
  {
    if ratio < 4 * rate + 8 { ProductMono(ratio + 1, 12800008, rate); }
  }

  lemma SumOfProducts(a: nat, b: nat, c: nat)
    ensures (a + b) * c == a * c + b * c && a * c == c * a
  {
  }

  lemma ProductMono(a: nat, b: nat, c: nat)
    requires a <= b
    ensures a * c <= b * c
  {
  }

  /** The bits 27 and 28 of the ratio are equal: what a caller can check before. */
  predicate SignBitsAgree(xtal: nat, rate: nat) {
    if rate <= 300000 then 96 * rate <= xtal < 128 * rate else xtal < 32 * rate
  }

  /** Only the low two bits are lost: the rate comes out right. */
  lemma LowBitsLost(x: nat, rate: nat, ratio: nat, used: nat)
    requires ratio * rate <= x < (ratio + 1) * rate && 4 * rate + 8 <= ratio && ratio - 3 <= used <= ratio
    ensures x / used == rate
  {
    ProductMono(used, ratio, rate);
    ProductMono(ratio + 1, used + 4, rate);
    SumOfProducts(used, 4, rate);
    SumOfProducts(rate, 1, used);
    Between(x, used, rate);
  }

  /** A ratio that is too small by 2^28 gives a rate that is too high. */
  lemma HighBitLost(x: nat, rate: nat, ratio: nat, used: nat)
    requires ratio * rate <= x && 0 < used <= ratio - TWO28 && ratio <= 4 * TWO28
    requires rate >= 4
    ensures x / used != rate
  {
    assert (rate + 1) * used <= (rate + 1) * (ratio - TWO28);
    assert (rate + 1) * (ratio - TWO28) == rate * ratio + ratio - TWO28 * (rate + 1);
    Between(x, used, rate);
  }

  /** One that is too large by 2^28 gives a rate that is too low. */
  lemma HighBitGained(x: nat, rate: nat, ratio: nat, used: nat)
    requires x < (ratio + 1) * rate && used >= ratio + 1
    ensures x / used != rate
  {
    assert (ratio + 1) * rate <= used * rate;
    Between(x, used, rate);
  }

  /** The rate that results is the requested one exactly if the sign bits agree. */
  lemma RateExact(xtal: nat, rate: nat, ratio: nat)
    requires Tunable(xtal) && Accepted(rate) && ratio == xtal * TWO22 / rate
    ensures Masked(ratio) % 4 == 0 && Masked(ratio) < TWO28
    ensures ResultingRate(xtal, Masked(ratio)) == Rate(rate) <==> SignBitsAgree(xtal, rate)
  {
    var x, masked := xtal * TWO22, Masked(ratio);
    RatioRange(xtal, rate, ratio);
    MaskedBy(ratio);
    var used := Restored(masked);
    if SignBitsAgree(xtal, rate) {
      LowBitsLost(x, rate, ratio, used);
    } else if rate > 300000 {
      HighBitGained(x, rate, ratio, used);
    } else if used > 0 {
      HighBitLost(x, rate, ratio, used);
    }
  }

  lemma MaskedBy(ratio: nat)
    requires ratio < 2 * TWO28 + TWO27
    ensures Masked(ratio) % 4 == 0 && Masked(ratio) < TWO28
    ensures var bits28 := if ratio < TWO28 then 0 else if ratio < 2 * TWO28 then TWO28 else 2 * TWO28;
            && ratio - bits28 - 3 <= Masked(ratio) <= ratio - bits28
            && (Masked(ratio) >= TWO27 <==> ratio - bits28 >= TWO27)
  {
  }

  /** At the nominal 28.8 MHz they agree for every accepted rate. */
  lemma NominalCrystal(rate: nat)
    requires Accepted(rate)
    ensures SignBitsAgree(28800000, rate)
    ensures ResultingRate(28800000, Masked(28800000 * TWO22 / rate)) == Rate(rate)
  {
    RateExact(28800000, rate, 28800000 * TWO22 / rate);
  }

  /** With other crystals they need not: one Hertz less is enough for the rate of
      300 kHz, and with 128 Hertz more the ratio for 225001 Hz is cut to 0. */
  lemma DetunedCrystals()
    ensures Tunable(28799999) && Accepted(300000) && !SignBitsAgree(28799999, 300000)
    ensures Tunable(28800128) && Accepted(225001)
    ensures ResultingRate(28800128, Masked(28800128 * TWO22 / 225001)) == Undefined
  {
    assert 28800128 * TWO22 / 225001 == 2 * TWO28;
  }
}
