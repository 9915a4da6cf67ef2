/** The synthesizer arithmetic of the R820T tuner: the divider search, the integer
    part and the sigma-delta modulator word. */
module R82xxPll {
  import opened BitReversal
  import opened Words

  const TWO32 := 0x1_0000_0000

  const VCO_MIN := 1770000
  const VCO_MAX := 3540000

  // ----- the divider -----

  /** The search for mix_div, and div_num; if none fits, mix_div ends at 128. */
  method FindDivider(freqKhz: uint32) returns (mixDiv: nat, divNum: nat)
    requires freqKhz <= 4294967
    ensures mixDiv <= 64 <==> 27657 <= freqKhz < 1770000
    ensures mixDiv <= 64 ==> VCO_MIN <= freqKhz * mixDiv < VCO_MAX && mixDiv == Pow2(divNum + 1) && divNum <= 5
    ensures mixDiv in {2, 4, 8, 16, 32, 64, 128} && (mixDiv == 128 ==> divNum == 0)
  {
    mixDiv, divNum := 2, 0;
    ghost var e := 1;
    assert Pow2(1) == 2;
    while mixDiv <= 64
      invariant 1 <= e <= 7 && mixDiv == Pow2(e) && divNum == 0
      invariant mixDiv in {2, 4, 8, 16, 32, 64, 128} && (mixDiv == 64 ==> e == 6)
      invariant freqKhz * mixDiv < 2 * VCO_MIN || freqKhz >= 1770000
      invariant mixDiv == 128 ==> freqKhz * 64 < VCO_MIN || freqKhz >= 1770000
      decreases 128 - mixDiv
    {
      if freqKhz * mixDiv >= VCO_MIN && freqKhz * mixDiv < VCO_MAX {
        var divBuf := mixDiv;
        while divBuf > 2
          invariant 1 <= divBuf && 1 <= e - divNum && divBuf == Pow2(e - divNum)
          invariant divNum <= e - 1
        {
          divBuf := divBuf / 2;
          divNum := divNum + 1;
        }
        assert Pow2(1) == 2;
        break;
      }
      mixDiv := mixDiv * 2;
      e := e + 1;
    }
  }

  // ----- the sigma-delta modulator word -----

  /** The loop ends with a word and a residue, or divides by zero. */
  datatype Outcome = Word(sdm: nat, residue: nat) | DivisionByZero

  /** For n_sdm == 2^k: the kHz that step k takes, and the units of the word for
      them. */
  datatype Steps = Steps(khz: nat -> nat, units: nat -> nat)

  function Quot(p: nat, n: nat): nat
    requires n > 0
  {
    p / n
  }

  function KhzOf(p: nat, k: nat): nat { Quot(p, Pow2(k)) }

  function UnitsOf(k: nat): nat { if k == 0 then 0 else Quot(32768, Pow2(k - 1)) }

  /** The steps of the loop; p is 2 * pll_ref_khz. */
  function StepsOf(p: nat): Steps { Steps(k => KhzOf(p, k), k => UnitsOf(k)) }

  /** The same about s, in a form in which proofs do not unfold the divisions. */
  ghost predicate AreStepsOf(s: Steps, p: nat) {
    && (forall k: nat {:trigger KhzOf(p, k)} :: s.khz(k) == KhzOf(p, k))
    && forall k: nat {:trigger UnitsOf(k)} :: s.units(k) == UnitsOf(k)
  }

  function Cut16(x: nat): (c: nat)
    ensures c < 65536 && (x - c) % 65536 == 0 && (x < 65536 ==> c == x)
  {
    x % 65536
  }

  /** The loop from step k on with fra kHz left.  At step 16 the 16-bit n_sdm has
      become 0. */
  function Modulate(fra: nat, s: Steps, k: nat, sdm: nat): Outcome
    requires k <= 16
    decreases 16 - k
  {
    if fra <= 1 then Word(sdm, fra)
    else if k == 16 then DivisionByZero
    else if fra <= s.khz(k) then Modulate(fra, s, k + 1, sdm)
    else
      var sdm', fra' := Cut16(sdm + s.units(k)), fra - s.khz(k);
      if k == 15 then Word(sdm', fra') else Modulate(fra', s, k + 1, sdm')
  }

  /** n_sdm at step k */
  predicate IsStep(n: nat, k: nat) {
    1 <= k <= 16 && n == if k == 16 then 0 else Pow2(k)
  }

  function Doubled(n: nat): nat { 2 * n % 65536 }

  lemma NextStep(n: nat, k: nat)
    requires IsStep(n, k) && k < 16
    ensures 2 <= n <= 32768 && n % 2 == 0 && (n >= 0x8000 <==> k == 15) && n == Pow2(k)
    ensures IsStep(Doubled(n), k + 1)
  {
    Powers();
    PowerRange(k);
    Pow2Mono(1, k);
    DoubledIsNext(n, k);
  }

  lemma PowerRange(k: nat)
    requires 1 <= k <= 15
    ensures Pow2(k) <= 32768 && (Pow2(k) == 32768 <==> k == 15)
  {
    Powers();
    if k < 15 { Pow2Mono(k, 14); Pow2Mono(14, 15); }
  }

  lemma DoubledIsNext(n: nat, k: nat)
    requires 1 <= k <= 15 && n == Pow2(k) <= 32768 && (n == 32768 <==> k == 15)
    ensures n % 2 == 0 && IsStep(Doubled(n), k + 1)
  {
    var next := Pow2(k + 1);
    assert next == 2 * n;
    EvenIfTwice(n, Pow2(k - 1));
    DoublesUpTo16(n);
  }

  lemma EvenIfTwice(n: nat, h: nat)
    requires n == 2 * h
    ensures n % 2 == 0
  {
  }

  lemma DoublesUpTo16(n: nat)
    requires n <= 32768
    ensures Doubled(n) == if n == 32768 then 0 else 2 * n
  {
  }

  /** From here the loop ends with o. */
  ghost predicate EndsWith(o: Outcome, fra: nat, s: Steps, k: nat, n: nat, sdm: nat) {
    IsStep(n, k) && Modulate(fra, s, k, sdm) == o
  }

  lemma ModulateTurn(fra: nat, s: Steps, k: nat, sdm: nat)
    requires fra > 1 && k < 16
    ensures Modulate(fra, s, k, sdm)
            == if fra <= s.khz(k) then Modulate(fra, s, k + 1, sdm)
               else if k == 15 then Word(Cut16(sdm + s.units(k)), fra - s.khz(k))
               else Modulate(fra - s.khz(k), s, k + 1, Cut16(sdm + s.units(k)))
  {
  }

  lemma TurnOfLoop(o: Outcome, fra: nat, s: Steps, k: nat, n: nat, sdm: nat)
    requires EndsWith(o, fra, s, k, n, sdm) && fra > 1 && n > 0
    ensures n >= 2 && k < 16 && n == Pow2(k)
    ensures fra <= s.khz(k) ==> EndsWith(o, fra, s, k + 1, Doubled(n), sdm)
    ensures fra > s.khz(k) ==>
              if n >= 0x8000 then o == Word(Cut16(sdm + s.units(k)), fra - s.khz(k))
              else EndsWith(o, fra - s.khz(k), s, k + 1, Doubled(n), Cut16(sdm + s.units(k)))
  {
    NextStep(n, k);
    ModulateTurn(fra, s, k, sdm);
  }

  /** One turn of the loop, which may be the last */
  method Turn(fra: nat, n: nat, sdm: nat, pllRefKhz: nat, ghost o: Outcome, ghost s: Steps, ghost k: nat)
    returns (last: bool, fra': nat, n': nat, sdm': nat)
    requires fra > 1 && n > 0 && AreStepsOf(s, 2 * pllRefKhz) && EndsWith(o, fra, s, k, n, sdm)
    ensures k < 16
    ensures if last then o == Word(sdm', fra') else EndsWith(o, fra', s, k + 1, n', sdm')
  {
    TurnOfLoop(o, fra, s, k, n, sdm);
    last, fra', n', sdm' := false, fra, n, sdm;
    var khz, units := Divided(2 * pllRefKhz, n, k, s);
    if fra > khz {
      sdm' := Cut16(sdm + units);
      fra' := fra - khz;
      if n >= 0x8000 {
        last := true;
        return;
      }
    }
    n' := Doubled(n);
  }

  lemma AtZero(o: Outcome, fra: nat, s: Steps, k: nat, n: nat, sdm: nat)
    requires EndsWith(o, fra, s, k, n, sdm)
    ensures fra <= 1 ==> o == Word(sdm, fra)
    ensures fra > 1 && n == 0 ==> o == DivisionByZero
  {
    if n == 0 { Positive(k); }
  }

  /** The loop of r82xx_set_pll() */
  method SigmaDeltaLoop(vcoFra: uint32, pllRefKhz: nat, ghost s: Steps) returns (o: Outcome)
    requires AreStepsOf(s, 2 * pllRefKhz)
    ensures o == Modulate(vcoFra, s, 1, 0)
  {
    ghost var k, whole := 1, Modulate(vcoFra, s, 1, 0);
    var fra: nat, n: nat, sdm: nat := vcoFra, 2, 0;
    Powers();
    while fra > 1
      invariant EndsWith(whole, fra, s, k, n, sdm)
      decreases 16 - k
    {
      AtZero(whole, fra, s, k, n, sdm);
      if n == 0 {
        return DivisionByZero;
      }
      var last;
      last, fra, n, sdm := Turn(fra, n, sdm, pllRefKhz, whole, s, k);
      if last {
        return Word(sdm, fra);
      }
      k := k + 1;
    }
    AtZero(whole, fra, s, k, n, sdm);
    return Word(sdm, fra);
  }

  method SigmaDelta(vcoFra: uint32, pllRefKhz: nat) returns (o: Outcome)
    requires 2 * pllRefKhz < TWO32
    ensures o == Modulate(vcoFra, StepsOf(2 * pllRefKhz), 1, 0)
  {
    o := SigmaDeltaLoop(vcoFra, pllRefKhz, StepsOf(2 * pllRefKhz));
  }

  lemma Positive(k: nat)
    requires IsStep(0, k)
    ensures k == 16
  {
  }

  /** The two divisions of the loop */
  method Divided(p: nat, n: nat, ghost k: nat, ghost s: Steps) returns (khz: nat, units: nat)
    requires n >= 2 && k >= 1 && n == Pow2(k) && AreStepsOf(s, p)
    ensures khz == s.khz(k) && units == s.units(k)
  {
    khz, units := p / n, 32768 / (n / 2);
    assert khz == KhzOf(p, k) && units == UnitsOf(k);
  }

  /** Step k takes u * p / 65536 kHz, rounded down, for u units. */
  ghost predicate FitsAt(s: Steps, p: nat, k: nat)
    requires 1 <= k <= 15
  {
    var u := Pow2(16 - k);
    s.units(k) == u && 65536 * s.khz(k) <= u * p < 65536 * s.khz(k) + 65536
  }

  lemma StepSize(p: nat, n: nat, u: nat)
    requires n * u == 65536 && n > 0
    ensures 65536 * (p / n) <= u * p < 65536 * (p / n) + 65536
  {
    var f, r := p / n, p % n;
    assert p == n * f + r;
    assert u * p == (u * n) * f + u * r;
    assert 0 <= u * r;
    assert u * (n - r) >= u > 0;
    assert u * n - u * r == u * (n - r);
  }

  lemma UnitsFit(h: nat, u: nat)
    requires 2 * h * u == 65536 && h > 0
    ensures 32768 / h == u
  {
    assert 2 * (h * u) == 2 * h * u;
    DivModUnique(32768, h, u, 0);
  }

  lemma Powers()
    ensures Pow2(0) == 1 && Pow2(1) == 2 && Pow2(15) == 32768 && Pow2(16) == 65536
  {
    assert Pow2(1) == 2 && Pow2(2) == 4 && Pow2(4) == 16 by { Pow2Add(2, 2); }
    Pow2Add(4, 4);
    Pow2Add(8, 4);
    Pow2Add(12, 3);
    Pow2Add(12, 4);
  }

  lemma StepsFit(p: nat, k: nat)
    requires 1 <= k <= 15
    ensures FitsAt(StepsOf(p), p, k)
  {
    var h, u := Pow2(k - 1), Pow2(16 - k);
    Powers();
    Pow2Add(k, 16 - k);
    StepSize(p, 2 * h, u);
    UnitsFit(h, u);
  }

  /** Before step k, of total kHz at the start: the word so far falls short of the
      total by what is left and what rounding has lost, and no more than twice
      what this step is worth. */
  ghost predicate Tracks(total: nat, p: nat, k: nat, fra: nat, sdm: nat)
    requires 1 <= k <= 16
  {
    var u, e := Pow2(16 - k), 65536 * total - p * sdm;
    sdm + 2 * u <= 65536 && 65536 * (fra - (k - 1)) <= e <= 65536 * fra && e <= 2 * (u * p)
  }

  /** The word is within 15 kHz below and 2 kHz above the total. */
  ghost predicate CloseWord(total: nat, p: nat, o: Outcome) {
    o.Word? && o.sdm <= 65534 && -65536 * 15 <= 65536 * total - p * o.sdm < 65536 * 2
  }

  lemma Distribute(p: nat, sdm: nat, u: nat)
    ensures p * (sdm + 2 * u) == p * sdm + 2 * (u * p) && (2 * u) * p == 2 * (u * p)
  {
  }

  lemma TakeStep(s: Steps, total: nat, p: nat, k: nat, fra: nat, sdm: nat)
    requires 1 <= k <= 15 && FitsAt(s, p, k) && Tracks(total, p, k, fra, sdm) && fra > s.khz(k)
    ensures Cut16(sdm + s.units(k)) == sdm + s.units(k)
    ensures Tracks(total, p, k + 1, fra - s.khz(k), sdm + s.units(k))
  {
    Distribute(p, sdm, Pow2(15 - k));
  }

  lemma SkipStep(s: Steps, total: nat, p: nat, k: nat, fra: nat, sdm: nat)
    requires 1 <= k <= 15 && FitsAt(s, p, k) && Tracks(total, p, k, fra, sdm) && fra <= s.khz(k)
    ensures Tracks(total, p, k + 1, fra, sdm)
  {
    Distribute(p, sdm, Pow2(15 - k));
  }

  /** After the last step at most one kHz can be left untaken. */
  lemma LastStep(s: Steps, p: nat, fra: nat)
    requires p < 65536 && FitsAt(s, p, 15) && fra <= s.khz(15)
    ensures fra <= 1
  {
    Powers();
  }

  lemma EndTracks(total: nat, p: nat, k: nat, fra: nat, sdm: nat)
    requires p < 65536 && 1 <= k <= 16 && Tracks(total, p, k, fra, sdm) && (fra <= 1 || k == 16)
    ensures CloseWord(total, p, Word(sdm, fra))
  {
    Powers();
  }

  /** Tracks() and CloseWord() as values, whose definitions proofs do not unfold. */
  datatype Tracking = Tracking(before: (nat, nat, nat) -> bool, after: Outcome -> bool)

  ghost predicate IsTracking(t: Tracking, s: Steps, total: nat, p: nat) {
    && p < 65536 && (forall k | 1 <= k <= 15 :: FitsAt(s, p, k))
    && (forall k: nat, fra: nat, sdm: nat {:trigger t.before(k, fra, sdm)} | 1 <= k <= 16 ::
          t.before(k, fra, sdm) <==> Tracks(total, p, k, fra, sdm))
    && forall o: Outcome {:trigger t.after(o)} :: t.after(o) <==> CloseWord(total, p, o)
  }

  lemma TrackingEnds(t: Tracking, s: Steps, total: nat, p: nat, k: nat, fra: nat, sdm: nat)
    requires IsTracking(t, s, total, p) && 1 <= k <= 16 && t.before(k, fra, sdm) && (fra <= 1 || k == 16)
    ensures t.after(Word(sdm, fra))
  {
    EndTracks(total, p, k, fra, sdm);
  }

  lemma TrackingTakes(t: Tracking, s: Steps, total: nat, p: nat, k: nat, fra: nat, sdm: nat, fra': nat, sdm': nat)
    requires IsTracking(t, s, total, p) && 1 <= k <= 15 && t.before(k, fra, sdm) && fra > s.khz(k)
    requires fra' == fra - s.khz(k) && sdm' == sdm + s.units(k)
    ensures Cut16(sdm') == sdm' && t.before(k + 1, fra', sdm')
  {
    assert FitsAt(s, p, k);
    TakeStep(s, total, p, k, fra, sdm);
  }

  lemma TrackingSkips(t: Tracking, s: Steps, total: nat, p: nat, k: nat, fra: nat, sdm: nat)
    requires IsTracking(t, s, total, p) && 1 <= k <= 15 && t.before(k, fra, sdm) && 1 < fra <= s.khz(k)
    ensures k < 15 && t.before(k + 1, fra, sdm)
  {
    assert FitsAt(s, p, k);
    if k == 15 { LastStep(s, p, fra); }
    SkipStep(s, total, p, k, fra, sdm);
  }

  lemma {:induction false} TrackingModulates(
    t: Tracking, s: Steps, total: nat, p: nat, k: nat, fra: nat, sdm: nat)
    requires IsTracking(t, s, total, p) && 1 <= k <= 15 && t.before(k, fra, sdm)
    ensures t.after(Modulate(fra, s, k, sdm))
    decreases 15 - k
  {
    if fra <= 1 {
      TrackingEnds(t, s, total, p, k, fra, sdm);
    } else {
      ModulateTurn(fra, s, k, sdm);
      if fra > s.khz(k) {
        var fra', sdm' := fra - s.khz(k), sdm + s.units(k);
        TrackingTakes(t, s, total, p, k, fra, sdm, fra', sdm');
        if k < 15 {
          TrackingModulates(t, s, total, p, k + 1, fra', sdm');
        } else {
          TrackingEnds(t, s, total, p, 16, fra', sdm');
        }
      } else {
        TrackingSkips(t, s, total, p, k, fra, sdm);
        TrackingModulates(t, s, total, p, k + 1, fra, sdm);
      }
    }
  }

  lemma ModulateTracks(s: Steps, total: nat, p: nat, k: nat, fra: nat, sdm: nat)
    requires p < 65536 && 1 <= k <= 15 && Tracks(total, p, k, fra, sdm)
    requires forall k | 1 <= k <= 15 :: FitsAt(s, p, k)
    ensures CloseWord(total, p, Modulate(fra, s, k, sdm))
  {
    var t := Tracking((k: nat, fra: nat, sdm: nat) => 1 <= k <= 16 && Tracks(total, p, k, fra, sdm),
                      o => CloseWord(total, p, o));
    TrackingModulates(t, s, total, p, k, fra, sdm);
  }

  /** With a crystal below 32.768 MHz the loop never divides by zero, the word does
      not overflow, and it reproduces the fraction to within -15 and 2 kHz. */
  lemma WordReconstructs(vcoFra: nat, pllRefKhz: nat)
    requires pllRefKhz < 32768 && vcoFra <= 2 * pllRefKhz
    ensures CloseWord(vcoFra, 2 * pllRefKhz, Modulate(vcoFra, StepsOf(2 * pllRefKhz), 1, 0))
  {
    var p := 2 * pllRefKhz;
    Powers();
    forall k | 1 <= k <= 15 ensures FitsAt(StepsOf(p), p, k) { StepsFit(p, k); }
    assert Tracks(vcoFra, p, 1, vcoFra, 0);
    ModulateTracks(StepsOf(p), vcoFra, p, 1, vcoFra, 0);
  }

  /** Steps that are worth two kHz do not take two kHz. */
  lemma {:induction false} TwoKilohertz(s: Steps, k: nat)
    requires k <= 16 && forall k: nat | k <= 15 :: s.khz(k) >= 2
    ensures Modulate(2, s, k, 0) == DivisionByZero
    decreases 16 - k
  {
    if k < 16 {
      assert s.khz(k) >= 2;
      TwoKilohertz(s, k + 1);
    }
  }

  lemma TwoOrMore(p: nat, n: nat)
    requires 0 < n <= 32768 && p >= 65536
    ensures p / n >= 2
  {
  }

  /** If the last step takes one kHz or none, the loop ends there at the latest. */
  lemma {:induction false} EndsInTime(s: Steps, fra: nat, k: nat, sdm: nat)
    requires k <= 15 && s.khz(15) <= 1
    ensures Modulate(fra, s, k, sdm).Word?
    decreases 15 - k
  {
    if fra > 1 && k < 15 {
      if fra <= s.khz(k) {
        EndsInTime(s, fra, k + 1, sdm);
      } else {
        EndsInTime(s, fra - s.khz(k), k + 1, Cut16(sdm + s.units(k)));
      }
    }
  }

  /** No fraction leads to a division by zero exactly for crystals whose frequency
      rounds to less than 32768 kHz; with a faster one 2 kHz do. */
  lemma NeverDividesByZero(pllRefKhz: nat)
    ensures (forall fra: nat :: Modulate(fra, StepsOf(2 * pllRefKhz), 1, 0).Word?) <==> pllRefKhz < 32768
  {
    Powers();
    var p := 2 * pllRefKhz;
    if pllRefKhz < 32768 {
      assert StepsOf(p).khz(15) == KhzOf(p, 15) == p / 32768 <= 1;
      forall fra: nat ensures Modulate(fra, StepsOf(p), 1, 0).Word? {
        EndsInTime(StepsOf(p), fra, 1, 0);
      }
    } else {
      forall k: nat | k <= 15 ensures StepsOf(p).khz(k) >= 2 {
        Pow2Mono(k, 15);
        TwoOrMore(p, Pow2(k));
      }
      TwoKilohertz(StepsOf(p), 1);
    }
  }

  // ----- the whole synthesizer -----

  /** noFraction switches the modulator off; ni and si are the two parts of nint that
      go to the register. */
  datatype Pll = NoValidPll | Pll(nint: nat, sdm: nat, noFraction: bool, ni: int, si: int) | Crash

  /** The oscillator runs less than 16 kHz above and less than 4 kHz below the
      intended frequency; in 65536ths of 2 * xtal. */
  ghost predicate Reproduces(vcoFreq: nat, xtal: nat, nint: nat, sdm: nat) {
    && sdm < 65536
    && -65536 * 16000 < 65536 * vcoFreq - (65536 * nint + sdm) * (2 * xtal) < 65536 * 4000
  }

  lemma ScaledBound(x: nat, d: int)
    requires -1000 <= d <= 998
    ensures -1000 * x <= x * d <= 998 * x
  {
    assert x * (d + 1000) >= 0 && x * (998 - d) >= 0;
    assert x * (d + 1000) == x * d + 1000 * x && x * (998 - d) == 998 * x - x * d;
  }

  lemma PllReproduces(vcoFreq: nat, xtal: nat, nint: nat, rem: nat, fra: nat, p: nat, sdm: nat)
    requires vcoFreq == 2 * xtal * nint + rem && 1000 * fra <= rem < 1000 * fra + 1000
    requires -1000 <= 2 * xtal - 1000 * p <= 998 && CloseWord(fra, p, Word(sdm, 0))
    ensures Reproduces(vcoFreq, xtal, nint, sdm)
  {
    var d := 2 * xtal - 1000 * p;
    ScaledBound(sdm, d);
    assert sdm * (2 * xtal) == 1000 * (p * sdm) + sdm * d;
    assert (65536 * nint + sdm) * (2 * xtal) == 65536 * (2 * xtal * nint) + sdm * (2 * xtal);
  }

  function Cut32(x: nat): (c: uint32)
    ensures x < TWO32 ==> c == x
  {
    x % TWO32
  }

  method Quotient(x: nat, d: nat) returns (q: nat)
    requires d > 0
    ensures 0 <= x - d * q < d && q == Quot(x, d)
  {
    q := x / d;
  }

  lemma SmallerProduct(d: nat, n: nat, q: nat)
    requires n <= q
    ensures d * n <= d * q
  {
  }

  function Cut8(x: int): (c: nat)
    ensures c < 256 && (x - c) % 256 == 0 && (0 <= x < 256 ==> c == x) && (x >= 0 ==> c <= x)
  {
    x % 256
  }

  /** nint, on a uint8_t, and what it takes away; d is 2 * pll_ref */
  method IntegerPart(vcoFreq: nat, d: uint32) returns (nint: nat, taken: nat)
    requires d > 0
    ensures nint < 256 && taken == d * nint <= vcoFreq && nint == Cut8(Quot(vcoFreq, d))
    ensures vcoFreq < 256 * d ==> vcoFreq - taken < d
  {
    var q := Quotient(vcoFreq, d);
    nint := Cut8(q);
    taken := d * nint;
    SmallerProduct(d, nint, q);
    if q >= 256 { SmallerProduct(d, 256, q); }
  }

  /** Is nint greater than 128 / vco_power_ref - 1? */
  method TooLarge(nint: nat, vcoPowerRef: nat) returns (b: bool)
    requires vcoPowerRef in {1, 2}
    ensures b <==> nint > if vcoPowerRef == 2 then 63 else 127
  {
    b := nint > 128 / vcoPowerRef - 1;
  }

  /** vco_fra, on a uint32_t */
  method Fraction(vcoFreq: nat, taken: nat) returns (fra: uint32)
    requires taken <= vcoFreq
    ensures vcoFreq < TWO32 ==> fra == (vcoFreq - taken) / 1000
  {
    fra := Cut32((vcoFreq - Cut32(taken)) / 1000);
  }

  /** The parts of nint for the register; for a nint below 13 they wrap. */
  method Parts(nint: nat) returns (ni: nat, si: nat)
    requires nint < 256
    ensures ni < 256 && si < 256
    ensures nint >= 13 ==> nint == 13 + 4 * ni + si && si < 4
  {
    var q := TruncatedDiv(nint - 13, 4);
    assert nint >= 13 ==> 0 <= nint - 13 - q * 4 < 4 && 0 <= q < 256;
    ni := Cut8(q);
    si := Cut8(nint - 4 * ni - 13);
  }

  /** The limit for nint as one for the frequency */
  lemma BelowLimit(vcoFreq: nat, d: nat, limit: nat)
    requires d > 0 && vcoFreq < d * 256 && limit <= 128
    ensures Cut8(Quot(vcoFreq, d)) < limit <==> vcoFreq < d * limit
  {
    QuotientBelow(vcoFreq, d, 256);
    QuotientBelow(vcoFreq, d, limit);
  }

  lemma QuotientBelow(x: nat, d: nat, limit: nat)
    requires d > 0
    ensures Quot(x, d) < limit <==> x < d * limit
  {
    var q := x / d;
    QuotientRest(x, d, q);
    if q < limit { SmallerProduct(d, q + 1, limit); } else { SmallerProduct(d, limit, q); }
    MulSub(d, q + 1, q);
  }

  lemma QuotientRest(x: nat, d: nat, q: nat)
    requires d > 0 && q == x / d
    ensures 0 <= x - d * q < d
  {
  }

  lemma Ends(pllRefKhz: nat, fra: nat)
    requires pllRefKhz < 32768
    ensures Modulate(fra, StepsOf(2 * pllRefKhz), 1, 0).Word?
  {
    NeverDividesByZero(pllRefKhz);
  }

  /** The values for a nint below the limit: the modulator word and the register for
      nint */
  method Program(vcoFra: uint32, pllRefKhz: nat, nint: nat) returns (pll: Pll)
    requires nint < 256 && 2 * pllRefKhz < TWO32
    ensures pll.Crash? || pll.Pll?
    ensures pllRefKhz < 32768 ==> pll.Pll?
    ensures pll.Pll? ==> Programmed(vcoFra, nint, Modulate(vcoFra, StepsOf(2 * pllRefKhz), 1, 0), pll)
  {
    var ni, si := Parts(nint);
    var o := SigmaDelta(vcoFra, pllRefKhz);
    pll := if o.Word? then Pll(nint, o.sdm, vcoFra == 0, ni, si) else Crash;
    if pllRefKhz < 32768 { Ends(pllRefKhz, vcoFra); }
  }

  ghost predicate Programmed(vcoFra: nat, nint: nat, o: Outcome, pll: Pll)
    requires pll.Pll?
  {
    && pll.nint == nint && (pll.noFraction <==> vcoFra == 0) && o.Word? && o.sdm == pll.sdm
    && (nint >= 13 ==> nint == 13 + 4 * pll.ni + pll.si && 0 <= pll.si < 4)
  }

  /** Valid exactly if nint, the quotient by twice the crystal on eight bits, is below
      the limit */
  ghost predicate ValidIffLow(vcoFreq: nat, xtal: nat, limit: nat, pll: Pll) {
    && xtal > 0 && !pll.Crash?
    && (pll.Pll? <==> Cut8(Quot(vcoFreq, 2 * xtal)) < limit)
    && (vcoFreq < 512 * xtal ==> (pll.Pll? <==> vcoFreq < 2 * xtal * limit))
  }

  /** What the values mean for the oscillator */
  ghost predicate Means(vcoFreq: nat, xtal: nat, pll: Pll)
    requires pll.Pll? && xtal > 0
  {
    && pll.nint == Quot(vcoFreq, 2 * xtal)
    && (pll.noFraction <==> vcoFreq < 2 * xtal * pll.nint + 1000)
    && (pll.nint >= 13 ==> pll.nint == 13 + 4 * pll.ni + pll.si && 0 <= pll.si < 4)
    && Reproduces(vcoFreq, xtal, pll.nint, pll.sdm)
  }

  lemma ValuesMean(
    vcoFreq: nat, xtal: nat, ref: nat, nint: nat, taken: nat, fra: nat, o: Outcome, pll: Pll)
    requires 0 < xtal < 32767500 && ref == (xtal + 500) / 1000
    requires nint == Quot(vcoFreq, 2 * xtal) && taken == 2 * xtal * nint && 0 <= vcoFreq - taken < 2 * xtal
    requires fra == (vcoFreq - taken) / 1000 && pll.Pll? && Programmed(fra, nint, o, pll)
    requires o == Modulate(fra, StepsOf(2 * ref), 1, 0)
    ensures Means(vcoFreq, xtal, pll)
  {
    FractionReproduces(vcoFreq, xtal, ref, 2 * xtal, nint, taken, fra, o);
    Thousand(vcoFreq - taken, fra);
  }

  lemma Thousand(x: nat, q: nat)
    requires q == x / 1000
    ensures q == 0 <==> x < 1000
  {
  }

  /** The values for an oscillator frequency.  They are valid exactly if nint is below
      the limit; and they reproduce the frequency, unless nint was cut. */
  method Synthesize(vcoFreq: nat, xtal: uint32, vcoPowerRef: nat) returns (pll: Pll)
    requires vcoPowerRef in {1, 2}
    ensures xtal in {0, 0x8000_0000} ==> pll == Crash
    ensures 0 < xtal < 32767500 ==> ValidIffLow(vcoFreq, xtal, if vcoPowerRef == 2 then 64 else 128, pll)
    ensures pll.Pll? && 0 < xtal < 32767500 && vcoFreq < TWO32 && vcoFreq < 512 * xtal ==> Means(vcoFreq, xtal, pll)
  {
    var pllRefKhz, d := Cut32(xtal + 500) / 1000, Cut32(2 * xtal);
    if d == 0 {
      return Crash; // vco_freq is divided by it
    }
    var nint, taken := IntegerPart(vcoFreq, d);
    var vcoFra := Fraction(vcoFreq, taken);
    var tooLarge := TooLarge(nint, vcoPowerRef);
    if 0 < xtal < 32767500 {
      LimitMeans(vcoFreq, xtal, d, nint, if vcoPowerRef == 2 then 64 else 128);
    }
    if tooLarge {
      return NoValidPll;
    }
    pll := Program(vcoFra, pllRefKhz, nint);
    if pll.Pll? && 0 < xtal < 32767500 && vcoFreq < TWO32 && vcoFreq < 512 * xtal {
      var o := Modulate(vcoFra, StepsOf(2 * pllRefKhz), 1, 0);
      ValuesMean(vcoFreq, xtal, pllRefKhz, nint, taken, vcoFra, o, pll);
    }
  }

  lemma LimitMeans(vcoFreq: nat, xtal: nat, d: nat, nint: nat, limit: nat)
    requires 0 < xtal && d == 2 * xtal && nint == Cut8(Quot(vcoFreq, d)) && limit <= 128
    ensures vcoFreq < 512 * xtal ==> (nint < limit <==> vcoFreq < 2 * xtal * limit)
    ensures vcoFreq < 512 * xtal ==> nint == Quot(vcoFreq, d)
  {
    if vcoFreq < 512 * xtal {
      BelowLimit(vcoFreq, d, limit);
      QuotientBelow(vcoFreq, d, 256);
    }
  }

  lemma CutSum(freq: uint32)
    ensures Cut32(freq + 500) == freq + 500 || Cut32(freq + 500) < 500
  {
  }

  lemma VcoFits(freq: uint32, mixDiv: nat)
    requires mixDiv in {2, 4, 8, 16, 32, 64} && VCO_MIN <= Cut32(freq + 500) / 1000 * mixDiv < VCO_MAX
    ensures freq * mixDiv < TWO32
  {
    CutSum(freq);
    var k := (freq + 500) / 1000;
    assert freq <= 1000 * k + 499;
  }

  /** r82xx_set_pll() from the frequency to the values for the registers; unsigned
      variables are cut to their width.  With a crystal below 32.7675 MHz it does
      not crash; and if the divider search succeeds and nint fits in 8 bits, the
      oscillator frequency is reproduced. */
  method SetPll(freq: uint32, xtal: uint32, vcoPowerRef: nat) returns (pll: Pll, mixDiv: nat, vcoFreq: nat)
    requires vcoPowerRef in {1, 2}
    ensures vcoFreq == freq * mixDiv && (mixDiv <= 64 <==> 27657 <= Cut32(freq + 500) / 1000 < 1770000)
    ensures xtal in {0, 0x8000_0000} ==> pll == Crash
    ensures 0 < xtal < 32767500 ==> ValidIffLow(vcoFreq, xtal, if vcoPowerRef == 2 then 64 else 128, pll)
    ensures pll.Pll? && mixDiv <= 64 && 0 < xtal < 32767500 && vcoFreq < 512 * xtal ==> Means(vcoFreq, xtal, pll)
  {
    var divNum;
    mixDiv, divNum := FindDivider(Cut32(freq + 500) / 1000);
    vcoFreq := freq * mixDiv;
    if mixDiv <= 64 { VcoFits(freq, mixDiv); }
    pll := Synthesize(vcoFreq, xtal, vcoPowerRef);
  }

  lemma FractionReproduces(
    vcoFreq: nat, xtal: nat, ref: nat, d: nat, nint: nat, taken: nat, fra: nat, o: Outcome)
    requires 0 < xtal < 32767500 && d == 2 * xtal && ref == (xtal + 500) / 1000
    requires taken == d * nint && 0 <= vcoFreq - taken < d && fra == (vcoFreq - taken) / 1000
    requires o == Modulate(fra, StepsOf(2 * ref), 1, 0) && o.Word?
    ensures Reproduces(vcoFreq, xtal, nint, o.sdm)
  {
    assert 1000 * ref <= xtal + 500 < 1000 * ref + 1000;
    WordReconstructs(fra, ref);
    PllReproduces(vcoFreq, xtal, nint, vcoFreq - taken, fra, 2 * ref, o.sdm);
  }
}
