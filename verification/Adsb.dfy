/** The in-place Manchester decoder of rtl_adsb: bits are written over the
    magnitudes that they were read from. */
module Adsb {
  import opened Words

  const MESSAGEGO: uint16 := 253
  const OVERWRITE: uint16 := 254
  const BADSAMPLE: uint16 := 255
  const PREAMBLE_LEN := 16

  function Min(x: uint16, y: uint16): (z: uint16)
    ensures z in {x, y} && z <= x && z <= y
  {
    if x < y then x else y
  }

  function Max(x: uint16, y: uint16): (z: uint16)
    ensures z in {x, y} && z >= x && z >= y
  {
    if x > y then x else y
  }

  /** Is the pair c, d good enough behind the pair a, b?  Quality 10 asks that the
      samples are on the other side of b than a is: the higher above a low b, the
      lower below a high b; quality 5 asks for it only if both pairs are the same
      bit, and lets equality pass.  Any quality but 0, 5 and 10 asks that each pair
      reaches above the lower sample of the other one. */
  ghost predicate GoodEnough(quality: int, a: uint16, b: uint16, c: uint16, d: uint16) {
    match quality
    case 0 => true
    case 5 => (a > b && c > d ==> b <= Max(c, d)) && (a <= b && c <= d ==> b >= Min(c, d))
    case 10 => if a > b then b < Max(c, d) else b > Min(c, d)
    case _ => Min(a, b) < Max(c, d) && Min(c, d) < Max(a, b)
  }

  /** single_manchester(): 0, 1 or BADSAMPLE for the pair c, d behind the pair a, b */
  function SingleManchester(quality: int, a: uint16, b: uint16, c: uint16, d: uint16): (bit: uint16)
    ensures bit == if !GoodEnough(quality, a, b, c, d) then 255 else if c > d then 1 else 0
  {
    var bitP, bit := a > b, c > d;
    if quality == 0 then if bit then 1 else 0
    else if quality == 5 then
      if bit && bitP && b > c then BADSAMPLE
      else if !bit && !bitP && b < c then BADSAMPLE
      else if bit then 1 else 0
    else if quality == 10 then
      if bit && bitP && c > b then 1
      else if bit && !bitP && d < b then 1
      else if !bit && bitP && d > b then 0
      else if !bit && !bitP && c < b then 0
      else BADSAMPLE
    else
      if bit && bitP && c > b && d < a then 1
      else if bit && !bitP && c > a && d < b then 1
      else if !bit && bitP && c < a && d > b then 0
      else if !bit && !bitP && c < b && d > a then 0
      else BADSAMPLE
  }

  // ----- the preamble -----

  /** The last of the pulses, and the last of the gaps, up to place t. */
  function PulseAt(t: nat): nat { if t < 2 then 0 else if t < 7 then 2 else if t < 9 then 7 else 9 }

  function GapAt(t: nat): nat { if t in {2, 7, 9} then t - 1 else t }

  /** Every pulse is higher than the gaps around it, and the first is not zero. */
  predicate IsPreamble(m: seq<uint16>, i: nat)
    requires i + PREAMBLE_LEN <= |m|
  {
    m[i] > 0 && forall t: nat | 1 <= t < PREAMBLE_LEN :: m[i + PulseAt(t)] > m[i + GapAt(t)]
  }

  /** The sixteen samples in detail: pulses at 0, 2, 7 and 9 */
  predicate HasShape(m: seq<uint16>, i: nat)
    requires i + 16 <= |m|
  {
    && m[i] > 0 && m[i] > m[i + 1] && m[i + 2] > m[i + 1]
    && m[i + 2] > m[i + 3] && m[i + 2] > m[i + 4] && m[i + 2] > m[i + 5] && m[i + 2] > m[i + 6]
    && m[i + 7] > m[i + 6] && m[i + 7] > m[i + 8] && m[i + 9] > m[i + 8]
    && m[i + 9] > m[i + 10] && m[i + 9] > m[i + 11] && m[i + 9] > m[i + 12]
    && m[i + 9] > m[i + 13] && m[i + 9] > m[i + 14] && m[i + 9] > m[i + 15]
  }

  lemma PulseIsAbove(m: seq<uint16>, i: nat, t: nat, pulse: nat, gap: nat)
    requires i + 16 <= |m| && IsPreamble(m, i) && 1 <= t < 16 && pulse == PulseAt(t) && gap == GapAt(t)
    ensures m[i + pulse] > m[i + gap]
  {
  }

  lemma PreambleHasShape(m: seq<uint16>, i: nat)
    requires i + 16 <= |m| && IsPreamble(m, i)
    ensures HasShape(m, i)
  {
    PulseIsAbove(m, i, 1, 0, 1);
    PulseIsAbove(m, i, 2, 2, 1);
    PulseIsAbove(m, i, 3, 2, 3);
    PulseIsAbove(m, i, 4, 2, 4);
    PulseIsAbove(m, i, 5, 2, 5);
    PulseIsAbove(m, i, 6, 2, 6);
    PulseIsAbove(m, i, 7, 7, 6);
    PulseIsAbove(m, i, 8, 7, 8);
    PulseIsAbove(m, i, 9, 9, 8);
    PulseIsAbove(m, i, 10, 9, 10);
    PulseIsAbove(m, i, 11, 9, 11);
    PulseIsAbove(m, i, 12, 9, 12);
    PulseIsAbove(m, i, 13, 9, 13);
    PulseIsAbove(m, i, 14, 9, 14);
    PulseIsAbove(m, i, 15, 9, 15);
  }

  lemma PreambleShape(m: seq<uint16>, i: nat)
    requires i + 16 <= |m|
    ensures IsPreamble(m, i) <==> HasShape(m, i)
  {
    if IsPreamble(m, i) { PreambleHasShape(m, i); }
  }

  /** preamble() */
  method Preamble(buf: array<uint16>, i: nat) returns (found: bool)
    requires i + PREAMBLE_LEN <= buf.Length
    ensures found <==> IsPreamble(buf[..], i)
  {
    var low, high := 0, 65535;
    var i2 := 0;
    while i2 < PREAMBLE_LEN
      invariant 0 <= i2 <= PREAMBLE_LEN
      invariant i2 > 0 ==> high == buf[i + PulseAt(i2 - 1)] && buf[i] > 0
      invariant i2 <= 1 ==> low == 0
      invariant i2 > 1 ==> low == buf[i + GapAt(i2 - 1)]
      invariant forall t: nat | 1 <= t < i2 :: buf[i + PulseAt(t)] > buf[i + GapAt(t)]
    {
      if i2 in {0, 2, 7, 9} {
        high := buf[i + i2];
      } else {
        low := buf[i + i2];
      }
      if high <= low {
        assert i2 > 0 ==> !(buf[i + PulseAt(i2)] > buf[i + GapAt(i2)]);
        return false;
      }
      i2 := i2 + 1;
    }
    return true;
  }

  // ----- a decoder that reads the untouched magnitudes m and writes to out -----

  datatype State = State(i: nat, a: uint16, b: uint16, out: seq<uint16>)

  function Fill(out: seq<uint16>, i: nat, n: nat): (out': seq<uint16>)
    requires i + n <= |out|
    ensures |out'| == |out| && forall k | 0 <= k < |out| :: out'[k] == if i <= k < i + n then MESSAGEGO else out[k]
  {
    if n == 0 then out else Fill(out, i, n - 1)[i + n - 1 := MESSAGEGO]
  }

  /** The search for the next preamble; without one, a and b stay as they are. */
  function FindPreamble(m: seq<uint16>, s: State): (s': State)
    requires |s.out| == |m|
    ensures s.i <= s'.i && (s.i <= |m| ==> s'.i <= |m|) && |s'.out| == |m|
    ensures forall k | s'.i <= k < |m| :: s'.out[k] == s.out[k]
    decreases |m| - s.i
  {
    if s.i >= |m| - PREAMBLE_LEN then s
    else if IsPreamble(m, s.i) then
      State(s.i + PREAMBLE_LEN, m[s.i], m[s.i + 1], Fill(s.out, s.i, PREAMBLE_LEN))
    else FindPreamble(m, s.(i := s.i + 1))
  }

  /** The marking of bits from s.i on; bit number i2 - start goes to place i2. */
  function MarkBits(m: seq<uint16>, quality: int, allowed: int, s: State, i2: nat, errors: nat): (s': State)
    requires |s.out| == |m| && i2 <= s.i <= |m|
    ensures s.i <= s'.i <= |m| && |s'.out| == |m|
    ensures errors < allowed && s.i < |m| - 1 ==> s'.i >= s.i + 2
    decreases |m| - s.i
  {
    if s.i >= |m| - 1 then s
    else
      var c, d := m[s.i], m[s.i + 1];
      var bit := SingleManchester(quality, s.a, s.b, c, d);
      if bit == BADSAMPLE && errors + 1 > allowed then State(s.i, c, d, s.out[i2 := BADSAMPLE])
      else
        var bit' := if bit != BADSAMPLE then bit else if c > d then 1 else 0;
        var out := s.out[s.i := OVERWRITE][s.i + 1 := OVERWRITE][i2 := bit'];
        if bit == BADSAMPLE then MarkBits(m, quality, allowed, State(s.i + 2, 0, 65535, out), i2 + 1, errors + 1)
        else MarkBits(m, quality, allowed, State(s.i + 2, c, d, out), i2 + 1, errors)
  }

  /** One turn of the outer loop: the next preamble, and the bits behind it. */
  function Turn(m: seq<uint16>, quality: int, allowed: int, s: State): (s': State)
    requires |s.out| == |m| && s.i <= |m|
    ensures s.i <= s'.i <= |m| && |s'.out| == |m|
  {
    var t := FindPreamble(m, s);
    MarkBits(m, quality, allowed, t, t.i, 0)
  }

  predicate Over(s: State) { s.i + 1 >= |s.out| }

  /** What one turn makes of a state, as a value */
  type Turner = f: State -> State | InRange(f) ghost witness (s: State) => s

  ghost predicate InRange(f: State -> State) {
    forall s: State {:trigger f(s)} | s.i <= |s.out| :: s.i <= f(s).i <= |f(s).out| == |s.out|
  }

  /** n turns, or less if the end of the buffer is reached */
  ghost function Iterated(f: Turner, s: State, n: nat): (s': State)
    requires s.i <= |s.out|
    ensures s.i <= s'.i <= |s'.out| == |s.out|
    decreases n
  {
    if n == 0 || Over(s) then s else Iterated(f, f(s), n - 1)
  }

  /** The turns of a decoder that reads an untouched copy m of the magnitudes */
  ghost function WithCopy(m: seq<uint16>, quality: int, allowed: int): Turner {
    (s: State) => if |s.out| == |m| && s.i <= |m| then Turn(m, quality, allowed, s) else s
  }

  /** The turns of one that reads what it has left in the buffer */
  ghost function InPlace(quality: int, allowed: int): Turner {
    (s: State) => if s.i <= |s.out| then Turn(s.out, quality, allowed, s) else s
  }

  ghost function CopyTurns(m: seq<uint16>, quality: int, allowed: int, n: nat): (s': State)
    ensures s'.i <= |s'.out| == |m|
  {
    Iterated(WithCopy(m, quality, allowed), Start(m), n)
  }

  ghost function Turns(quality: int, allowed: int, s: State, n: nat): (s': State)
    requires s.i <= |s.out|
    ensures s.i <= s'.i <= |s'.out| == |s.out|
  {
    Iterated(InPlace(quality, allowed), s, n)
  }

  function Start(m: seq<uint16>): State { State(0, 0, 0, m) }

  /** Does the outer loop come to the end of the buffer? */
  ghost predicate Ends(quality: int, allowed: int, s: State)
    requires s.i <= |s.out|
  {
    exists n: nat :: Over(Turns(quality, allowed, s, n))
  }

  /** out is what the decoder in place, or the one with the copy, leaves in the end. */
  ghost predicate Decoded(m: seq<uint16>, quality: int, allowed: int, out: seq<uint16>) {
    exists n: nat ::
      Over(Turns(quality, allowed, Start(m), n)) && out == Turns(quality, allowed, Start(m), n).out
  }

  ghost predicate DecodedFromCopy(m: seq<uint16>, quality: int, allowed: int, out: seq<uint16>) {
    exists n: nat ::
      Over(CopyTurns(m, quality, allowed, n)) && out == CopyTurns(m, quality, allowed, n).out
  }

  // ----- it recovers the bits of a clean signal -----

  /** Manchester encoding with two levels: a falling pair is a 1, a rising one a 0 */
  function Encode(bits: seq<uint16>, high: uint16, low: uint16): (m: seq<uint16>)
    ensures |m| == 2 * |bits|
  {
    if bits == [] then [] else (if bits[0] == 1 then [high, low] else [low, high]) + Encode(bits[1..], high, low)
  }

  lemma CleanBit(quality: int, a: uint16, b: uint16, bit: uint16, high: uint16, low: uint16)
    requires low < high && bit in {0, 1} && (a, b) in {(high, low), (low, high)}
    ensures SingleManchester(quality, a, b, if bit == 1 then high else low, if bit == 1 then low else high) == bit
  {
  }

  /** The state behind a good bit */
  function Marked(m: seq<uint16>, s: State, i2: nat, bit: uint16): State
    requires |s.out| == |m| && i2 <= s.i < |m| - 1
  {
    State(s.i + 2, m[s.i], m[s.i + 1], s.out[s.i := OVERWRITE][s.i + 1 := OVERWRITE][i2 := bit])
  }

  /** The bits are in place from i2 on, and what was before them has stayed. */
  ghost predicate BitsInPlace(out: seq<uint16>, before: seq<uint16>, i2: nat, bits: seq<uint16>) {
    && i2 + |bits| <= |before| == |out| && out[i2..i2 + |bits|] == bits
    && forall k | 0 <= k < i2 :: out[k] == before[k]
  }

  lemma FirstInPlace(out: seq<uint16>, m: seq<uint16>, s: State, i2: nat, bits: seq<uint16>)
    requires |s.out| == |m| && i2 <= s.i < |m| - 1 && bits != []
    requires BitsInPlace(out, Marked(m, s, i2, bits[0]).out, i2 + 1, bits[1..])
    ensures BitsInPlace(out, s.out, i2, bits)
  {
    assert out[i2..i2 + |bits|] == [out[i2]] + out[i2 + 1..i2 + |bits|];
    assert bits == [bits[0]] + bits[1..];
  }

  lemma EncodedAt(m: seq<uint16>, i: nat, bits: seq<uint16>, high: uint16, low: uint16)
    requires bits != [] && i <= |m| && m[i..] == Encode(bits, high, low) && bits[0] in {0, 1}
    ensures i + 2 <= |m| && m[i + 2..] == Encode(bits[1..], high, low)
    ensures m[i] == (if bits[0] == 1 then high else low) && m[i + 1] == (if bits[0] == 1 then low else high)
  {
    var e := Encode(bits, high, low);
    assert m[i] == e[0] && m[i + 1] == e[1];
    assert m[i + 2..] == m[i..][2..] == e[2..] == Encode(bits[1..], high, low);
  }

  lemma {:induction false} MoreTurns(f: Turner, s: State, n: nat, k: nat)
    requires s.i <= |s.out|
    ensures Iterated(f, Iterated(f, s, n), k) == Iterated(f, s, n + k)
    decreases n
  {
    if n > 0 && !Over(s) {
      MoreTurns(f, f(s), n - 1, k);
    }
  }

  lemma LastTurn(f: Turner, s: State, n: nat)
    requires s.i <= |s.out|
    ensures var t := Iterated(f, s, n); Iterated(f, s, n + 1) == if Over(t) then t else f(t)
  {
    var t := Iterated(f, s, n);
    MoreTurns(f, s, n, 1);
    assert !Over(t) ==> Iterated(f, t, 1) == Iterated(f, f(t), 0);
  }

  /** One more turn in place */
  lemma TurnsStep(quality: int, allowed: int, s: State, n: nat)
    requires s.i <= |s.out|
    ensures Turns(quality, allowed, s, 0) == s
    ensures var t := Turns(quality, allowed, s, n);
            Turns(quality, allowed, s, n + 1) == if Over(t) then t else Turn(t.out, quality, allowed, t)
  {
    LastTurn(InPlace(quality, allowed), s, n);
  }

  lemma CopyTurnsStep(m: seq<uint16>, quality: int, allowed: int, n: nat)
    ensures CopyTurns(m, quality, allowed, 0) == Start(m)
    ensures var t := CopyTurns(m, quality, allowed, n);
            CopyTurns(m, quality, allowed, n + 1) == if Over(t) then t else Turn(m, quality, allowed, t)
  {
    LastTurn(WithCopy(m, quality, allowed), Start(m), n);
  }

  // ----- when the outer loop ends -----

  /** Without allowed errors, near the end of the buffer and behind a bad pair, the
      mark of the bad sample equals the magnitude behind it. */
  predicate Stalled(quality: int, allowed: int, s: State) {
    && allowed <= 0 && quality != 0 && quality != 5
    && |s.out| - PREAMBLE_LEN <= s.i && !Over(s)
    && s.out[s.i + 1] == BADSAMPLE && SingleManchester(quality, s.a, s.b, s.out[s.i], BADSAMPLE) == BADSAMPLE
  }

  /** The first pair that the turn from s reads is bad, and no error is allowed. */
  predicate BadStart(quality: int, allowed: int, s: State)
    requires !Over(s)
  {
    allowed <= 0 && SingleManchester(quality, s.a, s.b, s.out[s.i], s.out[s.i + 1]) == BADSAMPLE
  }

  /** Before the last 16 samples every turn makes progress; behind, exactly if its
      first pair is not bad. */
  lemma TurnMoves(quality: int, allowed: int, s: State)
    requires s.i <= |s.out| && !Over(s)
    ensures var s' := Turn(s.out, quality, allowed, s);
            if |s.out| - PREAMBLE_LEN <= s.i && BadStart(quality, allowed, s)
            then s' == State(s.i, s.out[s.i], s.out[s.i + 1], s.out[s.i := BADSAMPLE])
            else s'.i > s.i
  {
  }

  /** A bad pair, twice overwritten, is good unless its second sample is 255. */
  lemma ThirdPair(quality: int, d: uint16)
    ensures SingleManchester(quality, BADSAMPLE, d, BADSAMPLE, d) == BADSAMPLE
            <==> d == BADSAMPLE && quality != 0 && quality != 5
  {
  }

  lemma PairsWith255(quality: int, c: uint16)
    requires quality != 0 && quality != 5
    ensures SingleManchester(quality, c, BADSAMPLE, BADSAMPLE, BADSAMPLE) == BADSAMPLE
  {
  }

  lemma StaysStalled(quality: int, allowed: int, s: State)
    requires s.i <= |s.out| && Stalled(quality, allowed, s)
    ensures Stalled(quality, allowed, Turn(s.out, quality, allowed, s))
  {
    TurnMoves(quality, allowed, s);
    PairsWith255(quality, s.out[s.i]);
  }

  lemma TurnsOfTurns(quality: int, allowed: int, s: State, n: nat, k: nat)
    requires s.i <= |s.out|
    ensures Turns(quality, allowed, Turns(quality, allowed, s, n), k) == Turns(quality, allowed, s, n + k)
  {
    MoreTurns(InPlace(quality, allowed), s, n, k);
  }

  /** Unless it is stalled, the loop makes progress within three turns. */
  lemma MovesInThree(quality: int, allowed: int, s: State) returns (n: nat)
    requires s.i <= |s.out| && !Over(s) && !Stalled(quality, allowed, s)
    ensures Turns(quality, allowed, s, n).i > s.i
  {
    n := 0;
    while n < 3 && Turns(quality, allowed, s, n).i == s.i
      invariant n <= 3 && Reread(quality, allowed, s, Turns(quality, allowed, s, n), n)
    {
      TurnsStep(quality, allowed, s, n);
      RereadNext(quality, allowed, s, Turns(quality, allowed, s, n), n);
      n := n + 1;
    }
  }

  /** t is where n turns lead that make no progress. */
  ghost predicate Reread(quality: int, allowed: int, s: State, t: State, n: nat)
    requires !Over(s)
  {
    t.i > s.i || (t.i == s.i && |t.out| == |s.out| && if n == 0 then t == s else
                  && |s.out| - PREAMBLE_LEN <= s.i && BadStart(quality, allowed, s) && n <= 2
                  && t.b == s.out[s.i + 1] && t.out == s.out[s.i := BADSAMPLE]
                  && t.a == if n == 1 then s.out[s.i] else BADSAMPLE)
  }

  lemma RereadNext(quality: int, allowed: int, s: State, t: State, n: nat)
    requires !Over(s) && !Stalled(quality, allowed, s) && t.i == s.i && n < 3 && Reread(quality, allowed, s, t, n)
    ensures Reread(quality, allowed, s, Turn(t.out, quality, allowed, t), n + 1)
  {
    TurnMoves(quality, allowed, t);
    ThirdPair(quality, s.out[s.i + 1]);
  }

  lemma {:induction false} StalledForever(quality: int, allowed: int, s: State, n: nat)
    requires s.i <= |s.out| && Stalled(quality, allowed, s)
    ensures Stalled(quality, allowed, Turns(quality, allowed, s, n))
  {
    if n == 0 {
      TurnsStep(quality, allowed, s, 0);
    } else {
      StalledForever(quality, allowed, s, n - 1);
      TurnsStep(quality, allowed, s, n - 1);
      StaysStalled(quality, allowed, Turns(quality, allowed, s, n - 1));
    }
  }

  ghost predicate NeverStalls(quality: int, allowed: int, s: State)
    requires s.i <= |s.out|
  {
    forall n: nat :: !Stalled(quality, allowed, Turns(quality, allowed, s, n))
  }

  lemma {:induction false} EndsIfNeverStalled(quality: int, allowed: int, s: State)
    requires s.i <= |s.out| && NeverStalls(quality, allowed, s)
    ensures Ends(quality, allowed, s)
    decreases |s.out| - s.i
  {
    TurnsStep(quality, allowed, s, 0);
    assert !Stalled(quality, allowed, Turns(quality, allowed, s, 0));
    if Over(s) {
      assert Over(Turns(quality, allowed, s, 0));
    } else {
      var n := MovesInThree(quality, allowed, s);
      var s' := Turns(quality, allowed, s, n);
      forall k: nat ensures !Stalled(quality, allowed, Turns(quality, allowed, s', k)) {
        TurnsOfTurns(quality, allowed, s, n, k);
      }
      EndsIfNeverStalled(quality, allowed, s');
      var k: nat :| Over(Turns(quality, allowed, s', k));
      TurnsOfTurns(quality, allowed, s, n, k);
      assert Over(Turns(quality, allowed, s, n + k));
    }
  }

  lemma TurnsOver(quality: int, allowed: int, s: State, n: nat)
    requires s.i <= |s.out| && Over(s)
    ensures Turns(quality, allowed, s, n) == s
  {
  }

  lemma StallOrEnd(quality: int, allowed: int, s: State, n: nat, k: nat)
    requires s.i <= |s.out| && Over(Turns(quality, allowed, s, k))
    ensures !Stalled(quality, allowed, Turns(quality, allowed, s, n))
  {
    TurnsOfTurns(quality, allowed, s, n, k);
    TurnsOfTurns(quality, allowed, s, k, n);
    TurnsOver(quality, allowed, Turns(quality, allowed, s, k), n);
    if Stalled(quality, allowed, Turns(quality, allowed, s, n)) {
      StalledForever(quality, allowed, Turns(quality, allowed, s, n), k);
    }
  }

  /** The loop ends exactly if it never stalls. */
  lemma EndsIff(quality: int, allowed: int, s: State)
    requires s.i <= |s.out|
    ensures Ends(quality, allowed, s) <==> NeverStalls(quality, allowed, s)
  {
    if Ends(quality, allowed, s) {
      var k: nat :| Over(Turns(quality, allowed, s, k));
      forall n: nat ensures !Stalled(quality, allowed, Turns(quality, allowed, s, n)) {
        StallOrEnd(quality, allowed, s, n, k);
      }
    } else if NeverStalls(quality, allowed, s) {
      EndsIfNeverStalled(quality, allowed, s);
    }
  }

  /** What a turn leaves alone */
  ghost predicate Ahead(m: seq<uint16>, s: State) {
    |s.out| == |m| && s.i <= |m| && forall k | s.i < k < |m| :: s.out[k] == m[k]
  }

  lemma MarkBitsAhead(m: seq<uint16>, quality: int, allowed: int, s: State, i2: nat, errors: nat)
    requires |s.out| == |m| && i2 <= s.i <= |m|
    ensures var s' := MarkBits(m, quality, allowed, s, i2, errors); forall k | s'.i < k < |m| :: s'.out[k] == s.out[k]
    decreases |m| - s.i
  {
  }

  lemma TurnAhead(m: seq<uint16>, quality: int, allowed: int, s: State)
    requires Ahead(m, s)
    ensures Ahead(m, Turn(s.out, quality, allowed, s))
  {
    var t := FindPreamble(s.out, s);
    MarkBitsAhead(s.out, quality, allowed, t, t.i, 0);
  }

  lemma {:induction false} TurnsAhead(m: seq<uint16>, quality: int, allowed: int, n: nat)
    ensures Ahead(m, Turns(quality, allowed, Start(m), n))
  {
    if n == 0 {
      TurnsStep(quality, allowed, Start(m), 0);
    } else {
      TurnsAhead(m, quality, allowed, n - 1);
      TurnsStep(quality, allowed, Start(m), n - 1);
      TurnAhead(m, quality, allowed, Turns(quality, allowed, Start(m), n - 1));
    }
  }

  /** For every number of allowed errors the loop ends if one error is allowed, or
      the quality setting is 0 or 5, or none of the last 15 magnitudes is 255. */
  lemma EndsUnless255(quality: int, allowed: int, m: seq<uint16>)
    requires || allowed >= 1 || quality == 0 || quality == 5
             || forall k | 0 <= k < |m| && |m| - PREAMBLE_LEN < k :: m[k] != BADSAMPLE
    ensures Ends(quality, allowed, Start(m))
  {
    forall n: nat ensures !Stalled(quality, allowed, Turns(quality, allowed, Start(m), n)) {
      TurnsAhead(m, quality, allowed, n);
    }
    EndsIff(quality, allowed, Start(m));
  }

  /** What magnitute() makes of a pair of 8-bit samples: a sum of two squares */
  ghost predicate IsMagnitude(x: uint16) {
    exists i: nat, q: nat | i <= 128 && q <= 128 :: x == i * i + q * q
  }

  lemma SquareMod4(i: nat)
    ensures i * i % 4 <= 1
  {
    var k, r := i / 2, i % 2;
    assert i == 2 * k + r && r * r == r;
    assert i * i == 4 * (k * k + k * r) + r;
  }

  lemma SumMod4(x: nat, y: nat)
    requires x % 4 <= 1 && y % 4 <= 1
    ensures x + y != 255
  {
  }

  lemma SumOfSquares(i: nat, q: nat)
    ensures i * i + q * q != 255
  {
    SquareMod4(i);
    SquareMod4(q);
    SumMod4(i * i, q * q);
  }

  lemma NotAMagnitude()
    ensures !IsMagnitude(BADSAMPLE)
  {
    forall i: nat, q: nat ensures i * i + q * q != 255 {
      SumOfSquares(i, q);
    }
  }

  /** On every buffer of magnitudes the loop ends, whatever the settings. */
  lemma EndsOnMagnitudes(quality: int, allowed: int, m: seq<uint16>)
    requires forall k | 0 <= k < |m| :: IsMagnitude(m[k])
    ensures Ends(quality, allowed, Start(m))
  {
    NotAMagnitude();
    EndsUnless255(quality, allowed, m);
  }

  // ----- when the magnitudes are overwritten before they are read -----

  /** From place i on the magnitudes are still there. */
  ghost predicate Unread(m: seq<uint16>, now: seq<uint16>, i: nat) {
    |now| == |m| && forall k | i <= k < |m| :: now[k] == m[k]
  }

  lemma PreambleUnread(m: seq<uint16>, now: seq<uint16>, i: nat)
    requires Unread(m, now, i) && i + PREAMBLE_LEN <= |m|
    ensures IsPreamble(now, i) <==> IsPreamble(m, i)
  {
  }

  lemma {:induction false} SameSearch(m: seq<uint16>, now: seq<uint16>, s: State)
    requires |s.out| == |m| && Unread(m, now, s.i)
    ensures FindPreamble(now, s) == FindPreamble(m, s)
    decreases |m| - s.i
  {
    if s.i < |m| - PREAMBLE_LEN {
      PreambleUnread(m, now, s.i);
      if !IsPreamble(m, s.i) {
        SameSearch(m, now, s.(i := s.i + 1));
      }
    }
  }

  lemma {:induction false} SameMarks(
    m: seq<uint16>, now: seq<uint16>, quality: int, allowed: int, s: State, i2: nat, errors: nat)
    requires |s.out| == |m| && i2 <= s.i <= |m| && Unread(m, now, s.i)
    ensures MarkBits(now, quality, allowed, s, i2, errors) == MarkBits(m, quality, allowed, s, i2, errors)
    decreases |m| - s.i
  {
    if s.i < |m| - 1 {
      var c, d := m[s.i], m[s.i + 1];
      var bit := SingleManchester(quality, s.a, s.b, c, d);
      if bit != BADSAMPLE {
        SameMarks(m, now, quality, allowed, Marked(m, s, i2, bit), i2 + 1, errors);
      } else if errors + 1 <= allowed {
        var good := if c > d then 1 else 0;
        SameMarks(m, now, quality, allowed, Marked(m, s, i2, good).(a := 0, b := 65535), i2 + 1, errors + 1);
      }
    }
  }

  /** A turn reads nothing before its start. */
  lemma SameTurn(m: seq<uint16>, now: seq<uint16>, quality: int, allowed: int, s: State)
    requires |s.out| == |m| && s.i <= |m| && Unread(m, now, s.i)
    ensures Turn(now, quality, allowed, s) == Turn(m, quality, allowed, s)
  {
    SameSearch(m, now, s);
    var t := FindPreamble(m, s);
    SameMarks(m, now, quality, allowed, t, t.i, 0);
  }

  /** The turn from s marks a magnitude as bad that will be read again. */
  ghost predicate Clobbers(m: seq<uint16>, quality: int, allowed: int, s: State)
    requires |s.out| == |m| && s.i <= |m|
  {
    var t := FindPreamble(m, s);
    && !Over(t) && allowed <= 0 && m[t.i] != BADSAMPLE
    && SingleManchester(quality, t.a, t.b, m[t.i], m[t.i + 1]) == BADSAMPLE
  }

  lemma MarkedUnread(m: seq<uint16>, s: State, i2: nat, bit: uint16)
    requires |s.out| == |m| && i2 <= s.i < |m| - 1 && Unread(m, s.out, s.i)
    ensures Unread(m, Marked(m, s, i2, bit).out, s.i + 2)
  {
  }

  /** MarkBits() as a value, whose definition proofs do not unfold */
  ghost predicate IsMarkBits(f: (State, nat, nat) -> State, m: seq<uint16>, quality: int, allowed: int) {
    forall s: State, i2: nat, errors: nat {:trigger MarkBits(m, quality, allowed, s, i2, errors)}
      | |s.out| == |m| && i2 <= s.i <= |m| :: f(s, i2, errors) == MarkBits(m, quality, allowed, s, i2, errors)
  }

  ghost function MarkBitsValue(m: seq<uint16>, quality: int, allowed: int): (f: (State, nat, nat) -> State)
    ensures IsMarkBits(f, m, quality, allowed)
  {
    (s: State, i2: nat, errors: nat) =>
      if |s.out| == |m| && i2 <= s.i <= |m| then MarkBits(m, quality, allowed, s, i2, errors) else s
  }

  /** What the loop does with the pair that comes next, if good; a bad one that is
      allowed; or one too many. */
  lemma MarkNext(
    f: (State, nat, nat) -> State, m: seq<uint16>, quality: int, allowed: int, s: State, i2: nat, errors: nat)
    requires IsMarkBits(f, m, quality, allowed) && |s.out| == |m| && i2 <= s.i < |m| - 1
    ensures var c, d := m[s.i], m[s.i + 1];
            var bit := SingleManchester(quality, s.a, s.b, c, d);
            f(s, i2, errors)
            == if bit != BADSAMPLE then f(Marked(m, s, i2, bit), i2 + 1, errors)
               else if errors + 1 > allowed then State(s.i, c, d, s.out[i2 := BADSAMPLE])
               else f(Marked(m, s, i2, if c > d then 1 else 0).(a := 0, b := 65535), i2 + 1, errors + 1)
  {
    var c, d := m[s.i], m[s.i + 1];
    var bit := SingleManchester(quality, s.a, s.b, c, d);
    assert f(s, i2, errors) == MarkBits(m, quality, allowed, s, i2, errors);
    var s' := Marked(m, s, i2, if bit != BADSAMPLE then bit else if c > d then 1 else 0);
    assert f(s', i2 + 1, errors) == MarkBits(m, quality, allowed, s', i2 + 1, errors);
    var s'' := s'.(a := 0, b := 65535);
    assert f(s'', i2 + 1, errors + 1) == MarkBits(m, quality, allowed, s'', i2 + 1, errors + 1);
  }

  lemma AllMarked(
    f: (State, nat, nat) -> State, m: seq<uint16>, quality: int, allowed: int, s: State, i2: nat, errors: nat)
    requires IsMarkBits(f, m, quality, allowed) && |s.out| == |m| && i2 <= s.i <= |m| && s.i >= |m| - 1
    ensures f(s, i2, errors) == s
  {
    assert f(s, i2, errors) == MarkBits(m, quality, allowed, s, i2, errors);
  }

  lemma {:induction false} MarksUnread(f: (State, nat, nat) -> State, m: seq<uint16>, quality: int, allowed: int,
                                      s: State, i2: nat, errors: nat)
    requires IsMarkBits(f, m, quality, allowed) && |s.out| == |m| && i2 <= s.i <= |m|
    requires Unread(m, s.out, s.i) && (errors < allowed || i2 < s.i)
    ensures Unread(m, f(s, i2, errors).out, f(s, i2, errors).i)
    decreases |m| - s.i
  {
    if s.i >= |m| - 1 {
      AllMarked(f, m, quality, allowed, s, i2, errors);
    } else {
      MarkNext(f, m, quality, allowed, s, i2, errors);
      var bit := SingleManchester(quality, s.a, s.b, m[s.i], m[s.i + 1]);
      var good := if bit != BADSAMPLE then bit else if m[s.i] > m[s.i + 1] then 1 else 0;
      MarkedUnread(m, s, i2, good);
      if bit != BADSAMPLE {
        MarksUnread(f, m, quality, allowed, Marked(m, s, i2, good), i2 + 1, errors);
      } else if errors < allowed {
        MarksUnread(f, m, quality, allowed, Marked(m, s, i2, good).(a := 0, b := 65535), i2 + 1, errors + 1);
      }
    }
  }

  /** A turn leaves all magnitudes ahead alone exactly if it does not mark one as
      bad that will be read again. */
  lemma TurnUnreadIff(m: seq<uint16>, quality: int, allowed: int, s: State)
    requires |s.out| == |m| && s.i <= |m| && Unread(m, s.out, s.i)
    ensures var s' := Turn(m, quality, allowed, s);
            Unread(m, s'.out, s'.i) <==> !Clobbers(m, quality, allowed, s)
  {
    var t, f := FindPreamble(m, s), MarkBitsValue(m, quality, allowed);
    assert f(t, t.i, 0) == MarkBits(m, quality, allowed, t, t.i, 0);
    if !Over(t) {
      MarkedTurnUnread(f, m, quality, allowed, t);
    }
  }

  lemma MarkedTurnUnread(f: (State, nat, nat) -> State, m: seq<uint16>, quality: int, allowed: int, t: State)
    requires IsMarkBits(f, m, quality, allowed) && |t.out| == |m| && t.i + 1 < |m| && Unread(m, t.out, t.i)
    ensures Unread(m, f(t, t.i, 0).out, f(t, t.i, 0).i)
            <==> allowed >= 1 || m[t.i] == BADSAMPLE
                 || SingleManchester(quality, t.a, t.b, m[t.i], m[t.i + 1]) != BADSAMPLE
  {
    var bit := SingleManchester(quality, t.a, t.b, m[t.i], m[t.i + 1]);
    if allowed >= 1 {
      MarksUnread(f, m, quality, allowed, t, t.i, 0);
    } else {
      MarkNext(f, m, quality, allowed, t, t.i, 0);
      if bit != BADSAMPLE {
        MarkedUnread(m, t, t.i, bit);
        MarksUnread(f, m, quality, allowed, Marked(m, t, t.i, bit), t.i + 1, 0);
      }
    }
  }

  /** Before turn n the magnitudes ahead are still there. */
  ghost predicate Intact(m: seq<uint16>, quality: int, allowed: int, n: nat) {
    var t := Turns(quality, allowed, Start(m), n);
    Unread(m, t.out, t.i)
  }

  /** Turn number k clobbers nothing. */
  ghost predicate Harmless(m: seq<uint16>, quality: int, allowed: int, k: nat) {
    var t := CopyTurns(m, quality, allowed, k);
    Over(t) || !Clobbers(m, quality, allowed, t)
  }

  lemma HarmlessTurn(m: seq<uint16>, quality: int, allowed: int, t: State)
    requires |t.out| == |m| && t.i <= |m| && Unread(m, t.out, t.i) && !Clobbers(m, quality, allowed, t)
    ensures var t' := Turn(m, quality, allowed, t); Turn(t.out, quality, allowed, t) == t' && Unread(m, t'.out, t'.i)
  {
    SameTurn(m, t.out, quality, allowed, t);
    TurnUnreadIff(m, quality, allowed, t);
  }

  lemma HarmlessStep(m: seq<uint16>, quality: int, allowed: int, n: nat)
    requires Harmless(m, quality, allowed, n) && Intact(m, quality, allowed, n)
    requires Turns(quality, allowed, Start(m), n) == CopyTurns(m, quality, allowed, n)
    ensures Turns(quality, allowed, Start(m), n + 1) == CopyTurns(m, quality, allowed, n + 1)
    ensures Intact(m, quality, allowed, n + 1)
  {
    TurnsStep(quality, allowed, Start(m), n);
    CopyTurnsStep(m, quality, allowed, n);
    var t := CopyTurns(m, quality, allowed, n);
    if !Over(t) { HarmlessTurn(m, quality, allowed, t); }
  }

  /** As long as nothing is clobbered, the decoder in place does what the one with
      the copy does. */
  lemma {:induction false} TurnsAreCopyTurns(m: seq<uint16>, quality: int, allowed: int, n: nat)
    requires forall k: nat | k < n :: Harmless(m, quality, allowed, k)
    ensures Turns(quality, allowed, Start(m), n) == CopyTurns(m, quality, allowed, n)
    ensures Intact(m, quality, allowed, n)
  {
    if n == 0 {
      TurnsStep(quality, allowed, Start(m), 0);
      CopyTurnsStep(m, quality, allowed, 0);
    } else {
      TurnsAreCopyTurns(m, quality, allowed, n - 1);
      assert Harmless(m, quality, allowed, n - 1);
      HarmlessStep(m, quality, allowed, n - 1);
    }
  }

  lemma {:induction false} FirstClobber(m: seq<uint16>, quality: int, allowed: int, n: nat) returns (k: nat)
    requires !Harmless(m, quality, allowed, n)
    ensures !Harmless(m, quality, allowed, k)
    ensures forall j: nat | j < k :: Harmless(m, quality, allowed, j)
  {
    if j: nat :| j < n && !Harmless(m, quality, allowed, j) {
      k := FirstClobber(m, quality, allowed, j);
    } else {
      k := n;
    }
  }

  /** Behind the first turn that clobbers, they are not. */
  lemma ClobberShows(m: seq<uint16>, quality: int, allowed: int, k: nat)
    requires !Harmless(m, quality, allowed, k)
    requires forall j: nat | j < k :: Harmless(m, quality, allowed, j)
    ensures !Intact(m, quality, allowed, k + 1)
  {
    TurnsAreCopyTurns(m, quality, allowed, k);
    TurnsStep(quality, allowed, Start(m), k);
    var t := Turns(quality, allowed, Start(m), k);
    SameTurn(m, t.out, quality, allowed, t);
    TurnUnreadIff(m, quality, allowed, t);
  }

  /** Nothing is overwritten before it is read exactly if no turn clobbers. */
  lemma NothingClobberedIff(m: seq<uint16>, quality: int, allowed: int)
    ensures (forall n: nat :: Intact(m, quality, allowed, n))
            <==> (forall n: nat :: Harmless(m, quality, allowed, n))
  {
    if n: nat :| !Harmless(m, quality, allowed, n) {
      var k := FirstClobber(m, quality, allowed, n);
      ClobberShows(m, quality, allowed, k);
    } else {
      forall n: nat ensures Intact(m, quality, allowed, n) {
        TurnsAreCopyTurns(m, quality, allowed, n);
      }
    }
  }

  lemma InPlaceIsCopy(m: seq<uint16>, quality: int, allowed: int, n: nat)
    requires allowed >= 1 && Over(Turns(quality, allowed, Start(m), n))
    ensures DecodedFromCopy(m, quality, allowed, Turns(quality, allowed, Start(m), n).out)
  {
    TurnsAreCopyTurns(m, quality, allowed, n);
  }

  // ----- a silent buffer -----

  ghost predicate Silent(m: seq<uint16>) { |m| >= 2 && forall k | 0 <= k < |m| :: m[k] == 0 }

  lemma {:induction false} NoPreambleInSilence(m: seq<uint16>, s: State)
    requires Silent(m) && |s.out| == |m| && s.i <= |m|
    ensures FindPreamble(m, s) == s.(i := if s.i < |m| - PREAMBLE_LEN then |m| - PREAMBLE_LEN else s.i)
    decreases |m| - s.i
  {
    if s.i < |m| - PREAMBLE_LEN {
      NoPreambleInSilence(m, s.(i := s.i + 1));
    }
  }

  function SilentState(m: seq<uint16>): State
    requires |m| >= 2
  {
    var p := if |m| < PREAMBLE_LEN then 0 else |m| - PREAMBLE_LEN;
    State(p, 0, 0, m[p := BADSAMPLE])
  }

  lemma SilentTurn(m: seq<uint16>, s: State)
    requires Silent(m) && s in {Start(m), SilentState(m)}
    ensures Turn(m, 10, 0, s) == SilentState(m)
  {
    NoPreambleInSilence(m, s);
  }

  lemma {:induction false} SilentTurns(m: seq<uint16>, n: nat)
    requires Silent(m)
    ensures CopyTurns(m, 10, 0, n) in {Start(m), SilentState(m)}
  {
    if n == 0 {
      CopyTurnsStep(m, 10, 0, 0);
    } else {
      SilentTurns(m, n - 1);
      CopyTurnsStep(m, 10, 0, n - 1);
      SilentTurn(m, CopyTurns(m, 10, 0, n - 1));
    }
  }

  /** Without allowed errors the two decoders can differ: on silence, at the usual
      quality setting, only the one in place comes to an end, and that because it
      reads its own marks. */
  lemma SilenceDiffers(m: seq<uint16>)
    requires Silent(m)
    ensures forall k | 0 <= k < |m| :: IsMagnitude(m[k])
    ensures exists out :: Decoded(m, 10, 0, out)
    ensures forall out :: !DecodedFromCopy(m, 10, 0, out)
  {
    assert IsMagnitude(0) by { assert 0 == 0 * 0 + 0 * 0; }
    EndsOnMagnitudes(10, 0, m);
    var n: nat :| Over(Turns(10, 0, Start(m), n));
    assert Decoded(m, 10, 0, Turns(10, 0, Start(m), n).out);
    forall n: nat ensures !Over(CopyTurns(m, 10, 0, n)) {
      SilentTurns(m, n);
    }
  }

  // ----- the decoder in place -----

  /** The first inner loop of manchester() */
  method SearchPreamble(buf: array<uint16>, i0: nat, a0: uint16, b0: uint16, ghost m: seq<uint16>)
    returns (i: nat, a: uint16, b: uint16)
    requires Unread(m, buf[..], i0) && i0 <= |m|
    modifies buf
    ensures State(i, a, b, buf[..]) == FindPreamble(m, State(i0, a0, b0, old(buf[..])))
    ensures Unread(m, buf[..], i)
  {
    i, a, b := i0, a0, b0;
    var len := buf.Length;
    ghost var whole := FindPreamble(m, State(i0, a0, b0, buf[..]));
    while i < len - PREAMBLE_LEN
      invariant i0 <= i <= len && a == a0 && b == b0 && buf[..] == old(buf[..])
      invariant FindPreamble(m, State(i, a, b, buf[..])) == whole
    {
      PreambleUnread(m, buf[..], i);
      var found := Preamble(buf, i);
      if !found {
        i := i + 1;
        continue;
      }
      a := buf[i];
      b := buf[i + 1];
      MarkPreamble(buf, i);
      i := i + PREAMBLE_LEN;
      break;
    }
  }

  method MarkPreamble(buf: array<uint16>, i: nat)
    requires i + PREAMBLE_LEN <= buf.Length
    modifies buf
    ensures buf[..] == Fill(old(buf[..]), i, PREAMBLE_LEN)
  {
    var i2 := 0;
    while i2 < PREAMBLE_LEN
      invariant 0 <= i2 <= PREAMBLE_LEN && buf[..] == Fill(old(buf[..]), i, i2)
    {
      buf[i + i2] := MESSAGEGO;
      i2 := i2 + 1;
    }
  }

  lemma {:induction false} CleanMarks(
    f: (State, nat, nat) -> State, m: seq<uint16>, quality: int, allowed: int, s: State, i2: nat, errors: nat,
    bits: seq<uint16>, high: uint16, low: uint16)
    requires IsMarkBits(f, m, quality, allowed)
    requires |s.out| == |m| && i2 <= s.i <= |m| && low < high && (forall k | 0 <= k < |bits| :: bits[k] in {0, 1})
    requires m[s.i..] == Encode(bits, high, low) && (s.a, s.b) in {(high, low), (low, high)}
    ensures BitsInPlace(f(s, i2, errors).out, s.out, i2, bits)
    decreases |bits|
  {
    if bits == [] {
      assert m[s.i..] == [];
      AllMarked(f, m, quality, allowed, s, i2, errors);
    } else {
      EncodedAt(m, s.i, bits, high, low);
      CleanBit(quality, s.a, s.b, bits[0], high, low);
      MarkNext(f, m, quality, allowed, s, i2, errors);
      var next := Marked(m, s, i2, bits[0]);
      CleanMarks(f, m, quality, allowed, next, i2 + 1, errors, bits[1..], high, low);
      FirstInPlace(f(next, i2 + 1, errors).out, m, s, i2, bits);
    }
  }

  /** Whatever the quality setting, every bit of an encoded message is decoded, in
      order and without an error. */
  lemma DecodesCleanBits(
    m: seq<uint16>, quality: int, allowed: int, s: State, i2: nat, errors: nat,
    bits: seq<uint16>, high: uint16, low: uint16)
    requires |s.out| == |m| && i2 <= s.i <= |m| && low < high && (forall k | 0 <= k < |bits| :: bits[k] in {0, 1})
    requires m[s.i..] == Encode(bits, high, low) && (s.a, s.b) in {(high, low), (low, high)}
    ensures var out := MarkBits(m, quality, allowed, s, i2, errors).out;
            && i2 + |bits| <= |m| && out[i2..i2 + |bits|] == bits
            && forall k | 0 <= k < i2 :: out[k] == s.out[k]
  {
    var f := MarkBitsValue(m, quality, allowed);
    CleanMarks(f, m, quality, allowed, s, i2, errors, bits, high, low);
    assert f(s, i2, errors) == MarkBits(m, quality, allowed, s, i2, errors);
  }

  /** Behind the bits everything is marked as overwritten. */
  lemma {:induction false} CleanOverwrites(
    f: (State, nat, nat) -> State, m: seq<uint16>, quality: int, allowed: int, s: State, i2: nat, errors: nat,
    bits: seq<uint16>, high: uint16, low: uint16)
    requires IsMarkBits(f, m, quality, allowed)
    requires |s.out| == |m| && i2 <= s.i <= |m| && low < high && (forall k | 0 <= k < |bits| :: bits[k] in {0, 1})
    requires m[s.i..] == Encode(bits, high, low) && (s.a, s.b) in {(high, low), (low, high)}
    requires forall k | i2 <= k < s.i :: s.out[k] == 254
    ensures var t := f(s, i2, errors);
            t.i == |m| == |t.out| && forall k | i2 + |bits| <= k < |m| :: t.out[k] == 254
    decreases |bits|
  {
    if bits == [] {
      assert m[s.i..] == [];
      AllMarked(f, m, quality, allowed, s, i2, errors);
    } else {
      EncodedAt(m, s.i, bits, high, low);
      CleanBit(quality, s.a, s.b, bits[0], high, low);
      MarkNext(f, m, quality, allowed, s, i2, errors);
      CleanOverwrites(f, m, quality, allowed, Marked(m, s, i2, bits[0]), i2 + 1, errors, bits[1..], high, low);
    }
  }

  lemma {:induction false} FindsPreamble(m: seq<uint16>, s: State, p: nat)
    requires |s.out| == |m| && s.i <= p < |m| - 16 && IsPreamble(m, p)
    requires forall k | s.i <= k < p :: !IsPreamble(m, k)
    ensures FindPreamble(m, s) == State(p + 16, m[p], m[p + 1], Fill(s.out, p, 16))
    decreases p - s.i
  {
    if s.i < p {
      FindsPreamble(m, s.(i := s.i + 1), p);
    }
  }

  /** What one turn makes of a buffer that ends with a message: the sixteen samples of
      the preamble are marked with 253, then come its bits, and the rest is marked
      with 254. */
  lemma FrameDecoded(m: seq<uint16>, quality: int, allowed: int, s: State, p: nat,
                     bits: seq<uint16>, high: uint16, low: uint16)
    requires |s.out| == |m| && s.i <= p < |m| - 16 && IsPreamble(m, p)
    requires forall k | s.i <= k < p :: !IsPreamble(m, k)
    requires low < high && m[p] == high && m[p + 1] == low
    requires (forall k | 0 <= k < |bits| :: bits[k] in {0, 1}) && m[p + 16..] == Encode(bits, high, low)
    ensures var t, n := Turn(m, quality, allowed, s), p + 16 + |bits|;
            && t.i == |m| == |t.out| && n <= |m| && (forall k | 0 <= k < p :: t.out[k] == s.out[k])
            && (forall k | p <= k < p + 16 :: t.out[k] == 253) && t.out[p + 16..n] == bits
            && (forall k | n <= k < |m| :: t.out[k] == 254)
  {
    FindsPreamble(m, s, p);
    var t, f := FindPreamble(m, s), MarkBitsValue(m, quality, allowed);
    DecodesCleanBits(m, quality, allowed, t, t.i, 0, bits, high, low);
    CleanOverwrites(f, m, quality, allowed, t, t.i, 0, bits, high, low);
    assert f(t, t.i, 0) == MarkBits(m, quality, allowed, t, t.i, 0);
  }

  /** The second inner loop of manchester(), ... */
  method MarkLoop(buf: array<uint16>, quality: int, allowed: int, i0: nat, a0: uint16, b0: uint16,
                  ghost m: seq<uint16>, ghost f: (State, nat, nat) -> State, ghost goal: State -> bool)
    returns (i: nat, a: uint16, b: uint16)
    requires Unread(m, buf[..], i0) && i0 <= |m|
    requires IsMarkBits(f, m, quality, allowed) && goal(f(State(i0, a0, b0, buf[..]), i0, 0))
    modifies buf
    ensures goal(State(i, a, b, buf[..]))
    ensures allowed >= 1 ==> Unread(m, buf[..], i)
  {
    i, a, b := i0, a0, b0;
    var i2, errors, maximumI := i, 0, buf.Length - 1;
    while i < maximumI
      invariant i0 <= i2 <= i <= |m| && 0 <= errors <= i2 - i0 && (i2 > i0 ==> i2 < i)
      invariant Unread(m, buf[..], i) && goal(f(State(i, a, b, buf[..]), i2, errors))
      decreases maximumI - i
    {
      MarkNext(f, m, quality, allowed, State(i, a, b, buf[..]), i2, errors);
      var bit := SingleManchester(quality, a, b, buf[i], buf[i + 1]);
      a := buf[i];
      b := buf[i + 1];
      if bit == BADSAMPLE {
        errors := errors + 1;
        if errors > allowed {
          MarkBad(buf, i2);
          return;
        } else {
          bit := if a > b then 1 else 0;
          a := 0;
          b := 65535;
        }
      }
      Overwrite(buf, i, i2, bit);
      i := i + 2;
      i2 := i2 + 1;
    }
    AllMarked(f, m, quality, allowed, State(i, a, b, buf[..]), i2, errors);
  }

  method MarkBad(buf: array<uint16>, i2: nat)
    requires i2 < buf.Length
    modifies buf
    ensures buf[..] == old(buf[..])[i2 := BADSAMPLE]
  {
    buf[i2] := BADSAMPLE;
  }

  /** ... and what it does */
  method Mark(buf: array<uint16>, quality: int, allowed: int, i0: nat, a0: uint16, b0: uint16, ghost m: seq<uint16>)
    returns (i: nat, a: uint16, b: uint16)
    requires Unread(m, buf[..], i0) && i0 <= |m|
    modifies buf
    ensures State(i, a, b, buf[..]) == MarkBits(m, quality, allowed, State(i0, a0, b0, old(buf[..])), i0, 0)
    ensures allowed >= 1 ==> Unread(m, buf[..], i)
  {
    ghost var f := MarkBitsValue(m, quality, allowed);
    ghost var target := MarkBits(m, quality, allowed, State(i0, a0, b0, buf[..]), i0, 0);
    i, a, b := MarkLoop(buf, quality, allowed, i0, a0, b0, m, f, (t: State) => t == target);
  }

  method Overwrite(buf: array<uint16>, i: nat, i2: nat, bit: uint16)
    requires i2 <= i && i + 1 < buf.Length
    modifies buf
    ensures buf[..] == old(buf[..])[i := OVERWRITE][i + 1 := OVERWRITE][i2 := bit]
  {
    buf[i + 1] := OVERWRITE;
    buf[i] := OVERWRITE;
    buf[i2] := bit;
  }

  /** One turn in place as a value, whose definition proofs do not unfold */
  ghost predicate IsInPlace(f: Turner, quality: int, allowed: int) {
    forall s: State {:trigger Turn(s.out, quality, allowed, s)}
      | s.i <= |s.out| :: f(s) == Turn(s.out, quality, allowed, s)
  }

  /** n turns lead from s to the end of the buffer and to a state that satisfies goal. */
  ghost predicate Arrives(goal: State -> bool, f: Turner, s: State, n: nat) {
    s.i <= |s.out| && Over(Iterated(f, s, n)) && goal(Iterated(f, s, n))
  }

  /** The body of the outer loop of manchester() */
  method TakeTurn(buf: array<uint16>, quality: int, allowed: int, i0: nat, a0: uint16, b0: uint16,
                  ghost f: Turner, ghost goal: State -> bool, ghost n: nat)
    returns (i: nat, a: uint16, b: uint16)
    requires IsInPlace(f, quality, allowed)
    requires Arrives(goal, f, State(i0, a0, b0, buf[..]), n) && i0 + 1 < buf.Length
    modifies buf
    ensures n > 0 && Arrives(goal, f, State(i, a, b, buf[..]), n - 1)
  {
    ghost var m := buf[..];
    i, a, b := SearchPreamble(buf, i0, a0, b0, m);
    i, a, b := Mark(buf, quality, allowed, i, a, b, m);
    assert State(i, a, b, buf[..]) == Turn(m, quality, allowed, State(i0, a0, b0, m)) == f(State(i0, a0, b0, m));
  }

  /** The outer loop of manchester(), ... */
  method TakeTurns(
    buf: array<uint16>, quality: int, allowed: int, ghost f: Turner, ghost goal: State -> bool, ghost turns: nat)
    requires IsInPlace(f, quality, allowed) && Arrives(goal, f, Start(buf[..]), turns)
    modifies buf
    ensures exists i: nat, a: uint16, b: uint16 :: goal(State(i, a, b, buf[..]))
  {
    ghost var n := turns;
    var a: uint16, b: uint16, i: nat := 0, 0, 0;
    var maximumI := buf.Length - 1;
    while i < maximumI
      invariant i <= buf.Length && Arrives(goal, f, State(i, a, b, buf[..]), n)
      decreases n
    {
      i, a, b := TakeTurn(buf, quality, allowed, i, a, b, f, goal, n);
      n := n - 1;
    }
  }

  /** What manchester() is to leave: the result of the turns and, with allowed
      errors, of the decoder with the copy */
  ghost function Goal(m: seq<uint16>, quality: int, allowed: int): State -> bool {
    (t: State) => Decoded(m, quality, allowed, t.out) && (allowed >= 1 ==> DecodedFromCopy(m, quality, allowed, t.out))
  }

  lemma Arrival(quality: int, allowed: int, m: seq<uint16>) returns (n: nat)
    requires Ends(quality, allowed, Start(m))
    ensures Arrives(Goal(m, quality, allowed), InPlace(quality, allowed), Start(m), n)
  {
    n :| Over(Turns(quality, allowed, Start(m), n));
    if allowed >= 1 { InPlaceIsCopy(m, quality, allowed, n); }
  }

  /** ... and manchester() as a whole.  It ends exactly if some number of turns leads
      to the end of the buffer; see EndsIff() and EndsOnMagnitudes() for when that is
      so.  With at least one allowed error the result is that of the decoder with
      the copy. */
  method Manchester(buf: array<uint16>, quality: int, allowed: int)
    requires Ends(quality, allowed, Start(buf[..]))
    modifies buf
    ensures Decoded(old(buf[..]), quality, allowed, buf[..])
    ensures allowed >= 1 ==> DecodedFromCopy(old(buf[..]), quality, allowed, buf[..])
  {
    ghost var n := Arrival(quality, allowed, buf[..]);
    TakeTurns(buf, quality, allowed, InPlace(quality, allowed), Goal(buf[..], quality, allowed), n);
  }
}
