/** The shadow registers of the R820T tuner: a cache of registers 5 to 34 that is
    written along with the chip and read in its place. */
module R82xxRegisters {
  import opened Patches

  const REG_SHADOW_START := 5
  const NUM_REGS := 30

  /** The bytes of val that shadow_store() copies, and where to. */
  function StoredAt(reg: nat): nat { if reg < REG_SHADOW_START then 0 else reg - REG_SHADOW_START }

  function StoredCount(reg: nat, length: nat): nat
    requires reg <= REG_SHADOW_START + NUM_REGS
  {
    var r := reg - REG_SHADOW_START;
    var l := if r < 0 then length + r else length;
    if l <= 0 then 0 else if l > NUM_REGS - StoredAt(reg) then NUM_REGS - StoredAt(reg) else l
  }

  /** The shadow registers after a write of val to reg. */
  function Stored(regs: seq<bv8>, reg: nat, val: seq<bv8>): (regs': seq<bv8>)
    requires |regs| == NUM_REGS && reg <= REG_SHADOW_START + NUM_REGS
    ensures |regs'| == NUM_REGS
  {
    Patch(regs, StoredAt(reg), val[..StoredCount(reg, |val|)])
  }

  /** The shadow holds what the chip holds. */
  ghost predicate Coherent(regs: seq<bv8>, chip: seq<bv8>) {
    |regs| == NUM_REGS && |chip| == 256 && forall i | 0 <= i < NUM_REGS :: regs[i] == chip[REG_SHADOW_START + i]
  }

  /** A write into or across the upper end of the window keeps the shadow coherent
      if the chip takes all of it.  If the chip takes the first bytes only, that
      is so exactly if it already held the others. */
  lemma WriteKeepsCoherent(regs: seq<bv8>, chip: seq<bv8>, reg: nat, val: seq<bv8>, done: nat)
    requires Coherent(regs, chip) && done <= |val| && reg + |val| <= 256
    requires REG_SHADOW_START <= reg <= REG_SHADOW_START + NUM_REGS
    ensures Coherent(Stored(regs, reg, val), Patch(chip, reg, val[..done]))
            <==> forall j | done <= j < |val| && reg + j < REG_SHADOW_START + NUM_REGS :: chip[reg + j] == val[j]
  {
    var regs', chip' := Stored(regs, reg, val), Patch(chip, reg, val[..done]);
    forall j | done <= j < |val| && reg + j < REG_SHADOW_START + NUM_REGS
      ensures regs'[reg + j - REG_SHADOW_START] == val[j] && chip'[reg + j] == chip[reg + j]
    {
    }
  }

  /** A write of all shadowed registers makes the shadow coherent, whatever it held. */
  lemma FullWriteMakesCoherent(regs: seq<bv8>, chip: seq<bv8>, val: seq<bv8>)
    requires |regs| == NUM_REGS == |val| && |chip| == 256
    ensures Coherent(Stored(regs, REG_SHADOW_START, val), Patch(chip, REG_SHADOW_START, val))
  {
  }

  /** A run of successful writes, in order. */
  datatype RegisterWrite = RegisterWrite(reg: nat, val: seq<bv8>)

  ghost predicate Allowed(w: RegisterWrite) {
    REG_SHADOW_START <= w.reg <= REG_SHADOW_START + NUM_REGS && w.reg + |w.val| <= 256
  }

  function ShadowAfter(regs: seq<bv8>, run: seq<RegisterWrite>): (regs': seq<bv8>)
    requires |regs| == NUM_REGS && forall k | 0 <= k < |run| :: Allowed(run[k])
    ensures |regs'| == NUM_REGS
    decreases |run|
  {
    if run == [] then regs
    else
      assert Allowed(run[0]);
      ShadowAfter(Stored(regs, run[0].reg, run[0].val), run[1..])
  }

  function ChipAfter(chip: seq<bv8>, run: seq<RegisterWrite>): seq<bv8>
    requires |chip| == 256 && forall k | 0 <= k < |run| :: Allowed(run[k])
    decreases |run|
  {
    if run == [] then chip
    else
      assert Allowed(run[0]);
      ChipAfter(Patch(chip, run[0].reg, run[0].val), run[1..])
  }

  /** From a coherent state on, reading the cache is reading back the chip, after
      any number of writes. */
  lemma {:induction false} RunKeepsCoherent(regs: seq<bv8>, chip: seq<bv8>, run: seq<RegisterWrite>)
    requires Coherent(regs, chip) && forall k | 0 <= k < |run| :: Allowed(run[k])
    ensures Coherent(ShadowAfter(regs, run), ChipAfter(chip, run))
    decreases |run|
  {
    if run != [] {
      var w := run[0];
      WriteKeepsCoherent(regs, chip, w.reg, w.val, |w.val|);
      assert w.val[..|w.val|] == w.val;
      RunKeepsCoherent(Stored(regs, w.reg, w.val), Patch(chip, w.reg, w.val), run[1..]);
    }
  }

  /** A write that starts below the window copies val from its start instead of
      from the byte for the first shadowed register: the shadow stays coherent
      exactly if those bytes happen to be equal. */
  lemma WriteFromBelow(regs: seq<bv8>, chip: seq<bv8>, reg: nat, val: seq<bv8>)
    requires Coherent(regs, chip) && reg < REG_SHADOW_START && reg + |val| <= 256
    ensures Coherent(Stored(regs, reg, val), Patch(chip, reg, val))
            <==> forall i | 0 <= i < StoredCount(reg, |val|) :: val[i] == val[i + REG_SHADOW_START - reg]
  {
    var n, regs', chip' := StoredCount(reg, |val|), Stored(regs, reg, val), Patch(chip, reg, val);
    forall i: nat | i < n ensures regs'[i] == val[i] && WrittenBehind(chip', val, reg, i) {
    }
    if Coherent(regs', chip') {
      forall i: nat | i < n ensures val[i] == val[i + REG_SHADOW_START - reg] {
        assert regs'[i] == val[i] && WrittenBehind(chip', val, reg, i);
      }
    } else {
      var i :| 0 <= i < NUM_REGS && regs'[i] != chip'[REG_SHADOW_START + i];
      if i < n { assert WrittenBehind(chip', val, reg, i); }
    }
  }

  /** Register i of the shadow gets, on the chip, the byte further behind in val. */
  ghost predicate WrittenBehind(chip: seq<bv8>, val: seq<bv8>, reg: nat, i: nat)
    requires reg < REG_SHADOW_START
  {
    && REG_SHADOW_START + i < |chip| && i + REG_SHADOW_START - reg < |val|
    && chip[REG_SHADOW_START + i] == val[i + REG_SHADOW_START - reg]
  }

  predicate InWindow(reg: nat) { REG_SHADOW_START <= reg < REG_SHADOW_START + NUM_REGS }

  lemma WriteOne(regs: seq<bv8>, chip: seq<bv8>, reg: nat, v: bv8)
    requires |regs| == NUM_REGS && |chip| == 256 && InWindow(reg)
    ensures Stored(regs, reg, [v]) == regs[reg - REG_SHADOW_START := v] && Patch(chip, reg, [v]) == chip[reg := v]
    ensures Coherent(regs, chip) ==> Coherent(Stored(regs, reg, [v]), Patch(chip, reg, [v]))
    ensures [v][..1] == [v] && Patch(chip, reg, [v][..0]) == chip
  {
    assert [v][..1] == [v];
  }

  function Masked(old': bv8, val: bv8, mask: bv8): bv8 { (old' & !mask) | (val & mask) }

  /** Only masked bits change, and they become those of val. */
  lemma MaskedBits(old': bv8, val: bv8, mask: bv8)
    ensures Masked(old', val, mask) & !mask == old' & !mask && Masked(old', val, mask) & mask == val & mask
  {
  }

  /** The bytes in the messages before message i, and the answer that message i
      gets when it is acknowledged. */
  function SentBefore(length: nat, max: nat, i: nat): (n: nat)
    requires max >= 2
    ensures n <= length
  {
    if i == 0 then 0
    else
      var n := SentBefore(length, max, i - 1);
      if length - n > max - 1 then n + (max - 1) else length
  }

  function Acknowledged(length: nat, max: nat, i: nat): nat
    requires max >= 2
  {
    var left := length - SentBefore(length, max, i);
    (if left > max - 1 then max - 1 else left) + 1
  }

  /** Is there a message i at all?  An empty write sends one, too. */
  predicate Needed(length: nat, max: nat, i: nat)
    requires max >= 2
  {
    i == 0 || SentBefore(length, max, i) < length
  }

  lemma {:induction false} StillAllSent(length: nat, max: nat, m: nat, i: nat)
    requires max >= 2 && SentBefore(length, max, m) == length && m <= i
    ensures SentBefore(length, max, i) == length
  {
    if i > m {
      StillAllSent(length, max, m, i - 1);
    }
  }

  lemma AllSent(length: nat, max: nat, m: nat)
    requires max >= 2 && m > 0 && SentBefore(length, max, m) == length
    ensures forall i: nat | i >= m :: !Needed(length, max, i)
  {
    forall i: nat | i >= m ensures !Needed(length, max, i) {
      StillAllSent(length, max, m, i);
    }
  }

  /** One more piece of val reaches the chip. */
  lemma SendPiece(chip: seq<bv8>, reg: nat, val: seq<bv8>, pos: nat, size: nat)
    requires pos + size <= |val| && reg + |val| <= |chip|
    ensures Patch(Patch(chip, reg, val[..pos]), reg + pos, val[pos..pos + size]) == Patch(chip, reg, val[..pos + size])
  {
    PatchTwice(chip, reg, val[..pos], val[pos..pos + size]);
    assert val[..pos] + val[pos..pos + size] == val[..pos + size];
  }

  class Tuner {
    const regs: array<bv8>
    const maxI2cMsgLen: nat
    /** The registers of the chip itself. */
    var chip: seq<bv8>

    ghost predicate Valid()
      reads this
    {
      regs.Length == NUM_REGS && 2 <= maxI2cMsgLen <= NUM_REGS + 1 && |chip| == 256
    }

    ghost predicate IsCoherent()
      reads this, regs
    {
      Valid() && Coherent(regs[..], chip)
    }

    constructor (max: nat, registers: seq<bv8>)
      requires 2 <= max <= NUM_REGS + 1 && |registers| == 256
      ensures Valid() && fresh(regs) && maxI2cMsgLen == max && chip == registers
    {
      regs := new bv8[NUM_REGS];
      maxI2cMsgLen := max;
      chip := registers;
    }

    /** shadow_store() */
    method ShadowStore(reg: nat, val: seq<bv8>)
      requires Valid() && reg <= REG_SHADOW_START + NUM_REGS
      modifies regs
      ensures regs[..] == Stored(old(regs[..]), reg, val)
    {
      var r, length := reg - REG_SHADOW_START, |val|;
      if r < 0 {
        length := length + r;
        r := 0;
      }
      if length <= 0 {
        assert Stored(regs[..], reg, val) == regs[..];
        return;
      }
      if length > NUM_REGS - r {
        length := NUM_REGS - r;
      }
      forall i | 0 <= i < length {
        regs[r + i] := val[i];
      }
      assert regs[..] == Stored(old(regs[..]), reg, val);
    }

    /** The loop of r82xx_write() over the messages */
    method SendMessages(reg: nat, val: seq<bv8>, answers: seq<int>) returns (r: int, ghost done: nat)
      requires Valid() && reg + |val| <= 256 && |answers| > |val|
      modifies `chip
      ensures done <= |val| && chip == Patch(old(chip), reg, val[..done])
      ensures r <= 0 && (r == 0 ==> done == |val|)
      ensures r == 0 <==> forall i | 0 <= i < |answers| && Needed(|val|, maxI2cMsgLen, i) ::
                            answers[i] == Acknowledged(|val|, maxI2cMsgLen, i)
      ensures r < 0 ==> exists i | 0 <= i < |answers| && Needed(|val|, maxI2cMsgLen, i) ::
                          && answers[i] != Acknowledged(|val|, maxI2cMsgLen, i)
                          && done == SentBefore(|val|, maxI2cMsgLen, i)
                          && r == if answers[i] < 0 then answers[i] else -1
    {
      var pos, length, message := 0, |val|, 0;
      assert Patch(chip, reg, []) == chip;
      while true
        invariant 0 <= length && 0 <= pos && pos + length == |val| && chip == Patch(old(chip), reg, val[..pos])
        invariant message <= pos && pos == SentBefore(|val|, maxI2cMsgLen, message) && (pos > 0 ==> length > 0)
        invariant forall i | 0 <= i < message :: answers[i] == Acknowledged(|val|, maxI2cMsgLen, i)
        decreases length
      {
        var size;
        if length > maxI2cMsgLen - 1 {
          size := maxI2cMsgLen - 1;
        } else {
          size := length;
        }
        var rc := answers[message];
        if rc != size + 1 {
          done := pos;
          if rc < 0 {
            return rc, done;
          }
          return -1, done;
        }
        SendPiece(old(chip), reg, val, pos, size);
        chip := Patch(chip, reg + pos, val[pos..pos + size]);
        length, pos, message := length - size, pos + size, message + 1;
        if length == 0 {
          break;
        }
      }
      AllSent(|val|, maxI2cMsgLen, message);
      assert val[..|val|] == val;
      return 0, |val|;
    }

    /** r82xx_write().  The i-th message is answered by answers[i]; one that is not
        acknowledged does not reach the registers of the chip. */
    method Write(reg: nat, val: seq<bv8>, answers: seq<int>) returns (r: int, ghost done: nat)
      requires Valid() && reg <= REG_SHADOW_START + NUM_REGS && reg + |val| <= 256
      requires |answers| > |val|
      modifies this`chip, regs
      ensures Valid() && regs[..] == Stored(old(regs[..]), reg, val)
      ensures done <= |val| && chip == Patch(old(chip), reg, val[..done])
      ensures r <= 0 && (r == 0 ==> done == |val|)
      ensures r == 0 <==> forall i | 0 <= i < |answers| && Needed(|val|, maxI2cMsgLen, i) ::
                            answers[i] == Acknowledged(|val|, maxI2cMsgLen, i)
      ensures r < 0 ==> exists i | 0 <= i < |answers| && Needed(|val|, maxI2cMsgLen, i) ::
                          && answers[i] != Acknowledged(|val|, maxI2cMsgLen, i)
                          && done == SentBefore(|val|, maxI2cMsgLen, i)
                          && r == if answers[i] < 0 then answers[i] else -1
    {
      ShadowStore(reg, val);
      r, done := SendMessages(reg, val, answers);
    }

    /** r82xx_read_cache_reg() */
    method ReadCacheReg(reg: int) returns (found: bool, value: bv8)
      requires Valid()
      ensures found <==> 5 <= reg < 35
      ensures found ==> value == regs[reg - 5]
      ensures found && IsCoherent() ==> value == chip[reg]
    {
      var r := reg - REG_SHADOW_START;
      if 0 <= r < NUM_REGS {
        return true, regs[r];
      }
      return false, 0;
    }

    /** r82xx_write_reg_mask() */
    method WriteRegMask(reg: nat, val: bv8, mask: bv8, answers: seq<int>) returns (r: int)
      requires Valid() && reg < 256 && |answers| > 1
      modifies this`chip, regs
      ensures Valid()
      ensures r < 0 ==> chip == old(chip)
      ensures !InWindow(reg) ==> r == -1 && regs[..] == old(regs[..])
      ensures InWindow(reg) ==> var k := reg - REG_SHADOW_START;
                                regs[..] == old(regs[..])[k := Masked(old(regs[..])[k], val, mask)]
      ensures r >= 0 && old(IsCoherent())
              ==> IsCoherent() && chip == old(chip)[reg := Masked(old(chip)[reg], val, mask)]
    {
      var found, rc := ReadCacheReg(reg);
      if !found {
        return -1;
      }
      var masked := Masked(rc, val, mask);
      WriteOne(regs[..], chip, reg, masked);
      ghost var done;
      r, done := Write(reg, [masked], answers);
      OnePiece(maxI2cMsgLen);
    }
  }

  /** A single byte goes in one message. */
  lemma OnePiece(max: nat)
    requires max >= 2
    ensures forall i: nat | Needed(1, max, i) :: i == 0
  {
    AllSent(1, max, 1);
  }
}
