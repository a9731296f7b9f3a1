/** The DWT cycle counter of an ARMv7-M core (ARM DDI 0403E.b) as the platform
    layer uses it: a one-way enable routine over a few debug-register bits, a
    reset and a raw read. */
module CycleCounter {
  import opened Search

  /** A polled CTRL.CYCCNTENA read-back that shows the bit set. */
  function IsSetBit(b: bool): bool { b }

  /** A polled CYCCNT read-back that shows the counter running. */
  function IsNonZero(v: bv32): bool { v != 0 }

  /** The hardware guarantee behind the two unbounded polls: among the successive
      read-backs, CYCCNTENA eventually reads set and CYCCNT eventually reads non-zero. */
  predicate PollsSettle(enaReads: seq<bool>, ticks: seq<bv32>)
  {
    (exists i :: 0 <= i < |enaReads| && IsSetBit(enaReads[i])) &&
    (exists i :: 0 <= i < |ticks| && IsNonZero(ticks[i]))
  }

  /** An access to a DWT register. `WriteCtrl` is the write-back of
      `CTRL |= CYCCNTENA`; the value it writes is not recorded. */
  datatype DwtOp = ReadCtrl | WriteCtrl | WriteCyccnt(v: bv32) | ReadCyccnt

  /** One logged access and whether DEMCR.TRCENA was set when it was made. */
  datatype Access = Access(op: DwtOp, traced: bool)

  /** The accesses in `log` from position `from` on were all made with TRCENA set. */
  ghost predicate TracedFrom(log: seq<Access>, from: nat)
  {
    forall k :: from <= k < |log| ==> log[k].traced
  }

  /** `n` identical poll reads, each with TRCENA set. */
  ghost function Polls(op: DwtOp, n: nat): (s: seq<Access>)
    ensures |s| == n
    ensures forall k :: 0 <= k < n ==> s[k] == Access(op, true)
  {
    if n == 0 then [] else Polls(op, n - 1) + [Access(op, true)]
  }

  /** The accesses of a full enable, in order: the NOCYCCNT read of CTRL, the
      reset of CYCCNT to 0, the read and write-back of CTRL that set CYCCNTENA,
      then the CYCCNTENA poll and the CYCCNT poll. `enaWaits` and `tickWaits`
      are the reads each poll made before the one that stopped it. */
  ghost function EnableAccesses(enaWaits: nat, tickWaits: nat): seq<Access>
  {
    [Access(ReadCtrl, true), Access(WriteCyccnt(0), true), Access(ReadCtrl, true), Access(WriteCtrl, true)]
      + Polls(ReadCtrl, enaWaits + 1) + Polls(ReadCyccnt, tickWaits + 1)
  }

  /** A full enable keeps the earlier log and makes every access with TRCENA set. */
  lemma EnableTraced(log: seq<Access>, enaWaits: nat, tickWaits: nat)
    ensures var full := log + EnableAccesses(enaWaits, tickWaits);
            full[..|log|] == log && TracedFrom(full, |log|)
  {
    var full := log + EnableAccesses(enaWaits, tickWaits);
    assert full[..|log|] == log;
    forall k | |log| <= k < |full|
      ensures full[k].traced
    {
      var e := EnableAccesses(enaWaits, tickWaits);
      assert full[k] == e[k - |log|];
      var m := k - |log|;
      if m >= 4 + enaWaits + 1 {
        assert e[m] == Polls(ReadCyccnt, tickWaits + 1)[m - 4 - enaWaits - 1];
      } else if m >= 4 {
        assert e[m] == Polls(ReadCtrl, enaWaits + 1)[m - 4];
      }
    }
  }

  /** The register bits the enable routine reads and writes. `dwtPresent` (the
      presence check of Table C1-2) and `noCycCnt` (DWT_CTRL.NOCYCCNT) are fixed
      by the hardware; the other three are writable. `accesses` logs every read
      or write of a DWT register, in order, with the TRCENA value at the time
      (section C1.6.5 of ARM DDI 0403E.b requires it to be set); the
      accessor methods below are the only code that changes a DWT register. */
  class Dwt {
    var trcena: bool        // DEMCR.TRCENA: master trace enable, the "already enabled" latch
    const dwtPresent: bool
    const noCycCnt: bool
    var cycCntEna: bool     // DWT_CTRL.CYCCNTENA
    var cyccnt: bv32        // DWT_CYCCNT
    ghost var accesses: seq<Access>

    constructor (trcena: bool, dwtPresent: bool, noCycCnt: bool, cycCntEna: bool, cyccnt: bv32)
      ensures this.trcena == trcena && this.dwtPresent == dwtPresent && this.noCycCnt == noCycCnt
      ensures this.cycCntEna == cycCntEna && this.cyccnt == cyccnt && accesses == []
    {
      this.trcena, this.dwtPresent, this.noCycCnt := trcena, dwtPresent, noCycCnt;
      this.cycCntEna, this.cyccnt := cycCntEna, cyccnt;
      accesses := [];
    }

    /** Reads DWT_CTRL for its NOCYCCNT bit. */
    method ReadNoCycCnt() returns (b: bool)
      modifies this`accesses
      ensures b == noCycCnt
      ensures accesses == old(accesses) + [Access(ReadCtrl, trcena)]
    {
      b := noCycCnt;
      accesses := accesses + [Access(ReadCtrl, trcena)];
    }

    /** Writes `v` to DWT_CYCCNT. */
    method SetCyccnt(v: bv32)
      modifies this`cyccnt, this`accesses
      ensures cyccnt == v
      ensures accesses == old(accesses) + [Access(WriteCyccnt(v), trcena)]
    {
      cyccnt := v;
      accesses := accesses + [Access(WriteCyccnt(v), trcena)];
    }

    /** `CTRL |= CYCCNTENA`: a read of DWT_CTRL and a write back with the bit set. */
    method SetCycCntEna()
      modifies this`cycCntEna, this`accesses
      ensures cycCntEna
      ensures accesses == old(accesses) + [Access(ReadCtrl, trcena), Access(WriteCtrl, trcena)]
    {
      cycCntEna := true;
      accesses := accesses + [Access(ReadCtrl, trcena), Access(WriteCtrl, trcena)];
    }

    /** One read of DWT_CTRL by the CYCCNTENA poll; `readBack` is the bit it shows. */
    method PollCycCntEna(readBack: bool) returns (b: bool)
      modifies this`accesses
      ensures b == readBack
      ensures accesses == old(accesses) + [Access(ReadCtrl, trcena)]
    {
      b := readBack;
      accesses := accesses + [Access(ReadCtrl, trcena)];
    }

    /** One read of DWT_CYCCNT by the start poll; `readBack` is the count it shows,
        which becomes the counter's known value. */
    method PollCyccnt(readBack: bv32) returns (v: bv32)
      modifies this`cyccnt, this`accesses
      ensures v == readBack && cyccnt == readBack
      ensures accesses == old(accesses) + [Access(ReadCyccnt, trcena)]
    {
      v := readBack;
      cyccnt := readBack;
      accesses := accesses + [Access(ReadCyccnt, trcena)];
    }

    /** The enable routine reaches its two polling loops. */
    predicate ReachesPolls()
      reads this
    {
      !trcena && dwtPresent && !noCycCnt
    }

    /** Enables cycle counting (`cyclecount_init`). `enaReads` and `ticks` are the
        successive values the two polls read back from CTRL.CYCCNTENA and from
        CYCCNT; the hardware guarantees that each poll eventually succeeds. */
    method Init(enaReads: seq<bool>, ticks: seq<bv32>) returns (ok: bool)
      requires ReachesPolls() ==> PollsSettle(enaReads, ticks)
      modifies this
      // already enabled: success, no register touched
      ensures old(trcena) ==> ok && unchanged(this)
      // DWT absent: failure, TRCENA still clear, no DWT register touched
      ensures !old(trcena) && !dwtPresent ==> !ok && unchanged(this)
      // NOCYCCNT: failure after one read of CTRL; TRCENA now set, CYCCNT and CYCCNTENA untouched
      ensures !old(trcena) && dwtPresent && noCycCnt ==>
                !ok && trcena && cycCntEna == old(cycCntEna) && cyccnt == old(cyccnt) &&
                accesses == old(accesses) + [Access(ReadCtrl, true)]
      // full enable: CYCCNT reset to 0, then CYCCNTENA set, then both polls, in that
      // order; CYCCNTENA ends set and CYCCNT holds the first non-zero count seen
      ensures old(ReachesPolls()) ==>
                ok && trcena && cycCntEna && cyccnt != 0 && cyccnt == ticks[First(ticks, IsNonZero)] &&
                accesses == old(accesses) + EnableAccesses(First(enaReads, IsSetBit), First(ticks, IsNonZero))
      ensures ok <==> old(trcena) || (dwtPresent && !noCycCnt)
      // TRCENA is never cleared, and it is set exactly when the presence check passed
      ensures trcena <==> old(trcena) || dwtPresent
      // every DWT register access happens with TRCENA already set; earlier ones are kept
      ensures |old(accesses)| <= |accesses| && accesses[..|old(accesses)|] == old(accesses)
      ensures TracedFrom(accesses, |old(accesses)|)
    {
      if trcena {
        return true;
      }
      if !dwtPresent {
        return false;
      }
      trcena := true;
      var noCnt := ReadNoCycCnt();
      if noCnt {
        return false;
      }
      SetCyccnt(0);
      SetCycCntEna();
      var i := AwaitCycCntEna(enaReads);
      var t := AwaitTick(ticks);
      EnableTraced(old(accesses), First(enaReads, IsSetBit), First(ticks, IsNonZero));
      return true;
    }

    /** The CYCCNTENA poll: reads DWT_CTRL until the bit reads back set, and
        returns how many reads showed it clear. */
    method AwaitCycCntEna(enaReads: seq<bool>) returns (i: nat)
      requires trcena
      requires exists j :: 0 <= j < |enaReads| && IsSetBit(enaReads[j])
      modifies this`accesses
      ensures i == First(enaReads, IsSetBit)
      ensures accesses == old(accesses) + Polls(ReadCtrl, i + 1)
    {
      i := 0;
      var ena := PollCycCntEna(enaReads[0]);
      while !ena
        invariant 0 <= i < |enaReads| && ena == enaReads[i]
        invariant exists j :: i <= j < |enaReads| && enaReads[j]
        invariant forall j :: 0 <= j < i ==> !IsSetBit(enaReads[j])
        invariant accesses == old(accesses) + Polls(ReadCtrl, i + 1)
        decreases |enaReads| - i
      {
        i := i + 1;
        ena := PollCycCntEna(enaReads[i]);
      }
      FirstIsUnique(enaReads, IsSetBit, i);
    }

    /** The start poll: reads DWT_CYCCNT until it reads non-zero, and returns how
        many reads showed zero; CYCCNT ends at the first non-zero value read. */
    method AwaitTick(ticks: seq<bv32>) returns (t: nat)
      requires trcena
      requires exists j :: 0 <= j < |ticks| && IsNonZero(ticks[j])
      modifies this`cyccnt, this`accesses
      ensures t == First(ticks, IsNonZero) && cyccnt == ticks[t]
      ensures accesses == old(accesses) + Polls(ReadCyccnt, t + 1)
    {
      t := 0;
      var c := PollCyccnt(ticks[0]);
      while c == 0
        invariant 0 <= t < |ticks| && c == ticks[t] && cyccnt == c
        invariant exists j :: t <= j < |ticks| && ticks[j] != 0
        invariant forall j :: 0 <= j < t ==> !IsNonZero(ticks[j])
        invariant accesses == old(accesses) + Polls(ReadCyccnt, t + 1)
        decreases |ticks| - t
      {
        t := t + 1;
        c := PollCyccnt(ticks[t]);
      }
      FirstIsUnique(ticks, IsNonZero, t);
    }

    /** Resets the counter to its reset value, 0 (`cyclecount_reset`). */
    method Reset()
      modifies this`cyccnt, this`accesses
      ensures cyccnt == 0
      ensures accesses == old(accesses) + [Access(WriteCyccnt(0), trcena)]
    {
      SetCyccnt(0);
    }

    /** The raw counter widened to 64 bits (`platform_cpu_cyclecount`): the value is
        CYCCNT itself and the upper 32 bits are always zero, so it wraps at 2^32. */
    method CpuCycleCount() returns (c: bv64)
      ensures c as int == cyccnt as int
      ensures c < 0x1_0000_0000
    {
      c := cyccnt as bv64;
    }
  }

  /** Calling the enable routine a second time: the second call succeeds exactly
      when the first got past the presence check (even if it then failed on
      NOCYCCNT), and the registers end as a single call leaves them. */
  method InitTwice(d: Dwt, enaReads: seq<bool>, ticks: seq<bv32>) returns (first: bool, second: bool)
    requires d.ReachesPolls() ==> PollsSettle(enaReads, ticks)
    modifies d
    ensures first <==> old(d.trcena) || (d.dwtPresent && !d.noCycCnt)
    ensures second <==> old(d.trcena) || d.dwtPresent
    ensures first ==> second
    ensures d.trcena <==> old(d.trcena) || d.dwtPresent
    ensures old(d.ReachesPolls()) ==> d.cycCntEna && d.cyccnt == ticks[First(ticks, IsNonZero)]
    ensures !old(d.ReachesPolls()) ==> d.cycCntEna == old(d.cycCntEna) && d.cyccnt == old(d.cyccnt)
  {
    first := d.Init(enaReads, ticks);
    second := d.Init([], []);
  }
}
