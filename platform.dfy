/** The platform's start-up sequence (`platform_init`), over the parts of it this
    model covers: the cycle counter and the trigger pin. */
module Platform {
  import opened CycleCounter
  import opened Search
  import opened Trigger

  /** Clock-tree bring-up, the serial port and the generator seed are external and
      not modelled; the cycle-counter enable result is ignored, and the start-up
      always reports 0. */
  method PlatformInit(dwt: Dwt, pin: TriggerLine, enaReads: seq<bool>, ticks: seq<bv32>) returns (r: int)
    requires dwt.ReachesPolls() ==> PollsSettle(enaReads, ticks)
    modifies dwt, pin
    ensures r == 0
    ensures pin.level == Level.Low
    ensures dwt.trcena <==> old(dwt.trcena) || dwt.dwtPresent
    ensures old(dwt.ReachesPolls()) ==> dwt.cycCntEna && dwt.cyccnt == ticks[First(ticks, IsNonZero)]
    ensures !old(dwt.ReachesPolls()) ==>
              dwt.cycCntEna == old(dwt.cycCntEna) && dwt.cyccnt == old(dwt.cyccnt)
  {
    // hal_init(): clock tree, external
    var _ := dwt.Init(enaReads, ticks);
    // uart1_init(): serial port, external
    pin.Init();
    // setup_rng(): generator seed, external
    r := 0;
  }
}
