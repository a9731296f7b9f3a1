/** The side-channel trigger pin (GPIOA pin 12) and the attribute dispatcher
    that drives it. */
module Trigger {
  import opened Search

  datatype Level = Low | High

  /** A platform attribute tag. The two clock tags are accepted and inert; any
      value outside the four named tags is `Unknown`. */
  datatype Attr = ClockUserspace | ClockMax | ScaTriggerHigh | ScaTriggerLow | Unknown(code: int)
  {
    predicate IsTrigger() { ScaTriggerHigh? || ScaTriggerLow? }

    /** The level a trigger tag drives the pin to. */
    function Drives(): Level
      requires IsTrigger()
    {
      if ScaTriggerHigh? then High else Low
    }
  }

  /** `Attr.IsTrigger` as a function value, for `First`. */
  function IsTriggerTag(a: Attr): bool { a.IsTrigger() }

  /** The outcome of dispatching a batch of attributes on a pin at `level`: whether
      a trigger tag was found, and the pin level afterwards. Entries are examined in
      order and the first trigger tag ends the batch. */
  function Dispatch(attrs: seq<Attr>, level: Level): (res: (bool, Level))
    ensures res.0 <==> exists i :: 0 <= i < |attrs| && attrs[i].IsTrigger()
    ensures res.0 ==> res.1 == attrs[First(attrs, IsTriggerTag)].Drives()
    ensures !res.0 ==> res.1 == level
  {
    if attrs == [] then (false, level)
    else if attrs[0].IsTrigger() then (true, attrs[0].Drives())
    else
      var rest := Dispatch(attrs[1..], level);
      assert forall i :: 0 < i < |attrs| ==> attrs[i] == attrs[1..][i - 1];
      rest
  }

  /** Tags other than the two trigger tags have no effect on the outcome. */
  lemma {:induction false} DispatchSkipsInert(inert: seq<Attr>, attrs: seq<Attr>, level: Level)
    requires forall i :: 0 <= i < |inert| ==> !inert[i].IsTrigger()
    ensures Dispatch(inert + attrs, level) == Dispatch(attrs, level)
  {
    if inert == [] {
      assert inert + attrs == attrs;
    } else {
      assert (inert + attrs)[0] == inert[0];
      assert (inert + attrs)[1..] == inert[1..] + attrs;
      DispatchSkipsInert(inert[1..], attrs, level);
    }
  }

  /** Entries after the first trigger tag are never examined. */
  lemma {:induction false} DispatchStopsAtTrigger(attrs: seq<Attr>, later: seq<Attr>, level: Level)
    requires exists i :: 0 <= i < |attrs| && attrs[i].IsTrigger()
    ensures Dispatch(attrs + later, level) == Dispatch(attrs, level)
  {
    if !attrs[0].IsTrigger() {
      assert (attrs + later)[1..] == attrs[1..] + later;
      var i :| 0 <= i < |attrs| && attrs[i].IsTrigger();
      assert attrs[1..][i - 1] == attrs[i];
      DispatchStopsAtTrigger(attrs[1..], later, level);
    }
  }

  /** The batch [ClockUserspace, ScaTriggerHigh, ScaTriggerLow] leaves the pin High:
      the trailing low request is not processed. A batch of clock tags is a miss. */
  lemma DispatchExamples(level: Level)
    ensures Dispatch([ClockUserspace, ScaTriggerHigh, ScaTriggerLow], level) == (true, High)
    ensures Dispatch([ClockUserspace, ClockMax], level) == (false, level)
    ensures Dispatch([], level) == (false, level)
  {
  }

  /** The output pin. Only `Init`, `High` and `Low` write its level. */
  class TriggerLine {
    var level: Level

    constructor (level: Level)
      ensures this.level == level
    {
      this.level := level;
    }

    /** Drives the pin low (`trigger_init`); the GPIO set-up before it is not modelled. */
    method Init()
      modifies this
      ensures level == Level.Low
    {
      level := Level.Low;
    }

    /** `trigger_high` */
    method High()
      modifies this
      ensures level == Level.High
    {
      level := Level.High;
    }

    /** `trigger_low` */
    method Low()
      modifies this
      ensures level == Level.Low
    {
      level := Level.Low;
    }

    /** Applies the first `n` entries of `attr` (`platform_set_attr`): returns at the
        first trigger tag, after driving the pin accordingly, and returns false
        with the pin unchanged when there is none. */
    method SetAttr(attr: seq<Attr>, n: nat) returns (ok: bool)
      requires n <= |attr|
      modifies this
      ensures (ok, level) == Dispatch(attr[..n], old(level))
      ensures ok <==> exists i :: 0 <= i < n && attr[i].IsTrigger()
      ensures !ok ==> level == old(level)
    {
      var i := 0;
      while i < n
        invariant 0 <= i <= n
        invariant forall j :: 0 <= j < i ==> !attr[j].IsTrigger()
        invariant level == old(level)
      {
        match attr[i] {
          case ClockUserspace =>
          case ClockMax =>
          case ScaTriggerHigh =>
            High();
            SkipToCurrent(attr, n, i, old(level));
            return true;
          case ScaTriggerLow =>
            Low();
            SkipToCurrent(attr, n, i, old(level));
            return true;
          case Unknown(_) =>
        }
        i := i + 1;
      }
      assert forall j :: 0 <= j < n ==> attr[..n][j] == attr[j];
      ok := false;
    }

    /** The entries before `i` are inert, so dispatching `attr[..n]` is dispatching `attr[i..n]`. */
    static lemma SkipToCurrent(attr: seq<Attr>, n: nat, i: nat, level: Level)
      requires i < n <= |attr|
      requires forall j :: 0 <= j < i ==> !attr[j].IsTrigger()
      ensures Dispatch(attr[..n], level) == Dispatch(attr[i..n], level)
      ensures attr[i..n][0] == attr[i]
    {
      assert attr[..n] == attr[..i] + attr[i..n];
      DispatchSkipsInert(attr[..i], attr[i..n], level);
    }
  }
}
