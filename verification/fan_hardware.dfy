/**
 Takeover and restore of one PWM output (internal/fans/linux.go). The two
 sysfs attributes are numbers in the hardware; a read or a write of either may
 fail, and a failed write leaves the attribute as it was.
 */
module FanHardware {
  import opened Prelude

  /** `hasEnable` is false for chips without pwmN_enable. */
  datatype Fan = Fan(
    pwm: int,
    enable: int,
    hasEnable: bool,
    taken: bool,
    origPwm: Option<int>,
    origEnable: Option<int>)

  /** Which of the accesses of one call succeed. */
  datatype Access = Access(readPwm: bool, readEnable: bool, writeEnable: bool, writePwm: bool)

  const MANUAL_ENABLE := 1

  // --- quantisation -------------------------------------------------------------

  function Clamp(pct: real): real { if pct < 0.0 then 0.0 else if pct > 100.0 then 100.0 else pct }

  /** int(pct / 100 * 255 + 0.5); the conversion truncates, which is the floor as the sum is not negative. */
  function EncodePct(pct: real): (raw: int)
    ensures 0 <= raw <= 255
  {
    (Clamp(pct) / 100.0 * 255.0 + 0.5).Floor
  }

  function DecodeRaw(raw: int): real { raw as real / 255.0 * 100.0 }

  lemma EncodeMonotone(p: real, q: real)
    requires p <= q
    ensures EncodePct(p) <= EncodePct(q)
  {
  }

  lemma EncodeRecoversRaw(raw: int)
    requires 0 <= raw <= 255
    ensures EncodePct(DecodeRaw(raw)) == raw
  {
  }

  /** Reading back a written duty is off by at most half a step, 100/510 of a percent. */
  lemma EncodeErrorIsHalfAStep(pct: real)
    requires 0.0 <= pct <= 100.0
    ensures -100.0 / 510.0 <= DecodeRaw(EncodePct(pct)) - pct <= 100.0 / 510.0
  {
  }

  /** The bound is sharp: half way between two raw values it is reached. */
  lemma EncodeErrorIsAttained()
    ensures DecodeRaw(EncodePct(100.0 / 510.0)) - 100.0 / 510.0 == 100.0 / 510.0
  {
  }

  // --- critical sections ----------------------------------------------------------

  function SetDutyBlock(f: Fan, pct: real, a: Access): (Fan, bool) {
    var seen := f.(origPwm := if a.readPwm then Some(f.pwm) else None,
                   origEnable := if f.hasEnable then (if a.readEnable then Some(f.enable) else None) else f.origEnable);
    if !f.taken && f.hasEnable && !a.writeEnable then (seen, false)
    else
      var owned := if f.taken then f
                   else seen.(taken := true, enable := if f.hasEnable then MANUAL_ENABLE else f.enable);
      if a.writePwm then (owned.(pwm := EncodePct(pct)), true) else (owned, false)
  }

  function ReleaseBlock(f: Fan, a: Access): (Fan, bool) {
    if !f.taken then (f, true)
    else if f.origPwm.Some? && !a.writePwm then (f, false)
    else
      var pwmBack := if f.origPwm.Some? then f.(pwm := f.origPwm.value) else f;
      if f.hasEnable && f.origEnable.Some? && !a.writeEnable then (pwmBack, false)
      else
        var back := if f.hasEnable && f.origEnable.Some? then pwmBack.(enable := f.origEnable.value) else pwmBack;
        (back.(taken := false), true)
  }

  class HwmonFan {
    var pwm: int
    var enable: int
    const hasEnable: bool
    var taken: bool
    var origPwm: Option<int>
    var origEnable: Option<int>

    ghost function Fields(): Fan reads this { Fan(pwm, enable, hasEnable, taken, origPwm, origEnable) }

    constructor (pwm: int, enable: int, hasEnable: bool)
      ensures Fields() == Fan(pwm, enable, hasEnable, false, None, None)
    {
      this.pwm, this.enable, this.hasEnable := pwm, enable, hasEnable;
      taken, origPwm, origEnable := false, None, None;
    }

    method WriteEnable(value: int, works: bool) returns (ok: bool)
      modifies this`enable
      ensures ok == works && enable == if works then value else old(enable)
    {
      if works {
        enable := value;
      }
      return works;
    }

    method WritePwm(value: int, works: bool) returns (ok: bool)
      modifies this`pwm
      ensures ok == works && pwm == if works then value else old(pwm)
    {
      if works {
        pwm := value;
      }
      return works;
    }

    method SetDuty(pct: real, a: Access) returns (ok: bool)
      modifies this
      ensures (Fields(), ok) == SetDutyBlock(old(Fields()), pct, a)
    {
      if !taken {
        origPwm := if a.readPwm then Some(pwm) else None;
        if hasEnable {
          origEnable := if a.readEnable then Some(enable) else None;
          ok := WriteEnable(MANUAL_ENABLE, a.writeEnable);
          if !ok {
            return false;
          }
        }
        taken := true;
      }
      var p := pct;
      if p < 0.0 {
        p := 0.0;
      }
      if p > 100.0 {
        p := 100.0;
      }
      ok := WritePwm((p / 100.0 * 255.0 + 0.5).Floor, a.writePwm);
    }

    method Release(a: Access) returns (ok: bool)
      modifies this
      ensures (Fields(), ok) == ReleaseBlock(old(Fields()), a)
    {
      if !taken {
        return true;
      }
      if origPwm.Some? {
        ok := WritePwm(origPwm.value, a.writePwm);
        if !ok {
          return false;
        }
      }
      if hasEnable && origEnable.Some? {
        ok := WriteEnable(origEnable.value, a.writeEnable);
        if !ok {
          return false;
        }
      }
      taken := false;
      return true;
    }
  }

  // --- runs -----------------------------------------------------------------------

  /**
   A fan with its history: the registers as they were just before the takeover
   that is in force, and which of them that takeover managed to read.
   */
  datatype Owned = Owned(fan: Fan, basePwm: int, baseEnable: int, knewPwm: bool, knewEnable: bool)

  datatype Event =
    | Firmware(pwm: int, enable: int)
    | SetDuty(pct: real, access: Access)
    | Release(access: Access)

  function InitialOwned(pwm: int, enable: int, hasEnable: bool): Owned {
    Owned(Fan(pwm, enable, hasEnable, false, None, None), pwm, enable, false, false)
  }

  /** The firmware moves the registers only while it is in charge. */
  predicate Enabled(o: Owned, e: Event) { e.Firmware? ==> !o.fan.taken }

  function Next(o: Owned, e: Event): Owned
    requires Enabled(o, e)
  {
    match e
    case Firmware(pwm, enable) => o.(fan := o.fan.(pwm := pwm, enable := enable))
    case SetDuty(pct, a) =>
      var after := SetDutyBlock(o.fan, pct, a).0;
      if !o.fan.taken && after.taken then Owned(after, o.fan.pwm, o.fan.enable, a.readPwm, a.readEnable)
      else o.(fan := after)
    case Release(a) => o.(fan := ReleaseBlock(o.fan, a).0)
  }

  predicate Legal(o: Owned, events: seq<Event>)
    decreases |events|
  {
    events == [] || (Enabled(o, events[0]) && Legal(Next(o, events[0]), events[1..]))
  }

  function Run(o: Owned, events: seq<Event>): Owned
    requires Legal(o, events)
    decreases |events|
  {
    if events == [] then o else Run(Next(o, events[0]), events[1..])
  }

  /** While the fan is taken, what was saved is what the registers held before, or nothing where the read failed. */
  predicate SavedBeforeTakeover(o: Owned) {
    o.fan.taken ==>
      && o.fan.origPwm == (if o.knewPwm then Some(o.basePwm) else None)
      && (o.fan.hasEnable ==> o.fan.origEnable == if o.knewEnable then Some(o.baseEnable) else None)
      && (!o.fan.hasEnable ==> o.fan.enable == o.baseEnable)
  }

  lemma {:induction false} RunKeepsSaved(o: Owned, events: seq<Event>)
    requires SavedBeforeTakeover(o) && Legal(o, events)
    ensures SavedBeforeTakeover(Run(o, events))
    decreases |events|
  {
    if events != [] {
      RunKeepsSaved(Next(o, events[0]), events[1..]);
    }
  }

  /** No Release in the run succeeds. */
  predicate AllReleasesFail(o: Owned, events: seq<Event>)
    requires Legal(o, events)
    decreases |events|
  {
    events == [] ||
    (&& (events[0].Release? ==> !ReleaseBlock(o.fan, events[0].access).1)
     && AllReleasesFail(Next(o, events[0]), events[1..]))
  }

  /** Calls while the fan is taken, failed releases among them, do not touch what the takeover saved. */
  lemma {:induction false} HistoryLastsUntilRelease(o: Owned, events: seq<Event>)
    requires o.fan.taken && Legal(o, events) && AllReleasesFail(o, events)
    ensures var t := Run(o, events);
            t.fan.taken && t.fan.hasEnable == o.fan.hasEnable &&
            t.fan.origPwm == o.fan.origPwm && t.fan.origEnable == o.fan.origEnable &&
            t.basePwm == o.basePwm && t.baseEnable == o.baseEnable &&
            t.knewPwm == o.knewPwm && t.knewEnable == o.knewEnable
    decreases |events|
  {
    if events != [] {
      HistoryLastsUntilRelease(Next(o, events[0]), events[1..]);
    }
  }

  /**
   After any run, a Release that succeeds gives the fan back; each register that
   the takeover could read holds exactly its pre-takeover value again. One that
   fails keeps the fan taken, with the saved values still in place.
   */
  lemma ReleaseRestores(pwm: int, enable: int, hasEnable: bool, events: seq<Event>, a: Access)
    requires Legal(InitialOwned(pwm, enable, hasEnable), events)
    requires Run(InitialOwned(pwm, enable, hasEnable), events).fan.taken
    ensures var o := Run(InitialOwned(pwm, enable, hasEnable), events);
            var (after, ok) := ReleaseBlock(o.fan, a);
            && (ok ==> !after.taken)
            && (ok && o.knewPwm ==> after.pwm == o.basePwm)
            && (ok && !o.knewPwm ==> after.pwm == o.fan.pwm)
            && (ok && (o.knewEnable || !o.fan.hasEnable) ==> after.enable == o.baseEnable)
            && (!ok ==> after.taken && after.origPwm == o.fan.origPwm && after.origEnable == o.fan.origEnable)
            && (a.writePwm && a.writeEnable ==> ok)
  {
    RunKeepsSaved(InitialOwned(pwm, enable, hasEnable), events);
  }

  /** A takeover whose register writes succeed leaves the requested duty in force, and reads back within half a step. */
  lemma SetDutyTakesEffect(f: Fan, pct: real, a: Access)
    requires 0.0 <= pct <= 100.0
    ensures var (after, ok) := SetDutyBlock(f, pct, a);
            && (ok ==> after.taken && -100.0 / 510.0 <= DecodeRaw(after.pwm) - pct <= 100.0 / 510.0)
            && (!ok ==> after.pwm == f.pwm)
            && (!f.taken && ok && f.hasEnable ==> after.enable == MANUAL_ENABLE)
            && (!after.taken ==> after.pwm == f.pwm && after.enable == f.enable)
  {
  }

  /**
   SetDuty succeeds exactly if the duty can be written and manual control is
   there, needs no switch or can be switched on.
   */
  lemma SetDutySucceedsIff(f: Fan, pct: real, a: Access)
    ensures var (after, ok) := SetDutyBlock(f, pct, a);
            var controlled := f.taken || !f.hasEnable || a.writeEnable;
            && (ok <==> controlled && a.writePwm)
            && (after.taken <==> controlled)
            && (controlled && !f.taken && f.hasEnable ==> after.enable == 1)
            && (f.taken || !f.hasEnable || !controlled ==> after.enable == f.enable)
            && (ok && pct <= 0.0 ==> after.pwm == 0) && (ok && pct >= 100.0 ==> after.pwm == 255)
            && (ok ==> after.pwm == EncodePct(pct)) && after.hasEnable == f.hasEnable
            && (f.taken ==> after.origPwm == f.origPwm && after.origEnable == f.origEnable)
  {
  }

  /**
   Release touches nothing of a fan that is not taken, and succeeds exactly if
   every saved register can be written.
   */
  lemma ReleaseSucceedsIff(f: Fan, a: Access)
    ensures var (after, ok) := ReleaseBlock(f, a);
            && (!f.taken ==> ok && after == f)
            && (f.taken ==>
                 (ok <==> (f.origPwm.Some? ==> a.writePwm) && (f.hasEnable && f.origEnable.Some? ==> a.writeEnable)))
            && (f.taken && ok ==>
                 after == f.(taken := false, pwm := if f.origPwm.Some? then f.origPwm.value else f.pwm,
                             enable := if f.hasEnable && f.origEnable.Some? then f.origEnable.value else f.enable))
  {
  }
}
