/**
 The fan control loop (internal/fans/controller.go): evaluate every fan's
 settings, write duties through the provider, and keep track in `engaged` of
 the fans the panel drives. The provider's fans are those of FanHardware.
 */
module FanController {
  import opened Prelude
  import Hw = FanHardware
  import Cv = FanCurve

  /** What the controller and the provider hold about one fan. */
  datatype Slot = Slot(owned: Hw.Owned, engaged: bool, writable: bool, settings: Option<Cv.Settings>)

  /** The part of the published state that says what the loop decided. */
  datatype Decision = Decision(targetPct: real, failsafe: bool, failed: bool)

  function ModeOf(s: Slot): Cv.Mode { if s.settings.None? then Cv.Auto else s.settings.value.mode }

  /** The duty asked for: a curve whose sensor is missing asks for 100 percent. */
  function Target(s: Cv.Settings, sensors: map<string, real>): (real, bool) {
    if s.mode.Manual? then (s.manualPct, false)
    else if s.sensor !in sensors then (100.0, true)
    else (Cv.CurveValue(s.points, sensors[s.sensor]), false)
  }

  function Drive(s: Slot, pct: real, a: Hw.Access): Slot {
    var ok := Hw.SetDutyBlock(s.owned.fan, pct, a).1;
    s.(owned := Hw.Next(s.owned, Hw.SetDuty(pct, a)), engaged := s.engaged || ok)
  }

  function LetGo(s: Slot, a: Hw.Access): Slot {
    if !s.engaged then s
    else
      var ok := Hw.ReleaseBlock(s.owned.fan, a).1;
      s.(owned := Hw.Next(s.owned, Hw.Release(a)), engaged := !ok)
  }

  function TickSlot(control: bool, s: Slot, sensors: map<string, real>, a: Hw.Access): Slot {
    var mode := ModeOf(s);
    if !s.writable && !mode.Auto? then s
    else if !control then s
    else if mode.Manual? || mode.Curve? then Drive(s, Target(s.settings.value, sensors).0, a)
    else LetGo(s, a)
  }

  function DecisionOf(control: bool, s: Slot, sensors: map<string, real>, a: Hw.Access): Decision {
    var mode := ModeOf(s);
    if !s.writable && !mode.Auto? then Decision(0.0, false, true)
    else if !control then Decision(0.0, false, false)
    else if mode.Manual? || mode.Curve? then
      var (pct, failsafe) := Target(s.settings.value, sensors);
      Decision(pct, failsafe, failsafe || !Hw.SetDutyBlock(s.owned.fan, pct, a).1)
    else Decision(0.0, false, s.engaged && !Hw.ReleaseBlock(s.owned.fan, a).1)
  }

  // --- runs of one fan -----------------------------------------------------------

  datatype Event =
    | Firmware(pwm: int, enable: int)
    | Tick(sensors: map<string, real>, access: Hw.Access)
    | SetTo(settings: Option<Cv.Settings>)
    | ReleaseAll(access: Hw.Access)

  predicate Enabled(s: Slot, e: Event) { e.Firmware? ==> !s.owned.fan.taken }

  function Next(control: bool, s: Slot, e: Event): Slot
    requires Enabled(s, e)
  {
    match e
    case Firmware(pwm, enable) => s.(owned := Hw.Next(s.owned, Hw.Firmware(pwm, enable)))
    case Tick(sensors, a) => TickSlot(control, s, sensors, a)
    case SetTo(settings) => s.(settings := settings)
    case ReleaseAll(a) => LetGo(s, a)
  }

  predicate Legal(control: bool, s: Slot, events: seq<Event>)
    decreases |events|
  {
    events == [] || (Enabled(s, events[0]) && Legal(control, Next(control, s, events[0]), events[1..]))
  }

  function Run(control: bool, s: Slot, events: seq<Event>): Slot
    requires Legal(control, s, events)
    decreases |events|
  {
    if events == [] then s else Run(control, Next(control, s, events[0]), events[1..])
  }

  predicate Fresh(s: Slot) { !s.engaged && !s.owned.fan.taken }

  predicate Inv(s: Slot) { (s.engaged ==> s.owned.fan.taken) && Hw.SavedBeforeTakeover(s.owned) }

  lemma {:induction false} RunKeepsInv(control: bool, s: Slot, events: seq<Event>)
    requires Inv(s) && Legal(control, s, events)
    ensures Inv(Run(control, s, events))
    decreases |events|
  {
    if events != [] {
      RunKeepsInv(control, Next(control, s, events[0]), events[1..]);
    }
  }

  /** In every run a fan the controller counts as driven is one the provider has taken. */
  lemma EngagedFansAreTaken(control: bool, s: Slot, events: seq<Event>)
    requires Fresh(s) && Legal(control, s, events)
    ensures var t := Run(control, s, events); t.engaged ==> t.owned.fan.taken
  {
    RunKeepsInv(control, s, events);
  }

  /** A tick whose SetDuty takes the fan over and then fails on the duty itself. */
  predicate FailsPartway(control: bool, s: Slot, e: Event) {
    Enabled(s, e) && !s.owned.fan.taken && Next(control, s, e).owned.fan.taken && !Next(control, s, e).engaged
  }

  predicate NeverPartway(control: bool, s: Slot, events: seq<Event>)
    requires Legal(control, s, events)
    decreases |events|
  {
    events == [] || (!FailsPartway(control, s, events[0]) &&
                     NeverPartway(control, Next(control, s, events[0]), events[1..]))
  }

  predicate InStep(s: Slot) { s.engaged <==> s.owned.fan.taken }

  lemma {:induction false} WithoutPartialFailureInStep(control: bool, s: Slot, events: seq<Event>)
    requires InStep(s) && Legal(control, s, events) && NeverPartway(control, s, events)
    ensures InStep(Run(control, s, events))
    decreases |events|
  {
    if events != [] {
      WithoutPartialFailureInStep(control, Next(control, s, events[0]), events[1..]);
    }
  }

  predicate AtBase(o: Hw.Owned) {
    && (o.knewPwm ==> o.fan.pwm == o.basePwm)
    && (o.knewEnable || !o.fan.hasEnable ==> o.fan.enable == o.baseEnable)
  }

  /**
   When no SetDuty fails partway, a ReleaseAll whose writes work leaves the fan
   to the firmware, with every register the takeover could read at its
   pre-takeover value.
   */
  lemma ReleaseAllRestores(control: bool, s: Slot, events: seq<Event>, a: Hw.Access)
    requires Fresh(s) && Legal(control, s, events) && NeverPartway(control, s, events)
    requires a.writePwm && a.writeEnable
    ensures var before, after := Run(control, s, events), LetGo(Run(control, s, events), a);
            && !after.owned.fan.taken && !after.engaged
            && (before.engaged ==> AtBase(after.owned))
            && (!before.engaged ==> after == before)
  {
    WithoutPartialFailureInStep(control, s, events);
    RunKeepsInv(control, s, events);
  }

  /**
   Whatever happened before, a working ReleaseAll leaves a fan taken exactly when
   it was taken without being engaged.
   */
  lemma ReleaseAllForgetsIff(control: bool, s: Slot, events: seq<Event>, a: Hw.Access)
    requires Fresh(s) && Legal(control, s, events)
    requires a.writePwm && a.writeEnable
    ensures var before := Run(control, s, events);
            LetGo(before, a).owned.fan.taken <==> before.owned.fan.taken && !before.engaged
  {
  }

  /** A fan taken but not engaged and set to auto stays in manual mode: no tick and no ReleaseAll gives it back. */
  lemma {:induction false} StrandedFansStayTaken(control: bool, s: Slot, events: seq<Event>)
    requires s.owned.fan.taken && !s.engaged && ModeOf(s).Auto? && Legal(control, s, events)
    requires forall i :: 0 <= i < |events| ==> !events[i].SetTo?
    ensures Run(control, s, events) == s
    decreases |events|
  {
    if events != [] {
      StrandedFansStayTaken(control, s, events[1..]);
    }
  }

  function Broken(): Hw.Access { Hw.Access(true, true, true, false) }

  function Working(): Hw.Access { Hw.Access(true, true, true, true) }

  /** Such a fan is reached by one failed duty write after a successful switch to manual mode. */
  lemma PartialFailureStrandsAFan()
    ensures var s := Slot(Hw.InitialOwned(120, 2, true), false, true, Some(Cv.Settings(Cv.Manual, 50.0, "", [])));
            var events := [Tick(map[], Broken()), SetTo(None), Tick(map[], Working()), ReleaseAll(Working())];
            && Legal(true, s, events)
            && Run(true, s, events).owned.fan.taken && Run(true, s, events).owned.fan.enable == Hw.MANUAL_ENABLE
            && s.owned.fan.enable != Hw.MANUAL_ENABLE
  {
  }

  /** A vanished sensor never leaves a writable fan slow: the tick asks for 100 percent, which is register value 255. */
  lemma MissingSensorDrivesFullSpeed(s: Slot, sensors: map<string, real>, a: Hw.Access)
    requires s.writable && ModeOf(s).Curve? && s.settings.value.sensor !in sensors
    ensures DecisionOf(true, s, sensors, a).failsafe && DecisionOf(true, s, sensors, a).targetPct == 100.0
    ensures Hw.SetDutyBlock(s.owned.fan, 100.0, a).1 ==>
              TickSlot(true, s, sensors, a).owned.fan.pwm == 255 && TickSlot(true, s, sensors, a).engaged
  {
  }

  /** The fan is the panel's and its register holds the duty, to the nearest of the 256 steps. */
  predicate Drives(s: Slot, pct: real) {
    s.engaged && s.owned.fan.taken && s.owned.fan.pwm == Hw.EncodePct(pct)
  }

  /** What one tick with working writes does in each mode, and what it reports. */
  lemma TickActs(s: Slot, sensors: map<string, real>, a: Hw.Access)
    requires a.writePwm && a.writeEnable
    ensures var t, d := TickSlot(true, s, sensors, a), DecisionOf(true, s, sensors, a);
            && t.settings == s.settings && t.writable == s.writable
            && (ModeOf(s).Auto? && !s.engaged ==> t == s && d == Decision(0.0, false, false))
            && (ModeOf(s).Auto? && s.engaged ==>
                 !t.engaged && !t.owned.fan.taken && d == Decision(0.0, false, false))
            && (!ModeOf(s).Auto? && !s.writable ==> t == s && d.failed)
            && (s.writable && ModeOf(s).Manual? ==>
                 && Drives(t, s.settings.value.manualPct)
                 && d == Decision(s.settings.value.manualPct, false, false))
            && (s.writable && ModeOf(s).Curve? && s.settings.value.sensor in sensors ==>
                 var pct := Cv.CurveValue(s.settings.value.points, sensors[s.settings.value.sensor]);
                 Drives(t, pct) && d == Decision(pct, false, false))
            && (s.writable && ModeOf(s).Curve? && s.settings.value.sensor !in sensors ==>
                 Drives(t, 100.0) && d == Decision(100.0, true, true))
  {
    Hw.ReleaseSucceedsIff(s.owned.fan, a);
  }

  /**
   A tick whose duty write fails reports it, leaves the register and does not
   count the fan as driven on that account.
   */
  lemma FailedTickActs(s: Slot, sensors: map<string, real>, a: Hw.Access)
    requires s.writable && (ModeOf(s).Manual? || ModeOf(s).Curve?) && !a.writePwm
    ensures var t, d := TickSlot(true, s, sensors, a), DecisionOf(true, s, sensors, a);
            d.failed && t.engaged == s.engaged && t.owned.fan.pwm == s.owned.fan.pwm
  {
  }

  /** What the firmware does in a run, without everything the panel does. */
  function FirmwareOnly(events: seq<Event>): seq<Hw.Event> {
    if events == [] then []
    else if events[0].Firmware? then [Hw.Firmware(events[0].pwm, events[0].enable)] + FirmwareOnly(events[1..])
    else FirmwareOnly(events[1..])
  }

  /** With control switched off by configuration the registers are as if the panel were not there. */
  lemma {:induction false} WithoutControlNothingIsWritten(s: Slot, events: seq<Event>)
    requires Fresh(s) && Legal(false, s, events)
    ensures Fresh(Run(false, s, events)) && Hw.Legal(s.owned, FirmwareOnly(events))
    ensures Run(false, s, events).owned == Hw.Run(s.owned, FirmwareOnly(events))
    decreases |events|
  {
    if events != [] {
      WithoutControlNothingIsWritten(Next(false, s, events[0]), events[1..]);
      assert FirmwareOnly(events)[if events[0].Firmware? then 1 else 0..] == FirmwareOnly(events[1..]);
    }
  }

  // --- the controller object --------------------------------------------------------

  /** A round over the fans in `done`; the fans do not influence each other. */
  function TickAll(slots: map<string, Slot>, done: seq<string>, control: bool, sensors: map<string, real>,
                   access: string -> Hw.Access): map<string, Slot>
  {
    map id | id in slots :: if id in done then TickSlot(control, slots[id], sensors, access(id)) else slots[id]
  }

  lemma TickAllGrows(slots: map<string, Slot>, order: seq<string>, i: nat, control: bool,
                     sensors: map<string, real>, access: string -> Hw.Access)
    requires i < |order| && order[i] in slots
    requires forall j, k :: 0 <= j < k < |order| ==> order[j] != order[k]
    ensures var sofar := TickAll(slots, order[..i], control, sensors, access);
            && order[i] in sofar && sofar[order[i]] == slots[order[i]]
            && TickAll(slots, order[..i + 1], control, sensors, access)
               == sofar[order[i] := TickSlot(control, slots[order[i]], sensors, access(order[i]))]
  {
  }

  /** What a round reports, fan by fan. */
  function Decisions(slots: map<string, Slot>, done: seq<string>, control: bool, sensors: map<string, real>,
                     access: string -> Hw.Access): seq<Decision>
    requires forall i :: 0 <= i < |done| ==> done[i] in slots
  {
    seq(|done|, i requires 0 <= i < |done| => DecisionOf(control, slots[done[i]], sensors, access(done[i])))
  }

  lemma DecisionsGrow(slots: map<string, Slot>, order: seq<string>, i: nat, control: bool,
                      sensors: map<string, real>, access: string -> Hw.Access)
    requires i < |order| && forall j :: 0 <= j < |order| ==> order[j] in slots
    ensures Decisions(slots, order[..i + 1], control, sensors, access)
         == Decisions(slots, order[..i], control, sensors, access)
            + [DecisionOf(control, slots[order[i]], sensors, access(order[i]))]
  {
  }

  /** After the first `i` fans of a round. */
  predicate RoundSoFar(before: map<string, Slot>, order: seq<string>, i: nat, control: bool,
                       sensors: map<string, real>, access: string -> Hw.Access,
                       slots: map<string, Slot>, states: seq<Decision>)
  {
    && i <= |order| && (forall j :: 0 <= j < |order| ==> order[j] in before)
    && slots == TickAll(before, order[..i], control, sensors, access)
    && states == Decisions(before, order[..i], control, sensors, access)
  }

  lemma RoundStarts(before: map<string, Slot>, order: seq<string>, control: bool,
                    sensors: map<string, real>, access: string -> Hw.Access)
    requires forall j :: 0 <= j < |order| ==> order[j] in before
    ensures RoundSoFar(before, order, 0, control, sensors, access, before, [])
  {
  }

  lemma RoundStep(before: map<string, Slot>, order: seq<string>, i: nat, control: bool,
                  sensors: map<string, real>, access: string -> Hw.Access,
                  slots: map<string, Slot>, states: seq<Decision>)
    requires RoundSoFar(before, order, i, control, sensors, access, slots, states) && i < |order|
    requires forall j, k :: 0 <= j < k < |order| ==> order[j] != order[k]
    ensures order[i] in slots && slots[order[i]] == before[order[i]]
    ensures RoundSoFar(before, order, i + 1, control, sensors, access,
                       slots[order[i] := TickSlot(control, slots[order[i]], sensors, access(order[i]))],
                       states + [DecisionOf(control, slots[order[i]], sensors, access(order[i]))])
  {
    TickAllGrows(before, order, i, control, sensors, access);
    DecisionsGrow(before, order, i, control, sensors, access);
  }

  function LetGoAll(slots: map<string, Slot>, access: string -> Hw.Access): map<string, Slot> {
    map id | id in slots :: LetGo(slots[id], access(id))
  }

  /** A round reaches every fan of the order once and no other, and reports each in its place. */
  lemma RoundReachesEveryFan(slots: map<string, Slot>, order: seq<string>, control: bool,
                             sensors: map<string, real>, access: string -> Hw.Access, i: nat)
    requires (forall j :: 0 <= j < |order| ==> order[j] in slots) && i < |order|
    ensures var t := TickAll(slots, order, control, sensors, access);
            && t.Keys == slots.Keys && t[order[i]] == TickSlot(control, slots[order[i]], sensors, access(order[i]))
            && forall id :: id in slots && id !in order ==> t[id] == slots[id]
    ensures var states := Decisions(slots, order, control, sensors, access);
            |states| == |order| && states[i] == DecisionOf(control, slots[order[i]], sensors, access(order[i]))
  {
  }

  /** Letting all go gives back every fan that is driven, as far as its writes work, and touches no other. */
  lemma LetGoAllActs(slots: map<string, Slot>, access: string -> Hw.Access, id: string)
    requires id in slots
    ensures var t := LetGoAll(slots, access);
            && t.Keys == slots.Keys && t[id].settings == slots[id].settings
            && (!slots[id].engaged ==> t[id] == slots[id])
            && (slots[id].engaged && access(id).writePwm && access(id).writeEnable ==>
                 !t[id].engaged && !t[id].owned.fan.taken)
  {
    Hw.ReleaseSucceedsIff(slots[id].owned.fan, access(id));
  }

  /** `slots[id]` holds the entries of fan `id` in the settings and engaged maps and in the provider. */
  class Controller {
    const control: bool
    const order: seq<string>
    var slots: map<string, Slot>
    var state: seq<Decision>

    ghost predicate Valid() reads this {
      && (forall id :: id in order <==> id in slots)
      && (forall i, j :: 0 <= i < j < |order| ==> order[i] != order[j])
    }

    method SetDuty(id: string, pct: real, a: Hw.Access) returns (ok: bool)
      requires id in slots
      modifies this`slots
      ensures slots == old(slots)[id := Drive(old(slots)[id], pct, a)]
      ensures ok == Hw.SetDutyBlock(old(slots)[id].owned.fan, pct, a).1
    {
      var slot := slots[id];
      ok := Hw.SetDutyBlock(slot.owned.fan, pct, a).1;
      slots := slots[id := slot.(owned := Hw.Next(slot.owned, Hw.SetDuty(pct, a)))];
      if ok {
        slots := slots[id := slots[id].(engaged := true)];
      }
    }

    /** Releases an engaged fan; one that is not engaged is left alone. */
    method Release(id: string, a: Hw.Access) returns (ok: bool)
      requires id in slots
      modifies this`slots
      ensures slots == old(slots)[id := LetGo(old(slots)[id], a)]
      ensures ok == (!old(slots)[id].engaged || Hw.ReleaseBlock(old(slots)[id].owned.fan, a).1)
    {
      ok := true;
      var slot := slots[id];
      if slot.engaged {
        ok := Hw.ReleaseBlock(slot.owned.fan, a).1;
        slots := slots[id := slot.(owned := Hw.Next(slot.owned, Hw.Release(a)))];
        if ok {
          slots := slots[id := slots[id].(engaged := false)];
        }
      }
    }

    method TickFan(id: string, sensors: map<string, real>, a: Hw.Access) returns (d: Decision)
      requires id in slots
      modifies this`slots
      ensures slots == old(slots)[id := TickSlot(control, old(slots)[id], sensors, a)]
      ensures d == DecisionOf(control, old(slots)[id], sensors, a)
    {
      d := Decision(0.0, false, false);
      var slot := slots[id];
      var mode := if slot.settings.Some? then slot.settings.value.mode else Cv.Auto;
      if !slot.writable && !mode.Auto? {
        d := d.(failed := true);
      } else if control {
        if mode.Manual? {
          var ok := SetDuty(id, slot.settings.value.manualPct, a);
          d := Decision(slot.settings.value.manualPct, false, !ok);
        } else if mode.Curve? {
          var chosen := slot.settings.value;
          if chosen.sensor !in sensors {
            d := Decision(100.0, true, true);
          } else {
            var pct := Cv.CurveDuty(chosen.points, sensors[chosen.sensor]);
            d := d.(targetPct := pct);
          }
          var ok := SetDuty(id, d.targetPct, a);
          d := d.(failed := d.failed || !ok);
        } else {
          var ok := Release(id, a);
          d := d.(failed := !ok);
        }
      }
    }

    /** One round of the loop: every fan takes exactly its own step. */
    method Tick(sensors: map<string, real>, access: string -> Hw.Access)
      requires Valid()
      modifies this`slots, this`state
      ensures Valid() && slots == TickAll(old(slots), order, control, sensors, access)
      ensures state == Decisions(old(slots), order, control, sensors, access)
    {
      ghost var before := slots;
      var states: seq<Decision> := [];
      RoundStarts(before, order, control, sensors, access);
      for i := 0 to |order|
        invariant RoundSoFar(before, order, i, control, sensors, access, slots, states)
      {
        RoundStep(before, order, i, control, sensors, access, slots, states);
        var d := TickFan(order[i], sensors, access(order[i]));
        states := states + [d];
      }
      state := states;
      assert order[..|order|] == order;
    }

    method ReleaseAll(access: string -> Hw.Access)
      modifies this`slots
      ensures slots == LetGoAll(old(slots), access)
    {
      ghost var before := slots;
      var todo := set id | id in slots && slots[id].engaged;
      while todo != {}
        invariant slots.Keys == before.Keys && todo <= before.Keys
        invariant forall id :: id in before && before[id].engaged && id !in todo ==>
                    slots[id] == LetGo(before[id], access(id))
        invariant forall id :: id in before && (id in todo || !before[id].engaged) ==> slots[id] == before[id]
      {
        var id :| id in todo;
        var _ := Release(id, access(id));
        todo := todo - {id};
      }
    }

    /** Stores accepted settings. A failed save is reported, but the running settings have changed already. */
    method Set(id: string, s: Cv.Settings, sensors: map<string, real>, saved: bool) returns (ok: bool)
      modifies this`slots
      ensures var accepted := id in old(slots) && (s.mode.Auto? || (control && old(slots)[id].writable)) &&
                              Cv.ValidSettings(s, sensors.Keys);
              && ok == (accepted && saved)
              && slots == if !accepted then old(slots)
                          else old(slots)[id := old(slots)[id].(settings := if s.mode.Auto? then None else Some(s))]
    {
      if id !in slots {
        return false;
      }
      if !control && !s.mode.Auto? {
        return false;
      }
      if !slots[id].writable && !s.mode.Auto? {
        return false;
      }
      var valid := Cv.Validate(s, sensors.Keys);
      if !valid {
        return false;
      }
      if s.mode.Auto? {
        slots := slots[id := slots[id].(settings := None)];
      } else {
        slots := slots[id := slots[id].(settings := Some(s))];
      }
      return saved;
    }
  }
}
