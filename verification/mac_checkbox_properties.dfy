/** Properties of the macOS checkbox core: the state converters, the
    invariants each operation keeps, and whether a user click can put a
    Checkbox into the mixed state.

    As written, a click can: the constructor enables mixed state for every
    Checkbox, and `setState(off)` never disables it, so a Checkbox that is
    off after construction (or after a programmatic mixed-then-off) cycles
    to mixed on its next click. `SetStateGuarded` and `ConstructGuarded`
    keep the flag exactly as `generateClick` does, and with them no sequence
    of programmatic changes and clicks ever reports a mixed Checkbox. */
module MacCheckboxProperties {
  import opened MacCheckboxCore

  /** The two converters are inverse bijections. */
  lemma ConvertersAreInverse()
    ensures forall t :: ControlStateToTriState(TriStateToControlState(t)) == t
    ensures forall c :: TriStateToControlState(ControlStateToTriState(c)) == c
  {
  }

  /** Every operation keeps a button from showing mixed without allowing it. */
  lemma OperationsKeepConsistent(core: CheckboxCore, t: TriState, on: bool)
    requires Consistent(core.button)
    ensures Consistent(SetState(core, t).button)
    ensures Consistent(SetOn(core, on).button)
    ensures Consistent(GenerateClick(core).button)
    ensures Consistent(UserClick(core).button)
  {
  }

  /** Any constructed core is consistent, whatever button it started from. */
  lemma ConstructIsConsistent(outer: Outer, base: Button)
    requires !outer.Detached?
    ensures Consistent(Construct(outer, base).button)
  {
  }

  /** A Checkbox whose mixed-state flag is set exactly when it is not off. */
  predicate ClickSafe(core: CheckboxCore)
  {
    core.outer.CheckboxView? ==> core.button.allowsMixedState == (core.button.state != ControlOff)
  }

  /** From a click-safe Checkbox a user click never reaches mixed, and the
      Checkbox is click-safe again afterwards. */
  lemma ClickSafeClickNeverMixed(core: CheckboxCore)
    requires Consistent(core.button) && ClickSafe(core) && core.outer.CheckboxView?
    ensures UserClick(core).outer != CheckboxView(Mixed)
    ensures UserClick(core).outer.CheckboxView?
    ensures ClickSafe(UserClick(core))
  {
  }

  /** `generateClick` as written always leaves a Checkbox click-safe. */
  lemma GenerateClickRestoresSafety(core: CheckboxCore)
    ensures ClickSafe(GenerateClick(core))
  {
  }

  /** When the Checkbox view passes the clicked state back to its core with
      `setState`, the button does not change. */
  lemma CheckboxEchoIsHarmless(core: CheckboxCore)
    requires core.outer.CheckboxView?
    ensures var clicked := GenerateClick(core);
      SetState(clicked, clicked.outer.checkboxState).button == clicked.button
  {
  }

  /** As written: a Checkbox constructed in the off state reaches mixed on
      the very first user click, and the outer view is told so. */
  lemma ConstructedOffCheckboxClicksToMixed(base: Button)
    ensures !ClickSafe(Construct(CheckboxView(Off), base))
    ensures UserClick(Construct(CheckboxView(Off), base)).outer == CheckboxView(Mixed)
    ensures UserClick(Construct(CheckboxView(Off), base)).clicks == [CheckboxView(Mixed)]
  {
  }

  /** As written: setting mixed and then off programmatically leaves the
      next user click to reach mixed. */
  lemma MixedThenOffClicksToMixed(core: CheckboxCore)
    requires core.outer.CheckboxView?
    ensures UserClick(SetState(SetState(core, Mixed), Off)).outer == CheckboxView(Mixed)
  {
  }

  /** `setState` keeping the mixed-state flag of a Checkbox exactly as
      `generateClick` does; other outers behave as written. */
  function SetStateGuarded(core: CheckboxCore, t: TriState): (r: CheckboxCore)
    ensures ControlStateToTriState(r.button.state) == t
    ensures t == Mixed ==> r.button.allowsMixedState
    ensures ClickSafe(r)
    ensures r.outer == core.outer && r.clicks == core.clicks
  {
    match core.outer
    case CheckboxView(_) => core.(button := Button(t != Off, TriStateToControlState(t)))
    case _ => SetState(core, t)
  }

  /** The constructor without the unconditional mixed-state flag. */
  function ConstructGuarded(outer: Outer, base: Button): (r: CheckboxCore)
    requires !outer.Detached?
    ensures r.outer == outer && r.clicks == []
    ensures ControlStateToTriState(r.button.state) == OuterState(outer)
    ensures ClickSafe(r) && Consistent(r.button)
  {
    SetStateGuarded(CheckboxCore(base, outer, []), OuterState(outer))
  }

  /** What may happen to a core: a programmatic state change from the outer
      view, a programmatic on/off change, or a user click. */
  datatype Event = ProgramState(state: TriState) | ProgramOn(on: bool) | Click

  function StepGuarded(core: CheckboxCore, e: Event): (r: CheckboxCore)
    requires Consistent(core.button)
    ensures Consistent(r.button)
    ensures r.outer.CheckboxView? == core.outer.CheckboxView?
    ensures core.clicks <= r.clicks
    ensures !e.Click? ==> r.clicks == core.clicks
  {
    match e
    case ProgramState(t) => SetStateGuarded(core, t)
    case ProgramOn(on) => SetStateGuarded(core, if on then On else Off)
    case Click => UserClick(core)
  }

  /** A run of events with the guarded `setState`. */
  function RunGuarded(core: CheckboxCore, events: seq<Event>): (r: CheckboxCore)
    requires Consistent(core.button)
    ensures Consistent(r.button)
    ensures r.outer.CheckboxView? == core.outer.CheckboxView?
    ensures core.clicks <= r.clicks
    decreases |events|
  {
    if events == [] then core
    else RunGuarded(StepGuarded(core, events[0]), events[1..])
  }

  /** With the guarded `setState`, no run of programmatic changes and user
      clicks ever notifies a mixed Checkbox. */
  lemma {:induction false} GuardedClicksNeverMixed(core: CheckboxCore, events: seq<Event>)
    requires Consistent(core.button) && ClickSafe(core) && core.outer.CheckboxView?
    ensures ClickSafe(RunGuarded(core, events))
    ensures var r := RunGuarded(core, events);
      forall k :: |core.clicks| <= k < |r.clicks| ==> r.clicks[k] != CheckboxView(Mixed)
    decreases |events|
  {
    if events != [] {
      var next := StepGuarded(core, events[0]);
      if events[0].Click? {
        ClickSafeClickNeverMixed(core);
        assert next.clicks == core.clicks + [next.outer];
      }
      GuardedClicksNeverMixed(next, events[1..]);
      var r := RunGuarded(core, events);
      assert r == RunGuarded(next, events[1..]);
      forall k | |core.clicks| <= k < |r.clicks|
        ensures r.clicks[k] != CheckboxView(Mixed)
      {
        if k < |next.clicks| {
          assert r.clicks[k] == next.clicks[k];
          assert next.clicks[k] != CheckboxView(Mixed);
        } else {
          assert |next.clicks| <= k < |RunGuarded(next, events[1..]).clicks|;
        }
      }
    }
  }
}
