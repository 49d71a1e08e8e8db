/** The macOS checkbox/toggle core: an NSButton whose tri-state is kept in
    step with a portable Checkbox (tri-state) or Toggle (on/off) view. The
    button is reduced to its `allowsMixedState` flag and its state; the
    onClick notifications are a log recording, for each notification, the
    outer view's state at the moment it was sent. */
module MacCheckboxCore {

  /** `bdn::TriState`. */
  datatype TriState = Off | On | Mixed

  /** `NSControlStateValue` restricted to its three named values. */
  datatype ControlState = ControlOff | ControlOn | ControlMixed

  /** `triStateToNSControlStateValue`: each state to the value of the same name. */
  function TriStateToControlState(t: TriState): (c: ControlState)
    ensures (c == ControlOff <==> t == Off) && (c == ControlOn <==> t == On) && (c == ControlMixed <==> t == Mixed)
  {
    match t
    case Off => ControlOff
    case On => ControlOn
    case Mixed => ControlMixed
  }

  /** `nsControlStateValueToTriState`: the inverse mapping. */
  function ControlStateToTriState(c: ControlState): (t: TriState)
    ensures (t == Off <==> c == ControlOff) && (t == On <==> c == ControlOn) && (t == Mixed <==> c == ControlMixed)
  {
    match c
    case ControlOff => Off
    case ControlOn => On
    case ControlMixed => Mixed
  }

  datatype Button = Button(allowsMixedState: bool, state: ControlState)

  /** The outer view as `getOuterViewIfStillAttached` sees it. */
  datatype Outer = Detached | CheckboxView(checkboxState: TriState) | ToggleView(on: bool)

  datatype CheckboxCore = CheckboxCore(button: Button, outer: Outer, clicks: seq<Outer>)

  /** The state the constructor reads from its outer view; a Toggle's state
      is on exactly when the toggle is on. */
  function OuterState(outer: Outer): (t: TriState)
    requires !outer.Detached?
    ensures outer.ToggleView? ==> t != Mixed && (t == On <==> outer.on)
    ensures outer.CheckboxView? ==> t == outer.checkboxState
  {
    match outer
    case CheckboxView(t) => t
    case ToggleView(on) => if on then On else Off
  }

  /** `setState`: a programmatic mixed state first enables mixed state on
      the button; any other state leaves that flag alone. */
  function SetState(core: CheckboxCore, t: TriState): (r: CheckboxCore)
    ensures ControlStateToTriState(r.button.state) == t
    ensures t == Mixed ==> r.button.allowsMixedState
    ensures t != Mixed ==> r.button.allowsMixedState == core.button.allowsMixedState
    ensures r.outer == core.outer && r.clicks == core.clicks
  {
    var button := if t == Mixed then core.button.(allowsMixedState := true) else core.button;
    core.(button := button.(state := TriStateToControlState(t)))
  }

  /** `setOn`: on or off, never mixed, and the mixed-state flag untouched. */
  function SetOn(core: CheckboxCore, on: bool): (r: CheckboxCore)
    ensures ControlStateToTriState(r.button.state) == (if on then On else Off)
    ensures r.button.state != ControlMixed
    ensures r.button.allowsMixedState == core.button.allowsMixedState
    ensures r.outer == core.outer && r.clicks == core.clicks
  {
    SetState(core, if on then On else Off)
  }

  /** The constructor, given the button `ToggleCoreBase` created: a Checkbox
      enables mixed state, then the outer view's current state is applied. */
  function Construct(outer: Outer, base: Button): (r: CheckboxCore)
    requires !outer.Detached?
    ensures r.outer == outer && r.clicks == []
    ensures ControlStateToTriState(r.button.state) == OuterState(outer)
    ensures outer.CheckboxView? ==> r.button.allowsMixedState
    ensures outer.ToggleView? ==> r.button.allowsMixedState == base.allowsMixedState
  {
    var button := if outer.CheckboxView? then base.(allowsMixedState := true) else base;
    SetState(CheckboxCore(button, outer, []), OuterState(outer))
  }

  /** `generateClick`, called after the button's state has changed. A
      detached core does nothing. A Checkbox core first lets mixed state be
      reachable exactly when the button is not off; then the button's state
      is pushed to the outer view and one onClick notification follows. */
  function GenerateClick(core: CheckboxCore): (r: CheckboxCore)
    ensures core.outer.Detached? ==> r == core
    ensures core.outer.CheckboxView? ==>
      && r.button.state == core.button.state
      && r.button.allowsMixedState == (r.button.state != ControlOff)
      && r.outer == CheckboxView(ControlStateToTriState(core.button.state))
    ensures core.outer.ToggleView? ==>
      && r.button == core.button
      && r.outer == ToggleView(core.button.state == ControlOn)
    ensures !core.outer.Detached? ==> r.clicks == core.clicks + [r.outer]
  {
    match core.outer
    case Detached => core
    case CheckboxView(_) =>
      var button := core.button.(allowsMixedState := core.button.state != ControlOff);
      var newState := ControlStateToTriState(button.state);
      var outer := CheckboxView(newState);
      CheckboxCore(button, outer, core.clicks + [outer])
    case ToggleView(_) =>
      var newState := ControlStateToTriState(core.button.state);
      var outer := ToggleView(newState == On);
      CheckboxCore(core.button, outer, core.clicks + [outer])
  }

  /** A button never shows mixed without allowing it. */
  predicate Consistent(b: Button)
  {
    b.state == ControlMixed ==> b.allowsMixedState
  }

  /** What AppKit does to the button when the user clicks it, before the
      action reaches `generateClick`: with mixed state allowed it cycles
      off, mixed, on; without, it toggles between off and on. */
  function NativeClick(b: Button): (r: Button)
    requires Consistent(b)
    ensures r.allowsMixedState == b.allowsMixedState
    ensures r.state != b.state
    ensures r.state == ControlMixed <==> b.allowsMixedState && b.state == ControlOff
    ensures b.state == ControlMixed ==> r.state == ControlOn
    ensures b.state == ControlOn ==> r.state == ControlOff
  {
    match b.state
    case ControlOff => b.(state := if b.allowsMixedState then ControlMixed else ControlOn)
    case ControlMixed => b.(state := ControlOn)
    case ControlOn => b.(state := ControlOff)
  }

  /** A user click: the native state change followed by `generateClick`.
      The outer view receives the new state before the one notification is
      sent, so the notification sees it. */
  function UserClick(core: CheckboxCore): (r: CheckboxCore)
    requires Consistent(core.button)
    ensures r.button.state == NativeClick(core.button).state
    ensures core.outer.CheckboxView? ==> r.button.allowsMixedState == (r.button.state != ControlOff)
    ensures !core.outer.CheckboxView? ==> r.button.allowsMixedState == core.button.allowsMixedState
    ensures core.outer.CheckboxView? ==> r.outer == CheckboxView(ControlStateToTriState(NativeClick(core.button).state))
    ensures core.outer.ToggleView? ==> r.outer == ToggleView(NativeClick(core.button).state == ControlOn)
    ensures !core.outer.Detached? ==> |r.clicks| == |core.clicks| + 1 && r.clicks[|r.clicks| - 1] == r.outer
    ensures !core.outer.Detached? ==> r.clicks[..|core.clicks|] == core.clicks
    ensures core.outer.Detached? ==> r.clicks == core.clicks
  {
    GenerateClick(core.(button := NativeClick(core.button)))
  }
}
