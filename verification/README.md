# boden view cores and SimpleProperty in Dafny

A model of three small pieces of the boden cross-platform UI framework, with
proofs of what each promises:

- **The GTK view core** (`bdn::gtk::ViewCore`). It wraps one GTK widget for a
  portable view and does three jobs. It attaches itself to the native
  container of its parent view's core. It pushes bounds into the widget as a
  size request, then has the parent core move the widget. It measures the
  widget without leaving a trace on it. The widget is reduced to its
  visibility, its size request and its scale factor. The GTK calls and the
  unit-conversion service are opaque functions in a `Toolkit` value. Every
  property below holds whatever those functions compute.
- **The macOS checkbox/toggle core** (`bdn::mac::CheckboxCore`). It keeps an
  NSButton's tri-state in step with a Checkbox (tri-state) or Toggle (on/off)
  view. It also stops a user's click from putting the Checkbox into the mixed
  state. Whether it always manages this is one of the findings below.
- **`SimpleProperty`**. This is a value cell with an `onChange` notifier and a
  one-way `bind` to a source property. A store holds all properties by id.
  Each cell records its value, how often its notifier fired, and its bind
  source. A `set` reaches every property bound to it, directly or through a
  chain.

Files:

- `wrappers.dfy`: `Option` and `Result`.
- `gtk_view_core.dfy`, `gtk_view_core_properties.dfy`: the GTK view core.
- `mac_checkbox_core.dfy`, `mac_checkbox_properties.dfy`: the checkbox core
  and its finding.
- `bind_graph.dfy`, `simple_property.dfy`, `simple_property_properties.dfy`:
  `SimpleProperty` and the acyclic bind structure that `set` propagates
  through.

The model follows the code in two places where its behaviour is easy to misread:

- `_addToParent` looks only at the direct parent view. When that parent has no
  core, it throws. It does not search further up for an ancestor that has a
  core.
- In a height-for-width measurement the native width reported is the
  constraint after conversion and clamping, not the toolkit's own width.

## Model

| member | source | states |
|---|---|---|
| GtkViewCore.Construct | boden/include/bdn/gtk/ViewCore.h:19-28 | the new core refers to its outer view and its widget takes the view's visibility. Attachment either succeeds with exactly `_addToParent`'s calls or fails with its error, and the visibility is set even then |
| GtkViewCore.Dispose | boden/include/bdn/gtk/ViewCore.h:31-34 | only the back-reference is cleared: the widget is unchanged and the core is no longer attached to any tree |
| GtkViewCore.SetVisible | boden/include/bdn/gtk/ViewCore.h:36-39 | the widget's visibility becomes the argument; size request, scale and outer view are untouched |
| GtkViewCore.SetBounds | boden/include/bdn/gtk/ViewCore.h:48-66 | each dimension of the size request is the converted one when that is non-negative and exactly 0 when it is negative. With no parent there is no call; under a container there is exactly one move to the unclamped converted origin; under a non-container core there is a ProgrammingError after the size request was already set |
| GtkViewCore.AddChildViewCore | boden/include/bdn/gtk/ViewCore.h:125-128 | succeeds exactly for a container, with one attach call naming the child; the base class always fails with ProgrammingError |
| GtkViewCore.MoveChildViewCore | boden/include/bdn/gtk/ViewCore.h:130-133 | succeeds exactly for a container, with one move call to the given position; the base class always fails with ProgrammingError |
| GtkViewCore.AddToParent | boden/include/bdn/gtk/ViewCore.h:231-249 | a root makes no call; a parent without a core is a ProgrammingError; a non-container parent core throws; a container parent gets exactly one attach call for this core |
| GtkViewCore.TryChangeParentView | boden/include/bdn/gtk/ViewCore.h:101-106 | whenever no error escapes the answer is `true`, with `_addToParent`'s calls. An error from `_addToParent` propagates |
| GtkViewCore.TruncatingDivide | boden/include/bdn/gtk/ViewCore.h:185 | the C++ double-to-int quotient: floor division for non-negative lengths; for negative ones the non-positive quotient truncated toward zero, `a <= q * s < a + s` |
| GtkViewCoreProperties.TruncationIsOdd | boden/include/bdn/gtk/ViewCore.h:185 | the converted quotient of a negated length is the negated quotient, as truncation toward zero requires |
| GtkViewCoreProperties.TruncationScenario | boden/include/bdn/gtk/ViewCore.h:185-188 | `-5` at factor 2 truncates to `-2`, unlike floor division's `-3`, and the guard then clamps it to 0; `5` converts to 2 |
| GtkViewCore.ConstraintToPixels | boden/include/bdn/gtk/ViewCore.h:185-188 | the converted constraint after the `< 0` guard is never negative and equals `0` for non-positive lengths and `length / scale` otherwise |
| GtkViewCore.Dispatch | boden/include/bdn/gtk/ViewCore.h:180-211 | the unconstrained query is made exactly when both arguments are `-1`; a width other than `-1` always selects height-for-width, even when a height is also given; each constrained query carries the converted, clamped constraint |
| GtkViewCore.Ask | boden/include/bdn/gtk/ViewCore.h:190-211 | height-for-width reports the converted width and the toolkit's natural height for it; width-for-height reports the toolkit's natural width and the converted height; the unconstrained query reports the toolkit's natural size |
| GtkViewCore.PaddingPixels | boden/include/bdn/gtk/ViewCore.h:151-158 | the outer view's padding, converted to pixels for the widget, when it is set; otherwise the base class's default, a zero margin |
| GtkViewCore.Measure | boden/include/bdn/gtk/ViewCore.h:160-228 | the widget ends exactly as it started. The toolkit is queried with the widget visible and its size request cleared. The result is the converted natural size plus the effective padding, converted for the restored widget |
| GtkViewCore.CalcPreferredSize | boden/include/bdn/gtk/ViewCore.h:83-86 | the toolkit's unconstrained natural size for the visible widget with its size request cleared, converted back, plus the effective padding |
| GtkViewCore.CalcPreferredHeightForWidth | boden/include/bdn/gtk/ViewCore.h:89-92 | `-1` gives the unconstrained preferred height. Any other width is converted and clamped at zero, and the toolkit's height for that width, converted back and padded, is the answer |
| GtkViewCore.CalcPreferredWidthForHeight | boden/include/bdn/gtk/ViewCore.h:95-98 | `-1` gives the unconstrained preferred width. Any other height is converted and clamped at zero, and the toolkit's width for that height, converted back and padded, is the answer |
| GtkViewCore.DefaultPaddingPixels | boden/include/bdn/gtk/ViewCore.h:143-146 | the base class's default padding is zero on all four sides |
| GtkViewCore.SetPadding | boden/include/bdn/gtk/ViewCore.h:43-45 | the core is left exactly as it was |
| GtkViewCoreProperties.MeasureIsRepeatable | boden/include/bdn/gtk/ViewCore.h:167-219 | measuring again with the widget the first measurement left behind gives the identical measurement |
| GtkViewCoreProperties.MeasureIgnoresVisibilityAndSizeRequest | boden/include/bdn/gtk/ViewCore.h:167-178 | the widget's visibility and size request before the call do not change what the toolkit sees or the natural size it reports; without padding they do not change the measured size either |
| GtkViewCoreProperties.MinusOneIsUnconstrained | boden/include/bdn/gtk/ViewCore.h:83-98 | `calcPreferredHeightForWidth(-1)` and `calcPreferredWidthForHeight(-1)` read the natural size; any other argument, negative ones included, is a constraint |
| GtkViewCoreProperties.ConstrainedDimensionNonNegative | boden/include/bdn/gtk/ViewCore.h:180-209 | in either constrained branch the constrained native dimension is never negative |
| GtkViewCoreProperties.ConstraintNeverGrows | boden/include/bdn/gtk/ViewCore.h:185-188 | the converted constraint lies between zero and the constraint itself |
| GtkViewCoreProperties.AttachOutcomes | boden/include/bdn/gtk/ViewCore.h:231-249 | exactly one of three outcomes (no call, failure, one attach call), each tied to its cause; every call made is the attach of this core to its parent |
| GtkViewCoreProperties.RootThenChildScenario | boden/include/bdn/gtk/ViewCore.h:19-28 | a root view's core makes no attach call; a child's core then makes exactly one, on the root's container |
| GtkViewCoreProperties.ReparentIgnoresArgument | boden/include/bdn/gtk/ViewCore.h:101-106 | the result does not depend on the parent handed in; on success it is `true` with `_addToParent`'s calls |
| GtkViewCoreProperties.DisposeOnlyDetaches | boden/include/bdn/gtk/ViewCore.h:31-34 | dispose keeps the widget, detaches, and is idempotent |
| GtkViewCoreProperties.SetBoundsFailsAfterSizing | boden/include/bdn/gtk/ViewCore.h:57-64 | under a non-container parent core the whole effect is: the clamped size request set, no call made, ProgrammingError |
| GtkViewCoreProperties.SetBoundsScenario | boden/include/bdn/gtk/ViewCore.h:48-66 | with a scaling conversion at factor 2, bounds (10, 20, -5, 50) request a 0 x 100 widget and move it to (20, 40) |
| MacCheckboxCore.Construct | framework/ui/platforms/mac/include/bdn/mac/CheckboxCore.hh:21-28 | the button shows the outer view's state; a Checkbox always ends with mixed state allowed; a Toggle keeps the base button's flag |
| MacCheckboxCore.SetState | framework/ui/platforms/mac/include/bdn/mac/CheckboxCore.hh:32-41 | the button shows the given state; mixed always leaves mixed allowed; on and off never change the flag |
| MacCheckboxCore.SetOn | framework/ui/platforms/mac/include/bdn/mac/CheckboxCore.hh:44 | the button is on exactly when the argument is true, never mixed, and the mixed-state flag is untouched |
| MacCheckboxCore.GenerateClick | framework/ui/platforms/mac/include/bdn/mac/CheckboxCore.hh:46-89 | a detached core changes nothing and sends nothing. A Checkbox ends with mixed allowed exactly when not off and receives the button's tri-state; a Toggle receives on exactly when the button is on, so mixed reads as off. Exactly one onClick notification is sent, and it already sees the updated outer state |
| MacCheckboxCore.NativeClick | framework/ui/platforms/mac/include/bdn/mac/CheckboxCore.hh:66-72 | a click always changes the button state: on goes to off, mixed goes to on, and off reaches mixed exactly when mixed is allowed |
| MacCheckboxCore.UserClick | framework/ui/platforms/mac/include/bdn/mac/CheckboxCore.hh:55-77 | the button shows the native click's new state and the outer view receives it. A Checkbox then allows mixed exactly when it is not off, and a Toggle keeps its flag. An attached core then sends exactly one more notification, which sees the new outer state, and keeps the earlier ones; a detached core sends none |
| MacCheckboxProperties.ConvertersAreInverse | framework/ui/platforms/mac/include/bdn/mac/CheckboxCore.hh:80 | the two state converters are inverse bijections |
| MacCheckboxProperties.OperationsKeepConsistent | framework/ui/platforms/mac/include/bdn/mac/CheckboxCore.hh:32-86 | no operation leaves the button showing mixed without allowing it |
| MacCheckboxProperties.ConstructIsConsistent | framework/ui/platforms/mac/include/bdn/mac/CheckboxCore.hh:21-28 | a constructed button never shows mixed without allowing it |
| MacCheckboxProperties.GenerateClickRestoresSafety | framework/ui/platforms/mac/include/bdn/mac/CheckboxCore.hh:73-77 | after `generateClick` a Checkbox allows mixed exactly when it is not off |
| MacCheckboxProperties.ClickSafeClickNeverMixed | framework/ui/platforms/mac/include/bdn/mac/CheckboxCore.hh:64-78 | from a Checkbox that allows mixed exactly when not off, a user click never reports mixed and re-establishes that condition |
| MacCheckboxProperties.CheckboxEchoIsHarmless | framework/ui/platforms/mac/include/bdn/mac/CheckboxCore.hh:82-83 | the Checkbox passing the clicked state back to its core leaves the button unchanged |
| MacCheckboxProperties.ConstructedOffCheckboxClicksToMixed | framework/ui/platforms/mac/include/bdn/mac/CheckboxCore.hh:21-28 | as written, a Checkbox constructed off reaches mixed on its first user click |
| MacCheckboxProperties.MixedThenOffClicksToMixed | framework/ui/platforms/mac/include/bdn/mac/CheckboxCore.hh:32-41 | as written, a programmatic mixed then off lets the next user click reach mixed |
| MacCheckboxProperties.SetStateGuarded | framework/ui/platforms/mac/include/bdn/mac/CheckboxCore.hh:32-41 | corrected `setState`: same state as written, mixed allowed exactly when not off for a Checkbox |
| MacCheckboxProperties.ConstructGuarded | framework/ui/platforms/mac/include/bdn/mac/CheckboxCore.hh:21-28 | corrected constructor: shows the outer state and leaves the Checkbox click-safe |
| MacCheckboxProperties.GuardedClicksNeverMixed | framework/ui/platforms/mac/include/bdn/mac/CheckboxCore.hh:64-72 | with the corrected `setState`, no sequence of programmatic changes and user clicks ever notifies a mixed Checkbox |
| SimpleProperty.Get | boden/include/common/bdn/SimpleProperty.h:24-29 | the property's stored value |
| SimpleProperty.Set | boden/include/common/bdn/SimpleProperty.h:31-46 | every property bound to `p`, directly or through a chain, `p` included, ends holding `v` with exactly one more notification. Every other property is unchanged and no binding changes |
| SimpleProperty.NotifyFrom | boden/include/common/bdn/SimpleProperty.h:45 | firing from subscriber `i` on updates exactly the properties reached through subscribers numbered `i` or above, each once, with the source's value |
| SimpleProperty.DeliveryFollowsSubscribers | boden/include/common/bdn/SimpleProperty.h:45 | delivery from subscriber `i` on updates exactly the properties that descend from one listed in the subscriber list from `i` on |
| SimpleProperty.BindSourceChanged | boden/include/common/bdn/SimpleProperty.h:63-66 | the bound property and everything bound to it take the source's current value, each firing once |
| SimpleProperty.OnChange | boden/include/common/bdn/SimpleProperty.h:49-52 | the property's own notifier: its fire count is the property's, and its subscribers are exactly the properties bound to it |
| SimpleProperty.SubscribersFrom | boden/include/common/bdn/SimpleProperty.h:56 | exactly the properties whose subscription listens to `p`, in strictly increasing delivery order |
| SimpleProperty.Bind | boden/include/common/bdn/SimpleProperty.h:54-59 | the subscription now names the source. The property and everything bound to it take the source's value with one notification each; every other property, the source included, is unchanged |
| SimpleProperty.Destroy | boden/include/common/bdn/SimpleProperty.h:17-22 | only the bind subscription is released; values and notification counts are unchanged |
| SimplePropertyProperties.SetThenGet | boden/include/common/bdn/SimpleProperty.h:24-46 | after `set(v)`, `get()` returns `v` |
| SimplePropertyProperties.SetFiresEvenWhenUnchanged | boden/include/common/bdn/SimpleProperty.h:33-45 | setting the current value keeps the value and still fires once |
| SimplePropertyProperties.SetTwiceFiresTwice | boden/include/common/bdn/SimpleProperty.h:31-46 | two `set`s of one value fire twice |
| SimplePropertyProperties.BoundPropertyFollowsSource | boden/include/common/bdn/SimpleProperty.h:54-66 | after `bind(S)`, every `S.set(v)` leaves the bound property holding `v`, notifying once |
| SimplePropertyProperties.ChainFollowsSource | boden/include/common/bdn/SimpleProperty.h:63-66 | a property bound to a bound property follows the first source too |
| SimplePropertyProperties.RebindForgetsEarlierSource | boden/include/common/bdn/SimpleProperty.h:56 | after re-binding, the earlier source no longer reaches the property, and only the new source lists it as a subscriber |
| SimplePropertyProperties.DestroyedPropertyIsUnreachable | boden/include/common/bdn/SimpleProperty.h:17-22 | once the destructor released the subscription, no other property's `set` touches it |
| SimplePropertyProperties.OnChangeIsStable | boden/include/common/bdn/SimpleProperty.h:31-52 | a `set` keeps the notifier's owner and subscriber list. Its fire count goes up by one exactly when the `set` reached the owner, and always for a `set` on the owner |
| SimplePropertyProperties.FanOutScenario | boden/include/common/bdn/SimpleProperty.h:45 | one `set` on a source with two bound properties updates both and fires all three notifiers once |

## Findings

| source | as written | input that shows it | evidently intended | confidence | as-written member | corrected member |
|---|---|---|---|---|---|---|
| framework/ui/platforms/mac/include/bdn/mac/CheckboxCore.hh:21-41 | the constructor allows mixed state for every Checkbox, and `setState(off)` never withdraws it | a Checkbox constructed in the off state, then one user click; AppKit cycles off to mixed when mixed is allowed | user interaction never puts a Checkbox into mixed (lines 64-72) | medium; not executed | MacCheckboxProperties.ConstructedOffCheckboxClicksToMixed | MacCheckboxProperties.GuardedClicksNeverMixed |

`MixedThenOffClicksToMixed` shows the same gap reached through `setState`.
`GenerateClickRestoresSafety` shows that `generateClick` itself keeps the
flag right. The failure is confined to the states that the constructor and
`setState` leave behind.

## Left out

- Locking in `SimpleProperty` (the mutex in `get` and `set`): every operation is sequential.
- Notifier internals: subscribing or unsubscribing during a fire, and unsubscription driven by reference counts. The notifier is modelled by the bind subscriptions it delivers to and by a fire count.
- SimpleProperty.SubscribersFrom: delivery order is by property id, not by subscription order. When subscriptions overlap, the final state does not depend on this order: the sub-chains below distinct subscribers are disjoint.
- SimpleProperty.NotifyFrom: subscribers other than bound properties (application callbacks) are represented only by the fire count.
- SimpleProperty.Bind: requires the resulting binding structure to be acyclic. A cyclic bind chain with unconditional firing never terminates.
- Derived property types overriding `bindSourceChanged` with a transform: only the plain copy of `SimpleProperty` is modelled.
- GTK widget internals and the toolkit's arithmetic: `rectToGtkRect`, `gtkSizeToSize`, the preferred-size queries, the unit-conversion service and `Size += Margin` are opaque functions of the `Toolkit` value. Their definitions are not part of this model.
- `uiLengthToPixels` and `uiMarginToPixelMargin` only delegate to the unit-conversion service. The margin conversion appears as `Toolkit.marginToPixels`, applied to the widget, inside the padding computation.
- `getGtkWidget`, `getOuterView` and `getGtkScaleFactor` are accessors. The scale factor is a field of the widget, read at each use.
- Floating point: abstract-unit geometry and the scale factor are integers. The scale factor is positive because GTK reports an integer.
- GtkViewCore.SetBounds: requires an attached core whose parent, if any, has a core. The source dereferences both without checking.
- GtkViewCore.Measure: requires an attached core. The source reads the outer view's padding without checking.
- GtkViewCore.TryChangeParentView: requires an attached core whose parent is known. `_addToParent` dereferences the outer view without checking.
- Subclass overrides: `getDefaultPaddingPixels` is the base class's zero margin. A container core's child operations are recorded as the attach or move call they make.
- GtkViewCore.SetPadding is a no-op in the source and in the model.
- The checkbox's label (`setLabel`), the rest of `ToggleCoreBase`, KVO and the ClickEvent payload.
- MacCheckboxCore.Construct: the button it starts from is a parameter, because `ToggleCoreBase` is not part of this model.
- MacCheckboxCore.OuterState: a Toggle's `state()` is taken to be on exactly when the toggle is on. The Toggle view is not part of this model.
- MacCheckboxCore.TriStateToControlState: the converter helpers are not part of this model. They are taken to map each state to the NSControlStateValue of the same name.
- MacCheckboxCore.NativeClick: AppKit's click cycle is taken from the source's own comment. Off, mixed, on when mixed is allowed; off and on otherwise. A button showing mixed without allowing it is excluded, and no operation produces one.
- Outer views other than Checkbox and Toggle: the source dereferences null for them, so they are not modelled.
