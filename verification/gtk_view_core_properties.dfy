/** Properties of the GTK view core that relate several calls or several
    inputs: measurement leaves no trace on the widget, the `-1` sentinel,
    the outcomes of attachment and re-parenting, and the bounds scenario. */
module GtkViewCoreProperties {
  import opened Wrappers
  import opened GtkViewCore

  /** Measuring twice in a row, the second time with the widget the first
      measurement left behind, reports the same result and the same widget. */
  lemma MeasureIsRepeatable(tk: Toolkit, tree: Tree, core: ViewCore, forWidth: int, forHeight: int)
    requires Attached(tree, core)
    ensures var first := Measure(tk, tree, core, forWidth, forHeight);
      Measure(tk, tree, core.(widget := first.widget), forWidth, forHeight) == first
  {
  }

  /** The widget's visibility and size request at the time of the call have
      no influence on the natural size: the toolkit is always queried with a
      visible widget whose size request is cleared. They reach the result
      only through the padding, which is converted with the restored widget,
      so without padding the measured size does not depend on them. */
  lemma MeasureIgnoresVisibilityAndSizeRequest(
    tk: Toolkit, tree: Tree, core: ViewCore, visible: bool, request: GtkSize, forWidth: int, forHeight: int)
    requires Attached(tree, core)
    ensures var other := core.(widget := core.widget.(visible := visible, sizeRequest := request));
      && Measure(tk, tree, other, forWidth, forHeight).probe == Measure(tk, tree, core, forWidth, forHeight).probe
      && Measure(tk, tree, other, forWidth, forHeight).natural == Measure(tk, tree, core, forWidth, forHeight).natural
    ensures tree[core.outer.value].padding.None? ==>
      var other := core.(widget := core.widget.(visible := visible, sizeRequest := request));
      Measure(tk, tree, other, forWidth, forHeight).size == Measure(tk, tree, core, forWidth, forHeight).size
  {
  }

  /** An argument of exactly `-1` is "unconstrained": both one-dimensional
      queries then read the natural size. Any other argument, negative ones
      included, is a constraint, converted and clamped at zero. */
  lemma MinusOneIsUnconstrained(tk: Toolkit, tree: Tree, core: ViewCore, length: int)
    requires Attached(tree, core)
    ensures CalcPreferredHeightForWidth(tk, tree, core, -1) == CalcPreferredSize(tk, tree, core).height
    ensures CalcPreferredWidthForHeight(tk, tree, core, -1) == CalcPreferredSize(tk, tree, core).width
    ensures length != -1 ==>
      Measure(tk, tree, core, length, -1).query == HeightForWidth(if length <= 0 then 0 else length / core.widget.scale)
    ensures length != -1 ==>
      Measure(tk, tree, core, -1, length).query == WidthForHeight(if length <= 0 then 0 else length / core.widget.scale)
  {
  }

  /** In a constrained branch the constrained native dimension is never
      negative, whatever the constraint. */
  lemma ConstrainedDimensionNonNegative(tk: Toolkit, tree: Tree, core: ViewCore, length: int)
    requires Attached(tree, core) && length != -1
    ensures Measure(tk, tree, core, length, -1).natural.width >= 0
    ensures Measure(tk, tree, core, -1, length).natural.height >= 0
    ensures Measure(tk, tree, core, length, length).natural.width >= 0
  {
  }

  /** Converting a constraint never yields more pixels than it has units. */
  lemma ConstraintNeverGrows(length: int, scale: ScaleFactor)
    ensures 0 <= ConstraintToPixels(length, scale) <= if length < 0 then 0 else length
  {
  }

  /** Truncation is symmetric about zero. */
  lemma TruncationIsOdd(a: int, s: ScaleFactor)
    ensures TruncatingDivide(-a, s) == -TruncatingDivide(a, s)
  {
  }

  /** `-5 / 2` truncates to `-2` in C++; Dafny's `/` would give `-3`. */
  lemma TruncationScenario()
    ensures TruncatingDivide(-5, 2) == -2 && -5 / 2 == -3
    ensures ConstraintToPixels(-5, 2) == 0 && ConstraintToPixels(5, 2) == 2
  {
  }

  /** Attaching a core has exactly one of three outcomes. */
  lemma AttachOutcomes(tree: Tree, self: ViewId)
    requires ParentKnown(tree, self)
    ensures var r := AddToParent(tree, self);
      && (r == Success([]) <==> tree[self].parent.None?)
      && (r.Failure? <==> tree[self].parent.Some? && tree[tree[self].parent.value].core != Some(Container))
      && (r.Success? && |r.value| == 1 <==> tree[self].parent.Some? && tree[tree[self].parent.value].core == Some(Container))
      && (r.Success? ==> forall c :: c in r.value ==> c == AddChild(tree[self].parent.value, self))
  {
  }

  /** A root view's core makes no attach call; a child created under it makes
      exactly one, against the root's container, naming itself. */
  lemma RootThenChildScenario(widget: Widget)
    ensures var root := map[0 := ViewNode(None, Some(Container), true, None)];
      Construct(root, 0, widget).calls == [] && Construct(root, 0, widget).error.None?
    ensures var tree := map[0 := ViewNode(None, Some(Container), true, None),
                            1 := ViewNode(Some(0), None, true, None)];
      Construct(tree, 1, widget).calls == [AddChild(0, 1)] && Construct(tree, 1, widget).error.None?
  {
  }

  /** `tryChangeParentView` gives the same answer whatever parent it is
      handed, and running it twice gives the same attach calls twice. */
  lemma ReparentIgnoresArgument(tree: Tree, core: ViewCore, p1: Option<ViewId>, p2: Option<ViewId>)
    requires Attached(tree, core) && ParentKnown(tree, core.outer.value)
    ensures TryChangeParentView(tree, core, p1) == TryChangeParentView(tree, core, p2)
    ensures TryChangeParentView(tree, core, p1).Success? ==>
      TryChangeParentView(tree, core, p1).value == Reparented(true, AddToParent(tree, core.outer.value).value)
  {
  }

  /** After `dispose` the widget is untouched and nothing that needs the
      outer view can be called any more. */
  lemma DisposeOnlyDetaches(tree: Tree, core: ViewCore)
    ensures Dispose(core).widget == core.widget
    ensures !Attached(tree, Dispose(core))
    ensures Dispose(Dispose(core)) == Dispose(core)
  {
  }

  /** Under a parent whose core is not a container, `setBounds` fails, but
      only after the clamped size request has reached the widget. */
  lemma SetBoundsFailsAfterSizing(tk: Toolkit, tree: Tree, core: ViewCore, bounds: Rect)
    requires Attached(tree, core) && ParentHasCore(tree, core.outer.value)
    requires tree[core.outer.value].parent.Some?
    requires tree[tree[core.outer.value].parent.value].core == Some(Leaf)
    ensures var a := tk.rectToGtkRect(bounds, core.widget.scale);
      SetBounds(tk, tree, core, bounds) ==
        BoundsEffect(core.widget.(sizeRequest := GtkSize(ClampNonNegative(a.width), ClampNonNegative(a.height))),
                     [], Some(ProgrammingError(MoveChildUnsupported)))
  {
  }

  /** A toolkit whose rect conversion scales every component. */
  function ScaledRect(r: Rect, s: ScaleFactor): GtkRect
  {
    GtkRect(r.x * s, r.y * s, r.width * s, r.height * s)
  }

  /** `setBounds({x: 10, y: 20, w: -5, h: 50})` at scale factor 2 under a
      container requests a 0 x 100 widget and moves it to (20, 40). */
  lemma SetBoundsScenario(tk: Toolkit, widget: Widget)
    requires widget.scale == 2
    requires forall r, s :: tk.rectToGtkRect(r, s) == ScaledRect(r, s)
    ensures var tree := map[0 := ViewNode(None, Some(Container), true, None),
                            1 := ViewNode(Some(0), Some(Leaf), true, None)];
      var e := SetBounds(tk, tree, ViewCore(widget, Some(1)), Rect(10, 20, -5, 50));
      e.widget.sizeRequest == GtkSize(0, 100) && e.calls == [MoveChild(0, 1, 20, 40)] && e.error.None?
  {
  }
}
