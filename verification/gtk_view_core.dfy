/** The GTK implementation of a view core: a wrapper around one native
    widget that mirrors a portable view, attaches itself to its parent's
    native container, pushes bounds into the widget and measures it.

    The widget is reduced to the state this core reads and writes (its
    visibility, its size request and its scale factor). Everything the GTK
    toolkit and the unit-conversion service compute is an opaque function
    supplied through a `Toolkit` value, so every property proved here holds
    whatever those functions return. */
module GtkViewCore {
  import opened Wrappers

  /** Identity of a portable view; a core is named by its outer view. */
  type ViewId = nat

  /** Device pixels per abstract unit, as `gtk_widget_get_scale_factor`
      reports it: a positive integer. */
  type ScaleFactor = s: int | s >= 1 witness 1

  /** Portable geometry, in abstract units. */
  datatype Rect = Rect(x: int, y: int, width: int, height: int)
  datatype Size = Size(width: int, height: int)
  datatype UiMargin = UiMargin(top: int, right: int, bottom: int, left: int)

  /** Native geometry, in GTK pixels (GtkAllocation, GtkRequisition and the
      pixel margin returned by the unit-conversion service). */
  datatype GtkRect = GtkRect(x: int, y: int, width: int, height: int)
  datatype GtkSize = GtkSize(width: int, height: int)
  datatype Margin = Margin(top: int, right: int, bottom: int, left: int)

  /** The part of a GtkWidget's state this core touches. */
  datatype Widget = Widget(visible: bool, sizeRequest: GtkSize, scale: ScaleFactor)

  /** The collaborators whose arithmetic is not part of this model. The
      preferred-size queries and the margin conversion receive the widget in
      the state it has at the moment of the call. */
  datatype Toolkit = Toolkit(
    rectToGtkRect: (Rect, ScaleFactor) -> GtkRect,
    gtkSizeToSize: (GtkSize, ScaleFactor) -> Size,
    naturalSize: Widget -> GtkSize,
    naturalHeightForWidth: (Widget, int) -> int,
    naturalWidthForHeight: (Widget, int) -> int,
    marginToPixels: (Widget, UiMargin) -> Margin,
    addMargin: (Size, Margin) -> Size)

  /** A core without child support is the base `ViewCore`; a container is a
      subclass that overrides the two child operations. */
  datatype CoreKind = Leaf | Container

  /** A portable view as the core sees it: its parent, the kind of its core
      (if it has one), and the properties the core reads. */
  datatype ViewNode = ViewNode(
    parent: Option<ViewId>,
    core: Option<CoreKind>,
    visible: bool,
    padding: Option<UiMargin>)

  type Tree = map<ViewId, ViewNode>

  /** The core itself: its widget and the weak reference to its outer view,
      cleared by `Dispose`. */
  datatype ViewCore = ViewCore(widget: Widget, outer: Option<ViewId>)

  datatype ErrorKind = ParentWithoutCore | AddChildUnsupported | MoveChildUnsupported
  datatype Error = ProgrammingError(kind: ErrorKind)

  /** Calls made into a parent container core. */
  datatype GtkCall =
    | AddChild(container: ViewId, child: ViewId)
    | MoveChild(container: ViewId, child: ViewId, x: int, y: int)

  /** The core still refers to a live outer view. */
  predicate Attached(tree: Tree, core: ViewCore)
  {
    core.outer.Some? && core.outer.value in tree
  }

  /** The view is known and so is its parent, if it has one. */
  predicate ParentKnown(tree: Tree, v: ViewId)
  {
    v in tree && (tree[v].parent.Some? ==> tree[v].parent.value in tree)
  }

  // ---------------------------------------------------------------------
  // Lifecycle and property push

  /** `setVisible`: pushes the flag into the widget and nothing else. */
  function SetVisible(core: ViewCore, visible: bool): (r: ViewCore)
    ensures r.widget.visible == visible
    ensures r.widget.sizeRequest == core.widget.sizeRequest
    ensures r.widget.scale == core.widget.scale
    ensures r.outer == core.outer
  {
    core.(widget := core.widget.(visible := visible))
  }

  /** `setPadding` is a no-op in this core: padding is read from the outer
      view each time the widget is measured. */
  function SetPadding(core: ViewCore, padding: Option<UiMargin>): (r: ViewCore)
    ensures r == core
  {
    core
  }

  /** `dispose`: drops the back-reference to the outer view only. */
  function Dispose(core: ViewCore): (r: ViewCore)
    ensures r.widget == core.widget
    ensures r.outer.None?
    ensures forall tree: Tree :: !Attached(tree, r)
  {
    core.(outer := None)
  }

  /** The base class's `_addChildViewCore`: only a container accepts a child. */
  function AddChildViewCore(kind: CoreKind, container: ViewId, child: ViewId): (r: Result<GtkCall, Error>)
    ensures r.Success? <==> kind == Container
    ensures r.Success? ==> r.value == AddChild(container, child)
    ensures r.Failure? ==> r.error == ProgrammingError(AddChildUnsupported)
  {
    match kind
    case Leaf => Failure(ProgrammingError(AddChildUnsupported))
    case Container => Success(AddChild(container, child))
  }

  /** The base class's `_moveChildViewCore`: only a container moves a child. */
  function MoveChildViewCore(kind: CoreKind, container: ViewId, child: ViewId, x: int, y: int): (r: Result<GtkCall, Error>)
    ensures r.Success? <==> kind == Container
    ensures r.Success? ==> r.value == MoveChild(container, child, x, y)
    ensures r.Failure? ==> r.error == ProgrammingError(MoveChildUnsupported)
  {
    match kind
    case Leaf => Failure(ProgrammingError(MoveChildUnsupported))
    case Container => Success(MoveChild(container, child, x, y))
  }

  /** `_addToParent`: looks one level up the portable tree. A root view needs
      nothing; a parent without a core is a programming error; otherwise the
      parent core is asked, exactly once, to accept this core. */
  function AddToParent(tree: Tree, self: ViewId): (r: Result<seq<GtkCall>, Error>)
    requires ParentKnown(tree, self)
    ensures tree[self].parent.None? ==> r == Success([])
    ensures tree[self].parent.Some? && tree[tree[self].parent.value].core.None? ==>
      r == Failure(ProgrammingError(ParentWithoutCore))
    ensures tree[self].parent.Some? && tree[tree[self].parent.value].core == Some(Leaf) ==>
      r == Failure(ProgrammingError(AddChildUnsupported))
    ensures tree[self].parent.Some? && tree[tree[self].parent.value].core == Some(Container) ==>
      r == Success([AddChild(tree[self].parent.value, self)])
  {
    match tree[self].parent
    case None => Success([])
    case Some(p) =>
      match tree[p].core
      case None => Failure(ProgrammingError(ParentWithoutCore))
      case Some(kind) =>
        match AddChildViewCore(kind, p, self)
        case Failure(e) => Failure(e)
        case Success(call) => Success([call])
  }

  /** The state left behind by the constructor. When `error` is present the
      constructor threw: the C++ object never came to exist, but the widget
      has already received the outer view's visibility. */
  datatype Constructed = Constructed(core: ViewCore, calls: seq<GtkCall>, error: Option<Error>)

  /** The constructor: records the outer view, pushes its visibility into the
      widget and attaches to the parent. */
  function Construct(tree: Tree, outer: ViewId, widget: Widget): (r: Constructed)
    requires ParentKnown(tree, outer)
    ensures r.core == ViewCore(widget.(visible := tree[outer].visible), Some(outer))
    ensures Attached(tree, r.core)
    ensures r.error.None? <==> AddToParent(tree, outer).Success?
    ensures r.error.None? ==> r.calls == AddToParent(tree, outer).value
    ensures r.error.Some? ==> r.calls == [] && r.error.value == AddToParent(tree, outer).error
  {
    var core := SetVisible(ViewCore(widget, Some(outer)), tree[outer].visible);
    match AddToParent(tree, outer)
    case Success(calls) => Constructed(core, calls, None)
    case Failure(e) => Constructed(core, [], Some(e))
  }

  datatype Reparented = Reparented(succeeded: bool, calls: seq<GtkCall>)

  /** `tryChangeParentView`: re-runs `_addToParent` for the outer view's
      current parent; the argument is not consulted, and the answer is
      `true` whenever no error escapes. */
  function TryChangeParentView(tree: Tree, core: ViewCore, newParent: Option<ViewId>): (r: Result<Reparented, Error>)
    requires Attached(tree, core) && ParentKnown(tree, core.outer.value)
    ensures r.Success? ==> r.value.succeeded
    ensures r.Success? <==> AddToParent(tree, core.outer.value).Success?
    ensures r.Success? ==> r.value.calls == AddToParent(tree, core.outer.value).value
    ensures r.Failure? ==> r.error == AddToParent(tree, core.outer.value).error
  {
    match AddToParent(tree, core.outer.value)
    case Success(calls) => Success(Reparented(true, calls))
    case Failure(e) => Failure(e)
  }

  // ---------------------------------------------------------------------
  // Bounds

  /** The outcome of `setBounds`: the widget afterwards, the call made on
      the parent container, and the error that escaped, if any. The widget
      keeps its new size request even when an error escapes. */
  datatype BoundsEffect = BoundsEffect(widget: Widget, calls: seq<GtkCall>, error: Option<Error>)

  /** GTK's size request never receives a negative dimension. */
  function ClampNonNegative(n: int): (r: int)
    ensures r >= 0
    ensures n >= 0 ==> r == n
    ensures n < 0 ==> r == 0
  {
    if n < 0 then 0 else n
  }

  /** `setBounds`' dereference of the parent's core assumes the parent, if
      any, has one. */
  predicate ParentHasCore(tree: Tree, v: ViewId)
  {
    ParentKnown(tree, v) && (tree[v].parent.Some? ==> tree[tree[v].parent.value].core.Some?)
  }

  /** `setBounds`: converts the rect with the live scale factor, clamps its
      size at zero, pushes it as the size request, then has the parent core
      move the widget to the (unclamped) converted origin. */
  function SetBounds(tk: Toolkit, tree: Tree, core: ViewCore, bounds: Rect): (r: BoundsEffect)
    requires Attached(tree, core) && ParentHasCore(tree, core.outer.value)
    ensures r.widget.sizeRequest.width >= 0 && r.widget.sizeRequest.height >= 0
    ensures var a := tk.rectToGtkRect(bounds, core.widget.scale);
      && (a.width >= 0 ==> r.widget.sizeRequest.width == a.width)
      && (a.height >= 0 ==> r.widget.sizeRequest.height == a.height)
      && (a.width < 0 ==> r.widget.sizeRequest.width == 0)
      && (a.height < 0 ==> r.widget.sizeRequest.height == 0)
    ensures r.widget.visible == core.widget.visible && r.widget.scale == core.widget.scale
    ensures var self := core.outer.value;
      tree[self].parent.None? ==> r.calls == [] && r.error.None?
    ensures var self := core.outer.value; var a := tk.rectToGtkRect(bounds, core.widget.scale);
      tree[self].parent.Some? && tree[tree[self].parent.value].core == Some(Container) ==>
        r.calls == [MoveChild(tree[self].parent.value, self, a.x, a.y)] && r.error.None?
    ensures var self := core.outer.value;
      tree[self].parent.Some? && tree[tree[self].parent.value].core == Some(Leaf) ==>
        r.calls == [] && r.error == Some(ProgrammingError(MoveChildUnsupported))
  {
    var alloc := tk.rectToGtkRect(bounds, core.widget.scale);
    var widget := core.widget.(sizeRequest := GtkSize(ClampNonNegative(alloc.width), ClampNonNegative(alloc.height)));
    var self := core.outer.value;
    match tree[self].parent
    case None => BoundsEffect(widget, [], None)
    case Some(p) =>
      match MoveChildViewCore(tree[p].core.value, p, self, alloc.x, alloc.y)
      case Success(call) => BoundsEffect(widget, [call], None)
      case Failure(e) => BoundsEffect(widget, [], Some(e))
  }

  // ---------------------------------------------------------------------
  // Measurement

  /** C++ conversion of a double quotient to `int`: truncation toward zero,
      so a negative quotient rounds up where Dafny's `/` rounds down. */
  function TruncatingDivide(a: int, s: ScaleFactor): (q: int)
    ensures a >= 0 ==> q == a / s
    ensures a < 0 ==> q <= 0 && a <= q * s < a + s
  {
    if a >= 0 then a / s
    else
      var n := (-a) / s;
      assert n * s <= -a < n * s + s;
      assert -n * s == -(n * s);
      -n
  }

  /** A width or height constraint converted to GTK pixels and clamped at
      zero (`forWidth / getGtkScaleFactor()`, then the `< 0` guard). */
  function ConstraintToPixels(length: int, scale: ScaleFactor): (px: int)
    ensures px >= 0
    ensures px == if length <= 0 then 0 else length / scale
  {
    var converted := TruncatingDivide(length, scale);
    if converted < 0 then 0 else converted
  }

  /** The toolkit query `_calcPreferredSize` makes. */
  datatype Query = HeightForWidth(forGtkWidth: int) | WidthForHeight(forGtkHeight: int) | Unconstrained

  /** The three-way branch on the `-1` sentinels; a width constraint wins. */
  function Dispatch(forWidth: int, forHeight: int, scale: ScaleFactor): (q: Query)
    ensures q.Unconstrained? <==> forWidth == -1 && forHeight == -1
    ensures q.HeightForWidth? <==> forWidth != -1
    ensures q.HeightForWidth? ==> q.forGtkWidth == if forWidth <= 0 then 0 else forWidth / scale
    ensures q.WidthForHeight? ==> q.forGtkHeight == if forHeight <= 0 then 0 else forHeight / scale
  {
    if forWidth != -1 then HeightForWidth(ConstraintToPixels(forWidth, scale))
    else if forHeight != -1 then WidthForHeight(ConstraintToPixels(forHeight, scale))
    else Unconstrained
  }

  /** The natural size reported for a query: in a constrained branch the
      constrained dimension is the converted constraint itself. */
  function Ask(tk: Toolkit, probe: Widget, q: Query): (natural: GtkSize)
    ensures q.HeightForWidth? ==> natural.width == q.forGtkWidth
    ensures q.HeightForWidth? ==> natural.height == tk.naturalHeightForWidth(probe, q.forGtkWidth)
    ensures q.WidthForHeight? ==> natural.height == q.forGtkHeight
    ensures q.WidthForHeight? ==> natural.width == tk.naturalWidthForHeight(probe, q.forGtkHeight)
    ensures q.Unconstrained? ==> natural == tk.naturalSize(probe)
  {
    match q
    case HeightForWidth(w) => GtkSize(w, tk.naturalHeightForWidth(probe, w))
    case WidthForHeight(h) => GtkSize(tk.naturalWidthForHeight(probe, h), h)
    case Unconstrained => tk.naturalSize(probe)
  }

  /** `getDefaultPaddingPixels` of the base class: a zero margin. */
  function DefaultPaddingPixels(): (m: Margin)
    ensures m.top == 0 && m.right == 0 && m.bottom == 0 && m.left == 0
  {
    Margin(0, 0, 0, 0)
  }

  /** `_getPaddingPixels`: the outer view's padding in pixels when it is set,
      the default padding otherwise. */
  function PaddingPixels(tk: Toolkit, tree: Tree, core: ViewCore): (m: Margin)
    requires Attached(tree, core)
    ensures tree[core.outer.value].padding.None? ==> m == Margin(0, 0, 0, 0)
    ensures tree[core.outer.value].padding.Some? ==>
      m == tk.marginToPixels(core.widget, tree[core.outer.value].padding.value)
  {
    match tree[core.outer.value].padding
    case None => DefaultPaddingPixels()
    case Some(pad) => tk.marginToPixels(core.widget, pad)
  }

  /** One run of `_calcPreferredSize`: the padded result, the query made,
      the natural size it returned, the widget as the toolkit saw it during
      the query, and the widget afterwards. */
  datatype Measurement = Measurement(size: Size, query: Query, natural: GtkSize, probe: Widget, widget: Widget)

  /** `_calcPreferredSize`: saves the size request and visibility, forces the
      widget visible with no size request, queries, restores both, converts
      the natural size back and adds the effective padding, which is
      converted with the widget as restored. */
  function Measure(tk: Toolkit, tree: Tree, core: ViewCore, forWidth: int, forHeight: int): (m: Measurement)
    requires Attached(tree, core)
    ensures m.widget == core.widget
    ensures m.probe == Probe(core.widget)
    ensures m.query == Dispatch(forWidth, forHeight, core.widget.scale)
    ensures m.natural == Ask(tk, m.probe, m.query)
    ensures m.size == tk.addMargin(tk.gtkSizeToSize(m.natural, core.widget.scale), PaddingPixels(tk, tree, core))
  {
    var saved := core.widget;
    var shown := if !saved.visible then saved.(visible := true) else saved;
    var probe := shown.(sizeRequest := GtkSize(0, 0));
    var query := Dispatch(forWidth, forHeight, probe.scale);
    var natural := Ask(tk, probe, query);
    var unshown := if !saved.visible then probe.(visible := saved.visible) else probe;
    var restored := unshown.(sizeRequest := saved.sizeRequest);
    var size := tk.gtkSizeToSize(natural, restored.scale);
    Measurement(tk.addMargin(size, PaddingPixels(tk, tree, core.(widget := restored))), query, natural, probe, restored)
  }

  /** The widget as the toolkit sees it during a measurement. */
  function Probe(w: Widget): (p: Widget)
    ensures p.visible && p.sizeRequest == GtkSize(0, 0) && p.scale == w.scale
  {
    w.(visible := true, sizeRequest := GtkSize(0, 0))
  }

  /** `calcPreferredSize`: the unconstrained natural size of the probed
      widget, converted back, plus the effective padding. */
  function CalcPreferredSize(tk: Toolkit, tree: Tree, core: ViewCore): (size: Size)
    requires Attached(tree, core)
    ensures size == tk.addMargin(
      tk.gtkSizeToSize(tk.naturalSize(Probe(core.widget)), core.widget.scale), PaddingPixels(tk, tree, core))
  {
    Measure(tk, tree, core, -1, -1).size
  }

  /** `calcPreferredHeightForWidth`: `-1` reads the unconstrained height;
      any other width is converted, clamped, and handed to the toolkit's
      height-for-width query. */
  function CalcPreferredHeightForWidth(tk: Toolkit, tree: Tree, core: ViewCore, width: int): (height: int)
    requires Attached(tree, core)
    ensures width == -1 ==> height == CalcPreferredSize(tk, tree, core).height
    ensures width != -1 ==>
      var w := ConstraintToPixels(width, core.widget.scale);
      height == tk.addMargin(
        tk.gtkSizeToSize(GtkSize(w, tk.naturalHeightForWidth(Probe(core.widget), w)), core.widget.scale),
        PaddingPixels(tk, tree, core)).height
  {
    Measure(tk, tree, core, width, -1).size.height
  }

  /** `calcPreferredWidthForHeight`: `-1` reads the unconstrained width;
      any other height is converted, clamped, and handed to the toolkit's
      width-for-height query. */
  function CalcPreferredWidthForHeight(tk: Toolkit, tree: Tree, core: ViewCore, height: int): (width: int)
    requires Attached(tree, core)
    ensures height == -1 ==> width == CalcPreferredSize(tk, tree, core).width
    ensures height != -1 ==>
      var h := ConstraintToPixels(height, core.widget.scale);
      width == tk.addMargin(
        tk.gtkSizeToSize(GtkSize(tk.naturalWidthForHeight(Probe(core.widget), h), h), core.widget.scale),
        PaddingPixels(tk, tree, core)).width
  {
    Measure(tk, tree, core, -1, height).size.width
  }
}
