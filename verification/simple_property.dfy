/** `SimpleProperty`: a value cell with a change notifier and an optional
    one-way binding to a source property.

    A store holds every property, indexed by its id. Each cell keeps the
    value, the number of times its `onChange` notifier has fired, and the
    source its bind subscription listens to. A property's notifier delivers
    to the properties bound to it, in id order; delivering is
    `bindSourceChanged`, which is a `set` of the source's current value on
    the bound property, which fires in turn. */
module SimpleProperty {
  import opened Wrappers
  import opened BindGraph

  datatype Cell<T> = Cell(value: T, fireCount: nat, boundSource: Option<PropId>)

  type Store<T> = seq<Cell<T>>

  /** The binding structure of a store. */
  function Bindings<T>(s: Store<T>): (g: Sources)
    ensures |g| == |s|
    ensures forall i :: 0 <= i < |s| ==> g[i] == s[i].boundSource
  {
    seq(|s|, i requires 0 <= i < |s| => s[i].boundSource)
  }

  predicate Valid<T>(s: Store<T>)
  {
    Acyclic(Bindings(s))
  }

  /** A cell after a `set` of `v` on it: the value is `v` and its notifier
      has fired once more. */
  function Fired<T>(c: Cell<T>, v: T): (r: Cell<T>)
    ensures r.value == v && r.fireCount == c.fireCount + 1 && r.boundSource == c.boundSource
  {
    c.(value := v, fireCount := c.fireCount + 1)
  }

  lemma SameBindings<T>(s: Store<T>, p: PropId, c: Cell<T>)
    requires p < |s| && c.boundSource == s[p].boundSource
    ensures Bindings(s[p := c]) == Bindings(s)
  {
  }

  /** `get`: the value the property currently stores. */
  function Get<T>(s: Store<T>, p: PropId): (v: T)
    requires p < |s|
    ensures v == s[p].value
  {
    s[p].value
  }

  /** `set`: the value is stored only when it differs, the computed
      `changed` flag goes unused, and the notifier fires regardless. The
      change then reaches every property bound, directly or through others,
      to `p`; each of them takes the value and fires exactly once, and no
      other property changes. */
  function Set<T(==)>(s: Store<T>, p: PropId, v: T): (r: Store<T>)
    requires Valid(s) && p < |s|
    ensures Bindings(r) == Bindings(s)
    ensures |r| == |s|
    ensures forall j :: 0 <= j < |s| ==>
      r[j] == if Descends(Bindings(s), j, p) then Fired(s[j], v) else s[j]
    decreases |s| - Depth(Bindings(s), p), 1, 0
  {
    var c := s[p];
    var changed := c.value != v;
    var stored := s[p := Cell(if changed then v else c.value, c.fireCount + 1, c.boundSource)];
    SameBindings(s, p, stored[p]);
    DescendsOfSet(Bindings(s), p);
    NotifyFrom(stored, p, 0)
  }

  lemma DescendsOfSet(g: Sources, p: PropId)
    requires Acyclic(g) && p < |g|
    ensures forall j :: 0 <= j < |g| ==> (Descends(g, j, p) <==> j == p || Under(g, j, p, 0))
    ensures !Under(g, p, p, 0)
  {
    forall j | 0 <= j < |g|
      ensures Descends(g, j, p) <==> j == p || Under(g, j, p, 0)
    {
      DescendsIffUnder(g, j, p);
    }
    if Under(g, p, p, 0) {
      UnderDepth(g, p, p, 0);
    }
  }

  /** `_onChange.fire(*this)` from subscriber `i` on: each property bound to
      `p` with id at least `i` runs `bindSourceChanged`. */
  function NotifyFrom<T(==)>(s: Store<T>, p: PropId, i: nat): (r: Store<T>)
    requires Valid(s) && p < |s| && i <= |s|
    ensures Bindings(r) == Bindings(s)
    ensures |r| == |s|
    ensures forall j :: 0 <= j < |s| ==>
      r[j] == if Under(Bindings(s), j, p, i) then Fired(s[j], s[p].value) else s[j]
    decreases |s| - Depth(Bindings(s), p), 0, |s| - i
  {
    if i == |s| then
      NothingPastEnd(Bindings(s), p);
      s
    else if s[i].boundSource == Some(p) then
      SourceDepth(Bindings(s), i);
      StepPastSubscriber(Bindings(s), p, i);
      var delivered := BindSourceChanged(s, i, p);
      NotifyFrom(delivered, p, i + 1)
    else
      StepPastOther(Bindings(s), p, i);
      NotifyFrom(s, p, i + 1)
  }

  lemma NothingPastEnd(g: Sources, p: PropId)
    requires Acyclic(g)
    ensures forall j :: 0 <= j < |g| ==> !Under(g, j, p, |g|)
  {
    forall j | 0 <= j < |g|
      ensures !Under(g, j, p, |g|)
    {
      UnderEnd(g, j, p);
    }
  }

  lemma StepPastSubscriber(g: Sources, p: PropId, i: nat)
    requires Acyclic(g) && p < |g| && i < |g| && g[i] == Some(p)
    ensures !Descends(g, p, i)
    ensures forall j :: 0 <= j < |g| && Descends(g, j, i) ==> Under(g, j, p, i) && !Under(g, j, p, i + 1)
    ensures forall j :: 0 <= j < |g| && !Descends(g, j, i) ==> (Under(g, j, p, i) <==> Under(g, j, p, i + 1))
  {
    SourceNotBelowSubscriber(g, i);
    forall j | 0 <= j < |g|
      ensures Descends(g, j, i) ==> Under(g, j, p, i) && !Under(g, j, p, i + 1)
      ensures !Descends(g, j, i) ==> (Under(g, j, p, i) <==> Under(g, j, p, i + 1))
    {
      UnderStep(g, j, p, i);
      if Descends(g, j, i) {
        UnderBelowSubscriber(g, j, p, i, i + 1);
      }
    }
  }

  lemma StepPastOther(g: Sources, p: PropId, i: nat)
    requires Acyclic(g) && i < |g| && g[i] != Some(p)
    ensures forall j :: 0 <= j < |g| ==> (Under(g, j, p, i) <==> Under(g, j, p, i + 1))
  {
    forall j | 0 <= j < |g|
      ensures Under(g, j, p, i) <==> Under(g, j, p, i + 1)
    {
      UnderStep(g, j, p, i);
    }
  }

  /** `bindSourceChanged(source)` on property `b`: `set(source.get())`. */
  function BindSourceChanged<T(==)>(s: Store<T>, b: PropId, source: PropId): (r: Store<T>)
    requires Valid(s) && b < |s| && source < |s|
    requires s[b].boundSource == Some(source)
    ensures Bindings(r) == Bindings(s)
    ensures |r| == |s|
    ensures forall j :: 0 <= j < |s| ==>
      r[j] == if Descends(Bindings(s), j, b) then Fired(s[j], s[source].value) else s[j]
    decreases |s| - Depth(Bindings(s), b), 2, 0
  {
    Set(s, b, Get(s, source))
  }

  /** The notifier `onChange` hands out, as far as the store records it:
      the property that owns it, how often it has fired, and the properties
      subscribed to it through a bind, in delivery order. */
  datatype Notifier = Notifier(owner: PropId, fired: nat, subscribers: seq<PropId>)

  /** `onChange`: the property's own notifier. */
  function OnChange<T>(s: Store<T>, p: PropId): (n: Notifier)
    requires p < |s|
    ensures n.owner == p && n.fired == s[p].fireCount
    ensures forall q: PropId :: q in n.subscribers <==> q < |s| && s[q].boundSource == Some(p)
  {
    Notifier(p, s[p].fireCount, SubscribersFrom(s, p, 0))
  }

  /** The ids of the properties subscribed to `p`'s notifier through a bind,
      from `i` on, in delivery order. */
  function SubscribersFrom<T>(s: Store<T>, p: PropId, i: nat): (r: seq<PropId>)
    requires i <= |s|
    ensures forall q :: q in r <==> i <= q < |s| && s[q].boundSource == Some(p)
    ensures forall a, b :: 0 <= a < b < |r| ==> r[a] < r[b]
    decreases |s| - i
  {
    if i == |s| then []
    else if s[i].boundSource == Some(p) then
      var later := SubscribersFrom(s, p, i + 1);
      assert forall a :: 0 <= a < |later| ==> later[a] in later;
      [i] + later
    else SubscribersFrom(s, p, i + 1)
  }

  /** The subscriber lists depend on the binding structure only. */
  lemma {:induction false} SubscribersFollowBindings<T>(s: Store<T>, t: Store<T>, p: PropId, i: nat)
    requires Bindings(s) == Bindings(t) && i <= |s|
    ensures SubscribersFrom(s, p, i) == SubscribersFrom(t, p, i)
    decreases |s| - i
  {
    if i < |s| {
      assert s[i].boundSource == Bindings(s)[i] == t[i].boundSource;
      SubscribersFollowBindings(s, t, p, i + 1);
    }
  }

  /** `j` descends from a property in `p`'s subscriber list from `i` on. */
  predicate BelowListed<T>(s: Store<T>, p: PropId, i: nat, j: PropId)
    requires Valid(s) && i <= |s| && j < |s|
  {
    exists k: PropId :: k in SubscribersFrom(s, p, i) && Descends(Bindings(s), j, k)
  }

  /** Delivery from subscriber `i` on reaches exactly what descends from a
      property in the subscriber list from `i` on. */
  lemma DeliveryFollowsSubscribers<T>(s: Store<T>, p: PropId, i: nat)
    requires Valid(s) && p < |s| && i <= |s|
    ensures forall j: PropId :: j < |s| ==>
      NotifyFrom(s, p, i)[j] == if BelowListed(s, p, i, j) then Fired(s[j], s[p].value) else s[j]
  {
    forall j: PropId | j < |s|
      ensures Under(Bindings(s), j, p, i) <==> BelowListed(s, p, i, j)
    {
      UnderIffListed(s, p, i, j);
    }
  }

  lemma UnderIffListed<T>(s: Store<T>, p: PropId, i: nat, j: PropId)
    requires Valid(s) && i <= |s| && j < |s|
    ensures Under(Bindings(s), j, p, i) <==> BelowListed(s, p, i, j)
  {
    var g := Bindings(s);
    UnderIffBelowSubscriber(g, j, p, i);
    if Under(g, j, p, i) {
      var c :| i <= c < |g| && g[c] == Some(p) && Descends(g, j, c);
      assert c in SubscribersFrom(s, p, i);
    }
  }

  /** `bind(source)` on property `b`: the subscription handle is replaced by
      one on `source`'s notifier (dropping any earlier one), then the
      source's current value is copied with `bindSourceChanged`. The source
      itself does not change. */
  function Bind<T(==)>(s: Store<T>, b: PropId, source: PropId): (r: Store<T>)
    requires b < |s| && source < |s|
    requires Acyclic(Bindings(s)[b := Some(source)])
    ensures Bindings(r) == Bindings(s)[b := Some(source)]
    ensures |r| == |s|
    ensures r[b].value == s[source].value
    ensures r[b].fireCount == s[b].fireCount + 1
    ensures r[b].boundSource == Some(source)
    ensures r[source] == s[source]
    ensures forall j :: 0 <= j < |s| && j != b ==>
      r[j] == if Descends(Bindings(r), j, b) then Fired(s[j], s[source].value) else s[j]
  {
    var subscribed := s[b := s[b].(boundSource := Some(source))];
    assert Bindings(subscribed) == Bindings(s)[b := Some(source)];
    SourceNotBelowSubscriber(Bindings(subscribed), b);
    BindSourceChanged(subscribed, b, source)
  }

  /** The destructor: the bind subscription is released first. Nothing but
      `p`'s binding changes. */
  function Destroy<T>(s: Store<T>, p: PropId): (r: Store<T>)
    requires p < |s|
    ensures |r| == |s|
    ensures Bindings(r) == Bindings(s)[p := None]
    ensures forall j :: 0 <= j < |s| ==> r[j].value == s[j].value && r[j].fireCount == s[j].fireCount
  {
    var released := s[p := s[p].(boundSource := None)];
    assert Bindings(released) == Bindings(s)[p := None];
    released
  }
}
