/** Properties of `SimpleProperty` that relate several calls: `get` after
    `set`, unconditional firing, binding, re-binding and destruction. */
module SimplePropertyProperties {
  import opened Wrappers
  import opened BindGraph
  import opened SimpleProperty

  /** After `set(v)`, `get()` returns `v`. */
  lemma SetThenGet<T>(s: Store<T>, p: PropId, v: T)
    requires Valid(s) && p < |s|
    ensures Get(Set(s, p, v), p) == v
  {
  }

  /** `set` fires exactly once per call, also when the value is unchanged;
      then the stored value stays as it was. */
  lemma SetFiresEvenWhenUnchanged<T>(s: Store<T>, p: PropId)
    requires Valid(s) && p < |s|
    ensures Set(s, p, s[p].value)[p] == s[p].(fireCount := s[p].fireCount + 1)
  {
  }

  /** Two `set`s of the same value fire twice and store it once. */
  lemma SetTwiceFiresTwice<T>(s: Store<T>, p: PropId, v: T)
    requires Valid(s) && p < |s|
    ensures Valid(Set(s, p, v))
    ensures var r := Set(Set(s, p, v), p, v);
      r[p].value == v && r[p].fireCount == s[p].fireCount + 2
  {
  }

  /** After `bind(source)`, every `source.set(v)` leaves the bound property
      holding `v`, with one more notification of its own. */
  lemma BoundPropertyFollowsSource<T>(s: Store<T>, b: PropId, source: PropId, v: T)
    requires b < |s| && source < |s|
    requires Acyclic(Bindings(s)[b := Some(source)])
    ensures Valid(Bind(s, b, source))
    ensures var bound := Bind(s, b, source);
      Get(Set(bound, source, v), b) == v && Set(bound, source, v)[b].fireCount == bound[b].fireCount + 1
  {
  }

  /** A chain `c` bound to `b` bound to `a`: setting `a` reaches `c`. */
  lemma ChainFollowsSource<T>(s: Store<T>, a: PropId, b: PropId, c: PropId, v: T)
    requires Valid(s) && a < |s| && b < |s| && c < |s|
    requires s[b].boundSource == Some(a) && s[c].boundSource == Some(b)
    ensures Get(Set(s, a, v), c) == v
  {
  }

  /** Only the most recent source is recorded: once `b` is re-bound to
      `second`, a `set` on an earlier source that `second` does not itself
      follow leaves `b` alone, and `b` is subscribed to `second` only. */
  lemma RebindForgetsEarlierSource<T>(s: Store<T>, b: PropId, first: PropId, second: PropId, v: T)
    requires b < |s| && first < |s| && second < |s| && first != b
    requires Acyclic(Bindings(s)[b := Some(second)])
    requires s[b].boundSource == Some(first)
    requires !Descends(Bindings(s)[b := Some(second)], second, first)
    ensures Valid(Bind(s, b, second))
    ensures var rebound := Bind(s, b, second);
      Set(rebound, first, v)[b] == rebound[b]
    ensures b in SubscribersFrom(Bind(s, b, second), second, 0)
    ensures b !in SubscribersFrom(Bind(s, b, second), first, 0)
  {
  }

  /** After the destructor released the binding, no `set` elsewhere reaches
      the destroyed property. */
  lemma DestroyedPropertyIsUnreachable<T>(s: Store<T>, p: PropId, source: PropId, v: T)
    requires Valid(s) && p < |s| && source < |s| && source != p
    ensures Valid(Destroy(s, p))
    ensures Set(Destroy(s, p), source, v)[p] == Destroy(s, p)[p]
  {
    UnbindKeepsAcyclic(Bindings(s), p);
  }

  /** A `set` anywhere keeps `onChange`'s notifier and its subscriber list;
      the notifier has fired once more exactly when the `set` reached its
      owner, which it always does for a `set` on the owner itself. */
  lemma OnChangeIsStable<T>(s: Store<T>, p: PropId, q: PropId, v: T)
    requires Valid(s) && p < |s| && q < |s|
    ensures var before := OnChange(s, p); var after := OnChange(Set(s, q, v), p);
      && after.owner == before.owner
      && after.subscribers == before.subscribers
      && after.fired == before.fired + (if Descends(Bindings(s), p, q) then 1 else 0)
    ensures OnChange(Set(s, p, v), p) == OnChange(s, p).(fired := s[p].fireCount + 1)
  {
    SubscribersFollowBindings(Set(s, q, v), s, p, 0);
    SubscribersFollowBindings(Set(s, p, v), s, p, 0);
  }

  /** A source with two bound properties: one `set` on the source reaches
      both and fires each of the three notifiers once. */
  lemma FanOutScenario()
    ensures var s := [Cell(0, 0, None), Cell(1, 0, Some(0)), Cell(2, 0, Some(0))];
      Valid(s) && Set(s, 0, 7) == [Cell(7, 1, None), Cell(7, 1, Some(0)), Cell(7, 1, Some(0))]
  {
    var s := [Cell(0, 0, None), Cell(1, 0, Some(0)), Cell(2, 0, Some(0))];
    var g := Bindings(s);
    assert g == [None, Some(0), Some(0)];
    assert DepthWithin(g, 0, 3) == Some(0);
    assert DepthWithin(g, 1, 3) == Some(1);
    assert DepthWithin(g, 2, 3) == Some(1);
    assert Descends(g, 1, 0) && Descends(g, 2, 0);
  }
}
