/** The binding structure of a store of properties: each property is bound
    to at most one source property. A `set` on a property reaches, through
    `bindSourceChanged`, every property whose chain of sources leads to it,
    and that propagation only ends when the chains do, so the structure is
    required to be acyclic. */
module BindGraph {
  import opened Wrappers

  type PropId = nat

  /** For each property, the source it is bound to, if any. */
  type Sources = seq<Option<PropId>>

  /** Number of source links from `p` to an unbound property, if that is
      reached within `fuel` links. */
  function DepthWithin(g: Sources, p: PropId, fuel: nat): Option<nat>
    decreases fuel
  {
    if p >= |g| then None
    else match g[p]
      case None => Some(0)
      case Some(q) =>
        if fuel == 0 then None
        else match DepthWithin(g, q, fuel - 1)
          case None => None
          case Some(d) => Some(d + 1)
  }

  /** Every chain of sources stays inside the store and ends. */
  predicate Acyclic(g: Sources)
  {
    forall p :: 0 <= p < |g| ==> DepthWithin(g, p, |g|).Some?
  }

  /** Distance from `p` to the unbound property at the end of its chain. */
  function Depth(g: Sources, p: PropId): nat
    requires Acyclic(g) && p < |g|
  {
    DepthWithin(g, p, |g|).value
  }

  lemma {:induction false} DepthWithinBounded(g: Sources, p: PropId, fuel: nat)
    requires DepthWithin(g, p, fuel).Some?
    ensures DepthWithin(g, p, fuel).value <= fuel
    decreases fuel
  {
    if g[p].Some? {
      DepthWithinBounded(g, g[p].value, fuel - 1);
    }
  }

  lemma {:induction false} DepthWithinMonotone(g: Sources, p: PropId, fuel: nat, more: nat)
    requires DepthWithin(g, p, fuel).Some? && fuel <= more
    ensures DepthWithin(g, p, more) == DepthWithin(g, p, fuel)
    decreases fuel
  {
    if g[p].Some? {
      DepthWithinMonotone(g, g[p].value, fuel - 1, more - 1);
    }
  }

  /** A bound property lies exactly one link further from the end of its
      chain than its source. */
  lemma SourceDepth(g: Sources, q: PropId)
    requires Acyclic(g) && q < |g| && g[q].Some?
    ensures g[q].value < |g|
    ensures Depth(g, q) == Depth(g, g[q].value) + 1
    ensures Depth(g, q) <= |g|
  {
    var p := g[q].value;
    DepthWithinBounded(g, q, |g|);
    DepthWithinMonotone(g, p, |g| - 1, |g|);
  }

  /** `j` is `q` or is bound, directly or through other properties, to `q`. */
  predicate Descends(g: Sources, j: PropId, q: PropId)
    requires Acyclic(g) && j < |g|
    decreases Depth(g, j)
  {
    match g[j]
    case None => j == q
    case Some(k) => j == q || (SourceDepth(g, j); Descends(g, k, q))
  }

  /** `j` is reached from `p` through a direct subscriber of `p` whose id is
      at least `i`: the part of `p`'s descendants a delivery that starts at
      subscriber `i` still has to reach. */
  predicate Under(g: Sources, j: PropId, p: PropId, i: nat)
    requires Acyclic(g) && j < |g|
    decreases Depth(g, j)
  {
    match g[j]
    case None => false
    case Some(k) => if k == p then j >= i else (SourceDepth(g, j); Under(g, k, p, i))
  }

  lemma {:induction false} DescendsDepth(g: Sources, j: PropId, q: PropId)
    requires Acyclic(g) && j < |g| && Descends(g, j, q)
    ensures q < |g| && Depth(g, q) <= Depth(g, j)
    decreases Depth(g, j)
  {
    if j != q {
      SourceDepth(g, j);
      DescendsDepth(g, g[j].value, q);
    }
  }

  lemma {:induction false} UnderDepth(g: Sources, j: PropId, p: PropId, i: nat)
    requires Acyclic(g) && j < |g| && Under(g, j, p, i)
    ensures p < |g| && Depth(g, p) < Depth(g, j)
    decreases Depth(g, j)
  {
    SourceDepth(g, j);
    if g[j].value != p {
      UnderDepth(g, g[j].value, p, i);
    }
  }

  /** A property never descends from a property bound to it. */
  lemma SourceNotBelowSubscriber(g: Sources, c: PropId)
    requires Acyclic(g) && c < |g| && g[c].Some?
    ensures g[c].value < |g| && !Descends(g, g[c].value, c)
  {
    SourceDepth(g, c);
    if Descends(g, g[c].value, c) {
      DescendsDepth(g, g[c].value, c);
    }
  }

  /** The descendants of `p` are `p` itself and everything under one of its
      subscribers. */
  lemma {:induction false} DescendsIffUnder(g: Sources, j: PropId, p: PropId)
    requires Acyclic(g) && j < |g|
    ensures Descends(g, j, p) <==> j == p || Under(g, j, p, 0)
    decreases Depth(g, j)
  {
    if g[j].Some? {
      SourceDepth(g, j);
      DescendsIffUnder(g, g[j].value, p);
    }
  }

  /** Below subscriber `c` of `p`, a delivery starting at `i` still has work
      to do exactly when it has not yet passed `c`. */
  lemma {:induction false} UnderBelowSubscriber(g: Sources, j: PropId, p: PropId, c: PropId, i: nat)
    requires Acyclic(g) && j < |g| && c < |g| && g[c] == Some(p) && Descends(g, j, c)
    ensures Under(g, j, p, i) <==> c >= i
    decreases Depth(g, j)
  {
    if j != c {
      SourceDepth(g, j);
      var k := g[j].value;
      if k == p {
        DescendsDepth(g, k, c);
        SourceDepth(g, c);
      } else {
        UnderBelowSubscriber(g, k, p, c, i);
      }
    }
  }

  /** Moving the delivery past subscriber `i` removes exactly what lies
      below `i`. */
  lemma {:induction false} UnderStep(g: Sources, j: PropId, p: PropId, i: nat)
    requires Acyclic(g) && j < |g| && i < |g|
    ensures Under(g, j, p, i) <==> Under(g, j, p, i + 1) || (g[i] == Some(p) && Descends(g, j, i))
    decreases Depth(g, j)
  {
    if g[i] == Some(p) && Descends(g, j, i) {
      UnderBelowSubscriber(g, j, p, i, i);
      UnderBelowSubscriber(g, j, p, i, i + 1);
    } else if g[j].Some? {
      SourceDepth(g, j);
      var k := g[j].value;
      if k != p {
        UnderStep(g, k, p, i);
      }
    }
  }

  /** What a delivery starting at subscriber `i` still has to reach is
      exactly what descends from a subscriber of `p` numbered `i` or above. */
  lemma {:induction false} UnderIffBelowSubscriber(g: Sources, j: PropId, p: PropId, i: nat)
    requires Acyclic(g) && j < |g|
    ensures Under(g, j, p, i) <==> exists c :: i <= c < |g| && g[c] == Some(p) && Descends(g, j, c)
    decreases Depth(g, j)
  {
    if Under(g, j, p, i) {
      SourceDepth(g, j);
      var k := g[j].value;
      if k == p {
        assert Descends(g, j, j);
      } else {
        UnderIffBelowSubscriber(g, k, p, i);
        var c :| i <= c < |g| && g[c] == Some(p) && Descends(g, k, c);
        assert Descends(g, j, c);
      }
    }
    if exists c :: i <= c < |g| && g[c] == Some(p) && Descends(g, j, c) {
      var c :| i <= c < |g| && g[c] == Some(p) && Descends(g, j, c);
      UnderBelowSubscriber(g, j, p, c, i);
    }
  }

  /** Past the last subscriber nothing is left to reach. */
  lemma {:induction false} UnderEnd(g: Sources, j: PropId, p: PropId)
    requires Acyclic(g) && j < |g|
    ensures !Under(g, j, p, |g|)
    decreases Depth(g, j)
  {
    if g[j].Some? && g[j].value != p {
      SourceDepth(g, j);
      UnderEnd(g, g[j].value, p);
    }
  }

  /** Clearing one binding keeps the structure acyclic. */
  lemma {:induction false} UnbindKeepsDepth(g: Sources, p: PropId, j: PropId, fuel: nat)
    requires p < |g| && DepthWithin(g, j, fuel).Some?
    ensures DepthWithin(g[p := None], j, fuel).Some?
    decreases fuel
  {
    if j != p && g[j].Some? {
      UnbindKeepsDepth(g, p, g[j].value, fuel - 1);
    }
  }

  lemma UnbindKeepsAcyclic(g: Sources, p: PropId)
    requires Acyclic(g) && p < |g|
    ensures Acyclic(g[p := None])
  {
    var unbound := g[p := None];
    forall j | 0 <= j < |g|
      ensures DepthWithin(unbound, j, |unbound|).Some?
    {
      UnbindKeepsDepth(g, p, j, |g|);
    }
  }
}
