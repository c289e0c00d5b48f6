/** The simulation driver: an ordered list of elements and the rays pushed through them. */
module Simulation {
  import opened Vectors
  import opened Outcomes
  import opened Rays
  import opened OpticalElements

  /** What one ray goes through in `propagate`: each element's `propagate_ray` in order, the
      first exception ending the run (and, at simulation.py:41-45, the whole `propagate` call). */
  function Trace(es: seq<Element>, s: RayState, sqrt: real -> real): Outcome
    decreases |es|
  {
    if |es| == 0 then Outcome(s, Returned)
    else
      var o := Trace(es[..|es| - 1], s, sqrt);
      if o.status.Raised? then o else Propagated(es[|es| - 1], o.ray, sqrt)
  }

  /** The number of spherical surfaces among `es`. */
  function Spheres(es: seq<Element>): nat
    decreases |es|
  {
    if |es| == 0 then 0 else Spheres(es[..|es| - 1]) + (if es[|es| - 1].Spherical? then 1 else 0)
  }

  lemma Prefix(es: seq<Element>, n: nat)
    requires n < |es|
    ensures es[..n + 1][..n] == es[..n] && es[..n + 1][n] == es[n]
  {
  }

  /** Once an element has raised, later elements are never reached. */
  lemma {:induction false} RaisedStays(es: seq<Element>, s: RayState, sqrt: real -> real, n: nat, m: nat)
    requires n <= m <= |es| && Trace(es[..n], s, sqrt).status.Raised?
    ensures Trace(es[..m], s, sqrt) == Trace(es[..n], s, sqrt)
    decreases m
  {
    if m > n {
      RaisedStays(es, s, sqrt, n, m - 1);
      Prefix(es, m - 1);
    }
  }

  /** The elements act one after another, each exactly once: while no element has raised,
      element `n` receives the ray as the first `n` left it, whatever its `terminated` flag
      says (a missed or totally reflected ray is not skipped). */
  lemma Step(es: seq<Element>, s: RayState, sqrt: real -> real, n: nat)
    requires n < |es| && Trace(es[..n], s, sqrt).status == Returned
    ensures Trace(es[..n + 1], s, sqrt) == Propagated(es[n], Trace(es[..n], s, sqrt).ray, sqrt)
  {
    Prefix(es, n);
  }

  /** Passing through the elements only adds to the ray's history, one vertex at most per
      element, and never changes its frequency or its `terminated` flag. */
  lemma {:induction false} TraceFrame(es: seq<Element>, s: RayState, sqrt: real -> real)
    ensures var o := Trace(es, s, sqrt);
      |s.vertices| <= |o.ray.vertices| <= |s.vertices| + |es| &&
      o.ray.vertices[..|s.vertices|] == s.vertices &&
      o.ray.freq == s.freq && o.ray.terminated == s.terminated
    decreases |es|
  {
    if |es| > 0 {
      var front := es[..|es| - 1];
      var o := Trace(front, s, sqrt);
      TraceFrame(front, s, sqrt);
      if !o.status.Raised? {
        var o2 := Propagated(es[|es| - 1], o.ray, sqrt);
        PropagatedFrame(es[|es| - 1], o.ray, sqrt);
        assert o2.ray.vertices[..|s.vertices|] == o2.ray.vertices[..|o.ray.vertices|][..|s.vertices|];
      }
    }
  }

  /** A run that ends normally met no base element, and every spherical surface on the way
      added a vertex. */
  lemma {:induction false} TraceReturned(es: seq<Element>, s: RayState, sqrt: real -> real)
    requires Trace(es, s, sqrt).status == Returned
    ensures forall i :: 0 <= i < |es| ==> !es[i].Base?
    ensures |Trace(es, s, sqrt).ray.vertices| >= |s.vertices| + Spheres(es)
    decreases |es|
  {
    if |es| > 0 {
      var front := es[..|es| - 1];
      var last := es[|es| - 1];
      var o := Trace(front, s, sqrt);
      TraceReturned(front, s, sqrt);
      PropagatedFrame(last, o.ray, sqrt);
      forall i | 0 <= i < |es|
        ensures !es[i].Base?
      {
        if i < |es| - 1 {
          assert es[i] == front[i];
        }
      }
    }
  }

  /** A run through no elements, or through output planes only, never raises and never turns the
      ray. */
  lemma {:induction false} OutputsOnly(es: seq<Element>, s: RayState, sqrt: real -> real)
    requires forall i :: 0 <= i < |es| ==> es[i].Output?
    ensures Trace(es, s, sqrt).status == Returned && Trace(es, s, sqrt).ray.k == s.k
    decreases |es|
  {
    if |es| > 0 {
      var front := es[..|es| - 1];
      OutputsOnly(front, s, sqrt);
      PropagatedFrame(es[|es| - 1], Trace(front, s, sqrt).ray, sqrt);
    }
  }

  predicate NoRepeats(rs: seq<Ray>) {
    forall i, j :: 0 <= i < j < |rs| ==> rs[i] != rs[j]
  }

  class Simulation {
    var elements: seq<Element>
    var rays: seq<Ray>

    /** A new simulation holds no elements and no rays. */
    constructor()
      ensures elements == [] && rays == []
    {
      elements := [];
      rays := [];
    }

    /** `appendelements(*elements)`: adds the elements at the end, in argument order. */
    method AppendElements(es: seq<Element>)
      modifies this
      ensures elements == old(elements) + es
      ensures rays == old(rays)
    {
      var i := 0;
      while i < |es|
        invariant 0 <= i <= |es|
        invariant elements == old(elements) + es[..i]
        invariant rays == old(rays)
      {
        elements := elements + [es[i]];
        i := i + 1;
      }
    }

    /** The inner loop of `propagate`: each element's `propagate_ray` on `ray`, in order,
        stopping at the first exception. */
    method PropagateThrough(ray: Ray, sqrt: real -> real) returns (st: Status)
      modifies ray
      ensures Outcome(ray.State(), st) == Trace(elements, old(ray.State()), sqrt)
    {
      ghost var s0 := ray.State();
      st := Returned;
      var j := 0;
      while j < |elements|
        invariant 0 <= j <= |elements|
        invariant st == Returned
        invariant Outcome(ray.State(), st) == Trace(elements[..j], s0, sqrt)
      {
        Prefix(elements, j);
        var returned;
        st, returned := PropagateRay(elements[j], ray, sqrt);
        if st.Raised? {
          RaisedStays(elements, s0, sqrt, j + 1, |elements|);
          assert elements[..|elements|] == elements;
          return;
        }
        j := j + 1;
      }
      assert elements[..j] == elements;
    }

    /** `propagate(objectlist)`: records each ray (the caller's object, not a copy) and then sends
        it through every element in order. An exception ends the whole call; `done` counts the
        rays recorded by then, the last of which raised. With no ray listed twice, each recorded
        ray ends as `Trace` says and the rest are untouched. */
    method Propagate(objectlist: seq<Ray>, sqrt: real -> real) returns (st: Status, ghost done: nat)
      modifies this, objectlist
      ensures elements == old(elements)
      ensures done <= |objectlist| && rays == old(rays) + objectlist[..done]
      ensures st.Returned? ==> done == |objectlist|
      ensures st.Raised? ==> 0 < done
      ensures NoRepeats(objectlist) ==>
        forall i :: 0 <= i < done ==>
          Outcome(objectlist[i].State(), if i == done - 1 then st else Returned)
            == Trace(elements, old(objectlist[i].State()), sqrt)
      ensures NoRepeats(objectlist) ==>
        forall i :: done <= i < |objectlist| ==> objectlist[i].State() == old(objectlist[i].State())
    {
      st := Returned;
      done := 0;
      var i := 0;
      while i < |objectlist|
        invariant 0 <= i <= |objectlist| && done == i
        invariant st == Returned
        invariant elements == old(elements)
        invariant rays == old(rays) + objectlist[..i]
        invariant NoRepeats(objectlist) ==>
          forall m :: 0 <= m < i ==>
            Outcome(objectlist[m].State(), Returned) == Trace(elements, old(objectlist[m].State()), sqrt)
        invariant NoRepeats(objectlist) ==>
          forall m :: i <= m < |objectlist| ==> objectlist[m].State() == old(objectlist[m].State())
      {
        var ray := objectlist[i];
        rays := rays + [ray];
        assert objectlist[..i + 1] == objectlist[..i] + [ray];
        st := PropagateThrough(ray, sqrt);
        done := i + 1;
        if st.Raised? {
          return;
        }
        i := i + 1;
      }
    }
  }
}
