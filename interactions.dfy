/** bee-aggregation-rob/robots/interactions.py: turns a layered CASU interaction
    graph into a flat one, and reads off whom a CASU sends to and hears from.

    A graph is what the code can see of a pygraphviz `AGraph`: its node names,
    its edges as (source, destination) pairs in the library's order (parallel
    edges allowed, as in a non-strict graph), and the attributes of the edge
    that `get_edge(s, d)` returns for each connected pair. Every read and every
    write of edge attributes in the code goes through `get_edge(s, d)`, so
    attributes per pair are all the code can observe. */
module Interactions {
  import opened Wrappers
  import opened PyStrings

  type Attrs = map<string, string>

  datatype Graph = Graph(nodes: seq<string>, edges: seq<(string, string)>, attrs: map<(string, string), Attrs>)

  /** The node name of a layered graph without its layer prefix: `n.split('/')[-1]`. */
  function Trim(n: string): string
  {
    LastComponent(n)
  }

  /** `dict(g.get_edge(s, d).attr)`. */
  function EdgeAttrs(g: Graph, s: string, d: string): Attrs
  {
    if (s, d) in g.attrs then g.attrs[(s, d)] else map[]
  }

  /** `attr.get(key)`. */
  function Get(a: Attrs, key: string): Option<string>
  {
    if key in a then Some(a[key]) else None
  }

  ghost predicate NoDuplicates(s: seq<string>)
  {
    forall i, j :: 0 <= i < j < |s| ==> s[i] != s[j]
  }

  /** What the graph library guarantees: nodes are unique and every edge joins two nodes. */
  ghost predicate WellFormed(g: Graph)
  {
    NoDuplicates(g.nodes) &&
    forall j :: 0 <= j < |g.edges| ==> g.edges[j].0 in g.nodes && g.edges[j].1 in g.nodes
  }

  // ---------------------------------------------------------------- get_outmap

  /** Edge `j` leaves `casu` towards a node whose trimmed name is `dest`. */
  ghost predicate SendsTo(g: Graph, casu: string, j: int, dest: string)
  {
    0 <= j < |g.edges| && g.edges[j].0 == casu && Trim(g.edges[j].1) == dest
  }

  /** The map `get_outmap` has built after looking at the first `n` edges. */
  function OutmapUpTo(fg: Graph, casu: string, n: nat): map<string, Option<string>>
    requires n <= |fg.edges|
  {
    if n == 0 then map[]
    else
      var m := OutmapUpTo(fg, casu, n - 1);
      var (src, dst) := fg.edges[n - 1];
      if src == casu then m[Trim(dst) := Get(EdgeAttrs(fg, src, dst), "label")] else m
  }

  function Outmap(fg: Graph, casu: string): map<string, Option<string>>
  {
    OutmapUpTo(fg, casu, |fg.edges|)
  }

  /** `get_outmap(fg, casu)`: `KeyError` for an unknown `casu`, otherwise the
      map that `Outmap` describes. */
  method GetOutmap(fg: Graph, casu: string) returns (r: Result<map<string, Option<string>>>)
    ensures r.Failure? <==> casu !in fg.nodes
    ensures r.Failure? ==> r.error == KeyError
    ensures r.Success? ==> r.value == Outmap(fg, casu)
  {
    if casu !in fg.nodes {
      return Failure(KeyError);
    }
    var sendto: map<string, Option<string>> := map[];
    var i := 0;
    while i < |fg.edges|
      invariant 0 <= i <= |fg.edges|
      invariant sendto == OutmapUpTo(fg, casu, i)
    {
      var (src, dst) := fg.edges[i];
      if src == casu {
        var lbl := Get(EdgeAttrs(fg, src, dst), "label");
        sendto := sendto[Trim(dst) := lbl];
      }
      i := i + 1;
    }
    return Success(sendto);
  }

  /** The out-map holds exactly the trimmed destinations of `casu`'s out-edges. */
  lemma {:induction false} OutmapKeys(fg: Graph, casu: string, n: nat, dest: string)
    requires n <= |fg.edges|
    ensures dest in OutmapUpTo(fg, casu, n) <==> exists j :: j < n && SendsTo(fg, casu, j, dest)
  {
    if n > 0 {
      OutmapKeys(fg, casu, n - 1, dest);
      if SendsTo(fg, casu, n - 1, dest) {
        assert dest in OutmapUpTo(fg, casu, n);
      }
    }
  }

  /** Each destination carries the label of the last out-edge that reaches it. */
  lemma {:induction false} OutmapLastLabel(fg: Graph, casu: string, n: nat, dest: string)
    requires n <= |fg.edges|
    requires dest in OutmapUpTo(fg, casu, n)
    ensures exists j :: (j < n && SendsTo(fg, casu, j, dest) &&
      OutmapUpTo(fg, casu, n)[dest] == Get(EdgeAttrs(fg, casu, fg.edges[j].1), "label") &&
      forall j' :: j < j' < n ==> !SendsTo(fg, casu, j', dest))
  {
    if SendsTo(fg, casu, n - 1, dest) {
      assert n - 1 < n;
    } else {
      OutmapLastLabel(fg, casu, n - 1, dest);
    }
  }

  // ----------------------------------------------------------------- get_inmap

  /** What `get_inmap` records per source: `{'w': weight, 'label': label}`. */
  datatype InEdge = InEdge(w: real, lbl: Option<string>)

  /** `float(attr.get('weight', default_weight))`: `toFloat` stands for Python's
      `float()` on the attribute's text (`None` where it raises `ValueError`);
      `float(None)` raises `TypeError`. */
  function Weight(a: Attrs, defaultWeight: Option<real>, toFloat: string -> Option<real>): (r: Result<real>)
    ensures r.Failure? <==>
      ("weight" in a && toFloat(a["weight"]).None?) || ("weight" !in a && defaultWeight.None?)
    ensures r.Failure? ==> r.error == (if "weight" in a then ValueError else TypeError)
  {
    if "weight" in a then
      (match toFloat(a["weight"])
       case Some(w) => Success(w)
       case None => Failure(ValueError))
    else if defaultWeight.Some? then Success(defaultWeight.value)
    else Failure(TypeError)
  }

  /** The weight of in-edge `j` of `casu` (any other edge reads as fine). */
  function InWeight(g: Graph, casu: string, j: int, defaultWeight: Option<real>, toFloat: string -> Option<real>): Result<real>
    requires 0 <= j < |g.edges|
  {
    if g.edges[j].1 == casu then Weight(EdgeAttrs(g, g.edges[j].0, casu), defaultWeight, toFloat)
    else Success(0.0)
  }

  /** Edge `j` reaches `casu` from `src`. */
  ghost predicate ReceivesFrom(g: Graph, casu: string, j: int, src: string)
  {
    0 <= j < |g.edges| && g.edges[j].1 == casu && g.edges[j].0 == src
  }

  /** What `get_inmap` has built, or raised, after looking at the first `n` edges. */
  function InmapUpTo(fg: Graph, casu: string, defaultWeight: Option<real>, toFloat: string -> Option<real>, n: nat)
    : Result<map<string, InEdge>>
    requires n <= |fg.edges|
  {
    if n == 0 then Success(map[])
    else
      match InmapUpTo(fg, casu, defaultWeight, toFloat, n - 1)
      case Failure(e) => Failure(e)
      case Success(m) =>
        var (src, dst) := fg.edges[n - 1];
        if dst != casu then Success(m)
        else
          var a := EdgeAttrs(fg, src, dst);
          var w := Weight(a, defaultWeight, toFloat);
          if w.Failure? then Failure(w.error) else Success(m[src := InEdge(w.value, Get(a, "label"))])
  }

  /** `get_inmap(fg, casu, default_weight)`: `KeyError` for an unknown `casu`,
      otherwise what `InmapUpTo` describes for all edges. */
  method GetInmap(fg: Graph, casu: string, defaultWeight: Option<real>, toFloat: string -> Option<real>)
    returns (r: Result<map<string, InEdge>>)
    ensures casu !in fg.nodes ==> r == Failure(KeyError)
    ensures casu in fg.nodes ==> r == InmapUpTo(fg, casu, defaultWeight, toFloat, |fg.edges|)
  {
    if casu !in fg.nodes {
      return Failure(KeyError);
    }
    var recvfrom: map<string, InEdge> := map[];
    var i := 0;
    while i < |fg.edges|
      invariant 0 <= i <= |fg.edges|
      invariant InmapUpTo(fg, casu, defaultWeight, toFloat, i) == Success(recvfrom)
    {
      var (src, dst) := fg.edges[i];
      if dst == casu {
        var attr := EdgeAttrs(fg, src, dst);
        var lbl := Get(attr, "label");
        var w := Weight(attr, defaultWeight, toFloat);
        if w.Failure? {
          InmapStopsAtFailure(fg, casu, defaultWeight, toFloat, i + 1);
          return Failure(w.error);
        }
        recvfrom := recvfrom[src := InEdge(w.value, lbl)];
      }
      i := i + 1;
    }
    return Success(recvfrom);
  }

  /** Once the scan has raised, it stays raised with the same exception. */
  lemma {:induction false} InmapStopsAtFailure(fg: Graph, casu: string, defaultWeight: Option<real>, toFloat: string -> Option<real>, n: nat)
    requires n <= |fg.edges|
    requires InmapUpTo(fg, casu, defaultWeight, toFloat, n).Failure?
    ensures forall m :: n <= m <= |fg.edges| ==>
      InmapUpTo(fg, casu, defaultWeight, toFloat, m) == InmapUpTo(fg, casu, defaultWeight, toFloat, n)
  {
    forall m | n <= m <= |fg.edges|
      ensures InmapUpTo(fg, casu, defaultWeight, toFloat, m) == InmapUpTo(fg, casu, defaultWeight, toFloat, n)
    {
      InmapStopsFrom(fg, casu, defaultWeight, toFloat, n, m);
    }
  }

  lemma {:induction false} InmapStopsFrom(fg: Graph, casu: string, defaultWeight: Option<real>, toFloat: string -> Option<real>, n: nat, m: nat)
    requires n <= m <= |fg.edges|
    requires InmapUpTo(fg, casu, defaultWeight, toFloat, n).Failure?
    ensures InmapUpTo(fg, casu, defaultWeight, toFloat, m) == InmapUpTo(fg, casu, defaultWeight, toFloat, n)
  {
    if m > n {
      InmapStopsFrom(fg, casu, defaultWeight, toFloat, n, m - 1);
    }
  }

  /** The scan succeeds exactly when every in-edge's weight can be read. */
  lemma {:induction false} InmapSucceeds(fg: Graph, casu: string, defaultWeight: Option<real>, toFloat: string -> Option<real>, n: nat)
    requires n <= |fg.edges|
    ensures InmapUpTo(fg, casu, defaultWeight, toFloat, n).Success? <==>
      forall j :: 0 <= j < n ==> InWeight(fg, casu, j, defaultWeight, toFloat).Success?
  {
    if n > 0 {
      InmapSucceeds(fg, casu, defaultWeight, toFloat, n - 1);
      if InmapUpTo(fg, casu, defaultWeight, toFloat, n - 1).Failure? {
        var j :| 0 <= j < n - 1 && InWeight(fg, casu, j, defaultWeight, toFloat).Failure?;
        assert !InmapUpTo(fg, casu, defaultWeight, toFloat, n).Success?;
      } else if InWeight(fg, casu, n - 1, defaultWeight, toFloat).Failure? {
        assert !InmapUpTo(fg, casu, defaultWeight, toFloat, n).Success?;
      }
    }
  }

  /** The last edge of a scan that had gone through so far: it fails exactly
      when its weight does, with that exception. */
  lemma InmapLastStep(fg: Graph, casu: string, defaultWeight: Option<real>, toFloat: string -> Option<real>, n: nat)
    requires 0 < n <= |fg.edges|
    requires InmapUpTo(fg, casu, defaultWeight, toFloat, n - 1).Success?
    ensures InmapUpTo(fg, casu, defaultWeight, toFloat, n).Failure? <==> InWeight(fg, casu, n - 1, defaultWeight, toFloat).Failure?
    ensures InmapUpTo(fg, casu, defaultWeight, toFloat, n).Failure? ==>
      InmapUpTo(fg, casu, defaultWeight, toFloat, n).error == InWeight(fg, casu, n - 1, defaultWeight, toFloat).error
  {
  }

  /** A failing scan raises the exception of the first in-edge whose weight cannot be read. */
  lemma {:induction false} InmapFirstError(fg: Graph, casu: string, defaultWeight: Option<real>, toFloat: string -> Option<real>, n: nat)
    requires n <= |fg.edges|
    requires InmapUpTo(fg, casu, defaultWeight, toFloat, n).Failure?
    ensures exists j :: (0 <= j < n && InWeight(fg, casu, j, defaultWeight, toFloat).Failure? &&
      InmapUpTo(fg, casu, defaultWeight, toFloat, n).error == InWeight(fg, casu, j, defaultWeight, toFloat).error &&
      forall j' :: 0 <= j' < j ==> InWeight(fg, casu, j', defaultWeight, toFloat).Success?)
  {
    var r := InmapUpTo(fg, casu, defaultWeight, toFloat, n);
    if InmapUpTo(fg, casu, defaultWeight, toFloat, n - 1).Failure? {
      InmapStopsFrom(fg, casu, defaultWeight, toFloat, n - 1, n);
      InmapFirstError(fg, casu, defaultWeight, toFloat, n - 1);
      var j :| 0 <= j < n - 1 && InWeight(fg, casu, j, defaultWeight, toFloat).Failure? &&
        InmapUpTo(fg, casu, defaultWeight, toFloat, n - 1).error == InWeight(fg, casu, j, defaultWeight, toFloat).error &&
        forall j' :: 0 <= j' < j ==> InWeight(fg, casu, j', defaultWeight, toFloat).Success?;
      assert r.error == InWeight(fg, casu, j, defaultWeight, toFloat).error;
    } else {
      InmapSucceeds(fg, casu, defaultWeight, toFloat, n - 1);
      InmapLastStep(fg, casu, defaultWeight, toFloat, n);
      var j := n - 1;
      assert r.error == InWeight(fg, casu, j, defaultWeight, toFloat).error;
      assert forall j' :: 0 <= j' < j ==> InWeight(fg, casu, j', defaultWeight, toFloat).Success?;
    }
  }

  /** A successful in-map holds every (untrimmed) in-neighbour of `casu`, with
      the weight and label of its edge. */
  lemma {:induction false} InmapEntries(fg: Graph, casu: string, defaultWeight: Option<real>, toFloat: string -> Option<real>, n: nat, src: string)
    requires n <= |fg.edges|
    requires InmapUpTo(fg, casu, defaultWeight, toFloat, n).Success?
    ensures src in InmapUpTo(fg, casu, defaultWeight, toFloat, n).value <==> exists j :: j < n && ReceivesFrom(fg, casu, j, src)
    ensures src in InmapUpTo(fg, casu, defaultWeight, toFloat, n).value ==>
      var a := EdgeAttrs(fg, src, casu);
      Weight(a, defaultWeight, toFloat).Success? &&
      InmapUpTo(fg, casu, defaultWeight, toFloat, n).value[src] == InEdge(Weight(a, defaultWeight, toFloat).value, Get(a, "label"))
  {
    if n > 0 {
      InmapEntries(fg, casu, defaultWeight, toFloat, n - 1, src);
      if ReceivesFrom(fg, casu, n - 1, src) {
        assert src in InmapUpTo(fg, casu, defaultWeight, toFloat, n).value;
      }
    }
  }

  // ------------------------------------------------------------ flatten_AGraph

  /** The trimmed names of the nodes of `g`. */
  ghost function TrimmedNames(g: Graph): set<string>
  {
    set n | n in g.nodes :: Trim(n)
  }

  /** Both endpoints of `e` trim to names in `names`. */
  predicate Joins(e: (string, string), names: set<string>)
  {
    Trim(e.0) in names && Trim(e.1) in names
  }

  function TrimEdge(e: (string, string)): (string, string)
  {
    (Trim(e.0), Trim(e.1))
  }

  /** The edges the flattening keeps from `es`, in order and trimmed: those
      whose trimmed endpoints are both in `names`. */
  function Kept(es: seq<(string, string)>, names: set<string>): seq<(string, string)>
  {
    if |es| == 0 then []
    else
      var e := es[|es| - 1];
      Kept(es[..|es| - 1], names) + (if Joins(e, names) then [TrimEdge(e)] else [])
  }

  /** The attributes the flattening has written after the first `n` edges of
      `nbg`: each kept edge's attributes merged into its flat edge's. */
  function FlatAttrs(nbg: Graph, names: set<string>, n: nat): map<(string, string), Attrs>
    requires n <= |nbg.edges|
  {
    if n == 0 then map[]
    else
      var m := FlatAttrs(nbg, names, n - 1);
      var e := nbg.edges[n - 1];
      if Joins(e, names) then
        var p := TrimEdge(e);
        m[p := (if p in m then m[p] else map[]) + EdgeAttrs(nbg, e.0, e.1)]
      else m
  }

  /** The graph `flatten_AGraph(nbg)` returns, given the node loop's result. */
  ghost function Flattened(nbg: Graph, nodes: seq<string>): Graph
  {
    Graph(nodes, Kept(nbg.edges, TrimmedNames(nbg)), FlatAttrs(nbg, TrimmedNames(nbg), |nbg.edges|))
  }

  /** `flatten_AGraph(nbg)`: the trimmed node names once each, then the kept
      edges with their attributes merged. */
  method Flatten(nbg: Graph) returns (g: Graph)
    ensures NoDuplicates(g.nodes)
    ensures forall n :: n in g.nodes <==> n in TrimmedNames(nbg)
    ensures g == Flattened(nbg, g.nodes)
  {
    var nodes := FlattenNodes(nbg);
    ghost var names := TrimmedNames(nbg);
    var edges: seq<(string, string)> := [];
    var attrs: map<(string, string), Attrs> := map[];
    var i := 0;
    while i < |nbg.edges|
      invariant 0 <= i <= |nbg.edges|
      invariant edges == Kept(nbg.edges[..i], names)
      invariant attrs == FlatAttrs(nbg, names, i)
    {
      assert nbg.edges[..i + 1][..i] == nbg.edges[..i];
      var (src0, dst0) := nbg.edges[i];
      var s, d := Trim(src0), Trim(dst0);
      if s in nodes && d in nodes {
        edges := edges + [(s, d)];
        var base := if (s, d) in attrs then attrs[(s, d)] else map[];
        attrs := attrs[(s, d) := base + EdgeAttrs(nbg, src0, dst0)];
      }
      i := i + 1;
    }
    assert nbg.edges[..i] == nbg.edges;
    g := Graph(nodes, edges, attrs);
  }

  /** The node loop of `flatten_AGraph`: `add_node` of an existing name changes nothing. */
  method FlattenNodes(nbg: Graph) returns (nodes: seq<string>)
    ensures NoDuplicates(nodes)
    ensures forall n :: n in nodes <==> n in TrimmedNames(nbg)
  {
    nodes := [];
    var i := 0;
    while i < |nbg.nodes|
      invariant 0 <= i <= |nbg.nodes|
      invariant NoDuplicates(nodes)
      invariant forall n :: n in nodes <==> exists m :: m in nbg.nodes[..i] && Trim(m) == n
    {
      assert nbg.nodes[..i + 1] == nbg.nodes[..i] + [nbg.nodes[i]];
      var n := Trim(nbg.nodes[i]);
      if n !in nodes {
        nodes := nodes + [n];
      }
      i := i + 1;
    }
    assert nbg.nodes[..i] == nbg.nodes;
  }

  /** The flat edges are exactly the trimmed original edges that join two names. */
  lemma {:induction false} KeptMembers(es: seq<(string, string)>, names: set<string>, q: (string, string))
    ensures q in Kept(es, names) <==> exists j :: 0 <= j < |es| && Joins(es[j], names) && q == TrimEdge(es[j])
  {
    if |es| > 0 {
      var init := es[..|es| - 1];
      KeptMembers(init, names, q);
      if exists j :: 0 <= j < |init| && Joins(init[j], names) && q == TrimEdge(init[j]) {
        var j :| 0 <= j < |init| && Joins(init[j], names) && q == TrimEdge(init[j]);
        assert es[j] == init[j];
      }
      if exists j :: 0 <= j < |es| && Joins(es[j], names) && q == TrimEdge(es[j]) {
        var j :| 0 <= j < |es| && Joins(es[j], names) && q == TrimEdge(es[j]);
        if j < |init| {
          assert init[j] == es[j];
        }
      }
    }
  }

  /** When every endpoint is a node, as in any graph the library builds, no edge
      is dropped: the flat edges are the original ones, trimmed, one for one. */
  lemma {:induction false} KeptAll(es: seq<(string, string)>, names: set<string>)
    requires forall j :: 0 <= j < |es| ==> Joins(es[j], names)
    ensures |Kept(es, names)| == |es|
    ensures forall j :: 0 <= j < |es| ==> Kept(es, names)[j] == TrimEdge(es[j])
  {
    if |es| > 0 {
      KeptAll(es[..|es| - 1], names);
    }
  }

  /** Flattening a well-formed graph keeps all of its edges. */
  lemma FlattenKeepsEveryEdge(nbg: Graph)
    requires WellFormed(nbg)
    ensures |Kept(nbg.edges, TrimmedNames(nbg))| == |nbg.edges|
    ensures forall j :: 0 <= j < |nbg.edges| ==> Kept(nbg.edges, TrimmedNames(nbg))[j] == TrimEdge(nbg.edges[j])
  {
    var names := TrimmedNames(nbg);
    forall j | 0 <= j < |nbg.edges|
      ensures Joins(nbg.edges[j], names)
    {
      assert nbg.edges[j].0 in nbg.nodes && nbg.edges[j].1 in nbg.nodes;
    }
    KeptAll(nbg.edges, names);
  }

  /** Original edge `j` is kept, becomes the flat edge `p`. */
  ghost predicate KeptAs(nbg: Graph, names: set<string>, j: int, p: (string, string))
  {
    0 <= j < |nbg.edges| && Joins(nbg.edges[j], names) && p == TrimEdge(nbg.edges[j])
  }

  /** Attributes are written on exactly the flat edges some kept edge became. */
  lemma {:induction false} FlatAttrsKeys(nbg: Graph, names: set<string>, n: nat, p: (string, string))
    requires n <= |nbg.edges|
    ensures p in FlatAttrs(nbg, names, n) <==> exists j :: j < n && KeptAs(nbg, names, j, p)
  {
    if n > 0 {
      FlatAttrsKeys(nbg, names, n - 1, p);
      if KeptAs(nbg, names, n - 1, p) {
        assert p in FlatAttrs(nbg, names, n);
      }
    }
  }

  /** What edge `n - 1` does to flat edge `p`: a kept edge that became `p`
      merges its attributes into `p`'s, any other edge leaves `p` alone. */
  lemma FlatAttrsStep(nbg: Graph, names: set<string>, n: nat, p: (string, string))
    requires 0 < n <= |nbg.edges|
    ensures var m, m' := FlatAttrs(nbg, names, n - 1), FlatAttrs(nbg, names, n);
      var e := nbg.edges[n - 1];
      (KeptAs(nbg, names, n - 1, p) ==>
        p in m' && m'[p] == (if p in m then m[p] else map[]) + EdgeAttrs(nbg, e.0, e.1)) &&
      (!KeptAs(nbg, names, n - 1, p) ==> (p in m' <==> p in m) && (p in m ==> m'[p] == m[p]))
  {
  }

  /** A flat edge carries an attribute exactly when some original edge that
      became it carried that attribute. */
  lemma {:induction false} FlatAttrsHas(nbg: Graph, names: set<string>, n: nat, p: (string, string), k: string)
    requires n <= |nbg.edges|
    requires p in FlatAttrs(nbg, names, n)
    ensures k in FlatAttrs(nbg, names, n)[p] <==>
      exists j :: j < n && KeptAs(nbg, names, j, p) && k in EdgeAttrs(nbg, nbg.edges[j].0, nbg.edges[j].1)
  {
    var e := nbg.edges[n - 1];
    var m, m' := FlatAttrs(nbg, names, n - 1), FlatAttrs(nbg, names, n);
    FlatAttrsStep(nbg, names, n, p);
    if p in m {
      FlatAttrsHas(nbg, names, n - 1, p, k);
    } else {
      FlatAttrsKeys(nbg, names, n - 1, p);
    }
    if KeptAs(nbg, names, n - 1, p) {
      assert k in m'[p] <==> (p in m && k in m[p]) || k in EdgeAttrs(nbg, e.0, e.1);
    }
  }

  /** The value of an attribute on a flat edge is the one of the last original
      edge that became it and carried that attribute. */
  lemma {:induction false} FlatAttrsLastWriter(nbg: Graph, names: set<string>, n: nat, p: (string, string), k: string)
    requires n <= |nbg.edges|
    requires p in FlatAttrs(nbg, names, n) && k in FlatAttrs(nbg, names, n)[p]
    ensures exists j :: (j < n && KeptAs(nbg, names, j, p) && k in EdgeAttrs(nbg, nbg.edges[j].0, nbg.edges[j].1) &&
      FlatAttrs(nbg, names, n)[p][k] == EdgeAttrs(nbg, nbg.edges[j].0, nbg.edges[j].1)[k] &&
      forall j' :: j < j' < n && KeptAs(nbg, names, j', p) ==> k !in EdgeAttrs(nbg, nbg.edges[j'].0, nbg.edges[j'].1))
  {
    var e := nbg.edges[n - 1];
    var m, m' := FlatAttrs(nbg, names, n - 1), FlatAttrs(nbg, names, n);
    FlatAttrsStep(nbg, names, n, p);
    if KeptAs(nbg, names, n - 1, p) && k in EdgeAttrs(nbg, e.0, e.1) {
      var j := n - 1;
      assert m'[p][k] == EdgeAttrs(nbg, e.0, e.1)[k];
    } else {
      assert p in m && k in m[p] && m'[p][k] == m[p][k];
      FlatAttrsLastWriter(nbg, names, n - 1, p, k);
      var j :| j < n - 1 && KeptAs(nbg, names, j, p) && k in EdgeAttrs(nbg, nbg.edges[j].0, nbg.edges[j].1) &&
        m[p][k] == EdgeAttrs(nbg, nbg.edges[j].0, nbg.edges[j].1)[k] &&
        forall j' :: j < j' < n - 1 && KeptAs(nbg, names, j', p) ==> k !in EdgeAttrs(nbg, nbg.edges[j'].0, nbg.edges[j'].1);
      assert m'[p][k] == EdgeAttrs(nbg, nbg.edges[j].0, nbg.edges[j].1)[k];
    }
  }

  /** Trimmed names carry no layer prefix any more, so trimming them again changes nothing. */
  lemma TrimmedNamesAreFlat(nbg: Graph, n: string)
    requires n in TrimmedNames(nbg)
    ensures '/' !in n && Trim(n) == n
  {
    var m :| m in nbg.nodes && Trim(m) == n;
    LastComponentIsSuffix(m);
    LastComponentIdempotent(m);
  }
}
