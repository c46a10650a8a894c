/** The mesh: what it means for routers to be wired to their neighbours on a grid, and what follows from it. */
module Mesh {
  import opened Prelude
  import opened Instructions
  import opened Sequential
  import opened Simulator
  import opened Wires
  import Staging
  import Bridge

  // --- Directions and places ---

  const NORTH: nat := 0
  const EAST: nat := 1
  const SOUTH: nat := 2
  const WEST: nat := 3

  type Direction = d: nat | d < 4

  function Reverse(d: Direction): Direction {
    if d == NORTH then SOUTH else if d == EAST then WEST else if d == SOUTH then NORTH else EAST
  }

  datatype Place = Place(row: int, column: int)

  /** One step along the direction's vector. */
  function Towards(p: Place, d: Direction): Place {
    if d == NORTH then Place(p.row - 1, p.column)
    else if d == EAST then Place(p.row, p.column + 1)
    else if d == SOUTH then Place(p.row + 1, p.column)
    else Place(p.row, p.column - 1)
  }

  datatype Grid = Grid(rows: nat, columns: nat) {
    predicate Has(p: Place) {
      0 <= p.row < rows && 0 <= p.column < columns
    }

    function Size(): nat {
      rows * columns
    }

    /** Elements are kept row by row. */
    function Index(p: Place): (k: nat)
      requires Has(p)
      ensures k < Size()
    {
      assert p.row * columns + columns <= rows * columns by { Scaled(p.row + 1, rows, columns); }
      p.row * columns + p.column
    }

    /** Where element `k` sits. */
    function PlaceOf(k: nat): (p: Place)
      requires k < Size()
      ensures Has(p) && Index(p) == k
    {
      assert columns > 0;
      assert k / columns < rows by {
        if k / columns >= rows { Scaled(rows, k / columns, columns); }
      }
      assert (k / columns) * columns + k % columns == k;
      Place(k / columns, k % columns)
    }
  }

  lemma Scaled(a: int, b: int, c: nat)
    requires a <= b
    ensures a * c <= b * c
  {
  }

  lemma IndexInjective(g: Grid, p: Place, q: Place)
    requires g.Has(p) && g.Has(q) && g.Index(p) == g.Index(q)
    ensures p == q
  {
    if p.row < q.row { RowBelow(p.row, q.row, g.columns); }
    if q.row < p.row { RowBelow(q.row, p.row, g.columns); }
  }

  /** Every row ends before the next one begins. */
  lemma RowBelow(a: int, b: int, c: nat)
    requires a < b
    ensures a * c + c <= b * c
  {
    Scaled(a + 1, b, c);
  }

  // --- Wiring two elements together ---

  /** There are channels and router ports in direction `d`. */
  predicate Faces<B(==)>(w: Wiring<B>, d: Direction) {
    d < |w.ins| && d < |w.outs| && d < |w.sources| && d < |w.destinations|
  }

  /** A router's two links to the neighbour in direction `d`. */
  function Connected<B(==)>(w: Wiring<B>, d: Direction, neighbour: Wiring<B>): Wiring<B>
    requires Faces(w, d) && Faces(neighbour, Reverse(d))
  {
    w.(destinations := w.destinations[d := Some(neighbour.ins[Reverse(d)])],
       sources := w.sources[d := Some(neighbour.outs[Reverse(d)])])
  }

  /** Both neighbours, each towards the other. */
  function Joined<B(==)>(ws: seq<Wiring<B>>, a: nat, b: nat, d: Direction): seq<Wiring<B>>
    requires a < |ws| && b < |ws| && a != b && Faces(ws[a], d) && Faces(ws[b], Reverse(d))
  {
    ws[a := Connected(ws[a], d, ws[b])][b := Connected(ws[b], Reverse(d), ws[a])]
  }

  // --- Meshes ---

  /** One element per place, each with channels and router ports towards the neighbours it has. */
  ghost predicate Gridded<B>(g: Grid, ws: seq<Wiring<B>>) {
    && |ws| == g.Size()
    && forall p: Place, d: Direction | g.Has(p) && g.Has(Towards(p, d)) :: Faces(ws[g.Index(p)], d)
  }

  function WiringAt<B(==)>(g: Grid, ws: seq<Wiring<B>>, p: Place): (w: Wiring<B>)
    requires Gridded(g, ws) && g.Has(p)
    ensures forall d: Direction | g.Has(Towards(p, d)) :: Faces(w, d)
  {
    ws[g.Index(p)]
  }

  /** A pair of neighbours, named by the western or northern one. */
  datatype Edge = Edge(place: Place, direction: Direction)

  function EdgeOf(p: Place, d: Direction): Edge {
    if d == EAST || d == SOUTH then Edge(p, d) else Edge(Towards(p, d), Reverse(d))
  }

  /** The links of the element at `p` in direction `d`, present or both unset. */
  predicate LinkedAt<B(==)>(g: Grid, ws: seq<Wiring<B>>, p: Place, d: Direction, present: bool)
    requires Gridded(g, ws) && g.Has(p) && (present ==> g.Has(Towards(p, d)))
  {
    var w := WiringAt(g, ws, p);
    if present then
      var n := WiringAt(g, ws, Towards(p, d));
      assert Towards(Towards(p, d), Reverse(d)) == p;
      w.destinations[d] == Some(n.ins[Reverse(d)]) && w.sources[d] == Some(n.outs[Reverse(d)])
    else
      (d < |w.destinations| ==> w.destinations[d] == None) && (d < |w.sources| ==> w.sources[d] == None)
  }

  /** Elements are linked exactly along the edges made so far. */
  ghost predicate LinkedAlong<B>(g: Grid, ws: seq<Wiring<B>>, made: set<Edge>)
    requires Gridded(g, ws)
  {
    && (forall p: Place, d: Direction | g.Has(p) :: LinkedAt(g, ws, p, d, g.Has(Towards(p, d)) && EdgeOf(p, d) in made))
    && (forall k, d | 0 <= k < |ws| && 4 <= d < |ws[k].destinations| :: ws[k].destinations[d] == None)
    && (forall k, d | 0 <= k < |ws| && 4 <= d < |ws[k].sources| :: ws[k].sources[d] == None)
  }

  /** Every element is linked to each neighbour it has, and to nothing over the edge of the grid. */
  ghost predicate IsMesh<B>(g: Grid, ws: seq<Wiring<B>>)
    requires Gridded(g, ws)
  {
    && (forall p: Place, d: Direction | g.Has(p) :: LinkedAt(g, ws, p, d, g.Has(Towards(p, d))))
    && (forall k, d | 0 <= k < |ws| && 4 <= d < |ws[k].destinations| :: ws[k].destinations[d] == None)
    && (forall k, d | 0 <= k < |ws| && 4 <= d < |ws[k].sources| :: ws[k].sources[d] == None)
  }

  lemma JoinedKeepsShape<B>(g: Grid, ws: seq<Wiring<B>>, a: nat, b: nat, d: Direction)
    requires Gridded(g, ws) && a < |ws| && b < |ws| && a != b && Faces(ws[a], d) && Faces(ws[b], Reverse(d))
    ensures Gridded(g, Joined(ws, a, b, d))
    ensures forall k | 0 <= k < |ws| :: Joined(ws, a, b, d)[k].ins == ws[k].ins && Joined(ws, a, b, d)[k].outs == ws[k].outs
  {
  }

  lemma GridSize<B>(g: Grid, ws: seq<Wiring<B>>)
    requires Gridded(g, ws)
    ensures |ws| == g.Size()
  {
  }

  lemma FacingBoth<B>(g: Grid, ws: seq<Wiring<B>>, p: Place, d: Direction)
    requires Gridded(g, ws) && g.Has(p) && g.Has(Towards(p, d))
    ensures Faces(WiringAt(g, ws, p), d) && Faces(WiringAt(g, ws, Towards(p, d)), Reverse(d))
  {
    assert Towards(Towards(p, d), Reverse(d)) == p;
  }

  lemma JoinedKeepsRest<B>(g: Grid, ws: seq<Wiring<B>>, made: set<Edge>, a: nat, b: nat, d: Direction)
    requires Gridded(g, ws) && LinkedAlong(g, ws, made) && a < |ws| && b < |ws| && a != b
    requires Faces(ws[a], d) && Faces(ws[b], Reverse(d))
    ensures
      var vs := Joined(ws, a, b, d);
      && (forall k, e | 0 <= k < |vs| && 4 <= e < |vs[k].destinations| :: vs[k].destinations[e] == None)
      && (forall k, e | 0 <= k < |vs| && 4 <= e < |vs[k].sources| :: vs[k].sources[e] == None)
  {
    hide Gridded, LinkedAt;
  }

  /** Joining two neighbours makes their edge and changes no other link. */
  lemma JoiningAddsAnEdge<B>(g: Grid, ws: seq<Wiring<B>>, made: set<Edge>, p: Place, d: Direction)
    requires Gridded(g, ws) && LinkedAlong(g, ws, made)
    requires (d == EAST || d == SOUTH) && g.Has(p) && g.Has(Towards(p, d))
    ensures g.Index(p) != g.Index(Towards(p, d))
    ensures Faces(ws[g.Index(p)], d) && Faces(ws[g.Index(Towards(p, d))], Reverse(d))
    ensures Gridded(g, Joined(ws, g.Index(p), g.Index(Towards(p, d)), d))
    ensures LinkedAlong(g, Joined(ws, g.Index(p), g.Index(Towards(p, d)), d), made + {Edge(p, d)})
  {
    var q := Towards(p, d);
    if g.Index(p) == g.Index(q) { IndexInjective(g, p, q); }
    GridSize(g, ws);
    FacingBoth(g, ws, p, d);
    var ws' := Joined(ws, g.Index(p), g.Index(q), d);
    JoinedKeepsShape(g, ws, g.Index(p), g.Index(q), d);
    JoinedKeepsRest(g, ws, made, g.Index(p), g.Index(q), d);
    hide Gridded, LinkedAt, Joined, Faces;
    forall p': Place, d': Direction | g.Has(p')
      ensures LinkedAt(g, ws', p', d', g.Has(Towards(p', d')) && EdgeOf(p', d') in made + {Edge(p, d)})
    {
      OneEdgeMore(g, ws, made, p, d, p', d');
    }
  }

  lemma OneEdgeMore<B>(g: Grid, ws: seq<Wiring<B>>, made: set<Edge>, p: Place, d: Direction, p': Place, d': Direction)
    requires Gridded(g, ws) && LinkedAlong(g, ws, made)
    requires (d == EAST || d == SOUTH) && g.Has(p) && g.Has(Towards(p, d)) && g.Has(p')
    requires g.Index(p) != g.Index(Towards(p, d))
    requires Faces(ws[g.Index(p)], d) && Faces(ws[g.Index(Towards(p, d))], Reverse(d))
    requires Gridded(g, Joined(ws, g.Index(p), g.Index(Towards(p, d)), d))
    ensures LinkedAt(g, Joined(ws, g.Index(p), g.Index(Towards(p, d)), d), p', d', g.Has(Towards(p', d')) && EdgeOf(p', d') in made + {Edge(p, d)})
  {
    var q := Towards(p, d);
    if g.Index(p') == g.Index(p) { IndexInjective(g, p', p); }
    if g.Index(p') == g.Index(q) { IndexInjective(g, p', q); }
    assert LinkedAt(g, ws, p', d', g.Has(Towards(p', d')) && EdgeOf(p', d') in made);
    assert EdgeOf(p', d') == Edge(p, d) <==> (p' == p && d' == d) || (p' == q && d' == Reverse(d));
  }

  /** With every edge made, the wiring is the mesh. */
  lemma AllEdgesMakeAMesh<B>(g: Grid, ws: seq<Wiring<B>>, made: set<Edge>)
    requires Gridded(g, ws) && LinkedAlong(g, ws, made)
    requires forall p: Place, d: Direction | g.Has(p) && g.Has(Towards(p, d)) && (d == EAST || d == SOUTH) :: Edge(p, d) in made
    ensures IsMesh(g, ws)
  {
    forall p: Place, d: Direction | g.Has(p) ensures LinkedAt(g, ws, p, d, g.Has(Towards(p, d))) {
      assert LinkedAt(g, ws, p, d, g.Has(Towards(p, d)) && EdgeOf(p, d) in made);
      if g.Has(Towards(p, d)) && d != EAST && d != SOUTH { assert EdgeOf(p, d) == Edge(Towards(p, d), Reverse(d)); }
    }
  }

  // --- What a mesh guarantees ---

  predicate Different<B(==)>(bs: seq<B>) {
    forall i, j | 0 <= i < j < |bs| :: bs[i] != bs[j]
  }

  /** No buffer is used twice. */
  predicate OwnBuffers<B(==)>(ws: seq<Wiring<B>>) {
    && (forall k | 0 <= k < |ws| :: Different(ws[k].ins + ws[k].outs))
    && (forall j, k, b | 0 <= j < k < |ws| && b in ws[j].ins + ws[j].outs :: b !in ws[k].ins + ws[k].outs)
  }

  lemma SamePlaceInAll<B>(ws: seq<Wiring<B>>, j: nat, x: nat, k: nat, y: nat)
    requires OwnBuffers(ws) && j < |ws| && k < |ws|
    requires x < |ws[j].ins + ws[j].outs| && y < |ws[k].ins + ws[k].outs|
    requires (ws[j].ins + ws[j].outs)[x] == (ws[k].ins + ws[k].outs)[y]
    ensures j == k && x == y
  {
    var b := (ws[j].ins + ws[j].outs)[x];
    assert b in ws[j].ins + ws[j].outs && b in ws[k].ins + ws[k].outs;
    assert Different(ws[j].ins + ws[j].outs);
  }

  lemma SameChannel<B>(ws: seq<Wiring<B>>, j: nat, c: nat, k: nat, d: nat)
    requires OwnBuffers(ws) && j < |ws| && k < |ws|
    ensures c < |ws[j].ins| && d < |ws[k].ins| && ws[j].ins[c] == ws[k].ins[d] ==> j == k && c == d
    ensures c < |ws[j].outs| && d < |ws[k].outs| && ws[j].outs[c] == ws[k].outs[d] ==> j == k && c == d
    ensures c < |ws[j].ins| && d < |ws[k].outs| ==> ws[j].ins[c] != ws[k].outs[d]
  {
    hide OwnBuffers;
    if c < |ws[j].ins| && d < |ws[k].ins| && ws[j].ins[c] == ws[k].ins[d] { SamePlaceInAll(ws, j, c, k, d); }
    if c < |ws[j].outs| && d < |ws[k].outs| && ws[j].outs[c] == ws[k].outs[d] {
      SamePlaceInAll(ws, j, |ws[j].ins| + c, k, |ws[k].ins| + d);
    }
    if c < |ws[j].ins| && d < |ws[k].outs| && ws[j].ins[c] == ws[k].outs[d] {
      SamePlaceInAll(ws, j, c, k, |ws[k].ins| + d);
    }
  }

  /** In direction `d` the first element sends to an input of the second. */
  predicate SendsTo<B(==)>(w: Wiring<B>, d: Direction, v: Wiring<B>) {
    d < |w.destinations| && Reverse(d) < |v.ins| && w.destinations[d] == Some(v.ins[Reverse(d)])
  }

  /** From direction `d` the first element receives from an output of the second. */
  predicate ReceivesFrom<B(==)>(v: Wiring<B>, d: Direction, w: Wiring<B>) {
    Reverse(d) < |v.sources| && d < |w.outs| && v.sources[Reverse(d)] == Some(w.outs[d])
  }

  /**
   * Wiring is symmetric: an element sends to a neighbour's input exactly when the neighbour receives from that
   * element's output, and this happens exactly between neighbours.
   */
  lemma MeshIsSymmetric<B>(g: Grid, ws: seq<Wiring<B>>, a: Place, b: Place, d: Direction)
    requires Gridded(g, ws) && IsMesh(g, ws) && OwnBuffers(ws) && g.Has(a) && g.Has(b)
    ensures SendsTo(WiringAt(g, ws, a), d, WiringAt(g, ws, b)) <==> b == Towards(a, d)
    ensures ReceivesFrom(WiringAt(g, ws, b), d, WiringAt(g, ws, a)) <==> b == Towards(a, d)
  {
    GridSize(g, ws);
    assert LinkedAt(g, ws, a, d, g.Has(Towards(a, d)));
    assert LinkedAt(g, ws, b, Reverse(d), g.Has(Towards(b, Reverse(d))));
    if g.Has(Towards(a, d)) { FacingBoth(g, ws, a, d); }
    if g.Has(Towards(b, Reverse(d))) { FacingBoth(g, ws, b, Reverse(d)); }
    hide Gridded, IsMesh, OwnBuffers;
    assert b == Towards(a, d) <==> a == Towards(b, Reverse(d));
    if g.Has(Towards(a, d)) {
      SameChannel(ws, g.Index(Towards(a, d)), Reverse(d), g.Index(b), Reverse(d));
      if g.Index(Towards(a, d)) == g.Index(b) { IndexInjective(g, Towards(a, d), b); }
    }
    if g.Has(Towards(b, Reverse(d))) {
      SameChannel(ws, g.Index(Towards(b, Reverse(d))), d, g.Index(a), d);
      if g.Index(Towards(b, Reverse(d))) == g.Index(a) { IndexInjective(g, Towards(b, Reverse(d)), a); }
    }
  }

  /** Port `d` of the first element is connected both ways to port `e` of the second. */
  predicate ConnectedPorts<B(==)>(w: Wiring<B>, d: nat, v: Wiring<B>, e: nat) {
    && d < |w.ins| && d < |w.outs| && d < |w.sources| && d < |w.destinations| && e < |v.ins| && e < |v.outs|
    && w.destinations[d] == Some(v.ins[e]) && w.sources[d] == Some(v.outs[e])
  }

  /**
   * The mesh by numbers: elements are numbered row by row, ports 1 and 3 face each other between columns and ports 2 and
   * 0 between rows.
   */
  lemma MeshByNumbers<B>(g: Grid, ws: seq<Wiring<B>>, row: nat, column: nat)
    requires Gridded(g, ws) && IsMesh(g, ws) && row < g.rows && column < g.columns
    ensures
      var k := row * g.columns + column;
      && (column + 1 < g.columns ==> k + 1 < |ws| && ConnectedPorts(ws[k], 1, ws[k + 1], 3) && ConnectedPorts(ws[k + 1], 3, ws[k], 1))
      && (row + 1 < g.rows ==>
            k + g.columns < |ws| && ConnectedPorts(ws[k], 2, ws[k + g.columns], 0) && ConnectedPorts(ws[k + g.columns], 0, ws[k], 2))
  {
    var here := Place(row, column);
    if column + 1 < g.columns { NeighboursAreConnected(g, ws, here, EAST); }
    if row + 1 < g.rows {
      NeighboursAreConnected(g, ws, here, SOUTH);
      assert g.Index(Towards(here, SOUTH)) == (row + 1) * g.columns + column == row * g.columns + column + g.columns;
    }
  }

  lemma NeighboursAreConnected<B>(g: Grid, ws: seq<Wiring<B>>, p: Place, d: Direction)
    requires Gridded(g, ws) && IsMesh(g, ws) && g.Has(p) && g.Has(Towards(p, d))
    ensures
      && g.Index(p) < |ws| && g.Index(Towards(p, d)) < |ws|
      && ConnectedPorts(ws[g.Index(p)], d, ws[g.Index(Towards(p, d))], Reverse(d))
      && ConnectedPorts(ws[g.Index(Towards(p, d))], Reverse(d), ws[g.Index(p)], d)
  {
    var q := Towards(p, d);
    assert Towards(q, Reverse(d)) == p && Reverse(Reverse(d)) == d;
    GridSize(g, ws);
    FacingBoth(g, ws, p, d);
    assert LinkedAt(g, ws, p, d, g.Has(q));
    assert LinkedAt(g, ws, q, Reverse(d), g.Has(Towards(q, Reverse(d))));
  }

  /** Every link of a mesh leads from some element to its neighbour. */
  function MeshLink<B(==)>(g: Grid, ws: seq<Wiring<B>>, p: Place, d: Direction): Link<B>
    requires Gridded(g, ws) && g.Has(p) && g.Has(Towards(p, d))
  {
    assert Towards(Towards(p, d), Reverse(d)) == p;
    Link(WiringAt(g, ws, p).outs[d], WiringAt(g, ws, Towards(p, d)).ins[Reverse(d)])
  }

  lemma {:induction false} SomeInward<B>(w: Wiring<B>, n: nat, l: Link<B>) returns (k: nat)
    requires l in Incoming(w, n)
    ensures k < n && l in Inward(w, k)
    decreases n
  {
    if l in Inward(w, n - 1) { k := n - 1; } else { k := SomeInward(w, n - 1, l); }
  }

  lemma {:induction false} SomeOutward<B>(w: Wiring<B>, n: nat, l: Link<B>) returns (k: nat)
    requires l in Outgoing(w, n)
    ensures k < n && l in Outward(w, k)
    decreases n
  {
    if l in Outward(w, n - 1) { k := n - 1; } else { k := SomeOutward(w, n - 1, l); }
  }

  /** Whichever end drives it, a link of the mesh is one element's output towards its neighbour. */
  lemma LinksFollowTheGrid<B>(g: Grid, ws: seq<Wiring<B>>, k: nat, l: Link<B>) returns (p: Place, d: Direction)
    requires Gridded(g, ws) && IsMesh(g, ws) && k < |ws| && l in RouterLinks(ws[k])
    ensures g.Has(p) && g.Has(Towards(p, d)) && l == MeshLink(g, ws, p, d)
  {
    var here, w := g.PlaceOf(k), ws[k];
    assert w == WiringAt(g, ws, here);
    if l in Incoming(w, |w.sources|) {
      var n := SomeInward(w, |w.sources|, l);
      assert n < 4;
      assert LinkedAt(g, ws, here, n, g.Has(Towards(here, n)));
      p, d := Towards(here, n), Reverse(n);
    } else {
      var n := SomeOutward(w, |w.destinations|, l);
      assert n < 4;
      assert LinkedAt(g, ws, here, n, g.Has(Towards(here, n)));
      p, d := here, n;
    }
  }

  /** An input has one producer and an output one consumer. */
  lemma SingleProducer<B>(g: Grid, ws: seq<Wiring<B>>, j: nat, l: Link<B>, k: nat, m: Link<B>)
    requires Gridded(g, ws) && IsMesh(g, ws) && OwnBuffers(ws)
    requires j < |ws| && l in RouterLinks(ws[j]) && k < |ws| && m in RouterLinks(ws[k])
    ensures l.from == m.from <==> l.to == m.to
  {
    hide RouterLinks, IsMesh, OwnBuffers, Gridded;
    var p, d := LinksFollowTheGrid(g, ws, j, l);
    var q, e := LinksFollowTheGrid(g, ws, k, m);
    GridSize(g, ws);
    FacingBoth(g, ws, p, d);
    FacingBoth(g, ws, q, e);
    SameChannel(ws, g.Index(p), d, g.Index(q), e);
    SameChannel(ws, g.Index(Towards(p, d)), Reverse(d), g.Index(Towards(q, e)), Reverse(e));
    if g.Index(p) == g.Index(q) { IndexInjective(g, p, q); }
    if g.Index(Towards(p, d)) == g.Index(Towards(q, e)) { IndexInjective(g, Towards(p, d), Towards(q, e)); }
  }

  // --- Any mesh is a well-wired system ---

  function WiringsOf<B(==)>(es: seq<Element<B>>): (r: seq<Wiring<B>>)
    ensures |r| == |es| && forall k | 0 <= k < |es| :: r[k] == es[k].w
  {
    seq(|es|, k requires 0 <= k < |es| => es[k].w)
  }

  function Outputs<B(==)>(ws: seq<Wiring<B>>): (r: set<B>)
    ensures forall k, b | 0 <= k < |ws| && b in ws[k].outs :: b in r
    ensures forall b | b in r :: exists k | 0 <= k < |ws| :: b in ws[k].outs
  {
    set k, b | 0 <= k < |ws| && b in ws[k].outs :: b
  }

  /** The elements of a system whose buffers exist and have the depth the cores expect, and which runs well-formed programs. */
  predicate Populated<B(==)>(q: Queues<B>, e: Element<B>) {
    && WellFormedProgram(e.m.cp, e.m.program)
    && |e.w.ins| == e.m.cp.numInputChannels && |e.w.outs| == e.m.cp.numOutputChannels
    && (forall b | b in e.w.ins :: b in q)
    && (forall b | b in e.w.outs :: b in q && q[b].depth == e.m.cp.channelBufferDepth)
  }

  /** A system that is a mesh of processing elements and nothing else. */
  ghost predicate MeshSystem<B>(g: Grid, s: System<B>) {
    && s.memories == [] && Bounded(s.queues)
    && Gridded(g, WiringsOf(s.elements)) && IsMesh(g, WiringsOf(s.elements)) && OwnBuffers(WiringsOf(s.elements))
    && forall k | 0 <= k < |s.elements| :: Populated(s.queues, s.elements[k])
  }

  lemma LinksOfMesh<B>(g: Grid, s: System<B>, l: Link<B>) returns (k: nat, p: Place, d: Direction)
    requires MeshSystem(g, s) && l in Links(s)
    ensures k < |s.elements| && l in RouterLinks(WiringsOf(s.elements)[k])
    ensures g.Has(p) && g.Has(Towards(p, d)) && l == MeshLink(g, WiringsOf(s.elements), p, d)
  {
    assert MemoryLinks(s.memories) == {};
    k :| 0 <= k < |s.elements| && l in RouterLinks(s.elements[k].w);
    p, d := LinksFollowTheGrid(g, WiringsOf(s.elements), k, l);
  }

  lemma InputsAreNotOutputs<B>(ws: seq<Wiring<B>>, k: nat, c: nat)
    requires OwnBuffers(ws) && k < |ws| && c < |ws[k].ins|
    ensures ws[k].ins[c] !in Outputs(ws)
  {
    if ws[k].ins[c] in Outputs(ws) {
      var j :| 0 <= j < |ws| && ws[k].ins[c] in ws[j].outs;
      var d :| 0 <= d < |ws[j].outs| && ws[j].outs[d] == ws[k].ins[c];
      SameChannel(ws, k, c, j, d);
      assert false;
    }
  }

  /**
   * A mesh of any size is well wired, so everything proved of well-wired systems holds of it: its links are
   * lossless FIFOs although both ends drive them, nothing overflows, and the order of its elements is irrelevant.
   */
  lemma MeshIsWired<B>(g: Grid, s: System<B>)
    requires MeshSystem(g, s)
    ensures Wired(s, Outputs(WiringsOf(s.elements)))
  {
    var ws := WiringsOf(s.elements);
    hide RouterLinks, IsMesh, OwnBuffers, Links, WellFormedProgram, Outputs;
    forall l, m | l in Links(s) && m in Links(s) ensures l.from == m.from <==> l.to == m.to {
      var j, p, d := LinksOfMesh(g, s, l);
      var k, p', d' := LinksOfMesh(g, s, m);
      SingleProducer(g, ws, j, l, k, m);
    }
    forall l | l in Links(s) ensures l.from in s.queues && l.to in s.queues && l.from in Outputs(ws) && l.to !in Outputs(ws) {
      var j, p, d := LinksOfMesh(g, s, l);
      LinkEndsPopulated(g, s, p, d);
    }
    forall k | 0 <= k < |s.elements| ensures ElementWired(s.queues, Outputs(ws), s.elements[k]) {
      ElementIsWired(g, s, k);
    }
    OutputsAreOwn(g, s);
  }

  lemma LinkEndsPopulated<B>(g: Grid, s: System<B>, p: Place, d: Direction)
    requires MeshSystem(g, s) && g.Has(p) && g.Has(Towards(p, d))
    ensures
      var l, ws := MeshLink(g, WiringsOf(s.elements), p, d), WiringsOf(s.elements);
      l.from in s.queues && l.to in s.queues && l.from in Outputs(ws) && l.to !in Outputs(ws)
  {
    var ws := WiringsOf(s.elements);
    FacingBoth(g, ws, p, d);
    hide IsMesh, OwnBuffers, Bounded, Outputs, Gridded;
    GridSize(g, ws);
    InputsAreNotOutputs(ws, g.Index(Towards(p, d)), Reverse(d));
    assert Populated(s.queues, s.elements[g.Index(p)]) && Populated(s.queues, s.elements[g.Index(Towards(p, d))]);
  }

  lemma ElementIsWired<B>(g: Grid, s: System<B>, k: nat)
    requires MeshSystem(g, s) && k < |s.elements|
    ensures ElementWired(s.queues, Outputs(WiringsOf(s.elements)), s.elements[k])
  {
    var ws := WiringsOf(s.elements);
    hide IsMesh, OwnBuffers, Bounded, Outputs, WellFormedProgram;
    assert Populated(s.queues, s.elements[k]);
    forall c | 0 <= c < |ws[k].ins| ensures ws[k].ins[c] !in Outputs(ws) { InputsAreNotOutputs(ws, k, c); }
  }

  lemma OutputsAreOwn<B>(g: Grid, s: System<B>)
    requires MeshSystem(g, s)
    ensures OwnOutputs(s.elements)
  {
    var ws := WiringsOf(s.elements);
    hide IsMesh, Bounded, Populated, Different;
    forall j, k, b | 0 <= j < k < |s.elements| && b in s.elements[j].w.outs ensures b !in s.elements[k].w.outs {
      assert b in ws[j].ins + ws[j].outs;
    }
  }

  /**
   * On a mesh of any size and over any number of cycles, what arrives at a neighbour's input is exactly what was
   * sent from the output facing it, in order, with the rest still underway; nothing is lost or repeated.
   */
  lemma MeshIsLossless<B>(g: Grid, s: System<B>, p: Place, d: Direction, n: nat)
    requires MeshSystem(g, s) && g.Has(p) && g.Has(Towards(p, d))
    ensures
      var l := MeshLink(g, WiringsOf(s.elements), p, d);
      && l.from in s.queues && l.to in s.queues && l.from in Cycles(s, n).queues && l.to in Cycles(s, n).queues
      && AllConsumed(s, l.to, n) + InTransit(Cycles(s, n).queues, l) == InTransit(s.queues, l) + AllProduced(s, l.from, n)
  {
    var ws := WiringsOf(s.elements);
    var l := MeshLink(g, ws, p, d);
    EveryNeighbourIsLinked(g, s, p, d);
    hide *;
    MeshIsWired(g, s);
    LinkIsLosslessFifo(s, Outputs(ws), l, n);
  }

  lemma {:induction false} OutwardIsOutgoing<B>(w: Wiring<B>, k: nat, n: nat, l: Link<B>)
    requires k < n && l in Outward(w, k)
    ensures l in Outgoing(w, n)
    decreases n
  {
    if k < n - 1 { OutwardIsOutgoing(w, k, n - 1, l); }
  }

  lemma EveryNeighbourIsLinked<B>(g: Grid, s: System<B>, p: Place, d: Direction)
    requires MeshSystem(g, s) && g.Has(p) && g.Has(Towards(p, d))
    ensures MeshLink(g, WiringsOf(s.elements), p, d) in Links(s)
  {
    var ws := WiringsOf(s.elements);
    var w := WiringAt(g, ws, p);
    assert LinkedAt(g, ws, p, d, true);
    OutwardIsOutgoing(w, d, |w.destinations|, MeshLink(g, ws, p, d));
    assert w == s.elements[g.Index(p)].w;
    assert MeshLink(g, ws, p, d) in RouterLinks(w);
  }

  lemma OwnChannelsDiffer<B>(ws: seq<Wiring<B>>, k: nat)
    requires OwnBuffers(ws) && k < |ws|
    ensures Bridge.Distinct(ws[k].ins) && Bridge.Distinct(ws[k].outs)
  {
    hide OwnBuffers;
    var ins, outs := ws[k].ins, ws[k].outs;
    forall i: nat, j: nat | i < j < |ins| ensures ins[i] != ins[j] { SameChannel(ws, k, i, k, j); }
    forall i: nat, j: nat | i < j < |outs| ensures outs[i] != outs[j] { SameChannel(ws, k, i, k, j); }
  }

  lemma MeshElementsArePrivate<B>(g: Grid, s: System<B>, k: nat)
    requires MeshSystem(g, s) && k < |s.elements|
    ensures Bridge.Private(s, k) && Staging.OwnPorts(s)
  {
    var ws := WiringsOf(s.elements);
    hide IsMesh, Gridded, Bounded, Populated, Links;
    assert forall r: Staging.Role :: !Staging.HasRole(s.memories, r);
    assert Bridge.Distinct(s.elements[k].w.ins) && Bridge.Distinct(s.elements[k].w.outs) by { OwnChannelsDiffer(ws, k); }
    assert forall j, b | 0 <= j < |ws| && b in ws[j].ins :: b in ws[j].ins + ws[j].outs;
  }

  /** Every element of a mesh takes one sequential step per cycle and sees the rest of the mesh as link traffic only. */
  lemma MeshElementIsSequential<B>(g: Grid, s: System<B>, k: nat)
    requires MeshSystem(g, s) && k < |s.elements|
    ensures
      var e := s.elements[k];
      PeOf(Cycle(s).queues, Cycle(s).elements[k]) == EnvPe(Iterate(e.m, PeOf(s.queues, e)), Bridge.Traffic(s, k))
  {
    hide *;
    MeshIsWired(g, s);
    MeshElementsArePrivate(g, s, k);
    Bridge.ElementIsSequential(s, Outputs(WiringsOf(s.elements)), k);
  }
}
