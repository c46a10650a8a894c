/** An array of processing elements with any number of rows and columns, wired up as a mesh. */
module SimulatorArray {
  import opened Prelude
  import opened Instructions
  import opened Sequential
  import opened Simulator
  import opened Wires
  import opened Mesh
  import opened SimulatorObjects
  import opened SimulatorSystem
  import Cores = SimulatorCore

  // --- Wiring ---

  function RoutersOf(es: seq<ProcessingElement>): (r: seq<SoftwareRouter>)
    ensures |r| == |es| && forall k | 0 <= k < |es| :: r[k] == es[k].router
  {
    seq(|es|, k requires 0 <= k < |es| => es[k].router)
  }

  function Wirings(rs: seq<SoftwareRouter>): (ws: seq<Wiring<Buffer>>)
    reads rs
    ensures |ws| == |rs| && forall k | 0 <= k < |rs| :: ws[k] == rs[k].Wires()
  {
    seq(|rs|, k requires 0 <= k < |rs| reads rs => rs[k].Wires())
  }

  /** Connect two processing elements' routers in both directions. */
  method ConnectProcessingElements(rs: seq<SoftwareRouter>, a: nat, b: nat, d: Direction)
    requires Different(rs) && a < |rs| && b < |rs| && a != b
    requires Faces(Wirings(rs)[a], d) && Faces(Wirings(rs)[b], Reverse(d))
    modifies rs[a], rs[b]
    ensures Wirings(rs) == Joined(old(Wirings(rs)), a, b, d)
  {
    assert rs[a] != rs[b];
    ghost var ws := Wirings(rs);
    rs[a].ConnectToProcessingElement(d, rs[b]);
    rs[b].ConnectToProcessingElement(Reverse(d), rs[a]);
    ghost var goal := Joined(ws, a, b, d);
    forall k | 0 <= k < |rs| ensures Wirings(rs)[k] == goal[k] {
      if k != a && k != b { assert rs[k] != rs[a] && rs[k] != rs[b]; }
    }
  }

  /** The edges already made when the loops have reached row `i` and column `j`. */
  ghost predicate MadeBefore(g: Grid, made: set<Edge>, i: nat, j: nat) {
    forall p: Place, d: Direction | g.Has(p) && g.Has(Towards(p, d)) && (d == EAST || d == SOUTH) ::
      p.row < i || (p.row == i && p.column < j) ==> Edge(p, d) in made
  }

  /** Connections change nothing but which neighbours a router is wired to. */
  ghost predicate SamePorts(ws: seq<Wiring<Buffer>>, vs: seq<Wiring<Buffer>>) {
    && |vs| == |ws|
    && forall k | 0 <= k < |ws| ::
         && vs[k].ins == ws[k].ins && vs[k].outs == ws[k].outs
         && |vs[k].sources| == |ws[k].sources| && |vs[k].destinations| == |ws[k].destinations|
  }

  /** One direction of the loop body. */
  method ConnectTowards(g: Grid, rs: seq<SoftwareRouter>, ghost here: Place, d: Direction, a: nat, b: nat, ghost made: set<Edge>)
    requires Different(rs) && Gridded(g, Wirings(rs)) && LinkedAlong(g, Wirings(rs), made)
    requires (d == EAST || d == SOUTH) && g.Has(here) && g.Has(Towards(here, d))
    requires a == g.Index(here) && b == g.Index(Towards(here, d))
    modifies rs
    ensures Gridded(g, Wirings(rs)) && LinkedAlong(g, Wirings(rs), made + {Edge(here, d)})
    ensures SamePorts(old(Wirings(rs)), Wirings(rs))
  {
    JoiningAddsAnEdge(g, Wirings(rs), made, here, d);
    JoiningKeepsPorts(Wirings(rs), a, b, d);
    hide LinkedAlong, Joined, SamePorts, Different;
    ConnectProcessingElements(rs, a, b, d);
  }

  lemma SamePortsTwice(us: seq<Wiring<Buffer>>, vs: seq<Wiring<Buffer>>, ws: seq<Wiring<Buffer>>)
    requires SamePorts(us, vs) && SamePorts(vs, ws)
    ensures SamePorts(us, ws)
  {
  }

  /** The body of the loops: connect the element at row `i` and column `j` to the east and to the south. */
  method ConnectAt(g: Grid, rs: seq<SoftwareRouter>, i: nat, j: nat, ghost made: set<Edge>) returns (ghost more: set<Edge>)
    requires Different(rs) && Gridded(g, Wirings(rs)) && LinkedAlong(g, Wirings(rs), made)
    requires i < g.rows && j < g.columns && MadeBefore(g, made, i, j)
    modifies rs
    ensures Gridded(g, Wirings(rs)) && LinkedAlong(g, Wirings(rs), more) && MadeBefore(g, more, i, j + 1)
    ensures SamePorts(old(Wirings(rs)), Wirings(rs))
  {
    ghost var here, ws := Place(i, j), Wirings(rs);
    more := made;
    hide LinkedAlong, SamePorts, MadeBefore, Gridded, Different;
    assert SamePorts(ws, ws) by { SameAsSelf(ws); }
    if j < g.columns - 1 {
      assert i * g.columns + j + 1 == g.Index(Towards(here, EAST));
      ConnectTowards(g, rs, here, EAST, i * g.columns + j, i * g.columns + j + 1, more);
      more := more + {Edge(here, EAST)};
    }
    if i < g.rows - 1 {
      ghost var vs := Wirings(rs);
      assert (i + 1) * g.columns + j == g.Index(Towards(here, SOUTH));
      ConnectTowards(g, rs, here, SOUTH, i * g.columns + j, (i + 1) * g.columns + j, more);
      SamePortsTwice(ws, vs, Wirings(rs));
      more := more + {Edge(here, SOUTH)};
    }
    MadeHere(g, made, more, i, j);
  }

  lemma SameAsSelf(ws: seq<Wiring<Buffer>>)
    ensures SamePorts(ws, ws)
  {
  }

  lemma MadeHere(g: Grid, made: set<Edge>, more: set<Edge>, i: nat, j: nat)
    requires MadeBefore(g, made, i, j) && made <= more
    requires j < g.columns - 1 ==> Edge(Place(i, j), EAST) in more
    requires i < g.rows - 1 ==> Edge(Place(i, j), SOUTH) in more
    ensures MadeBefore(g, more, i, j + 1)
  {
  }

  lemma NextRow(g: Grid, made: set<Edge>, i: nat)
    requires MadeBefore(g, made, i, g.columns)
    ensures MadeBefore(g, made, i + 1, 0)
  {
  }

  /** Connect every element to its eastern and to its southern neighbour, if it has them. */
  method WireUp(g: Grid, rs: seq<SoftwareRouter>)
    requires Different(rs) && Gridded(g, Wirings(rs)) && LinkedAlong(g, Wirings(rs), {})
    modifies rs
    ensures Gridded(g, Wirings(rs)) && IsMesh(g, Wirings(rs))
    ensures SamePorts(old(Wirings(rs)), Wirings(rs))
  {
    ghost var made: set<Edge>, ws := {}, Wirings(rs);
    SameAsSelf(ws);
    assert MadeBefore(g, made, 0, 0);
    for i := 0 to g.rows
      invariant Gridded(g, Wirings(rs)) && LinkedAlong(g, Wirings(rs), made) && MadeBefore(g, made, i, 0) && SamePorts(ws, Wirings(rs))
    {
      hide LinkedAlong, SamePorts, MadeBefore, Gridded, Different;
      for j := 0 to g.columns
        invariant Gridded(g, Wirings(rs)) && LinkedAlong(g, Wirings(rs), made) && MadeBefore(g, made, i, j) && SamePorts(ws, Wirings(rs))
      {
        ghost var vs := Wirings(rs);
        made := ConnectAt(g, rs, i, j, made);
        SamePortsTwice(ws, vs, Wirings(rs));
      }
      NextRow(g, made, i);
    }
    AllEdgesMakeAMesh(g, Wirings(rs), made);
  }

  lemma JoiningKeepsPorts(ws: seq<Wiring<Buffer>>, a: nat, b: nat, d: Direction)
    requires a < |ws| && b < |ws| && a != b && Faces(ws[a], d) && Faces(ws[b], Reverse(d))
    ensures SamePorts(ws, Joined(ws, a, b, d))
  {
  }

  // --- Construction ---

  /** The core starts reset and its channels are empty. */
  ghost predicate Cleared(e: ProcessingElement, m: Machine)
    reads e.core, e.core.ins, e.core.outs
  {
    && e.core.m == m && !e.core.haltRegister && |e.core.predicates| == m.cp.numPredicates
    && |e.core.ins| == m.cp.numInputChannels && |e.core.outs| == m.cp.numOutputChannels
    && e.router.ins == e.core.ins && e.router.outs == e.core.outs
    && Different(e.core.ins + e.core.outs)
    && (forall b | b in e.core.ins + e.core.outs :: Unused(b) && b.depth == m.cp.channelBufferDepth)
  }

  /** Additionally, its router is connected to nothing. */
  ghost predicate Blank(e: ProcessingElement, m: Machine, numSources: nat, numDestinations: nat)
    reads e.core, e.router, e.core.ins, e.core.outs
  {
    Cleared(e, m) && e.router.sources == seq(numSources, _ => None) && e.router.destinations == seq(numDestinations, _ => None)
  }

  ghost predicate Unused(b: Buffer)
    reads b
  {
    b.Valid() && b.queue == [] && !b.pending
  }

  method MakeBuffers(n: nat, depth: nat) returns (bs: seq<Buffer>)
    ensures |bs| == n && Different(bs)
    ensures forall b | b in bs :: fresh(b) && Unused(b) && b.depth == depth
  {
    bs := [];
    for k := 0 to n
      invariant |bs| == k && Different(bs)
      invariant forall b | b in bs :: fresh(b) && Unused(b) && b.depth == depth
    {
      var b := new Buffer(depth);
      bs := bs + [b];
    }
  }

  method MakeElement(m: Machine, scratchpadWords: nat, numSources: nat, numDestinations: nat) returns (e: ProcessingElement)
    ensures Blank(e, m, numSources, numDestinations)
    ensures fresh(e) && fresh(e.core) && fresh(e.router) && forall b | b in e.core.ins + e.core.outs :: fresh(b)
  {
    var ins := MakeBuffers(m.cp.numInputChannels, m.cp.channelBufferDepth);
    var outs := MakeBuffers(m.cp.numOutputChannels, m.cp.channelBufferDepth);
    assert forall b | b in outs :: b !in ins;
    assert Different(ins + outs) by {
      forall i, j | 0 <= i < j < |ins + outs| ensures (ins + outs)[i] != (ins + outs)[j] {
        if i < |ins| <= j { assert outs[j - |ins|] !in ins; }
      }
    }
    var core := new Cores.Core(m, ins, outs, scratchpadWords);
    var router := new SoftwareRouter(ins, outs, numSources, numDestinations);
    e := new ProcessingElement(core, router);
    assert |core.State().predicates| == m.cp.numPredicates && !core.State().halted;
  }

  /** Elements made separately share nothing. */
  ghost predicate Apart(es: seq<ProcessingElement>) {
    forall j, k | 0 <= j < k < |es| ::
      && es[j].core != es[k].core && es[j].router != es[k].router
      && forall b | b in es[j].core.ins + es[j].core.outs :: b !in es[k].core.ins + es[k].core.outs
  }

  method MakeElements(machines: seq<Machine>, scratchpadWords: nat, numSources: nat, numDestinations: nat)
    returns (es: seq<ProcessingElement>)
    ensures |es| == |machines| && Apart(es)
    ensures forall k | 0 <= k < |es| :: Blank(es[k], machines[k], numSources, numDestinations) && AllFresh(es[k])
  {
    es := [];
    for k := 0 to |machines|
      invariant |es| == k && Apart(es)
      invariant forall j | 0 <= j < k :: Blank(es[j], machines[j], numSources, numDestinations) && AllFresh(es[j])
    {
      var e := MakeElement(machines[k], scratchpadWords, numSources, numDestinations);
      es := es + [e];
    }
  }

  twostate predicate AllFresh(new e: ProcessingElement) {
    fresh(e) && fresh(e.core) && fresh(e.router) && forall b | b in e.core.ins + e.core.outs :: fresh(b)
  }

  /** What the array needs: a core per place, with channels and router ports towards the neighbours it has. */
  ghost predicate Plan(g: Grid, machines: seq<Machine>, numSources: nat, numDestinations: nat) {
    && |machines| == g.Size()
    && forall p: Place, d: Direction | g.Has(p) && g.Has(Towards(p, d)) ::
         && d < numSources && d < numDestinations
         && d < machines[g.Index(p)].cp.numInputChannels && d < machines[g.Index(p)].cp.numOutputChannels
  }

  lemma UnconnectedGrid(g: Grid, machines: seq<Machine>, es: seq<ProcessingElement>, numSources: nat, numDestinations: nat)
    requires Plan(g, machines, numSources, numDestinations) && |es| == |machines|
    requires forall k | 0 <= k < |es| :: Blank(es[k], machines[k], numSources, numDestinations)
    ensures Gridded(g, Wirings(RoutersOf(es))) && LinkedAlong(g, Wirings(RoutersOf(es)), {})
  {
    var ws := Wirings(RoutersOf(es));
    forall k | 0 <= k < |ws|
      ensures |ws[k].ins| == machines[k].cp.numInputChannels && |ws[k].outs| == machines[k].cp.numOutputChannels
      ensures |ws[k].sources| == numSources && |ws[k].destinations| == numDestinations
      ensures forall d | 0 <= d < |ws[k].sources| :: ws[k].sources[d] == None
      ensures forall d | 0 <= d < |ws[k].destinations| :: ws[k].destinations[d] == None
    {
      assert Blank(es[k], machines[k], numSources, numDestinations);
    }
    forall p: Place, d: Direction | g.Has(p) ensures LinkedAt(g, ws, p, d, false) {
      assert WiringAt(g, ws, p) == ws[g.Index(p)];
    }
  }

  lemma BuffersAreOwn(es: seq<ProcessingElement>, machines: seq<Machine>)
    requires |es| == |machines| && Apart(es) && forall k | 0 <= k < |es| :: Cleared(es[k], machines[k])
    ensures OwnBuffers(Wirings(RoutersOf(es)))
  {
    var ws := Wirings(RoutersOf(es));
    forall k | 0 <= k < |ws| ensures ws[k].ins + ws[k].outs == es[k].core.ins + es[k].core.outs {
      assert Cleared(es[k], machines[k]);
    }
  }

  /** The objects an array is made of. */
  ghost function OwnedBy(es: seq<ProcessingElement>): set<object> {
    (set k | 0 <= k < |es| :: es[k].core as object) + (set k | 0 <= k < |es| :: es[k].router as object)
    + (set k, c | 0 <= k < |es| && 0 <= c < |es[k].core.ins| :: es[k].core.ins[c] as object)
    + (set k, c | 0 <= k < |es| && 0 <= c < |es[k].core.outs| :: es[k].core.outs[c] as object)
  }

  /** An array as its constructor leaves it: separate, reset elements, wired as a mesh. */
  ghost predicate Built(g: Grid, machines: seq<Machine>, es: seq<ProcessingElement>, numSources: nat, numDestinations: nat)
    reads OwnedBy(es)
  {
    && |es| == |machines| && Apart(es)
    && (forall k | 0 <= k < |es| :: Cleared(es[k], machines[k]))
    && (forall k | 0 <= k < |es| :: |es[k].router.sources| == numSources && |es[k].router.destinations| == numDestinations)
    && Gridded(g, Wirings(RoutersOf(es))) && IsMesh(g, Wirings(RoutersOf(es))) && OwnBuffers(Wirings(RoutersOf(es)))
  }

  lemma RoutersDiffer(es: seq<ProcessingElement>)
    requires Apart(es)
    ensures Different(RoutersOf(es))
  {
  }

  method MakeMesh(g: Grid, machines: seq<Machine>, scratchpadWords: nat, numSources: nat, numDestinations: nat)
    returns (es: seq<ProcessingElement>)
    requires Plan(g, machines, numSources, numDestinations)
    ensures Built(g, machines, es, numSources, numDestinations)
    ensures forall k | 0 <= k < |es| :: AllFresh(es[k])
  {
    es := MakeElements(machines, scratchpadWords, numSources, numDestinations);
    UnconnectedGrid(g, machines, es, numSources, numDestinations);
    RoutersDiffer(es);
    hide IsMesh, LinkedAlong, Gridded, Plan, OwnBuffers, Unused, Different, Apart, Wirings;
    WireUp(g, RoutersOf(es));
    BuffersAreOwn(es, machines);
  }

  class Array {
    const processingElements: seq<ProcessingElement>

    /** Make the elements, then wire each one to its neighbours. */
    constructor (g: Grid, machines: seq<Machine>, scratchpadWords: nat, numSources: nat, numDestinations: nat)
      requires Plan(g, machines, numSources, numDestinations)
      ensures Built(g, machines, processingElements, numSources, numDestinations)
      ensures forall k | 0 <= k < |processingElements| :: AllFresh(processingElements[k])
    {
      var es := MakeMesh(g, machines, scratchpadWords, numSources, numDestinations);
      processingElements := es;
    }

    /** Every element registers with the event loop. */
    method Register(system: SimulatorSystem.System)
      modifies system`processingElements, system`buffers
      ensures system.processingElements == old(system.processingElements) + processingElements
      ensures system.buffers == old(system.buffers) + ChannelsOf(processingElements)
    {
      for k := 0 to |processingElements|
        invariant system.processingElements == old(system.processingElements) + processingElements[..k]
        invariant system.buffers == old(system.buffers) + ChannelsOf(processingElements[..k])
      {
        assert processingElements[..k + 1][..k] == processingElements[..k];
        system.Register(processingElements[k]);
      }
      assert processingElements[..|processingElements|] == processingElements;
    }
  }

  function ChannelsOf(es: seq<ProcessingElement>): seq<Buffer> {
    if es == [] then [] else ChannelsOf(es[..|es| - 1]) + es[|es| - 1].core.ins + es[|es| - 1].core.outs
  }

  lemma {:induction false} ChannelsAreTheirs(es: seq<ProcessingElement>, b: Buffer)
    ensures b in ChannelsOf(es) <==> exists k | 0 <= k < |es| :: b in es[k].core.ins + es[k].core.outs
    decreases es
  {
    if es != [] {
      ChannelsAreTheirs(es[..|es| - 1], b);
    }
  }

  ghost predicate Runnable(machines: seq<Machine>) {
    forall k | 0 <= k < |machines| :: WellFormedProgram(machines[k].cp, machines[k].program)
  }

  lemma ArrayIsQuiet(es: seq<ProcessingElement>, machines: seq<Machine>)
    requires |es| == |machines| && forall k | 0 <= k < |es| :: Cleared(es[k], machines[k])
    ensures AllValid(AllOf(ChannelsOf(es))) && StagedOn(AllOf(ChannelsOf(es))) == Nothing()
    ensures forall b | b in ChannelsOf(es) :: b.queue == []
  {
    forall b | b in ChannelsOf(es) ensures Unused(b) {
      ChannelsAreTheirs(es, b);
      var k :| 0 <= k < |es| && b in es[k].core.ins + es[k].core.outs;
      assert Cleared(es[k], machines[k]);
    }
  }

  lemma ElementIsReady(g: Grid, es: seq<ProcessingElement>, machines: seq<Machine>, numSources: nat, numDestinations: nat, k: nat)
    requires |es| == |machines| && k < |es| && Cleared(es[k], machines[k]) && Runnable(machines)
    requires |es[k].router.sources| == numSources && |es[k].router.destinations| == numDestinations
    requires Gridded(g, Wirings(RoutersOf(es))) && IsMesh(g, Wirings(RoutersOf(es)))
    requires forall j | 0 <= j < |es| :: es[j].router.ins == es[j].core.ins && es[j].router.outs == es[j].core.outs
    ensures es[k].Ready(AllOf(ChannelsOf(es)))
  {
    var all, ws, here := AllOf(ChannelsOf(es)), Wirings(RoutersOf(es)), g.PlaceOf(k);
    forall j, b | 0 <= j < |es| && (b in es[j].core.ins || b in es[j].core.outs) ensures b in all {
      ChannelsAreTheirs(es, b);
      assert b in es[j].core.ins + es[j].core.outs;
    }
    GridSize(g, ws);
    hide WellFormedProgram, ChannelsOf, AllOf, OwnBuffers;
    assert WiringAt(g, ws, here) == es[k].router.Wires();
    forall d: Direction
      ensures d < numSources && ws[k].sources[d].Some? ==> d < |ws[k].ins| && ws[k].sources[d].value in all
      ensures d < numDestinations && ws[k].destinations[d].Some? ==> d < |ws[k].outs| && ws[k].destinations[d].value in all
    {
      assert LinkedAt(g, ws, here, d, g.Has(Towards(here, d)));
      if g.Has(Towards(here, d)) {
        FacingBoth(g, ws, here, d);
        assert WiringAt(g, ws, Towards(here, d)) == es[g.Index(Towards(here, d))].router.Wires();
      }
    }
    forall i | 0 <= i < numSources && ws[k].sources[i].Some? ensures i < |ws[k].ins| && ws[k].sources[i].value in all {
      if i < 4 { var d: Direction := i; }
    }
    forall i | 0 <= i < numDestinations && ws[k].destinations[i].Some? ensures i < |ws[k].outs| && ws[k].destinations[i].value in all {
      if i < 4 { var d: Direction := i; }
    }
  }

  lemma ElementIsPopulated(es: seq<ProcessingElement>, machines: seq<Machine>, k: nat)
    requires |es| == |machines| && k < |es| && Cleared(es[k], machines[k])
    requires WellFormedProgram(machines[k].cp, machines[k].program)
    ensures Populated(Committed(AllOf(ChannelsOf(es))), es[k].Value())
  {
    forall b | b in es[k].core.ins + es[k].core.outs ensures b in AllOf(ChannelsOf(es)) { ChannelsAreTheirs(es, b); }
    hide WellFormedProgram, ChannelsOf, AllOf;
    forall b | b in es[k].core.ins ensures b in AllOf(ChannelsOf(es)) { assert b in es[k].core.ins + es[k].core.outs; }
    forall b | b in es[k].core.outs ensures b in AllOf(ChannelsOf(es)) && b.depth == machines[k].cp.channelBufferDepth {
      assert b in es[k].core.ins + es[k].core.outs;
    }
  }

  lemma ArrayIsMesh(g: Grid, es: seq<ProcessingElement>, machines: seq<Machine>, numSources: nat, numDestinations: nat)
    requires Built(g, machines, es, numSources, numDestinations) && Runnable(machines)
    ensures MeshSystem(g, Together(es, [], ChannelsOf(es)))
  {
    var s := Together(es, [], ChannelsOf(es));
    SameWirings(es, s);
    ArrayIsQuiet(es, machines);
    EmptyIsBounded(ChannelsOf(es));
    hide IsMesh, OwnBuffers, Gridded, WellFormedProgram, Cleared, Populated, Bounded, Committed, ChannelsOf, AllOf;
    forall k | 0 <= k < |s.elements| ensures Populated(s.queues, s.elements[k]) {
      assert WellFormedProgram(machines[k].cp, machines[k].program);
      ElementIsPopulated(es, machines, k);
    }
  }

  lemma SameWirings(es: seq<ProcessingElement>, s: Simulator.System<Buffer>)
    requires s == Together(es, [], ChannelsOf(es))
    ensures WiringsOf(s.elements) == Wirings(RoutersOf(es)) && s.memories == [] && |s.elements| == |es|
  {
    hide ChannelsOf, AllOf;
  }

  lemma EmptyIsBounded(bs: seq<Buffer>)
    requires forall b | b in bs :: b.queue == []
    ensures Bounded(Committed(AllOf(bs)))
  {
  }

  lemma ReadyToRun(system: SimulatorSystem.System, g: Grid, machines: seq<Machine>, numSources: nat, numDestinations: nat)
    requires Built(g, machines, system.processingElements, numSources, numDestinations) && Runnable(machines)
    requires system.buffers == ChannelsOf(system.processingElements) && system.memories == []
    ensures system.Registered()
  {
    var es := system.processingElements;
    ArrayIsQuiet(es, machines);
    assert forall j | 0 <= j < |es| :: es[j].router.ins == es[j].core.ins && es[j].router.outs == es[j].core.outs by {
      forall j | 0 <= j < |es| ensures es[j].router.ins == es[j].core.ins && es[j].router.outs == es[j].core.outs {
        assert Cleared(es[j], machines[j]);
      }
    }
    hide IsMesh, Gridded, Runnable, ChannelsOf, AllOf, StagedOn, AllValid, Cleared;
    forall k | 0 <= k < |es| ensures es[k].Ready(AllOf(ChannelsOf(es))) {
      ElementIsReady(g, es, machines, numSources, numDestinations, k);
    }
  }

  lemma ReadyMesh(system: SimulatorSystem.System, g: Grid, machines: seq<Machine>, numSources: nat, numDestinations: nat)
    requires Built(g, machines, system.processingElements, numSources, numDestinations) && Runnable(machines)
    requires system.buffers == ChannelsOf(system.processingElements) && system.memories == []
    ensures system.Registered() && MeshSystem(g, system.AsValue())
  {
    hide Built, Runnable, ChannelsOf, MeshSystem, Together;
    ReadyToRun(system, g, machines, numSources, numDestinations);
    ArrayIsMesh(g, system.processingElements, machines, numSources, numDestinations);
  }

  /** An event loop with one array in it. */
  method SystemOf(mesh: Array) returns (system: SimulatorSystem.System)
    ensures fresh(system) && system.memories == [] && system.processingElements == mesh.processingElements
    ensures system.buffers == ChannelsOf(mesh.processingElements)
  {
    system := new SimulatorSystem.System();
    mesh.Register(system);
  }

  /** An event loop with one array in it is ready to run, and it is a mesh. */
  method LoopOver(mesh: Array, ghost g: Grid, ghost machines: seq<Machine>, ghost numSources: nat, ghost numDestinations: nat)
    returns (system: SimulatorSystem.System)
    requires Built(g, machines, mesh.processingElements, numSources, numDestinations) && Runnable(machines)
    ensures system.Registered() && MeshSystem(g, system.AsValue())
  {
    hide Built, Runnable, ChannelsOf, MeshSystem;
    system := SystemOf(mesh);
    assert system !in OwnedBy(mesh.processingElements);
    assert Built(g, machines, mesh.processingElements, numSources, numDestinations);
    ReadyMesh(system, g, machines, numSources, numDestinations);
  }

  /**
   * A system made of one array, of any number of rows and columns: its event loop is ready to run, and it is a
   * mesh, to which every property of meshes applies.
   */
  method Assemble(g: Grid, machines: seq<Machine>, scratchpadWords: nat, numSources: nat, numDestinations: nat)
    returns (system: SimulatorSystem.System)
    requires Plan(g, machines, numSources, numDestinations) && Runnable(machines)
    ensures system.Registered() && MeshSystem(g, system.AsValue())
  {
    var mesh := new Array(g, machines, scratchpadWords, numSources, numDestinations);
    hide *;
    system := LoopOver(mesh, g, machines, numSources, numDestinations);
  }
}
