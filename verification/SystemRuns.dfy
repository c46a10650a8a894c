/**
 * Properties of whole simulations: the order of processing elements and memories never matters, and read ports
 * answer in order.
 */
module SystemRuns {
  import opened Prelude
  import opened Instructions
  import opened Sequential
  import opened Simulator
  import opened Wires
  import opened Staging

  // --- Merging in any order ---

  /** No two units stage different packets for the same buffer. */
  predicate Agree<B(==)>(ds: seq<Delta<B>>) {
    forall j, k, b | 0 <= j < |ds| && 0 <= k < |ds| && b in ds[j].enqs && b in ds[k].enqs :: ds[j].enqs[b] == ds[k].enqs[b]
  }

  /** What merging agreeing deltas amounts to, without reference to their order. */
  lemma {:induction false} MergeAllMeans<B>(ds: seq<Delta<B>>, b: B)
    requires Agree(ds)
    ensures b in MergeAll(ds).deqs <==> exists k | 0 <= k < |ds| :: b in ds[k].deqs
    ensures b in MergeAll(ds).enqs <==> exists k | 0 <= k < |ds| :: b in ds[k].enqs
    ensures forall k | 0 <= k < |ds| && b in ds[k].enqs :: b in MergeAll(ds).enqs && MergeAll(ds).enqs[b] == ds[k].enqs[b]
    decreases ds
  {
    hide MergeAll;
    if ds == [] {
      EmptyMerge<B>();
    } else {
      var n := |ds| - 1;
      var before := ds[..n];
      assert forall k | 0 <= k < n :: before[k] == ds[k];
      MergeAllMeans(before, b);
      LastMerge(ds);
      LastStep(ds, before, MergeAll(before), MergeAll(ds), b);
    }
  }

  lemma EmptyMerge<B>()
    ensures MergeAll<B>([]) == Nothing()
  {
  }

  /** One more delta on top of what the earlier ones amount to. */
  lemma LastStep<B>(ds: seq<Delta<B>>, before: seq<Delta<B>>, d: Delta<B>, all: Delta<B>, b: B)
    requires ds != [] && before == ds[..|ds| - 1] && Agree(ds) && all == Merge(d, ds[|ds| - 1])
    requires b in d.deqs <==> exists k | 0 <= k < |before| :: b in before[k].deqs
    requires b in d.enqs <==> exists k | 0 <= k < |before| :: b in before[k].enqs
    requires forall k | 0 <= k < |before| && b in before[k].enqs :: b in d.enqs && d.enqs[b] == before[k].enqs[b]
    ensures b in all.deqs <==> exists k | 0 <= k < |ds| :: b in ds[k].deqs
    ensures b in all.enqs <==> exists k | 0 <= k < |ds| :: b in ds[k].enqs
    ensures forall k | 0 <= k < |ds| && b in ds[k].enqs :: b in all.enqs && all.enqs[b] == ds[k].enqs[b]
  {
    var n := |ds| - 1;
    TakenBefore(ds, before, b);
    FilledBefore(ds, before, b);
    forall k | 0 <= k < |ds| && b in ds[k].enqs ensures b in all.enqs && all.enqs[b] == ds[k].enqs[b] {
      assert k < n ==> before[k] == ds[k];
    }
  }

  lemma TakenBefore<B>(ds: seq<Delta<B>>, before: seq<Delta<B>>, b: B)
    requires ds != [] && before == ds[..|ds| - 1]
    ensures (exists k | 0 <= k < |ds| :: b in ds[k].deqs) <==> b in ds[|ds| - 1].deqs || exists k | 0 <= k < |before| :: b in before[k].deqs
  {
    forall k | 0 <= k < |before| ensures before[k] == ds[k] { }
    if k :| 0 <= k < |ds| && b in ds[k].deqs {
      assert k < |before| ==> b in before[k].deqs;
    }
  }

  lemma FilledBefore<B>(ds: seq<Delta<B>>, before: seq<Delta<B>>, b: B)
    requires ds != [] && before == ds[..|ds| - 1]
    ensures (exists k | 0 <= k < |ds| :: b in ds[k].enqs) <==> b in ds[|ds| - 1].enqs || exists k | 0 <= k < |before| :: b in before[k].enqs
  {
    forall k | 0 <= k < |before| ensures before[k] == ds[k] { }
    if k :| 0 <= k < |ds| && b in ds[k].enqs {
      assert k < |before| ==> b in before[k].enqs;
    }
  }

  lemma LastMerge<B>(ds: seq<Delta<B>>)
    requires ds != []
    ensures MergeAll(ds) == Merge(MergeAll(ds[..|ds| - 1]), ds[|ds| - 1])
  {
  }

  /** A rearrangement of `n` positions: `perm[k]` is where position `k` comes from. */
  predicate Permutation(perm: seq<nat>, n: nat) {
    && |perm| == n
    && (forall k | 0 <= k < n :: perm[k] < n)
    && forall j, k | 0 <= j < k < n :: perm[j] != perm[k]
  }

  function Image(perm: seq<nat>): (r: set<nat>)
    ensures forall k | 0 <= k < |perm| :: perm[k] in r
    ensures forall i: nat | i in r :: exists k :: 0 <= k < |perm| && perm[k] == i
  {
    set i | i in perm
  }

  lemma {:induction false} DistinctCount(perm: seq<nat>)
    requires forall j, k | 0 <= j < k < |perm| :: perm[j] != perm[k]
    ensures |Image(perm)| == |perm|
    decreases perm
  {
    if perm == [] {
      assert Image(perm) == {};
    } else {
      var n := |perm| - 1;
      DistinctCount(perm[..n]);
      assert perm == perm[..n] + [perm[n]];
      assert Image(perm) == Image(perm[..n]) + {perm[n]};
    }
  }

  function Below(n: nat): (r: set<nat>)
    ensures |r| == n
    ensures forall i: nat :: i in r <==> i < n
  {
    if n == 0 then {} else Below(n - 1) + {n - 1}
  }

  /** Every position comes up somewhere in a rearrangement. */
  lemma Reaches(perm: seq<nat>, n: nat, i: nat) returns (k: nat)
    requires Permutation(perm, n) && i < n
    ensures k < n && perm[k] == i
  {
    DistinctCount(perm);
    assert Image(perm) <= Below(n);
    if i !in Image(perm) {
      SmallerSet(Image(perm), Below(n), i);
      assert false;
    }
    k :| 0 <= k < n && perm[k] == i;
  }

  lemma SmallerSet(a: set<nat>, b: set<nat>, i: nat)
    requires a <= b && i in b && i !in a
    ensures |a| < |b|
  {
    SubsetSize(a, b - {i});
  }

  lemma {:induction false} SubsetSize(a: set<nat>, b: set<nat>)
    requires a <= b
    ensures |a| <= |b|
    decreases |a|
  {
    if a != {} {
      var x :| x in a;
      SubsetSize(a - {x}, b - {x});
    }
  }

  predicate Rearranged<T(==)>(xs: seq<T>, ys: seq<T>, perm: seq<nat>) {
    && Permutation(perm, |xs|) && |ys| == |xs|
    && forall k | 0 <= k < |xs| :: ys[k] == xs[perm[k]]
  }

  lemma MergeInAnyOrder<B>(ds: seq<Delta<B>>, es: seq<Delta<B>>, perm: seq<nat>)
    requires Agree(ds) && Rearranged(ds, es, perm)
    ensures MergeAll(es) == MergeAll(ds)
  {
    forall j, k, b | 0 <= j < |es| && 0 <= k < |es| && b in es[j].enqs && b in es[k].enqs ensures es[j].enqs[b] == es[k].enqs[b] {
      assert b in ds[perm[j]].enqs && b in ds[perm[k]].enqs;
    }
    hide MergeAll;
    var d, e := MergeAll(ds), MergeAll(es);
    forall b | b in e.deqs + d.deqs + e.enqs.Keys + d.enqs.Keys
      ensures b in e.deqs <==> b in d.deqs
      ensures b in e.enqs <==> b in d.enqs
      ensures b in e.enqs ==> b in d.enqs && e.enqs[b] == d.enqs[b]
    {
      MergeAllMeans(ds, b);
      MergeAllMeans(es, b);
      SameStaging(ds, es, perm, b);
    }
    assert e.deqs == d.deqs;
    assert e.enqs.Keys == d.enqs.Keys;
    assert e.enqs == d.enqs;
  }

  lemma SameStaging<B>(ds: seq<Delta<B>>, es: seq<Delta<B>>, perm: seq<nat>, b: B)
    requires Rearranged(ds, es, perm)
    ensures (exists k | 0 <= k < |es| :: b in es[k].deqs) <==> exists k | 0 <= k < |ds| :: b in ds[k].deqs
    ensures (exists k | 0 <= k < |es| :: b in es[k].enqs) <==> exists k | 0 <= k < |ds| :: b in ds[k].enqs
    ensures forall k | 0 <= k < |es| && b in es[k].enqs :: perm[k] < |ds| && b in ds[perm[k]].enqs && es[k].enqs[b] == ds[perm[k]].enqs[b]
  {
    if exists i | 0 <= i < |ds| :: b in ds[i].deqs {
      var i :| 0 <= i < |ds| && b in ds[i].deqs;
      var k := Reaches(perm, |ds|, i);
      assert b in es[k].deqs;
    }
    if exists i | 0 <= i < |ds| :: b in ds[i].enqs {
      var i :| 0 <= i < |ds| && b in ds[i].enqs;
      var k := Reaches(perm, |ds|, i);
      assert b in es[k].enqs;
    }
    if exists k | 0 <= k < |es| :: b in es[k].deqs {
      var k :| 0 <= k < |es| && b in es[k].deqs;
      assert b in ds[perm[k]].deqs;
    }
    if exists k | 0 <= k < |es| :: b in es[k].enqs {
      var k :| 0 <= k < |es| && b in es[k].enqs;
      assert b in ds[perm[k]].enqs;
    }
  }

  // --- Order of processing elements ---

  /** What an element puts into a sending buffer comes from its own core. */
  lemma SendersAreOwn<B>(s: System<B>, senders: set<B>, k: nat, b: B)
    requires Wired(s, senders) && k < |s.elements|
    requires b in ElementDelta(s.queues, s.elements[k]).enqs && b in senders
    ensures b in s.elements[k].w.outs
  {
    ElementStages(s, senders, k, b);
    CoreStagesOwn(s.queues, s.elements[k]);
    hide CoreDelta, ElementDelta, Wired;
  }

  /** Units that stage for the same buffer stage the same packet: they drive the same link. */
  lemma ElementsAgree<B>(s: System<B>, senders: set<B>)
    requires Wired(s, senders)
    ensures Agree(ElementDeltas(s))
  {
    var ds := ElementDeltas(s);
    hide Links, ElementDelta, Moves, ElementWired, MemoryWired, Directed, Bounded;
    forall j, k, b | 0 <= j < |ds| && 0 <= k < |ds| && b in ds[j].enqs && b in ds[k].enqs
      ensures ds[j].enqs[b] == ds[k].enqs[b]
    {
      if j != k {
        ElementRespects(s, senders, j);
        ElementRespects(s, senders, k);
        if b in senders {
          SendersAreOwn(s, senders, j, b);
          SendersAreOwn(s, senders, k, b);
          assert false;
        } else {
          OneSource(Links(s), senders, s.queues, ds[j], ds[k], b);
        }
      }
    }
  }

  lemma OneSource<B>(links: set<Link<B>>, senders: set<B>, q: Queues<B>, d: Delta<B>, e: Delta<B>, b: B)
    requires Matching(links) && Respects(links, senders, q, d) && Respects(links, senders, q, e)
    requires b in d.enqs && b in e.enqs && b !in senders
    ensures d.enqs[b] == e.enqs[b]
  {
    var l :| l in links && l.to == b && Moves(q, l) && d.enqs[b] == q[l.from].queue[0];
    var m :| m in links && m.to == b && Moves(q, m) && e.enqs[b] == q[m.from].queue[0];
    assert l.from == m.from;
  }

  /**
   * One cycle does not depend on the order in which processing elements are iterated: buffers and memories end up
   * the same, and every element ends up in the same state wherever it stands in the list.
   */
  lemma OrderIsIrrelevant<B>(s: System<B>, senders: set<B>, es: seq<Element<B>>, perm: seq<nat>)
    requires Wired(s, senders) && Rearranged(s.elements, es, perm)
    ensures
      var s' := s.(elements := es);
      && Cycle(s').queues == Cycle(s).queues
      && Cycle(s').memories == Cycle(s).memories
      && Rearranged(Cycle(s).elements, Cycle(s').elements, perm)
      && (Halted(Cycle(s')) <==> Halted(Cycle(s)))
  {
    var s' := s.(elements := es);
    ElementsAgree(s, senders);
    hide Wired, ElementDelta, MemoryDelta, CoreNext, MemoryNext, MergeAll, Commit;
    MergeInAnyOrder(ElementDeltas(s), ElementDeltas(s'), perm);
    assert MemoryDeltas(s') == MemoryDeltas(s);
    assert NextMemories(s') == NextMemories(s);
    HaltedInAnyOrder(Cycle(s), Cycle(s'), perm);
  }

  lemma HaltedInAnyOrder<B>(s: System<B>, s': System<B>, perm: seq<nat>)
    requires Rearranged(s.elements, s'.elements, perm) && s'.queues == s.queues
    ensures Halted(s') <==> Halted(s)
  {
    if Halted(s') {
      forall i | 0 <= i < |s.elements| ensures s.elements[i].core.halted {
        var k := Reaches(perm, |s.elements|, i);
        assert s'.elements[k].core.halted;
      }
    }
    if Halted(s) {
      forall k | 0 <= k < |s'.elements| ensures s'.elements[k].core.halted {
        InRange(perm, |s.elements|, k);
        assert s.elements[perm[k]].core.halted;
      }
    }
  }

  lemma InRange(perm: seq<nat>, n: nat, k: nat)
    requires Permutation(perm, n) && k < n
    ensures perm[k] < n
  {
  }

  /** Nor does any number of cycles. */
  lemma {:induction false} OrderIsIrrelevantForever<B>(s: System<B>, senders: set<B>, es: seq<Element<B>>, perm: seq<nat>, n: nat)
    requires Wired(s, senders) && Rearranged(s.elements, es, perm)
    ensures
      var s' := s.(elements := es);
      && Cycles(s', n).queues == Cycles(s, n).queues
      && Cycles(s', n).memories == Cycles(s, n).memories
      && Rearranged(Cycles(s, n).elements, Cycles(s', n).elements, perm)
    decreases n
  {
    hide Wired, Cycle, Rearranged;
    if n > 0 {
      var s' := s.(elements := es);
      OrderIsIrrelevant(s, senders, es, perm);
      WiredForever(s, senders);
      assert Cycle(s') == Cycle(s).(elements := Cycle(s').elements);
      OrderIsIrrelevantForever(Cycle(s), senders, Cycle(s').elements, perm, n - 1);
    }
  }

  // --- Order of memories as well ---

  /** Two memories never put anything into the same buffer, unless it is the head of the link both of them drive. */
  lemma MemoriesAgree<B>(s: System<B>, senders: set<B>)
    requires Wired(s, senders) && OwnPorts(s)
    ensures Agree(MemoryDeltas(s))
  {
    var ds := MemoryDeltas(s);
    hide Links, MemoryDelta, Moves, ElementWired, MemoryWired, Directed, Bounded, OwnPorts, Puts, HasRole, BufferOf;
    forall j, k, b | 0 <= j < |ds| && 0 <= k < |ds| && b in ds[j].enqs && b in ds[k].enqs
      ensures ds[j].enqs[b] == ds[k].enqs[b]
    {
      if j != k {
        MemoryRespects(s, senders, j);
        MemoryRespects(s, senders, k);
        if b in senders {
          MemoryPuts(s, senders, j, b);
          MemoryPuts(s, senders, k, b);
          var r :| HasRole(s.memories, r) && r.memory == j && Puts(s, r) && BufferOf(s.memories, r) == b;
          var r' :| HasRole(s.memories, r') && r'.memory == k && Puts(s, r') && BufferOf(s.memories, r') == b;
          OneRole(s, r, r');
          assert false;
        } else {
          OneSource(Links(s), senders, s.queues, ds[j], ds[k], b);
        }
      }
    }
  }

  lemma OneRole<B>(s: System<B>, r: Role, r': Role)
    requires OwnPorts(s) && HasRole(s.memories, r) && HasRole(s.memories, r')
    requires BufferOf(s.memories, r) == BufferOf(s.memories, r')
    ensures r == r'
  {
  }

  /**
   * One cycle does not depend on the order in which processing elements and memories are iterated either: buffers
   * end up the same, and every unit ends up in the same state wherever it stands in its list.
   */
  lemma AnyOrderIsIrrelevant<B>(s: System<B>, senders: set<B>, es: seq<Element<B>>, perm: seq<nat>, ms: seq<Memory<B>>, order: seq<nat>)
    requires Wired(s, senders) && OwnPorts(s) && Rearranged(s.elements, es, perm) && Rearranged(s.memories, ms, order)
    ensures
      var s' := System(es, ms, s.queues);
      && Cycle(s').queues == Cycle(s).queues
      && Rearranged(Cycle(s).elements, Cycle(s').elements, perm)
      && Rearranged(Cycle(s).memories, Cycle(s').memories, order)
      && (Halted(Cycle(s')) <==> Halted(Cycle(s)))
  {
    hide *;
    var s' := System(es, ms, s.queues);
    ElementsAgree(s, senders);
    MemoriesAgree(s, senders);
    RearrangedDeltas(s, es, perm, ms, order);
    MergeInAnyOrder(ElementDeltas(s), ElementDeltas(s'), perm);
    MergeInAnyOrder(MemoryDeltas(s), MemoryDeltas(s'), order);
    SameCommit(s, s');
    HaltedInAnyOrder(Cycle(s), Cycle(s'), perm);
  }

  /** Each unit stages the same, and becomes the same, wherever it stands. */
  lemma RearrangedDeltas<B>(s: System<B>, es: seq<Element<B>>, perm: seq<nat>, ms: seq<Memory<B>>, order: seq<nat>)
    requires Rearranged(s.elements, es, perm) && Rearranged(s.memories, ms, order)
    ensures
      var s' := System(es, ms, s.queues);
      && Rearranged(ElementDeltas(s), ElementDeltas(s'), perm) && Rearranged(MemoryDeltas(s), MemoryDeltas(s'), order)
      && Rearranged(Cycle(s).elements, Cycle(s').elements, perm) && Rearranged(Cycle(s).memories, Cycle(s').memories, order)
  {
    hide ElementDelta, MemoryDelta, CoreNext, MemoryNext, Commit, Staged;
  }

  lemma SameCommit<B>(s: System<B>, s': System<B>)
    requires MergeAll(ElementDeltas(s')) == MergeAll(ElementDeltas(s)) && MergeAll(MemoryDeltas(s')) == MergeAll(MemoryDeltas(s))
    requires s'.queues == s.queues
    ensures Cycle(s').queues == Cycle(s).queues
  {
    hide MergeAll, ElementDeltas, MemoryDeltas, Commit, NextElements, NextMemories;
  }

  /** So the order that sorting by name gives to the units never matters. */
  lemma {:induction false} AnyOrderIsIrrelevantForever<B>(
      s: System<B>, senders: set<B>, es: seq<Element<B>>, perm: seq<nat>, ms: seq<Memory<B>>, order: seq<nat>, n: nat)
    requires Wired(s, senders) && OwnPorts(s) && Rearranged(s.elements, es, perm) && Rearranged(s.memories, ms, order)
    ensures
      var s' := System(es, ms, s.queues);
      && Cycles(s', n).queues == Cycles(s, n).queues
      && Rearranged(Cycles(s, n).elements, Cycles(s', n).elements, perm)
      && Rearranged(Cycles(s, n).memories, Cycles(s', n).memories, order)
    decreases n
  {
    hide Wired, OwnPorts, Cycle, Rearranged;
    if n > 0 {
      var s' := System(es, ms, s.queues);
      AnyOrderIsIrrelevant(s, senders, es, perm, ms, order);
      WiredForever(s, senders);
      StillOwnPorts(s);
      assert Cycle(s') == System(Cycle(s').elements, Cycle(s').memories, Cycle(s).queues);
      AnyOrderIsIrrelevantForever(Cycle(s), senders, Cycle(s').elements, perm, Cycle(s').memories, order, n - 1);
    }
  }

  // --- Read ports ---

  function Port<B(==)>(s: System<B>, k: nat, j: nat): ReadPort<B>
    requires k < |s.memories| && j < |s.memories[k].readPorts|
  {
    s.memories[k].readPorts[j]
  }

  predicate HasPort<B(==)>(s: System<B>, k: nat, j: nat) {
    k < |s.memories| && j < |s.memories[k].readPorts|
  }

  function Outstanding<B(==)>(s: System<B>, k: nat, j: nat): seq<Packet> {
    if HasPort(s, k, j) && Port(s, k, j).pending.Some? then [Port(s, k, j).pending.value] else []
  }

  function Emitted<B(==)>(s: System<B>, k: nat, j: nat, n: nat): seq<Packet>
    decreases n
  {
    if n == 0 then []
    else EmittedNow(s, k, j) + Emitted(Cycle(s), k, j, n - 1)
  }

  /** A request as it is served: the address packet dequeued, and the contents of the memory at that moment. */
  datatype Service = Service(request: Packet, contents: seq<Word>)

  function Served<B(==)>(s: System<B>, k: nat, j: nat, n: nat): seq<Service>
    decreases n
  {
    if n == 0 then []
    else ServedNow(s, k, j) + Served(Cycle(s), k, j, n - 1)
  }

  function Answer(v: Service): Packet {
    Packet(v.request.tag, At(v.contents, v.request.value))
  }

  function AnswersTo(vs: seq<Service>): (r: seq<Packet>)
    ensures |r| == |vs| && forall i | 0 <= i < |vs| :: r[i] == Answer(vs[i])
  {
    seq(|vs|, i requires 0 <= i < |vs| => Answer(vs[i]))
  }

  function EmittedNow<B(==)>(s: System<B>, k: nat, j: nat): seq<Packet> {
    if HasPort(s, k, j) && Answers(s.queues, Port(s, k, j)) then [Port(s, k, j).pending.value] else []
  }

  function ServedNow<B(==)>(s: System<B>, k: nat, j: nat): seq<Service> {
    if HasPort(s, k, j) && Serves(s.queues, Port(s, k, j))
    then [Service(s.queues[Port(s, k, j).addrIn].queue[0], s.memories[k].contents)] else []
  }

  lemma PortStep<B>(s: System<B>, k: nat, j: nat)
    requires HasPort(s, k, j)
    ensures HasPort(Cycle(s), k, j)
    ensures Outstanding(s, k, j) + AnswersTo(ServedNow(s, k, j)) == EmittedNow(s, k, j) + Outstanding(Cycle(s), k, j)
  {
    hide Staged, Written, CoreNext, Commit;
    var p, p' := Port(s, k, j), Port(Cycle(s), k, j);
    assert p' == PortNext(s.queues, s.memories[k].contents, p);
  }

  /**
   * A read port answers in order. Over any number of cycles the answer pending at the start, followed by one
   * answer per request served, is what was emitted followed by the answer pending at the end; each answer has
   * its request's tag and the word the memory held when the request was served, before that cycle's writes.
   */
  lemma {:induction false} ReadPortAnswersInOrder<B>(s: System<B>, k: nat, j: nat, n: nat)
    requires HasPort(s, k, j)
    ensures Outstanding(s, k, j) + AnswersTo(Served(s, k, j, n)) == Emitted(s, k, j, n) + Outstanding(Cycles(s, n), k, j)
    decreases n
  {
    hide Cycle, Answers, Serves, Answer;
    if n == 0 {
      assert Outstanding(s, k, j) + [] == [] + Outstanding(s, k, j);
    } else {
      PortStep(s, k, j);
      ReadPortAnswersInOrder(Cycle(s), k, j, n - 1);
      var v, vs := ServedNow(s, k, j), Served(Cycle(s), k, j, n - 1);
      assert AnswersTo(v + vs) == AnswersTo(v) + AnswersTo(vs);
      Telescoped(Outstanding(s, k, j), AnswersTo(v), EmittedNow(s, k, j), Outstanding(Cycle(s), k, j),
                 AnswersTo(vs), Emitted(Cycle(s), k, j, n - 1), Outstanding(Cycles(s, n), k, j));
    }
  }

  lemma Telescoped(p: seq<Packet>, a: seq<Packet>, e: seq<Packet>, p': seq<Packet>, b: seq<Packet>, es: seq<Packet>, end: seq<Packet>)
    requires p + a == e + p' && p' + b == es + end
    ensures p + (a + b) == (e + es) + end
  {
    assert p + (a + b) == (p + a) + b;
    assert (e + p') + b == e + (p' + b);
    assert e + (es + end) == (e + es) + end;
  }

  // --- Ports and their buffers ---

  function Requests(vs: seq<Service>): (r: seq<Packet>)
    ensures |r| == |vs| && forall i | 0 <= i < |vs| :: r[i] == vs[i].request
  {
    seq(|vs|, i requires 0 <= i < |vs| => vs[i].request)
  }

  /** What a port serves is what leaves its address buffer, and what it emits is what enters its data-out buffer. */
  lemma PortTrafficNow<B>(s: System<B>, senders: set<B>, k: nat, j: nat)
    requires Wired(s, senders) && OwnPorts(s) && HasPort(s, k, j)
    ensures Requests(ServedNow(s, k, j)) == Consumed(s, Port(s, k, j).addrIn)
    ensures EmittedNow(s, k, j) == Produced(s, Port(s, k, j).dataOut)
  {
    hide *;
    PortRoles(s, k, j);
    PortEvents(s, senders, ReadAddress(k, j));
    PortEvents(s, senders, ReadData(k, j));
    ServedIsConsumed(s, k, j);
    EmittedIsProduced(s, k, j);
  }

  lemma PortRoles<B>(s: System<B>, k: nat, j: nat)
    requires HasPort(s, k, j)
    ensures HasRole(s.memories, ReadAddress(k, j)) && BufferOf(s.memories, ReadAddress(k, j)) == Port(s, k, j).addrIn
    ensures HasRole(s.memories, ReadData(k, j)) && BufferOf(s.memories, ReadData(k, j)) == Port(s, k, j).dataOut
    ensures Takes(s, ReadAddress(k, j)) <==> Serves(s.queues, Port(s, k, j))
    ensures Puts(s, ReadData(k, j)) <==> Answers(s.queues, Port(s, k, j))
    ensures ReadPortOf(s.memories, ReadData(k, j)) == Port(s, k, j)
  {
    hide Serves, Answers;
  }

  lemma ServedIsConsumed<B>(s: System<B>, k: nat, j: nat)
    requires HasPort(s, k, j)
    requires Port(s, k, j).addrIn in Staged(s).deqs <==> Serves(s.queues, Port(s, k, j))
    ensures Requests(ServedNow(s, k, j)) == Consumed(s, Port(s, k, j).addrIn)
  {
    hide Staged;
  }

  lemma EmittedIsProduced<B>(s: System<B>, k: nat, j: nat)
    requires HasPort(s, k, j)
    requires Port(s, k, j).dataOut in Staged(s).enqs <==> Answers(s.queues, Port(s, k, j))
    requires Answers(s.queues, Port(s, k, j)) ==> Some(Staged(s).enqs[Port(s, k, j).dataOut]) == Port(s, k, j).pending
    ensures EmittedNow(s, k, j) == Produced(s, Port(s, k, j).dataOut)
  {
    hide Staged;
  }

  lemma {:induction false} PortTraffic<B>(s: System<B>, senders: set<B>, k: nat, j: nat, n: nat)
    requires Wired(s, senders) && OwnPorts(s) && HasPort(s, k, j)
    ensures Requests(Served(s, k, j, n)) == AllConsumed(s, Port(s, k, j).addrIn, n)
    ensures Emitted(s, k, j, n) == AllProduced(s, Port(s, k, j).dataOut, n)
    decreases n
  {
    hide *;
    TrafficUnfolds(s, k, j, n);
    if n > 0 {
      PortTrafficNow(s, senders, k, j);
      WiredForever(s, senders);
      StillOwnPorts(s);
      PortStays(s, k, j);
      PortTraffic(Cycle(s), senders, k, j, n - 1);
      RequestsAppend(ServedNow(s, k, j), Served(Cycle(s), k, j, n - 1));
    }
  }

  lemma TrafficUnfolds<B>(s: System<B>, k: nat, j: nat, n: nat)
    requires HasPort(s, k, j)
    ensures
      var a, d := Port(s, k, j).addrIn, Port(s, k, j).dataOut;
      if n == 0 then
        Served(s, k, j, n) == [] && Requests([]) == AllConsumed(s, a, n) && Emitted(s, k, j, n) == AllProduced(s, d, n)
      else
        && Served(s, k, j, n) == ServedNow(s, k, j) + Served(Cycle(s), k, j, n - 1)
        && Emitted(s, k, j, n) == EmittedNow(s, k, j) + Emitted(Cycle(s), k, j, n - 1)
        && AllConsumed(s, a, n) == Consumed(s, a) + AllConsumed(Cycle(s), a, n - 1)
        && AllProduced(s, d, n) == Produced(s, d) + AllProduced(Cycle(s), d, n - 1)
  {
    hide ServedNow, EmittedNow, Consumed, Produced, Cycle;
  }

  lemma RequestsAppend(a: seq<Service>, b: seq<Service>)
    ensures Requests(a + b) == Requests(a) + Requests(b)
  {
  }

  lemma PortStays<B>(s: System<B>, k: nat, j: nat)
    requires HasPort(s, k, j)
    ensures HasPort(Cycle(s), k, j)
    ensures Port(Cycle(s), k, j).addrIn == Port(s, k, j).addrIn && Port(Cycle(s), k, j).dataOut == Port(s, k, j).dataOut
  {
    SameRoles(s, ReadAddress(k, j));
    SameRoles(s, ReadData(k, j));
    assert HasRole(s.memories, ReadAddress(k, j)) && HasRole(s.memories, ReadData(k, j));
    hide Cycle;
  }

  lemma AnswersWrittenOut(vs: seq<Service>)
    ensures forall i | 0 <= i < |vs| && 0 <= vs[i].request.value < |vs[i].contents| ::
      AnswersTo(vs)[i] == Packet(vs[i].request.tag, vs[i].contents[vs[i].request.value])
  {
  }

  /**
   * A read port in terms of its buffers. Over any run, the answer pending at the start followed by one answer for
   * each packet taken from the address buffer is what was put into the data-out buffer followed by the answer
   * pending at the end; the answers are in request order, with the request's tag and, wherever the address exists, the
   * word the memory held there when the request was taken, before that cycle's writes.
   */
  lemma RequestsAreAnsweredInOrder<B>(s: System<B>, senders: set<B>, k: nat, j: nat, n: nat)
    requires Wired(s, senders) && OwnPorts(s) && HasPort(s, k, j)
    ensures
      var p, served := Port(s, k, j), Served(s, k, j, n);
      var answers := AnswersTo(served);
      && Requests(served) == AllConsumed(s, p.addrIn, n)
      && Outstanding(s, k, j) + answers == AllProduced(s, p.dataOut, n) + Outstanding(Cycles(s, n), k, j)
      && forall i | 0 <= i < |served| && 0 <= served[i].request.value < |served[i].contents| ::
           answers[i] == Packet(served[i].request.tag, served[i].contents[served[i].request.value])
  {
    AnswersWrittenOut(Served(s, k, j, n));
    hide *;
    PortTraffic(s, senders, k, j, n);
    ReadPortAnswersInOrder(s, k, j, n);
  }
}
