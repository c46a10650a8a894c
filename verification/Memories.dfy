/**
 * Memories as their users see them: when ports act, which word answers a request, and that a word written is the word
 * read until it is written again. Everything is said in terms of packets, addresses and contents.
 */
module Memories {
  import opened Prelude
  import opened Instructions
  import opened Sequential
  import opened Simulator
  import opened Wires
  import opened Staging
  import opened SystemRuns

  // --- When ports act ---

  predicate HasRoom<B(==)>(s: System<B>, b: B)
    requires b in s.queues
  {
    |s.queues[b].queue| < s.queues[b].depth
  }

  /**
   * Ports never wait without a reason. An answer is put out iff one is pending and there is room for it; a request is
   * taken iff there is one and no answer stays pending.
   */
  lemma ReadPortActsIff<B>(s: System<B>, senders: set<B>, k: nat, j: nat)
    requires Wired(s, senders) && OwnPorts(s) && HasPort(s, k, j)
    ensures
      var p := Port(s, k, j);
      && p.addrIn in s.queues && p.dataOut in s.queues
      && Produced(s, p.dataOut) == (if p.pending.Some? && HasRoom(s, p.dataOut) then [p.pending.value] else [])
      && var requests := s.queues[p.addrIn].queue;
         Consumed(s, p.addrIn) == if requests != [] && (p.pending.None? || HasRoom(s, p.dataOut)) then requests[..1] else []
  {
    hide *;
    PortExists(s, k, j);
    PortTrafficNow(s, senders, k, j);
    ReadBuffers(s, senders, k, j);
    TrafficWrittenOut(s, k, j);
  }

  lemma ReadBuffers<B>(s: System<B>, senders: set<B>, k: nat, j: nat)
    requires Wired(s, senders) && HasPort(s, k, j)
    ensures
      var p := Port(s, k, j);
      && p.addrIn in s.queues && p.dataOut in s.queues
      && (Answers(s.queues, p) <==> p.pending.Some? && HasRoom(s, p.dataOut))
      && (Serves(s.queues, p) <==> s.queues[p.addrIn].queue != [] && (p.pending.None? || HasRoom(s, p.dataOut)))
  {
    assert MemoryWired(s.queues, senders, s.memories[k]);
    assert |s.queues[Port(s, k, j).dataOut].queue| <= s.queues[Port(s, k, j).dataOut].depth;
    hide Bounded, Matching, Directed, ElementWired, Links;
  }

  lemma TrafficWrittenOut<B>(s: System<B>, k: nat, j: nat)
    requires HasPort(s, k, j)
    ensures EmittedNow(s, k, j) == if Answers(s.queues, Port(s, k, j)) then [Port(s, k, j).pending.value] else []
    ensures Requests(ServedNow(s, k, j)) == if Serves(s.queues, Port(s, k, j)) then s.queues[Port(s, k, j).addrIn].queue[..1] else []
  {
  }

  /** A write port takes an address and a datum iff both have arrived. */
  lemma WritePortActsIff<B>(s: System<B>, senders: set<B>, k: nat, w: nat)
    requires Wired(s, senders) && OwnPorts(s) && k < |s.memories| && w < |s.memories[k].writePorts|
    ensures
      var p := s.memories[k].writePorts[w];
      && p.addrIn in s.queues && p.dataIn in s.queues
      && var addresses, data := s.queues[p.addrIn].queue, s.queues[p.dataIn].queue;
         if addresses != [] && data != [] then Consumed(s, p.addrIn) == addresses[..1] && Consumed(s, p.dataIn) == data[..1]
         else Consumed(s, p.addrIn) == [] && Consumed(s, p.dataIn) == []
  {
    var p := s.memories[k].writePorts[w];
    WriteBuffers(s, senders, k, w);
    hide *;
    WriteRoles(s, k, w);
    PortEvents(s, senders, WriteAddress(k, w));
    PortEvents(s, senders, WriteData(k, w));
    TakenIsConsumed(s, p.addrIn);
    TakenIsConsumed(s, p.dataIn);
  }

  lemma WriteBuffers<B>(s: System<B>, senders: set<B>, k: nat, w: nat)
    requires Wired(s, senders) && k < |s.memories| && w < |s.memories[k].writePorts|
    ensures
      var p := s.memories[k].writePorts[w];
      && p.addrIn in s.queues && p.dataIn in s.queues
      && (Writes(s.queues, p) <==> s.queues[p.addrIn].queue != [] && s.queues[p.dataIn].queue != [])
  {
    assert MemoryWired(s.queues, senders, s.memories[k]);
    hide Bounded, Matching, Directed, ElementWired, Links;
  }

  lemma WriteRoles<B>(s: System<B>, k: nat, w: nat)
    requires k < |s.memories| && w < |s.memories[k].writePorts|
    ensures
      var p, a, d := s.memories[k].writePorts[w], WriteAddress(k, w), WriteData(k, w);
      && HasRole(s.memories, a) && BufferOf(s.memories, a) == p.addrIn && (Takes(s, a) <==> Writes(s.queues, p))
      && HasRole(s.memories, d) && BufferOf(s.memories, d) == p.dataIn && (Takes(s, d) <==> Writes(s.queues, p))
  {
    hide Writes;
  }

  lemma TakenIsConsumed<B>(s: System<B>, b: B)
    requires b in s.queues
    ensures Consumed(s, b) == if b in Staged(s).deqs && s.queues[b].queue != [] then s.queues[b].queue[..1] else []
  {
    hide Staged;
  }

  // --- Which word answers ---

  /** Request number `i` was served in some cycle: it was then at the head, after exactly `i` others. */
  lemma {:induction false} ServedInSomeCycle<B>(s: System<B>, k: nat, j: nat, n: nat, i: nat) returns (t: nat)
    requires HasPort(s, k, j) && i < |Served(s, k, j, n)|
    ensures t < n && |Served(s, k, j, t)| == i && HasPort(Cycles(s, t), k, j)
    ensures ServedNow(Cycles(s, t), k, j) == [Served(s, k, j, n)[i]]
    decreases n
  {
    hide Cycle, ServedNow;
    OneAtATime(s, k, j);
    if i < |ServedNow(s, k, j)| {
      t := 0;
    } else {
      PortStays(s, k, j);
      var rest := ServedInSomeCycle(Cycle(s), k, j, n - 1, i - |ServedNow(s, k, j)|);
      t := rest + 1;
    }
  }

  lemma OneAtATime<B>(s: System<B>, k: nat, j: nat)
    ensures |ServedNow(s, k, j)| <= 1
    ensures ServedNow(s, k, j) != [] ==> HasPort(s, k, j) && ServedNow(s, k, j)[0].contents == s.memories[k].contents
  {
  }

  lemma {:induction false} SizeIsKept<B>(s: System<B>, k: nat, n: nat)
    requires k < |s.memories|
    ensures k < |Cycles(s, n).memories| && |Cycles(s, n).memories[k].contents| == |s.memories[k].contents|
    decreases n
  {
    hide Cycle;
    if n > 0 {
      OneCycleKeepsSize(s, k);
      SizeIsKept(Cycle(s), k, n - 1);
    }
  }

  lemma OneCycleKeepsSize<B>(s: System<B>, k: nat)
    requires k < |s.memories|
    ensures k < |Cycle(s).memories| && |Cycle(s).memories[k].contents| == |s.memories[k].contents|
  {
    hide Staged, Commit, CoreNext, Written, PortNext;
  }

  lemma PortExists<B>(s: System<B>, k: nat, j: nat)
    ensures HasPort(s, k, j) <==> k < |s.memories| && j < |s.memories[k].readPorts|
  {
  }

  /**
   * The answer to the `i`-th request taken from a read port's address buffer has its tag and the word that the memory
   * held at its address in the very cycle in which it was taken.
   */
  lemma AnswerIsWordHeld<B>(s: System<B>, senders: set<B>, k: nat, j: nat, n: nat, i: nat) returns (t: nat)
    requires Wired(s, senders) && OwnPorts(s) && HasPort(s, k, j)
    requires i < |AllConsumed(s, Port(s, k, j).addrIn, n)|
    requires |Outstanding(s, k, j)| + i < |AllProduced(s, Port(s, k, j).dataOut, n)|
    requires 0 <= AllConsumed(s, Port(s, k, j).addrIn, n)[i].value < |s.memories[k].contents|
    ensures
      var p, request := Port(s, k, j), AllConsumed(s, Port(s, k, j).addrIn, n)[i];
      && t < n && |AllConsumed(s, p.addrIn, t)| == i && Consumed(Cycles(s, t), p.addrIn) == [request]
      && k < |Cycles(s, t).memories| && request.value < |Cycles(s, t).memories[k].contents|
      && AllProduced(s, p.dataOut, n)[|Outstanding(s, k, j)| + i]
           == Packet(request.tag, Cycles(s, t).memories[k].contents[request.value])
  {
    hide *;
    PortExists(s, k, j);
    RequestsAreAnsweredInOrder(s, senders, k, j, n);
    t := ServedInSomeCycle(s, k, j, n, i);
    RequestsAreAnsweredInOrder(s, senders, k, j, t);
    StaysWired(s, senders, t);
    StaysOwnPorts(s, k, j, t);
    PortTrafficNow(Cycles(s, t), senders, k, j);
    OneAtATime(Cycles(s, t), k, j);
    SizeIsKept(s, k, t);
    AnsweredAt(Outstanding(s, k, j), AnswersTo(Served(s, k, j, n)), AllProduced(s, Port(s, k, j).dataOut, n), Outstanding(Cycles(s, n), k, j), i);
  }

  lemma AnsweredAt(before: seq<Packet>, answers: seq<Packet>, produced: seq<Packet>, left: seq<Packet>, i: nat)
    requires before + answers == produced + left && i < |answers| && |before| + i < |produced|
    ensures produced[|before| + i] == answers[i]
  {
    assert (before + answers)[|before| + i] == answers[i];
    assert (produced + left)[|before| + i] == produced[|before| + i];
  }

  lemma {:induction false} StaysOwnPorts<B>(s: System<B>, k: nat, j: nat, n: nat)
    requires OwnPorts(s) && HasPort(s, k, j)
    ensures OwnPorts(Cycles(s, n)) && HasPort(Cycles(s, n), k, j)
    ensures Port(Cycles(s, n), k, j).addrIn == Port(s, k, j).addrIn && Port(Cycles(s, n), k, j).dataOut == Port(s, k, j).dataOut
    decreases n
  {
    hide OwnPorts, Cycle, HasPort;
    if n > 0 {
      StillOwnPorts(s);
      PortStays(s, k, j);
      StaysOwnPorts(Cycle(s), k, j, n - 1);
    }
  }

  // --- Reading after writing ---

  /** The port has an address and a datum at hand, and the address is `a`. */
  predicate WritesTo<B(==)>(q: Queues<B>, p: WritePort<B>, a: nat) {
    && p.addrIn in q && p.dataIn in q && q[p.addrIn].queue != [] && q[p.dataIn].queue != []
    && q[p.addrIn].queue[0].value == a
  }

  predicate NobodyWritesTo<B(==)>(q: Queues<B>, ps: seq<WritePort<B>>, a: nat) {
    forall v | 0 <= v < |ps| :: !WritesTo(q, ps[v], a)
  }

  lemma {:induction false} WordIsKept<B>(q: Queues<B>, contents: seq<Word>, ps: seq<WritePort<B>>, a: nat)
    requires a < |contents| && NobodyWritesTo(q, ps, a)
    ensures Written(q, contents, ps)[a] == contents[a]
    decreases ps
  {
    if ps != [] {
      assert !WritesTo(q, ps[|ps| - 1], a);
      WordIsKept(q, contents, ps[..|ps| - 1], a);
    }
  }

  /** The last port in port order that writes to an address decides. */
  lemma {:induction false} WordIsWritten<B>(q: Queues<B>, contents: seq<Word>, ps: seq<WritePort<B>>, w: nat, a: nat)
    requires a < |contents| && w < |ps| && WritesTo(q, ps[w], a) && NobodyWritesTo(q, ps[w + 1..], a)
    ensures Written(q, contents, ps)[a] == q[ps[w].dataIn].queue[0].value
    decreases ps
  {
    var before := ps[..|ps| - 1];
    if w < |ps| - 1 {
      assert !WritesTo(q, ps[w + 1..][|ps| - w - 2], a);
      assert before[w + 1..] == ps[w + 1..][..|ps| - w - 2];
      WordIsWritten(q, contents, before, w, a);
    }
  }

  lemma MemoryAfter<B>(s: System<B>, k: nat)
    requires k < |s.memories|
    ensures k < |Cycle(s).memories|
    ensures Cycle(s).memories[k].contents == Written(s.queues, s.memories[k].contents, s.memories[k].writePorts)
    ensures Cycle(s).memories[k].writePorts == s.memories[k].writePorts
  {
    hide Staged, Commit, CoreNext, Written, PortNext;
  }

  /** A word stays while nobody writes to its address. */
  lemma {:induction false} WordStays<B>(s: System<B>, k: nat, a: nat, n: nat)
    requires k < |s.memories| && a < |s.memories[k].contents|
    requires forall t: nat | t < n :: NobodyWritesTo(Cycles(s, t).queues, s.memories[k].writePorts, a)
    ensures k < |Cycles(s, n).memories| && a < |Cycles(s, n).memories[k].contents|
    ensures Cycles(s, n).memories[k].contents[a] == s.memories[k].contents[a]
    decreases n
  {
    hide Cycle, NobodyWritesTo;
    if n > 0 {
      assert Cycles(s, 0) == s;
      MemoryAfter(s, k);
      WordIsKept(s.queues, s.memories[k].contents, s.memories[k].writePorts, a);
      forall t: nat | t < n - 1
        ensures NobodyWritesTo(Cycles(Cycle(s), t).queues, Cycle(s).memories[k].writePorts, a)
      {
        assert Cycles(Cycle(s), t) == Cycles(s, t + 1);
      }
      WordStays(Cycle(s), k, a, n - 1);
    }
  }

  lemma WordLater<B>(s: System<B>, k: nat, w: nat, a: nat, n: nat)
    requires k < |s.memories| && a < |s.memories[k].contents| && w < |s.memories[k].writePorts|
    requires WritesTo(s.queues, s.memories[k].writePorts[w], a)
    requires NobodyWritesTo(s.queues, s.memories[k].writePorts[w + 1..], a)
    requires forall t: nat | 1 <= t <= n :: NobodyWritesTo(Cycles(s, t).queues, s.memories[k].writePorts, a)
    ensures k < |Cycles(s, n + 1).memories| && a < |Cycles(s, n + 1).memories[k].contents|
    ensures WritesTo(s.queues, s.memories[k].writePorts[w], a) &&
      Cycles(s, n + 1).memories[k].contents[a] == s.queues[s.memories[k].writePorts[w].dataIn].queue[0].value
  {
    MemoryAfter(s, k);
    WordIsWritten(s.queues, s.memories[k].contents, s.memories[k].writePorts, w, a);
    hide Cycle, Written, NobodyWritesTo;
    forall t: nat | t < n ensures NobodyWritesTo(Cycles(Cycle(s), t).queues, Cycle(s).memories[k].writePorts, a) {
      assert Cycles(Cycle(s), t) == Cycles(s, t + 1);
    }
    WordStays(Cycle(s), k, a, n);
    assert Cycles(s, n + 1) == Cycles(Cycle(s), n);
  }

  /**
   * What is read is what was written last. After a cycle in which a port writes to an address and no later port does, and
   * `n` more in which nobody does, a request for that address is answered with the datum written.
   */
  lemma ReadAfterWrite<B>(s: System<B>, k: nat, w: nat, j: nat, a: nat, n: nat)
    requires k < |s.memories| && a < |s.memories[k].contents| && w < |s.memories[k].writePorts|
    requires WritesTo(s.queues, s.memories[k].writePorts[w], a)
    requires NobodyWritesTo(s.queues, s.memories[k].writePorts[w + 1..], a)
    requires forall t: nat | 1 <= t <= n :: NobodyWritesTo(Cycles(s, t).queues, s.memories[k].writePorts, a)
    requires HasPort(Cycles(s, n + 1), k, j)
    requires ServedNow(Cycles(s, n + 1), k, j) != [] && ServedNow(Cycles(s, n + 1), k, j)[0].request.value == a
    ensures
      var request, datum := ServedNow(Cycles(s, n + 1), k, j)[0].request, s.queues[s.memories[k].writePorts[w].dataIn].queue[0].value;
      Outstanding(Cycles(s, n + 2), k, j) == [Packet(request.tag, datum)]
  {
    hide *;
    WordLater(s, k, w, a, n);
    PortExists(Cycles(s, n + 1), k, j);
    OneMoreCycle(s, n + 1);
    RequestBecomesAnswer(Cycles(s, n + 1), k, j);
  }

  lemma {:induction false} OneMoreCycle<B>(s: System<B>, n: nat)
    ensures Cycles(s, n + 1) == Cycle(Cycles(s, n))
    decreases n
  {
    hide Cycle;
    if n > 0 { OneMoreCycle(Cycle(s), n - 1); }
  }

  lemma RequestBecomesAnswer<B>(s: System<B>, k: nat, j: nat)
    requires HasPort(s, k, j) && ServedNow(s, k, j) != []
    requires 0 <= ServedNow(s, k, j)[0].request.value < |s.memories[k].contents|
    ensures
      var request := ServedNow(s, k, j)[0].request;
      Outstanding(Cycle(s), k, j) == [Packet(request.tag, s.memories[k].contents[request.value])]
  {
    hide Staged, Commit, CoreNext, Written;
    assert Port(Cycle(s), k, j) == PortNext(s.queues, s.memories[k].contents, Port(s, k, j));
  }
}
