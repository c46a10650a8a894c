/** Memories with read ports that hold one pending answer each, and write ports. */
module SimulatorMemory {
  import opened Prelude
  import opened Instructions
  import opened Sequential
  import opened Simulator
  import opened SimulatorObjects

  /** After delivery, a port can serve exactly when nothing is pending any more. */
  lemma ServeParts(q: Queues<Buffer>, v: ReadPort<Buffer>)
    requires v.addrIn in q && v.dataOut in q
    ensures Serves(q, v) <==> q[v.addrIn].queue != [] && Delivered(q, v).pending.None?
  {
  }

  predicate RequestExists(q: Queues<Buffer>, p: ReadPort<Buffer>, size: nat) {
    Serves(q, p) ==> 0 <= q[p.addrIn].queue[0].value < size
  }

  predicate WriteExists(q: Queues<Buffer>, p: WritePort<Buffer>, size: nat) {
    Writes(q, p) ==> 0 <= q[p.addrIn].queue[0].value < size
  }

  function Delivered(q: Queues<Buffer>, p: ReadPort<Buffer>): ReadPort<Buffer> {
    if Answers(q, p) then p.(pending := None) else p
  }

  function Delivery(q: Queues<Buffer>, p: ReadPort<Buffer>): Delta<Buffer> {
    Merge(Transfers(q, PortLinks(p)), if Answers(q, p) then Putting(p.dataOut, p.pending.value) else Nothing())
  }

  function Service(q: Queues<Buffer>, p: ReadPort<Buffer>): Delta<Buffer> {
    if Serves(q, p) then Taking(p.addrIn) else Nothing()
  }

  lemma DeliveryParts(q: Queues<Buffer>, p: ReadPort<Buffer>, start: Delta<Buffer>)
    ensures
      Merge(start, Transfers(q, PortLinks(p)))
        == if p.peripheral.Some? then Merge(start, Transfer(q, Link(p.dataOut, p.peripheral.value))) else start
    ensures
      Merge(start, Delivery(q, p))
        == if Answers(q, p) then Merge(Merge(start, Transfers(q, PortLinks(p))), Putting(p.dataOut, p.pending.value))
           else Merge(start, Transfers(q, PortLinks(p)))
  {
    MergeNothing(start, q);
    MergeNothing(Transfers(q, PortLinks(p)), q);
    assert [] + PortLinks(p) == PortLinks(p);
    OneMore(q, start, [], PortLinks(p));
    if Answers(q, p) { MergeAssociates(start, Transfers(q, PortLinks(p)), Putting<Buffer>(p.dataOut, p.pending.value)); }
  }

  /** A port delta is a delivery and a service. */
  lemma PortParts(q: Queues<Buffer>, p: ReadPort<Buffer>)
    ensures PortDelta(q, p) == Merge(Delivery(q, p), Service(q, p))
    ensures Service(q, p).enqs == map[]
  {
    var t := Transfers(q, PortLinks(p));
    var a: map<Buffer, Packet> := if Answers(q, p) then map[p.dataOut := p.pending.value] else map[];
    assert (t.enqs + a) + map[] == t.enqs + a;
  }

  function WrittenOne(q: Queues<Buffer>, contents: seq<Word>, p: WritePort<Buffer>): seq<Word> {
    if Writes(q, p) && 0 <= q[p.addrIn].queue[0].value < |contents|
    then contents[q[p.addrIn].queue[0].value := q[p.dataIn].queue[0].value]
    else contents
  }

  lemma WrittenEnds(q: Queues<Buffer>, before: seq<Word>, ps: seq<WritePort<Buffer>>)
    ensures Written(q, before, ps[..0]) == before && ps[..|ps|] == ps && |WriteDeltasOf(q, ps)| == |ps|
  {
  }

  lemma ReadyToWrite(q: Queues<Buffer>, ps: seq<WritePort<Buffer>>, all: set<Buffer>, k: nat)
    requires WritePortsWithin(ps, all) && k < |ps|
    ensures ps[k].addrIn in all && ps[k].dataIn in all && WriteDeltasOf(q, ps)[k] == WriteDelta(q, ps[k])
  {
  }

  lemma WrittenNext(q: Queues<Buffer>, before: seq<Word>, ps: seq<WritePort<Buffer>>, i: nat)
    requires i < |ps|
    ensures Written(q, before, ps[..i + 1]) == WrittenOne(q, Written(q, before, ps[..i]), ps[i])
  {
    assert ps[..i + 1][..i] == ps[..i];
  }

  lemma WriteParts(q: Queues<Buffer>, p: WritePort<Buffer>, start: Delta<Buffer>)
    ensures Merge(start, WriteDelta(q, p)) == if Writes(q, p) then Merge(Merge(start, Taking(p.addrIn)), Taking(p.dataIn)) else start
  {
    MergeNothing(start, q);
    assert {p.addrIn} + {p.dataIn} == {p.addrIn, p.dataIn};
    MergeAssociates(start, Taking<Buffer>(p.addrIn), Taking<Buffer>(p.dataIn));
  }

  function Deliveries(q: Queues<Buffer>, ps: seq<ReadPort<Buffer>>): (r: seq<Delta<Buffer>>)
    ensures |r| == |ps| && forall k | 0 <= k < |ps| :: r[k] == Delivery(q, ps[k])
  {
    seq(|ps|, k requires 0 <= k < |ps| => Delivery(q, ps[k]))
  }

  function Services(q: Queues<Buffer>, ps: seq<ReadPort<Buffer>>): (r: seq<Delta<Buffer>>)
    ensures |r| == |ps| && forall k | 0 <= k < |ps| :: r[k] == Service(q, ps[k])
  {
    seq(|ps|, k requires 0 <= k < |ps| => Service(q, ps[k]))
  }

  /** Delivering on every port and then serving every port stages what doing both port by port would. */
  lemma {:induction false} TwoPasses(q: Queues<Buffer>, ps: seq<ReadPort<Buffer>>, ds: seq<Delta<Buffer>>)
    requires |ds| == |ps| && forall k | 0 <= k < |ps| :: ds[k] == PortDelta(q, ps[k])
    ensures Merge(MergeAll(Deliveries(q, ps)), MergeAll(Services(q, ps))) == MergeAll(ds)
    ensures MergeAll(Services(q, ps)).enqs == map[]
    decreases ps
  {
    hide PortDelta, Delivery, Service, MergeAll, Merge;
    if ps == [] {
      NothingMerged(Deliveries(q, ps), Services(q, ps), ds);
    } else {
      var n := |ps| - 1;
      assert Deliveries(q, ps)[..n] == Deliveries(q, ps[..n]) && Services(q, ps)[..n] == Services(q, ps[..n]);
      TwoPasses(q, ps[..n], ds[..n]);
      PortParts(q, ps[n]);
      LastOf(Deliveries(q, ps));
      LastOf(Services(q, ps));
      LastOf(ds);
      Interleave(MergeAll(Deliveries(q, ps[..n])), Delivery(q, ps[n]), MergeAll(Services(q, ps[..n])), Service(q, ps[n]));
    }
  }

  lemma NothingMerged(a: seq<Delta<Buffer>>, b: seq<Delta<Buffer>>, c: seq<Delta<Buffer>>)
    requires a == b == c == []
    ensures Merge(MergeAll(a), MergeAll(b)) == MergeAll(c) && MergeAll(b).enqs == map[]
  {
  }

  lemma LastOf(ds: seq<Delta<Buffer>>)
    requires ds != []
    ensures MergeAll(ds) == Merge(MergeAll(ds[..|ds| - 1]), ds[|ds| - 1])
  {
  }

  lemma Interleave(a: Delta<Buffer>, b: Delta<Buffer>, c: Delta<Buffer>, d: Delta<Buffer>)
    requires c.enqs == map[] && d.enqs == map[]
    ensures Merge(Merge(a, b), Merge(c, d)) == Merge(Merge(a, c), Merge(b, d))
    ensures Merge(c, d).enqs == map[]
  {
    assert Merge(Merge(a, b), Merge(c, d)).enqs == a.enqs + b.enqs;
    assert Merge(Merge(a, c), Merge(b, d)).enqs == a.enqs + b.enqs;
  }

  /** Every address used this cycle exists. */
  predicate AddressesExist(q: Queues<Buffer>, m: Memory<Buffer>) {
    && (forall k | 0 <= k < |m.readPorts| && Serves(q, m.readPorts[k]) ::
          0 <= q[m.readPorts[k].addrIn].queue[0].value < |m.contents|)
    && (forall k | 0 <= k < |m.writePorts| && Writes(q, m.writePorts[k]) ::
          0 <= q[m.writePorts[k].addrIn].queue[0].value < |m.contents|)
  }

  ghost function Stored(contents: array<Word>): (r: seq<Word>)
    reads contents
    ensures |r| == contents.Length
  {
    contents[..]
  }

  class MemoryElement {
    const contents: array<Word>
    var readPorts: seq<ReadPort<Buffer>>
    var writePorts: seq<WritePort<Buffer>>

    constructor (size: nat)
      ensures readPorts == [] && writePorts == [] && contents.Length == size && fresh(contents)
      ensures forall k | 0 <= k < size :: contents[k] == 0
    {
      contents := new Word[size](_ => 0);
      readPorts, writePorts := [], [];
    }

    method AddReadPort(addrIn: Buffer, dataOut: Buffer)
      modifies this`readPorts
      ensures readPorts == old(readPorts) + [ReadPort(addrIn, dataOut, None, None)]
    {
      readPorts := readPorts + [ReadPort(addrIn, dataOut, None, None)];
    }

    method AddWritePort(addrIn: Buffer, dataIn: Buffer)
      modifies this`writePorts
      ensures writePorts == old(writePorts) + [WritePort(addrIn, dataIn)]
    {
      writePorts := writePorts + [WritePort(addrIn, dataIn)];
    }

    ghost predicate Within(all: set<Buffer>)
      reads this
    {
      PortsWithin(readPorts, all) && WritePortsWithin(writePorts, all)
    }

    ghost function AsValue(): Memory<Buffer>
      reads this, contents
    {
      Memory(Stored(contents), readPorts, writePorts)
    }

    /** Originate data on the peripheral link, and hand a pending answer to the data-out buffer if it has room. */
    method Deliver(k: nat, ghost all: set<Buffer>)
      requires k < |readPorts| && PortWithin(readPorts[k], all) && AllValid(all)
      modifies this`readPorts, all`stagedPacket, all`stagedDequeue, all`pending
      ensures AllValid(all) && Committed(all) == old(Committed(all))
      ensures readPorts == old(readPorts)[k := Delivered(Committed(all), old(readPorts)[k])]
      ensures StagedOn(all) == Merge(old(StagedOn(all)), Delivery(Committed(all), old(readPorts)[k]))
    {
      var p := readPorts[k];
      DeliveryParts(Committed(all), p, StagedOn(all));
      if p.peripheral.Some? {
        var active := Drive(p.dataOut, p.peripheral.value, all);
      }
      if p.pending.Some? && !p.dataOut.IsFull() {
        PutInto(p.dataOut, p.pending.value, all);
        readPorts := readPorts[k := p.(pending := None)];
      }
    }

    /** Serve a request, unless an answer is still pending; `v` is what the port was when the cycle began. */
    method Serve(k: nat, ghost v: ReadPort<Buffer>, ghost all: set<Buffer>) returns (ok: bool)
      requires k < |readPorts| && PortWithin(readPorts[k], all) && AllValid(all) && readPorts[k] == Delivered(Committed(all), v)
      modifies this`readPorts, all`stagedDequeue, all`pending
      ensures AllValid(all) && Committed(all) == old(Committed(all))
      ensures ok == RequestExists(Committed(all), v, contents.Length)
      ensures ok ==> readPorts == old(readPorts)[k := PortNext(Committed(all), Stored(contents), v)]
      ensures ok ==> StagedOn(all) == Merge(old(StagedOn(all)), Service(Committed(all), v))
    {
      ok := true;
      var p := readPorts[k];
      ServeParts(Committed(all), v);
      MergeNothing(StagedOn(all), Committed(all));
      if !p.addrIn.IsEmpty() && p.pending.None? {
        var request := TakeFrom(p.addrIn, all);
        if request.value < 0 || request.value >= contents.Length { return false; }
        readPorts := readPorts[k := p.(pending := Some(Packet(request.tag, contents[request.value])))];
      }
    }

    /** Perform a write once both address and data have arrived. */
    method Write(k: nat, ghost all: set<Buffer>) returns (ok: bool)
      requires k < |writePorts| && writePorts[k].addrIn in all && writePorts[k].dataIn in all && AllValid(all)
      modifies contents, all`stagedDequeue, all`pending
      ensures AllValid(all) && Committed(all) == old(Committed(all))
      ensures ok == WriteExists(Committed(all), writePorts[k], contents.Length)
      ensures ok ==> Stored(contents) == WrittenOne(Committed(all), old(Stored(contents)), writePorts[k])
      ensures ok ==> StagedOn(all) == Merge(old(StagedOn(all)), WriteDelta(Committed(all), writePorts[k]))
    {
      ok := true;
      var p := writePorts[k];
      WriteParts(Committed(all), p, StagedOn(all));
      if !p.addrIn.IsEmpty() && !p.dataIn.IsEmpty() {
        var address := TakeFrom(p.addrIn, all);
        var data := TakeFrom(p.dataIn, all);
        if address.value < 0 || address.value >= contents.Length { return false; }
        contents[address.value] := data.value;
      }
    }

    /** First pass over the read ports. */
    method DeliverAll(ghost all: set<Buffer>)
      requires Within(all) && AllValid(all)
      modifies this`readPorts
      modifies all`stagedPacket, all`stagedDequeue, all`pending
      ensures AllValid(all) && Within(all) && Committed(all) == old(Committed(all))
      ensures readPorts == AllDelivered(Committed(all), old(readPorts))
      ensures StagedOn(all) == Merge(old(StagedOn(all)), MergeAll(Deliveries(Committed(all), old(readPorts))))
    {
      hide *;
      ghost var start, q, vs := StagedOn(all), Committed(all), readPorts;
      ghost var ds, goal := Deliveries(q, vs), AllDelivered(q, vs);
      WithinParts(all);
      DeliveredWithin(q, vs, all);
      StageEnds(start, ds);
      HalfwayEnds(goal, vs);
      for i := 0 to |readPorts|
        invariant AllValid(all) && Committed(all) == q && |readPorts| == |vs|
        invariant readPorts == Halfway(goal, vs, i)
        invariant StagedOn(all) == StagedSoFar(start, ds, i)
      {
        StageNext(start, ds, i);
        HalfwayNext(goal, vs, i);
        ReadyToDeliver(q, vs, all, i);
        Deliver(i, all);
      }
      WithinParts(all);
    }

    /** Second pass over the read ports; `vs` is what they were when the cycle began. */
    method ServeAll(ghost vs: seq<ReadPort<Buffer>>, ghost all: set<Buffer>) returns (ok: bool)
      requires Within(all) && AllValid(all)
      requires readPorts == AllDelivered(Committed(all), vs)
      modifies this`readPorts
      modifies all`stagedDequeue, all`pending
      ensures AllValid(all) && Committed(all) == old(Committed(all))
      ensures ok <==> forall k | 0 <= k < |vs| :: RequestExists(Committed(all), vs[k], contents.Length)
      ensures ok ==> Within(all) && readPorts == AllServed(Committed(all), Stored(contents), vs)
      ensures ok ==> StagedOn(all) == Merge(old(StagedOn(all)), MergeAll(Services(Committed(all), vs)))
    {
      hide *;
      ghost var start, q, c := StagedOn(all), Committed(all), Stored(contents);
      ghost var ds, before, goal := Services(q, vs), readPorts, AllServed(q, c, vs);
      WithinParts(all);
      ServedWithin(q, c, vs, all);
      StageEnds(start, ds);
      HalfwayEnds(goal, before);
      for i := 0 to |readPorts|
        invariant AllValid(all) && Committed(all) == q && Stored(contents) == c && |readPorts| == |vs|
        invariant forall k | 0 <= k < i :: RequestExists(q, vs[k], contents.Length)
        invariant readPorts == Halfway(goal, before, i)
        invariant StagedOn(all) == StagedSoFar(start, ds, i)
      {
        StageNext(start, ds, i);
        HalfwayNext(goal, before, i);
        ReadyToServe(q, c, vs, all, i);
        ok := Serve(i, vs[i], all);
        if !ok { return; }
      }
      WithinParts(all);
      ok := true;
    }

    lemma WithinParts(all: set<Buffer>)
      ensures Within(all) <==> PortsWithin(readPorts, all) && WritePortsWithin(writePorts, all)
    {
    }

    /** The write ports, one after the other. */
    method WriteAll(ghost all: set<Buffer>) returns (ok: bool)
      requires AllValid(all) && Within(all)
      modifies contents
      modifies all`stagedDequeue, all`pending
      ensures AllValid(all) && Committed(all) == old(Committed(all))
      ensures ok <==> forall k | 0 <= k < |writePorts| :: WriteExists(Committed(all), writePorts[k], contents.Length)
      ensures ok ==> Stored(contents) == Written(Committed(all), old(Stored(contents)), writePorts)
      ensures ok ==> StagedOn(all) == Merge(old(StagedOn(all)), MergeAll(WriteDeltasOf(Committed(all), writePorts)))
    {
      hide *;
      ghost var start, q, vs := StagedOn(all), Committed(all), writePorts;
      ghost var ds, before := WriteDeltasOf(q, vs), Stored(contents);
      WithinParts(all);
      StageEnds(start, ds);
      WrittenEnds(q, before, vs);
      for i := 0 to |writePorts|
        invariant AllValid(all) && Committed(all) == q
        invariant forall k | 0 <= k < i :: WriteExists(q, vs[k], contents.Length)
        invariant Stored(contents) == Written(q, before, vs[..i])
        invariant StagedOn(all) == StagedSoFar(start, ds, i)
      {
        StageNext(start, ds, i);
        WrittenNext(q, before, vs, i);
        ReadyToWrite(q, vs, all, i);
        ok := Write(i, all);
        if !ok { return; }
      }
      ok := true;
    }

    /** One cycle of the memory: deliver, serve, write. It fails exactly when an address does not exist. */
    method Iterate(ghost all: set<Buffer>) returns (ok: bool)
      requires Within(all) && AllValid(all)
      modifies this`readPorts, contents
      modifies all`stagedPacket, all`stagedDequeue, all`pending
      ensures AllValid(all) && Committed(all) == old(Committed(all))
      ensures ok <==> AddressesExist(Committed(all), old(AsValue()))
      ensures ok ==> Within(all)
      ensures ok ==> AsValue() == MemoryNext(Committed(all), old(AsValue()))
      ensures ok ==> StagedOn(all) == Merge(old(StagedOn(all)), MemoryDelta(Committed(all), old(AsValue())))
    {
      ghost var start, q, m := StagedOn(all), Committed(all), AsValue();
      MemoryParts(q, m, start);
      AddressParts(q, m);
      hide MergeAll, Merge, StagedOn, Committed, AllValid, Written, PortNext, Delivered, MemoryDelta, Serves, Writes, PortWithin, Stored;
      DeliverAll(all);
      ok := ServeAll(m.readPorts, all);
      if ok {
        ok := WriteAll(all);
        NextParts(q, m, readPorts);
      }
    }
  }

  function AllDelivered(q: Queues<Buffer>, ps: seq<ReadPort<Buffer>>): (r: seq<ReadPort<Buffer>>)
    ensures |r| == |ps| && forall k | 0 <= k < |ps| :: r[k] == Delivered(q, ps[k])
  {
    seq(|ps|, k requires 0 <= k < |ps| => Delivered(q, ps[k]))
  }

  function AllServed(q: Queues<Buffer>, contents: seq<Word>, ps: seq<ReadPort<Buffer>>): (r: seq<ReadPort<Buffer>>)
    ensures |r| == |ps| && forall k | 0 <= k < |ps| :: r[k] == PortNext(q, contents, ps[k])
  {
    seq(|ps|, k requires 0 <= k < |ps| => PortNext(q, contents, ps[k]))
  }

  ghost predicate PortsWithin(ps: seq<ReadPort<Buffer>>, all: set<Buffer>) {
    forall k | 0 <= k < |ps| :: PortWithin(ps[k], all)
  }

  ghost predicate WritePortsWithin(ps: seq<WritePort<Buffer>>, all: set<Buffer>) {
    forall k | 0 <= k < |ps| :: ps[k].addrIn in all && ps[k].dataIn in all
  }

  lemma DeliveredWithin(q: Queues<Buffer>, vs: seq<ReadPort<Buffer>>, all: set<Buffer>)
    requires PortsWithin(vs, all)
    ensures PortsWithin(AllDelivered(q, vs), all)
    ensures |AllDelivered(q, vs)| == |Deliveries(q, vs)| == |vs|
  {
  }

  /** What the first pass finds at one port, and leaves there. */
  lemma ReadyToDeliver(q: Queues<Buffer>, vs: seq<ReadPort<Buffer>>, all: set<Buffer>, k: nat)
    requires PortsWithin(vs, all) && k < |vs|
    ensures PortWithin(vs[k], all) && AllDelivered(q, vs)[k] == Delivered(q, vs[k]) && Deliveries(q, vs)[k] == Delivery(q, vs[k])
  {
    hide PortWithin, Delivered, Delivery;
  }

  lemma ServedWithin(q: Queues<Buffer>, contents: seq<Word>, vs: seq<ReadPort<Buffer>>, all: set<Buffer>)
    requires PortsWithin(AllDelivered(q, vs), all)
    ensures PortsWithin(AllServed(q, contents, vs), all)
    ensures |AllDelivered(q, vs)| == |AllServed(q, contents, vs)| == |Services(q, vs)| == |vs|
  {
    forall k | 0 <= k < |vs| ensures PortWithin(AllServed(q, contents, vs)[k], all) {
      assert PortWithin(AllDelivered(q, vs)[k], all);
    }
  }

  /** What the second pass finds at one port, and leaves there. */
  lemma ReadyToServe(q: Queues<Buffer>, contents: seq<Word>, vs: seq<ReadPort<Buffer>>, all: set<Buffer>, k: nat)
    requires PortsWithin(AllDelivered(q, vs), all) && k < |vs|
    ensures PortWithin(AllDelivered(q, vs)[k], all) && AllDelivered(q, vs)[k] == Delivered(q, vs[k])
    ensures Services(q, vs)[k] == Service(q, vs[k]) && AllServed(q, contents, vs)[k] == PortNext(q, contents, vs[k])
  {
    hide PortWithin, Delivered, Service, PortNext;
  }

  ghost predicate PortWithin(p: ReadPort<Buffer>, all: set<Buffer>) {
    p.addrIn in all && p.dataOut in all && (p.peripheral.Some? ==> p.peripheral.value in all)
  }

  function WriteDeltasOf(q: Queues<Buffer>, ps: seq<WritePort<Buffer>>): (r: seq<Delta<Buffer>>)
    ensures |r| == |ps| && forall k | 0 <= k < |ps| :: r[k] == WriteDelta(q, ps[k])
  {
    seq(|ps|, k requires 0 <= k < |ps| => WriteDelta(q, ps[k]))
  }

  lemma MemoryParts(q: Queues<Buffer>, m: Memory<Buffer>, start: Delta<Buffer>)
    ensures
      Merge(start, MemoryDelta(q, m))
        == Merge(Merge(Merge(start, MergeAll(Deliveries(q, m.readPorts))), MergeAll(Services(q, m.readPorts))),
                 MergeAll(WriteDeltasOf(q, m.writePorts)))
  {
    var a, b, c := MergeAll(Deliveries(q, m.readPorts)), MergeAll(Services(q, m.readPorts)), MergeAll(WriteDeltas(q, m));
    assert WriteDeltasOf(q, m.writePorts) == WriteDeltas(q, m);
    hide Merge, MergeAll, PortDeltas, WriteDeltas, Deliveries, Services, PortDelta;
    PassesAreDelta(q, m);
    MergeAssociates(start, a, b);
    MergeAssociates(start, Merge(a, b), c);
  }

  lemma NextParts(q: Queues<Buffer>, m: Memory<Buffer>, ports: seq<ReadPort<Buffer>>)
    requires |ports| == |m.readPorts| && forall k | 0 <= k < |ports| :: ports[k] == PortNext(q, m.contents, m.readPorts[k])
    ensures MemoryNext(q, m) == Memory(Written(q, m.contents, m.writePorts), ports, m.writePorts)
  {
    assert MemoryNext(q, m).readPorts == ports;
  }

  lemma PassesAreDelta(q: Queues<Buffer>, m: Memory<Buffer>)
    ensures Merge(MergeAll(Deliveries(q, m.readPorts)), MergeAll(Services(q, m.readPorts))) == MergeAll(PortDeltas(q, m))
  {
    TwoPasses(q, m.readPorts, PortDeltas(q, m));
  }

  lemma AddressParts(q: Queues<Buffer>, m: Memory<Buffer>)
    ensures AddressesExist(q, m) <==>
      && (forall k | 0 <= k < |m.readPorts| :: RequestExists(q, m.readPorts[k], |m.contents|))
      && (forall k | 0 <= k < |m.writePorts| :: WriteExists(q, m.writePorts[k], |m.contents|))
  {
    hide Serves, Writes;
  }

  /** What is staged once the first `i` of these effects have been merged in. */
  function StagedSoFar(start: Delta<Buffer>, ds: seq<Delta<Buffer>>, i: nat): Delta<Buffer>
    requires i <= |ds|
  {
    Merge(start, MergeAll(ds[..i]))
  }

  lemma StageEnds(start: Delta<Buffer>, ds: seq<Delta<Buffer>>)
    ensures StagedSoFar(start, ds, 0) == start && StagedSoFar(start, ds, |ds|) == Merge(start, MergeAll(ds))
  {
    assert start.enqs + map[] == start.enqs;
    assert ds[..|ds|] == ds;
  }

  lemma StageNext(start: Delta<Buffer>, ds: seq<Delta<Buffer>>, i: nat)
    requires i < |ds|
    ensures Merge(StagedSoFar(start, ds, i), ds[i]) == StagedSoFar(start, ds, i + 1)
  {
    assert ds[..i + 1][..i] == ds[..i];
    LastOf(ds[..i + 1]);
    MergeAssociates(start, MergeAll(ds[..i]), ds[i]);
  }
}
