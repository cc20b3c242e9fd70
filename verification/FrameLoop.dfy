/** The capture loop: ownership of the references that each grab takes, and the
    accounting of dropped frames. */
module FrameLoop {
  import opened Wrapping

  /** What pulling a sample and mapping its memory comes to. */
  datatype Pull = NoSample | NoBuffer | NoMemory | MapFails | Mapped(size: nat)

  datatype Frame = Frame(hasData: bool, size: nat) {
    predicate Valid() {
      hasData && size > 0
    }
  }

  /** A mapped frame without bytes: not valid to the loop, but its references are held. */
  predicate IsEmptyFrame(p: Pull) {
    p == Mapped(0)
  }

  /** The backend. A reference is a positive number, zero the null pointer; the ghost sets are
      the references taken and not yet given back, and the memories mapped. */
  class GstBackend {
    var sample: nat
    var memory: nat
    var pipeline: bool
    var taken: nat
    ghost var samples: set<nat>
    ghost var memories: set<nat>
    ghost var maps: set<nat>

    ghost predicate Valid()
      reads this
    {
      && (sample != 0 ==> sample in samples) && (memory != 0 ==> memory in memories)
      && maps == memories
      && (forall s :: s in samples ==> 0 < s <= taken) && (forall m :: m in memories ==> 0 < m <= taken)
    }

    constructor ()
      ensures Valid() && sample == 0 == memory && !pipeline && samples == {} == memories
    {
      sample, memory, pipeline, taken := 0, 0, false, 0;
      samples, memories, maps := {}, {}, {};
    }

    /** Giving back a reference demands that it is still held: nothing is released twice. */
    method UnrefSample()
      requires Valid() && sample in samples
      modifies this`samples
      ensures samples == old(samples) - {sample}
    {
      samples := samples - {sample};
    }

    /** A memory must be unmapped before it is given back. */
    method UnrefMemory()
      requires memory in memories && memory !in maps
      modifies this`memories
      ensures memories == old(memories) - {memory}
    {
      memories := memories - {memory};
    }

    method UnmapMemory()
      requires memory in maps
      modifies this`maps
      ensures maps == old(maps) - {memory}
    {
      maps := maps - {memory};
    }

    method DiscardSample()
      requires Valid() && sample != 0
      modifies this`sample, this`samples
      ensures Valid() && sample == 0 && samples == old(samples) - {old(sample)}
    {
      UnrefSample();
      sample := 0;
    }

    /** Pulls a sample and maps its memory. Whatever goes wrong, the references taken by this
        call are given back; those of an earlier call that are still stored are overwritten. */
    method Grab(pull: Pull) returns (frame: Frame)
      requires Valid()
      modifies this`sample, this`memory, this`taken, this`samples, this`memories, this`maps
      ensures Valid()
      ensures frame == if pull.Mapped? then Frame(true, pull.size) else Frame(false, 0)
      ensures frame.Valid() <==> pull.Mapped? && pull.size > 0
      ensures pull.Mapped? ==>
                sample != 0 && memory != 0 && samples == old(samples) + {sample} && memories == old(memories) + {memory}
                && sample !in old(samples) && memory !in old(memories)
      ensures !pull.Mapped? ==> sample == 0 && samples == old(samples) && memories == old(memories)
      ensures pull.NoSample? || pull.NoBuffer? ==> memory == old(memory)
      ensures pull.NoMemory? || pull.MapFails? ==> memory == 0
    {
      frame := Frame(false, 0);
      if pull.NoSample? {
        sample := 0;
        return;
      }
      taken := taken + 1;
      sample := taken;
      samples := samples + {sample};
      if pull.NoBuffer? {
        DiscardSample();
        return;
      }
      if pull.NoMemory? {
        memory := 0;
        DiscardSample();
        return;
      }
      taken := taken + 1;
      memory := taken;
      memories := memories + {memory};
      if pull.MapFails? {
        UnrefMemory();
        memory := 0;
        DiscardSample();
        return;
      }
      maps := maps + {memory};
      frame := Frame(true, pull.size);
    }

    /** Gives back what the last grab left stored; harmless when there is nothing. */
    method Release()
      requires Valid()
      modifies this`sample, this`memory, this`samples, this`memories, this`maps
      ensures Valid() && sample == 0 == memory
      ensures samples == old(samples) - {old(sample)} && memories == old(memories) - {old(memory)}
    {
      if memory != 0 {
        UnmapMemory();
        UnrefMemory();
        memory := 0;
      }
      if sample != 0 {
        UnrefSample();
        sample := 0;
      }
    }

    method Stop()
      requires Valid()
      modifies this`sample, this`memory, this`pipeline, this`samples, this`memories, this`maps
      ensures Valid() && sample == 0 == memory && !pipeline
      ensures samples == old(samples) - {old(sample)} && memories == old(memories) - {old(memory)}
    {
      Release();
      pipeline := false;
    }
  }

  /** One turn of the loop: whether it is to stop, what the grab meets, and how many frames
      the source has pushed when the loop looks. */
  datatype Turn = Turn(stop: bool, pull: Pull, pushes: nat)

  predicate Delivers(t: Turn) {
    t.pull.Mapped? && t.pull.size > 0
  }

  /** Turns before the loop stops. */
  function Executed(turns: seq<Turn>): (k: nat)
    ensures k <= |turns|
    ensures forall i :: 0 <= i < k ==> !turns[i].stop
    ensures k < |turns| ==> turns[k].stop
  {
    if turns == [] || turns[0].stop then 0 else 1 + Executed(turns[1..])
  }

  /** Frames delivered in the first k turns. */
  function Deliveries(turns: seq<Turn>, k: nat): nat
    requires k <= |turns|
  {
    if k == 0 then 0 else Deliveries(turns, k - 1) + (if Delivers(turns[k - 1]) then 1 else 0)
  }

  function EmptyFrames(turns: seq<Turn>, k: nat): nat
    requires k <= |turns|
  {
    if k == 0 then 0 else EmptyFrames(turns, k - 1) + (if IsEmptyFrame(turns[k - 1].pull) then 1 else 0)
  }

  /** Whether the memory of the last empty frame is still stored: turns without sample or
      buffer leave it alone, all others let go of it. */
  predicate MemoryHeld(turns: seq<Turn>, k: nat)
    requires k <= |turns|
  {
    k > 0 &&
      match turns[k - 1].pull
      case Mapped(size) => size == 0
      case NoSample => MemoryHeld(turns, k - 1)
      case NoBuffer => MemoryHeld(turns, k - 1)
      case _ => false
  }

  /** The push count seen by the last delivery among the first k turns. */
  function LastSeen(turns: seq<Turn>, k: nat): nat
    requires k <= |turns|
  {
    if k == 0 then 0 else if Delivers(turns[k - 1]) then turns[k - 1].pushes else LastSeen(turns, k - 1)
  }

  /** Deliveries that saw no push since the one before. */
  function IdleDeliveries(turns: seq<Turn>, k: nat): nat
    requires k <= |turns|
  {
    if k == 0 then 0
    else IdleDeliveries(turns, k - 1) + (if Delivers(turns[k - 1]) && turns[k - 1].pushes == LastSeen(turns, k - 1) then 1 else 0)
  }

  /** The push counter only grows, fits its 64 bits, and counts every frame before it is delivered. */
  predicate Plausible(turns: seq<Turn>) {
    && (forall i, j :: 0 <= i <= j < |turns| ==> turns[i].pushes <= turns[j].pushes)
    && (forall i :: 0 <= i < |turns| ==> turns[i].pushes < WRAP && Deliveries(turns, i + 1) <= turns[i].pushes)
  }

  lemma LastSeenBound(turns: seq<Turn>, k: nat, i: nat)
    requires Plausible(turns) && k <= i < |turns|
    ensures LastSeen(turns, k) <= turns[i].pushes
  {}

  class Driver {
    const backend: GstBackend
    var nPull: nat
    var lastPushSeen: nat
    var totalDrops: nat

    constructor (b: GstBackend)
      ensures backend == b && nPull == 0 == lastPushSeen == totalDrops
    {
      backend := b;
      nPull, lastPushSeen, totalDrops := 0, 0, 0;
    }

    /** Counts a delivered frame, and as dropped the pushes beyond it since the last one; the
        difference of the two 64-bit counters wraps. */
    method Account(pushNow: nat)
      requires lastPushSeen <= pushNow < WRAP
      modifies this
      ensures nPull == old(nPull) + 1 && lastPushSeen == pushNow
      ensures var since := pushNow - old(lastPushSeen);
              totalDrops == old(totalDrops) + (if since > 1 then since - 1 else 0)
    {
      nPull := nPull + 1;
      var pushedSince := (pushNow - lastPushSeen) % WRAP;
      lastPushSeen := pushNow;
      if pushedSince > 1 {
        var drops := pushedSince - 1;
        totalDrops := totalDrops + drops;
      }
    }

    /** One turn: grab, and for a valid frame account, publish and release. */
    method Iterate(turn: Turn)
      requires backend.Valid() && lastPushSeen <= turn.pushes < WRAP
      modifies this, backend`sample, backend`memory, backend`taken, backend`samples, backend`memories, backend`maps
      ensures backend.Valid()
      ensures Delivers(turn) ==>
                && nPull == old(nPull) + 1 && lastPushSeen == turn.pushes
                && totalDrops == old(totalDrops) + (if turn.pushes - old(lastPushSeen) > 1 then turn.pushes - old(lastPushSeen) - 1 else 0)
      ensures !Delivers(turn) ==> nPull == old(nPull) && lastPushSeen == old(lastPushSeen) && totalDrops == old(totalDrops)
      ensures !IsEmptyFrame(turn.pull) ==> backend.sample == 0 && backend.samples == old(backend.samples) && backend.memories == old(backend.memories)
      ensures IsEmptyFrame(turn.pull) ==>
                backend.sample != 0 && |backend.samples| == |old(backend.samples)| + 1 && |backend.memories| == |old(backend.memories)| + 1
      ensures backend.memory != 0 <==> IsEmptyFrame(turn.pull) || ((turn.pull.NoSample? || turn.pull.NoBuffer?) && old(backend.memory) != 0)
    {
      var frame := backend.Grab(turn.pull);
      if frame.Valid() {
        Account(turn.pushes);
        backend.Release();
        assert backend.samples == old(backend.samples) && backend.memories == old(backend.memories);
      }
    }

    /** The capture loop, from its start. At its end the counters bracket the pushes seen, the
        slack being the idle deliveries; and the references still held are exactly those of the
        empty frames, one sample and one memory each. */
    method Loop(turns: seq<Turn>) returns (k: nat)
      requires Plausible(turns) && backend.Valid() && backend.sample == 0 == backend.memory
      requires backend.samples == {} == backend.memories
      requires nPull == 0 == lastPushSeen == totalDrops
      modifies this, backend`sample, backend`memory, backend`taken, backend`samples, backend`memories, backend`maps
      ensures k == Executed(turns)
      ensures nPull == Deliveries(turns, k) && lastPushSeen == LastSeen(turns, k)
      ensures nPull <= lastPushSeen <= nPull + totalDrops
      ensures nPull + totalDrops == lastPushSeen + IdleDeliveries(turns, k)
      ensures backend.Valid()
      ensures |backend.samples| == |backend.memories| == EmptyFrames(turns, k)
      ensures backend.sample != 0 <==> k > 0 && IsEmptyFrame(turns[k - 1].pull)
      ensures backend.memory != 0 <==> MemoryHeld(turns, k)
    {
      k := 0;
      while k < |turns| && !turns[k].stop
        invariant k <= |turns| && forall i :: 0 <= i < k ==> !turns[i].stop
        invariant nPull == Deliveries(turns, k) && lastPushSeen == LastSeen(turns, k)
        invariant nPull <= lastPushSeen
        invariant nPull + totalDrops == lastPushSeen + IdleDeliveries(turns, k)
        invariant backend.Valid()
        invariant |backend.samples| == |backend.memories| == EmptyFrames(turns, k)
        invariant backend.sample != 0 <==> k > 0 && IsEmptyFrame(turns[k - 1].pull)
        invariant backend.memory != 0 <==> MemoryHeld(turns, k)
      {
        LastSeenBound(turns, k, k);
        Iterate(turns[k]);
        k := k + 1;
      }
      ExecutedIs(turns, k);
    }

    /** The loop and the shutdown after it: each empty frame loses its sample and its memory,
        except that the shutdown still finds the sample of a last turn and the memory that no
        later turn has let go of. */
    method LoopAndStop(turns: seq<Turn>) returns (k: nat)
      requires Plausible(turns) && backend.Valid() && backend.sample == 0 == backend.memory
      requires backend.samples == {} == backend.memories
      requires nPull == 0 == lastPushSeen == totalDrops
      modifies this, backend`sample, backend`memory, backend`taken, backend`samples, backend`memories, backend`maps, backend`pipeline
      ensures k == Executed(turns) && backend.Valid() && backend.sample == 0 == backend.memory && !backend.pipeline
      ensures |backend.samples| == EmptyFrames(turns, k) - (if k > 0 && IsEmptyFrame(turns[k - 1].pull) then 1 else 0)
      ensures |backend.memories| == EmptyFrames(turns, k) - (if MemoryHeld(turns, k) then 1 else 0)
      ensures EmptyFrames(turns, k) == 0 ==> backend.samples == {} == backend.memories
    {
      k := Loop(turns);
      Without(backend.samples, backend.sample);
      Without(backend.memories, backend.memory);
      backend.Stop();
    }
  }

  lemma Without(all: set<nat>, x: nat)
    ensures |all - {x}| == if x in all then |all| - 1 else |all|
  {
    assert x !in all ==> all - {x} == all;
  }

  lemma ExecutedIs(turns: seq<Turn>, k: nat)
    requires k <= |turns| && (forall i :: 0 <= i < k ==> !turns[i].stop) && (k < |turns| ==> turns[k].stop)
    ensures k == Executed(turns)
  {}

  /** Two empty frames in a row and then none: the sample of both and the memory of the first
      are lost for good. */
  method EmptyFramesLeak() returns (backend: GstBackend)
    ensures backend.sample == 0 == backend.memory && |backend.samples| == 2 && |backend.memories| == 1
  {
    backend := new GstBackend();
    var driver := new Driver(backend);
    var turns := [Turn(false, Mapped(0), 1), Turn(false, Mapped(0), 2), Turn(false, NoSample, 2)];
    assert Deliveries(turns, 1) == 0 == Deliveries(turns, 2) == Deliveries(turns, 3);
    assert EmptyFrames(turns, 1) == 1 && EmptyFrames(turns, 2) == 2 == EmptyFrames(turns, 3);
    assert MemoryHeld(turns, 2) && MemoryHeld(turns, 3);
    ExecutedIs(turns, 3);
    var k := driver.LoopAndStop(turns);
  }
}
