/** The flight recorder under any interleaving of logging threads. Each step is one atomic
    operation or one store; two counters hand out slots and sequence numbers. */
module Recorder {
  import opened Wrapping

  datatype Record = Record(serial: nat, header: nat, capture: nat, cbk: nat, pub: nat, capDone: bool, rosDone: bool)

  /** A freshly allocated file reads as zeroes. */
  const BLANK := Record(0, 0, 0, 0, 0, false, false)

  /** A call of log_cbk: the thread and its two arguments. */
  datatype Call = Call(thread: nat, header: nat, capture: nat)

  /** Where a thread is between entering log_cbk and leaving log_pub. While it is in log_cbk it has
      the arguments of its call on its own stack. */
  datatype Phase =
    | Idle
    | Claimed(slot: nat, call: Call)
    | Filling(slot: nat, number: nat, stores: nat, call: Call)
    | Holding(slot: nat)
    | Stamped(slot: nat)

  /** `calls` lists all calls of log_cbk in the order of their claims, `numbered` the slots in
      the order in which they got sequence numbers, `pending` those claimed but not numbered. */
  datatype State = State(
    idx: nat, serials: nat, clock: nat, records: seq<Record>, phases: map<nat, Phase>,
    calls: seq<Call>, numbered: seq<nat>, pending: set<nat>)

  function PhaseOf(s: State, t: nat): Phase {
    if t in s.phases then s.phases[t] else Idle
  }

  function Initial(n: nat): State {
    State(0, 0, 0, seq(n, _ => BLANK), map[], [], [], {})
  }

  datatype Step =
    | Claim(thread: nat, header: nat, capture: nat)
    | Number(thread: nat)
    | Store(thread: nat)
    | StampPub(thread: nat)
    | FinishPub(thread: nat)
    | Forget(thread: nat)
    | Tick(elapsed: nat)

  predicate Enabled(s: State, step: Step) {
    match step
    case Claim(t, _, _) => PhaseOf(s, t).Idle?
    case Number(t) => PhaseOf(s, t).Claimed?
    case Store(t) => PhaseOf(s, t).Filling? && PhaseOf(s, t).slot < |s.records|
    case StampPub(t) => PhaseOf(s, t).Holding? && PhaseOf(s, t).slot < |s.records|
    case FinishPub(t) => PhaseOf(s, t).Stamped? && PhaseOf(s, t).slot < |s.records|
    case Forget(t) => PhaseOf(s, t).Holding?
    case Tick(_) => true
  }

  /** The k-th store of log_cbk. */
  function Stored(r: Record, k: nat, number: nat, call: Call, clock: nat): Record {
    match k
    case 0 => r.(serial := number)
    case 1 => r.(header := call.header)
    case 2 => r.(capture := call.capture)
    case 3 => r.(cbk := clock)
    case 4 => r.(pub := 0)
    case 5 => r.(capDone := true)
    case _ => r.(rosDone := false)
  }

  const STORES := 7

  /** Reduction to 64 bits. */
  function Wrapped(x: nat): nat {
    x % WRAP
  }

  /** fetch_add returns the old value; log_cbk gives up on an index past the end. */
  function ClaimSlot(s: State, t: nat, header: nat, capture: nat): State {
    var i := s.idx;
    var call := Call(t, header, capture);
    var next := s.(idx := Wrapped(i + 1), calls := s.calls + [call]);
    if i < |s.records| then next.(phases := s.phases[t := Claimed(i, call)], pending := s.pending + {i}) else next
  }

  function TakeNumber(s: State, t: nat, i: nat, call: Call): State {
    var value := Wrapped(s.serials + 1);
    s.(serials := value, phases := s.phases[t := Filling(i, value, 0, call)], numbered := s.numbered + [i], pending := s.pending - {i})
  }

  /** A store into the record of slot i, after which the thread is in phase `next`. */
  function WriteSlot(s: State, t: nat, i: nat, r: Record, next: Phase): State
    requires i < |s.records|
  {
    s.(records := s.records[i := r], phases := s.phases[t := next])
  }

  function AfterStore(p: Phase): Phase
    requires p.Filling?
  {
    if p.stores + 1 == STORES then Holding(p.slot) else Filling(p.slot, p.number, p.stores + 1, p.call)
  }

  function Apply(s: State, step: Step): (s': State)
    requires Enabled(s, step)
    ensures |s'.records| == |s.records|
  {
    match step
    case Claim(t, h, c) => ClaimSlot(s, t, h, c)
    case Number(t) => TakeNumber(s, t, PhaseOf(s, t).slot, PhaseOf(s, t).call)
    case Store(t) =>
      var p := PhaseOf(s, t);
      WriteSlot(s, t, p.slot, Stored(s.records[p.slot], p.stores, p.number, p.call, s.clock), AfterStore(p))
    case StampPub(t) =>
      var i := PhaseOf(s, t).slot;
      WriteSlot(s, t, i, s.records[i].(pub := s.clock), Stamped(i))
    case FinishPub(t) =>
      var i := PhaseOf(s, t).slot;
      WriteSlot(s, t, i, s.records[i].(rosDone := true), Idle)
    case Forget(t) => s.(phases := s.phases[t := Idle])
    case Tick(elapsed) => s.(clock := s.clock + elapsed)
  }

  // ----- runs -----

  predicate RunEnabled(s: State, steps: seq<Step>)
    decreases |steps|
  {
    steps != [] ==> Enabled(s, steps[0]) && RunEnabled(Apply(s, steps[0]), steps[1..])
  }

  function Run(s: State, steps: seq<Step>): (s': State)
    requires RunEnabled(s, steps)
    ensures |s'.records| == |s.records|
    decreases |steps|
  {
    if steps == [] then s else Run(Apply(s, steps[0]), steps[1..])
  }

  function Min(a: nat, b: nat): nat {
    if a < b then a else b
  }

  function Used(s: State): nat {
    Min(|s.calls|, |s.records|)
  }

  // ----- the invariant -----

  predicate Counters(s: State) {
    s.idx == Wrapped(|s.calls|) && s.serials == Wrapped(|s.numbered|) && |s.records| < WRAP
  }

  /** The slots below the mark are numbered, each once, or pending. */
  predicate Counting(used: nat, numbered: seq<nat>, pending: set<nat>) {
    && |numbered| + |pending| == used
    && (forall k :: 0 <= k < |numbered| ==> numbered[k] < used && numbered[k] !in pending)
    && (forall j, k :: 0 <= j < k < |numbered| ==> numbered[j] != numbered[k])
    && (forall i :: i in pending ==> i < used)
  }

  /** The phase of a thread fits the slot it names, which it has claimed itself. */
  predicate PhaseOk(p: Phase, t: nat, used: nat, calls: seq<Call>, numbered: seq<nat>, pending: set<nat>)
    requires used <= |calls|
  {
    !p.Idle? ==>
      && p.slot < used && calls[p.slot].thread == t && (p.Claimed? || p.Filling? ==> p.call == calls[p.slot])
      && (p.Claimed? <==> p.slot in pending)
      && (p.Filling? ==> p.stores < STORES && 0 < p.number <= |numbered| && numbered[p.number - 1] == p.slot)
  }

  predicate Phases(s: State) {
    && (forall t :: t in s.phases ==> PhaseOk(s.phases[t], t, Used(s), s.calls, s.numbered, s.pending))
    && (forall i :: i in s.pending ==> i < Used(s) && PhaseOf(s, s.calls[i].thread) == Claimed(i, s.calls[i]))
  }

  /** How far the record in slot i has been filled when the thread that claimed it is in phase p. */
  function Filled(p: Phase, i: nat): nat {
    if p.Claimed? && p.slot == i then 0 else if p.Filling? && p.slot == i then p.stores else STORES
  }

  predicate RecordOk(r: Record, i: nat, call: Call, p: Phase, numbered: seq<nat>, clock: nat) {
    var f := Filled(p, i);
    && (f >= 1 ==> 0 < r.serial <= |numbered| && numbered[r.serial - 1] == i)
    && (f >= 2 ==> r.header == call.header)
    && (f >= 3 ==> r.capture == call.capture)
    && (f >= 4 ==> r.cbk <= clock)
    && (r.capDone <==> f >= 6)
    && (f < STORES || p == Holding(i) || p == Stamped(i) ==> !r.rosDone)
    && (r.rosDone || p == Stamped(i) ==> r.cbk <= r.pub <= clock)
  }

  predicate Records(s: State) {
    && (forall i :: 0 <= i < Used(s) ==> RecordOk(s.records[i], i, s.calls[i], PhaseOf(s, s.calls[i].thread), s.numbered, s.clock))
    && (forall i :: Used(s) <= i < |s.records| ==> s.records[i] == BLANK)
  }

  predicate Invariant(s: State) {
    Counters(s) && Counting(Used(s), s.numbered, s.pending) && Phases(s) && Records(s)
  }

  lemma InitialInvariant(n: nat)
    requires n < WRAP
    ensures Invariant(Initial(n))
  {}

  lemma SmallRemainder(x: nat)
    ensures x < WRAP ==> Wrapped(x) == x
    ensures Wrapped(x + 1) == Wrapped(Wrapped(x) + 1)
  {}

  // ----- one record -----

  /** The phase p does not concern slot i. */
  predicate Foreign(p: Phase, i: nat) {
    p.Idle? || p.slot != i
  }

  lemma RecordStays(r: Record, i: nat, call: Call, p: Phase, p': Phase, numbered: seq<nat>, numbered': seq<nat>, clock: nat, clock': nat)
    requires RecordOk(r, i, call, p, numbered, clock)
    requires p == p' || (Foreign(p, i) && Foreign(p', i))
    requires numbered <= numbered' && clock <= clock'
    ensures RecordOk(r, i, call, p', numbered', clock')
  {}

  lemma RecordStored(r: Record, i: nat, call: Call, p: Phase, numbered: seq<nat>, clock: nat)
    requires p.Filling? && p.slot == i && p.call == call && p.stores < STORES && RecordOk(r, i, call, p, numbered, clock)
    requires 0 < p.number <= |numbered| && numbered[p.number - 1] == i
    ensures RecordOk(Stored(r, p.stores, p.number, call, clock), i, call, AfterStore(p), numbered, clock)
  {}

  // ----- preservation -----

  lemma ClaimKeeps(s: State, t: nat, h: nat, c: nat)
    requires Invariant(s) && |s.calls| < WRAP && PhaseOf(s, t).Idle?
    ensures Invariant(ClaimSlot(s, t, h, c))
  {
    hide Wrapped, RecordOk;
    SmallRemainder(|s.calls|);
    if s.idx < |s.records| {
      ClaimInRange(s, t, h, c);
    } else {
      ClaimPastEnd(s, t, h, c);
    }
  }

  lemma ClaimInRange(s: State, t: nat, h: nat, c: nat)
    requires Invariant(s) && PhaseOf(s, t).Idle? && s.idx == |s.calls| < |s.records|
    requires Wrapped(|s.calls| + 1) == Wrapped(s.idx + 1)
    ensures Invariant(ClaimSlot(s, t, h, c))
  {
    hide Wrapped, Counting, Phases, Records;
    CountingClaim(s.idx, s.numbered, s.pending);
    PhasesAfterClaim(s, t, h, c);
    RecordsAfterClaim(s, t, h, c);
  }

  lemma CountingClaim(i: nat, numbered: seq<nat>, pending: set<nat>)
    requires Counting(i, numbered, pending)
    ensures Counting(i + 1, numbered, pending + {i})
  {}

  lemma PhasesAfterClaim(s: State, t: nat, h: nat, c: nat)
    requires Counting(Used(s), s.numbered, s.pending) && Phases(s) && PhaseOf(s, t).Idle? && s.idx == |s.calls| < |s.records|
    ensures Phases(ClaimSlot(s, t, h, c))
  {
    hide Wrapped, PhaseOk;
    var i, s' := |s.calls|, ClaimSlot(s, t, h, c);
    CountingBelow(i, s.numbered, s.pending);
    forall u | u in s'.phases
      ensures PhaseOk(s'.phases[u], u, Used(s'), s'.calls, s'.numbered, s'.pending)
    {
      if u == t {
        PhaseClaimed(i, t, s'.calls, s'.numbered, s'.pending);
      } else {
        PhaseBelow(s.phases[u], u, i, s.calls, s.numbered, s.pending);
        PhaseStays(s.phases[u], u, i, i + 1, s.calls, s'.calls, s.numbered, s.numbered, s.pending, s'.pending);
      }
    }
    PendingAfterClaim(s, t, h, c);
  }

  lemma PendingAfterClaim(s: State, t: nat, h: nat, c: nat)
    requires Phases(s) && PhaseOf(s, t).Idle? && s.idx == |s.calls| < |s.records|
    ensures var s' := ClaimSlot(s, t, h, c);
            forall k :: k in s'.pending ==> k < Used(s') && PhaseOf(s', s'.calls[k].thread) == Claimed(k, s'.calls[k])
  {
    hide Wrapped, PhaseOk;
    var s' := ClaimSlot(s, t, h, c);
    forall k | k in s'.pending
      ensures k < Used(s') && PhaseOf(s', s'.calls[k].thread) == Claimed(k, s'.calls[k])
    {
      if k != |s.calls| {
        assert k in s.pending && s'.calls[k] == s.calls[k];
      }
    }
  }

  lemma PhaseBelow(p: Phase, t: nat, used: nat, calls: seq<Call>, numbered: seq<nat>, pending: set<nat>)
    requires used <= |calls| && PhaseOk(p, t, used, calls, numbered, pending)
    ensures !p.Idle? ==> p.slot < used
  {}

  lemma CountingBelow(used: nat, numbered: seq<nat>, pending: set<nat>)
    requires Counting(used, numbered, pending)
    ensures used !in pending && used !in numbered && |numbered| <= used
    ensures forall i :: i in pending ==> i < used
  {}

  lemma PhaseClaimed(i: nat, t: nat, calls: seq<Call>, numbered: seq<nat>, pending: set<nat>)
    requires i < |calls| && calls[i].thread == t && i in pending
    ensures PhaseOk(Claimed(i, calls[i]), t, i + 1, calls, numbered, pending)
  {}

  /** A phase stays right when others claim or number slots. */
  lemma PhaseStays(p: Phase, t: nat, used: nat, used': nat, calls: seq<Call>, calls': seq<Call>,
                   numbered: seq<nat>, numbered': seq<nat>, pending: set<nat>, pending': set<nat>)
    requires used <= |calls| && used' <= |calls'| && used <= used' && calls <= calls' && numbered <= numbered'
    requires PhaseOk(p, t, used, calls, numbered, pending) && (!p.Idle? ==> (p.slot in pending <==> p.slot in pending'))
    ensures PhaseOk(p, t, used', calls', numbered', pending')
  {}

  lemma RecordsAfterClaim(s: State, t: nat, h: nat, c: nat)
    requires Records(s) && PhaseOf(s, t).Idle? && s.idx == |s.calls| < |s.records|
    ensures Records(ClaimSlot(s, t, h, c))
  {}

  lemma ClaimPastEnd(s: State, t: nat, h: nat, c: nat)
    requires Invariant(s) && s.idx == |s.calls| >= |s.records|
    requires Wrapped(|s.calls| + 1) == Wrapped(s.idx + 1)
    ensures Invariant(ClaimSlot(s, t, h, c))
  {}

  lemma NumberKeeps(s: State, t: nat, i: nat, call: Call)
    requires Invariant(s) && t in s.phases && s.phases[t] == Claimed(i, call)
    ensures Invariant(TakeNumber(s, t, i, call))
  {
    hide Wrapped;
    PhaseIs(s, t);
    hide Phases, Records, PhaseOk;
    SmallRemainder(|s.numbered|);
    CountingNumber(Used(s), s.numbered, s.pending, i);
    SmallRemainder(|s.numbered| + 1);
    hide Counting;
    PhasesAfterNumber(s, t, i, call);
    RecordsAfterNumber(s, t, i, call);
  }

  lemma PhaseIs(s: State, t: nat)
    requires Phases(s) && t in s.phases
    ensures PhaseOk(s.phases[t], t, Used(s), s.calls, s.numbered, s.pending)
  {}

  lemma CountingNumber(used: nat, numbered: seq<nat>, pending: set<nat>, i: nat)
    requires Counting(used, numbered, pending) && i in pending
    ensures Counting(used, numbered + [i], pending - {i}) && |numbered| < used
  {
    assert |pending - {i}| == |pending| - 1;
  }

  lemma PhasesAfterNumber(s: State, t: nat, i: nat, call: Call)
    requires Phases(s) && t in s.phases && s.phases[t] == Claimed(i, call) && i in s.pending
    requires Wrapped(s.serials + 1) == |s.numbered| + 1
    ensures Phases(TakeNumber(s, t, i, call))
  {
    hide Wrapped;
    PhaseIs(s, t);
    var s' := TakeNumber(s, t, i, call);
    forall u | u in s'.phases
      ensures PhaseOk(s'.phases[u], u, Used(s'), s'.calls, s'.numbered, s'.pending)
    {
      PhaseIs(s, u);
      if u != t {
        PhaseStays(s.phases[u], u, Used(s), Used(s), s.calls, s.calls, s.numbered, s'.numbered, s.pending, s'.pending);
      }
    }
  }

  lemma RecordsAfterNumber(s: State, t: nat, i: nat, call: Call)
    requires Records(s) && Phases(s) && t in s.phases && s.phases[t] == Claimed(i, call)
    ensures Records(TakeNumber(s, t, i, call))
  {
    hide Wrapped, RecordOk;
    PhaseIs(s, t);
    hide Phases;
    var s' := TakeNumber(s, t, i, call);
    forall k | 0 <= k < Used(s')
      ensures RecordOk(s'.records[k], k, s'.calls[k], PhaseOf(s', s'.calls[k].thread), s'.numbered, s'.clock)
    {
      if k == i {
        ClaimedIsFilling(s.records[i], i, s.calls[i], s'.phases[t], s.numbered, s'.numbered, s.clock);
      } else {
        RecordStays(s.records[k], k, s.calls[k], PhaseOf(s, s.calls[k].thread), PhaseOf(s', s.calls[k].thread), s.numbered, s'.numbered, s.clock, s.clock);
      }
    }
  }

  lemma ClaimedIsFilling(r: Record, i: nat, call: Call, p: Phase, numbered: seq<nat>, numbered': seq<nat>, clock: nat)
    requires RecordOk(r, i, call, Claimed(i, call), numbered, clock) && p.Filling? && p.slot == i && p.stores == 0
    ensures RecordOk(r, i, call, p, numbered', clock)
  {}

  /** A thread that stores into the record of its own slot, and stays with that slot or leaves it. */
  lemma WriteKeeps(s: State, t: nat, i: nat, r: Record, next: Phase)
    requires Invariant(s) && t in s.phases && !s.phases[t].Idle? && !s.phases[t].Claimed? && s.phases[t].slot == i
    requires PhaseOk(next, t, Used(s), s.calls, s.numbered, s.pending) && (next.Idle? || next.slot == i)
    requires i < Used(s) && RecordOk(r, i, s.calls[i], next, s.numbered, s.clock)
    ensures Invariant(WriteSlot(s, t, i, r, next))
  {
    var s' := WriteSlot(s, t, i, r, next);
    assert s.calls[i].thread == t;
    assert Phases(s');
    hide RecordOk;
    forall k | 0 <= k < Used(s')
      ensures RecordOk(s'.records[k], k, s'.calls[k], PhaseOf(s', s'.calls[k].thread), s'.numbered, s'.clock)
    {
      if k != i {
        RecordStays(s.records[k], k, s.calls[k], PhaseOf(s, s.calls[k].thread), PhaseOf(s', s.calls[k].thread), s.numbered, s.numbered, s.clock, s.clock);
      }
    }
  }

  lemma StoreKeeps(s: State, t: nat)
    requires Invariant(s) && PhaseOf(s, t).Filling?
    ensures PhaseOf(s, t).slot < |s.records| && Invariant(Apply(s, Store(t)))
  {
    var p := PhaseOf(s, t);
    RecordStored(s.records[p.slot], p.slot, s.calls[p.slot], p, s.numbered, s.clock);
    WriteKeeps(s, t, p.slot, Stored(s.records[p.slot], p.stores, p.number, p.call, s.clock), AfterStore(p));
    hide Invariant, RecordOk, Stored;
  }

  lemma PublishKeeps(s: State, t: nat, step: Step)
    requires Invariant(s) && Enabled(s, step) && (step == StampPub(t) || step == FinishPub(t) || step == Forget(t))
    ensures Invariant(Apply(s, step))
  {
    var i := PhaseOf(s, t).slot;
    var r, call := s.records[i], s.calls[i];
    var next, written := (if step.StampPub? then Stamped(i) else Idle),
      if step.StampPub? then r.(pub := s.clock) else if step.FinishPub? then r.(rosDone := true) else r;
    RecordPublished(r, i, call, PhaseOf(s, t), written, next, s.numbered, s.clock);
    WriteKeeps(s, t, i, written, next);
    assert s.records == s.records[i := r];
    hide Invariant, RecordOk;
  }

  lemma RecordPublished(r: Record, i: nat, call: Call, p: Phase, written: Record, next: Phase, numbered: seq<nat>, clock: nat)
    requires RecordOk(r, i, call, p, numbered, clock)
    requires (p == Holding(i) && next == Stamped(i) && written == r.(pub := clock))
          || (p == Stamped(i) && next == Idle && written == r.(rosDone := true))
          || (p == Holding(i) && next == Idle && written == r)
    ensures RecordOk(written, i, call, next, numbered, clock)
  {}

  lemma StepKeepsInvariant(s: State, step: Step)
    requires Invariant(s) && Enabled(s, step) && (step.Claim? ==> |s.calls| < WRAP)
    ensures Invariant(Apply(s, step))
    ensures |Apply(s, step).calls| == |s.calls| + (if step.Claim? then 1 else 0) && |Apply(s, step).records| == |s.records|
  {
    hide Invariant;
    match step
    case Claim(t, h, c) => ClaimKeeps(s, t, h, c);
    case Number(t) => NumberKeeps(s, t, PhaseOf(s, t).slot, PhaseOf(s, t).call);
    case Store(t) => StoreKeeps(s, t);
    case StampPub(t) => PublishKeeps(s, t, step);
    case FinishPub(t) => PublishKeeps(s, t, step);
    case Forget(t) => PublishKeeps(s, t, step);
    case Tick(elapsed) => TickKeeps(s, elapsed);
  }

  lemma TickKeeps(s: State, elapsed: nat)
    requires Invariant(s)
    ensures Invariant(s.(clock := s.clock + elapsed))
  {}

  /** The number of claims among the steps. */
  function Claims(steps: seq<Step>): nat {
    if steps == [] then 0 else (if steps[0].Claim? then 1 else 0) + Claims(steps[1..])
  }

  /** The invariant holds after every run with fewer than 2^64 calls. */
  lemma {:induction false} RunsKeepInvariant(s: State, steps: seq<Step>)
    requires Invariant(s) && RunEnabled(s, steps) && |s.calls| + Claims(steps) < WRAP
    ensures Invariant(Run(s, steps)) && |Run(s, steps).calls| == |s.calls| + Claims(steps) && |Run(s, steps).records| == |s.records|
    decreases |steps|
  {
    hide Invariant, Apply, Enabled;
    if steps != [] {
      StepKeepsInvariant(s, steps[0]);
      RunsKeepInvariant(Apply(s, steps[0]), steps[1..]);
    }
  }

  // ----- what every run guarantees -----

  /** No slot is in the hands of two threads, and what a thread holds lies below the mark. */
  lemma NoSlotTwice(n: nat, steps: seq<Step>, t: nat, u: nat)
    requires n < WRAP && RunEnabled(Initial(n), steps) && Claims(steps) < WRAP
    ensures var s := Run(Initial(n), steps);
            !PhaseOf(s, t).Idle? && !PhaseOf(s, u).Idle? && PhaseOf(s, t).slot == PhaseOf(s, u).slot ==> t == u
  {
    InitialInvariant(n);
    RunsKeepInvariant(Initial(n), steps);
    hide Initial, Run, RunEnabled, Counters, Counting, Records;
  }

  /** A claim hands out a slot that no earlier claim of the run got. */
  lemma ClaimIsFresh(n: nat, steps: seq<Step>, t: nat, h: nat, c: nat)
    requires n < WRAP && RunEnabled(Initial(n), steps) && Claims(steps) < WRAP
    requires PhaseOf(Run(Initial(n), steps), t).Idle?
    ensures var s := Run(Initial(n), steps);
            var p := PhaseOf(ClaimSlot(s, t, h, c), t);
            if Claims(steps) < n then p == Claimed(Claims(steps), Call(t, h, c)) else p.Idle?
  {
    hide Run, RunEnabled, Invariant, ClaimSlot, Wrapped;
    InitialInvariant(n);
    RunsKeepInvariant(Initial(n), steps);
    NextSlot(Run(Initial(n), steps), t, h, c);
  }

  lemma NextSlot(s: State, t: nat, h: nat, c: nat)
    requires Invariant(s) && |s.calls| < WRAP && PhaseOf(s, t).Idle?
    ensures PhaseOf(ClaimSlot(s, t, h, c), t) == if |s.calls| < |s.records| then Claimed(|s.calls|, Call(t, h, c)) else PhaseOf(s, t)
  {
    hide Counting, Phases, Records;
    SmallRemainder(|s.calls|);
    hide Wrapped;
  }

  /** The counters count, modulo 2^64, however long the run. */
  predicate Counted(s: State) {
    s.idx == Wrapped(|s.calls|) && s.serials == Wrapped(|s.numbered|)
  }

  lemma StepCounts(s: State, step: Step)
    requires Counted(s) && Enabled(s, step)
    ensures Counted(Apply(s, step)) && |Apply(s, step).calls| == |s.calls| + (if step.Claim? then 1 else 0)
  {
    SmallRemainder(|s.calls|);
    SmallRemainder(|s.numbered|);
    hide Wrapped;
  }

  lemma {:induction false} RunsCount(s: State, steps: seq<Step>)
    requires Counted(s) && RunEnabled(s, steps)
    ensures Counted(Run(s, steps)) && |Run(s, steps).calls| == |s.calls| + Claims(steps)
    decreases |steps|
  {
    hide Counted, Apply, Enabled;
    if steps != [] {
      StepCounts(s, steps[0]);
      RunsCount(Apply(s, steps[0]), steps[1..]);
    }
  }

  /** After any run with 2^64 calls the next claim gets slot 0 again. */
  lemma WrapReusesSlots(n: nat, steps: seq<Step>, t: nat, h: nat, c: nat)
    requires 0 < n && RunEnabled(Initial(n), steps) && Claims(steps) == 0x1_0000_0000_0000_0000
    ensures PhaseOf(ClaimSlot(Run(Initial(n), steps), t, h, c), t) == Claimed(0, Call(t, h, c))
  {
    SmallRemainder(0);
    RunsCount(Initial(n), steps);
    hide RunEnabled, Run, Claims;
  }

  /** Calls of log_cbk by the threads k, k + 1, ..., each of which stops at its claim. */
  function Calls(k: nat, m: nat): seq<Step>
    decreases m
  {
    if m == 0 then [] else [Claim(k, 0, 0)] + Calls(k + 1, m - 1)
  }

  lemma {:induction false} CallsRun(s: State, k: nat, m: nat)
    requires forall t :: t in s.phases ==> t < k
    ensures RunEnabled(s, Calls(k, m)) && Claims(Calls(k, m)) == m
    ensures forall t :: t in s.phases ==> PhaseOf(Run(s, Calls(k, m)), t) == PhaseOf(s, t)
    ensures forall t :: t in Run(s, Calls(k, m)).phases ==> t < k + m
    decreases m
  {
    if m != 0 {
      CallsRest(k, m);
      CallsRun(Apply(s, Claim(k, 0, 0)), k + 1, m - 1);
    }
  }

  /** Such a run exists, and the claim after it puts slot 0 into the hands of two threads. */
  lemma SlotTwiceAfterWrap(n: nat)
    requires 0 < n < WRAP
    ensures RunEnabled(Initial(n), Calls(0, WRAP)) && Claims(Calls(0, WRAP)) == WRAP
    ensures var s := ClaimSlot(Run(Initial(n), Calls(0, WRAP)), WRAP, 0, 0);
            PhaseOf(s, 0) == Claimed(0, Call(0, 0, 0)) && PhaseOf(s, WRAP) == Claimed(0, Call(WRAP, 0, 0))
  {
    hide RunEnabled, Run, Claims, Calls, Wrapped;
    CallsRun(Initial(n), 0, WRAP);
    FirstCall(Initial(n), WRAP);
    WrapReusesSlots(n, Calls(0, WRAP), WRAP, 0, 0);
    ClaimKeepsOthers(Run(Initial(n), Calls(0, WRAP)), WRAP, 0);
  }

  lemma ClaimKeepsOthers(s: State, t: nat, u: nat)
    requires t != u
    ensures PhaseOf(ClaimSlot(s, t, 0, 0), u) == PhaseOf(s, u)
  {
    hide Wrapped;
  }

  lemma FirstCall(s: State, m: nat)
    requires s.idx == 0 < |s.records| && s.phases == map[] && 0 < m && RunEnabled(s, Calls(0, m))
    ensures PhaseOf(Run(s, Calls(0, m)), 0) == Claimed(0, Call(0, 0, 0))
    ensures m !in Run(s, Calls(0, m)).phases
  {
    CallsRest(0, m);
    var first := ClaimSlot(s, 0, 0, 0);
    CallsRun(first, 1, m - 1);
    assert Run(s, Calls(0, m)) == Run(first, Calls(1, m - 1));
    hide Run, RunEnabled, Calls, Wrapped, Enabled;
  }

  lemma CallsRest(k: nat, m: nat)
    requires m != 0
    ensures |Calls(k, m)| > 0 && Calls(k, m)[0] == Claim(k, 0, 0) && Calls(k, m)[1..] == Calls(k + 1, m - 1)
  {}

  predicate Quiescent(s: State) {
    forall t :: t in s.phases ==> s.phases[t].Idle?
  }

  /** When all threads are idle, the slots written are exactly the first min(calls, n), and
      `numbered` lists them in the order of their sequence numbers 1, 2, ..., each once. */
  lemma QuiescentSlots(n: nat, steps: seq<Step>)
    requires n < WRAP && RunEnabled(Initial(n), steps) && Claims(steps) < WRAP && Quiescent(Run(Initial(n), steps))
    ensures var s, m := Run(Initial(n), steps), Min(Claims(steps), n);
            && (forall i :: 0 <= i < n ==> (s.records[i].capDone <==> i < m))
            && (forall i :: m <= i < n ==> s.records[i] == BLANK)
            && |s.numbered| == m
            && (forall k :: 0 <= k < m ==> s.numbered[k] < m && s.records[s.numbered[k]].serial == k + 1)
            && (forall i :: 0 <= i < m ==> 0 < s.records[i].serial <= m && s.numbered[s.records[i].serial - 1] == i)
  {
    InitialInvariant(n);
    RunsKeepInvariant(Initial(n), steps);
    var s, m := Run(Initial(n), steps), Min(Claims(steps), n);
    hide Run, RunEnabled;
    assert s.pending == {};
    forall i | 0 <= i < m
      ensures s.records[i].capDone && 0 < s.records[i].serial <= m && s.numbered[s.records[i].serial - 1] == i
    {
      assert RecordOk(s.records[i], i, s.calls[i], PhaseOf(s, s.calls[i].thread), s.numbered, s.clock);
    }
  }

  /** A record marked published was filled from the arguments of the very call that claimed its
      slot, has that call's number, and was published no earlier than it was captured. */
  lemma PublishedRecords(n: nat, steps: seq<Step>, i: nat)
    requires n < WRAP && RunEnabled(Initial(n), steps) && Claims(steps) < WRAP
    requires i < n && Run(Initial(n), steps).records[i].rosDone
    ensures var s := Run(Initial(n), steps);
            && i < |s.calls|
            && s.records[i].header == s.calls[i].header && s.records[i].capture == s.calls[i].capture && s.records[i].capDone
            && s.records[i].cbk <= s.records[i].pub <= s.clock
            && 0 < s.records[i].serial <= |s.numbered| && s.numbered[s.records[i].serial - 1] == i
  {
    InitialInvariant(n);
    RunsKeepInvariant(Initial(n), steps);
    var s := Run(Initial(n), steps);
    hide Run, RunEnabled, Counting, Phases;
    if i < Used(s) {
      assert RecordOk(s.records[i], i, s.calls[i], PhaseOf(s, s.calls[i].thread), s.numbered, s.clock);
    }
  }

  // ----- the time stamps -----

  /** The time that passes in the course of these steps. */
  function Elapsed(steps: seq<Step>): nat {
    if steps == [] then 0 else (if steps[0].Tick? then steps[0].elapsed else 0) + Elapsed(steps[1..])
  }

  lemma {:induction false} ClockIsElapsed(s: State, steps: seq<Step>)
    requires RunEnabled(s, steps)
    ensures Run(s, steps).clock == s.clock + Elapsed(steps)
    decreases |steps|
  {
    if steps != [] {
      ClockIsElapsed(Apply(s, steps[0]), steps[1..]);
    }
  }

  lemma {:induction false} RunSnoc(s: State, steps: seq<Step>, last: Step)
    ensures RunEnabled(s, steps + [last]) <==> RunEnabled(s, steps) && Enabled(Run(s, steps), last)
    ensures RunEnabled(s, steps + [last]) ==> Run(s, steps + [last]) == Apply(Run(s, steps), last)
    decreases |steps|
  {
    hide Apply, Enabled;
    if steps == [] {
      assert steps + [last] == [last];
    } else {
      if Enabled(s, steps[0]) {
        RunSnoc(Apply(s, steps[0]), steps[1..], last);
      }
      assert (steps + [last])[1..] == steps[1..] + [last];
    }
  }

  lemma {:induction false} ClaimsSnoc(steps: seq<Step>, last: Step)
    ensures Claims(steps + [last]) == Claims(steps) + (if last.Claim? then 1 else 0)
    decreases |steps|
  {
    if steps == [] {
      assert steps + [last] == [last];
    } else {
      ClaimsSnoc(steps[1..], last);
      assert (steps + [last])[1..] == steps[1..] + [last];
    }
  }

  /** The step stamps the record in slot i as called back, the fourth store of log_cbk. */
  predicate Captures(s: State, step: Step, i: nat) {
    step.Store? && PhaseOf(s, step.thread).Filling? && PhaseOf(s, step.thread).slot == i && PhaseOf(s, step.thread).stores == 3
  }

  /** The step stamps the record in slot i as published, the first store of log_pub. */
  predicate Publishes(s: State, step: Step, i: nat) {
    step.StampPub? && PhaseOf(s, step.thread) == Holding(i)
  }

  predicate CapturedAt(n: nat, steps: seq<Step>, i: nat, k: nat) {
    k < |steps| && RunEnabled(Initial(n), steps[..k]) && Captures(Run(Initial(n), steps[..k]), steps[k], i)
  }

  predicate PublishedAt(n: nat, steps: seq<Step>, i: nat, k: nat) {
    k < |steps| && RunEnabled(Initial(n), steps[..k]) && Publishes(Run(Initial(n), steps[..k]), steps[k], i)
  }

  /** The record in slot i has its time of the callback, or of the publication. */
  predicate HasCapture(s: State, i: nat) {
    i < Used(s) && Filled(PhaseOf(s, s.calls[i].thread), i) >= 4
  }

  predicate HasPublication(s: State, i: nat) {
    i < Used(s) && (s.records[i].rosDone || PhaseOf(s, s.calls[i].thread) == Stamped(i))
  }

  /** Only the thread that has claimed a slot is in a phase that names it. */
  lemma OwnerIs(s: State, t: nat)
    requires Invariant(s) && !PhaseOf(s, t).Idle?
    ensures PhaseOf(s, t).slot < Used(s) && s.calls[PhaseOf(s, t).slot].thread == t
    ensures PhaseOf(s, t).Filling? ==> PhaseOf(s, t).stores < STORES
  {
    PhaseIs(s, t);
  }

  lemma RecordIs(s: State, i: nat)
    requires Invariant(s) && i < |s.records|
    ensures i < Used(s) ==> RecordOk(s.records[i], i, s.calls[i], PhaseOf(s, s.calls[i].thread), s.numbered, s.clock)
  {}

  /** What a step may do to the time stamps of the record in slot i. */
  predicate StampsRightly(s: State, s': State, i: nat, captures: bool, publishes: bool)
    requires i < |s.records| == |s'.records|
  {
    && (captures ==> !HasCapture(s, i) && HasCapture(s', i) && s'.records[i].cbk == s.clock)
    && (!captures ==> (HasCapture(s', i) <==> HasCapture(s, i)) && (HasCapture(s, i) ==> s'.records[i].cbk == s.records[i].cbk))
    && (publishes ==> !HasPublication(s, i) && HasPublication(s', i) && s'.records[i].pub == s.clock)
    && (!publishes ==> (HasPublication(s', i) <==> HasPublication(s, i)) && (HasPublication(s, i) ==> s'.records[i].pub == s.records[i].pub))
  }

  /** A time stamp comes into a record with one step of its owner, and no other step changes it. */
  lemma StampsOnce(s: State, step: Step, i: nat)
    requires Invariant(s) && Enabled(s, step) && i < |s.records| && (step.Claim? ==> |s.calls| < WRAP)
    ensures StampsRightly(s, Apply(s, step), i, Captures(s, step, i), Publishes(s, step, i))
  {
    hide Invariant, StampsRightly;
    if step.Tick? {
      SameStamps(s, Apply(s, step), i);
    } else if step.Claim? {
      ClaimStamps(s, step.thread, step.header, step.capture, i);
    } else if PhaseOf(s, step.thread).slot != i {
      ForeignStamps(s, step, i);
    } else {
      OwnerStamps(s, step, i);
    }
  }

  lemma SameStamps(s: State, s': State, i: nat)
    requires i < |s.records| && s' == s.(clock := s'.clock)
    ensures StampsRightly(s, s', i, false, false)
  {}

  /** The owner of slot i has stayed where it is, or is at another slot before and after. */
  lemma KeptStamps(s: State, s': State, i: nat)
    requires i < Used(s) && i < Used(s') && s'.records == s.records && s'.calls[i] == s.calls[i]
    requires var p, p' := PhaseOf(s, s.calls[i].thread), PhaseOf(s', s.calls[i].thread); p == p' || (Foreign(p, i) && Foreign(p', i))
    ensures StampsRightly(s, s', i, false, false)
  {}

  lemma ClaimStamps(s: State, t: nat, h: nat, c: nat, i: nat)
    requires Invariant(s) && |s.calls| < WRAP && PhaseOf(s, t).Idle? && i < |s.records|
    ensures StampsRightly(s, ClaimSlot(s, t, h, c), i, false, false)
  {
    ClaimedSlot(s);
    if i < |s.calls| {
      OldSlotStamps(s, t, h, c, i);
    } else {
      BlankAbove(s, i);
      NewSlotStamps(s, t, h, c, i);
    }
    hide *;
  }

  lemma OldSlotStamps(s: State, t: nat, h: nat, c: nat, i: nat)
    requires s.idx == |s.calls| && PhaseOf(s, t).Idle? && i < Used(s)
    ensures StampsRightly(s, ClaimSlot(s, t, h, c), i, false, false)
  {
    hide StampsRightly, Wrapped;
    KeptStamps(s, ClaimSlot(s, t, h, c), i);
  }

  lemma NewSlotStamps(s: State, t: nat, h: nat, c: nat, i: nat)
    requires s.idx == |s.calls| <= i < |s.records| && s.records[i] == BLANK
    ensures StampsRightly(s, ClaimSlot(s, t, h, c), i, false, false)
  {
    hide Wrapped;
  }

  lemma BlankAbove(s: State, i: nat)
    requires Invariant(s) && Used(s) <= i < |s.records|
    ensures s.records[i] == BLANK
  {}

  lemma ClaimedSlot(s: State)
    requires Invariant(s) && |s.calls| < WRAP
    ensures s.idx == |s.calls|
  {
    SmallRemainder(|s.calls|);
  }

  lemma ForeignStamps(s: State, step: Step, i: nat)
    requires Invariant(s) && Enabled(s, step) && !step.Tick? && !step.Claim? && i < |s.records| && PhaseOf(s, step.thread).slot != i
    ensures StampsRightly(s, Apply(s, step), i, Captures(s, step, i), Publishes(s, step, i))
  {
    RecordIs(s, i);
    OwnerIs(s, step.thread);
    hide Invariant, Wrapped, Stored, RecordOk;
  }

  lemma OwnerStamps(s: State, step: Step, i: nat)
    requires Invariant(s) && Enabled(s, step) && !step.Tick? && !step.Claim? && i < |s.records| && PhaseOf(s, step.thread).slot == i
    ensures StampsRightly(s, Apply(s, step), i, Captures(s, step, i), Publishes(s, step, i))
  {
    RecordIs(s, i);
    OwnerIs(s, step.thread);
    hide Invariant, Wrapped;
  }

  /** The times in the record of slot i in state s, which these steps have led to. */
  ghost predicate StampedBy(n: nat, steps: seq<Step>, i: nat, s: State)
    requires i < |s.records|
  {
    && (HasCapture(s, i) <==> exists k: nat :: CapturedAt(n, steps, i, k))
    && (HasPublication(s, i) <==> exists k: nat :: PublishedAt(n, steps, i, k))
    && (forall k: nat :: CapturedAt(n, steps, i, k) ==> s.records[i].cbk == Elapsed(steps[..k]))
    && (forall k: nat :: PublishedAt(n, steps, i, k) ==> s.records[i].pub == Elapsed(steps[..k]))
    && (forall j: nat, k: nat :: CapturedAt(n, steps, i, j) && CapturedAt(n, steps, i, k) ==> j == k)
    && (forall j: nat, k: nat :: PublishedAt(n, steps, i, j) && PublishedAt(n, steps, i, k) ==> j == k)
  }

  lemma StampsSnoc(n: nat, steps: seq<Step>, last: Step, i: nat, k: nat)
    requires RunEnabled(Initial(n), steps)
    ensures CapturedAt(n, steps + [last], i, k)
       <==> if k == |steps| then Captures(Run(Initial(n), steps), last, i) else CapturedAt(n, steps, i, k)
    ensures PublishedAt(n, steps + [last], i, k)
       <==> if k == |steps| then Publishes(Run(Initial(n), steps), last, i) else PublishedAt(n, steps, i, k)
    ensures k <= |steps| ==> (steps + [last])[..k] == steps[..k]
    ensures steps[..|steps|] == steps && (CapturedAt(n, steps, i, k) || PublishedAt(n, steps, i, k) ==> k < |steps|)
  {
    hide Run, RunEnabled, Captures, Publishes;
    if k <= |steps| {
      assert (steps + [last])[..k] == steps[..k];
    }
    assert steps[..|steps|] == steps;
  }

  /** A record has a time of the callback if and only if one step of the run stamped it, just one, and it
      is the time that had passed by then; and so for the time of the publication. */
  lemma {:induction false} StampTimes(n: nat, steps: seq<Step>, i: nat)
    requires n < WRAP && RunEnabled(Initial(n), steps) && Claims(steps) < WRAP && i < n
    ensures StampedBy(n, steps, i, Run(Initial(n), steps))
    decreases |steps|
  {
    if steps != [] {
      var before, last := steps[..|steps| - 1], steps[|steps| - 1];
      assert steps == before + [last];
      RunSnoc(Initial(n), before, last);
      ClaimsSnoc(before, last);
      StampTimes(n, before, i);
      InitialInvariant(n);
      RunsKeepInvariant(Initial(n), before);
      ClockIsElapsed(Initial(n), before);
      StampsOnce(Run(Initial(n), before), last, i);
      hide Run, RunEnabled, Apply, Enabled, Invariant, StampedBy;
      StampedNext(n, before, last, i, Run(Initial(n), before), Apply(Run(Initial(n), before), last));
    }
  }

  lemma StampedNext(n: nat, before: seq<Step>, last: Step, i: nat, s: State, s': State)
    requires RunEnabled(Initial(n), before) && s == Run(Initial(n), before) && s.clock == Elapsed(before)
    requires i < |s.records| == |s'.records| && StampedBy(n, before, i, s)
    requires StampsRightly(s, s', i, Captures(s, last, i), Publishes(s, last, i))
    ensures StampedBy(n, before + [last], i, s')
  {
    hide Run, RunEnabled, Captures, Publishes, CapturedAt, PublishedAt, HasCapture, HasPublication, Elapsed;
    var steps := before + [last];
    forall k: nat
      ensures CapturedAt(n, steps, i, k) <==> if k == |before| then Captures(s, last, i) else CapturedAt(n, before, i, k)
      ensures CapturedAt(n, before, i, k) ==> k < |before| && steps[..k] == before[..k]
    {
      StampsSnoc(n, before, last, i, k);
    }
    forall k: nat
      ensures PublishedAt(n, steps, i, k) <==> if k == |before| then Publishes(s, last, i) else PublishedAt(n, before, i, k)
      ensures PublishedAt(n, before, i, k) ==> k < |before| && steps[..k] == before[..k]
    {
      StampsSnoc(n, before, last, i, k);
    }
    StampsSnoc(n, before, last, i, |before|);
  }

  // ----- a call that nobody interrupts -----

  function Repeated(step: Step, k: nat): seq<Step> {
    seq(k, _ => step)
  }

  /** log_cbk and then log_pub by one thread. */
  function WholeCall(t: nat, h: nat, c: nat): seq<Step> {
    [Claim(t, h, c), Number(t)] + Repeated(Store(t), STORES) + [StampPub(t), FinishPub(t)]
  }

  lemma {:induction false} RunParts(s: State, first: seq<Step>, rest: seq<Step>)
    requires RunEnabled(s, first) && RunEnabled(Run(s, first), rest)
    ensures RunEnabled(s, first + rest) && Run(s, first + rest) == Run(Run(s, first), rest)
    decreases |first|
  {
    hide Apply, Enabled;
    if first == [] {
      assert first + rest == rest;
    } else {
      RunParts(Apply(s, first[0]), first[1..], rest);
      assert (first + rest)[1..] == first[1..] + rest;
    }
  }

  /** The record after the first k stores. */
  function Partial(r: Record, k: nat, number: nat, call: Call, clock: nat): Record {
    Record(if k >= 1 then number else r.serial, if k >= 2 then call.header else r.header, if k >= 3 then call.capture else r.capture,
           if k >= 4 then clock else r.cbk, if k >= 5 then 0 else r.pub, k >= 6 || r.capDone, k < 7 && r.rosDone)
  }

  lemma {:induction false} StoresRun(s: State, t: nat, i: nat, number: nat, call: Call, k: nat)
    requires i < |s.records| && PhaseOf(s, t) == Filling(i, number, 0, call) && k <= STORES
    ensures RunEnabled(s, Repeated(Store(t), k))
    ensures Run(s, Repeated(Store(t), k))
         == WriteSlot(s, t, i, Partial(s.records[i], k, number, call, s.clock), if k == STORES then Holding(i) else Filling(i, number, k, call))
    decreases k
  {
    if k != 0 {
      StoresRun(s, t, i, number, call, k - 1);
      assert Repeated(Store(t), k) == Repeated(Store(t), k - 1) + [Store(t)];
      RunSnoc(s, Repeated(Store(t), k - 1), Store(t));
      StoreNext(s, t, i, number, call, k - 1);
      hide Run, RunEnabled, Apply, Enabled, WriteSlot, Repeated, Partial;
    } else {
      assert s.records[i := s.records[i]] == s.records;
      assert s.phases[t := s.phases[t]] == s.phases;
    }
  }

  lemma StoreNext(s: State, t: nat, i: nat, number: nat, call: Call, k: nat)
    requires i < |s.records| && k < STORES
    ensures var at := WriteSlot(s, t, i, Partial(s.records[i], k, number, call, s.clock), Filling(i, number, k, call));
            && Enabled(at, Store(t))
            && Apply(at, Store(t)) == WriteSlot(s, t, i, Partial(s.records[i], k + 1, number, call, s.clock),
                                                if k + 1 == STORES then Holding(i) else Filling(i, number, k + 1, call))
  {}

  /** Uninterrupted, a call fills the next slot of the box with its arguments, the next number and the
      time, and touches no other slot. */
  lemma Uninterrupted(s: State, t: nat, h: nat, c: nat)
    requires Invariant(s) && PhaseOf(s, t).Idle? && |s.calls| < |s.records|
    ensures RunEnabled(s, WholeCall(t, h, c))
    ensures var s', i := Run(s, WholeCall(t, h, c)), |s.calls|;
            && s'.records == s.records[i := Record(|s.numbered| + 1, h, c, s.clock, s.clock, true, true)]
            && s'.calls == s.calls + [Call(t, h, c)] && s'.numbered == s.numbered + [i] && s'.pending == s.pending
            && s'.phases == s.phases[t := Idle] && s'.clock == s.clock
  {
    var call, i, number := Call(t, h, c), |s.calls|, |s.numbered| + 1;
    ClaimedSlot(s);
    NextNumber(s);
    FirstTwo(s, t, h, c);
    var s2 := TakeNumber(ClaimSlot(s, t, h, c), t, i, call);
    NumberedIs(s, t, call);
    StoresRun(s2, t, i, number, call, STORES);
    var s3 := Run(s2, Repeated(Store(t), STORES));
    LastTwo(s3, t, i);
    RunParts(s, [Claim(t, h, c), Number(t)], Repeated(Store(t), STORES));
    RunParts(s, [Claim(t, h, c), Number(t)] + Repeated(Store(t), STORES), [StampPub(t), FinishPub(t)]);
    hide Run, RunEnabled, Repeated, Invariant, Wrapped, ClaimSlot, TakeNumber;
  }

  /** A claim and a number leave the records alone. */
  lemma NumberedIs(s: State, t: nat, call: Call)
    requires s.idx == |s.calls| < |s.records| && |s.calls| !in s.pending && call.thread == t
    ensures var s2 := TakeNumber(ClaimSlot(s, t, call.header, call.capture), t, |s.calls|, call);
            && s2.records == s.records && s2.calls == s.calls + [call] && s2.numbered == s.numbered + [|s.calls|] && s2.pending == s.pending
            && s2.clock == s.clock && s2.phases == s.phases[t := Filling(|s.calls|, Wrapped(s.serials + 1), 0, call)]
  {
    hide Wrapped;
    assert s.pending + {|s.calls|} - {|s.calls|} == s.pending;
  }

  lemma NextNumber(s: State)
    requires Invariant(s) && |s.calls| < |s.records|
    ensures Wrapped(s.serials + 1) == |s.numbered| + 1 && |s.calls| !in s.pending
  {
    CountingBelow(Used(s), s.numbered, s.pending);
    SmallRemainder(|s.numbered|);
    SmallRemainder(|s.numbered| + 1);
    hide Counting, Phases, Records, Wrapped;
  }

  lemma TwoSteps(s: State, a: Step, b: Step)
    requires Enabled(s, a) && Enabled(Apply(s, a), b)
    ensures RunEnabled(s, [a, b]) && Run(s, [a, b]) == Apply(Apply(s, a), b)
  {
    RunSnoc(s, [], a);
    RunSnoc(s, [a], b);
    assert [] + [a] == [a] && [a] + [b] == [a, b];
    hide Apply, Enabled;
  }

  lemma FirstTwo(s: State, t: nat, h: nat, c: nat)
    requires s.idx == |s.calls| < |s.records| && PhaseOf(s, t).Idle?
    ensures RunEnabled(s, [Claim(t, h, c), Number(t)])
    ensures Run(s, [Claim(t, h, c), Number(t)]) == TakeNumber(ClaimSlot(s, t, h, c), t, |s.calls|, Call(t, h, c))
  {
    hide Wrapped;
    TwoSteps(s, Claim(t, h, c), Number(t));
    hide Run, RunEnabled;
  }

  lemma LastTwo(s: State, t: nat, i: nat)
    requires i < |s.records| && PhaseOf(s, t) == Holding(i)
    ensures RunEnabled(s, [StampPub(t), FinishPub(t)])
    ensures Run(s, [StampPub(t), FinishPub(t)])
         == s.(records := s.records[i := s.records[i].(pub := s.clock, rosDone := true)], phases := s.phases[t := Idle])
  {
    Publication(s, t, i);
    TwoSteps(s, StampPub(t), FinishPub(t));
    hide Run, RunEnabled, Apply, Enabled;
  }

  lemma Publication(s: State, t: nat, i: nat)
    requires i < |s.records| && PhaseOf(s, t) == Holding(i)
    ensures Enabled(s, StampPub(t)) && Enabled(Apply(s, StampPub(t)), FinishPub(t))
    ensures Apply(Apply(s, StampPub(t)), FinishPub(t))
         == s.(records := s.records[i := s.records[i].(pub := s.clock, rosDone := true)], phases := s.phases[t := Idle])
  {
    var r := s.records[i].(pub := s.clock);
    assert s.records[i := r][i := r.(rosDone := true)] == s.records[i := r.(rosDone := true)];
    assert s.phases[t := Stamped(i)][t := Idle] == s.phases[t := Idle];
  }

  // ----- a single producer -----

  predicate Alone(steps: seq<Step>, t: nat) {
    forall k :: 0 <= k < |steps| ==> steps[k].Tick? || steps[k].thread == t
  }

  /** Numbers are taken in the order of the slots. */
  predicate InOrder(s: State, t: nat) {
    && (forall u :: u in s.phases && u != t ==> s.phases[u].Idle?)
    && (forall k :: 0 <= k < |s.numbered| ==> s.numbered[k] == k)
  }

  lemma AloneKeepsOrder(s: State, step: Step, t: nat)
    requires Invariant(s) && InOrder(s, t) && Enabled(s, step) && (step.Tick? || step.thread == t)
    ensures InOrder(Apply(s, step), t)
  {
    hide Wrapped, Stored, AfterStore, ClaimSlot;
    if step.Number? {
      NextInOrder(s, t, PhaseOf(s, t).slot);
    } else if step.Claim? {
      ClaimKeepsOrder(s, t, step.header, step.capture);
    }
    hide Invariant;
  }

  lemma ClaimKeepsOrder(s: State, t: nat, h: nat, c: nat)
    requires InOrder(s, t)
    ensures InOrder(ClaimSlot(s, t, h, c), t)
  {}

  /** With one producer at most one slot is pending, and it is the next. */
  lemma NextInOrder(s: State, t: nat, i: nat)
    requires Invariant(s) && InOrder(s, t) && PhaseOf(s, t).Claimed? && PhaseOf(s, t).slot == i
    ensures i == |s.numbered|
  {
    hide Records;
    assert i in s.pending;
    forall k | k in s.pending
      ensures k == i
    {
      assert PhaseOf(s, s.calls[k].thread) == Claimed(k, s.calls[k]);
    }
    assert s.pending == {i};
    OrderedMember(s.numbered, i);
    PendingIsNotNumbered(Used(s), s.numbered, s.pending, i);
  }

  lemma OrderedMember(numbered: seq<nat>, i: nat)
    requires forall k :: 0 <= k < |numbered| ==> numbered[k] == k
    ensures i < |numbered| ==> i in numbered
  {
    if i < |numbered| {
      assert numbered[i] == i;
    }
  }

  lemma PendingIsNotNumbered(used: nat, numbered: seq<nat>, pending: set<nat>, i: nat)
    requires Counting(used, numbered, pending) && i in pending
    ensures i !in numbered
  {}

  lemma {:induction false} AloneRuns(s: State, steps: seq<Step>, t: nat)
    requires Invariant(s) && InOrder(s, t) && Alone(steps, t) && RunEnabled(s, steps) && |s.calls| + Claims(steps) < WRAP
    ensures Invariant(Run(s, steps)) && InOrder(Run(s, steps), t)
    decreases |steps|
  {
    hide Invariant, InOrder, Apply, Enabled;
    if steps != [] {
      StepKeepsInvariant(s, steps[0]);
      AloneKeepsOrder(s, steps[0], t);
      AloneRuns(Apply(s, steps[0]), steps[1..], t);
    }
  }

  /** With a single producer the number in every filled record is its slot plus one. */
  lemma SingleProducer(n: nat, steps: seq<Step>, t: nat, i: nat)
    requires n < WRAP && RunEnabled(Initial(n), steps) && Claims(steps) < WRAP && Alone(steps, t)
    requires i < n && Run(Initial(n), steps).records[i].capDone
    ensures Run(Initial(n), steps).records[i].serial == i + 1
  {
    InitialInvariant(n);
    RunsKeepInvariant(Initial(n), steps);
    AloneRuns(Initial(n), steps, t);
    var s := Run(Initial(n), steps);
    hide Run, RunEnabled;
    FilledIsNumbered(s, i);
  }

  lemma FilledIsNumbered(s: State, i: nat)
    requires Invariant(s) && i < |s.records| && s.records[i].capDone
    ensures 0 < s.records[i].serial <= |s.numbered| && s.numbered[s.records[i].serial - 1] == i
  {}
}
