/** Where the frames go that the source pushes: through the pipeline, into a sink that keeps only
    the newest, and out to the capture loop. Every interleaving of the two threads gives turns
    on which the counters of the loop mean what they say. */
module FramePipeline {
  import opened FrameLoop
  import opened Wrapping

  /** Where the capture thread is in its loop; between the grab and the look at the push counter
      it holds a valid frame. */
  datatype Phase = Checking | Pulling | Looking(size: nat) | Done

  /** `pushed` is the counter of the source's probe. The frames pushed are `travelling` to the
      sink or `queued` there, or have been `lost` on the way, `overwritten` by a newer one, found
      `unusable` by a grab, or delivered. `missing` is how many were not delivered when the loop
      last looked. */
  datatype Pipe = Pipe(
    pushed: nat, travelling: nat, queued: bool, lost: nat, overwritten: nat, unusable: nat,
    stopping: bool, phase: Phase, turns: seq<Turn>, missing: nat)

  const INITIAL := Pipe(0, 0, false, 0, 0, 0, false, Checking, [], 0)

  datatype Event = Push | Lose | Arrive | Stop | Check | Grab(pull: Pull) | Look

  /** A grab comes back without a sample at any time, and with one if the sink holds a frame. */
  predicate Enabled(p: Pipe, e: Event) {
    match e
    case Push => true
    case Lose => p.travelling > 0
    case Arrive => p.travelling > 0
    case Stop => true
    case Check => p.phase.Checking?
    case Grab(pull) => p.phase.Pulling? && (pull.NoSample? || p.queued)
    case Look => p.phase.Looking?
  }

  function Undelivered(p: Pipe): nat {
    p.travelling + (if p.queued then 1 else 0) + p.lost + p.overwritten + p.unusable
  }

  function EndTurn(p: Pipe, turn: Turn): Pipe {
    p.(phase := if turn.stop then Done else Checking, turns := p.turns + [turn])
  }

  function Apply(p: Pipe, e: Event): Pipe
    requires Enabled(p, e)
  {
    match e
    case Push => p.(pushed := p.pushed + 1, travelling := p.travelling + 1)
    case Lose => p.(travelling := p.travelling - 1, lost := p.lost + 1)
    case Arrive => p.(travelling := p.travelling - 1, queued := true, overwritten := p.overwritten + (if p.queued then 1 else 0))
    case Stop => p.(stopping := true)
    case Check => if p.stopping then EndTurn(p, Turn(true, NoSample, p.pushed)) else p.(phase := Pulling)
    case Grab(pull) =>
      var turn := Turn(false, pull, p.pushed);
      if pull.NoSample? then EndTurn(p, turn)
      else if Delivers(turn) then p.(queued := false, phase := Looking(pull.size))
      else EndTurn(p.(queued := false, unusable := p.unusable + 1), turn)
    case Look => EndTurn(p, Turn(false, Mapped(p.phase.size), p.pushed)).(missing := Undelivered(p))
  }

  predicate RunEnabled(p: Pipe, events: seq<Event>)
    decreases |events|
  {
    events != [] ==> Enabled(p, events[0]) && RunEnabled(Apply(p, events[0]), events[1..])
  }

  function Run(p: Pipe, events: seq<Event>): Pipe
    requires RunEnabled(p, events)
    decreases |events|
  {
    if events == [] then p else Run(Apply(p, events[0]), events[1..])
  }

  // ----- the invariant -----

  /** Every frame pushed is somewhere, or has been delivered. */
  predicate Conserved(p: Pipe) {
    p.pushed == Undelivered(p) + Deliveries(p.turns, |p.turns|) + (if p.phase.Looking? then 1 else 0)
  }

  /** The turns so far saw growing counts, none larger than now, and no fewer pushes than deliveries. */
  predicate Counted(turns: seq<Turn>, pushed: nat) {
    && (forall i :: 0 <= i < |turns| ==> turns[i].pushes <= pushed)
    && (forall i, j :: 0 <= i <= j < |turns| ==> turns[i].pushes <= turns[j].pushes)
    && (forall i :: 0 <= i < |turns| ==> Deliveries(turns, i + 1) <= turns[i].pushes)
  }

  predicate StopIsLast(p: Pipe) {
    && (p.phase.Looking? ==> p.phase.size > 0)
    && (p.phase.Done? <==> p.turns != [] && p.turns[|p.turns| - 1].stop)
    && (forall i :: 0 <= i < |p.turns| && p.turns[i].stop ==> i == |p.turns| - 1 && p.turns[i].pull.NoSample?)
  }

  predicate Invariant(p: Pipe) {
    && Conserved(p) && Counted(p.turns, p.pushed) && StopIsLast(p)
    && LastSeen(p.turns, |p.turns|) == Deliveries(p.turns, |p.turns|) + p.missing
  }

  lemma {:induction false} Prefix(turns: seq<Turn>, turn: Turn, k: nat)
    requires k <= |turns|
    ensures Deliveries(turns + [turn], k) == Deliveries(turns, k) && LastSeen(turns + [turn], k) == LastSeen(turns, k)
  {
    if k != 0 {
      Prefix(turns, turn, k - 1);
      assert (turns + [turn])[k - 1] == turns[k - 1];
    }
  }

  lemma Appended(turns: seq<Turn>, turn: Turn)
    ensures Deliveries(turns + [turn], |turns| + 1) == Deliveries(turns, |turns|) + (if Delivers(turn) then 1 else 0)
    ensures LastSeen(turns + [turn], |turns| + 1) == if Delivers(turn) then turn.pushes else LastSeen(turns, |turns|)
  {
    Prefix(turns, turn, |turns|);
    assert (turns + [turn])[|turns|] == turn;
  }

  lemma CountedAppended(turns: seq<Turn>, turn: Turn)
    requires Counted(turns, turn.pushes) && Deliveries(turns, |turns|) + (if Delivers(turn) then 1 else 0) <= turn.pushes
    ensures Counted(turns + [turn], turn.pushes)
  {
    Appended(turns, turn);
    var all := turns + [turn];
    forall i | 0 <= i < |all|
      ensures Deliveries(all, i + 1) <= all[i].pushes
    {
      if i < |turns| {
        Prefix(turns, turn, i + 1);
        assert all[i] == turns[i];
      }
    }
    hide Deliveries;
  }

  lemma StepKeepsInvariant(p: Pipe, e: Event)
    requires Invariant(p) && Enabled(p, e)
    ensures Invariant(Apply(p, e))
  {
    hide Deliveries, LastSeen, Counted;
    if e.Push? {
      CountedGrows(p.turns, p.pushed);
    } else if Apply(p, e).turns != p.turns {
      var turns := Apply(p, e).turns;
      var turn := turns[|turns| - 1];
      assert turns == p.turns + [turn];
      Appended(p.turns, turn);
      CountedAppended(p.turns, turn);
    }
  }

  lemma CountedGrows(turns: seq<Turn>, pushed: nat)
    requires Counted(turns, pushed)
    ensures Counted(turns, pushed + 1)
  {}

  lemma {:induction false} RunsKeepInvariant(p: Pipe, events: seq<Event>)
    requires Invariant(p) && RunEnabled(p, events)
    ensures Invariant(Run(p, events))
    decreases |events|
  {
    hide Invariant, Apply, Enabled;
    if events != [] {
      StepKeepsInvariant(p, events[0]);
      RunsKeepInvariant(Apply(p, events[0]), events[1..]);
    }
  }

  // ----- the end of the loop -----

  lemma {:induction false} StoppingRun(p: Pipe, events: seq<Event>)
    requires RunEnabled(p, events) && (p.phase.Done? ==> p.stopping)
    ensures Run(p, events).stopping <==> p.stopping || Stop in events
    ensures Run(p, events).phase.Done? ==> Run(p, events).stopping
    decreases |events|
  {
    if events != [] {
      StoppingStep(p, events[0]);
      StoppingRun(Apply(p, events[0]), events[1..]);
    }
    hide Apply, Enabled;
  }

  lemma StoppingStep(p: Pipe, e: Event)
    requires Enabled(p, e) && (p.phase.Done? ==> p.stopping)
    ensures var q := Apply(p, e); (q.stopping <==> p.stopping || e == Stop) && (q.phase.Done? ==> q.stopping)
  {}

  /** The loop ends only after it has been told to, and then with its next look at the flag: its last
      turn is the stop turn, which grabs nothing. */
  lemma EndsWhenTold(events: seq<Event>)
    requires RunEnabled(INITIAL, events)
    ensures var p := Run(INITIAL, events);
            && (p.phase.Done? ==> Stop in events && p.turns != [] && p.turns[|p.turns| - 1].stop && p.turns[|p.turns| - 1].pull.NoSample?)
            && (p.phase.Checking? ==> (Apply(p, Check).phase.Done? <==> Stop in events))
            && (!p.phase.Done? ==> forall i :: 0 <= i < |p.turns| ==> !p.turns[i].stop)
  {
    RunsKeepInvariant(INITIAL, events);
    StoppingRun(INITIAL, events);
    hide Run, RunEnabled, Deliveries, LastSeen, Conserved, Counted;
  }

  /** What the loop assumes of its turns holds after every run with fewer than 2^64 pushes. */
  lemma RunsArePlausible(events: seq<Event>)
    requires RunEnabled(INITIAL, events) && Run(INITIAL, events).pushed < WRAP
    ensures Invariant(Run(INITIAL, events)) && Plausible(Run(INITIAL, events).turns)
  {
    RunsKeepInvariant(INITIAL, events);
    hide Run, RunEnabled, Deliveries, LastSeen;
  }

  lemma {:induction false} SeenWithin(turns: seq<Turn>, k: nat, pushed: nat)
    requires k <= |turns| && Counted(turns, pushed)
    ensures LastSeen(turns, k) <= pushed
  {
    if k != 0 {
      SeenWithin(turns, k - 1, pushed);
    }
  }

  /** The stop turn delivers nothing. */
  lemma AllExecuted(p: Pipe, k: nat)
    requires StopIsLast(p) && k == Executed(p.turns)
    ensures Deliveries(p.turns, k) == Deliveries(p.turns, |p.turns|) && LastSeen(p.turns, k) == LastSeen(p.turns, |p.turns|)
  {
    if k < |p.turns| {
      assert k == |p.turns| - 1;
    }
  }

  /** The capture loop over any run of the two threads. Every frame pushed is counted by nPull,
      or is in the pipeline, or was lost on one of the ways; and the drop counter is the number
      of frames that were missing at the last look, plus the deliveries that saw no new push. */
  method Capture(driver: Driver, events: seq<Event>) returns (k: nat)
    requires RunEnabled(INITIAL, events) && Run(INITIAL, events).pushed < WRAP
    requires driver.backend.Valid() && driver.backend.sample == 0 == driver.backend.memory
    requires driver.backend.samples == {} == driver.backend.memories
    requires driver.nPull == 0 == driver.lastPushSeen == driver.totalDrops
    modifies driver, driver.backend`sample, driver.backend`memory, driver.backend`taken, driver.backend`samples, driver.backend`memories, driver.backend`maps
    ensures var p := Run(INITIAL, events);
            && k == Executed(p.turns) && driver.nPull <= driver.lastPushSeen <= p.pushed
            && p.pushed == driver.nPull + Undelivered(p) + (if p.phase.Looking? then 1 else 0)
            && driver.totalDrops == p.missing + IdleDeliveries(p.turns, k)
  {
    RunsArePlausible(events);
    ghost var p := Run(INITIAL, events);
    k := driver.Loop(Run(INITIAL, events).turns);
    AllExecuted(p, k);
    SeenWithin(p.turns, k, p.pushed);
    hide Run, RunEnabled, Deliveries, LastSeen;
  }
}
