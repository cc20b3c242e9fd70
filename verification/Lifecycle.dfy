/** The driver's three threads, from constructor to destructor: every interleaving of the
    main, grab and writer threads over the recorder's file and mapping and the pipeline. */
module Lifecycle {

  datatype MainPc =
    | Opening | Allocating | Mapping | Enabling | StartingWriter | InitHid | InitBackend | StartingGrab
    | Threw | Alive
    | JoiningGrab | StoppingBackend | Disabling | JoiningWriter | Syncing | Unmapping | Closing | Gone

  datatype GrabPc = NotStarted | Top | Pulling | Publishing | CheckedCbk | Sending | CheckedPub | Releasing | Done

  datatype WriterPc = Unborn | Testing | Sleeping | Retesting | Flushing | Ended

  /** `open` is whether the descriptor is open, `mapped` whether `base` points into a mapping,
      `pipeline` whether the backend holds a pipeline, `playing` whether it has been started. */
  datatype State = State(
    main: MainPc, grab: GrabPc, writer: WriterPc,
    open: bool, mapped: bool, running: bool, stopLoop: bool, pipeline: bool, playing: bool)

  const START := State(Opening, NotStarted, Unborn, false, false, false, false, false, false)

  /** `ok` is the outcome of what the thread tries; where nothing can fail it is ignored. */
  datatype Step = Main(ok: bool) | Grab(ok: bool) | Writer

  /** A join returns once the thread has ended, at once if it was never started. */
  predicate MainEnabled(s: State) {
    match s.main
    case Threw => false
    case Gone => false
    case JoiningGrab => s.grab.NotStarted? || s.grab.Done?
    case JoiningWriter => s.writer.Unborn? || s.writer.Ended?
    case _ => true
  }

  predicate Enabled(s: State, step: Step) {
    match step
    case Main(_) => MainEnabled(s)
    case Grab(_) => !s.grab.NotStarted? && !s.grab.Done?
    case Writer => !s.writer.Unborn? && !s.writer.Ended?
  }

  function MainStep(s: State, ok: bool): State {
    match s.main
    case Opening => if ok then s.(main := Allocating, open := true) else s.(main := Threw)
    case Allocating => if ok then s.(main := Mapping) else s.(main := Threw, open := false)
    case Mapping => if ok then s.(main := Enabling, mapped := true) else s.(main := Threw, open := false)
    case Enabling => s.(main := StartingWriter, running := true)
    case StartingWriter => s.(main := InitHid, writer := Testing)
    // the two early returns of the constructor leave a live object without grab thread
    case InitHid => s.(main := if ok then InitBackend else Alive)
    // a start that fails leaves the pipeline it has created to the stop of the shutdown
    case InitBackend => if ok then s.(main := StartingGrab, pipeline := true, playing := true) else s.(main := Alive, pipeline := true)
    case StartingGrab => s.(main := Alive, grab := Top)
    case Alive => s.(main := JoiningGrab, stopLoop := true)
    case JoiningGrab => s.(main := StoppingBackend)
    case StoppingBackend => s.(main := Disabling, pipeline := false, playing := false)
    case Disabling => if s.open then s.(main := JoiningWriter, running := false) else s.(main := Gone)
    case JoiningWriter => s.(main := Syncing)
    case Syncing => s.(main := Unmapping)
    case Unmapping => s.(main := Closing, mapped := false)
    case Closing => s.(main := Gone, open := false)
    case Threw => s
    case Gone => s
  }

  /** `ok` is false when a grab delivers nothing, and when publish returns early. */
  function GrabStep(s: State, ok: bool): State {
    match s.grab
    case Top => s.(grab := if s.stopLoop || !ok then Done else Pulling)
    case Pulling => s.(grab := if ok then Publishing else Top)
    case Publishing => s.(grab := if !ok then Releasing else if s.open then CheckedCbk else Sending)
    case CheckedCbk => s.(grab := Sending)
    case Sending => s.(grab := if s.open then CheckedPub else Releasing)
    case CheckedPub => s.(grab := Releasing)
    case Releasing => s.(grab := Top)
    case NotStarted => s
    case Done => s
  }

  function WriterStep(s: State): State {
    match s.writer
    case Testing => s.(writer := if s.running then Sleeping else Ended)
    case Sleeping => s.(writer := Retesting)
    case Retesting => s.(writer := if !s.running then Ended else if s.open then Flushing else Testing)
    case Flushing => s.(writer := Testing)
    case Unborn => s
    case Ended => s
  }

  function Apply(s: State, step: Step): State {
    match step
    case Main(ok) => MainStep(s, ok)
    case Grab(ok) => GrabStep(s, ok)
    case Writer => WriterStep(s)
  }

  /** What each step touches must be there when it is taken. */
  predicate Safe(s: State, step: Step) {
    match step
    case Grab(_) =>
      && (s.grab.CheckedCbk? || s.grab.CheckedPub? ==> s.mapped)
      && (s.grab.Pulling? || s.grab.Releasing? ==> s.pipeline && s.playing)
    case Writer => s.writer.Flushing? ==> s.open
    case Main(_) =>
      && (s.main.Syncing? || s.main.Closing? || s.main.Allocating? || s.main.Mapping? ==> s.open)
      && (s.main.Unmapping? ==> s.mapped)
      && (s.main.StoppingBackend? ==> s.grab.NotStarted? || s.grab.Done?)
      && (s.main.StartingWriter? ==> s.writer.Unborn?) && (s.main.StartingGrab? ==> s.grab.NotStarted?)
  }

  // ----- the invariant -----

  /** The place of each program counter of the main thread on the way. */
  function Rank(m: MainPc): nat {
    match m
    case Opening => 0
    case Allocating => 1
    case Mapping => 2
    case Enabling => 3
    case StartingWriter => 4
    case InitHid => 5
    case InitBackend => 6
    case StartingGrab => 7
    case Alive => 8
    case JoiningGrab => 9
    case StoppingBackend => 10
    case Disabling => 11
    case JoiningWriter => 12
    case Syncing => 13
    case Unmapping => 14
    case Closing => 15
    case Gone => 16
    case Threw => 17
  }

  predicate GrabActive(s: State) {
    !s.grab.NotStarted? && !s.grab.Done?
  }

  predicate WriterActive(s: State) {
    !s.writer.Unborn? && !s.writer.Ended?
  }

  predicate Invariant(s: State) {
    var r := Rank(s.main);
    && (s.open <==> 1 <= r <= 15)
    && (s.mapped <==> 3 <= r <= 14)
    && (s.running <==> 4 <= r <= 11)
    && (s.stopLoop <==> 9 <= r <= 16)
    && (GrabActive(s) ==> 8 <= r <= 9 && s.playing)
    && (!s.grab.NotStarted? ==> 8 <= r <= 16)
    && (r <= 6 || r >= 11 ==> !s.pipeline) && (r == 7 ==> s.playing) && (s.playing ==> s.pipeline)
    && (WriterActive(s) ==> 5 <= r <= 12)
    && (s.writer.Unborn? <==> r <= 4 || r == 17)
  }

  predicate RunEnabled(s: State, steps: seq<Step>)
    decreases |steps|
  {
    steps != [] ==> Enabled(s, steps[0]) && RunEnabled(Apply(s, steps[0]), steps[1..])
  }

  function Run(s: State, steps: seq<Step>): State
    decreases |steps|
  {
    if steps == [] then s else Run(Apply(s, steps[0]), steps[1..])
  }

  lemma MainKeeps(s: State, ok: bool)
    requires Invariant(s) && MainEnabled(s)
    ensures Safe(s, Main(ok)) && Invariant(MainStep(s, ok))
  {}

  lemma GrabKeeps(s: State, ok: bool)
    requires Invariant(s) && GrabActive(s)
    ensures Safe(s, Grab(ok)) && Invariant(GrabStep(s, ok))
  {}

  lemma WriterKeeps(s: State)
    requires Invariant(s) && WriterActive(s)
    ensures Safe(s, Writer) && Invariant(WriterStep(s))
  {}

  lemma StepKeepsInvariant(s: State, step: Step)
    requires Invariant(s) && Enabled(s, step)
    ensures Safe(s, step) && Invariant(Apply(s, step))
  {
    hide Invariant, Safe, MainStep, GrabStep, WriterStep, MainEnabled;
    match step
    case Main(ok) => MainKeeps(s, ok);
    case Grab(ok) => GrabKeeps(s, ok);
    case Writer => WriterKeeps(s);
  }

  lemma {:induction false} RunsKeepInvariant(s: State, steps: seq<Step>)
    requires Invariant(s) && RunEnabled(s, steps)
    ensures Invariant(Run(s, steps))
    decreases |steps|
  {
    if steps != [] {
      StepKeepsInvariant(s, steps[0]);
      RunsKeepInvariant(Apply(s, steps[0]), steps[1..]);
    }
  }

  /** In every run, whatever step comes next finds what it touches: no store through the
      recorder's base after unmapping, no flush after closing, no grab on a backend that has not been started or has been stopped. */
  lemma EveryStepIsSafe(steps: seq<Step>, next: Step)
    requires RunEnabled(START, steps) && Enabled(Run(START, steps), next)
    ensures Safe(Run(START, steps), next)
  {
    RunsKeepInvariant(START, steps);
    StepKeepsInvariant(Run(START, steps), next);
  }

  /** When the destructor is through, or the constructor has thrown, nothing is left behind:
      both threads have ended and descriptor, mapping and pipeline are given back. */
  lemma NothingIsLeft(steps: seq<Step>)
    requires RunEnabled(START, steps)
    ensures var s := Run(START, steps);
            s.main.Gone? || s.main.Threw? ==> !GrabActive(s) && !WriterActive(s) && !s.open && !s.mapped && !s.pipeline
  {
    RunsKeepInvariant(START, steps);
  }

  // ----- starting up -----

  /** The k-th step is a failed attempt of the constructor at this place. */
  predicate FailedAt(steps: seq<Step>, k: nat, at: set<MainPc>)
    requires k < |steps|
  {
    steps[k] == Main(false) && Run(START, steps[..k]).main in at
  }

  /** Opening, allocating or mapping the recorder's file has failed. */
  predicate RecorderFailed(steps: seq<Step>) {
    exists k: nat :: k < |steps| && FailedAt(steps, k, {Opening, Allocating, Mapping})
  }

  /** The set-up of the camera's controls or the start of its pipeline has failed. */
  predicate CameraFailed(steps: seq<Step>) {
    exists k: nat :: k < |steps| && FailedAt(steps, k, {InitHid, InitBackend})
  }

  lemma {:induction false} RunSnoc(s: State, steps: seq<Step>, last: Step)
    ensures Run(s, steps + [last]) == Apply(Run(s, steps), last)
    ensures RunEnabled(s, steps + [last]) <==> RunEnabled(s, steps) && Enabled(Run(s, steps), last)
    decreases |steps|
  {
    if steps == [] {
      assert steps + [last] == [last];
    } else {
      RunSnoc(Apply(s, steps[0]), steps[1..], last);
      assert (steps + [last])[1..] == steps[1..] + [last];
    }
    hide Apply, Enabled;
  }

  lemma FailedSnoc(steps: seq<Step>, last: Step, at: set<MainPc>)
    ensures (exists k: nat :: k < |steps + [last]| && FailedAt(steps + [last], k, at))
       <==> (exists k: nat :: k < |steps| && FailedAt(steps, k, at)) || (last == Main(false) && Run(START, steps).main in at)
  {
    hide Run;
    var all := steps + [last];
    forall k: nat | k < |all|
      ensures FailedAt(all, k, at) <==> if k < |steps| then FailedAt(steps, k, at) else last == Main(false) && Run(START, steps).main in at
    {
      assert all[..k] == if k < |steps| then steps[..k] else steps;
    }
    if last == Main(false) && Run(START, steps).main in at {
      assert FailedAt(all, |steps|, at);
    }
  }

  /** The constructor throws if and only if the recorder's file has failed. Once it is through, the
      writer thread has been started; the grab thread has been started too if and only if nothing of
      the camera has failed. */
  lemma {:induction false} StartsUnlessFailed(steps: seq<Step>)
    requires RunEnabled(START, steps)
    ensures var s := Run(START, steps);
            && (s.main.Threw? <==> RecorderFailed(steps))
            && (8 <= Rank(s.main) <= 16 ==> !s.writer.Unborn? && (!s.grab.NotStarted? <==> !CameraFailed(steps)))
            && (Rank(s.main) < 8 ==> !CameraFailed(steps))
    decreases |steps|
  {
    if steps != [] {
      var before, last := steps[..|steps| - 1], steps[|steps| - 1];
      assert steps == before + [last];
      RunSnoc(START, before, last);
      StartsUnlessFailed(before);
      FailedSnoc(before, last, {Opening, Allocating, Mapping});
      FailedSnoc(before, last, {InitHid, InitBackend});
      RunsKeepInvariant(START, before);
      OneStep(Run(START, before), last);
      RunsKeepInvariant(START, steps);
      WriterIsStarted(Run(START, steps));
      hide Run, RunEnabled, Apply, Enabled, Invariant, FailedAt;
    }
  }

  lemma WriterIsStarted(s: State)
    requires Invariant(s)
    ensures 8 <= Rank(s.main) <= 16 ==> !s.writer.Unborn?
  {}

  /** What one step does to the start. */
  lemma OneStep(s: State, step: Step)
    requires Invariant(s) && Enabled(s, step)
    ensures var s', failed := Apply(s, step), step == Main(false);
            && (s'.main.Threw? <==> s.main.Threw? || (failed && s.main in {Opening, Allocating, Mapping}))
            && (8 <= Rank(s.main) <= 16 ==> 8 <= Rank(s'.main) <= 16 && (s'.grab.NotStarted? <==> s.grab.NotStarted?))
            && (Rank(s.main) < 8 <= Rank(s'.main) <= 16 ==> (s'.grab.NotStarted? <==> failed && s.main in {InitHid, InitBackend}))
            && (s.main in {InitHid, InitBackend} ==> Rank(s.main) < 8 && (Rank(s'.main) < 8 ==> !failed))
  {
    match step
    case Main(ok) => OneMainStep(s, ok);
    case Grab(_) =>
    case Writer =>
  }

  lemma OneMainStep(s: State, ok: bool)
    requires Invariant(s) && MainEnabled(s)
    ensures var s' := MainStep(s, ok);
            && (s'.main.Threw? <==> s.main.Threw? || (!ok && s.main in {Opening, Allocating, Mapping}))
            && (8 <= Rank(s.main) <= 16 ==> 8 <= Rank(s'.main) <= 16 && s'.grab == s.grab)
            && (Rank(s.main) < 8 <= Rank(s'.main) <= 16 ==> (s'.grab.NotStarted? <==> !ok && s.main in {InitHid, InitBackend}))
            && (s.main in {InitHid, InitBackend} ==> Rank(s.main) < 8 && (Rank(s'.main) < 8 ==> ok))
  {}

  /** The state after r successful steps of the constructor. */
  function Prepared(r: nat): State
    requires r <= 8
  {
    var places := [Opening, Allocating, Mapping, Enabling, StartingWriter, InitHid, InitBackend, StartingGrab, Alive];
    State(places[r], if r == 8 then Top else NotStarted, if r >= 5 then Testing else Unborn, r >= 1, r >= 3, r >= 4, false, r >= 7, r >= 7)
  }

  /** Eight successful steps start everything: descriptor, mapping, pipeline and both threads. */
  lemma {:induction false} SuccessfulStart(k: nat)
    requires k <= 8
    ensures RunEnabled(START, seq(k, _ => Main(true))) && Run(START, seq(k, _ => Main(true))) == Prepared(k)
    decreases k
  {
    if k != 0 {
      SuccessfulStart(k - 1);
      assert seq(k, _ => Main(true)) == seq(k - 1, _ => Main(true)) + [Main(true)];
      RunSnoc(START, seq(k - 1, _ => Main(true)), Main(true));
      PreparedNext(k - 1);
      hide Run, RunEnabled, Prepared, Apply, Enabled;
    }
  }

  lemma PreparedNext(k: nat)
    requires k < 8
    ensures Enabled(Prepared(k), Main(true)) && Apply(Prepared(k), Main(true)) == Prepared(k + 1)
  {}

  // ----- every frame is published once and released -----

  /** Where the grab thread is after k successful steps from the head of its loop. */
  function PlaceAfter(k: nat): GrabPc
    requires k <= 7
  {
    [Top, Pulling, Publishing, CheckedCbk, Sending, CheckedPub, Releasing, Top][k]
  }

  /** A turn of the loop in which nothing fails stores into the record before and after sending. */
  lemma {:induction false} FullTurn(s: State, k: nat)
    requires s.grab.Top? && !s.stopLoop && s.open && k <= 7
    ensures RunEnabled(s, seq(k, _ => Grab(true))) && Run(s, seq(k, _ => Grab(true))) == s.(grab := PlaceAfter(k))
    decreases k
  {
    if k != 0 {
      FullTurn(s, k - 1);
      assert seq(k, _ => Grab(true)) == seq(k - 1, _ => Grab(true)) + [Grab(true)];
      RunSnoc(s, seq(k - 1, _ => Grab(true)), Grab(true));
      PlaceNext(s, k - 1);
      hide Run, RunEnabled, PlaceAfter, Apply, Enabled;
    }
  }

  lemma PlaceNext(s: State, k: nat)
    requires !s.stopLoop && s.open && k < 7
    ensures var at := s.(grab := PlaceAfter(k)); Enabled(at, Grab(true)) && Apply(at, Grab(true)) == s.(grab := PlaceAfter(k + 1))
  {}

  /** And the writer thread, while it is to run, flushes once in every turn of its own loop. */
  lemma WriterTurn(s: State)
    requires s.writer.Testing? && s.running && s.open
    ensures RunEnabled(s, [Writer, Writer, Writer]) && Run(s, [Writer, Writer, Writer]) == s.(writer := Flushing)
    ensures RunEnabled(s, [Writer, Writer, Writer, Writer]) && Run(s, [Writer, Writer, Writer, Writer]) == s
  {
    hide Run, RunEnabled;
    RunNothing(s);
    RunSnoc(s, [], Writer);
    RunSnoc(s, [Writer], Writer);
    RunSnoc(s, [Writer, Writer], Writer);
    RunSnoc(s, [Writer, Writer, Writer], Writer);
    assert [] + [Writer] == [Writer] && [Writer] + [Writer] == [Writer, Writer] && [Writer, Writer] + [Writer] == [Writer, Writer, Writer]
           && [Writer, Writer, Writer] + [Writer] == [Writer, Writer, Writer, Writer];
  }

  lemma RunNothing(s: State)
    ensures RunEnabled(s, []) && Run(s, []) == s
  {}

  /** Frames pulled and frames released in the course of a run. */
  function Pulls(s: State, steps: seq<Step>): nat
    decreases |steps|
  {
    if steps == [] then 0 else (if steps[0] == Grab(true) && s.grab.Pulling? then 1 else 0) + Pulls(Apply(s, steps[0]), steps[1..])
  }

  function Releases(s: State, steps: seq<Step>): nat
    decreases |steps|
  {
    if steps == [] then 0 else (if steps[0].Grab? && s.grab.Releasing? then 1 else 0) + Releases(Apply(s, steps[0]), steps[1..])
  }

  /** Whether the grab thread has a frame in hand. */
  function InHand(s: State): nat {
    if s.grab.Publishing? || s.grab.CheckedCbk? || s.grab.Sending? || s.grab.CheckedPub? || s.grab.Releasing? then 1 else 0
  }

  lemma {:induction false} HandChanges(s: State, steps: seq<Step>)
    requires Invariant(s) && RunEnabled(s, steps)
    ensures Pulls(s, steps) + InHand(s) == Releases(s, steps) + InHand(Run(s, steps))
    decreases |steps|
  {
    if steps != [] {
      StepKeepsInvariant(s, steps[0]);
      HandChanges(Apply(s, steps[0]), steps[1..]);
      HandStep(s, steps[0]);
      hide Invariant, Apply, Enabled, InHand;
    }
  }

  lemma HandStep(s: State, step: Step)
    requires Invariant(s) && Enabled(s, step)
    ensures InHand(Apply(s, step)) == InHand(s) + (if step == Grab(true) && s.grab.Pulling? then 1 else 0)
                                    - (if step.Grab? && s.grab.Releasing? then 1 else 0)
  {}

  /** Every frame pulled is released, once, before the next is pulled; at the end of the driver's
      life none is in hand, whatever publishing returned. */
  lemma FramesAreReleased(steps: seq<Step>)
    requires RunEnabled(START, steps)
    ensures Releases(START, steps) <= Pulls(START, steps) <= Releases(START, steps) + 1
    ensures Run(START, steps).main.Gone? || Run(START, steps).main.Threw? ==> Pulls(START, steps) == Releases(START, steps)
  {
    HandChanges(START, steps);
    NothingIsLeft(steps);
    hide Run, RunEnabled, Pulls, Releases;
  }

  // ----- shutting down does not wait for ever -----

  /** Steps that the grab thread still takes once it has been told to stop. */
  function GrabLeft(g: GrabPc): nat {
    match g
    case Pulling => 7
    case Publishing => 6
    case CheckedCbk => 5
    case Sending => 4
    case CheckedPub => 3
    case Releasing => 2
    case Top => 1
    case NotStarted => 0
    case Done => 0
  }

  function WriterLeft(w: WriterPc): nat {
    match w
    case Flushing => 2
    case Testing => 1
    case Sleeping => 2
    case Retesting => 1
    case Unborn => 0
    case Ended => 0
  }

  /** While the main thread waits in a join, the thread it waits for gets closer to its end
      with every step of its own, and no other thread sets it back. */
  lemma JoinsComeCloser(s: State, step: Step)
    requires Invariant(s) && Enabled(s, step)
    ensures s.main.JoiningGrab? && !step.Main? ==>
              if step.Grab? then GrabLeft(Apply(s, step).grab) < GrabLeft(s.grab)
              else Apply(s, step).grab == s.grab
    ensures s.main.JoiningWriter? && step.Writer? ==> WriterLeft(Apply(s, step).writer) < WriterLeft(s.writer)
  {}
}
