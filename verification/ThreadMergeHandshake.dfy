/** The create-wait-count handshake that hands every thread its number, as a step system. There
    are no spurious wake-ups; a signal sent while nobody waits is lost. */
module ThreadMergeHandshake {
  import opened Order
  import opened Sums
  import opened ThreadMergeRank

  datatype MainPc =
    | Creating   // about to create worker `i`, or to go on to joining
    | Locking    // about to lock the mutex
    | Holding    // about to wait, which releases the mutex
    | Waiting    // asleep on the condition variable
    | Woken      // about to lock the mutex again
    | Counting   // about to increment `count`
    | Unlocking  // about to unlock
    | Joining    // about to join worker `i`
    | Finished

  datatype WorkerPc =
    | Absent
    | Started    // about to lock the mutex
    | Reading    // about to read `count`
    | Signalling // about to signal
    | Releasing  // about to unlock
    | Placing    // about to write its element
    | Done

  datatype Owner = Free | Main | Worker(w: nat)

  datatype Setup = Setup(a: seq<int>, b: seq<int>) {
    function N(): nat { |a| + |b| }
  }

  datatype State = State(
    main: MainPc, i: nat, count: nat, mutex: Owner,
    worker: seq<WorkerPc>, taken: seq<nat>, out: seq<int>)

  predicate Shaped(c: Setup, s: State) {
    |s.worker| == c.N() && |s.taken| == c.N() && |s.out| == c.N() && s.i <= c.N()
  }

  function Init(c: Setup, out: seq<int>): State {
    State(Creating, 0, 0, Free, seq(c.N(), _ => Absent), seq(c.N(), _ => 0), out)
  }

  datatype Thread = TheMain | TheWorker(w: nat)

  predicate Enabled(c: Setup, s: State, t: Thread)
    requires Shaped(c, s)
  {
    match t
    case TheMain =>
      (match s.main
       case Locking => s.mutex == Free
       case Woken => s.mutex == Free
       case Waiting => false
       case Joining => s.i < c.N() ==> s.worker[s.i] == Done
       case Finished => false
       case _ => true)
    case TheWorker(w) =>
      w < c.N() &&
      (match s.worker[w]
       case Absent => false
       case Started => s.mutex == Free
       case Done => false
       case _ => true)
  }

  function Written(c: Setup, out: seq<int>, k: nat): (r: seq<int>)
    ensures |r| == |out|
  {
    if k < c.N() && Place(c.a, c.b, k) < |out| then out[Place(c.a, c.b, k) := Element(c.a, c.b, k)]
    else out
  }

  function MainStep(c: Setup, s: State): State
    requires Shaped(c, s)
  {
    match s.main
    case Creating =>
      if s.i < c.N() then s.(worker := s.worker[s.i := Started], main := Locking)
      else s.(main := Joining, i := 0)
    case Locking => s.(mutex := Main, main := Holding)
    case Holding => s.(mutex := Free, main := Waiting)
    case Waiting => s
    case Woken => s.(mutex := Main, main := Counting)
    case Counting => s.(count := s.count + 1, main := Unlocking)
    case Unlocking =>
      if s.i < c.N() then s.(mutex := Free, main := Creating, i := s.i + 1) else s
    case Joining => if s.i < c.N() then s.(i := s.i + 1) else s.(main := Finished)
    case Finished => s
  }

  function WorkerStep(c: Setup, s: State, w: nat): State
    requires Shaped(c, s) && w < c.N()
  {
    match s.worker[w]
    case Absent => s
    case Started => s.(mutex := Worker(w), worker := s.worker[w := Reading])
    case Reading => s.(taken := s.taken[w := s.count], worker := s.worker[w := Signalling])
    case Signalling =>
      s.(main := if s.main == Waiting then Woken else s.main, worker := s.worker[w := Releasing])
    case Releasing => s.(mutex := Free, worker := s.worker[w := Placing])
    case Placing => s.(out := Written(c, s.out, s.taken[w]), worker := s.worker[w := Done])
    case Done => s
  }

  function Step(c: Setup, s: State, t: Thread): (r: State)
    requires Shaped(c, s) && Enabled(c, s, t)
    ensures Shaped(c, r)
  {
    match t
    case TheMain => MainStep(c, s)
    case TheWorker(w) => WorkerStep(c, s, w)
  }

  predicate Legal(c: Setup, s: State, schedule: seq<Thread>)
    requires Shaped(c, s)
    decreases |schedule|
  {
    schedule == []
    || (Enabled(c, s, schedule[0]) && Legal(c, Step(c, s, schedule[0]), schedule[1..]))
  }

  function Run(c: Setup, s: State, schedule: seq<Thread>): (t: State)
    requires Shaped(c, s) && Legal(c, s, schedule)
    ensures Shaped(c, t)
    decreases |schedule|
  {
    if schedule == [] then s else Run(c, Step(c, s, schedule[0]), schedule[1..])
  }

  // ---------- the invariant ----------

  predicate PastSignal(p: WorkerPc) {
    p == Releasing || p == Placing || p == Done
  }

  predicate HasRead(p: WorkerPc) {
    p == Signalling || PastSignal(p)
  }

  /** Main is past the wait of the current round. */
  predicate Signalled(p: MainPc) {
    p == Woken || p == Counting || p == Unlocking
  }

  /** Worker `w`: those of earlier rounds have signalled, the current one exists once main has
      created it, and whoever has read `count` read its own number. */
  predicate WorkerOk(c: Setup, s: State, w: nat)
    requires Shaped(c, s) && w < c.N()
  {
    var p := s.worker[w];
    && (HasRead(p) ==> s.taken[w] == w)
    && (s.mutex == Worker(w) <==> p == Reading || p == Signalling || p == Releasing)
    && (if s.main == Joining || s.main == Finished || w < s.i then PastSignal(p)
        else if w == s.i && s.main != Creating then p != Absent && (Signalled(s.main) ==> PastSignal(p))
        else p == Absent)
    && (p == Done ==> Place(c.a, c.b, w) < c.N() && s.out[Place(c.a, c.b, w)] == Element(c.a, c.b, w))
    && ((s.main == Finished || (s.main == Joining && w < s.i)) ==> p == Done)
  }

  predicate Inv(c: Setup, s: State) {
    && Shaped(c, s)
    && (s.main != Creating && s.main != Joining && s.main != Finished ==> s.i < c.N())
    && s.count == (if s.main == Joining || s.main == Finished then c.N()
                   else if s.main == Unlocking then s.i + 1 else s.i)
    && (s.mutex == Main <==> s.main == Holding || s.main == Counting || s.main == Unlocking)
    && (s.mutex.Worker? ==> s.mutex.w < c.N() && s.worker[s.mutex.w] in {Reading, Signalling, Releasing})
    && (forall w :: 0 <= w < c.N() ==> WorkerOk(c, s, w))
  }

  lemma MainKeepsInv(c: Setup, s: State)
    requires Inv(c, s) && Enabled(c, s, TheMain)
    ensures Inv(c, MainStep(c, s))
  {
    hide Place;
    var t := MainStep(c, s);
    if s.i < c.N() {
      assert WorkerOk(c, s, s.i);
    }
    forall w | 0 <= w < c.N() ensures WorkerOk(c, t, w) {
      assert WorkerOk(c, s, w);
    }
  }

  /** Writing one worker's element fills its place and leaves the others'. */
  lemma WrittenPlaces(c: Setup, out: seq<int>, v: nat, w: nat)
    requires Inputs(c.a, c.b) && |out| == c.N() && v < c.N() && w < c.N()
    ensures
      var p, q := Place(c.a, c.b, v), Place(c.a, c.b, w);
      && p < c.N() && q < c.N()
      && Written(c, out, v)[q] == if v == w then Element(c.a, c.b, v) else out[q]
  {
    hide Place, Inputs, Below, Element, Before;
    PlaceIsRank(c.a, c.b, v);
    PlaceIsRank(c.a, c.b, w);
    PlacesOrdered(c.a, c.b, v, w);
  }

  lemma WorkerKeepsInv(c: Setup, s: State, v: nat)
    requires Inputs(c.a, c.b) && Inv(c, s) && Enabled(c, s, TheWorker(v))
    ensures Inv(c, WorkerStep(c, s, v))
  {
    hide Place, Inputs, Element, Written;
    var t := WorkerStep(c, s, v);
    assert WorkerOk(c, s, v);
    forall w | 0 <= w < c.N() ensures WorkerOk(c, t, w) {
      assert WorkerOk(c, s, w);
      WrittenPlaces(c, s.out, v, w);
    }
  }

  lemma StepKeepsInv(c: Setup, s: State, t: Thread)
    requires Inputs(c.a, c.b) && Inv(c, s) && Enabled(c, s, t)
    ensures Inv(c, Step(c, s, t))
  {
    hide Inputs, MainStep, WorkerStep, WorkerOk;
    match t
    case TheMain => MainKeepsInv(c, s);
    case TheWorker(w) => WorkerKeepsInv(c, s, w);
  }

  lemma {:induction false} RunKeepsInv(c: Setup, s: State, schedule: seq<Thread>)
    requires Inputs(c.a, c.b) && Inv(c, s) && Legal(c, s, schedule)
    ensures Inv(c, Run(c, s, schedule))
    decreases |schedule|
  {
    hide Inputs, Step, WorkerOk, Enabled;
    if schedule != [] {
      StepKeepsInv(c, s, schedule[0]);
      RunKeepsInv(c, Step(c, s, schedule[0]), schedule[1..]);
    }
  }

  lemma InitInv(c: Setup, out: seq<int>)
    requires |out| == c.N()
    ensures Inv(c, Init(c, out))
  {
    hide Place;
    forall w | 0 <= w < c.N() ensures WorkerOk(c, Init(c, out), w) {
    }
  }

  predicate HoldsMutex(p: WorkerPc) {
    p == Reading || p == Signalling || p == Releasing
  }

  /** Who can go on, told from where the others are: to lock the mutex main waits until no worker
      has it, a worker until neither main nor another worker has it; a waiting main waits for a
      signal, and a joining one for the next worker to be done. */
  predicate MayMove(c: Setup, s: State, t: Thread)
    requires Shaped(c, s)
  {
    match t
    case TheMain =>
      (match s.main
       case Locking => forall w :: 0 <= w < c.N() ==> !HoldsMutex(s.worker[w])
       case Woken => forall w :: 0 <= w < c.N() ==> !HoldsMutex(s.worker[w])
       case Waiting => false
       case Joining => s.i == c.N() || s.worker[s.i] == Done
       case Finished => false
       case _ => true)
    case TheWorker(w) =>
      w < c.N() &&
      (match s.worker[w]
       case Absent => false
       case Started =>
         && s.main != Holding && s.main != Counting && s.main != Unlocking
         && forall v :: 0 <= v < c.N() ==> !HoldsMutex(s.worker[v])
       case Done => false
       case _ => true)
  }

  lemma EnabledIff(c: Setup, s: State, t: Thread)
    requires Inv(c, s)
    ensures Enabled(c, s, t) <==> MayMove(c, s, t)
  {
    hide Place;
    forall w | 0 <= w < c.N() ensures HoldsMutex(s.worker[w]) <==> s.mutex == Worker(w) {
      assert WorkerOk(c, s, w);
    }
  }

  lemma {:induction false} LegalMore(c: Setup, s: State, schedule: seq<Thread>, t: Thread)
    requires Shaped(c, s)
    ensures Legal(c, s, schedule + [t]) <==>
      Legal(c, s, schedule) && Enabled(c, Run(c, s, schedule), t)
    decreases |schedule|
  {
    hide Enabled, MainStep, WorkerStep;
    if schedule == [] {
      assert schedule + [t] == [t] && [t][1..] == [];
    } else {
      assert (schedule + [t])[1..] == schedule[1..] + [t];
      if Enabled(c, s, schedule[0]) {
        LegalMore(c, Step(c, s, schedule[0]), schedule[1..], t);
      }
    }
  }

  /** A run goes on with exactly the threads that `MayMove` says. */
  lemma WhoMoves(c: Setup, out: seq<int>, schedule: seq<Thread>, t: Thread)
    requires Inputs(c.a, c.b) && |out| == c.N() && Legal(c, Init(c, out), schedule)
    ensures Legal(c, Init(c, out), schedule + [t]) <==> MayMove(c, Run(c, Init(c, out), schedule), t)
  {
    hide Inputs, Enabled, MayMove, WorkerOk;
    InitInv(c, out);
    RunKeepsInv(c, Init(c, out), schedule);
    LegalMore(c, Init(c, out), schedule, t);
    EnabledIff(c, Run(c, Init(c, out), schedule), t);
  }

  /** Under every schedule, a worker that has read `count` got its own number, and once main
      reaches the join loop all workers have, each number once. */
  lemma EachWorkerTakesItsNumber(c: Setup, out: seq<int>, schedule: seq<Thread>, w: nat)
    requires Inputs(c.a, c.b) && |out| == c.N() && Legal(c, Init(c, out), schedule) && w < c.N()
    ensures
      var s := Run(c, Init(c, out), schedule);
      HasRead(s.worker[w]) || s.main == Joining || s.main == Finished ==> s.taken[w] == w
  {
    InitInv(c, out);
    RunKeepsInv(c, Init(c, out), schedule);
    assert WorkerOk(c, Run(c, Init(c, out), schedule), w);
  }

  /** If main joins everybody, the output is the sorted merge, in whatever order the workers
      wrote their elements. */
  lemma FinishedMeansMerged(c: Setup, out: seq<int>, schedule: seq<Thread>)
    requires Inputs(c.a, c.b) && |out| == c.N() && Legal(c, Init(c, out), schedule)
    ensures
      var s := Run(c, Init(c, out), schedule);
      s.main == Finished ==>
        Sorted(s.out) && multiset(s.out) == multiset(c.a) + multiset(c.b)
  {
    hide Place, Inputs, Element;
    InitInv(c, out);
    RunKeepsInv(c, Init(c, out), schedule);
    var s := Run(c, Init(c, out), schedule);
    if s.main == Finished {
      forall k | 0 <= k < c.N()
        ensures Place(c.a, c.b, k) < |s.out| && s.out[Place(c.a, c.b, k)] == Element(c.a, c.b, k)
      {
        assert WorkerOk(c, s, k);
      }
      AllPlacedIsMerge(c.a, c.b, s.out);
    }
  }

  // ---------- signals that go unheard ----------

  /** A step that is not a signal, or is one that finds main waiting for it. */
  predicate HeardStep(s: State, t: Thread) {
    t.TheWorker? && t.w < |s.worker| && s.worker[t.w] == Signalling ==> s.main == Waiting
  }

  /** Every signal that the schedule sends finds main waiting. */
  predicate Heard(c: Setup, s: State, schedule: seq<Thread>)
    requires Shaped(c, s) && Legal(c, s, schedule)
    decreases |schedule|
  {
    schedule == []
    || (HeardStep(s, schedule[0]) && Heard(c, Step(c, s, schedule[0]), schedule[1..]))
  }

  /** Main has yet to wait, or waits, for a signal that is already over. */
  predicate Missed(c: Setup, s: State)
    requires Shaped(c, s)
  {
    && s.i < c.N() && (s.main == Locking || s.main == Holding || s.main == Waiting)
    && PastSignal(s.worker[s.i])
  }

  /** A signal is missed from the step on at which it goes unheard, and from then on for ever. */
  lemma StepMisses(c: Setup, s: State, t: Thread)
    requires Inv(c, s) && Enabled(c, s, t)
    ensures Missed(c, Step(c, s, t)) <==> Missed(c, s) || !HeardStep(s, t)
  {
    hide Place, Element, Written;
    if s.i < c.N() {
      assert WorkerOk(c, s, s.i);
    }
    if t.TheWorker? {
      assert WorkerOk(c, s, t.w);
    }
  }

  lemma {:induction false} RunMisses(c: Setup, s: State, schedule: seq<Thread>)
    requires Inputs(c.a, c.b) && Inv(c, s) && Legal(c, s, schedule)
    ensures Missed(c, Run(c, s, schedule)) <==> Missed(c, s) || !Heard(c, s, schedule)
    decreases |schedule|
  {
    hide Inputs, Step, WorkerOk, Enabled, Missed, HeardStep;
    if schedule != [] {
      StepKeepsInv(c, s, schedule[0]);
      StepMisses(c, s, schedule[0]);
      RunMisses(c, Step(c, s, schedule[0]), schedule[1..]);
    }
  }

  predicate NoneEnabled(c: Setup, s: State)
    requires Shaped(c, s)
  {
    !Enabled(c, s, TheMain) && forall w :: 0 <= w < c.N() ==> !Enabled(c, s, TheWorker(w))
  }

  /** Main waits, and every worker so far is done. */
  predicate Abandoned(c: Setup, s: State)
    requires Shaped(c, s)
  {
    s.main == Waiting && s.i < c.N() && forall w :: 0 <= w <= s.i ==> s.worker[w] == Done
  }

  lemma StuckIsAbandoned(c: Setup, s: State)
    requires Inv(c, s) && NoneEnabled(c, s) && s.main != Finished
    ensures Abandoned(c, s)
  {
    hide Place;
    forall w | 0 <= w < c.N() ensures s.worker[w] in {Absent, Started, Done} {
      assert WorkerOk(c, s, w) && !Enabled(c, s, TheWorker(w));
    }
    assert s.mutex == Free;
    forall w | 0 <= w < c.N() && (s.main == Joining || w <= s.i) && s.main != Creating
      ensures s.worker[w] == Done
    {
      assert WorkerOk(c, s, w) && !Enabled(c, s, TheWorker(w));
    }
  }

  lemma AbandonedIsStuck(c: Setup, s: State)
    requires Inv(c, s) && Abandoned(c, s)
    ensures NoneEnabled(c, s) && s.main != Finished && Missed(c, s)
  {
    hide Place;
    forall w | 0 <= w < c.N() ensures !Enabled(c, s, TheWorker(w)) {
      assert WorkerOk(c, s, w);
    }
  }

  /** What the end of a run that does not finish looks like: main waits, and every worker so
      far is done. `FinishesIffHeard` says which runs end there. */
  lemma StuckIffAbandoned(c: Setup, out: seq<int>, schedule: seq<Thread>)
    requires Inputs(c.a, c.b) && |out| == c.N() && Legal(c, Init(c, out), schedule)
    ensures
      var s := Run(c, Init(c, out), schedule);
      NoneEnabled(c, s) && s.main != Finished <==> Abandoned(c, s)
  {
    hide Inputs, NoneEnabled, Abandoned, WorkerOk;
    InitInv(c, out);
    RunKeepsInv(c, Init(c, out), schedule);
    var s := Run(c, Init(c, out), schedule);
    if Abandoned(c, s) {
      AbandonedIsStuck(c, s);
    } else if NoneEnabled(c, s) && s.main != Finished {
      StuckIsAbandoned(c, s);
    }
  }

  /** When nothing can move, main is done, or waits for a signal that is over. */
  lemma EndsDoneOrMissed(c: Setup, s: State)
    requires Inv(c, s) && NoneEnabled(c, s)
    ensures s.main == Finished <==> !Missed(c, s)
    ensures Missed(c, s) ==> s.main == Waiting
  {
    hide NoneEnabled, WorkerOk;
    if s.main != Finished {
      StuckIsAbandoned(c, s);
    }
  }

  /** A run that can go no further ends with main having joined everybody if and only if every
      signal on the way was sent while main was waiting for it. Otherwise main waits for ever. */
  lemma FinishesIffHeard(c: Setup, out: seq<int>, schedule: seq<Thread>)
    requires Inputs(c.a, c.b) && |out| == c.N() && Legal(c, Init(c, out), schedule)
    requires NoneEnabled(c, Run(c, Init(c, out), schedule))
    ensures Run(c, Init(c, out), schedule).main
         == if Heard(c, Init(c, out), schedule) then Finished else Waiting
  {
    hide Inputs, NoneEnabled, Legal, Run, Heard, WorkerOk;
    InitInv(c, out);
    RunKeepsInv(c, Init(c, out), schedule);
    RunMisses(c, Init(c, out), schedule);
    EndsDoneOrMissed(c, Run(c, Init(c, out), schedule));
  }

  // ---------- every run ends ----------

  function MainSteps(c: Setup, s: State): nat {
    match s.main
    case Creating => 6 * s.i
    case Locking => 6 * s.i + 1
    case Holding => 6 * s.i + 2
    case Waiting => 6 * s.i + 3
    case Woken => 6 * s.i + 3
    case Counting => 6 * s.i + 4
    case Unlocking => 6 * s.i + 5
    case Joining => 6 * c.N() + 1 + s.i
    case Finished => 7 * c.N() + 2
  }

  function StepsOf(p: WorkerPc): nat {
    match p
    case Absent => 0
    case Started => 0
    case Reading => 1
    case Signalling => 2
    case Releasing => 3
    case Placing => 4
    case Done => 5
  }

  /** The steps each worker has taken. */
  function Taken(c: Setup, s: State): (r: seq<nat>)
    requires Shaped(c, s)
    ensures |r| == c.N()
  {
    seq(c.N(), w requires 0 <= w < c.N() => StepsOf(s.worker[w]))
  }

  function Progress(c: Setup, s: State): nat
    requires Shaped(c, s)
  {
    MainSteps(c, s) + Sum(Taken(c, s))
  }

  lemma MainAddsOne(c: Setup, s: State)
    requires Inv(c, s) && Enabled(c, s, TheMain)
    ensures Progress(c, MainStep(c, s)) == Progress(c, s) + 1
  {
    hide Place, Sum;
    if s.i < c.N() {
      assert WorkerOk(c, s, s.i);
    }
    assert Taken(c, MainStep(c, s)) == Taken(c, s);
  }

  lemma WorkerAddsOne(c: Setup, s: State, w: nat)
    requires Shaped(c, s) && Enabled(c, s, TheWorker(w))
    ensures Progress(c, WorkerStep(c, s, w)) == Progress(c, s) + 1
  {
    hide Place, Sum, Written;
    var before := Taken(c, s);
    assert Taken(c, WorkerStep(c, s, w)) == before[w := before[w] + 1];
    SumUpdate(before, w, before[w] + 1);
  }

  lemma StepAddsOne(c: Setup, s: State, t: Thread)
    requires Inv(c, s) && Enabled(c, s, t)
    ensures Progress(c, Step(c, s, t)) == Progress(c, s) + 1
  {
    hide MainStep, WorkerStep, Progress, WorkerOk;
    match t
    case TheMain => MainAddsOne(c, s);
    case TheWorker(w) => WorkerAddsOne(c, s, w);
  }

  lemma {:induction false} RunLength(c: Setup, s: State, schedule: seq<Thread>)
    requires Inputs(c.a, c.b) && Inv(c, s) && Legal(c, s, schedule)
    ensures Progress(c, Run(c, s, schedule)) == Progress(c, s) + |schedule|
    decreases |schedule|
  {
    hide Inputs, Step, WorkerOk, Enabled, Progress;
    if schedule != [] {
      StepKeepsInv(c, s, schedule[0]);
      StepAddsOne(c, s, schedule[0]);
      RunLength(c, Step(c, s, schedule[0]), schedule[1..]);
    }
  }

  lemma NoneAtStart(c: Setup, out: seq<int>)
    requires |out| == c.N()
    ensures Progress(c, Init(c, out)) == 0
  {
    SumBound(Taken(c, Init(c, out)), 0);
  }

  lemma ProgressBound(c: Setup, s: State)
    requires Inv(c, s)
    ensures Progress(c, s) <= 12 * c.N() + 2
    ensures s.main == Finished ==> Progress(c, s) == 12 * c.N() + 2
  {
    hide Place;
    SumBound(Taken(c, s), 5);
    forall w | 0 <= w < c.N() && s.main == Finished ensures s.worker[w] == Done {
      assert WorkerOk(c, s, w);
    }
  }

  /** Every run is at most `12 * n + 2` steps long. One that can go no further and in which
      every signal was heard has exactly that length and has merged the arrays. */
  lemma HeardRunsMerge(c: Setup, out: seq<int>, schedule: seq<Thread>)
    requires Inputs(c.a, c.b) && |out| == c.N() && Legal(c, Init(c, out), schedule)
    ensures |schedule| <= 12 * c.N() + 2
    ensures
      var s := Run(c, Init(c, out), schedule);
      NoneEnabled(c, s) && Heard(c, Init(c, out), schedule) ==>
        && |schedule| == 12 * c.N() + 2
        && Sorted(s.out) && multiset(s.out) == multiset(c.a) + multiset(c.b)
  {
    hide Inputs, Legal, Run, NoneEnabled, Heard, Progress, WorkerOk, Sorted;
    InitInv(c, out);
    RunKeepsInv(c, Init(c, out), schedule);
    RunLength(c, Init(c, out), schedule);
    NoneAtStart(c, out);
    ProgressBound(c, Run(c, Init(c, out), schedule));
    if NoneEnabled(c, Run(c, Init(c, out), schedule)) {
      FinishesIffHeard(c, out, schedule);
      FinishedMeansMerged(c, out, schedule);
    }
  }

  // ---------- both outcomes are real ----------

  /** Prefixing a schedule by one step. */
  ghost function OneMore(c: Setup, s: State, t: Thread, rest: seq<Thread>): (schedule: seq<Thread>)
    requires Shaped(c, s) && Enabled(c, s, t) && Legal(c, Step(c, s, t), rest)
    ensures Legal(c, s, schedule) && Run(c, s, schedule) == Run(c, Step(c, s, t), rest)
  {
    var schedule := [t] + rest;
    assert schedule[1..] == rest;
    schedule
  }

  /** The first worker may run to its end before main locks the mutex; then main waits for ever,
      and no step is possible any more. */
  lemma SignalCanBeMissed(c: Setup, out: seq<int>) returns (schedule: seq<Thread>)
    requires Inputs(c.a, c.b) && |out| == c.N()
    ensures Legal(c, Init(c, out), schedule)
    ensures
      var s := Run(c, Init(c, out), schedule);
      NoneEnabled(c, s) && s.main == Waiting && !Heard(c, Init(c, out), schedule)
  {
    hide Place, Element;
    assert c.N() >= 1;
    var w := TheWorker(0);
    var s0 := Init(c, out);
    var s1 := Step(c, s0, TheMain);
    var s2 := Step(c, s1, w);
    var s3 := Step(c, s2, w);
    var s4 := Step(c, s3, w);
    var s5 := Step(c, s4, w);
    var s6 := Step(c, s5, w);
    var s7 := Step(c, s6, TheMain);
    var s8 := Step(c, s7, TheMain);
    schedule := OneMore(c, s0, TheMain, OneMore(c, s1, w, OneMore(c, s2, w, OneMore(c, s3, w,
                OneMore(c, s4, w, OneMore(c, s5, w, OneMore(c, s6, TheMain, OneMore(c, s7, TheMain, []))))))));
    FinishesIffHeard(c, out, schedule);
  }

  /** Main has the mutex to itself until it waits for the worker that it has just created. */
  predicate MainFirst(c: Setup, s: State)
    requires Shaped(c, s)
  {
    && !Missed(c, s)
    && (s.main == Creating || s.main == Locking ==> s.mutex == Free)
    && (s.main == Locking && s.i < c.N() ==> s.worker[s.i] == Started)
  }

  lemma MainFirstStep(c: Setup, s: State, t: Thread)
    requires Inv(c, s) && MainFirst(c, s) && Enabled(c, s, t)
    requires t == TheMain || !Enabled(c, s, TheMain)
    ensures MainFirst(c, Step(c, s, t))
  {
    hide Place, Element, Written;
    StepMisses(c, s, t);
    if t.TheWorker? {
      assert WorkerOk(c, s, t.w);
    }
  }

  lemma {:induction false} MainFirstFinishes(c: Setup, s: State) returns (schedule: seq<Thread>)
    requires Inputs(c.a, c.b) && Inv(c, s) && MainFirst(c, s)
    ensures Legal(c, s, schedule) && Run(c, s, schedule).main == Finished
    decreases 12 * c.N() + 2 - Progress(c, s)
  {
    hide Inputs, Step, WorkerOk, Enabled, Missed, Progress, NoneEnabled;
    if s.main == Finished {
      schedule := [];
    } else {
      var t := NextMainFirst(c, s);
      StepKeepsInv(c, s, t);
      StepAddsOne(c, s, t);
      ProgressBound(c, Step(c, s, t));
      MainFirstStep(c, s, t);
      var rest := MainFirstFinishes(c, Step(c, s, t));
      schedule := OneMore(c, s, t, rest);
    }
  }

  lemma NextMainFirst(c: Setup, s: State) returns (t: Thread)
    requires Inv(c, s) && MainFirst(c, s) && s.main != Finished
    ensures Enabled(c, s, t) && (t == TheMain || !Enabled(c, s, TheMain))
  {
    hide Enabled, WorkerOk, Missed;
    if Enabled(c, s, TheMain) {
      t := TheMain;
    } else {
      if NoneEnabled(c, s) {
        EndsDoneOrMissed(c, s);
      }
      var w :| 0 <= w < c.N() && Enabled(c, s, TheWorker(w));
      t := TheWorker(w);
    }
  }

  /** And for all inputs some schedule merges them. */
  lemma SomeRunMerges(c: Setup, out: seq<int>) returns (schedule: seq<Thread>)
    requires Inputs(c.a, c.b) && |out| == c.N()
    ensures Legal(c, Init(c, out), schedule)
    ensures
      var s := Run(c, Init(c, out), schedule);
      s.main == Finished && Sorted(s.out) && multiset(s.out) == multiset(c.a) + multiset(c.b)
  {
    hide Inputs, WorkerOk, Legal, Run, Sorted;
    InitInv(c, out);
    schedule := MainFirstFinishes(c, Init(c, out));
    FinishedMeansMerged(c, out, schedule);
  }
}
