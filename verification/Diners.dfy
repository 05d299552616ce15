/** Dining philosophers who must first take one of a limited number of chairs, as a step
    system: any number `n` of philosophers, `rounds` of meals and `chairs`. */
module Diners {
  import opened Ring
  import opened Sums

  /** Where a philosopher stands in the loop of `philosopher_fn`. */
  datatype Pc =
    | Thinking   // about to wait for a chair
    | Seated     // about to lock the left chopstick
    | HasLeft    // about to lock the right one
    | Eating     // holds both, about to unlock the right one
    | Finishing  // about to unlock the left one
    | Leaving    // about to give up the chair

  datatype Setup = Setup(n: nat, chairs: nat, rounds: nat)

  /** `free` is the semaphore, `locked` the chopstick mutexes. */
  datatype State = State(free: int, locked: seq<bool>, pc: seq<Pc>, eaten: seq<nat>)

  predicate Shaped(c: Setup, s: State) {
    |s.locked| == c.n && |s.pc| == c.n && |s.eaten| == c.n
  }

  function Init(c: Setup): State {
    State(c.chairs, seq(c.n, _ => false), seq(c.n, _ => Thinking), seq(c.n, _ => 0))
  }

  /** Philosopher `i` can take its next step: a thinking one has a round left and finds a chair,
      one about to lock finds the chopstick free, and every other step is always possible. */
  predicate Enabled(c: Setup, s: State, i: nat)
    requires Shaped(c, s) && i < c.n
  {
    match s.pc[i]
    case Thinking => s.eaten[i] < c.rounds && s.free > 0
    case Seated => !s.locked[i]
    case HasLeft => !s.locked[Right(c.n, i)]
    case _ => true
  }

  function Step(c: Setup, s: State, i: nat): State
    requires Shaped(c, s) && i < c.n
  {
    match s.pc[i]
    case Thinking => s.(free := s.free - 1, pc := s.pc[i := Seated])
    case Seated => s.(locked := s.locked[i := true], pc := s.pc[i := HasLeft])
    case HasLeft => s.(locked := s.locked[Right(c.n, i) := true], pc := s.pc[i := Eating])
    case Eating => s.(locked := s.locked[Right(c.n, i) := false], pc := s.pc[i := Finishing])
    case Finishing => s.(locked := s.locked[i := false], pc := s.pc[i := Leaving])
    case Leaving =>
      s.(free := s.free + 1, pc := s.pc[i := Thinking], eaten := s.eaten[i := s.eaten[i] + 1])
  }

  predicate Finished(c: Setup, s: State)
    requires Shaped(c, s)
  {
    forall i :: 0 <= i < c.n ==> s.pc[i] == Thinking && s.eaten[i] == c.rounds
  }

  predicate Stuck(c: Setup, s: State)
    requires Shaped(c, s)
  {
    !Finished(c, s) && forall i :: 0 <= i < c.n ==> !Enabled(c, s, i)
  }

  /** A schedule names the philosopher that takes each step. */
  predicate Legal(c: Setup, s: State, schedule: seq<nat>)
    requires Shaped(c, s)
    decreases |schedule|
  {
    schedule == []
    || (schedule[0] < c.n && Enabled(c, s, schedule[0])
        && Legal(c, Step(c, s, schedule[0]), schedule[1..]))
  }

  function Run(c: Setup, s: State, schedule: seq<nat>): (t: State)
    requires Shaped(c, s) && Legal(c, s, schedule)
    ensures Shaped(c, t)
    decreases |schedule|
  {
    if schedule == [] then s else Run(c, Step(c, s, schedule[0]), schedule[1..])
  }

  // ---------- the invariant ----------

  predicate HoldsLeft(p: Pc) {
    p == HasLeft || p == Eating || p == Finishing
  }

  function Chairs(pc: seq<Pc>): nat {
    if pc == [] then 0 else (if pc[0] == Thinking then 0 else 1) + Chairs(pc[1..])
  }

  lemma {:induction false} ChairsUpdate(pc: seq<Pc>, i: nat, p: Pc)
    requires i < |pc|
    ensures Chairs(pc[i := p]) + (if pc[i] == Thinking then 0 else 1)
         == Chairs(pc) + (if p == Thinking then 0 else 1)
  {
    if i > 0 {
      assert pc[i := p][1..] == pc[1..][i - 1 := p];
      ChairsUpdate(pc[1..], i - 1, p);
    } else {
      assert pc[i := p][1..] == pc[1..];
    }
  }

  predicate ChopstickOk(c: Setup, s: State, j: nat)
    requires Shaped(c, s) && j < c.n
  {
    && (s.locked[j] <==> HoldsLeft(s.pc[j]) || s.pc[LeftOf(c.n, j)] == Eating)
    && !(HoldsLeft(s.pc[j]) && s.pc[LeftOf(c.n, j)] == Eating)
  }

  /** A chopstick is locked exactly when the philosopher on its right or the one on its left
      holds it, never both; chairs are neither created nor lost. */
  predicate Inv(c: Setup, s: State) {
    && Shaped(c, s)
    && s.free >= 0
    && s.free + Chairs(s.pc) == c.chairs
    && (forall j :: 0 <= j < c.n ==> ChopstickOk(c, s, j))
    && (forall j :: 0 <= j < c.n ==> s.eaten[j] <= c.rounds && (s.pc[j] != Thinking ==> s.eaten[j] < c.rounds))
  }

  lemma {:induction false} ChairsAll(pc: seq<Pc>)
    ensures Chairs(pc) <= |pc|
    ensures (forall i :: 0 <= i < |pc| ==> pc[i] == Thinking) ==> Chairs(pc) == 0
    ensures Chairs(pc) == |pc| <==> forall i :: 0 <= i < |pc| ==> pc[i] != Thinking
  {
    if pc != [] {
      ChairsAll(pc[1..]);
      assert forall i :: 0 < i < |pc| ==> pc[i] == pc[1..][i - 1];
    }
  }

  lemma InitInv(c: Setup)
    ensures Inv(c, Init(c))
  {
    ChairsAll(Init(c).pc);
  }

  lemma StepKeepsInv(c: Setup, s: State, i: nat)
    requires c.n >= 1 && Inv(c, s) && i < c.n && Enabled(c, s, i)
    ensures Inv(c, Step(c, s, i))
  {
    hide Right, Chairs;
    var t := Step(c, s, i);
    ChairsUpdate(s.pc, i, t.pc[i]);
    forall j | 0 <= j < c.n ensures ChopstickOk(c, t, j) {
      assert ChopstickOk(c, s, j) && ChopstickOk(c, s, Right(c.n, i));
    }
  }

  lemma {:induction false} RunKeepsInv(c: Setup, s: State, schedule: seq<nat>)
    requires c.n >= 1 && Inv(c, s) && Legal(c, s, schedule)
    ensures Inv(c, Run(c, s, schedule))
    decreases |schedule|
  {
    if schedule != [] {
      StepKeepsInv(c, s, schedule[0]);
      RunKeepsInv(c, Step(c, s, schedule[0]), schedule[1..]);
    }
  }

  /** Neighbours never eat at the same time, and chairs free and taken always add up. */
  lemma NeighboursNeverEatTogether(c: Setup, schedule: seq<nat>, i: nat)
    requires c.n >= 1 && Legal(c, Init(c), schedule) && i < c.n
    ensures
      var s := Run(c, Init(c), schedule);
      && !(s.pc[i] == Eating && s.pc[Right(c.n, i)] == Eating)
      && s.free + Chairs(s.pc) == c.chairs
  {
    InitInv(c);
    RunKeepsInv(c, Init(c), schedule);
    assert ChopstickOk(c, Run(c, Init(c), schedule), Right(c.n, i));
  }

  // ---------- who waits for whom ----------

  /** Who can go on, told from where the others are: a thinking philosopher waits for a chair,
      a seated one for its left neighbour to be done eating, and one that holds the left
      chopstick for its right neighbour to put that one's left chopstick down. */
  predicate MayMove(c: Setup, s: State, i: nat)
    requires Shaped(c, s) && i < c.n
  {
    match s.pc[i]
    case Thinking => s.eaten[i] < c.rounds && Chairs(s.pc) < c.chairs
    case Seated => s.pc[LeftOf(c.n, i)] != Eating
    case HasLeft => !HoldsLeft(s.pc[Right(c.n, i)])
    case _ => true
  }

  lemma EnabledIff(c: Setup, s: State, i: nat)
    requires Inv(c, s) && i < c.n
    ensures Enabled(c, s, i) <==> MayMove(c, s, i)
  {
    hide Right, Chairs;
    assert ChopstickOk(c, s, i) && ChopstickOk(c, s, Right(c.n, i));
    LeftOfRight(c.n, i);
  }

  lemma {:induction false} LegalMore(c: Setup, s: State, schedule: seq<nat>, i: nat)
    requires Shaped(c, s)
    ensures Legal(c, s, schedule + [i]) <==>
      Legal(c, s, schedule) && i < c.n && Enabled(c, Run(c, s, schedule), i)
    decreases |schedule|
  {
    hide Enabled;
    if schedule == [] {
      assert schedule + [i] == [i] && [i][1..] == [];
    } else {
      assert (schedule + [i])[1..] == schedule[1..] + [i];
      if schedule[0] < c.n {

        LegalMore(c, Step(c, s, schedule[0]), schedule[1..], i);
      }
    }
  }

  /** A run goes on with exactly the philosophers that `MayMove` says. */
  lemma WhoMoves(c: Setup, schedule: seq<nat>, i: nat)
    requires c.n >= 1 && Legal(c, Init(c), schedule) && i < c.n
    ensures Legal(c, Init(c), schedule + [i]) <==> MayMove(c, Run(c, Init(c), schedule), i)
  {
    hide Enabled, MayMove;
    InitInv(c);
    RunKeepsInv(c, Init(c), schedule);
    LegalMore(c, Init(c), schedule, i);
    EnabledIff(c, Run(c, Init(c), schedule), i);
  }

  // ---------- no deadlock with a chair to spare ----------

  /** Walking round the ring: in a stuck state, whoever holds its left chopstick waits for a
      neighbour who does the same, up to the last one reached. */
  lemma {:induction false} WaitsRoundTheRing(c: Setup, s: State, i: nat, k: nat)
    requires c.n >= 1 && Inv(c, s) && Stuck(c, s)
    requires i < c.n && s.pc[i] == HasLeft && i + k < 2 * c.n
    ensures s.pc[if i + k < c.n then i + k else i + k - c.n] == HasLeft
    decreases k
  {
    hide Right;
    if k > 0 {
      WaitsRoundTheRing(c, s, i, k - 1);
      var j := if i + (k - 1) < c.n then i + (k - 1) else i + (k - 1) - c.n;
      assert !Enabled(c, s, j);
      assert ChopstickOk(c, s, Right(c.n, j)) && !Enabled(c, s, Right(c.n, j));
    }
  }

  lemma StuckIsFullRing(c: Setup, s: State)
    requires c.n >= 1 && c.chairs >= 1 && Inv(c, s) && Stuck(c, s)
    ensures forall i :: 0 <= i < c.n ==> s.pc[i] == HasLeft
    ensures c.n <= c.chairs
  {
    hide Right, Chairs;
    ChairsAll(s.pc);
    forall i | 0 <= i < c.n && s.free > 0 && s.pc[i] == Thinking ensures s.eaten[i] == c.rounds {
      assert !Enabled(c, s, i);
    }
    if i :| 0 <= i < c.n && s.pc[i] != Thinking {
      assert !Enabled(c, s, i) && ChopstickOk(c, s, i);
      assert !Enabled(c, s, LeftOf(c.n, i));
    }
    var i :| 0 <= i < c.n && s.pc[i] == HasLeft;
    forall j | 0 <= j < c.n ensures s.pc[j] == HasLeft {
      WaitsRoundTheRing(c, s, i, if j >= i then j - i else j + c.n - i);
    }
  }

  /** With fewer chairs than philosophers no reachable unfinished state is stuck. */
  lemma NeverStuck(c: Setup, schedule: seq<nat>)
    requires c.n >= 1 && 1 <= c.chairs < c.n && Legal(c, Init(c), schedule)
    ensures !Stuck(c, Run(c, Init(c), schedule))
  {
    InitInv(c);
    RunKeepsInv(c, Init(c), schedule);
    if Stuck(c, Run(c, Init(c), schedule)) {
      StuckIsFullRing(c, Run(c, Init(c), schedule));
    }
  }

  // ---------- deadlock without one ----------

  /** The first `k` philosophers sit and hold their left chopstick; the others still think. */
  function Grabbed(c: Setup, k: nat): State
    requires k <= c.n
  {
    State(c.chairs - k, seq(c.n, i => i < k), seq(c.n, i => if i < k then HasLeft else Thinking),
          seq(c.n, _ => 0))
  }

  lemma {:induction false} GrabRest(c: Setup, k: nat) returns (schedule: seq<nat>)
    requires k <= c.n <= c.chairs && c.rounds >= 1
    ensures Legal(c, Grabbed(c, k), schedule)
    ensures Run(c, Grabbed(c, k), schedule) == Grabbed(c, c.n)
    decreases c.n - k
  {
    if k == c.n {
      schedule := [];
    } else {
      var rest := GrabRest(c, k + 1);
      var s := Grabbed(c, k);
      var sat := Step(c, s, k);
      var grabbed := Step(c, sat, k);
      assert grabbed == Grabbed(c, k + 1);
      assert Enabled(c, s, k) && Enabled(c, sat, k);
      schedule := [k, k] + rest;
      assert schedule[1..] == [k] + rest && schedule[1..][1..] == rest;
      assert Legal(c, sat, [k] + rest);
    }
  }

  ghost predicate DeadlockFree(c: Setup) {
    forall schedule :: Legal(c, Init(c), schedule) ==> !Stuck(c, Run(c, Init(c), schedule))
  }

  /** The dinner is free of deadlock exactly when there is a chair, but fewer than philosophers. */
  lemma DeadlockFreeIffChairToSpare(c: Setup)
    requires c.n >= 1 && c.rounds >= 1
    ensures DeadlockFree(c) <==> 1 <= c.chairs < c.n
  {
    if 1 <= c.chairs < c.n {
      forall schedule | Legal(c, Init(c), schedule) ensures !Stuck(c, Run(c, Init(c), schedule)) {
        NeverStuck(c, schedule);
      }
    } else if c.chairs == 0 {
      assert Legal(c, Init(c), []) && Init(c).eaten[0] == 0;
      assert Stuck(c, Run(c, Init(c), []));
    } else {
      assert Init(c) == Grabbed(c, 0);
      var schedule := GrabRest(c, 0);
      assert Grabbed(c, c.n).pc[0] == HasLeft;
      assert Stuck(c, Run(c, Init(c), schedule));
    }
  }

  // ---------- every run ends, with everyone fed ----------

  function StepsOf(p: Pc): nat {
    match p
    case Thinking => 0
    case Seated => 1
    case HasLeft => 2
    case Eating => 3
    case Finishing => 4
    case Leaving => 5
  }

  /** The steps each philosopher has taken. */
  function Taken(c: Setup, s: State): (r: seq<nat>)
    requires Shaped(c, s)
    ensures |r| == c.n
  {
    seq(c.n, i requires 0 <= i < c.n => 6 * s.eaten[i] + StepsOf(s.pc[i]))
  }

  lemma StepAddsOne(c: Setup, s: State, i: nat)
    requires Shaped(c, s) && i < c.n
    ensures Sum(Taken(c, Step(c, s, i))) == Sum(Taken(c, s)) + 1
  {
    hide Right;
    var before := Taken(c, s);
    assert Taken(c, Step(c, s, i)) == before[i := before[i] + 1];
    SumUpdate(before, i, before[i] + 1);
  }

  lemma {:induction false} RunLength(c: Setup, s: State, schedule: seq<nat>)
    requires c.n >= 1 && Inv(c, s) && Legal(c, s, schedule)
    ensures Sum(Taken(c, Run(c, s, schedule))) == Sum(Taken(c, s)) + |schedule|
    decreases |schedule|
  {
    hide Enabled, Step, ChopstickOk, Taken;
    if schedule != [] {
      StepKeepsInv(c, s, schedule[0]);
      StepAddsOne(c, s, schedule[0]);
      RunLength(c, Step(c, s, schedule[0]), schedule[1..]);
    }
  }

  /** Every run is at most `6 * rounds * n` steps long, and one that can go no further has
      everybody fed `rounds` times, every chopstick unlocked and every chair free. */
  lemma EveryRunEndsFed(c: Setup, schedule: seq<nat>)
    requires c.n >= 1 && 1 <= c.chairs < c.n && Legal(c, Init(c), schedule)
    ensures |schedule| <= 6 * c.rounds * c.n
    ensures
      var t := Run(c, Init(c), schedule);
      (forall i :: 0 <= i < c.n ==> !Enabled(c, t, i)) ==>
        && Finished(c, t)
        && |schedule| == 6 * c.rounds * c.n
        && t.free == c.chairs
        && forall j :: 0 <= j < c.n ==> !t.locked[j]
  {
    hide Right, LeftOf, Enabled, Run, Legal, StepsOf, Stuck;
    var s, t := Init(c), Run(c, Init(c), schedule);
    InitInv(c);
    RunKeepsInv(c, s, schedule);
    RunLength(c, s, schedule);
    NoneAtStart(c);
    TakenBound(c, t);
    if forall i :: 0 <= i < c.n ==> !Enabled(c, t, i) {
      NeverStuck(c, schedule);
      FinishedUnlessStuck(c, t);
      ChairsAll(t.pc);
      forall j | 0 <= j < c.n ensures !t.locked[j] {
        assert ChopstickOk(c, t, j);
      }
    }
  }

  lemma FinishedUnlessStuck(c: Setup, s: State)
    requires Shaped(c, s) && !Stuck(c, s) && forall i :: 0 <= i < c.n ==> !Enabled(c, s, i)
    ensures Finished(c, s)
  {
  }

  lemma NoneAtStart(c: Setup)
    ensures Sum(Taken(c, Init(c))) == 0
  {
    SumBound(Taken(c, Init(c)), 0);
  }

  lemma TakenBound(c: Setup, s: State)
    requires Inv(c, s)
    ensures Sum(Taken(c, s)) <= 6 * c.rounds * c.n
    ensures Finished(c, s) ==> Sum(Taken(c, s)) == 6 * c.rounds * c.n
  {
    hide ChopstickOk, Chairs;
    SumBound(Taken(c, s), 6 * c.rounds);
  }
}
