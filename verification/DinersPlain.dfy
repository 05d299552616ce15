/** Dining philosophers with chopstick mutexes only, as a step system: any number `n >= 1` of
    philosophers and any number of rounds. */
module DinersPlain {
  import opened Ring
  import opened Sums

  datatype Pc =
    | Thinking   // about to lock the left chopstick
    | HasLeft    // about to lock the right one
    | Eating     // holds both, about to unlock the right one
    | Finishing  // about to unlock the left one

  datatype Setup = Setup(n: nat, rounds: nat)

  datatype State = State(locked: seq<bool>, pc: seq<Pc>, eaten: seq<nat>)

  predicate Shaped(c: Setup, s: State) {
    |s.locked| == c.n && |s.pc| == c.n && |s.eaten| == c.n
  }

  function Init(c: Setup): State {
    State(seq(c.n, _ => false), seq(c.n, _ => Thinking), seq(c.n, _ => 0))
  }

  predicate Enabled(c: Setup, s: State, i: nat)
    requires Shaped(c, s) && i < c.n
  {
    match s.pc[i]
    case Thinking => s.eaten[i] < c.rounds && !s.locked[i]
    case HasLeft => !s.locked[Right(c.n, i)]
    case _ => true
  }

  function Step(c: Setup, s: State, i: nat): State
    requires Shaped(c, s) && i < c.n
  {
    match s.pc[i]
    case Thinking => s.(locked := s.locked[i := true], pc := s.pc[i := HasLeft])
    case HasLeft => s.(locked := s.locked[Right(c.n, i) := true], pc := s.pc[i := Eating])
    case Eating => s.(locked := s.locked[Right(c.n, i) := false], pc := s.pc[i := Finishing])
    case Finishing =>
      State(s.locked[i := false], s.pc[i := Thinking], s.eaten[i := s.eaten[i] + 1])
  }

  predicate Finished(c: Setup, s: State)
    requires Shaped(c, s)
  {
    forall i :: 0 <= i < c.n ==> s.pc[i] == Thinking && s.eaten[i] == c.rounds
  }

  predicate Stuck(c: Setup, s: State)
    requires Shaped(c, s)
  {
    !Finished(c, s) && forall i :: 0 <= i < c.n ==> !Enabled(c, s, i)
  }

  predicate Legal(c: Setup, s: State, schedule: seq<nat>)
    requires Shaped(c, s)
    decreases |schedule|
  {
    schedule == []
    || (schedule[0] < c.n && Enabled(c, s, schedule[0])
        && Legal(c, Step(c, s, schedule[0]), schedule[1..]))
  }

  function Run(c: Setup, s: State, schedule: seq<nat>): (t: State)
    requires Shaped(c, s) && Legal(c, s, schedule)
    ensures Shaped(c, t)
    decreases |schedule|
  {
    if schedule == [] then s else Run(c, Step(c, s, schedule[0]), schedule[1..])
  }

  predicate HoldsLeft(p: Pc) {
    p != Thinking
  }

  predicate ChopstickOk(c: Setup, s: State, j: nat)
    requires Shaped(c, s) && j < c.n
  {
    && (s.locked[j] <==> HoldsLeft(s.pc[j]) || s.pc[LeftOf(c.n, j)] == Eating)
    && !(HoldsLeft(s.pc[j]) && s.pc[LeftOf(c.n, j)] == Eating)
  }

  predicate EatenOk(c: Setup, s: State, j: nat)
    requires Shaped(c, s) && j < c.n
  {
    s.eaten[j] <= c.rounds && (s.pc[j] != Thinking ==> s.eaten[j] < c.rounds)
  }

  predicate Inv(c: Setup, s: State) {
    && Shaped(c, s)
    && (forall j :: 0 <= j < c.n ==> ChopstickOk(c, s, j))
    && (forall j :: 0 <= j < c.n ==> EatenOk(c, s, j))
  }

  lemma InitInv(c: Setup)
    ensures Inv(c, Init(c))
  {
  }

  lemma StepKeepsInv(c: Setup, s: State, i: nat)
    requires Inv(c, s) && i < c.n && Enabled(c, s, i)
    ensures Inv(c, Step(c, s, i))
  {
    hide Right;
    var t := Step(c, s, i);
    forall j | 0 <= j < c.n ensures ChopstickOk(c, t, j) {
      assert ChopstickOk(c, s, j) && ChopstickOk(c, s, i) && ChopstickOk(c, s, Right(c.n, i));
    }
    forall j | 0 <= j < c.n ensures EatenOk(c, t, j) {
      assert EatenOk(c, s, j);
    }
  }

  lemma {:induction false} RunKeepsInv(c: Setup, s: State, schedule: seq<nat>)
    requires Inv(c, s) && Legal(c, s, schedule)
    ensures Inv(c, Run(c, s, schedule))
    decreases |schedule|
  {
    if schedule != [] {
      StepKeepsInv(c, s, schedule[0]);
      RunKeepsInv(c, Step(c, s, schedule[0]), schedule[1..]);
    }
  }

  /** Who can go on, told from where the others are: a philosopher with a round left waits for
      its left neighbour to be done eating, and one that holds the left chopstick for its right
      neighbour to put that one's left chopstick down. */
  predicate MayMove(c: Setup, s: State, i: nat)
    requires Shaped(c, s) && i < c.n
  {
    match s.pc[i]
    case Thinking => s.eaten[i] < c.rounds && s.pc[LeftOf(c.n, i)] != Eating
    case HasLeft => !HoldsLeft(s.pc[Right(c.n, i)])
    case _ => true
  }

  lemma EnabledIff(c: Setup, s: State, i: nat)
    requires Inv(c, s) && i < c.n
    ensures Enabled(c, s, i) <==> MayMove(c, s, i)
  {
    hide Right;
    assert ChopstickOk(c, s, i) && ChopstickOk(c, s, Right(c.n, i));
    LeftOfRight(c.n, i);
  }

  lemma {:induction false} LegalMore(c: Setup, s: State, schedule: seq<nat>, i: nat)
    requires Shaped(c, s)
    ensures Legal(c, s, schedule + [i]) <==>
      Legal(c, s, schedule) && i < c.n && Enabled(c, Run(c, s, schedule), i)
    decreases |schedule|
  {
    hide Enabled;
    if schedule == [] {
      assert schedule + [i] == [i] && [i][1..] == [];
    } else {
      assert (schedule + [i])[1..] == schedule[1..] + [i];
      if schedule[0] < c.n {
        LegalMore(c, Step(c, s, schedule[0]), schedule[1..], i);
      }
    }
  }

  /** A run goes on with exactly the philosophers that `MayMove` says. */
  lemma WhoMoves(c: Setup, schedule: seq<nat>, i: nat)
    requires Legal(c, Init(c), schedule) && i < c.n
    ensures Legal(c, Init(c), schedule + [i]) <==> MayMove(c, Run(c, Init(c), schedule), i)
  {
    hide Enabled, MayMove;
    InitInv(c);
    RunKeepsInv(c, Init(c), schedule);
    LegalMore(c, Init(c), schedule, i);
    EnabledIff(c, Run(c, Init(c), schedule), i);
  }

  /** Every philosopher holds its own left chopstick and waits for its right one. */
  predicate AllHoldLeft(c: Setup, s: State)
    requires Shaped(c, s)
  {
    forall i :: 0 <= i < c.n ==> s.pc[i] == HasLeft
  }

  /** In a stuck state, a philosopher who waits for a chopstick waits for a right neighbour who
      waits too, all the way round. */
  lemma {:induction false} WaitsRoundTheRing(c: Setup, s: State, i: nat, k: nat)
    requires Inv(c, s) && Stuck(c, s)
    requires i < c.n && s.pc[i] == HasLeft && i + k < 2 * c.n
    ensures s.pc[if i + k < c.n then i + k else i + k - c.n] == HasLeft
    decreases k
  {
    hide Right;
    if k > 0 {
      WaitsRoundTheRing(c, s, i, k - 1);
      var j := if i + (k - 1) < c.n then i + (k - 1) else i + (k - 1) - c.n;
      assert !Enabled(c, s, j);
      assert ChopstickOk(c, s, Right(c.n, j)) && !Enabled(c, s, Right(c.n, j));
    }
  }

  lemma StuckMeansAllHoldLeft(c: Setup, s: State)
    requires Inv(c, s) && Stuck(c, s)
    ensures AllHoldLeft(c, s)
  {
    hide Right;
    var i :| 0 <= i < c.n && !(s.pc[i] == Thinking && s.eaten[i] == c.rounds);
    assert !Enabled(c, s, i) && ChopstickOk(c, s, i) && EatenOk(c, s, i);
    assert !Enabled(c, s, LeftOf(c.n, i));
    forall j | 0 <= j < c.n ensures s.pc[j] == HasLeft {
      WaitsRoundTheRing(c, s, i, if j >= i then j - i else j + c.n - i);
    }
  }

  /** A reachable state is stuck before the end exactly when every philosopher holds its left
      chopstick. */
  lemma StuckIffAllHoldLeft(c: Setup, schedule: seq<nat>)
    requires c.n >= 1 && Legal(c, Init(c), schedule)
    ensures
      var s := Run(c, Init(c), schedule);
      Stuck(c, s) <==> AllHoldLeft(c, s)
  {
    RunKeepsInv(c, Init(c), schedule);
    var s := Run(c, Init(c), schedule);
    if Stuck(c, s) {
      StuckMeansAllHoldLeft(c, s);
    }
    if AllHoldLeft(c, s) {
      assert s.pc[0] != Thinking;
      forall i | 0 <= i < c.n ensures !Enabled(c, s, i) {
        assert ChopstickOk(c, s, Right(c.n, i));
      }
    }
  }

  function Grabbed(c: Setup, k: nat): State
    requires k <= c.n
  {
    State(seq(c.n, i => i < k), seq(c.n, i => if i < k then HasLeft else Thinking), seq(c.n, _ => 0))
  }

  lemma {:induction false} GrabRest(c: Setup, k: nat) returns (schedule: seq<nat>)
    requires k <= c.n && c.rounds >= 1
    ensures Legal(c, Grabbed(c, k), schedule)
    ensures Run(c, Grabbed(c, k), schedule) == Grabbed(c, c.n)
    decreases c.n - k
  {
    if k == c.n {
      schedule := [];
    } else {
      var rest := GrabRest(c, k + 1);
      assert Step(c, Grabbed(c, k), k) == Grabbed(c, k + 1);
      schedule := [k] + rest;
      assert schedule[1..] == rest;
    }
  }

  /** And the deadlock is real: for every number of philosophers some run ends in it. */
  lemma DeadlockIsReachable(c: Setup) returns (schedule: seq<nat>)
    requires c.n >= 1 && c.rounds >= 1
    ensures Legal(c, Init(c), schedule) && Stuck(c, Run(c, Init(c), schedule))
  {
    assert Init(c) == Grabbed(c, 0);
    schedule := GrabRest(c, 0);
    StuckIffAllHoldLeft(c, schedule);
  }

  // ---------- every run ends, fed or stuck ----------

  function StepsOf(p: Pc): nat {
    match p
    case Thinking => 0
    case HasLeft => 1
    case Eating => 2
    case Finishing => 3
  }

  /** The steps each philosopher has taken. */
  function Taken(c: Setup, s: State): (r: seq<nat>)
    requires Shaped(c, s)
    ensures |r| == c.n
  {
    seq(c.n, i requires 0 <= i < c.n => 4 * s.eaten[i] + StepsOf(s.pc[i]))
  }

  lemma StepAddsOne(c: Setup, s: State, i: nat)
    requires Shaped(c, s) && i < c.n
    ensures Sum(Taken(c, Step(c, s, i))) == Sum(Taken(c, s)) + 1
  {
    hide Right;
    var before := Taken(c, s);
    assert Taken(c, Step(c, s, i)) == before[i := before[i] + 1];
    SumUpdate(before, i, before[i] + 1);
  }

  lemma {:induction false} RunLength(c: Setup, s: State, schedule: seq<nat>)
    requires Inv(c, s) && Legal(c, s, schedule)
    ensures Sum(Taken(c, Run(c, s, schedule))) == Sum(Taken(c, s)) + |schedule|
    decreases |schedule|
  {
    hide Enabled, Step, ChopstickOk, Taken;
    if schedule != [] {
      StepKeepsInv(c, s, schedule[0]);
      StepAddsOne(c, s, schedule[0]);
      RunLength(c, Step(c, s, schedule[0]), schedule[1..]);
    }
  }

  /** Every run is at most `4 * rounds * n` steps long. One that can go no further has either
      that length, everybody fed and every chopstick unlocked, or has everybody holding the
      left chopstick. */
  lemma EveryRunEndsFedOrStuck(c: Setup, schedule: seq<nat>)
    requires c.n >= 1 && Legal(c, Init(c), schedule)
    ensures |schedule| <= 4 * c.rounds * c.n
    ensures
      var t := Run(c, Init(c), schedule);
      (forall i :: 0 <= i < c.n ==> !Enabled(c, t, i)) ==>
        if AllHoldLeft(c, t) then |schedule| < 4 * c.rounds * c.n
        else
          && Finished(c, t)
          && |schedule| == 4 * c.rounds * c.n
          && forall j :: 0 <= j < c.n ==> !t.locked[j]
  {
    hide Right, LeftOf, Enabled, Run, Legal, Taken, ChopstickOk, EatenOk;
    var s, t := Init(c), Run(c, Init(c), schedule);
    InitInv(c);
    RunKeepsInv(c, s, schedule);
    RunLength(c, s, schedule);
    NoneAtStart(c);
    TakenBound(c, t);
    StuckIffAllHoldLeft(c, schedule);
    if AllHoldLeft(c, t) {
      FewerThanAll(c, t);
    } else if Finished(c, t) {
      AllUnlocked(c, t);
    }
  }

  lemma NoneAtStart(c: Setup)
    ensures Sum(Taken(c, Init(c))) == 0
  {
    SumBound(Taken(c, Init(c)), 0);
  }

  lemma TakenBound(c: Setup, s: State)
    requires Inv(c, s)
    ensures Sum(Taken(c, s)) <= 4 * c.rounds * c.n
    ensures Finished(c, s) ==> Sum(Taken(c, s)) == 4 * c.rounds * c.n
  {
    forall i | 0 <= i < c.n ensures Taken(c, s)[i] <= 4 * c.rounds {
      assert EatenOk(c, s, i);
    }
    SumBound(Taken(c, s), 4 * c.rounds);
  }

  lemma AllUnlocked(c: Setup, s: State)
    requires Inv(c, s) && Finished(c, s)
    ensures forall j :: 0 <= j < c.n ==> !s.locked[j]
  {
    forall j | 0 <= j < c.n ensures !s.locked[j] {
      assert ChopstickOk(c, s, j);
    }
  }

  lemma FewerThanAll(c: Setup, s: State)
    requires c.n >= 1 && Inv(c, s) && AllHoldLeft(c, s)
    ensures Sum(Taken(c, s)) < 4 * c.rounds * c.n
  {
    var taken, cap := Taken(c, s), 4 * c.rounds;
    forall i | 0 <= i < c.n ensures taken[i] < cap {
      assert EatenOk(c, s, i);
    }
    SumBound(taken[0 := taken[0] + 1], cap);
    SumUpdate(taken, 0, taken[0] + 1);
  }
}
