/** The smokers' table as a step system: an agent serves three pairs of ingredients a round and
    waits after each for the smoker who takes it. Any number of rounds; no spurious wake-ups,
    and a signal sent while the agent does not wait is lost. Smoker `k` waits for pair `k`. */
module Smokers {
  import opened Sums

  datatype AgentPc =
    | Idle      // about to lock the table, or finished after the last round
    | Serving   // about to put pair `phase` on the table
    | Posting   // about to post its semaphore
    | Pausing   // about to wait, which releases the table
    | Waiting   // asleep on the condition variable
    | Woken     // about to lock the table again
    | Unlocking // about to unlock after the third pair

  datatype SmokerPc =
    | AtSemaphore // about to wait on its semaphore, or finished after the last round
    | Locking     // about to lock the table
    | Consuming   // about to take its pair
    | Signalling  // about to signal the agent
    | Releasing   // about to unlock the table

  datatype Owner = Free | Agent | Smoker(k: nat)

  datatype Table = Table(tobacco: int, matches: int, paper: int)

  datatype State = State(
    table: Table, posted: seq<int>, mutex: Owner,
    agent: AgentPc, phase: nat, round: nat,
    smoker: seq<SmokerPc>, smoked: seq<nat>)

  datatype Thread = TheAgent | TheSmoker(k: nat)

  const EMPTY := Table(0, 0, 0)

  function Plus(t: Table, k: nat, sign: int): Table {
    Table(t.tobacco + (if k != 1 then sign else 0),
          t.matches + (if k != 0 then sign else 0),
          t.paper + (if k != 2 then sign else 0))
  }

  predicate Shaped(s: State) {
    |s.posted| == 3 && |s.smoker| == 3 && |s.smoked| == 3 && s.phase < 3
  }

  function Init(): State {
    State(EMPTY, [0, 0, 0], Free, Idle, 0, 0, [AtSemaphore, AtSemaphore, AtSemaphore], [0, 0, 0])
  }

  predicate Enabled(rounds: nat, s: State, t: Thread)
    requires Shaped(s)
  {
    match t
    case TheAgent =>
      (match s.agent
       case Idle => s.round < rounds && s.mutex == Free
       case Waiting => false
       case Woken => s.mutex == Free
       case _ => true)
    case TheSmoker(k) =>
      k < 3 &&
      (match s.smoker[k]
       case AtSemaphore => s.smoked[k] < rounds && s.posted[k] > 0
       case Locking => s.mutex == Free
       case _ => true)
  }

  function AgentStep(s: State): State
    requires Shaped(s)
  {
    match s.agent
    case Idle => s.(mutex := Agent, agent := Serving, phase := 0)
    case Serving => s.(table := Plus(s.table, s.phase, 1), agent := Posting)
    case Posting => s.(posted := s.posted[s.phase := s.posted[s.phase] + 1], agent := Pausing)
    case Pausing => s.(mutex := Free, agent := Waiting)
    case Waiting => s
    case Woken =>
      if s.phase < 2 then s.(mutex := Agent, agent := Serving, phase := s.phase + 1)
      else s.(mutex := Agent, agent := Unlocking)
    case Unlocking => s.(mutex := Free, agent := Idle, phase := 0, round := s.round + 1)
  }

  function SmokerStep(s: State, k: nat): State
    requires Shaped(s) && k < 3
  {
    match s.smoker[k]
    case AtSemaphore =>
      s.(posted := s.posted[k := s.posted[k] - 1], smoker := s.smoker[k := Locking])
    case Locking => s.(mutex := Smoker(k), smoker := s.smoker[k := Consuming])
    case Consuming => s.(table := Plus(s.table, k, -1), smoker := s.smoker[k := Signalling])
    case Signalling =>
      s.(agent := if s.agent == Waiting then Woken else s.agent, smoker := s.smoker[k := Releasing])
    case Releasing =>
      s.(mutex := Free, smoker := s.smoker[k := AtSemaphore], smoked := s.smoked[k := s.smoked[k] + 1])
  }

  function Step(s: State, t: Thread): (r: State)
    requires Shaped(s) && (t.TheSmoker? ==> t.k < 3)
    ensures Shaped(r)
  {
    match t
    case TheAgent => AgentStep(s)
    case TheSmoker(k) => SmokerStep(s, k)
  }

  predicate Legal(rounds: nat, s: State, schedule: seq<Thread>)
    requires Shaped(s)
    decreases |schedule|
  {
    schedule == []
    || (Enabled(rounds, s, schedule[0]) && Legal(rounds, Step(s, schedule[0]), schedule[1..]))
  }

  function Run(rounds: nat, s: State, schedule: seq<Thread>): (t: State)
    requires Shaped(s) && Legal(rounds, s, schedule)
    ensures Shaped(t)
    decreases |schedule|
  {
    if schedule == [] then s else Run(rounds, Step(s, schedule[0]), schedule[1..])
  }

  predicate Finished(rounds: nat, s: State)
    requires Shaped(s)
  {
    && s.agent == Idle && s.round == rounds
    && forall k :: 0 <= k < 3 ==> s.smoker[k] == AtSemaphore && s.smoked[k] == rounds
  }

  predicate NoneEnabled(rounds: nat, s: State)
    requires Shaped(s)
  {
    !Enabled(rounds, s, TheAgent) && forall k :: 0 <= k < 3 ==> !Enabled(rounds, s, TheSmoker(k))
  }

  // ---------- the invariant ----------

  /** Where the smoker of the current phase may be, given the agent. */
  predicate ActiveOk(s: State)
    requires Shaped(s)
  {
    var p := s.smoker[s.phase];
    match s.agent
    case Idle => p == AtSemaphore && s.phase == 0
    case Serving => p == AtSemaphore
    case Posting => p == AtSemaphore
    case Pausing => p == AtSemaphore || p == Locking
    case Waiting => p != Releasing
    case Woken => p == AtSemaphore || p == Releasing
    case Unlocking => p == AtSemaphore && s.phase == 2
  }

  predicate OnTable(s: State)
    requires Shaped(s)
  {
    || s.agent == Posting || s.agent == Pausing
    || (s.agent == Waiting && s.smoker[s.phase] != Signalling)
  }

  /** How often smoker `k` has been through: one more than the agent's round once its own phase
      is over. */
  function Expected(s: State, k: nat): nat
    requires Shaped(s) && k < 3
  {
    if s.agent != Idle
       && (k < s.phase || s.agent == Unlocking
           || (k == s.phase && s.agent == Woken && s.smoker[k] == AtSemaphore))
    then s.round + 1 else s.round
  }

  predicate Inv(rounds: nat, s: State) {
    && Shaped(s)
    && s.round <= rounds && (s.agent != Idle ==> s.round < rounds)
    && ActiveOk(s)
    && s.table == (if OnTable(s) then Plus(EMPTY, s.phase, 1) else EMPTY)
    && s.mutex == (if s.agent == Serving || s.agent == Posting || s.agent == Pausing || s.agent == Unlocking
                   then Agent
                   else if s.smoker[s.phase] == Consuming || s.smoker[s.phase] == Signalling
                           || s.smoker[s.phase] == Releasing then Smoker(s.phase)
                   else Free)
    && (forall k :: 0 <= k < 3 ==>
          && (k != s.phase ==> s.smoker[k] == AtSemaphore)
          && s.smoked[k] == Expected(s, k)
          && s.posted[k] == (if k == s.phase && (s.agent == Pausing || s.agent == Waiting)
                                && s.smoker[k] == AtSemaphore then 1 else 0))
  }

  lemma AgentKeepsInv(rounds: nat, s: State)
    requires Inv(rounds, s) && Enabled(rounds, s, TheAgent)
    ensures Inv(rounds, AgentStep(s))
  {
  }

  lemma SmokerKeepsInv(rounds: nat, s: State, k: nat)
    requires Inv(rounds, s) && Enabled(rounds, s, TheSmoker(k))
    ensures Inv(rounds, SmokerStep(s, k))
  {
  }

  lemma StepKeepsInv(rounds: nat, s: State, t: Thread)
    requires Inv(rounds, s) && Enabled(rounds, s, t)
    ensures Inv(rounds, Step(s, t))
  {
    hide AgentStep, SmokerStep, Enabled;
    match t
    case TheAgent => AgentKeepsInv(rounds, s);
    case TheSmoker(k) => SmokerKeepsInv(rounds, s, k);
  }

  lemma {:induction false} RunKeepsInv(rounds: nat, s: State, schedule: seq<Thread>)
    requires Inv(rounds, s) && Legal(rounds, s, schedule)
    ensures Inv(rounds, Run(rounds, s, schedule))
    decreases |schedule|
  {
    hide AgentStep, SmokerStep, ActiveOk;
    if schedule != [] {
      StepKeepsInv(rounds, s, schedule[0]);
      RunKeepsInv(rounds, Step(s, schedule[0]), schedule[1..]);
    }
  }

  /** The table is empty or holds one of each ingredient of the current pair: tobacco and paper,
      then matches and paper, then tobacco and matches. A smoker about to take its pair finds
      just that, and whenever one signals, the agent is waiting, so the signal is not lost. */
  lemma TableAndSignals(rounds: nat, schedule: seq<Thread>)
    requires Legal(rounds, Init(), schedule)
    ensures
      var s := Run(rounds, Init(), schedule);
      && (s.table == Table(0, 0, 0)
          || (s.phase == 0 && s.table == Table(1, 0, 1))
          || (s.phase == 1 && s.table == Table(0, 1, 1))
          || (s.phase == 2 && s.table == Table(1, 1, 0)))
      && (s.smoker[0] == Consuming ==> s.table == Table(1, 0, 1))
      && (s.smoker[1] == Consuming ==> s.table == Table(0, 1, 1))
      && (s.smoker[2] == Consuming ==> s.table == Table(1, 1, 0))
      && forall k :: 0 <= k < 3 && s.smoker[k] == Signalling ==>
        s.agent == Waiting && s.table == Table(0, 0, 0)
  {
    RunKeepsInv(rounds, Init(), schedule);
  }

  /** Who can go on, told from where the others are: the agent waits for the table and for its
      signal, a smoker for its own pair to be posted and for the agent to leave the table. */
  predicate MayMove(rounds: nat, s: State, t: Thread)
    requires Shaped(s)
  {
    match t
    case TheAgent =>
      (match s.agent
       case Idle => s.round < rounds
       case Waiting => false
       case Woken => forall k :: 0 <= k < 3 ==> s.smoker[k] == AtSemaphore
       case _ => true)
    case TheSmoker(k) =>
      k < 3 &&
      (match s.smoker[k]
       case AtSemaphore => s.phase == k && (s.agent == Pausing || s.agent == Waiting)
       case Locking => s.agent == Waiting
       case _ => true)
  }

  lemma EnabledIff(rounds: nat, s: State, t: Thread)
    requires Inv(rounds, s)
    ensures Enabled(rounds, s, t) <==> MayMove(rounds, s, t)
  {
  }

  lemma {:induction false} LegalMore(rounds: nat, s: State, schedule: seq<Thread>, t: Thread)
    requires Shaped(s)
    ensures Legal(rounds, s, schedule + [t]) <==>
      Legal(rounds, s, schedule) && Enabled(rounds, Run(rounds, s, schedule), t)
    decreases |schedule|
  {
    hide Step;
    if schedule == [] {
      assert schedule + [t] == [t] && [t][1..] == [];
    } else {
      assert (schedule + [t])[1..] == schedule[1..] + [t];
      if Enabled(rounds, s, schedule[0]) {
        LegalMore(rounds, Step(s, schedule[0]), schedule[1..], t);
      }
    }
  }

  /** A run goes on with exactly the threads that `MayMove` says. */
  lemma WhoMoves(rounds: nat, schedule: seq<Thread>, t: Thread)
    requires Legal(rounds, Init(), schedule)
    ensures Legal(rounds, Init(), schedule + [t]) <==> MayMove(rounds, Run(rounds, Init(), schedule), t)
  {
    hide Enabled, MayMove;
    RunKeepsInv(rounds, Init(), schedule);
    LegalMore(rounds, Init(), schedule, t);
    EnabledIff(rounds, Run(rounds, Init(), schedule), t);
  }

  /** No reachable state is stuck before everybody is through. */
  lemma NeverStuck(rounds: nat, s: State)
    requires Inv(rounds, s) && NoneEnabled(rounds, s)
    ensures Finished(rounds, s)
  {
    assert !Enabled(rounds, s, TheSmoker(s.phase));
  }

  // ---------- every run ends ----------

  function AgentSteps(s: State): nat {
    14 * s.round +
    match s.agent
    case Idle => 0
    case Serving => 1 + 4 * s.phase
    case Posting => 2 + 4 * s.phase
    case Pausing => 3 + 4 * s.phase
    case Waiting => 4 + 4 * s.phase
    case Woken => 4 + 4 * s.phase
    case Unlocking => 13
  }

  function StepsOf(p: SmokerPc): nat {
    match p
    case AtSemaphore => 0
    case Locking => 1
    case Consuming => 2
    case Signalling => 3
    case Releasing => 4
  }

  /** The steps each smoker has taken. */
  function Taken(s: State): (r: seq<nat>)
    requires Shaped(s)
    ensures |r| == 3
  {
    seq(3, k requires 0 <= k < 3 => 5 * s.smoked[k] + StepsOf(s.smoker[k]))
  }

  function Progress(s: State): nat
    requires Shaped(s)
  {
    AgentSteps(s) + Sum(Taken(s))
  }

  lemma StepAddsOne(rounds: nat, s: State, t: Thread)
    requires Inv(rounds, s) && Enabled(rounds, s, t)
    ensures Progress(Step(s, t)) == Progress(s) + 1
  {
    hide AgentStep, SmokerStep, Progress, ActiveOk;
    match t
    case TheAgent => AgentAddsOne(rounds, s);
    case TheSmoker(k) => SmokerAddsOne(s, k);
  }

  lemma AgentAddsOne(rounds: nat, s: State)
    requires Inv(rounds, s) && Enabled(rounds, s, TheAgent)
    ensures Progress(AgentStep(s)) == Progress(s) + 1
  {
    hide Sum, Expected;
    assert Taken(AgentStep(s)) == Taken(s);
  }

  lemma SmokerAddsOne(s: State, k: nat)
    requires Shaped(s) && k < 3
    ensures Progress(SmokerStep(s, k)) == Progress(s) + 1
  {
    hide Sum;
    var before := Taken(s);
    assert Taken(SmokerStep(s, k)) == before[k := before[k] + 1];
    SumUpdate(before, k, before[k] + 1);
  }

  lemma {:induction false} RunLength(rounds: nat, s: State, schedule: seq<Thread>)
    requires Inv(rounds, s) && Legal(rounds, s, schedule)
    ensures Progress(Run(rounds, s, schedule)) == Progress(s) + |schedule|
    decreases |schedule|
  {
    hide AgentStep, SmokerStep, ActiveOk, Progress;
    if schedule != [] {
      StepKeepsInv(rounds, s, schedule[0]);
      StepAddsOne(rounds, s, schedule[0]);
      RunLength(rounds, Step(s, schedule[0]), schedule[1..]);
    }
  }

  lemma NoneAtStart()
    ensures Progress(Init()) == 0
  {
    SumBound(Taken(Init()), 0);
  }

  lemma ProgressBound(rounds: nat, s: State)
    requires Inv(rounds, s)
    ensures Progress(s) <= 29 * rounds
    ensures Finished(rounds, s) ==> Progress(s) == 29 * rounds
  {
    hide Sum;
    SumBound(Taken(s), 5 * rounds);
  }

  /** Every run is at most `29 * rounds` steps long; one that can go no further has exactly that
      length, everybody through all rounds, an empty table and all semaphores at zero. */
  lemma EveryRunEndsClean(rounds: nat, schedule: seq<Thread>)
    requires Legal(rounds, Init(), schedule)
    ensures |schedule| <= 29 * rounds
    ensures
      var s := Run(rounds, Init(), schedule);
      NoneEnabled(rounds, s) ==>
        Finished(rounds, s) && |schedule| == 29 * rounds
        && s.table == EMPTY && s.posted == [0, 0, 0] && s.mutex == Free
  {
    hide Enabled, Step, AgentStep, SmokerStep, Legal, Run, Progress;
    RunKeepsInv(rounds, Init(), schedule);
    RunLength(rounds, Init(), schedule);
    var s := Run(rounds, Init(), schedule);
    NoneAtStart();
    ProgressBound(rounds, s);
    if NoneEnabled(rounds, s) {
      NeverStuck(rounds, s);
    }
  }
}
