/** Matrix multiplication split into row slices, one per thread. */
module MatrixMultiply {

  // ---------- the slices ----------

  /** The first row of slice `s` of `threads`; slice `s` ends where slice `s + 1` starts. */
  function From(s: nat, size: nat, threads: nat): nat
    requires threads >= 1
  {
    (s * size) / threads
  }

  lemma DivUnique(a: nat, t: nat, i: nat)
    requires t >= 1
    ensures a / t <= i <==> a < (i + 1) * t
  {
    var q, r := a / t, a % t;
    assert a == q * t + r && r < t;
    if q <= i {
      assert q * t <= i * t && (i + 1) * t == i * t + t;
    } else {
      assert q * t >= (i + 1) * t;
    }
  }

  predicate InSlice(i: nat, s: nat, size: nat, threads: nat)
    requires threads >= 1
  {
    From(s, size, threads) <= i < From(s + 1, size, threads)
  }

  /** The slice that row `i` belongs to: the last one that starts no later. */
  function SliceOf(i: nat, size: nat, threads: nat): nat
    requires threads >= 1 && size >= 1
  {
    ((i + 1) * threads - 1) / size
  }

  lemma MulMonotone(a: nat, b: nat, c: nat)
    requires a <= b
    ensures a * c <= b * c && c * a <= c * b
  {
  }

  lemma OneMore(a: nat, b: nat)
    ensures (a + 1) * b == a * b + b
  {
  }

  lemma BlockOf(top: nat, size: nat)
    requires size >= 1 && top >= 1
    ensures
      var q := (top - 1) / size;
      q * size < top <= (q + 1) * size
  {
    var q := (top - 1) / size;
    assert top - 1 == q * size + (top - 1) % size;
    assert (q + 1) * size == q * size + size;
  }

  lemma BlockUnique(top: nat, size: nat, q: nat, s: nat)
    requires q * size < top <= (q + 1) * size
    ensures s * size < top <= (s + 1) * size <==> s == q
  {
    if s < q {
      MulMonotone(s + 1, q, size);
    } else if s > q {
      MulMonotone(q + 1, s, size);
    }
  }

  /** Every row is in exactly one slice, for any size and any number of threads. */
  lemma RowInOneSlice(i: nat, size: nat, threads: nat, s: nat)
    requires threads >= 1 && i < size
    ensures InSlice(i, s, size, threads) <==> s == SliceOf(i, size, threads)
    ensures SliceOf(i, size, threads) < threads
  {
    var top := (i + 1) * threads;
    assert top >= 1 by {
      MulMonotone(1, i + 1, threads);
    }
    var q := SliceOf(i, size, threads);
    BlockOf(top, size);
    BlockUnique(top, size, q, s);
    DivUnique(s * size, threads, i);
    DivUnique((s + 1) * size, threads, i);
    if q >= threads {
      MulMonotone(threads, q, size);
      MulMonotone(i + 1, size, threads);
    }
  }

  // ---------- the product ----------

  type Matrix = seq<seq<int>>

  predicate Square(m: Matrix, size: nat) {
    |m| == size && forall i :: 0 <= i < size ==> |m[i]| == size
  }

  /** The sum of the first `k` terms of the product's entry at `i`, `j`. */
  function Partial(a: Matrix, b: Matrix, size: nat, i: nat, j: nat, k: nat): int
    requires Square(a, size) && Square(b, size) && i < size && j < size && k <= size
  {
    if k == 0 then 0 else Partial(a, b, size, i, j, k - 1) + a[i][k - 1] * b[k - 1][j]
  }

  /** A row of one matrix times a column of another, from the front. */
  function Dot(xs: seq<int>, ys: seq<int>): int
    requires |xs| == |ys|
  {
    if xs == [] then 0 else xs[0] * ys[0] + Dot(xs[1..], ys[1..])
  }

  function Column(m: Matrix, size: nat, j: nat): (r: seq<int>)
    requires Square(m, size) && j < size
    ensures |r| == size && forall i :: 0 <= i < size ==> r[i] == m[i][j]
  {
    seq(size, i requires 0 <= i < size => m[i][j])
  }

  lemma {:induction false} DotMore(xs: seq<int>, ys: seq<int>, x: int, y: int)
    requires |xs| == |ys|
    ensures Dot(xs + [x], ys + [y]) == Dot(xs, ys) + x * y
  {
    if xs == [] {
      assert xs + [x] == [x] && ys + [y] == [y];
    } else {
      assert (xs + [x])[1..] == xs[1..] + [x] && (ys + [y])[1..] == ys[1..] + [y];
      DotMore(xs[1..], ys[1..], x, y);
    }
  }

  lemma {:induction false} PartialIsDot(a: Matrix, b: Matrix, size: nat, i: nat, j: nat, k: nat)
    requires Square(a, size) && Square(b, size) && i < size && j < size && k <= size
    ensures Partial(a, b, size, i, j, k) == Dot(a[i][..k], Column(b, size, j)[..k])
  {
    if k > 0 {
      var row, column := a[i], Column(b, size, j);
      PartialIsDot(a, b, size, i, j, k - 1);
      assert row[..k] == row[..k - 1] + [row[k - 1]];
      assert column[..k] == column[..k - 1] + [column[k - 1]];
      DotMore(row[..k - 1], column[..k - 1], row[k - 1], column[k - 1]);
    }
  }

  /** The entry that the loops add up is the row of the first matrix times the column of the
      second. */
  lemma EntryIsDot(a: Matrix, b: Matrix, size: nat, i: nat, j: nat)
    requires Square(a, size) && Square(b, size) && i < size && j < size
    ensures Partial(a, b, size, i, j, size) == Dot(a[i], Column(b, size, j))
  {
    PartialIsDot(a, b, size, i, j, size);
    assert a[i][..size] == a[i] && Column(b, size, j)[..size] == Column(b, size, j);
  }

  predicate EntryDone(a: Matrix, b: Matrix, c: Matrix, size: nat, i: nat, j: nat)
    requires Square(a, size) && Square(b, size) && Square(c, size) && i < size && j < size
  {
    c[i][j] == Partial(a, b, size, i, j, size)
  }

  // ---------- the threads as a step system ----------

  datatype Pc = Zeroing | Loading | Storing

  /** One thread: the loop variables, and the value it has loaded. */
  datatype Worker = Worker(i: nat, j: nat, k: nat, pc: Pc, loaded: int)

  datatype Setup = Setup(a: Matrix, b: Matrix, size: nat, threads: nat)

  datatype State = State(c: Matrix, worker: seq<Worker>)

  predicate SetupOk(u: Setup) {
    Square(u.a, u.size) && Square(u.b, u.size) && u.threads >= 1
  }

  function Init(u: Setup, c: Matrix): State
    requires SetupOk(u)
  {
    State(c, seq(u.threads, s requires 0 <= s < u.threads =>
      Worker(From(s, u.size, u.threads), 0, 0, Zeroing, 0)))
  }

  predicate Shaped(u: Setup, s: State) {
    SetupOk(u) && Square(s.c, u.size) && |s.worker| == u.threads
  }

  /** Worker `t` still has a row of its slice to do. */
  predicate Enabled(u: Setup, s: State, t: nat)
    requires Shaped(u, s)
  {
    t < u.threads && s.worker[t].i < From(t + 1, u.size, u.threads)
  }

  function Put(c: Matrix, i: nat, j: nat, v: int): Matrix {
    if i < |c| && j < |c[i]| then c[i := c[i][j := v]] else c
  }

  function Entry(m: Matrix, i: nat, j: nat): int {
    if i < |m| && j < |m[i]| then m[i][j] else 0
  }

  /** Where the loops go after term `k` has been added. */
  function Advanced(w: Worker, size: nat): Worker {
    if w.k + 1 < size then w.(k := w.k + 1, pc := Loading)
    else if w.j + 1 < size then Worker(w.i, w.j + 1, 0, Zeroing, 0)
    else Worker(w.i + 1, 0, 0, Zeroing, 0)
  }

  /** One access to the shared matrix: clearing an entry, loading it, or storing the new sum. */
  function Step(u: Setup, s: State, t: nat): (r: State)
    requires Shaped(u, s) && t < u.threads
    ensures Shaped(u, r)
  {
    var w := s.worker[t];
    match w.pc
    case Zeroing =>
      State(Put(s.c, w.i, w.j, 0), s.worker[t := w.(k := 0, pc := Loading)])
    case Loading =>
      State(s.c, s.worker[t := w.(loaded := Entry(s.c, w.i, w.j), pc := Storing)])
    case Storing =>
      State(Put(s.c, w.i, w.j, w.loaded + Entry(u.a, w.i, w.k) * Entry(u.b, w.k, w.j)),
            s.worker[t := Advanced(w, u.size)])
  }

  predicate Legal(u: Setup, s: State, schedule: seq<nat>)
    requires Shaped(u, s)
    decreases |schedule|
  {
    schedule == []
    || (Enabled(u, s, schedule[0]) && Legal(u, Step(u, s, schedule[0]), schedule[1..]))
  }

  function Run(u: Setup, s: State, schedule: seq<nat>): (r: State)
    requires Shaped(u, s) && Legal(u, s, schedule)
    ensures Shaped(u, r)
    decreases |schedule|
  {
    if schedule == [] then s else Run(u, Step(u, s, schedule[0]), schedule[1..])
  }

  /** Worker `t` is inside its slice, has finished the entries before its position, and its
      current entry is the partial sum up to its term. */
  predicate WorkerOk(u: Setup, s: State, t: nat)
    requires Shaped(u, s) && t < u.threads
  {
    var w, lo, hi := s.worker[t], From(t, u.size, u.threads), From(t + 1, u.size, u.threads);
    && lo <= w.i <= hi <= u.size
    && (w.i < hi ==>
          && w.j < u.size && w.k < u.size
          && (w.pc != Zeroing ==> s.c[w.i][w.j] == Partial(u.a, u.b, u.size, w.i, w.j, w.k))
          && (w.pc == Storing ==> w.loaded == s.c[w.i][w.j])
          && forall j :: 0 <= j < w.j ==> EntryDone(u.a, u.b, s.c, u.size, w.i, j))
    && (w.i == hi ==> w.j == 0 && w.pc == Zeroing)
    && forall i, j :: lo <= i < w.i && 0 <= j < u.size ==> EntryDone(u.a, u.b, s.c, u.size, i, j)
  }

  predicate Inv(u: Setup, s: State) {
    Shaped(u, s) && forall t :: 0 <= t < u.threads ==> WorkerOk(u, s, t)
  }

  lemma DivMonotone(a: nat, b: nat, t: nat)
    requires t >= 1 && a <= b
    ensures a / t <= b / t
  {
    DivUnique(b, t, b / t);
    DivUnique(a, t, b / t);
  }

  lemma DivExact(n: nat, t: nat)
    requires t >= 1
    ensures (t * n) / t == n
  {
    var q := (t * n) / t;
    assert t * n == n * t;
    OneMore(n, t);
    DivUnique(t * n, t, n);
    DivUnique(t * n, t, q);
    if q < n {
      MulMonotone(q + 1, n, t);
    }
  }

  /** The slices start at row 0, end at the last row, and lie in order. */
  lemma FromEnds(u: Setup)
    requires u.threads >= 1
    ensures From(0, u.size, u.threads) == 0 && From(u.threads, u.size, u.threads) == u.size
  {
    assert 0 * u.size == 0;
    DivExact(u.size, u.threads);
  }

  lemma FromMonotone(u: Setup, t: nat)
    requires u.threads >= 1 && t < u.threads
    ensures From(t, u.size, u.threads) <= From(t + 1, u.size, u.threads) <= u.size
  {
    FromEnds(u);
    MulMonotone(t, t + 1, u.size);
    MulMonotone(t + 1, u.threads, u.size);
    DivMonotone(t * u.size, (t + 1) * u.size, u.threads);
    DivMonotone((t + 1) * u.size, u.threads * u.size, u.threads);
  }

  lemma StepFrame(u: Setup, s: State, t: nat)
    requires Shaped(u, s) && t < u.threads
    ensures
      var r := Step(u, s, t);
      && (forall i :: 0 <= i < u.size && i != s.worker[t].i ==> r.c[i] == s.c[i])
      && (forall v :: 0 <= v < u.threads && v != t ==> r.worker[v] == s.worker[v])
  {
  }

  /** What a worker relies on is its own variables and the rows of its slice. */
  lemma WorkerOkFrame(u: Setup, s: State, r: State, v: nat)
    requires Shaped(u, s) && Shaped(u, r) && v < u.threads && WorkerOk(u, s, v)
    requires r.worker[v] == s.worker[v]
    requires forall i :: 0 <= i < u.size && InSlice(i, v, u.size, u.threads) ==> r.c[i] == s.c[i]
    ensures WorkerOk(u, r, v)
  {
    hide From, Partial, SliceOf;
    var w, lo, hi := s.worker[v], From(v, u.size, u.threads), From(v + 1, u.size, u.threads);
    forall i, j | 0 <= i < u.size && 0 <= j < u.size && InSlice(i, v, u.size, u.threads)
      ensures EntryDone(u.a, u.b, r.c, u.size, i, j) <==> EntryDone(u.a, u.b, s.c, u.size, i, j)
    {
      assert r.c[i] == s.c[i];
    }
    if w.i < hi {
      assert InSlice(w.i, v, u.size, u.threads);
    }
    forall i, j | lo <= i < w.i && 0 <= j < u.size ensures EntryDone(u.a, u.b, r.c, u.size, i, j) {
      assert InSlice(i, v, u.size, u.threads);
    }
  }

  /** A step of one worker stays within its slice, so no other worker notices. */
  lemma OthersUntouched(u: Setup, s: State, t: nat, v: nat)
    requires Shaped(u, s) && Enabled(u, s, t) && v < u.threads && v != t
    requires WorkerOk(u, s, t) && WorkerOk(u, s, v)
    ensures WorkerOk(u, Step(u, s, t), v)
  {
    hide From, Partial, SliceOf, Step, EntryDone;
    StepFrame(u, s, t);
    RowInOneSlice(s.worker[t].i, u.size, u.threads, t);
    RowInOneSlice(s.worker[t].i, u.size, u.threads, v);
    WorkerOkFrame(u, s, Step(u, s, t), v);
  }

  /** The worker that moves gets one access further. */
  lemma OwnStep(u: Setup, s: State, t: nat)
    requires Shaped(u, s) && Enabled(u, s, t) && WorkerOk(u, s, t)
    ensures WorkerOk(u, Step(u, s, t), t)
  {
    hide From, Partial;
    var w, r := s.worker[t], Step(u, s, t);
    FromMonotone(u, t);
    PartialZero(u, w.i, w.j);
    PartialStep(u, w.i, w.j, w.k);
    forall i, j | 0 <= i < u.size && 0 <= j < u.size && (i != w.i || j != w.j)
      ensures EntryDone(u.a, u.b, r.c, u.size, i, j) <==> EntryDone(u.a, u.b, s.c, u.size, i, j)
    {
      assert r.c[i][j] == s.c[i][j];
    }
    assert w.pc == Storing && w.k + 1 == u.size ==> EntryDone(u.a, u.b, r.c, u.size, w.i, w.j);
  }

  lemma PartialStep(u: Setup, i: nat, j: nat, k: nat)
    requires SetupOk(u) && i < u.size && j < u.size && k < u.size
    ensures Partial(u.a, u.b, u.size, i, j, k + 1)
         == Partial(u.a, u.b, u.size, i, j, k) + u.a[i][k] * u.b[k][j]
  {
  }

  lemma StepKeepsInv(u: Setup, s: State, t: nat)
    requires Inv(u, s) && Enabled(u, s, t)
    ensures Inv(u, Step(u, s, t))
  {
    hide Step, WorkerOk;
    forall v | 0 <= v < u.threads ensures WorkerOk(u, Step(u, s, t), v) {
      if v == t {
        OwnStep(u, s, t);
      } else {
        OthersUntouched(u, s, t, v);
      }
    }
  }

  lemma {:induction false} RunKeepsInv(u: Setup, s: State, schedule: seq<nat>)
    requires Inv(u, s) && Legal(u, s, schedule)
    ensures Inv(u, Run(u, s, schedule))
    decreases |schedule|
  {
    hide Step, WorkerOk;
    if schedule != [] {
      StepKeepsInv(u, s, schedule[0]);
      RunKeepsInv(u, Step(u, s, schedule[0]), schedule[1..]);
    }
  }

  lemma InitInv(u: Setup, c: Matrix)
    requires SetupOk(u) && Square(c, u.size)
    ensures Inv(u, Init(u, c))
  {
    hide From, EntryDone;
    forall t | 0 <= t < u.threads ensures WorkerOk(u, Init(u, c), t) {
      FromMonotone(u, t);
    }
  }

  /** Whatever the interleaving, once no thread has a row left the result matrix is the product
      of the two inputs, whatever it held before. */
  lemma AnyInterleavingMultiplies(u: Setup, c: Matrix, schedule: seq<nat>)
    requires SetupOk(u) && Square(c, u.size) && Legal(u, Init(u, c), schedule)
    ensures
      var s := Run(u, Init(u, c), schedule);
      (forall t :: 0 <= t < u.threads ==> !Enabled(u, s, t)) ==>
        forall i, j :: 0 <= i < u.size && 0 <= j < u.size ==>
          s.c[i][j] == Dot(u.a[i], Column(u.b, u.size, j))
  {
    hide Step, From, Partial;
    InitInv(u, c);
    RunKeepsInv(u, Init(u, c), schedule);
    var s := Run(u, Init(u, c), schedule);
    if forall t :: 0 <= t < u.threads ==> !Enabled(u, s, t) {
      forall i, j | 0 <= i < u.size && 0 <= j < u.size
        ensures s.c[i][j] == Dot(u.a[i], Column(u.b, u.size, j))
      {
        EntryIsDot(u.a, u.b, u.size, i, j);
        var t := SliceOf(i, u.size, u.threads);
        RowInOneSlice(i, u.size, u.threads, t);
        assert WorkerOk(u, s, t) && !Enabled(u, s, t);
        assert EntryDone(u.a, u.b, s.c, u.size, i, j);
      }
    }
  }

  // ---------- who can go on ----------

  lemma FromAtMost(s: nat, size: nat, threads: nat, i: nat)
    requires threads >= 1
    ensures From(s, size, threads) <= i <==> s * size < (i + 1) * threads
  {
    DivUnique(s * size, threads, i);
  }

  /** The rows of a slice, without division: of `size * threads` parts, slice `s` has those from
      `s * size` on, and it takes each row that ends among them. */
  lemma SliceBounds(i: nat, s: nat, size: nat, threads: nat)
    requires threads >= 1
    ensures InSlice(i, s, size, threads) <==>
      s * size < (i + 1) * threads && (i + 1) * threads <= (s + 1) * size
  {
    hide From;
    FromAtMost(s, size, threads, i);
    FromAtMost(s + 1, size, threads, i);
  }

  lemma {:induction false} LegalMore(u: Setup, s: State, schedule: seq<nat>, t: nat)
    requires Shaped(u, s)
    ensures Legal(u, s, schedule + [t]) <==>
      Legal(u, s, schedule) && Enabled(u, Run(u, s, schedule), t)
    decreases |schedule|
  {
    hide Step, From;
    if schedule == [] {
      assert schedule + [t] == [t] && [t][1..] == [];
    } else {
      assert (schedule + [t])[1..] == schedule[1..] + [t];
      if Enabled(u, s, schedule[0]) {
        LegalMore(u, Step(u, s, schedule[0]), schedule[1..], t);
      }
    }
  }

  /** A run goes on with exactly the threads whose slice still has a row: nobody waits for
      anybody. */
  lemma WhoMoves(u: Setup, c: Matrix, schedule: seq<nat>, t: nat)
    requires SetupOk(u) && Square(c, u.size) && Legal(u, Init(u, c), schedule) && t < u.threads
    ensures
      var w := Run(u, Init(u, c), schedule).worker[t];
      Legal(u, Init(u, c), schedule + [t]) <==> (w.i + 1) * u.threads <= (t + 1) * u.size
  {
    hide Step, From;
    LegalMore(u, Init(u, c), schedule, t);
    FromAtMost(t + 1, u.size, u.threads, Run(u, Init(u, c), schedule).worker[t].i);
  }

  // ---------- every run ends ----------

  /** The accesses to the shared matrix that one entry takes, and those that one row takes. */
  function EntryCost(size: nat): nat {
    2 * size + 1
  }

  function RowCost(size: nat): nat {
    size * EntryCost(size)
  }

  /** The number of accesses that lie before this position, from row 0 on. */
  function Position(w: Worker, size: nat): nat {
    w.i * RowCost(size) + w.j * EntryCost(size) +
    match w.pc
    case Zeroing => 0
    case Loading => 2 * w.k + 1
    case Storing => 2 * w.k + 2
  }

  lemma StepMovesOne(u: Setup, s: State, t: nat)
    requires Shaped(u, s) && Enabled(u, s, t) && WorkerOk(u, s, t)
    ensures Position(Step(u, s, t).worker[t], u.size) == Position(s.worker[t], u.size) + 1
  {
    hide From, Partial, EntryDone;
    var w := s.worker[t];
    OneMore(w.i, RowCost(u.size));
    OneMore(w.j, EntryCost(u.size));
  }

  lemma PositionInSlice(u: Setup, s: State, t: nat)
    requires Shaped(u, s) && t < u.threads && WorkerOk(u, s, t)
    ensures
      var end := From(t + 1, u.size, u.threads) * RowCost(u.size);
      && Position(s.worker[t], u.size) <= end
      && (!Enabled(u, s, t) ==> Position(s.worker[t], u.size) == end)
  {
    hide From, Partial, EntryDone;
    var w, hi := s.worker[t], From(t + 1, u.size, u.threads);
    if w.i < hi {
      MulMonotone(w.i + 1, hi, RowCost(u.size));
      OneMore(w.i, RowCost(u.size));
      MulMonotone(w.j + 1, u.size, EntryCost(u.size));
      OneMore(w.j, EntryCost(u.size));
    }
  }

  /** The accesses that the first `n` workers have made. */
  function Made(u: Setup, s: State, n: nat): int
    requires Shaped(u, s) && n <= u.threads
  {
    if n == 0 then 0
    else Made(u, s, n - 1) + Position(s.worker[n - 1], u.size)
         - From(n - 1, u.size, u.threads) * RowCost(u.size)
  }

  lemma {:induction false} MadeAtStart(u: Setup, c: Matrix, n: nat)
    requires SetupOk(u) && Square(c, u.size) && n <= u.threads
    ensures Made(u, Init(u, c), n) == 0
  {
    hide From, RowCost;
    if n > 0 {
      MadeAtStart(u, c, n - 1);
    }
  }

  lemma {:induction false} MadeByStep(u: Setup, s: State, t: nat, n: nat)
    requires Shaped(u, s) && Enabled(u, s, t) && WorkerOk(u, s, t) && n <= u.threads
    ensures Made(u, Step(u, s, t), n) == Made(u, s, n) + (if t < n then 1 else 0)
  {
    hide From, RowCost, Step, WorkerOk, Position;
    if n > 0 {
      MadeByStep(u, s, t, n - 1);
      StepMovesOne(u, s, t);
      StepFrame(u, s, t);
    }
  }

  /** Slices lie end to end, so the accesses add up to those of the rows covered. */
  lemma {:induction false} MadeAtMost(u: Setup, s: State, n: nat)
    requires Inv(u, s) && n <= u.threads
    ensures
      var all := From(n, u.size, u.threads) * RowCost(u.size);
      && Made(u, s, n) <= all
      && ((forall t :: 0 <= t < n ==> !Enabled(u, s, t)) ==> Made(u, s, n) == all)
  {
    hide RowCost, WorkerOk, Position, Enabled;
    if n == 0 {
      FromEnds(u);
    } else {
      hide From;
      MadeAtMost(u, s, n - 1);
      PositionInSlice(u, s, n - 1);
    }
  }

  lemma {:induction false} RunLength(u: Setup, s: State, schedule: seq<nat>)
    requires Inv(u, s) && Legal(u, s, schedule)
    ensures Made(u, Run(u, s, schedule), u.threads) == Made(u, s, u.threads) + |schedule|
    decreases |schedule|
  {
    hide Step, WorkerOk, Made;
    if schedule != [] {
      StepKeepsInv(u, s, schedule[0]);
      MadeByStep(u, s, schedule[0], u.threads);
      RunLength(u, Step(u, s, schedule[0]), schedule[1..]);
    }
  }

  /** Every run is at most `size * size * (2 * size + 1)` accesses long, and one that can go no
      further has exactly that length, for any number of threads. */
  lemma EveryRunEnds(u: Setup, c: Matrix, schedule: seq<nat>)
    requires SetupOk(u) && Square(c, u.size) && Legal(u, Init(u, c), schedule)
    ensures |schedule| <= u.size * RowCost(u.size)
    ensures
      (forall t :: 0 <= t < u.threads ==> !Enabled(u, Run(u, Init(u, c), schedule), t)) ==>
        |schedule| == u.size * RowCost(u.size)
  {
    hide Step, From, WorkerOk, Made, RowCost;
    InitInv(u, c);
    RunKeepsInv(u, Init(u, c), schedule);
    RunLength(u, Init(u, c), schedule);
    MadeAtStart(u, c, u.threads);
    MadeAtMost(u, Run(u, Init(u, c), schedule), u.threads);
    FromEnds(u);
  }

  // ---------- one slice on its own ----------

  ghost function Rows(m: array2<int>): (r: Matrix)
    requires m.Length0 == m.Length1
    reads m
    ensures Square(r, m.Length0)
    ensures forall i, j :: 0 <= i < m.Length0 && 0 <= j < m.Length1 ==> r[i][j] == m[i, j]
  {
    seq(m.Length0, i requires 0 <= i < m.Length0 reads m =>
      seq(m.Length1, j requires 0 <= j < m.Length1 reads m => m[i, j]))
  }

  /** What one thread computes: its slice of the product, and no other row. */
  method Multiply(s: nat, threads: nat, a: array2<int>, b: array2<int>, c: array2<int>)
    requires s < threads && c != a && c != b
    requires a.Length0 == a.Length1 == b.Length0 == b.Length1 == c.Length0 == c.Length1
    modifies c
    ensures forall i, j :: 0 <= i < c.Length0 && 0 <= j < c.Length0 ==>
      c[i, j] == if InSlice(i, s, c.Length0, threads)
                 then Dot(Rows(a)[i], Column(Rows(b), c.Length0, j))
                 else old(c[i, j])
  {
    var size := c.Length0;
    ghost var u := Setup(Rows(a), Rows(b), size, threads);
    FromMonotone(u, s);
    hide From, Partial;
    var from, to := (s * size) / threads, ((s + 1) * size) / threads;
    var i := from;
    while i < to
      invariant from <= i <= to
      invariant forall r, j :: 0 <= r < size && 0 <= j < size ==>
        c[r, j] == if from <= r < i then Partial(u.a, u.b, size, r, j, size) else old(c[r, j])
    {
      var j := 0;
      while j < size
        invariant j <= size
        invariant forall r, q :: 0 <= r < size && 0 <= q < size ==>
          c[r, q] == if from <= r < i || (r == i && q < j)
                     then Partial(u.a, u.b, size, r, q, size) else old(c[r, q])
      {
        c[i, j] := 0;
        var k := 0;
        PartialZero(u, i, j);
        while k < size
          invariant k <= size && c[i, j] == Partial(u.a, u.b, size, i, j, k)
          invariant forall r, q :: 0 <= r < size && 0 <= q < size && (r != i || q != j) ==>
            c[r, q] == if from <= r < i || (r == i && q < j)
                       then Partial(u.a, u.b, size, r, q, size) else old(c[r, q])
        {
          PartialStep(u, i, j, k);
          c[i, j] := c[i, j] + a[i, k] * b[k, j];
          k := k + 1;
        }
        j := j + 1;
      }
      i := i + 1;
    }
    forall r, j | 0 <= r < size && 0 <= j < size
      ensures Partial(u.a, u.b, size, r, j, size) == Dot(u.a[r], Column(u.b, size, j))
    {
      EntryIsDot(u.a, u.b, size, r, j);
    }
  }

  lemma PartialZero(u: Setup, i: nat, j: nat)
    requires SetupOk(u) && i < u.size && j < u.size
    ensures Partial(u.a, u.b, u.size, i, j, 0) == 0
  {
  }
}
