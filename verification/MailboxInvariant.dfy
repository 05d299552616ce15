/** What every step of the mailbox service keeps, from start-up on. */
module MailboxInvariant {
  import opened MailboxModel

  predicate Distinct<T(==)>(xs: seq<T>) {
    forall i, j :: 0 <= i < j < |xs| ==> xs[i] != xs[j]
  }

  predicate BoxesOk(boxes: seq<Mailbox>, lastId: int) {
    && |boxes| <= MAX_MAILBOX_COUNT
    && (forall i :: 0 <= i < |boxes| ==>
          boxes[i].id < lastId && |boxes[i].messages| <= MAX_MESSAGE_IN_MAILBOX)
    && (forall i, j :: 0 <= i < j < |boxes| ==>
          boxes[i].id != boxes[j].id && boxes[i].name != boxes[j].name)
  }

  /** A suspended deposit names a live mailbox that still lists its sender. It waits unflagged
      only while that mailbox is full, and is flagged only for the mailbox of the last request. */
  predicate RecordOk(s: State, r: Record) {
    var b := BoxAt(s.boxes, r.mailboxId);
    && r.who < |s.procs|
    && r.call.mailboxId == r.mailboxId && r.call.text == r.text
    && b < |s.boxes|
    && s.procs[r.who] in s.boxes[b].senders
    && (if r.unblocked then r.mailboxId == s.mIn.mailboxId
        else |s.boxes[b].messages| == MAX_MESSAGE_IN_MAILBOX)
  }

  predicate Inv(s: State) {
    && Distinct(s.procs)
    && BoxesOk(s.boxes, s.lastId)
    && (forall i :: 0 <= i < |s.blocked| ==> RecordOk(s, s.blocked[i]))
    && (forall i, j :: 0 <= i < j < |s.blocked| ==> s.blocked[i].who != s.blocked[j].who)
  }

  predicate Ready(s: State) {
    Inv(s) && Quiet(s)
  }

  function Start(procs: seq<int>, mIn: Call): State {
    State(procs, [], 0, [], mIn)
  }

  lemma BoxAtUnique(boxes: seq<Mailbox>, i: nat)
    requires i < |boxes|
    requires forall j :: 0 <= j < i ==> boxes[j].id != boxes[i].id
    ensures BoxAt(boxes, boxes[i].id) == i
  {
  }

  /** Positions by id depend only on the ids. */
  lemma BoxAtSameIds(a: seq<Mailbox>, b: seq<Mailbox>, id: int)
    requires |a| <= |b| && forall i :: 0 <= i < |a| ==> a[i].id == b[i].id
    requires BoxAt(a, id) < |a|
    ensures BoxAt(b, id) == BoxAt(a, id)
  {
    BoxAtUnique(b, BoxAt(a, id));
  }

  lemma RemoveFirstKeeps(xs: seq<int>, x: int, y: int)
    requires y in xs && y != x
    ensures y in RemoveFirst(xs, x)
  {
    var i := IndexOf(xs, x);
    if i < |xs| {
      var j :| 0 <= j < |xs| && xs[j] == y;
      var w := Without(xs, i);
      assert w[if j < i then j else j - 1] == y;
    }
  }

  lemma OpenKeepsInv(s: State, pid: int, name: string, create: bool, write: bool, mIn: Call)
    requires Ready(s)
    ensures
      var o := OpenBoxes(s.boxes, s.lastId, pid, name, create, write);
      Ready(s.(mIn := mIn, boxes := o.boxes, lastId := o.lastId))
  {
    hide BoxAt, NameAt;
    var o := OpenBoxes(s.boxes, s.lastId, pid, name, create, write);
    var t := s.(mIn := mIn, boxes := o.boxes, lastId := o.lastId);
    forall i | 0 <= i < |t.blocked| ensures RecordOk(t, t.blocked[i]) {
      assert RecordOk(s, s.blocked[i]);
      BoxAtSameIds(s.boxes, t.boxes, s.blocked[i].mailboxId);
    }
  }

  /** A suspended deposit keeps its mailbox and its place among the senders when another
      process closes a mailbox. */
  lemma CloseKeepsRecord(s: State, who: nat, id: int, r: Record, mIn: Call)
    requires Inv(s) && RecordOk(s, r) && r.who != who && who < |s.procs| && !r.unblocked
    ensures
      var o := CloseBoxes(s.boxes, s.lastId, s.procs[who], id);
      RecordOk(s.(mIn := mIn, boxes := o.boxes, lastId := o.lastId), r)
  {
    hide BoxAt, IndexOf, RemoveFirst;
    var pid := s.procs[who];
    var o := CloseBoxes(s.boxes, s.lastId, pid, id);
    var t := s.(mIn := mIn, boxes := o.boxes, lastId := o.lastId);
    var i, b := BoxAt(s.boxes, id), BoxAt(s.boxes, r.mailboxId);
    if i < |s.boxes| {
      RemoveFirstKeeps(s.boxes[b].senders, pid, s.procs[r.who]);
      if |o.boxes| == |s.boxes| {
        BoxAtSameIds(s.boxes, t.boxes, r.mailboxId);
      } else {
        assert i != b;
        BoxAtUnique(o.boxes, if b < i then b else b - 1);
      }
    }
  }

  lemma CloseKeepsInv(s: State, who: nat, id: int, mIn: Call)
    requires Ready(s) && CanCall(s, who)
    ensures
      var o := CloseBoxes(s.boxes, s.lastId, s.procs[who], id);
      Ready(s.(mIn := mIn, boxes := o.boxes, lastId := o.lastId))
  {
    hide BoxAt, RecordOf, Listed, IndexOf;
    var o := CloseBoxes(s.boxes, s.lastId, s.procs[who], id);
    forall i | 0 <= i < |s.blocked|
      ensures RecordOk(s.(mIn := mIn, boxes := o.boxes, lastId := o.lastId), s.blocked[i])
    {
      assert s.blocked[i].who != who;
      CloseKeepsRecord(s, who, id, s.blocked[i], mIn);
    }
  }

  /** A first deposit call, by a caller with no record. */
  lemma DepositKeepsInv(s: State, who: nat)
    requires Inv(s) && CanCall(s, who)
    ensures Inv(DepositCall(s, who).0)
    ensures Quiet(s) ==> Quiet(DepositCall(s, who).0)
  {
    hide BoxAt, RecordOf, Listed, IndexOf;
    var t := DepositCall(s, who).0;
    forall i | 0 <= i < |t.blocked| ensures RecordOk(t, t.blocked[i]) {
      if i < |s.blocked| {
        assert RecordOk(s, s.blocked[i]);
        BoxAtSameIds(s.boxes, t.boxes, s.blocked[i].mailboxId);
      }
    }
  }

  lemma RetrieveKeepsInv(s: State, who: nat)
    requires Ready(s)
    ensures Inv(RetrieveCall(s, who).0)
  {
    hide BoxAt, FirstFor, IndexOf, RecordOf, RemoveFirst;
    var t := RetrieveCall(s, who).0;
    forall i | 0 <= i < |t.blocked| ensures RecordOk(t, t.blocked[i]) {
      assert RecordOk(s, s.blocked[i]);
      BoxAtSameIds(s.boxes, t.boxes, s.blocked[i].mailboxId);
    }
  }

  /** The state in which a suspended deposit has been taken back as a fresh request. */
  function Resumed(s: State, k: nat): State
    requires k < |s.blocked|
  {
    s.(blocked := Without(s.blocked, k), mIn := s.blocked[k].call)
  }

  lemma ResumedKeepsInv(s: State, k: nat)
    requires Inv(s) && k < |s.blocked|
    requires s.blocked[k].mailboxId == s.mIn.mailboxId
    ensures Inv(Resumed(s, k)) && CanCall(Resumed(s, k), s.blocked[k].who)
  {
    var t := Resumed(s, k);
    assert RecordOk(s, s.blocked[k]);
    forall i | 0 <= i < |t.blocked| ensures RecordOk(t, t.blocked[i]) && t.blocked[i].who != s.blocked[k].who {
      var j := if i < k then i else i + 1;
      assert t.blocked[i] == s.blocked[j];
      assert RecordOk(s, s.blocked[j]);
    }
  }

  /** Replaying the first flagged record is the same as its deposit made afresh: the mailbox id
      found in `mIn` before the context is restored is the record's own, and the record deleted
      by slot number is the one that was flagged. */
  lemma ReplayIsFreshDeposit(s: State)
    requires Inv(s) && !Quiet(s)
    ensures
      var k := FirstUnblocked(s.blocked);
      && k < |s.blocked|
      && s.blocked[k].mailboxId == s.mIn.mailboxId
      && Replay(s) == DepositCall(Resumed(s, k), s.blocked[k].who)
  {
    hide BoxAt, RecordOf, FirstUnblocked, Flags, Listed, AddMessage;
    QuietIffNoFlags(s.blocked);
    var k := FirstUnblocked(s.blocked);
    assert RecordOk(s, s.blocked[k]);
    var cleared := s.blocked[k := s.blocked[k].(unblocked := false)];
    assert cleared[k].who == s.blocked[k].who;
    assert forall i :: 0 <= i < k ==> cleared[i].who == s.blocked[i].who;
    assert RecordOf(cleared, s.blocked[k].who) == k;
    assert Without(cleared, k) == Without(s.blocked, k);
    ResumedKeepsInv(s, k);
  }

  lemma ReplayKeepsInv(s: State)
    requires Inv(s) && !Quiet(s)
    ensures Inv(Replay(s).0)
    ensures Replay(s).1 == Ok || Replay(s).1 == Suspend
  {
    var k := FirstUnblocked(s.blocked);
    ReplayIsFreshDeposit(s);
    ResumedKeepsInv(s, k);
    assert RecordOk(s, s.blocked[k]);
    DepositKeepsInv(Resumed(s, k), s.blocked[k].who);
  }

  lemma {:induction false} DrainKeepsInv(s: State)
    requires Inv(s)
    ensures Ready(Drain(s))
    decreases Flags(s.blocked)
  {
    if !Quiet(s) {
      ReplayLowersFlags(s);
      ReplayKeepsInv(s);
      DrainKeepsInv(Replay(s).0);
    }
  }

  lemma ServeKeepsInv(s: State, req: Request)
    requires Ready(s) && CanCall(s, req.who)
    ensures Inv(Serve(s, req).0)
  {
    var t := s.(mIn := req.call);
    assert Ready(t) by {
      forall i | 0 <= i < |t.blocked| ensures RecordOk(t, t.blocked[i]) {
        assert RecordOk(s, s.blocked[i]);
      }
    }
    match req.op
    case Open(name, create, write) =>
      OpenKeepsInv(s, PidOf(s.procs, req.who), name, create, write, req.call);
    case Close => CloseKeepsInv(s, req.who, req.call.mailboxId, req.call);
    case Deposit => DepositKeepsInv(t, req.who);
    case Retrieve => RetrieveKeepsInv(t, req.who);
  }

  lemma HandleKeepsReady(s: State, req: Request)
    requires Ready(s) && CanCall(s, req.who)
    ensures Ready(Handle(s, req).0)
  {
    ServeKeepsInv(s, req);
    DrainKeepsInv(Serve(s, req).0);
  }

  lemma {:induction false} RunKeepsReady(s: State, reqs: seq<Request>)
    requires Ready(s) && Legal(s, reqs)
    ensures Ready(Run(s, reqs).state)
    decreases |reqs|
  {
    if reqs != [] {
      HandleKeepsReady(s, reqs[0]);
      RunKeepsReady(Handle(s, reqs[0]).0, reqs[1..]);
    }
  }

  /** From start-up, whenever the main loop is about to receive: at most five mailboxes with
      distinct names and ids below the last issued one, at most five messages in each, and a
      mailbox with a suspended sender is full. */
  lemma BlockedMeansFull(procs: seq<int>, mIn: Call, reqs: seq<Request>)
    requires Distinct(procs) && Legal(Start(procs, mIn), reqs)
    ensures
      var s := Run(Start(procs, mIn), reqs).state;
      && Quiet(s)
      && BoxesOk(s.boxes, s.lastId)
      && forall i :: 0 <= i < |s.blocked| ==>
        var b := BoxAt(s.boxes, s.blocked[i].mailboxId);
        b < |s.boxes| && |s.boxes[b].messages| == MAX_MESSAGE_IN_MAILBOX
  {
    RunKeepsReady(Start(procs, mIn), reqs);
    var s := Run(Start(procs, mIn), reqs).state;
    forall i | 0 <= i < |s.blocked| ensures RecordOk(s, s.blocked[i]) {
    }
  }

  // ---------- inside a drain ----------

  lemma {:induction false} FlagsOfCleared(rs: seq<Record>, k: nat)
    requires k < |rs| && rs[k].unblocked
    ensures Flags(Without(rs, k)) == Flags(rs) - 1
  {
    FlagsSplit(rs, k);
  }

  /** In a state the service can reach, a replay turn lowers the number of flagged records by
      exactly one, whether the deposit succeeds or is suspended again. */
  lemma ReplayClearsOne(s: State)
    requires Inv(s) && !Quiet(s)
    ensures Flags(Replay(s).0.blocked) == Flags(s.blocked) - 1
  {
    hide BoxAt, RecordOf, FirstUnblocked, Listed, Replay, RecordOk;
    ReplayIsFreshDeposit(s);
    var k := FirstUnblocked(s.blocked);
    ResumedKeepsInv(s, k);
    FlagsOfCleared(s.blocked, k);
    var t := Resumed(s, k);
    var u := DepositCall(t, s.blocked[k].who).0;
    if u.blocked != t.blocked {
      FlagsConcat(t.blocked, u.blocked[|t.blocked|..]);
    }
  }

  function ReplayTimes(s: State, n: nat): State
    decreases n
  {
    if n == 0 then s else ReplayTimes(Replay(s).0, n - 1)
  }

  lemma {:induction false} ReplayTimesKeepsInv(s: State, n: nat)
    requires Inv(s) && n <= Flags(s.blocked)
    ensures Inv(ReplayTimes(s, n))
    ensures Flags(ReplayTimes(s, n).blocked) == Flags(s.blocked) - n
    decreases n
  {
    hide FirstUnblocked, Replay, Inv;
    QuietIffNoFlags(s.blocked);
    if n > 0 {
      ReplayClearsOne(s);
      ReplayKeepsInv(s);
      ReplayTimesKeepsInv(Replay(s).0, n - 1);
    }
  }

  lemma {:induction false} FlagsTurnsDrain(s: State)
    requires Inv(s)
    ensures ReplayTimes(s, Flags(s.blocked)) == Drain(s)
    decreases Flags(s.blocked)
  {
    hide FirstUnblocked, Replay, Inv;
    QuietIffNoFlags(s.blocked);
    if !Quiet(s) {
      ReplayClearsOne(s);
      ReplayKeepsInv(s);
      FlagsTurnsDrain(Replay(s).0);
    }
  }

  /** A drain takes exactly as many turns as there are flagged records: after that many it is
      over, and not before. */
  lemma DrainLength(s: State)
    requires Inv(s)
    ensures ReplayTimes(s, Flags(s.blocked)) == Drain(s)
    ensures forall n :: 0 <= n < Flags(s.blocked) ==> !Quiet(ReplayTimes(s, n))
  {
    hide Inv, ReplayTimes, Drain;
    FlagsTurnsDrain(s);
    forall n | 0 <= n < Flags(s.blocked) ensures !Quiet(ReplayTimes(s, n)) {
      ReplayTimesKeepsInv(s, n);
      QuietIffNoFlags(ReplayTimes(s, n).blocked);
    }
  }

  /** At every turn of every drain: the flagged records all name the mailbox whose id is in
      `mIn`, no process has two records, and each record names a live mailbox that still lists
      its sender. */
  lemma EveryTurnSound(s: State, req: Request, n: nat)
    requires Ready(s) && CanCall(s, req.who) && n <= Flags(Serve(s, req).0.blocked)
    ensures
      var t := ReplayTimes(Serve(s, req).0, n);
      && (forall i :: 0 <= i < |t.blocked| && t.blocked[i].unblocked ==>
            t.blocked[i].mailboxId == t.mIn.mailboxId)
      && (forall i, j :: 0 <= i < j < |t.blocked| ==> t.blocked[i].who != t.blocked[j].who)
      && (forall i :: 0 <= i < |t.blocked| ==>
            var b := BoxAt(t.boxes, t.blocked[i].mailboxId);
            b < |t.boxes| && PidOf(t.procs, t.blocked[i].who) in t.boxes[b].senders)
  {
    ServeKeepsInv(s, req);
    var u := Serve(s, req).0;
    ReplayTimesKeepsInv(u, n);
    hide Serve, ReplayTimes, BoxAt;
    var t := ReplayTimes(u, n);
    forall i | 0 <= i < |t.blocked| ensures RecordOk(t, t.blocked[i]) {
    }
  }
}
