/** The bounded, suspending service refines mailboxes with unbounded queues of which only the
    first five messages can be collected. */
module MailboxRefinement {
  import opened MailboxModel
  import opened MailboxInvariant

  // ---------- the ideal service ----------

  /** Mailboxes without a bound on their message lists, and no suspended calls. */
  datatype Ideal = Ideal(procs: seq<int>, boxes: seq<Mailbox>, lastId: int)

  datatype IdealOutcome = IdealOutcome(state: Ideal, replies: seq<Reply>)

  function Window(messages: seq<Message>): (w: seq<Message>)
    ensures w <= messages
  {
    if |messages| <= MAX_MESSAGE_IN_MAILBOX then messages else messages[..MAX_MESSAGE_IN_MAILBOX]
  }

  function IdealDeposit(q: Ideal, pid: int, call: Call): (Ideal, Reply) {
    var b := BoxAt(q.boxes, call.mailboxId);
    if b == |q.boxes| || pid !in q.boxes[b].senders then (q, EInvalidSender)
    else
      var m := Message(pid, Listed(call.receivers), call.text);
      (q.(boxes := q.boxes[b := AddMessage(q.boxes[b], m)]),
       if |q.boxes[b].messages| < MAX_MESSAGE_IN_MAILBOX then Ok else Suspend)
  }

  function IdealRetrieve(q: Ideal, pid: int, id: int): (Ideal, Reply) {
    var b := BoxAt(q.boxes, id);
    if b == |q.boxes| then (q, ENotFound)
    else if pid !in q.boxes[b].receivers then (q, EPerm)
    else
      var w := Window(q.boxes[b].messages);
      var taken := Take(w, pid);
      var rest := q.boxes[b].messages[|w|..];
      (q.(boxes := q.boxes[b := q.boxes[b].(messages := taken.messages + rest)]), taken.reply)
  }

  function IdealServe(q: Ideal, req: Request): (Ideal, Reply) {
    var pid := PidOf(q.procs, req.who);
    match req.op
    case Open(name, create, write) =>
      var o := OpenBoxes(q.boxes, q.lastId, pid, name, create, write);
      (q.(boxes := o.boxes, lastId := o.lastId), o.reply)
    case Close =>
      var o := CloseBoxes(q.boxes, q.lastId, pid, req.call.mailboxId);
      (q.(boxes := o.boxes, lastId := o.lastId), o.reply)
    case Deposit => IdealDeposit(q, pid, req.call)
    case Retrieve => IdealRetrieve(q, pid, req.call.mailboxId)
  }

  function IdealRun(q: Ideal, reqs: seq<Request>): (o: IdealOutcome)
    ensures |o.replies| == |reqs|
    decreases |reqs|
  {
    if reqs == [] then IdealOutcome(q, [])
    else
      var (t, reply) := IdealServe(q, reqs[0]);
      var rest := IdealRun(t, reqs[1..]);
      IdealOutcome(rest.state, [reply] + rest.replies)
  }

  // ---------- the abstraction ----------

  function AsMessage(procs: seq<int>, r: Record): Message {
    Message(PidOf(procs, r.who), Listed(r.call.receivers), r.text)
  }

  function WaitsIf(procs: seq<int>, r: Record, id: int, flag: bool): seq<Message> {
    if r.mailboxId == id && r.unblocked == flag then [AsMessage(procs, r)] else []
  }

  /** The messages of the records that wait for mailbox `id` with the given flag, in list order. */
  function Waiting(procs: seq<int>, rs: seq<Record>, id: int, flag: bool): seq<Message> {
    if rs == [] then [] else WaitsIf(procs, rs[0], id, flag) + Waiting(procs, rs[1..], id, flag)
  }

  /** The queue a mailbox stands for: its messages, then the records suspended again during
      the current drain, then those still to be replayed. */
  function Queued(s: State, box: Mailbox): Mailbox {
    box.(messages := box.messages
                     + Waiting(s.procs, s.blocked, box.id, false)
                     + Waiting(s.procs, s.blocked, box.id, true))
  }

  function Abs(s: State): Ideal {
    Ideal(s.procs, seq(|s.boxes|, i requires 0 <= i < |s.boxes| => Queued(s, s.boxes[i])), s.lastId)
  }

  // ---------- lists of waiting records ----------

  lemma {:induction false} WaitingConcat(procs: seq<int>, a: seq<Record>, b: seq<Record>, id: int, flag: bool)
    ensures Waiting(procs, a + b, id, flag) == Waiting(procs, a, id, flag) + Waiting(procs, b, id, flag)
  {
    hide WaitsIf;
    if a == [] {
      assert a + b == b;
    } else {
      assert (a + b)[1..] == a[1..] + b;
      WaitingConcat(procs, a[1..], b, id, flag);
    }
  }

  lemma WaitingOne(procs: seq<int>, r: Record, id: int, flag: bool)
    ensures Waiting(procs, [r], id, flag) == WaitsIf(procs, r, id, flag)
  {
    hide WaitsIf;
  }

  lemma WaitingSplit(procs: seq<int>, rs: seq<Record>, k: nat, id: int, flag: bool)
    requires k < |rs|
    ensures
      Waiting(procs, rs, id, flag)
      == Waiting(procs, rs[..k], id, flag) + WaitsIf(procs, rs[k], id, flag)
         + Waiting(procs, rs[k + 1..], id, flag)
    ensures
      Waiting(procs, Without(rs, k), id, flag)
      == Waiting(procs, rs[..k], id, flag) + Waiting(procs, rs[k + 1..], id, flag)
  {
    hide WaitsIf, Waiting;
    assert rs == rs[..k] + ([rs[k]] + rs[k + 1..]);
    WaitingOne(procs, rs[k], id, flag);
    WaitingConcat(procs, rs[..k], [rs[k]] + rs[k + 1..], id, flag);
    WaitingConcat(procs, [rs[k]], rs[k + 1..], id, flag);
    WaitingConcat(procs, rs[..k], rs[k + 1..], id, flag);
  }

  lemma {:induction false} NoneWaiting(procs: seq<int>, rs: seq<Record>, id: int, flag: bool)
    requires forall i :: 0 <= i < |rs| ==> !(rs[i].mailboxId == id && rs[i].unblocked == flag)
    ensures Waiting(procs, rs, id, flag) == []
  {
    if rs != [] {
      assert forall i :: 0 <= i < |rs[1..]| ==> rs[1..][i] == rs[i + 1];
      NoneWaiting(procs, rs[1..], id, flag);
    }
  }

  /** Flagging every record of a mailbox moves its waiting list, in order, from one side of
      `Queued` to the other and leaves every other mailbox alone. */
  lemma {:induction false} UnblockMovesWaiting(procs: seq<int>, rs: seq<Record>, id: int, other: int)
    requires forall i :: 0 <= i < |rs| ==> !rs[i].unblocked
    ensures
      var us := Unblock(rs, id);
      && Waiting(procs, us, other, true) == (if other == id then Waiting(procs, rs, id, false) else [])
      && Waiting(procs, us, other, false) == (if other == id then [] else Waiting(procs, rs, other, false))
  {
    if rs != [] {
      UnblockMovesWaiting(procs, rs[1..], id, other);
      assert Unblock(rs, id)[1..] == Unblock(rs[1..], id);
    }
  }

  // ---------- one deposit ----------

  /** A box that is not full has no record suspended again for it. */
  lemma RoomMeansNoneResaved(s: State, b: nat)
    requires Inv(s) && b < |s.boxes| && |s.boxes[b].messages| < MAX_MESSAGE_IN_MAILBOX
    ensures Waiting(s.procs, s.blocked, s.boxes[b].id, false) == []
  {
    forall i | 0 <= i < |s.blocked|
      ensures !(s.blocked[i].mailboxId == s.boxes[b].id && !s.blocked[i].unblocked)
    {
      assert RecordOk(s, s.blocked[i]);
      BoxAtUnique(s.boxes, b);
    }
    NoneWaiting(s.procs, s.blocked, s.boxes[b].id, false);
  }

  /** The queue after a fresh deposit call that reaches mailbox `b`: the new message comes
      before the records still to be replayed and after everything else. */
  lemma DepositQueues(s: State, who: nat, i: nat)
    requires Inv(s) && CanCall(s, who) && i < |s.boxes|
    requires s.procs[who] in s.boxes[i].senders && s.boxes[i].id == s.mIn.mailboxId
    ensures
      var (t, reply) := DepositCall(s, who);
      var m := Message(s.procs[who], Listed(s.mIn.receivers), s.mIn.text);
      && reply == (if |s.boxes[i].messages| < MAX_MESSAGE_IN_MAILBOX then Ok else Suspend)
      && |t.boxes| == |s.boxes| && t.procs == s.procs && t.lastId == s.lastId
      && Queued(t, t.boxes[i]) == s.boxes[i].(messages :=
           s.boxes[i].messages + Waiting(s.procs, s.blocked, s.mIn.mailboxId, false) + [m]
           + Waiting(s.procs, s.blocked, s.mIn.mailboxId, true))
      && forall j :: 0 <= j < |s.boxes| && j != i ==> Queued(t, t.boxes[j]) == Queued(s, s.boxes[j])
  {
    hide BoxAt, RecordOf, Waiting, Listed;
    BoxAtUnique(s.boxes, i);
    var t := DepositCall(s, who).0;
    if |s.boxes[i].messages| < MAX_MESSAGE_IN_MAILBOX {
      RoomMeansNoneResaved(s, i);
    } else {
      var r := Record(s.mIn.mailboxId, who, s.mIn.text, s.mIn, false);
      assert t.blocked == s.blocked + [r];
      forall id, flag ensures Waiting(s.procs, t.blocked, id, flag)
                          == Waiting(s.procs, s.blocked, id, flag)
                             + WaitsIf(s.procs, r, id, flag)
      {
        WaitingConcat(s.procs, s.blocked, [r], id, flag);
        WaitingOne(s.procs, r, id, flag);
      }
    }
  }

  // ---------- replaying ----------

  /** Taking the first flagged record out of the list takes the first message off its waiting
      list, and changes no other. */
  lemma ResumedWaiting(s: State, k: nat, id: int)
    requires k == FirstUnblocked(s.blocked) && k < |s.blocked|
    ensures Waiting(s.procs, Without(s.blocked, k), id, false) == Waiting(s.procs, s.blocked, id, false)
    ensures Waiting(s.procs, s.blocked, id, true)
         == (if id == s.blocked[k].mailboxId then [AsMessage(s.procs, s.blocked[k])] else [])
            + Waiting(s.procs, Without(s.blocked, k), id, true)
  {
    hide BoxAt, Waiting, AsMessage;
    WaitingSplit(s.procs, s.blocked, k, id, false);
    WaitingSplit(s.procs, s.blocked, k, id, true);
    NoneWaiting(s.procs, s.blocked[..k], id, true);
  }

  lemma ReplayQueues(s: State, j: nat)
    requires Inv(s) && !Quiet(s) && j < |s.boxes|
    ensures
      var u := Replay(s).0;
      && |u.boxes| == |s.boxes| && u.procs == s.procs && u.lastId == s.lastId
      && Queued(u, u.boxes[j]) == Queued(s, s.boxes[j])
  {
    hide BoxAt, RecordOf, FirstUnblocked, Listed, Flags, DepositCall, Replay, Waiting;
    ReplayIsFreshDeposit(s);
    var k := FirstUnblocked(s.blocked);
    var t, r := Resumed(s, k), s.blocked[k];
    ResumedKeepsInv(s, k);
    assert RecordOk(s, r);
    var i := BoxAt(s.boxes, r.mailboxId);
    DepositQueues(t, r.who, i);
    ResumedWaiting(s, k, s.boxes[j].id);
    var u := Replay(s).0;
    if j == i {
      assert Queued(u, u.boxes[i]).messages == Queued(s, s.boxes[i]).messages;
    } else {
      assert s.boxes[j].id != s.boxes[i].id;
      assert Queued(t, t.boxes[j]) == Queued(s, s.boxes[j]);
    }
  }

  /** A replay turn changes nothing a caller can see: it moves a message from the waiting list
      into the mailbox, or to the end of the records suspended again. */
  lemma ReplayRefines(s: State)
    requires Inv(s) && !Quiet(s)
    ensures Abs(Replay(s).0) == Abs(s)
  {
    hide BoxAt, RecordOf, FirstUnblocked, Listed, Flags, DepositCall, Replay, Waiting;
    ReplayIsFreshDeposit(s);
    var u := Replay(s).0;
    assert |u.boxes| == |s.boxes| && u.procs == s.procs && u.lastId == s.lastId by {
      ReplayQueues(s, BoxAt(s.boxes, s.blocked[FirstUnblocked(s.blocked)].mailboxId));
    }
    forall j | 0 <= j < |s.boxes| ensures Queued(u, u.boxes[j]) == Queued(s, s.boxes[j]) {
      ReplayQueues(s, j);
    }
    assert Abs(u).boxes == Abs(s).boxes;
  }

  lemma {:induction false} DrainRefines(s: State)
    requires Inv(s)
    ensures Abs(Drain(s)) == Abs(s)
    decreases Flags(s.blocked)
  {
    if !Quiet(s) {
      ReplayLowersFlags(s);
      ReplayKeepsInv(s);
      ReplayRefines(s);
      DrainRefines(Replay(s).0);
    }
  }

  // ---------- serving a request ----------

  lemma AbsBoxAt(s: State, id: int)
    ensures BoxAt(Abs(s).boxes, id) == BoxAt(s.boxes, id)
  {
    var a, b := Abs(s).boxes, s.boxes;
    assert forall i :: 0 <= i < |b| ==> a[i].id == b[i].id;
    if BoxAt(b, id) < |b| {
      BoxAtSameIds(b, a, id);
    }
  }

  lemma AbsNameAt(s: State, name: string)
    ensures NameAt(Abs(s).boxes, name) == NameAt(s.boxes, name)
  {
    var a, b := Abs(s).boxes, s.boxes;
    assert forall i :: 0 <= i < |b| ==> a[i].name == b[i].name;
  }

  /** When nobody is to be replayed, a mailbox holds exactly the window of its queue and the
      suspended deposits are exactly the rest. */
  lemma QuietWindow(s: State, b: nat)
    requires Ready(s) && b < |s.boxes|
    ensures
      var all := Queued(s, s.boxes[b]).messages;
      && s.boxes[b].messages == Window(all)
      && Waiting(s.procs, s.blocked, s.boxes[b].id, false) == all[|Window(all)|..]
      && Waiting(s.procs, s.blocked, s.boxes[b].id, true) == []
  {
    hide Waiting, BoxAt;
    NoneWaiting(s.procs, s.blocked, s.boxes[b].id, true);
    if |s.boxes[b].messages| < MAX_MESSAGE_IN_MAILBOX {
      RoomMeansNoneResaved(s, b);
    }
  }

  /** No suspended deposit waits for a mailbox without senders, or for an id not in use. */
  lemma NobodyWaits(s: State, id: int, flag: bool)
    requires Inv(s)
    requires BoxAt(s.boxes, id) == |s.boxes| || s.boxes[BoxAt(s.boxes, id)].senders == []
    ensures Waiting(s.procs, s.blocked, id, flag) == []
  {
    forall i | 0 <= i < |s.blocked| ensures s.blocked[i].mailboxId != id {
      assert RecordOk(s, s.blocked[i]);
    }
    NoneWaiting(s.procs, s.blocked, id, flag);
  }

  lemma OpenRefines(s: State, pid: int, name: string, create: bool, write: bool, mIn: Call)
    requires Ready(s)
    ensures
      var o := OpenBoxes(s.boxes, s.lastId, pid, name, create, write);
      var p := OpenBoxes(Abs(s).boxes, s.lastId, pid, name, create, write);
      && p.reply == o.reply
      && Abs(s.(mIn := mIn, boxes := o.boxes, lastId := o.lastId))
         == Ideal(s.procs, p.boxes, p.lastId)
  {
    hide NameAt, BoxAt, Waiting, RecordOk;
    AbsNameAt(s, name);
    var o := OpenBoxes(s.boxes, s.lastId, pid, name, create, write);
    var p := OpenBoxes(Abs(s).boxes, s.lastId, pid, name, create, write);
    var t := s.(mIn := mIn, boxes := o.boxes, lastId := o.lastId);
    NobodyWaits(s, s.lastId, false);
    NobodyWaits(s, s.lastId, true);
    forall j | 0 <= j < |o.boxes| ensures Queued(t, o.boxes[j]) == p.boxes[j] {
      assert Queued(t, o.boxes[j]) == Queued(s, o.boxes[j]);
      if j == |s.boxes| {
        assert Queued(s, o.boxes[j]).messages == [];
      }
    }
    assert Abs(t).boxes == p.boxes;
  }

  lemma CloseRefines(s: State, pid: int, id: int, mIn: Call)
    requires Ready(s)
    ensures
      var o := CloseBoxes(s.boxes, s.lastId, pid, id);
      var p := CloseBoxes(Abs(s).boxes, s.lastId, pid, id);
      && p.reply == o.reply
      && Abs(s.(mIn := mIn, boxes := o.boxes, lastId := o.lastId))
         == Ideal(s.procs, p.boxes, p.lastId)
  {
    hide BoxAt, Waiting, RemoveFirst, Inv, Quiet;
    AbsBoxAt(s, id);
    var o := CloseBoxes(s.boxes, s.lastId, pid, id);
    var p := CloseBoxes(Abs(s).boxes, s.lastId, pid, id);
    var t := s.(mIn := mIn, boxes := o.boxes, lastId := o.lastId);
    assert |p.boxes| == |o.boxes|;
    forall j | 0 <= j < |o.boxes| ensures Queued(t, o.boxes[j]) == p.boxes[j] {
    }
    assert Abs(t).boxes == p.boxes;
  }

  lemma DepositRefines(s: State, who: nat)
    requires Ready(s) && CanCall(s, who)
    ensures
      var (t, reply) := DepositCall(s, who);
      (Abs(t), reply) == IdealDeposit(Abs(s), s.procs[who], s.mIn)
  {
    hide BoxAt, Waiting, RecordOf, Inv, Quiet, Listed;
    var b := BoxAt(s.boxes, s.mIn.mailboxId);
    AbsBoxAt(s, s.mIn.mailboxId);
    if b < |s.boxes| && s.procs[who] in s.boxes[b].senders {
      DepositQueues(s, who, b);
      QuietWindow(s, b);
      var t := DepositCall(s, who).0;
      var q := IdealDeposit(Abs(s), s.procs[who], s.mIn).0;
      assert Queued(t, t.boxes[b]).messages == q.boxes[b].messages;
      assert Abs(t).boxes == q.boxes;
    }
  }

  /** The queues after a retrieval from mailbox `b`: its window has been taken from, and what
      waited behind it now waits to be replayed. */
  lemma RetrieveQueues(s: State, who: nat, b: nat, j: nat)
    requires Ready(s) && j < |s.boxes| && b == BoxAt(s.boxes, s.mIn.mailboxId) && b < |s.boxes|
    requires PidOf(s.procs, who) in s.boxes[b].receivers
    ensures
      var t := RetrieveCall(s, who).0;
      var taken := Take(s.boxes[b].messages, PidOf(s.procs, who));
      && |t.boxes| == |s.boxes|
      && Queued(t, t.boxes[j]).messages ==
         (if j == b then taken.messages + Waiting(s.procs, s.blocked, s.boxes[b].id, false)
          else Queued(s, s.boxes[j]).messages)
      && Queued(t, t.boxes[j]).(messages := []) == s.boxes[j].(messages := [])
  {
    hide BoxAt, Take, Unblock, Waiting;
    assert j != b ==> s.boxes[j].id != s.boxes[b].id;
    UnblockMovesWaiting(s.procs, s.blocked, s.boxes[b].id, s.boxes[j].id);
    NoneWaiting(s.procs, s.blocked, s.boxes[j].id, true);
  }

  lemma RetrieveRefines(s: State, who: nat)
    requires Ready(s) && CanCall(s, who)
    ensures
      var (t, reply) := RetrieveCall(s, who);
      (Abs(t), reply) == IdealRetrieve(Abs(s), s.procs[who], s.mIn.mailboxId)
  {
    hide BoxAt, Take, Unblock, Waiting, RecordOf, Inv, Quiet;
    var b := BoxAt(s.boxes, s.mIn.mailboxId);
    AbsBoxAt(s, s.mIn.mailboxId);
    if b < |s.boxes| && s.procs[who] in s.boxes[b].receivers {
      QuietWindow(s, b);
      var t := RetrieveCall(s, who).0;
      var q := IdealRetrieve(Abs(s), s.procs[who], s.mIn.mailboxId).0;
      RetrieveQueues(s, who, b, b);
      forall j | 0 <= j < |s.boxes| ensures Queued(t, t.boxes[j]) == q.boxes[j] {
        RetrieveQueues(s, who, b, j);
      }
      assert Abs(t).boxes == q.boxes;
    }
  }

  lemma ServeRefines(s: State, req: Request)
    requires Ready(s) && CanCall(s, req.who)
    ensures
      var (t, reply) := Serve(s, req);
      (Abs(t), reply) == IdealServe(Abs(s), req)
  {
    var t := s.(mIn := req.call);
    assert Ready(t) by {
      forall i | 0 <= i < |t.blocked| ensures RecordOk(t, t.blocked[i]) {
        assert RecordOk(s, s.blocked[i]);
      }
    }
    assert Abs(t) == Abs(s);
    match req.op
    case Open(name, create, write) =>
      OpenRefines(s, PidOf(s.procs, req.who), name, create, write, req.call);
    case Close => CloseRefines(s, s.procs[req.who], req.call.mailboxId, req.call);
    case Deposit => DepositRefines(t, req.who);
    case Retrieve => RetrieveRefines(t, req.who);
  }

  /** Serving a request and draining what it flagged is one step of the ideal service, with
      the same reply. */
  lemma HandleRefines(s: State, req: Request)
    requires Ready(s) && CanCall(s, req.who)
    ensures
      var (t, reply) := Handle(s, req);
      Ready(t) && (Abs(t), reply) == IdealServe(Abs(s), req)
  {
    ServeRefines(s, req);
    ServeKeepsInv(s, req);
    DrainRefines(Serve(s, req).0);
    DrainKeepsInv(Serve(s, req).0);
  }

  /** Over every run the service answers exactly as the ideal one and stands for its state. */
  lemma {:induction false} RunRefines(s: State, reqs: seq<Request>)
    requires Ready(s) && Legal(s, reqs)
    ensures
      var o := Run(s, reqs);
      && Ready(o.state)
      && IdealRun(Abs(s), reqs) == IdealOutcome(Abs(o.state), o.replies)
    decreases |reqs|
  {
    if reqs != [] {
      HandleRefines(s, reqs[0]);
      RunRefines(Handle(s, reqs[0]).0, reqs[1..]);
    }
  }

  /** From start-up, for every legal list of requests: the replies are those of mailboxes with
      unbounded queues and a window of five, started empty. */
  lemma ServiceIsIdeal(procs: seq<int>, mIn: Call, reqs: seq<Request>)
    requires Distinct(procs) && Legal(Start(procs, mIn), reqs)
    ensures Run(Start(procs, mIn), reqs).replies == IdealRun(Ideal(procs, [], 0), reqs).replies
  {
    assert Abs(Start(procs, mIn)) == Ideal(procs, [], 0);
    RunRefines(Start(procs, mIn), reqs);
  }

  lemma {:induction false} WaitingMembers(procs: seq<int>, rs: seq<Record>, id: int, flag: bool)
    ensures forall i :: 0 <= i < |rs| && rs[i].mailboxId == id && rs[i].unblocked == flag
                        ==> AsMessage(procs, rs[i]) in Waiting(procs, rs, id, flag)
    ensures forall m :: m in Waiting(procs, rs, id, flag)
                        ==> exists i :: 0 <= i < |rs| && m == AsMessage(procs, rs[i])
  {
    if rs != [] {
      WaitingMembers(procs, rs[1..], id, flag);
      assert forall i :: 0 < i < |rs| ==> rs[i] == rs[1..][i - 1];
      assert forall i :: 0 <= i < |rs[1..]| ==> rs[1..][i] == rs[i + 1];
    }
  }

  predicate SentBeyondWindow(q: Ideal, pid: int) {
    exists b, k ::
      && 0 <= b < |q.boxes| && MAX_MESSAGE_IN_MAILBOX <= k < |q.boxes[b].messages|
      && q.boxes[b].messages[k].sender == pid
  }

  lemma SuspendedIsBeyondWindow(s: State, r: Record)
    requires Ready(s) && r in s.blocked
    ensures SentBeyondWindow(Abs(s), PidOf(s.procs, r.who))
  {
    hide Waiting, Listed;
    assert RecordOk(s, r);
    var b := BoxAt(s.boxes, r.mailboxId);
    QuietWindow(s, b);
    WaitingMembers(s.procs, s.blocked, r.mailboxId, false);
    var w := Waiting(s.procs, s.blocked, r.mailboxId, false);
    assert AsMessage(s.procs, r) in w;
    var k :| 0 <= k < |w| && w[k] == AsMessage(s.procs, r);
    assert Abs(s).boxes[b].messages[MAX_MESSAGE_IN_MAILBOX + k] == w[k];
  }

  lemma BeyondWindowIsSuspended(s: State, b: nat, k: nat)
    requires Ready(s) && b < |s.boxes|
    requires MAX_MESSAGE_IN_MAILBOX <= k < |Abs(s).boxes[b].messages|
    ensures exists r :: r in s.blocked && Abs(s).boxes[b].messages[k].sender == PidOf(s.procs, r.who)
  {
    hide BoxAt, Waiting, Inv, Quiet, Listed;
    QuietWindow(s, b);
    WaitingMembers(s.procs, s.blocked, s.boxes[b].id, false);
    var m := Abs(s).boxes[b].messages[k];
    var w := Waiting(s.procs, s.blocked, s.boxes[b].id, false);
    assert m == w[k - MAX_MESSAGE_IN_MAILBOX] && m in w;
    var i :| 0 <= i < |s.blocked| && m == AsMessage(s.procs, s.blocked[i]);
    assert s.blocked[i] in s.blocked;
  }

  /** A process is suspended exactly when it sent a message that lies beyond the window. */
  lemma SuspendedIffBeyondWindow(s: State, who: nat)
    requires Ready(s) && who < |s.procs|
    ensures !CanCall(s, who) <==> SentBeyondWindow(Abs(s), s.procs[who])
  {
    if !CanCall(s, who) {
      SuspendedIsBeyondWindow(s, s.blocked[RecordOf(s.blocked, who)]);
    }
    if SentBeyondWindow(Abs(s), s.procs[who]) {
      var b, k :|
        && 0 <= b < |Abs(s).boxes| && MAX_MESSAGE_IN_MAILBOX <= k < |Abs(s).boxes[b].messages|
        && Abs(s).boxes[b].messages[k].sender == s.procs[who];
      BeyondWindowIsSuspended(s, b, k);
      var r :| r in s.blocked && s.procs[who] == PidOf(s.procs, r.who);
      assert RecordOk(s, r);
      assert r.who == who;
    }
  }
}
