/** When messages leave a mailbox, and what becomes of those that nobody has to collect. */
module MailboxSpent {
  import opened MailboxModel
  import opened MailboxInvariant
  import opened MailboxRefinement
  import opened MailboxDelivery

  // ---------- when a message leaves ----------

  /** How many queued messages have no receiver left. */
  function Spent(messages: seq<Message>): nat {
    if messages == [] then 0
    else (if messages[0].receivers == [] then 1 else 0) + Spent(messages[1..])
  }

  predicate Unspent(messages: seq<Message>) {
    forall k :: 0 <= k < |messages| ==> messages[k].receivers != []
  }

  /** Whether a request is a deposit to `id` that was taken and lists no receiver. */
  function Empty(req: Request, reply: Reply, id: int): nat {
    if req.op == Deposit && req.call.mailboxId == id && (reply == Ok || reply == Suspend)
       && Listed(req.call.receivers) == [] then 1 else 0
  }

  function Empties(reqs: seq<Request>, replies: seq<Reply>, id: int): nat
    requires |replies| == |reqs|
    decreases |reqs|
  {
    if reqs == [] then 0 else Empty(reqs[0], replies[0], id) + Empties(reqs[1..], replies[1..], id)
  }

  lemma {:induction false} SpentConcat(a: seq<Message>, b: seq<Message>)
    ensures Spent(a + b) == Spent(a) + Spent(b)
  {
    if a == [] {
      assert a + b == b;
    } else {
      assert (a + b)[1..] == a[1..] + b;
      SpentConcat(a[1..], b);
    }
  }

  lemma {:induction false} NoneSpent(messages: seq<Message>)
    ensures Spent(messages) == 0 <==> Unspent(messages)
  {
    if messages != [] {
      NoneSpent(messages[1..]);
      assert forall k :: 0 < k < |messages| ==> messages[k] == messages[1..][k - 1];
    }
  }

  /** Taking a message leaves none behind that the caller was the last to collect. */
  lemma TakeKeepsSpent(messages: seq<Message>, pid: int)
    ensures Spent(Take(messages, pid).messages) == Spent(messages)
  {
    hide FirstFor, Take, Kept, Spent;
    TakeShape(messages, pid);
    var i := FirstFor(messages, pid);
    if i < |messages| {
      SpentAround(messages[..i], [messages[i]], messages[i + 1..]);
      SpentAround(messages[..i], Kept(messages[i], pid), messages[i + 1..]);
      KeptUnspent(messages[i], pid);
    }
  }

  lemma SpentAround(pre: seq<Message>, mid: seq<Message>, post: seq<Message>)
    ensures Spent(pre + mid + post) == Spent(pre) + Spent(mid) + Spent(post)
  {
    SpentConcat(pre + mid, post);
    SpentConcat(pre, mid);
  }

  lemma KeptUnspent(m: Message, pid: int)
    requires m.receivers != []
    ensures Spent([m]) == 0 && Spent(Kept(m, pid)) == 0
  {
    hide RemoveFirst;
  }

  predicate SpentStep(q: Ideal, t: Ideal, req: Request, reply: Reply, id: int) {
    NotClosed(t, id) ==>
      && NotClosed(q, id)
      && Spent(MessagesOf(t.boxes, id)) == Spent(MessagesOf(q.boxes, id)) + Empty(req, reply, id)
  }

  lemma DepositSpent(q: Ideal, req: Request, id: int)
    requires IdealOk(q) && req.op == Deposit
    ensures
      var (t, reply) := IdealServe(q, req);
      SpentStep(q, t, req, reply, id)
  {
    hide BoxAt, Listed;
    var b := BoxAt(q.boxes, req.call.mailboxId);
    var pid := PidOf(q.procs, req.who);
    if b < |q.boxes| && pid in q.boxes[b].senders {
      var m := Message(pid, Listed(req.call.receivers), req.call.text);
      var before := q.boxes[b].messages;
      UpdateMessages(q.boxes, q.lastId, b, before + [m], id);
      MessagesOfAt(q.boxes, q.lastId, b);
      SpentConcat(before, [m]);
      assert Spent([m]) == if m.receivers == [] then 1 else 0;
    }
  }

  lemma RetrieveSpent(q: Ideal, req: Request, id: int)
    requires IdealOk(q) && req.op == Retrieve
    ensures
      var (t, reply) := IdealServe(q, req);
      SpentStep(q, t, req, reply, id)
  {
    hide BoxAt, Take, Spent;
    var b := BoxAt(q.boxes, req.call.mailboxId);
    var pid := PidOf(q.procs, req.who);
    if b < |q.boxes| && pid in q.boxes[b].receivers {
      var all := q.boxes[b].messages;
      var w := Window(all);
      var taken, rest := Take(w, pid), all[|w|..];
      assert all == w + rest;
      UpdateMessages(q.boxes, q.lastId, b, taken.messages + rest, id);
      MessagesOfAt(q.boxes, q.lastId, b);
      SpentConcat(w, rest);
      SpentConcat(taken.messages, rest);
      TakeKeepsSpent(w, pid);
    }
  }

  /** In a mailbox that stays open only a deposit without receivers adds a message that nobody
      has to collect, and no such message ever leaves. */
  lemma ServeKeepsSpent(q: Ideal, req: Request, id: int)
    requires IdealOk(q)
    ensures
      var (t, reply) := IdealServe(q, req);
      SpentStep(q, t, req, reply, id)
  {
    hide BoxAt, OpenBoxes, CloseBoxes, IdealDeposit, IdealRetrieve, Spent;
    match req.op
    case Open(name, create, write) =>
      OpenKeepsMessages(q.boxes, q.lastId, PidOf(q.procs, req.who), name, create, write, id);
    case Close =>
      CloseKeepsMessages(q.boxes, q.lastId, PidOf(q.procs, req.who), req.call.mailboxId, id);
    case Deposit => DepositSpent(q, req, id);
    case Retrieve => RetrieveSpent(q, req, id);
  }

  lemma {:induction false} IdealRunSpent(q: Ideal, reqs: seq<Request>, id: int)
    requires IdealOk(q)
    ensures
      var o := IdealRun(q, reqs);
      NotClosed(o.state, id) ==>
        && NotClosed(q, id)
        && Spent(MessagesOf(o.state.boxes, id))
           == Spent(MessagesOf(q.boxes, id)) + Empties(reqs, o.replies, id)
    decreases |reqs|
  {
    if reqs != [] {
      var (t, reply) := IdealServe(q, reqs[0]);
      var o, rest := IdealRun(q, reqs), IdealRun(t, reqs[1..]);
      assert o.state == rest.state && o.replies == [reply] + rest.replies;
      hide NotClosed, IdealServe, Spent, MessagesOf, Empty, IdealRun;
      assert o.replies[1..] == rest.replies && o.replies[0] == reply;
      StepBalanced(q, reqs[0], id, 0);
      ServeKeepsSpent(q, reqs[0], id);
      IdealRunSpent(t, reqs[1..], id);
    }
  }

  /** Over every legal run, a mailbox still open holds exactly as many messages without a
      receiver as deposits to it listed none: whatever was deposited for somebody is gone once
      its last receiver has it. */
  lemma SpentAreEmptyDeposits(procs: seq<int>, mIn: Call, reqs: seq<Request>, id: int)
    requires Distinct(procs) && Legal(Start(procs, mIn), reqs)
    ensures
      var o := Run(Start(procs, mIn), reqs);
      IsOpen(Abs(o.state), id) ==>
        Spent(MessagesOf(Abs(o.state).boxes, id)) == Empties(reqs, o.replies, id)
  {
    hide Legal, Run, IdealRun, Empties, IsOpen;
    RunRefines(Start(procs, mIn), reqs);
    IdealRunSpent(Abs(Start(procs, mIn)), reqs, id);
  }

  /** So a mailbox holds a message that nobody has to collect exactly when a deposit to it
      listed no receiver. */
  lemma SpentIffEmptyDeposit(procs: seq<int>, mIn: Call, reqs: seq<Request>, id: int)
    requires Distinct(procs) && Legal(Start(procs, mIn), reqs)
    ensures
      var o := Run(Start(procs, mIn), reqs);
      IsOpen(Abs(o.state), id) ==>
        (Unspent(MessagesOf(Abs(o.state).boxes, id)) <==>
         forall k :: 0 <= k < |reqs| ==> Empty(reqs[k], o.replies[k], id) == 0)
  {
    hide Legal, Run, Abs, Empty, Unspent, MessagesOf;
    var o := Run(Start(procs, mIn), reqs);
    SpentAreEmptyDeposits(procs, mIn, reqs, id);
    NoneSpent(MessagesOf(Abs(o.state).boxes, id));
    NoEmpties(reqs, o.replies, id);
  }

  lemma {:induction false} NoEmpties(reqs: seq<Request>, replies: seq<Reply>, id: int)
    requires |replies| == |reqs|
    ensures Empties(reqs, replies, id) == 0 <==>
      forall k :: 0 <= k < |reqs| ==> Empty(reqs[k], replies[k], id) == 0
    decreases |reqs|
  {
    hide Empty;
    if reqs != [] {
      NoEmpties(reqs[1..], replies[1..], id);
      assert forall k :: 0 < k < |reqs| ==>
        reqs[k] == reqs[1..][k - 1] && replies[k] == replies[1..][k - 1];
    }
  }

  // ---------- a mailbox filled for good ----------

  /** The messages that can be collected are five that nobody has to collect. */
  predicate Jammed(q: Ideal, id: int) {
    var messages := MessagesOf(q.boxes, id);
    |messages| >= MAX_MESSAGE_IN_MAILBOX
    && forall k :: 0 <= k < MAX_MESSAGE_IN_MAILBOX ==> messages[k].receivers == []
  }

  predicate NothingMoves(req: Request, reply: Reply, id: int) {
    req.call.mailboxId == id ==>
      && (req.op == Deposit ==> reply != Ok)
      && (req.op == Retrieve ==> !reply.Got?)
  }

  lemma TakeFromSpent(w: seq<Message>, pid: int)
    requires forall k :: 0 <= k < |w| ==> w[k].receivers == []
    ensures Take(w, pid) == Taken(w, Nothing, false)
  {
    hide FirstFor;
  }

  lemma DepositJammed(q: Ideal, req: Request, id: int)
    requires IdealOk(q) && Jammed(q, id) && req.op == Deposit
    ensures
      var (t, reply) := IdealServe(q, req);
      Jammed(t, id) && NothingMoves(req, reply, id)
  {
    hide BoxAt, Listed;
    var b := BoxAt(q.boxes, req.call.mailboxId);
    var pid := PidOf(q.procs, req.who);
    if b < |q.boxes| && pid in q.boxes[b].senders {
      var m := Message(pid, Listed(req.call.receivers), req.call.text);
      UpdateMessages(q.boxes, q.lastId, b, q.boxes[b].messages + [m], id);
      MessagesOfAt(q.boxes, q.lastId, b);
    }
  }

  lemma RetrieveJammed(q: Ideal, req: Request, id: int)
    requires IdealOk(q) && Jammed(q, id) && req.op == Retrieve
    ensures
      var (t, reply) := IdealServe(q, req);
      Jammed(t, id) && NothingMoves(req, reply, id)
  {
    hide BoxAt, Take;
    var b := BoxAt(q.boxes, req.call.mailboxId);
    var pid := PidOf(q.procs, req.who);
    if b < |q.boxes| && pid in q.boxes[b].receivers {
      var all := q.boxes[b].messages;
      var w := Window(all);
      UpdateMessages(q.boxes, q.lastId, b, Take(w, pid).messages + all[|w|..], id);
      MessagesOfAt(q.boxes, q.lastId, b);
      if id == req.call.mailboxId {
        TakeFromSpent(w, pid);
        assert all == w + all[|w|..];
      }
    }
  }

  lemma ServeJammed(q: Ideal, req: Request, id: int)
    requires IdealOk(q) && Jammed(q, id)
    ensures
      var (t, reply) := IdealServe(q, req);
      IsOpen(t, id) ==> Jammed(t, id) && NothingMoves(req, reply, id)
  {
    hide BoxAt, OpenBoxes, CloseBoxes, IdealDeposit, IdealRetrieve;
    match req.op
    case Open(name, create, write) =>
      OpenKeepsMessages(q.boxes, q.lastId, PidOf(q.procs, req.who), name, create, write, id);
    case Close =>
      CloseKeepsMessages(q.boxes, q.lastId, PidOf(q.procs, req.who), req.call.mailboxId, id);
    case Deposit => DepositJammed(q, req, id);
    case Retrieve => RetrieveJammed(q, req, id);
  }

  lemma JammedIsOpen(q: Ideal, id: int)
    requires Jammed(q, id)
    ensures IsOpen(q, id)
  {
  }

  /** A mailbox open at both ends of a run is open throughout: ids are not issued again. */
  lemma OpenThroughout(q: Ideal, reqs: seq<Request>, id: int)
    requires IdealOk(q) && IsOpen(q, id) && reqs != [] && IsOpen(IdealRun(q, reqs).state, id)
    ensures IdealOk(IdealServe(q, reqs[0]).0) && IsOpen(IdealServe(q, reqs[0]).0, id)
  {
    hide BoxAt, Outstanding, Sent, Received, SentBy, GotBy, IdealServe;
    StepBalanced(q, reqs[0], id, 0);
    IdealRunBalanced(IdealServe(q, reqs[0]).0, reqs[1..], id, 0);
  }

  lemma {:induction false} IdealRunJammed(q: Ideal, reqs: seq<Request>, id: int)
    requires IdealOk(q) && Jammed(q, id) && IsOpen(IdealRun(q, reqs).state, id)
    ensures forall k :: 0 <= k < |reqs| ==> NothingMoves(reqs[k], IdealRun(q, reqs).replies[k], id)
    decreases |reqs|
  {
    if reqs != [] {
      var (t, reply) := IdealServe(q, reqs[0]);
      var o, rest := IdealRun(q, reqs), IdealRun(t, reqs[1..]);
      assert o.state == rest.state && o.replies == [reply] + rest.replies;
      hide IdealServe, Jammed, NothingMoves, IdealRun, IsOpen, IdealOk;
      JammedIsOpen(q, id);
      OpenThroughout(q, reqs, id);
      ServeJammed(q, reqs[0], id);
      IdealRunJammed(t, reqs[1..], id);
    }
  }

  /** Five messages that list nobody fill a mailbox for good: until it is closed every deposit
      to it is refused or suspended, and nobody collects anything from it. */
  lemma JammedForGood(s: State, reqs: seq<Request>, id: int)
    requires Ready(s) && Legal(s, reqs) && Jammed(Abs(s), id)
    ensures
      var o := Run(s, reqs);
      IsOpen(Abs(o.state), id) ==>
        forall k :: 0 <= k < |reqs| ==> NothingMoves(reqs[k], o.replies[k], id)
  {
    hide Jammed, NothingMoves, Legal, Run, IsOpen;
    RunRefines(s, reqs);
    if IsOpen(Abs(Run(s, reqs).state), id) {
      IdealRunJammed(Abs(s), reqs, id);
    }
  }
}
