/** Exactly-once, in-order delivery over whole runs, read off the requests and replies alone. */
module MailboxDelivery {
  import opened MailboxModel
  import opened MailboxInvariant
  import opened MailboxRefinement

  // ---------- what is owed to one receiver ----------

  function Repeat(text: string, n: nat): seq<string> {
    if n == 0 then [] else [text] + Repeat(text, n - 1)
  }

  /** The texts still owed to receiver `p`, in queue order, once for each time it is listed. */
  function Owed(messages: seq<Message>, p: int): seq<string> {
    if messages == [] then []
    else Repeat(messages[0].text, multiset(messages[0].receivers)[p]) + Owed(messages[1..], p)
  }

  predicate IsOpen(q: Ideal, id: int) {
    BoxAt(q.boxes, id) < |q.boxes|
  }

  function MessagesOf(boxes: seq<Mailbox>, id: int): seq<Message> {
    var b := BoxAt(boxes, id);
    if b < |boxes| then boxes[b].messages else []
  }

  function Outstanding(q: Ideal, id: int, p: int): seq<string> {
    Owed(MessagesOf(q.boxes, id), p)
  }

  // ---------- what the trace says ----------

  /** What a deposit to `id` that was taken, at once or after suspension, owes to `p`. */
  function SentBy(req: Request, reply: Reply, id: int, p: int): seq<string> {
    if req.op == Deposit && req.call.mailboxId == id && (reply == Ok || reply == Suspend)
    then Repeat(req.call.text, multiset(Listed(req.call.receivers))[p])
    else []
  }

  function GotBy(procs: seq<int>, req: Request, reply: Reply, id: int, p: int): seq<string> {
    if req.op == Retrieve && req.call.mailboxId == id && reply.Got? && PidOf(procs, req.who) == p
    then [reply.text]
    else []
  }

  function Sent(reqs: seq<Request>, replies: seq<Reply>, id: int, p: int): seq<string>
    requires |replies| == |reqs|
    decreases |reqs|
  {
    if reqs == [] then []
    else SentBy(reqs[0], replies[0], id, p) + Sent(reqs[1..], replies[1..], id, p)
  }

  function Received(procs: seq<int>, reqs: seq<Request>, replies: seq<Reply>, id: int, p: int): seq<string>
    requires |replies| == |reqs|
    decreases |reqs|
  {
    if reqs == [] then []
    else GotBy(procs, reqs[0], replies[0], id, p) + Received(procs, reqs[1..], replies[1..], id, p)
  }

  // ---------- one step ----------

  lemma {:induction false} OwedConcat(a: seq<Message>, b: seq<Message>, p: int)
    ensures Owed(a + b, p) == Owed(a, p) + Owed(b, p)
  {
    if a == [] {
      assert a + b == b;
    } else {
      assert (a + b)[1..] == a[1..] + b;
      OwedConcat(a[1..], b, p);
    }
  }

  lemma {:induction false} NothingOwed(messages: seq<Message>, p: int)
    requires forall i :: 0 <= i < |messages| ==> p !in messages[i].receivers
    ensures Owed(messages, p) == []
  {
    if messages != [] {
      NothingOwed(messages[1..], p);
    }
  }

  lemma RemoveFirstCount(xs: seq<int>, x: int)
    requires x in xs
    ensures multiset(xs) == multiset(RemoveFirst(xs, x)) + multiset{x}
  {
    var i := IndexOf(xs, x);
    assert xs == xs[..i] + [xs[i]] + xs[i + 1..];
  }

  lemma OwedAround(pre: seq<Message>, mid: seq<Message>, post: seq<Message>, p: int)
    ensures Owed(pre + mid + post, p) == Owed(pre, p) + Owed(mid, p) + Owed(post, p)
  {
    OwedConcat(pre + mid, post, p);
    OwedConcat(pre, mid, p);
  }

  /** What remains of a message once one receiver has it: nothing, if that was the last one. */
  function Kept(m: Message, pid: int): seq<Message> {
    var rest := RemoveFirst(m.receivers, pid);
    if rest == [] then [] else [m.(receivers := rest)]
  }

  lemma OwedOne(m: Message, p: int)
    ensures Owed([m], p) == Repeat(m.text, multiset(m.receivers)[p])
  {
    hide Repeat;
  }

  lemma KeptOwed(m: Message, pid: int, p: int)
    ensures Owed(Kept(m, pid), p) == Repeat(m.text, multiset(RemoveFirst(m.receivers, pid))[p])
  {
    hide RemoveFirst, Owed;
    var rest := RemoveFirst(m.receivers, pid);
    if rest == [] {
      NothingOwed([], p);
    } else {
      OwedOne(m.(receivers := rest), p);
    }
  }

  lemma KeptOwes(m: Message, pid: int, p: int)
    requires pid in m.receivers
    ensures Owed([m], p) == (if p == pid then [m.text] else []) + Owed(Kept(m, pid), p)
  {
    hide RemoveFirst, Owed, Kept;
    RemoveFirstCount(m.receivers, pid);
    OwedOne(m, p);
    KeptOwed(m, pid, p);
  }

  lemma TakeShape(messages: seq<Message>, pid: int)
    ensures
      var taken, i := Take(messages, pid), FirstFor(messages, pid);
      if i == |messages| then taken.messages == messages && taken.reply == Nothing
      else
        && taken.reply == Got(messages[i].text)
        && messages == messages[..i] + [messages[i]] + messages[i + 1..]
        && taken.messages == messages[..i] + Kept(messages[i], pid) + messages[i + 1..]
  {
    hide FirstFor, RemoveFirst;
  }

  /** Taking a message for `pid` takes the head of what is owed to `pid` and leaves what is
      owed to everyone else. */
  lemma TakeTakesHead(messages: seq<Message>, pid: int, p: int)
    ensures
      var taken := Take(messages, pid);
      && (taken.reply == Nothing || taken.reply.Got?)
      && Owed(messages, p)
         == (if taken.reply.Got? && p == pid then [taken.reply.text] else []) + Owed(taken.messages, p)
  {
    TakeShape(messages, pid);
    hide FirstFor, Take, Owed, Kept;
    var i := FirstFor(messages, pid);
    if i < |messages| {
      OwedAround(messages[..i], [messages[i]], messages[i + 1..], p);
      OwedAround(messages[..i], Kept(messages[i], pid), messages[i + 1..], p);
      KeptOwes(messages[i], pid, p);
      if p == pid {
        NothingOwed(messages[..i], p);
      }
    }
  }

  predicate IdsOk(boxes: seq<Mailbox>, lastId: int) {
    && (forall i :: 0 <= i < |boxes| ==> boxes[i].id < lastId)
    && (forall i, j :: 0 <= i < j < |boxes| ==> boxes[i].id != boxes[j].id)
  }

  lemma MessagesOfAt(boxes: seq<Mailbox>, lastId: int, i: nat)
    requires IdsOk(boxes, lastId) && i < |boxes|
    ensures BoxAt(boxes, boxes[i].id) == i
    ensures MessagesOf(boxes, boxes[i].id) == boxes[i].messages
  {
    BoxAtUnique(boxes, i);
  }

  /** Opening issues ids from a counter and touches no messages. */
  lemma OpenKeepsMessages(boxes: seq<Mailbox>, lastId: int, pid: int, name: string,
                          create: bool, write: bool, id: int)
    requires IdsOk(boxes, lastId)
    ensures
      var o := OpenBoxes(boxes, lastId, pid, name, create, write);
      && IdsOk(o.boxes, o.lastId) && lastId <= o.lastId
      && MessagesOf(o.boxes, id) == MessagesOf(boxes, id)
      && (BoxAt(o.boxes, id) < |o.boxes| ==> BoxAt(boxes, id) < |boxes| || id == lastId)
  {
    hide BoxAt, NameAt;
    var o := OpenBoxes(boxes, lastId, pid, name, create, write);
    var b := BoxAt(o.boxes, id);
    if b < |o.boxes| {
      MessagesOfAt(o.boxes, o.lastId, b);
      if b < |boxes| {
        MessagesOfAt(boxes, lastId, b);
      }
    } else {
      assert forall i :: 0 <= i < |boxes| ==> o.boxes[i].id == boxes[i].id;
    }
  }

  /** Closing keeps the messages of every mailbox that stays open. */
  lemma CloseKeepsMessages(boxes: seq<Mailbox>, lastId: int, pid: int, closed: int, id: int)
    requires IdsOk(boxes, lastId)
    ensures
      var o := CloseBoxes(boxes, lastId, pid, closed);
      && IdsOk(o.boxes, o.lastId) && lastId == o.lastId
      && (BoxAt(o.boxes, id) < |o.boxes| ==>
            BoxAt(boxes, id) < |boxes| && MessagesOf(o.boxes, id) == MessagesOf(boxes, id))
  {
    hide BoxAt, RemoveFirst;
    var o := CloseBoxes(boxes, lastId, pid, closed);
    var b, i := BoxAt(o.boxes, id), BoxAt(boxes, closed);
    if b < |o.boxes| {
      MessagesOfAt(o.boxes, lastId, b);
      MessagesOfAt(boxes, lastId, if |o.boxes| < |boxes| && i <= b then b + 1 else b);
    }
  }

  /** Replacing the messages of one mailbox leaves the other mailboxes' messages. */
  lemma UpdateMessages(boxes: seq<Mailbox>, lastId: int, b: nat, messages: seq<Message>, id: int)
    requires IdsOk(boxes, lastId) && b < |boxes|
    ensures
      var u := boxes[b := boxes[b].(messages := messages)];
      && IdsOk(u, lastId)
      && BoxAt(u, id) == BoxAt(boxes, id)
      && MessagesOf(u, id) == (if id == boxes[b].id then messages else MessagesOf(boxes, id))
  {
    hide BoxAt;
    var u := boxes[b := boxes[b].(messages := messages)];
    var i := BoxAt(boxes, id);
    if i < |boxes| {
      MessagesOfAt(u, lastId, i);
      MessagesOfAt(boxes, lastId, i);
    }
  }

  predicate IdealOk(q: Ideal) {
    IdsOk(q.boxes, q.lastId)
  }

  /** Either open now, or never issued so far. */
  predicate NotClosed(q: Ideal, id: int) {
    IsOpen(q, id) || q.lastId <= id
  }

  /** The ledger balances over one request, for every mailbox that it does not leave closed. */
  predicate Balanced(q: Ideal, t: Ideal, req: Request, reply: Reply, id: int, p: int) {
    && IdealOk(t) && q.lastId <= t.lastId && q.procs == t.procs
    && (NotClosed(t, id) ==>
          && NotClosed(q, id)
          && Outstanding(q, id, p) + SentBy(req, reply, id, p)
             == GotBy(q.procs, req, reply, id, p) + Outstanding(t, id, p))
  }

  lemma DepositBalanced(q: Ideal, req: Request, id: int, p: int)
    requires IdealOk(q) && req.op == Deposit
    ensures
      var (t, reply) := IdealServe(q, req);
      Balanced(q, t, req, reply, id, p)
  {
    hide BoxAt, Listed, Owed, Repeat;
    var b := BoxAt(q.boxes, req.call.mailboxId);
    var pid := PidOf(q.procs, req.who);
    if b < |q.boxes| && pid in q.boxes[b].senders {
      var m := Message(pid, Listed(req.call.receivers), req.call.text);
      var before := q.boxes[b].messages;
      UpdateMessages(q.boxes, q.lastId, b, before + [m], id);
      MessagesOfAt(q.boxes, q.lastId, b);
      OwedConcat(before, [m], p);
      OwedOne(m, p);
    }
  }

  /** Taking from the window of a queue. */
  lemma TakeFromWindow(all: seq<Message>, pid: int, p: int)
    ensures
      var taken, rest := Take(Window(all), pid), all[|Window(all)|..];
      && (taken.reply == Nothing || taken.reply.Got?)
      && Owed(all, p) == (if taken.reply.Got? && p == pid then [taken.reply.text] else [])
                         + Owed(taken.messages + rest, p)
  {
    hide Take, Owed;
    var w := Window(all);
    var taken, rest := Take(w, pid), all[|w|..];
    assert all == w + rest;
    OwedConcat(w, rest, p);
    OwedConcat(taken.messages, rest, p);
    TakeTakesHead(w, pid, p);
  }

  lemma RetrieveBalanced(q: Ideal, req: Request, id: int, p: int)
    requires IdealOk(q) && req.op == Retrieve
    ensures
      var (t, reply) := IdealServe(q, req);
      Balanced(q, t, req, reply, id, p)
  {
    hide BoxAt, Take, Owed, Window;
    var b := BoxAt(q.boxes, req.call.mailboxId);
    var pid := PidOf(q.procs, req.who);
    if b < |q.boxes| && pid in q.boxes[b].receivers {
      var all := q.boxes[b].messages;
      var w := Window(all);
      UpdateMessages(q.boxes, q.lastId, b, Take(w, pid).messages + all[|w|..], id);
      MessagesOfAt(q.boxes, q.lastId, b);
      TakeFromWindow(all, pid, p);
    }
  }

  lemma StepBalanced(q: Ideal, req: Request, id: int, p: int)
    requires IdealOk(q)
    ensures
      var (t, reply) := IdealServe(q, req);
      Balanced(q, t, req, reply, id, p)
  {
    hide BoxAt, OpenBoxes, CloseBoxes, IdealDeposit, IdealRetrieve;
    match req.op
    case Open(name, create, write) =>
      OpenKeepsMessages(q.boxes, q.lastId, PidOf(q.procs, req.who), name, create, write, id);
    case Close =>
      CloseKeepsMessages(q.boxes, q.lastId, PidOf(q.procs, req.who), req.call.mailboxId, id);
    case Deposit => DepositBalanced(q, req, id, p);
    case Retrieve => RetrieveBalanced(q, req, id, p);
  }

  // ---------- whole runs ----------

  lemma Chain(a: seq<string>, s1: seq<string>, g1: seq<string>, b: seq<string>,
              s2: seq<string>, g2: seq<string>, c: seq<string>)
    requires a + s1 == g1 + b && b + s2 == g2 + c
    ensures a + (s1 + s2) == (g1 + g2) + c
  {
    assert a + (s1 + s2) == (a + s1) + s2 == g1 + (b + s2);
  }

  predicate RunBalanced(q: Ideal, o: IdealOutcome, reqs: seq<Request>, id: int, p: int)
    requires |o.replies| == |reqs|
  {
    NotClosed(o.state, id) ==>
      && NotClosed(q, id)
      && Outstanding(q, id, p) + Sent(reqs, o.replies, id, p)
         == Received(q.procs, reqs, o.replies, id, p) + Outstanding(o.state, id, p)
  }

  lemma {:induction false} IdealRunBalanced(q: Ideal, reqs: seq<Request>, id: int, p: int)
    requires IdealOk(q)
    ensures RunBalanced(q, IdealRun(q, reqs), reqs, id, p)
    decreases |reqs|
  {
    if reqs != [] {
      var (t, reply) := IdealServe(q, reqs[0]);
      var o, rest := IdealRun(q, reqs), IdealRun(t, reqs[1..]);
      assert o.state == rest.state && o.replies == [reply] + rest.replies;
      hide NotClosed, IdealServe, Outstanding, SentBy, GotBy, IdealRun;
      assert o.replies[1..] == rest.replies && o.replies[0] == reply;
      StepBalanced(q, reqs[0], id, p);
      IdealRunBalanced(t, reqs[1..], id, p);
      if NotClosed(o.state, id) {
        Chain(Outstanding(q, id, p), SentBy(reqs[0], reply, id, p), GotBy(q.procs, reqs[0], reply, id, p),
              Outstanding(t, id, p),
              Sent(reqs[1..], rest.replies, id, p), Received(q.procs, reqs[1..], rest.replies, id, p),
              Outstanding(rest.state, id, p));
      }
    }
  }

  lemma AbsOk(s: State)
    requires Inv(s)
    ensures IdealOk(Abs(s))
  {
    hide RecordOk, Queued;
    assert forall i :: 0 <= i < |s.boxes| ==> Abs(s).boxes[i].id == s.boxes[i].id by {
      AbsIds(s);
    }
  }

  lemma AbsIds(s: State)
    ensures forall i :: 0 <= i < |s.boxes| ==> Abs(s).boxes[i].id == s.boxes[i].id
  {
    hide Waiting;
  }

  /** Over every legal run of the service, for every mailbox still open at the end and every
      receiver: what was owed at the start followed by what deposits were taken for it is what
      it has collected followed by what is still owed. Nothing is lost, duplicated or
      reordered, whether or not a deposit had to be suspended and replayed. */
  lemma DeliveredOnceInOrder(s: State, reqs: seq<Request>, id: int, p: int)
    requires Ready(s) && Legal(s, reqs)
    ensures
      var o := Run(s, reqs);
      IsOpen(Abs(o.state), id) ==>
        Outstanding(Abs(s), id, p) + Sent(reqs, o.replies, id, p)
        == Received(s.procs, reqs, o.replies, id, p) + Outstanding(Abs(o.state), id, p)
  {
    hide Legal, Run, IdealRun, Inv, Quiet, Queued, Outstanding, Sent, Received, IsOpen, IdealOk;
    AbsOk(s);
    RunRefines(s, reqs);
    IdealRunBalanced(Abs(s), reqs, id, p);
  }

  /** From start-up: what the taken deposits named a receiver for, in order, is what it has
      collected, in order, followed by what is still owed. */
  lemma DeliveredFromStart(procs: seq<int>, mIn: Call, reqs: seq<Request>, id: int, p: int)
    requires Distinct(procs) && Legal(Start(procs, mIn), reqs)
    ensures
      var o := Run(Start(procs, mIn), reqs);
      IsOpen(Abs(o.state), id) ==>
        Sent(reqs, o.replies, id, p)
        == Received(procs, reqs, o.replies, id, p) + Outstanding(Abs(o.state), id, p)
  {
    hide Legal, Run, Sent, Received;
    DeliveredOnceInOrder(Start(procs, mIn), reqs, id, p);
  }
}
