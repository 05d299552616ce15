/** What each of the four calls does to the service, stated without the functions that compute
    it: for every request, the reply and the whole new state. */
module MailboxRules {
  import opened MailboxModel
  import opened MailboxInvariant
  import opened MailboxAccess

  /** Mailbox `b` has that id and lists that sender. */
  predicate MaySend(boxes: seq<Mailbox>, b: int, id: int, pid: int) {
    0 <= b < |boxes| && boxes[b].id == id && pid in boxes[b].senders
  }

  /** A deposit is refused exactly when the caller is no sender of that mailbox. Otherwise it is
      put behind the messages, if there are fewer than five, or suspended at the end of the
      list of suspended calls. */
  ghost predicate DepositRule(s: State, who: nat, t: State, reply: Reply)
    requires who < |s.procs|
  {
    var pid, call := s.procs[who], s.mIn;
    && ((forall b :: !MaySend(s.boxes, b, call.mailboxId, pid)) ==>
          reply == EInvalidSender && t.boxes == s.boxes && t.blocked == s.blocked)
    && forall b :: MaySend(s.boxes, b, call.mailboxId, pid) ==>
         var box := s.boxes[b];
         if |box.messages| < 5 then
           var m := Message(pid, Listed(call.receivers), call.text);
           && reply == Ok && t.blocked == s.blocked
           && t.boxes == s.boxes[b := box.(messages := box.messages + [m])]
         else
           && reply == Suspend && t.boxes == s.boxes
           && t.blocked == s.blocked + [Record(call.mailboxId, who, call.text, call, false)]
  }

  /** Message `k` is the first that still lists the receiver. */
  predicate FirstListing(messages: seq<Message>, k: int, pid: int) {
    && 0 <= k < |messages| && pid in messages[k].receivers
    && forall j :: 0 <= j < k ==> pid !in messages[j].receivers
  }

  /** Message `k` loses one entry for the receiver, and goes if that was the last one; the
      others stay as they are. */
  predicate Collected(before: seq<Message>, k: int, pid: int, after: seq<Message>)
    requires 0 <= k < |before|
  {
    if before[k].receivers == [pid] then after == before[..k] + before[k + 1..]
    else
      && |after| == |before|
      && after[k].sender == before[k].sender && after[k].text == before[k].text
      && Struck(before[k].receivers, pid, after[k].receivers)
      && forall j :: 0 <= j < |before| && j != k ==> after[j] == before[j]
  }

  /** A retrieval needs a mailbox with that id that lists the caller as a receiver. It returns
      and strikes off the first message for the caller; the suspended senders of that mailbox
      are flagged exactly when the message goes. */
  ghost predicate RetrieveRule(s: State, who: nat, t: State, reply: Reply)
    requires who < |s.procs|
  {
    var pid, call := s.procs[who], s.mIn;
    && ((forall b :: 0 <= b < |s.boxes| ==> s.boxes[b].id != call.mailboxId) ==>
          reply == ENotFound && t.boxes == s.boxes && t.blocked == s.blocked)
    && forall b :: 0 <= b < |s.boxes| && s.boxes[b].id == call.mailboxId ==>
         var box := s.boxes[b];
         if pid !in box.receivers then reply == EPerm && t.boxes == s.boxes && t.blocked == s.blocked
         else
           && ((forall k :: !FirstListing(box.messages, k, pid)) ==>
                 reply == Nothing && t.boxes == s.boxes && t.blocked == s.blocked)
           && forall k :: FirstListing(box.messages, k, pid) ==>
                && reply == Got(box.messages[k].text)
                && |t.boxes| == |s.boxes|
                && t.boxes[b].(messages := []) == box.(messages := [])
                && Collected(box.messages, k, pid, t.boxes[b].messages)
                && (forall j :: 0 <= j < |s.boxes| && j != b ==> t.boxes[j] == s.boxes[j])
                && Flagged(s.blocked, t.blocked, call.mailboxId, box.messages[k].receivers == [pid])
  }

  /** The same records in the same order, those of one mailbox flagged if `flag` says so. */
  predicate Flagged(before: seq<Record>, after: seq<Record>, id: int, flag: bool) {
    && |after| == |before|
    && forall i :: 0 <= i < |before| ==>
      && after[i].(unblocked := false) == before[i].(unblocked := false)
      && (after[i].unblocked <==> before[i].unblocked || (flag && before[i].mailboxId == id))
  }

  ghost predicate Rule(s: State, req: Request, t: State, reply: Reply)
    requires req.who < |s.procs|
  {
    var u := s.(mIn := req.call);
    && t.procs == s.procs && t.mIn == req.call
    && match req.op
       case Open(name, create, write) =>
         && t.blocked == s.blocked
         && OpenRule(s.boxes, s.lastId, s.procs[req.who], name, create, write, Boxes(t.boxes, t.lastId, reply))
       case Close =>
         && t.blocked == s.blocked
         && CloseRule(s.boxes, s.lastId, s.procs[req.who], req.call.mailboxId, Boxes(t.boxes, t.lastId, reply))
       case Deposit => t.lastId == s.lastId && DepositRule(u, req.who, t, reply)
       case Retrieve => t.lastId == s.lastId && RetrieveRule(u, req.who, t, reply)
  }

  lemma DepositFollows(s: State, who: nat)
    requires Inv(s) && CanCall(s, who)
    ensures
      var (t, reply) := DepositCall(s, who);
      && DepositRule(s, who, t, reply)
      && t.procs == s.procs && t.mIn == s.mIn && t.lastId == s.lastId
  {
    hide BoxAt, RecordOf, Listed;
    var b := BoxAt(s.boxes, s.mIn.mailboxId);
    var pid := s.procs[who];
    assert b < |s.boxes| && pid in s.boxes[b].senders ==> MaySend(s.boxes, b, s.mIn.mailboxId, pid);
  }

  lemma TakeCollects(messages: seq<Message>, pid: int)
    ensures
      var taken := Take(messages, pid);
      && ((forall k :: !FirstListing(messages, k, pid)) ==> taken == Taken(messages, Nothing, false))
      && forall k :: FirstListing(messages, k, pid) ==>
           && taken.reply == Got(messages[k].text)
           && Collected(messages, k, pid, taken.messages)
           && (taken.removed <==> messages[k].receivers == [pid])
  {
    hide FirstFor, RemoveFirst, Struck;
    var i := FirstFor(messages, pid);
    if i < |messages| {
      assert FirstListing(messages, i, pid);
      RemoveStrikes(messages[i].receivers, pid);
      StruckLast(messages[i].receivers, pid, RemoveFirst(messages[i].receivers, pid));
    }
  }

  lemma StruckLast(xs: seq<int>, x: int, ys: seq<int>)
    requires x in xs && Struck(xs, x, ys)
    ensures ys == [] <==> xs == [x]
  {
  }

  lemma RetrieveFollows(s: State, who: nat)
    requires Inv(s) && CanCall(s, who)
    ensures
      var (t, reply) := RetrieveCall(s, who);
      && RetrieveRule(s, who, t, reply)
      && t.procs == s.procs && t.mIn == s.mIn && t.lastId == s.lastId
  {
    hide BoxAt, RecordOf, Take, Collected, FirstListing, Flagged, Unblock, RecordOk;
    var (t, reply) := RetrieveCall(s, who);
    var b := BoxAt(s.boxes, s.mIn.mailboxId);
    var pid := s.procs[who];
    if b < |s.boxes| && pid in s.boxes[b].receivers {
      var taken := Take(s.boxes[b].messages, pid);
      TakeCollects(s.boxes[b].messages, pid);
      FlaggedIf(s.blocked, s.mIn.mailboxId, taken.removed);
      assert s.boxes[b].(messages := s.boxes[b].messages) == s.boxes[b];
      assert taken.messages == s.boxes[b].messages ==> t.boxes == s.boxes;
    }
  }

  lemma FlaggedIf(blocked: seq<Record>, id: int, flag: bool)
    ensures Flagged(blocked, if flag then Unblock(blocked, id) else blocked, id, flag)
  {
  }

  /** Every request does what the rule for its call says. */
  lemma ServeFollowsRule(s: State, req: Request)
    requires Ready(s) && CanCall(s, req.who)
    ensures
      var (t, reply) := Serve(s, req);
      Rule(s, req, t, reply)
  {
    hide DepositRule, RetrieveRule, OpenRule, CloseRule, DepositCall, RetrieveCall, OpenBoxes, CloseBoxes;
    var u := s.(mIn := req.call);
    assert Inv(u) by {
      forall i | 0 <= i < |u.blocked| ensures RecordOk(u, u.blocked[i]) {
        assert RecordOk(s, s.blocked[i]);
      }
    }
    match req.op
    case Open(name, create, write) =>
      OpenGrants(s.boxes, s.lastId, s.procs[req.who], name, create, write);
    case Close => CloseWithdraws(s.boxes, s.lastId, s.procs[req.who], req.call.mailboxId);
    case Deposit => DepositFollows(u, req.who);
    case Retrieve => RetrieveFollows(u, req.who);
  }

  // ---------- runs, one request at a time ----------

  /** A run goes on with exactly the requests of existing processes that are not suspended. */
  lemma {:induction false} LegalMore(s: State, reqs: seq<Request>, req: Request)
    ensures Legal(s, reqs + [req]) <==>
      && Legal(s, reqs)
      && req.who < |Run(s, reqs).state.procs|
      && forall r :: r in Run(s, reqs).state.blocked ==> r.who != req.who
    decreases |reqs|
  {
    hide Handle, HandleAnswers, RecordOf;
    if reqs == [] {
      assert [req][1..] == [];
      assert reqs + [req] == [req];
      var k := RecordOf(s.blocked, req.who);
      assert k < |s.blocked| ==> s.blocked[k] in s.blocked;
    } else {
      assert (reqs + [req])[1..] == reqs[1..] + [req];
      LegalMore(Handle(s, reqs[0]).0, reqs[1..], req);
    }
  }

  /** And each further request is served by its rule, with a drain after it. */
  lemma {:induction false} RunMore(s: State, reqs: seq<Request>, req: Request)
    requires Ready(s) && Legal(s, reqs + [req])
    ensures
      var u := Run(s, reqs).state;
      var o := Run(s, reqs + [req]);
      exists t, reply ::
        && req.who < |u.procs| && Rule(u, req, t, reply) && o.state == Drain(t)
        && o.replies == Run(s, reqs).replies + [reply]
  {
    LegalMore(s, reqs, req);
    RunKeepsReady(s, reqs);
    var u := Run(s, reqs).state;
    hide Legal, Run, Rule, Serve, Inv, Quiet, Drain, RecordOf;
    var (t, reply) := Serve(u, req);
    assert CanCall(u, req.who) by {
      StillCalls(u, req.who);
    }
    ServeFollowsRule(u, req);
    RunSnoc(s, reqs, req);
  }

  lemma StillCalls(s: State, who: nat)
    requires who < |s.procs| && forall r :: r in s.blocked ==> r.who != who
    ensures CanCall(s, who)
  {
    forall i | 0 <= i < |s.blocked| ensures s.blocked[i].who != who {
      assert s.blocked[i] in s.blocked;
    }
  }

  lemma {:induction false} RunSnoc(s: State, reqs: seq<Request>, req: Request)
    ensures
      var o, last := Run(s, reqs), Serve(Run(s, reqs).state, req);
      && Run(s, reqs + [req]).state == Drain(last.0)
      && Run(s, reqs + [req]).replies == o.replies + [last.1]
    decreases |reqs|
  {
    hide Serve, HandleAnswers, Drain;
    if reqs == [] {
      assert reqs + [req] == [req] && [req][1..] == [];
    } else {
      assert (reqs + [req])[1..] == reqs[1..] + [req];
      RunSnoc(Handle(s, reqs[0]).0, reqs[1..], req);
    }
  }
}
