/** The process manager's mailbox calls and main loop, on the lists they update in place. */
module MailboxServer {
  import opened MailboxModel
  import opened MailboxInvariant

  /** Copies a deposit's receivers, stopping at the first entry that is not positive. */
  method CopyReceivers(rcvList: seq<int>) returns (receivers: seq<int>)
    ensures receivers == Listed(rcvList)
    ensures receivers <= rcvList && |receivers| <= 5 && forall k :: 0 <= k < |receivers| ==> receivers[k] > 0
    ensures |receivers| < 5 && |receivers| < |rcvList| ==> rcvList[|receivers|] <= 0
  {
    hide Listed;
    receivers := [];
    var count := 0;
    while count < MAX_NODES && count < |rcvList|
      invariant count <= MAX_NODES && count <= |rcvList| && receivers == rcvList[..count]
      invariant forall k :: 0 <= k < count ==> receivers[k] > 0
    {
      if rcvList[count] <= 0 { break; }
      receivers := receivers + [rcvList[count]];
      count := count + 1;
    }
    assert |Listed(rcvList)| == count;
  }

  /** Deletes the first entry for `pid`, if there is one. */
  method DeleteProcess(nodes: seq<int>, pid: int) returns (left: seq<int>)
    ensures left == RemoveFirst(nodes, pid)
  {
    var i := 0;
    while i < |nodes|
      invariant i <= |nodes|
      invariant pid !in nodes[..i]
    {
      if nodes[i] == pid {
        return nodes[..i] + nodes[i + 1..];
      }
      i := i + 1;
    }
    left := nodes;
  }

  /** What is still to come when the main loop is in state `s` with `reqs` to receive. */
  ghost function Ahead(s: State, reqs: seq<Request>): Outcome {
    After([], DrainAnswers(s), Run(Drain(s), reqs))
  }

  /** An outcome with what came before it. */
  ghost function After(replies: seq<Reply>, answers: seq<Answer>, o: Outcome): Outcome {
    Outcome(o.state, replies + o.replies, answers + o.answers)
  }

  lemma AfterTwice(replies: seq<Reply>, answers: seq<Answer>, reply: seq<Reply>, answer: seq<Answer>, o: Outcome)
    ensures After(replies, answers, After(reply, answer, o)) == After(replies + reply, answers + answer, o)
  {
    assert (answers + answer) + o.answers == answers + (answer + o.answers);
    assert (replies + reply) + o.replies == replies + (reply + o.replies);
  }

  lemma AheadStart(s: State, reqs: seq<Request>)
    ensures After([], [], Ahead(s, reqs[0..])) == Ahead(s, reqs)
  {
    hide Ahead;
    assert reqs[0..] == reqs;
    AfterNothing(Ahead(s, reqs));
  }

  lemma AfterNothing(o: Outcome)
    ensures After([], [], o) == o
  {
  }

  lemma AheadReplay(s: State, reqs: seq<Request>)
    requires !Quiet(s)
    ensures Ahead(s, reqs) == After([], ReplayAnswers(s), Ahead(Replay(s).0, reqs))
    ensures Flags(Replay(s).0.blocked) < Flags(s.blocked)
  {
    hide Replay, ReplayAnswers, Run, Flags, Quiet;
    ReplayLowersFlags(s);
    assert Drain(s) == Drain(Replay(s).0);
    assert DrainAnswers(s) == ReplayAnswers(s) + DrainAnswers(Replay(s).0);
  }

  lemma AheadServe(s: State, reqs: seq<Request>, i: nat)
    requires i < |reqs| && Quiet(s)
    ensures
      var (t, reply) := Serve(s, reqs[i]);
      Ahead(s, reqs[i..]) == After([reply], Answered(reqs[i].who, reply), Ahead(t, reqs[i + 1..]))
  {
    hide Serve, Answered, Run, Quiet;
    var (t, reply) := Serve(s, reqs[i]);
    assert reqs[i..][0] == reqs[i] && reqs[i..][1..] == reqs[i + 1..];
    RunStep(s, reqs[i..]);
    NothingFlagged(s);
    var rest := Run(Drain(t), reqs[i + 1..]);
    assert Answered(reqs[i].who, reply) + (DrainAnswers(t) + rest.answers)
        == (Answered(reqs[i].who, reply) + DrainAnswers(t)) + rest.answers;
  }

  lemma RunStep(s: State, reqs: seq<Request>)
    requires reqs != []
    ensures
      var (t, reply) := Handle(s, reqs[0]);
      Run(s, reqs) == After([reply], HandleAnswers(s, reqs[0]), Run(t, reqs[1..]))
  {
    hide Handle, HandleAnswers;
  }

  lemma NothingFlagged(s: State)
    requires Quiet(s)
    ensures Drain(s) == s && DrainAnswers(s) == []
  {
  }

  lemma AheadEnd(s: State, replies: seq<Reply>, answers: seq<Answer>, reqs: seq<Request>)
    requires Quiet(s) && reqs == []
    ensures After(replies, answers, Ahead(s, reqs)) == Outcome(s, replies, answers)
  {
  }

  /** Where the scan of the messages finds the entry that it takes. */
  lemma TakeAt(messages: seq<Message>, pid: int, i: nat, j: nat)
    requires i < |messages| && forall k :: 0 <= k < i ==> pid !in messages[k].receivers
    requires j < |messages[i].receivers| && messages[i].receivers[j] == pid
    requires forall k :: 0 <= k < j ==> messages[i].receivers[k] != pid
    ensures
      var left := Without(messages[i].receivers, j);
      Take(messages, pid) ==
        if left == [] then Taken(Without(messages, i), Got(messages[i].text), true)
        else Taken(messages[i := messages[i].(receivers := left)], Got(messages[i].text), false)
  {
    hide FirstFor, IndexOf;
    assert FirstFor(messages, pid) == i && IndexOf(messages[i].receivers, pid) == j;
  }

  lemma TakeNone(messages: seq<Message>, pid: int)
    requires forall k :: 0 <= k < |messages| ==> pid !in messages[k].receivers
    ensures Take(messages, pid) == Taken(messages, Nothing, false)
  {
    hide FirstFor;
  }

  lemma ReplayAt(s: State, i: nat)
    requires i <= |s.blocked| && forall j :: 0 <= j < i ==> !s.blocked[j].unblocked
    requires i < |s.blocked| ==> s.blocked[i].unblocked
    ensures i == |s.blocked| ==> Replay(s).0 == s && ReplayAnswers(s) == []
    ensures i < |s.blocked| ==>
      var cleared := s.(blocked := s.blocked[i := s.blocked[i].(unblocked := false)]);
      && Replay(s) == DepositCall(cleared, s.blocked[i].who)
      && ReplayAnswers(s) == Answered(s.blocked[i].who, Replay(s).1)
  {
    hide FirstUnblocked, DepositCall;
    assert FirstUnblocked(s.blocked) == i;
  }

  class ProcessManager {
    const mproc: seq<int>
    var mailboxes: seq<Mailbox>
    var lastMailboxId: int
    var blockedSenders: seq<Record>
    var mIn: Call

    ghost function Snapshot(): State
      reads this
    {
      State(mproc, mailboxes, lastMailboxId, blockedSenders, mIn)
    }

    constructor (mproc: seq<int>, mIn: Call)
      ensures Snapshot() == Start(mproc, mIn)
    {
      this.mproc := mproc;
      this.mIn := mIn;
      mailboxes, lastMailboxId, blockedSenders := [], 0, [];
    }

    // ---------- searches ----------

    method GetMailbox(id: int) returns (i: nat)
      ensures i == BoxAt(mailboxes, id)
    {
      i := 0;
      while i < |mailboxes| && mailboxes[i].id != id
        invariant i <= |mailboxes|
        invariant forall j :: 0 <= j < i ==> mailboxes[j].id != id
      {
        i := i + 1;
      }
    }

    method GetMailboxByName(name: string) returns (i: nat)
      ensures i == NameAt(mailboxes, name)
    {
      i := 0;
      while i < |mailboxes| && mailboxes[i].name != name
        invariant i <= |mailboxes|
        invariant forall j :: 0 <= j < i ==> mailboxes[j].name != name
      {
        i := i + 1;
      }
    }

    method IsValidSender(id: int, pid: int) returns (valid: bool)
      ensures valid <==>
        BoxAt(mailboxes, id) < |mailboxes| && pid in mailboxes[BoxAt(mailboxes, id)].senders
    {
      valid := false;
      var b := GetMailbox(id);
      if b < |mailboxes| {
        var senders, i := mailboxes[b].senders, 0;
        while i < |senders|
          invariant i <= |senders|
          invariant !valid && pid !in senders[..i]
        {
          if senders[i] == pid {
            return true;
          }
          i := i + 1;
        }
      }
    }

    method ValidateReceiver(b: nat, pid: int) returns (valid: bool)
      requires b < |mailboxes|
      ensures valid <==> pid in mailboxes[b].receivers
    {
      var receivers, i := mailboxes[b].receivers, 0;
      while i < |receivers|
        invariant i <= |receivers|
        invariant pid !in receivers[..i]
      {
        if receivers[i] == pid {
          return true;
        }
        i := i + 1;
      }
      valid := false;
    }

    method FindSender(who: nat) returns (i: nat)
      ensures i == RecordOf(blockedSenders, who)
    {
      i := 0;
      while i < |blockedSenders| && blockedSenders[i].who != who
        invariant i <= |blockedSenders|
        invariant forall j :: 0 <= j < i ==> blockedSenders[j].who != who
      {
        i := i + 1;
      }
    }

    method IsAnySenderUnblocked() returns (any: bool)
      ensures any <==> !Quiet(Snapshot())
    {
      var i := 0;
      while i < |blockedSenders|
        invariant i <= |blockedSenders|
        invariant forall j :: 0 <= j < i ==> !blockedSenders[j].unblocked
      {
        if blockedSenders[i].unblocked {
          return true;
        }
        i := i + 1;
      }
      any := false;
    }

    // ---------- suspended senders ----------

    method IsSenderBlocked(who: nat) returns (blocked: bool)
      ensures blocked <==> RecordOf(blockedSenders, who) < |blockedSenders|
    {
      var i := FindSender(who);
      blocked := i < |blockedSenders|;
    }

    method SaveContext(message: Call, who: nat, text: string)
      modifies this`blockedSenders
      ensures blockedSenders
           == old(blockedSenders) + [Record(message.mailboxId, who, text, message, false)]
    {
      blockedSenders := blockedSenders + [Record(message.mailboxId, who, text, message, false)];
    }

    method GetContext(who: nat) returns (found: bool, text: string)
      modifies this`mIn
      ensures
        var k := RecordOf(blockedSenders, who);
        && (found <==> k < |blockedSenders|)
        && (if found then mIn == blockedSenders[k].call && text == blockedSenders[k].text
            else mIn == old(mIn))
    {
      var i := FindSender(who);
      found, text := i < |blockedSenders|, "";
      if found {
        mIn := blockedSenders[i].call;
        text := blockedSenders[i].text;
      }
    }

    method DeleteSender(who: nat) returns (deleted: bool)
      modifies this`blockedSenders
      ensures
        var k := RecordOf(old(blockedSenders), who);
        && (deleted <==> k < |old(blockedSenders)|)
        && blockedSenders == if deleted then Without(old(blockedSenders), k) else old(blockedSenders)
    {
      var i := FindSender(who);
      deleted := i < |blockedSenders|;
      if deleted {
        blockedSenders := blockedSenders[..i] + blockedSenders[i + 1..];
      }
    }

    method UnblockSender(id: int)
      modifies this`blockedSenders
      ensures blockedSenders == Unblock(old(blockedSenders), id)
    {
      ghost var flagged := Unblock(blockedSenders, id);
      var i := 0;
      while i < |blockedSenders|
        invariant i <= |blockedSenders| == |flagged|
        invariant forall k :: 0 <= k < |flagged| ==>
          blockedSenders[k] == if k < i then flagged[k] else old(blockedSenders)[k]
      {
        if blockedSenders[i].mailboxId == id {
          blockedSenders := blockedSenders[i := blockedSenders[i].(unblocked := true)];
        }
        i := i + 1;
      }
    }

    // ---------- system calls ----------

    method DoOpenMailbox(who: nat, name: string, create: bool, write: bool) returns (reply: Reply)
      modifies this`mailboxes, this`lastMailboxId
      ensures OpenBoxes(old(mailboxes), old(lastMailboxId), PidOf(mproc, who), name, create, write)
           == Boxes(mailboxes, lastMailboxId, reply)
    {
      var pid := PidOf(mproc, who);
      if create && |mailboxes| >= MAX_MAILBOX_COUNT {
        return EMailboxFull;
      }
      var i := GetMailboxByName(name);
      if i < |mailboxes| {
        reply := Opened(mailboxes[i].id);
        if write {
          mailboxes := mailboxes[i := mailboxes[i].(senders := mailboxes[i].senders + [pid])];
        } else {
          mailboxes := mailboxes[i := mailboxes[i].(receivers := mailboxes[i].receivers + [pid])];
        }
      } else if create {
        var mailbox := Mailbox(lastMailboxId, name, [pid], [], [], []);
        assert [] + [pid] == [pid];
        if write {
          mailbox := mailbox.(senders := [pid]);
        } else {
          mailbox := mailbox.(receivers := [pid]);
        }
        mailboxes := mailboxes + [mailbox];
        reply := Opened(lastMailboxId);
        lastMailboxId := lastMailboxId + 1;
      } else {
        reply := ENotFound;
      }
    }

    method RemoveProcess(b: nat, pid: int)
      requires b < |mailboxes|
      modifies this`mailboxes
      ensures mailboxes == old(mailboxes)[b := Leave(old(mailboxes)[b], pid)]
    {
      var mailbox := mailboxes[b];
      if mailbox.owner != [] && mailbox.owner[0] == pid {
        mailbox := mailbox.(owner := []);
      }
      var receivers := DeleteProcess(mailbox.receivers, pid);
      var senders := DeleteProcess(mailbox.senders, pid);
      mailboxes := mailboxes[b := mailbox.(receivers := receivers, senders := senders)];
    }

    method UpdateMailbox(b: nat)
      requires b < |mailboxes|
      modifies this`mailboxes
      ensures mailboxes ==
        if old(mailboxes)[b].receivers == [] && old(mailboxes)[b].senders == []
        then Without(old(mailboxes), b) else old(mailboxes)
    {
      if mailboxes[b].receivers == [] && mailboxes[b].senders == [] {
        mailboxes := mailboxes[..b] + mailboxes[b + 1..];
      }
    }

    method DoCloseMailbox(who: nat) returns (reply: Reply)
      modifies this`mailboxes
      ensures CloseBoxes(old(mailboxes), lastMailboxId, PidOf(mproc, who), mIn.mailboxId)
           == Boxes(mailboxes, lastMailboxId, reply)
    {
      var b := GetMailbox(mIn.mailboxId);
      if b == |mailboxes| {
        return ENotFound;
      }
      RemoveProcess(b, PidOf(mproc, who));
      UpdateMailbox(b);
      reply := Ok;
    }

    method DoDepositMessage(who: nat) returns (reply: Reply)
      modifies this
      ensures (Snapshot(), reply) == DepositCall(old(Snapshot()), who)
    {
      var pid := PidOf(mproc, who);
      var mailboxId := mIn.mailboxId;
      var text;
      var blocked := IsSenderBlocked(who);
      if !blocked {
        text := mIn.text;
      } else {
        var _, saved := GetContext(who);
        text := saved;
        var _ := DeleteSender(who);
      }
      var valid := IsValidSender(mailboxId, pid);
      if !valid {
        return EInvalidSender;
      }
      var b := GetMailbox(mailboxId);
      if |mailboxes[b].messages| < MAX_MESSAGE_IN_MAILBOX {
        var receivers := CopyReceivers(mIn.receivers);
        var message := Message(pid, receivers, text);
        mailboxes := mailboxes[b := mailboxes[b].(messages := mailboxes[b].messages + [message])];
        reply := Ok;
      } else {
        SaveContext(mIn, who, text);
        reply := Suspend;
      }
    }

    /** Scans the messages and, in each, its receivers, for the first entry for `pid`. */
    method RetrieveMessage(b: nat, pid: int) returns (reply: Reply)
      requires b < |mailboxes|
      modifies this`mailboxes, this`blockedSenders
      ensures
        var taken := Take(old(mailboxes)[b].messages, pid);
        && reply == taken.reply
        && mailboxes == old(mailboxes)[b := old(mailboxes)[b].(messages := taken.messages)]
        && blockedSenders
           == if taken.removed then Unblock(old(blockedSenders), old(mailboxes)[b].id) else old(blockedSenders)
    {
      hide Take, Unblock;
      var id, messages, i := mailboxes[b].id, mailboxes[b].messages, 0;
      while i < |messages|
        invariant i <= |messages|
        invariant forall k :: 0 <= k < i ==> pid !in messages[k].receivers
      {
        var receivers, j := messages[i].receivers, 0;
        while j < |receivers|
          invariant j <= |receivers|
          invariant forall k :: 0 <= k < j ==> receivers[k] != pid
        {
          if receivers[j] == pid {
            TakeAt(messages, pid, i, j);
            var left := receivers[..j] + receivers[j + 1..];
            reply := Got(messages[i].text);
            if left == [] {
              mailboxes := mailboxes[b := mailboxes[b].(messages := messages[..i] + messages[i + 1..])];
              UnblockSender(id);
            } else {
              mailboxes := mailboxes[b := mailboxes[b].(messages :=
                messages[i := messages[i].(receivers := left)])];
            }
            return;
          }
          j := j + 1;
        }
        i := i + 1;
      }
      TakeNone(messages, pid);
      assert mailboxes[b].(messages := messages) == mailboxes[b];
      reply := Nothing;
    }

    method DoRetrieveMessage(who: nat) returns (reply: Reply)
      modifies this`mailboxes, this`blockedSenders
      ensures (Snapshot(), reply) == RetrieveCall(old(Snapshot()), who)
    {
      var pid := PidOf(mproc, who);
      var b := GetMailbox(mIn.mailboxId);
      if b == |mailboxes| {
        return ENotFound;
      }
      var valid := ValidateReceiver(b, pid);
      if valid {
        reply := RetrieveMessage(b, pid);
      } else {
        reply := EPerm;
      }
    }

    // ---------- the main loop ----------

    method UnblockSystemCalls() returns (answers: seq<Answer>)
      modifies this
      ensures Snapshot() == Replay(old(Snapshot())).0
      ensures answers == ReplayAnswers(old(Snapshot()))
    {
      hide Replay, ReplayAnswers, DepositCall;
      ghost var s := Snapshot();
      var i := 0;
      while i < |blockedSenders| && !blockedSenders[i].unblocked
        invariant i <= |blockedSenders|
        invariant forall j :: 0 <= j < i ==> !blockedSenders[j].unblocked
      {
        i := i + 1;
      }
      ReplayAt(s, i);
      answers := [];
      if i < |blockedSenders| {
        var who := blockedSenders[i].who;
        blockedSenders := blockedSenders[i := blockedSenders[i].(unblocked := false)];
        var reply := DoDepositMessage(who);
        if reply != Suspend {
          answers := [Answer(who, reply)];
        }
      }
    }

    method Dispatch(req: Request) returns (reply: Reply)
      modifies this
      ensures (Snapshot(), reply) == Serve(old(Snapshot()), req)
    {
      mIn := req.call;
      match req.op {
        case Open(name, create, write) => reply := DoOpenMailbox(req.who, name, create, write);
        case Close => reply := DoCloseMailbox(req.who);
        case Deposit => reply := DoDepositMessage(req.who);
        case Retrieve => reply := DoRetrieveMessage(req.who);
      }
    }

    /** The main loop over the requests that arrive: each turn replays one flagged sender if
        there is one, and only otherwise receives. It ends once all are served and drained.
        `answers` are the replies set, those of replays included. */
    method MainLoop(reqs: seq<Request>) returns (replies: seq<Reply>, answers: seq<Answer>)
      modifies this
      ensures Ahead(old(Snapshot()), reqs) == Outcome(Snapshot(), replies, answers)
    {
      hide Serve, Replay, ReplayAnswers, Run, Drain, DrainAnswers, Ahead, After, Quiet, Flags;
      replies, answers := [], [];
      ghost var all := Ahead(Snapshot(), reqs);
      var i := 0;
      var unblocked := IsAnySenderUnblocked();
      AheadStart(Snapshot(), reqs);
      while unblocked || i < |reqs|
        invariant i <= |reqs| && (unblocked <==> !Quiet(Snapshot()))
        invariant all == After(replies, answers, Ahead(Snapshot(), reqs[i..]))
        decreases |reqs| - i, Flags(blockedSenders)
      {
        ghost var s, came, log := Snapshot(), replies, answers;
        if unblocked {
          AheadReplay(s, reqs[i..]);
          var more := UnblockSystemCalls();
          answers := answers + more;
          AfterTwice(came, log, [], more, Ahead(Snapshot(), reqs[i..]));
          assert came + [] == came;
        } else {
          AheadServe(s, reqs, i);
          var reply := Dispatch(reqs[i]);
          replies := replies + [reply];
          answers := answers + Answered(reqs[i].who, reply);
          i := i + 1;
          AfterTwice(came, log, [reply], Answered(reqs[i - 1].who, reply), Ahead(Snapshot(), reqs[i..]));
        }
        unblocked := IsAnySenderUnblocked();
      }
      AheadEnd(Snapshot(), replies, answers, reqs[i..]);
    }
  }
}
