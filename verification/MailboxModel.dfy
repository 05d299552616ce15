/** The mailbox service of the MINIX process manager as a state machine over values.
    Each function here is one system call, or one turn of the main loop, and is what the
    corresponding method of `MailboxServer.ProcessManager` is proved to compute. */
module MailboxModel {

  const MAX_MAILBOX_COUNT: nat := 5
  const MAX_MESSAGE_IN_MAILBOX: nat := 5
  const MAX_NODES: nat := 5

  /** A queued message: `receivers` are those that still have to collect it. */
  datatype Message = Message(sender: int, receivers: seq<int>, text: string)

  datatype Mailbox = Mailbox(
    id: int, name: string, owner: seq<int>,
    senders: seq<int>, receivers: seq<int>, messages: seq<Message>)

  /** The part of the incoming request message `m_in` that the mailbox calls read. */
  datatype Call = Call(mailboxId: int, text: string, receivers: seq<int>)

  /** A suspended deposit: the caller's slot, its text and its saved request. */
  datatype Record = Record(mailboxId: int, who: nat, text: string, call: Call, unblocked: bool)

  datatype State = State(
    procs: seq<int>, boxes: seq<Mailbox>, lastId: int, blocked: seq<Record>, mIn: Call)

  datatype Op =
    | Open(name: string, create: bool, write: bool)
    | Close
    | Deposit
    | Retrieve

  datatype Request = Request(who: nat, call: Call, op: Op)

  datatype Reply =
    | Opened(id: int)
    | Ok
    | Got(text: string)
    | Nothing
    | Suspend
    | EMailboxFull
    | ENotFound
    | EInvalidSender
    | EPerm

  /** A reply set for a process; a suspended call gets none yet. */
  datatype Answer = Answer(who: nat, reply: Reply)

  function Answered(who: nat, reply: Reply): seq<Answer> {
    if reply == Suspend then [] else [Answer(who, reply)]
  }

  // ---------- list helpers ----------

  function PidOf(procs: seq<int>, who: nat): int {
    if who < |procs| then procs[who] else 0
  }

  /** The position of the first element that satisfies `p`, or the length of the list. */
  function First<T>(xs: seq<T>, p: T -> bool): (i: nat)
    ensures i <= |xs|
    ensures i < |xs| ==> p(xs[i])
    ensures forall j :: 0 <= j < i ==> !p(xs[j])
  {
    if xs == [] || p(xs[0]) then 0 else 1 + First(xs[1..], p)
  }

  function BoxAt(boxes: seq<Mailbox>, id: int): (i: nat)
    ensures i <= |boxes|
    ensures i < |boxes| ==> boxes[i].id == id
    ensures forall j :: 0 <= j < i ==> boxes[j].id != id
  {
    First(boxes, (box: Mailbox) => box.id == id)
  }

  function NameAt(boxes: seq<Mailbox>, name: string): (i: nat)
    ensures i <= |boxes|
    ensures i < |boxes| ==> boxes[i].name == name
    ensures forall j :: 0 <= j < i ==> boxes[j].name != name
  {
    First(boxes, (box: Mailbox) => box.name == name)
  }

  function RecordOf(blocked: seq<Record>, who: nat): (i: nat)
    ensures i <= |blocked|
    ensures i < |blocked| ==> blocked[i].who == who
    ensures forall j :: 0 <= j < i ==> blocked[j].who != who
  {
    First(blocked, (r: Record) => r.who == who)
  }

  function FirstUnblocked(blocked: seq<Record>): (i: nat)
    ensures i <= |blocked|
    ensures i < |blocked| ==> blocked[i].unblocked
    ensures forall j :: 0 <= j < i ==> !blocked[j].unblocked
  {
    First(blocked, (r: Record) => r.unblocked)
  }

  function FirstFor(messages: seq<Message>, pid: int): (i: nat)
    ensures i <= |messages|
    ensures i < |messages| ==> pid in messages[i].receivers
    ensures forall j :: 0 <= j < i ==> pid !in messages[j].receivers
  {
    First(messages, (m: Message) => pid in m.receivers)
  }

  function IndexOf(xs: seq<int>, x: int): (i: nat)
    ensures i <= |xs|
    ensures i < |xs| ==> xs[i] == x
    ensures forall j :: 0 <= j < i ==> xs[j] != x
  {
    First(xs, y => y == x)
  }

  function Without<T>(xs: seq<T>, i: nat): seq<T>
    requires i < |xs|
  {
    xs[..i] + xs[i + 1..]
  }

  function RemoveFirst(xs: seq<int>, x: int): seq<int> {
    var i := IndexOf(xs, x);
    if i < |xs| then Without(xs, i) else xs
  }

  /** The receivers a deposit names: at most `n` entries, cut at the first non-positive one. */
  function Listed(receivers: seq<int>, n: nat := MAX_NODES): (r: seq<int>)
    ensures |r| <= n && r <= receivers
    ensures forall i :: 0 <= i < |r| ==> r[i] > 0
    ensures |r| < n && |r| < |receivers| ==> receivers[|r|] <= 0
  {
    if n == 0 || receivers == [] || receivers[0] <= 0 then []
    else [receivers[0]] + Listed(receivers[1..], n - 1)
  }

  // ---------- opening and closing ----------

  datatype Boxes = Boxes(boxes: seq<Mailbox>, lastId: int, reply: Reply)

  function Admit(box: Mailbox, pid: int, write: bool): Mailbox {
    if write then box.(senders := box.senders + [pid])
    else box.(receivers := box.receivers + [pid])
  }

  function OpenBoxes(boxes: seq<Mailbox>, lastId: int, pid: int,
                     name: string, create: bool, write: bool): Boxes
  {
    var i := NameAt(boxes, name);
    if create && |boxes| >= MAX_MAILBOX_COUNT then Boxes(boxes, lastId, EMailboxFull)
    else if i < |boxes| then
      Boxes(boxes[i := Admit(boxes[i], pid, write)], lastId, Opened(boxes[i].id))
    else if create then
      var created := Admit(Mailbox(lastId, name, [pid], [], [], []), pid, write);
      Boxes(boxes + [created], lastId + 1, Opened(lastId))
    else Boxes(boxes, lastId, ENotFound)
  }

  function Leave(box: Mailbox, pid: int): Mailbox {
    box.(owner := if box.owner != [] && box.owner[0] == pid then [] else box.owner,
         receivers := RemoveFirst(box.receivers, pid),
         senders := RemoveFirst(box.senders, pid))
  }

  function CloseBoxes(boxes: seq<Mailbox>, lastId: int, pid: int, id: int): Boxes {
    var i := BoxAt(boxes, id);
    if i == |boxes| then Boxes(boxes, lastId, ENotFound)
    else
      var left := Leave(boxes[i], pid);
      if left.receivers == [] && left.senders == [] then Boxes(Without(boxes, i), lastId, Ok)
      else Boxes(boxes[i := left], lastId, Ok)
  }

  // ---------- depositing and retrieving ----------

  function AddMessage(box: Mailbox, m: Message): Mailbox {
    box.(messages := box.messages + [m])
  }

  /** One deposit call made on behalf of `who`. The mailbox id is read from `mIn` before a
      suspended caller's saved request is restored into it. */
  function DepositCall(s: State, who: nat): (State, Reply) {
    var id := s.mIn.mailboxId;
    var k := RecordOf(s.blocked, who);
    var resumed := k < |s.blocked|;
    var text := if resumed then s.blocked[k].text else s.mIn.text;
    var t := if resumed then s.(mIn := s.blocked[k].call, blocked := Without(s.blocked, k)) else s;
    var pid := PidOf(t.procs, who);
    var b := BoxAt(t.boxes, id);
    if b == |t.boxes| || pid !in t.boxes[b].senders then (t, EInvalidSender)
    else if |t.boxes[b].messages| < MAX_MESSAGE_IN_MAILBOX then
      var m := Message(pid, Listed(t.mIn.receivers), text);
      (t.(boxes := t.boxes[b := AddMessage(t.boxes[b], m)]), Ok)
    else
      (t.(blocked := t.blocked + [Record(t.mIn.mailboxId, who, text, t.mIn, false)]), Suspend)
  }

  datatype Taken = Taken(messages: seq<Message>, reply: Reply, removed: bool)

  /** Takes the first message that lists `pid`; the message goes once nobody is left on it. */
  function Take(messages: seq<Message>, pid: int): Taken {
    var i := FirstFor(messages, pid);
    if i == |messages| then Taken(messages, Nothing, false)
    else
      var rest := RemoveFirst(messages[i].receivers, pid);
      if rest == [] then Taken(Without(messages, i), Got(messages[i].text), true)
      else Taken(messages[i := messages[i].(receivers := rest)], Got(messages[i].text), false)
  }

  function Unblock(blocked: seq<Record>, id: int): (r: seq<Record>)
    ensures |r| == |blocked|
    ensures forall i :: 0 <= i < |r| ==>
      r[i] == if blocked[i].mailboxId == id then blocked[i].(unblocked := true) else blocked[i]
  {
    seq(|blocked|, i requires 0 <= i < |blocked| =>
      if blocked[i].mailboxId == id then blocked[i].(unblocked := true) else blocked[i])
  }

  function RetrieveCall(s: State, who: nat): (State, Reply) {
    var pid := PidOf(s.procs, who);
    var b := BoxAt(s.boxes, s.mIn.mailboxId);
    if b == |s.boxes| then (s, ENotFound)
    else if pid !in s.boxes[b].receivers then (s, EPerm)
    else
      var taken := Take(s.boxes[b].messages, pid);
      (s.(boxes := s.boxes[b := s.boxes[b].(messages := taken.messages)],
          blocked := if taken.removed then Unblock(s.blocked, s.boxes[b].id) else s.blocked),
       taken.reply)
  }

  // ---------- the main loop ----------

  /** Receiving one request and dispatching it. */
  function Serve(s: State, req: Request): (State, Reply) {
    var t := s.(mIn := req.call);
    var pid := PidOf(s.procs, req.who);
    match req.op
    case Open(name, create, write) =>
      var o := OpenBoxes(t.boxes, t.lastId, pid, name, create, write);
      (t.(boxes := o.boxes, lastId := o.lastId), o.reply)
    case Close =>
      var o := CloseBoxes(t.boxes, t.lastId, pid, req.call.mailboxId);
      (t.(boxes := o.boxes, lastId := o.lastId), o.reply)
    case Deposit => DepositCall(t, req.who)
    case Retrieve => RetrieveCall(t, req.who)
  }

  function Flags(blocked: seq<Record>): nat {
    if blocked == [] then 0 else (if blocked[0].unblocked then 1 else 0) + Flags(blocked[1..])
  }

  /** Nobody is waiting to be replayed, so the main loop would receive next. */
  predicate Quiet(s: State) {
    forall i :: 0 <= i < |s.blocked| ==> !s.blocked[i].unblocked
  }

  /** One replay turn of the main loop: the first flagged record loses its flag and its
      deposit is called again. */
  function Replay(s: State): (State, Reply) {
    var k := FirstUnblocked(s.blocked);
    if k == |s.blocked| then (s, Nothing)
    else
      DepositCall(s.(blocked := s.blocked[k := s.blocked[k].(unblocked := false)]), s.blocked[k].who)
  }

  function ReplayAnswers(s: State): seq<Answer> {
    var k := FirstUnblocked(s.blocked);
    if k == |s.blocked| then [] else Answered(s.blocked[k].who, Replay(s).1)
  }

  lemma {:induction false} FlagsConcat(a: seq<Record>, b: seq<Record>)
    ensures Flags(a + b) == Flags(a) + Flags(b)
  {
    if a == [] {
      assert a + b == b;
    } else {
      assert (a + b)[1..] == a[1..] + b;
      FlagsConcat(a[1..], b);
    }
  }

  lemma FlagsSplit(rs: seq<Record>, k: nat)
    requires k < |rs|
    ensures Flags(rs) == Flags(rs[..k]) + (if rs[k].unblocked then 1 else 0) + Flags(rs[k + 1..])
    ensures Flags(Without(rs, k)) == Flags(rs[..k]) + Flags(rs[k + 1..])
  {
    assert rs == rs[..k] + rs[k..] && rs[k..] == [rs[k]] + rs[k + 1..];
    FlagsConcat(rs[..k], rs[k..]);
    FlagsConcat(rs[..k], rs[k + 1..]);
  }

  lemma {:induction false} QuietIffNoFlags(rs: seq<Record>)
    ensures Flags(rs) == 0 <==> FirstUnblocked(rs) == |rs|
    ensures Flags(rs) == 0 <==> forall i :: 0 <= i < |rs| ==> !rs[i].unblocked
  {
    if rs != [] {
      QuietIffNoFlags(rs[1..]);
      var k := FirstUnblocked(rs[1..]);
      assert forall i :: 0 < i < |rs| ==> rs[i] == rs[1..][i - 1];
    }
  }

  /** A deposit call never adds a flag, whatever its outcome. */
  lemma DepositAddsNoFlag(s: State, who: nat)
    ensures Flags(DepositCall(s, who).0.blocked) <= Flags(s.blocked)
  {
    var k := RecordOf(s.blocked, who);
    if k < |s.blocked| {
      FlagsSplit(s.blocked, k);
    }
    var t := if k < |s.blocked| then Without(s.blocked, k) else s.blocked;
    var r := DepositCall(s, who).0.blocked;
    if r != t {
      FlagsConcat(t, r[|t|..]);
    }
  }

  /** Every replay turn strictly lowers the number of flagged records, in any state at all. */
  lemma ReplayLowersFlags(s: State)
    requires !Quiet(s)
    ensures Flags(Replay(s).0.blocked) < Flags(s.blocked)
  {
    QuietIffNoFlags(s.blocked);
    var k := FirstUnblocked(s.blocked);
    var cleared := s.blocked[k := s.blocked[k].(unblocked := false)];
    FlagsSplit(s.blocked, k);
    FlagsSplit(cleared, k);
    assert cleared[..k] == s.blocked[..k] && cleared[k + 1..] == s.blocked[k + 1..];
    DepositAddsNoFlag(s.(blocked := cleared), s.blocked[k].who);
  }

  /** Replaying until the main loop would receive again. */
  function Drain(s: State): (r: State)
    ensures Quiet(r)
    decreases Flags(s.blocked)
  {
    if Quiet(s) then s else
      ReplayLowersFlags(s);
      Drain(Replay(s).0)
  }

  /** The answers that the replays of a drain set, in order. */
  function DrainAnswers(s: State): seq<Answer>
    decreases Flags(s.blocked)
  {
    if Quiet(s) then [] else
      ReplayLowersFlags(s);
      ReplayAnswers(s) + DrainAnswers(Replay(s).0)
  }

  function Handle(s: State, req: Request): (State, Reply) {
    var (t, reply) := Serve(s, req);
    (Drain(t), reply)
  }

  function HandleAnswers(s: State, req: Request): seq<Answer> {
    var (t, reply) := Serve(s, req);
    Answered(req.who, reply) + DrainAnswers(t)
  }

  /** What each request returned at once, and all answers in the order in which they were set. */
  datatype Outcome = Outcome(state: State, replies: seq<Reply>, answers: seq<Answer>)

  /** The service handling a whole list of requests. */
  function Run(s: State, reqs: seq<Request>): (o: Outcome)
    ensures |o.replies| == |reqs|
    decreases |reqs|
  {
    if reqs == [] then Outcome(s, [], [])
    else
      var (t, reply) := Handle(s, reqs[0]);
      var rest := Run(t, reqs[1..]);
      Outcome(rest.state, [reply] + rest.replies, HandleAnswers(s, reqs[0]) + rest.answers)
  }

  // ---------- what callers can do ----------

  /** The kernel delivers requests only from existing processes that are not suspended. */
  predicate CanCall(s: State, who: nat) {
    who < |s.procs| && RecordOf(s.blocked, who) == |s.blocked|
  }

  predicate Legal(s: State, reqs: seq<Request>)
    decreases |reqs|
  {
    reqs == [] || (CanCall(s, reqs[0].who) && Legal(Handle(s, reqs[0]).0, reqs[1..]))
  }
}
