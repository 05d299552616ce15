/** Every call of the mailbox service is answered exactly once, a suspended one by its replay. */
module MailboxAnswers {
  import opened MailboxModel
  import opened MailboxInvariant

  function AnswerTo(answer: Answer, who: nat): seq<Reply> {
    if answer.who == who then [answer.reply] else []
  }

  /** The answers set for one process, in order. */
  function AnswersTo(answers: seq<Answer>, who: nat): seq<Reply> {
    if answers == [] then [] else AnswerTo(answers[0], who) + AnswersTo(answers[1..], who)
  }

  /** What a process is to be told of one request: its reply, and `Ok` for a suspended one. */
  function DueFor(req: Request, reply: Reply, who: nat): seq<Reply> {
    if req.who != who then [] else if reply == Suspend then [Ok] else [reply]
  }

  function Due(reqs: seq<Request>, replies: seq<Reply>, who: nat): seq<Reply>
    requires |replies| == |reqs|
    decreases |reqs|
  {
    if reqs == [] then []
    else DueFor(reqs[0], replies[0], who) + Due(reqs[1..], replies[1..], who)
  }

  /** What a process still waits for: `Ok`, while its deposit is suspended. */
  function Awaited(s: State, who: nat): seq<Reply> {
    if RecordOf(s.blocked, who) < |s.blocked| then [Ok] else []
  }

  lemma {:induction false} AnswersConcat(a: seq<Answer>, b: seq<Answer>, who: nat)
    ensures AnswersTo(a + b, who) == AnswersTo(a, who) + AnswersTo(b, who)
  {
    hide AnswerTo;
    if a == [] {
      assert a + b == b;
    } else {
      assert (a + b)[1..] == a[1..] + b;
      AnswersConcat(a[1..], b, who);
    }
  }

  predicate Waits(blocked: seq<Record>, who: nat) {
    exists r :: r in blocked && r.who == who
  }

  lemma AwaitedIff(s: State, who: nat)
    ensures Awaited(s, who) == if Waits(s.blocked, who) then [Ok] else []
  {
    var k := RecordOf(s.blocked, who);
    assert k < |s.blocked| ==> s.blocked[k] in s.blocked;
  }

  /** A deposit call suspends its own process or nobody. */
  lemma DepositAwaited(s: State, who: nat, p: nat)
    requires CanCall(s, who)
    ensures
      var (t, reply) := DepositCall(s, who);
      Awaited(t, p) == if p == who && reply == Suspend then [Ok] else Awaited(s, p)
  {
    hide RecordOf, BoxAt, Listed;
    var (t, reply) := DepositCall(s, who);
    AwaitedIff(s, p);
    AwaitedIff(t, p);
    if reply == Suspend {
      var r := t.blocked[|s.blocked|];
      assert t.blocked == s.blocked + [r] && r.who == who;
      assert forall x :: x in t.blocked <==> x in s.blocked || x == r;
    }
  }

  /** A retrieval only flags records, and is answered at once. */
  lemma RetrieveAwaited(s: State, who: nat, p: nat)
    ensures
      var (t, reply) := RetrieveCall(s, who);
      reply != Suspend && Awaited(t, p) == Awaited(s, p)
  {
    hide RecordOf, BoxAt, FirstFor;
    var t := RetrieveCall(s, who).0;
    assert |t.blocked| == |s.blocked| && forall i :: 0 <= i < |t.blocked| ==> t.blocked[i].who == s.blocked[i].who;
    SameWho(s.blocked, t.blocked, p);
    AwaitedIff(s, p);
    AwaitedIff(t, p);
  }

  lemma SameWho(a: seq<Record>, b: seq<Record>, who: nat)
    requires |a| == |b| && forall i :: 0 <= i < |a| ==> a[i].who == b[i].who
    ensures Waits(a, who) <==> Waits(b, who)
  {
    if r :| r in a && r.who == who {
      var i :| 0 <= i < |a| && a[i] == r;
      assert b[i] in b;
    }
    if r :| r in b && r.who == who {
      var i :| 0 <= i < |b| && b[i] == r;
      assert a[i] in a;
    }
  }

  /** Serving a request either answers it or leaves its caller waiting. */
  lemma ServeAwaited(s: State, req: Request, p: nat)
    requires CanCall(s, req.who)
    ensures
      var (t, reply) := Serve(s, req);
      Awaited(s, p) + DueFor(req, reply, p) == AnswersTo(Answered(req.who, reply), p) + Awaited(t, p)
  {
    hide RecordOf, BoxAt, NameAt, DepositCall, RetrieveCall;
    var u := s.(mIn := req.call);
    match req.op
    case Open(_, _, _) =>
    case Close =>
    case Deposit => DepositAwaited(u, req.who, p);
    case Retrieve => RetrieveAwaited(u, req.who, p);
  }

  lemma ResumedAwaited(s: State, k: nat, p: nat)
    requires Inv(s) && k < |s.blocked|
    ensures Awaited(Resumed(s, k), p) == if p == s.blocked[k].who then [] else Awaited(s, p)
  {
    hide RecordOf, RecordOk;
    var t := Resumed(s, k);
    AwaitedIff(s, p);
    AwaitedIff(t, p);
    if p == s.blocked[k].who {
      assert forall i :: 0 <= i < |t.blocked| ==> t.blocked[i] == s.blocked[if i < k then i else i + 1];
    } else {
      assert s.blocked == s.blocked[..k] + [s.blocked[k]] + s.blocked[k + 1..];
      assert forall r :: r in s.blocked <==> r in t.blocked || r == s.blocked[k];
    }
  }

  /** A replay that sets an answer ends the wait of that process, with `Ok`; one that does not
      leaves it waiting. */
  lemma ReplayAwaited(s: State, p: nat)
    requires Inv(s) && !Quiet(s)
    ensures Awaited(s, p) == AnswersTo(ReplayAnswers(s), p) + Awaited(Replay(s).0, p)
  {
    hide RecordOf, FirstUnblocked, Replay, DepositCall, RecordOk, Resumed;
    ReplayIsFreshDeposit(s);
    ReplayKeepsInv(s);
    var k := FirstUnblocked(s.blocked);
    var who := s.blocked[k].who;
    ResumedKeepsInv(s, k);
    ResumedAwaited(s, k, p);
    DepositAwaited(Resumed(s, k), who, p);
    AwaitedIff(s, p);
    assert s.blocked[k] in s.blocked;
  }

  lemma {:induction false} DrainAwaited(s: State, p: nat)
    requires Inv(s)
    ensures Awaited(s, p) == AnswersTo(DrainAnswers(s), p) + Awaited(Drain(s), p)
    decreases Flags(s.blocked)
  {
    hide Awaited, ReplayAnswers, Replay, Inv, Quiet;
    if !Quiet(s) {
      var t := Replay(s).0;
      ReplayLowersFlags(s);
      ReplayKeepsInv(s);
      ReplayAwaited(s, p);
      DrainAwaited(t, p);
      AnswersConcat(ReplayAnswers(s), DrainAnswers(t), p);
    }
  }

  lemma HandleAwaited(s: State, req: Request, p: nat)
    requires Ready(s) && CanCall(s, req.who)
    ensures
      var (t, reply) := Handle(s, req);
      Awaited(s, p) + DueFor(req, reply, p) == AnswersTo(HandleAnswers(s, req), p) + Awaited(t, p)
  {
    hide Awaited, Serve, Drain, DrainAnswers, Inv, Answered, DueFor, AnswersTo;
    var (t, reply) := Serve(s, req);
    ServeAwaited(s, req, p);
    ServeKeepsInv(s, req);
    DrainAwaited(t, p);
    AnswersConcat(Answered(req.who, reply), DrainAnswers(t), p);
  }

  lemma Chain(a: seq<Reply>, d1: seq<Reply>, g1: seq<Reply>, b: seq<Reply>,
              d2: seq<Reply>, g2: seq<Reply>, c: seq<Reply>)
    requires a + d1 == g1 + b && b + d2 == g2 + c
    ensures a + (d1 + d2) == (g1 + g2) + c
  {
    assert a + (d1 + d2) == (a + d1) + d2 == g1 + (b + d2);
  }

  /** Over every legal run and for every process: what it waited for, followed by what is due
      for its requests, is exactly the answers set for it, in order, followed by what it still
      waits for. */
  lemma {:induction false} AnsweredOnce(s: State, reqs: seq<Request>, p: nat)
    requires Ready(s) && Legal(s, reqs)
    ensures
      var o := Run(s, reqs);
      Awaited(s, p) + Due(reqs, o.replies, p) == AnswersTo(o.answers, p) + Awaited(o.state, p)
    decreases |reqs|
  {
    var o := Run(s, reqs);
    if reqs != [] {
      var (t, reply) := Handle(s, reqs[0]);
      var rest := Run(t, reqs[1..]);
      assert o.answers == HandleAnswers(s, reqs[0]) + rest.answers;
      assert o.replies[0] == reply && o.replies[1..] == rest.replies;
      hide Awaited, Handle, HandleAnswers, Inv, Run, DueFor, AnswersTo;
      HandleKeepsReady(s, reqs[0]);
      HandleAwaited(s, reqs[0], p);
      AnsweredOnce(t, reqs[1..], p);
      AnswersConcat(HandleAnswers(s, reqs[0]), rest.answers, p);
      Chain(Awaited(s, p), DueFor(reqs[0], reply, p), AnswersTo(HandleAnswers(s, reqs[0]), p),
            Awaited(t, p), Due(reqs[1..], rest.replies, p), AnswersTo(rest.answers, p),
            Awaited(o.state, p));
    }
  }

  /** From start-up every call of a process has been answered exactly once, in order, a
      suspended deposit with `Ok`; only the last one may still be waiting, and it is a deposit. */
  lemma AnsweredFromStart(procs: seq<int>, mIn: Call, reqs: seq<Request>, p: nat)
    requires Distinct(procs) && Legal(Start(procs, mIn), reqs)
    ensures
      var o := Run(Start(procs, mIn), reqs);
      Due(reqs, o.replies, p) == AnswersTo(o.answers, p) + Awaited(o.state, p)
  {
    AnsweredOnce(Start(procs, mIn), reqs, p);
  }
}
