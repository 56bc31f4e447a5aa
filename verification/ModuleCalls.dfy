/** A whole call, from the caller's bytes to the caller's reply: the request goes out in fragments and becomes a
    job, the handler's result is taken off the channel and answered in fragments, and the waiting caller puts them
    together. Everything else on the bus and in the loop goes on meanwhile. */
module ModuleCalls {
  import opened Wire
  import opened BusClient
  import opened ModuleFragments
  import opened ModuleRuntime

  // ---- the request ----

  /** The server before the last fragment: the other fragments arrived, the first one at `first`. */
  function BeforeLast(s: Server, cfg: Config, es: seq<Event>, first: nat, schedule: seq<Happening>): Server
    requires |es| > 0
  {
    if |es| == 1 then s else Run(Step(s, cfg, Arrive(es[0], first)), cfg, schedule)
  }

  lemma RequestArrives(s: Server, cfg: Config, call: Call, body: seq<byte>, budget: nat, first: nat,
                       schedule: seq<Happening>, now: nat)
    requires Inv(s) && Served(call, cfg) && budget > MODULE_HEADER && |body| <= MAX_BODY
    requires call.correlation !in s.assemblies && call.correlation !in s.jobs && |s.assemblies| < MAX_IN_FLIGHT
    requires var es := Wired(call, Parts(body, budget - MODULE_HEADER));
             && (|es| >= 2 ==> Own(schedule, call.correlation) == es[1..|es| - 1])
             && |BeforeLast(s, cfg, es, first, schedule).jobs| < MAX_IN_FLIGHT
    requires !Expired(call.m.deadline, now) && cfg.hasHandler
    ensures var es := Wired(call, Parts(body, budget - MODULE_HEADER));
            var u := Step(BeforeLast(s, cfg, es, first, schedule), cfg, Arrive(es[|es| - 1], now));
            && Inv(u) && call.correlation in u.jobs && call.correlation in u.running
            && u.jobs[call.correlation] == WorkFor(call, body)
  {
    var ps := Parts(body, budget - MODULE_HEADER);
    var es := Wired(call, ps);
    var t := BeforeLast(s, cfg, es, first, schedule);
    OnePart(body, budget - MODULE_HEADER);
    hide Inv, Step, Run, Served, WorkFor, Wired, Parts, Own;
    if |body| <= budget - MODULE_HEADER {
      ShortRequest(s, cfg, call, body, budget, now);
    } else {
      RequestRoundTrip(s, cfg, call, body, budget, first, schedule, now);
      StepInv(s, cfg, Arrive(es[0], first));
      RunInv(Step(s, cfg, Arrive(es[0], first)), cfg, schedule);
    }
    StepInv(t, cfg, Arrive(es[|es| - 1], now));
  }

  lemma OnePart(body: seq<byte>, chunk: nat)
    requires chunk > 0
    ensures |Parts(body, chunk)| >= 2 <==> |body| > chunk
  {
  }

  // ---- the job ----

  /** Whoever handles c returns this response, and in time. */
  predicate Returns(schedule: seq<Happening>, c: nat, deadline: nat, response: seq<byte>) {
    forall a <- schedule :: a.Return? && a.correlation == c ==>
      a.response == response && a.status == STATUS_OK && !(deadline != 0 && a.now != 0 && a.now >= deadline)
  }

  /** The job is still there: a handler has it, or its result waits in the channel. */
  ghost predicate Serving(s: Server, c: nat, w: Work, response: seq<byte>) {
    && c in s.jobs && s.jobs[c] == w && !w.cancelled
    && forall r <- s.done :: r.correlation == c ==> r == Finished(c, response, STATUS_OK)
  }

  /** It was answered, at or behind position k of the answers. */
  ghost predicate WasAnswered(s: Server, k: nat, a: Answer) {
    exists i | k <= i < |s.ledger.answered| :: s.ledger.answered[i] == a
  }

  function AnswerTo(c: nat, w: Work, response: seq<byte>): Answer {
    Answer(w.kind, c, w.stage, w.trace, STATUS_OK, response)
  }

  lemma AnsweredStays(s: Server, cfg: Config, a: Happening, k: nat, answer: Answer)
    requires WasAnswered(s, k, answer)
    ensures WasAnswered(Step(s, cfg, a), k, answer)
  {
    AnswersGrow(s, cfg, a);
    hide Step;
    var i :| k <= i < |s.ledger.answered| && s.ledger.answered[i] == answer;
    assert Step(s, cfg, a).ledger.answered[i] == answer;
  }

  lemma AnswersGrow(s: Server, cfg: Config, a: Happening)
    ensures s.ledger.answered <= Step(s, cfg, a).ledger.answered
  {
    hide Acceptable, DecodeMessage, AnswerOf, Verdict, Expired;
  }

  /** What happens to others leaves the job alone. */
  lemma ArrivalKeeps(s: Server, cfg: Config, e: Event, now: nat, c: nat, w: Work, response: seq<byte>)
    requires Serving(s, c, w, response) && e.frame.correlation != c
    ensures var t := Step(s, cfg, Arrive(e, now));
            Serving(t, c, w, response) && (c in s.running ==> c in t.running)
  {
    hide Acceptable, DecodeMessage, AnswerOf, Expired;
  }

  lemma ReturnKeeps(s: Server, cfg: Config, a: Happening, c: nat, w: Work, response: seq<byte>)
    requires Serving(s, c, w, response) && a.Return? && |response| <= MAX_BODY && Returns([a], c, w.deadline, response)
    ensures Serving(Step(s, cfg, a), c, w, response)
  {
    assert a in [a];
    var t := Step(s, cfg, a);
    forall r <- t.done | r.correlation == c ensures r == Finished(c, response, STATUS_OK) {
      if r !in s.done {
        assert r == Verdict(s.jobs[a.correlation], a.correlation, a.response, a.status, a.now);
      }
    }
  }

  lemma CollectAnswers(s: Server, cfg: Config, c: nat, w: Work, response: seq<byte>, k: nat)
    requires Serving(s, c, w, response) && |response| <= MAX_BODY && k <= |s.ledger.answered|
    ensures var t := Step(s, cfg, Collect);
            Serving(t, c, w, response) || (c !in t.jobs && WasAnswered(t, k, AnswerTo(c, w, response)))
  {
    var t := Step(s, cfg, Collect);
    if s.done != [] && s.done[0].correlation == c {
      assert s.done[0] in s.done;
      assert t.ledger.answered[|s.ledger.answered|] == AnswerTo(c, w, response);
    } else {
      assert forall r <- t.done :: r in s.done;
    }
  }

  /** Nobody starts a job for c unless a frame of c arrives. */
  lemma StaysGone(s: Server, cfg: Config, a: Happening, c: nat)
    requires c !in s.jobs && (a.Arrive? ==> a.event.frame.correlation != c)
    ensures c !in Step(s, cfg, a).jobs
  {
    hide Acceptable, DecodeMessage, AnswerOf, Verdict, Expired;
  }

  lemma {:induction false} Stays(s: Server, cfg: Config, c: nat, schedule: seq<Happening>, k: nat, answer: Answer)
    requires c !in s.jobs && Own(schedule, c) == [] && WasAnswered(s, k, answer)
    ensures c !in Run(s, cfg, schedule).jobs && WasAnswered(Run(s, cfg, schedule), k, answer)
    decreases |schedule|
  {
    hide Step, WasAnswered;
    if schedule != [] {
      StaysGone(s, cfg, schedule[0], c);
      AnsweredStays(s, cfg, schedule[0], k, answer);
      Stays(Step(s, cfg, schedule[0]), cfg, c, schedule[1..], k, answer);
    }
  }

  /** While no frame of its correlation arrives a job is served or, once and with the handler's bytes, answered. */
  lemma {:induction false} JobIsAnswered(s: Server, cfg: Config, c: nat, w: Work, response: seq<byte>,
                                         schedule: seq<Happening>, k: nat)
    requires Serving(s, c, w, response) && Own(schedule, c) == [] && Returns(schedule, c, w.deadline, response)
    requires |response| <= MAX_BODY && k <= |s.ledger.answered|
    ensures var t := Run(s, cfg, schedule);
            Serving(t, c, w, response) || (c !in t.jobs && WasAnswered(t, k, AnswerTo(c, w, response)))
    decreases |schedule|
  {
    hide Step, Serving, WasAnswered, AnswerTo;
    if schedule != [] {
      var a := schedule[0];
      var t := Step(s, cfg, a);
      assert a in schedule && forall b | b in schedule[1..] :: b in schedule;
      AnswersGrow(s, cfg, a);
      match a {
        case Arrive(e, now) => ArrivalKeeps(s, cfg, e, now, c, w, response);
        case Return(_, _, _, _) => ReturnKeeps(s, cfg, a, c, w, response);
        case Collect => CollectAnswers(s, cfg, c, w, response, k);
      }
      if Serving(t, c, w, response) {
        JobIsAnswered(t, cfg, c, w, response, schedule[1..], k);
      } else {
        Stays(t, cfg, c, schedule[1..], k, AnswerTo(c, w, response));
      }
    }
  }

  // ---- the reply ----

  /** The fragments replyModuleResult sends for an answer share this. */
  function ReplyCall(a: Answer, handle: nat): Call {
    Call(F_REPLY, a.kind, a.correlation, handle, Message(OP_RESULT, a.status, a.stage, 0, 0, 0, a.trace))
  }

  /** The figures of a reply come from the request, so they fit as well. */
  lemma ReplyIsResult(call: Call, response: seq<byte>, handle: nat)
    requires call.Good() && call.kind != KIND_ABSENT && call.kind != KIND_ERROR
    ensures Result(ReplyCall(AnswerTo(call.correlation, WorkFor(call, []), response), handle))
  {
    var m := call.m.(bodyLen := 0);
    var n := Message(OP_RESULT, STATUS_OK, call.m.stage, 0, 0, 0, call.m.trace);
    ReplyFits(m, n);
  }

  lemma ReplyFits(m: Message, n: Message)
    requires MessageFits(m) && n.stage == m.stage && n.trace == m.trace
    requires n.operation == OP_RESULT && n.status == STATUS_OK && n.flags == n.bodyLen == n.deadline == 0
    ensures MessageFits(n)
  {
    Powers();
    var a, b := MessageWords(m), MessageWords(n);
    assert forall i | 0 <= i < |a| && i != 3 && i != 4 && i != 6 && i != 7 && i != 8 :: a[i] == b[i];
  }

  /** Call round trip. Whatever else happens, a request that finds room, a handler and time, and is not cancelled,
      reaches the handler as exactly the bytes sent; once its job is gone it was answered with exactly what the
      handler returned; and whoever waits for the reply gets exactly those bytes, however the reply's fragments
      are mixed with other traffic. */
  lemma CallRoundTrip(s: Server, cfg: Config, call: Call, request: seq<byte>, budget: nat, first: nat,
                      schedule: seq<Happening>, now: nat, later: seq<Happening>, response: seq<byte>,
                      replyBudget: nat, handle: nat, limit: nat, looks: seq<Look>)
    requires Inv(s) && Served(call, cfg) && budget > MODULE_HEADER && |request| <= MAX_BODY
    requires call.correlation !in s.assemblies && call.correlation !in s.jobs && |s.assemblies| < MAX_IN_FLIGHT
    requires var es := Wired(call, Parts(request, budget - MODULE_HEADER));
             && (|es| >= 2 ==> Own(schedule, call.correlation) == es[1..|es| - 1])
             && |BeforeLast(s, cfg, es, first, schedule).jobs| < MAX_IN_FLIGHT
    requires !Expired(call.m.deadline, now) && cfg.hasHandler
    requires Own(later, call.correlation) == [] && Returns(later, call.correlation, call.m.deadline, response)
    requires |response| <= MAX_BODY && |response| <= limit && replyBudget > MODULE_HEADER
    requires call.kind != KIND_ABSENT && call.kind != KIND_ERROR
    ensures var es := Wired(call, Parts(request, budget - MODULE_HEADER));
            var u := Step(BeforeLast(s, cfg, es, first, schedule), cfg, Arrive(es[|es| - 1], now));
            var v := Run(u, cfg, later);
            var answer := AnswerTo(call.correlation, WorkFor(call, request), response);
            && call.correlation in u.jobs && u.jobs[call.correlation].body == request
            && (call.correlation !in v.jobs ==> WasAnswered(v, |u.ledger.answered|, answer))
            && (Patient(looks) && Of(Polled(looks), call.correlation)
                                  == Wired(ReplyCall(answer, handle), Parts(answer.body, replyBudget - MODULE_HEADER)) ==>
                  Await(Waiting([]), call.kind, call.correlation, limit, looks) == Got(response))
  {
    var c := call.correlation;
    var es := Wired(call, Parts(request, budget - MODULE_HEADER));
    RequestArrives(s, cfg, call, request, budget, first, schedule, now);
    hide Step, Run, Inv, Served, WasAnswered, BeforeLast, Parts, Wired, Own, Of, Polled, Patient, Await, Returns, Expired,
         AnswerTo, ReplyCall;
    var u := Step(BeforeLast(s, cfg, es, first, schedule), cfg, Arrive(es[|es| - 1], now));
    StartedIsAnswered(u, cfg, call, request, response, later);
    ServedIsGood(call, cfg);
    ReplyComesBack(call, request, response, replyBudget, handle, limit, looks);
  }

  lemma ServedIsGood(call: Call, cfg: Config)
    requires Served(call, cfg)
    ensures call.Good()
  {
  }

  /** The server's side of it. */
  lemma StartedIsAnswered(u: Server, cfg: Config, call: Call, request: seq<byte>, response: seq<byte>, later: seq<Happening>)
    requires Inv(u) && call.correlation in u.jobs && call.correlation in u.running
    requires u.jobs[call.correlation] == WorkFor(call, request) && |response| <= MAX_BODY
    requires Own(later, call.correlation) == [] && Returns(later, call.correlation, call.m.deadline, response)
    ensures u.jobs[call.correlation].body == request
    ensures call.correlation !in Run(u, cfg, later).jobs ==>
              WasAnswered(Run(u, cfg, later), |u.ledger.answered|, AnswerTo(call.correlation, WorkFor(call, request), response))
  {
    var w := WorkFor(call, request);
    NewJobServes(u, call.correlation, response, call, request);
    ServingIsJob(Run(u, cfg, later), call.correlation, w, response);
    hide Run, Inv, Serving, WasAnswered, Own, Returns, AnswerTo;
    JobIsAnswered(u, cfg, call.correlation, w, response, later, |u.ledger.answered|);
  }

  /** The caller's side of it. */
  lemma ReplyComesBack(call: Call, request: seq<byte>, response: seq<byte>, replyBudget: nat, handle: nat, limit: nat,
                       looks: seq<Look>)
    requires call.Good() && call.kind != KIND_ABSENT && call.kind != KIND_ERROR
    requires |response| <= MAX_BODY && |response| <= limit && replyBudget > MODULE_HEADER
    ensures var answer := AnswerTo(call.correlation, WorkFor(call, request), response);
            && answer.body == response
            && (Patient(looks) && Of(Polled(looks), call.correlation)
                                  == Wired(ReplyCall(answer, handle), Parts(response, replyBudget - MODULE_HEADER)) ==>
                  Await(Waiting([]), call.kind, call.correlation, limit, looks) == Got(response))
  {
    var answer := AnswerTo(call.correlation, WorkFor(call, request), response);
    ReplyIsResult(call, response, handle);
    hide Parts, Wired, Of, Polled, Patient, Await, Result;
    if Patient(looks) && Of(Polled(looks), call.correlation)
                         == Wired(ReplyCall(answer, handle), Parts(response, replyBudget - MODULE_HEADER)) {
      ReplyRoundTrip(response, replyBudget, ReplyCall(answer, handle), limit, looks);
    }
  }

  lemma ServingIsJob(s: Server, c: nat, w: Work, response: seq<byte>)
    ensures Serving(s, c, w, response) ==> c in s.jobs
  {
  }

  /** A job just started has no result in the channel. */
  lemma NewJobServes(u: Server, c: nat, response: seq<byte>, call: Call, request: seq<byte>)
    requires Inv(u) && c in u.jobs && c in u.running && u.jobs[c] == WorkFor(call, request)
    ensures Serving(u, c, WorkFor(call, request), response)
  {
    FlyingHolds(u);
    hide Inv;
    forall r <- u.done ensures r.correlation != c {
      NotTwice(u, r);
    }
  }

  lemma NotTwice(u: Server, r: Finished)
    requires Flying(u.jobs.Keys, u.running, u.done) && r in u.done
    ensures r.correlation !in u.running
  {
    var i :| 0 <= i < |u.done| && u.done[i] == r;
    assert Correlations(u.done)[i] == r.correlation;
    var jobs := multiset(u.jobs.Keys);
    assert jobs[r.correlation] <= 1;
    assert multiset(Correlations(u.done))[r.correlation] >= 1;
    assert jobs[r.correlation] == multiset(u.running)[r.correlation] + multiset(Correlations(u.done))[r.correlation];
  }
}
