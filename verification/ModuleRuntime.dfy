/** The serving loop of module_runtime.go: request fragments are assembled, complete requests become jobs
    run by handlers of their own, and results come back through a bounded channel. Handlers finish in any
    order between the loop's turns. */
module ModuleRuntime {
  import opened Wire
  import opened BusClient
  import opened ModuleFragments

  const MAX_IN_FLIGHT: nat := 16

  datatype Assembly = Assembly(kind: nat, message: Message, body: seq<byte>)

  datatype Work = Work(kind: nat, stage: nat, deadline: nat, trace: nat, body: seq<byte>, cancelled: bool)

  datatype Finished = Finished(correlation: nat, body: seq<byte>, status: nat)

  /** One call of replyModuleResult. */
  datatype Answer = Answer(kind: nat, correlation: nat, stage: nat, trace: nat, status: nat, body: seq<byte>)

  /** What became of every request frame so far, counted or listed in order. */
  datatype Ledger = Ledger(
    requests: nat,
    absorbed: nat,
    refused: seq<Answer>,
    started: seq<nat>,
    answered: seq<Answer>)

  datatype Server = Server(
    assemblies: map<nat, Assembly>,
    jobs: map<nat, Work>,
    running: set<nat>,
    done: seq<Finished>,
    ledger: Ledger)

  datatype Config = Config(stages: map<nat, nat>, hasHandler: bool)

  /** What can happen between two looks at the state: a frame is polled at a time `now`, a running handler
      returns, or the loop takes one result from the channel. */
  datatype Happening =
    | Arrive(event: Event, now: nat)
    | Return(correlation: nat, response: seq<byte>, status: nat, now: nat)
    | Collect

  function StageOf(cfg: Config, kind: nat): nat {
    if kind in cfg.stages then cfg.stages[kind] else 0
  }

  /** `DeadlineExpired`. */
  predicate Expired(deadline: nat, now: nat) {
    deadline != 0 && now >= deadline
  }

  /** replyModuleResult's own view of a status and body. */
  function AnswerOf(kind: nat, correlation: nat, stage: nat, trace: nat, status: nat, body: seq<byte>): (a: Answer)
    ensures a.correlation == correlation
  {
    if status > STATUS_INTERNAL || |body| > MAX_BODY then Answer(kind, correlation, stage, trace, STATUS_INTERNAL, [])
    else if status != STATUS_OK then Answer(kind, correlation, stage, trace, status, [])
    else Answer(kind, correlation, stage, trace, status, body)
  }

  /** runHandler's verdict on what a handler returned. */
  function Verdict(w: Work, correlation: nat, response: seq<byte>, status: nat, now: nat): (r: Finished)
    ensures r.correlation == correlation
  {
    if w.cancelled then Finished(correlation, [], STATUS_CANCELLED)
    else if w.deadline != 0 && now != 0 && now >= w.deadline then Finished(correlation, [], STATUS_DEADLINE)
    else if status > STATUS_INTERNAL || |response| > MAX_BODY then Finished(correlation, [], STATUS_INTERNAL)
    else if status != STATUS_OK then Finished(correlation, [], status)
    else Finished(correlation, response, STATUS_OK)
  }

  /** The first test on a request frame: does it fit the stage table, the codec, the jobs and the
      assembly it would continue. */
  predicate Acceptable(s: Server, cfg: Config, e: Event) {
    var m := DecodeMessage(e.payload);
    var c := e.frame.correlation;
    && StageOf(cfg, e.frame.kind) != 0 && m.Some? && m.value.operation == OP_INVOKE
    && m.value.stage == StageOf(cfg, e.frame.kind) && c !in s.jobs
    && (c in s.assemblies ==>
          var a := s.assemblies[c];
          && a.kind == e.frame.kind && a.message.stage == m.value.stage
          && a.message.deadline == m.value.deadline && a.message.trace == m.value.trace)
  }

  function Without<V>(m: map<nat, V>, c: nat): map<nat, V> {
    map k | k in m && k != c :: m[k]
  }

  /** Answers a request at once and forgets its assembly when `drop` says so. */
  function Refuse(s: Server, e: Event, stage: nat, trace: nat, status: nat, drop: bool): Server {
    s.(assemblies := if drop then Without(s.assemblies, e.frame.correlation) else s.assemblies,
       ledger := s.ledger.(refused := s.ledger.refused
         + [AnswerOf(e.frame.kind, e.frame.correlation, stage, trace, status, [])]))
  }

  /** The body of the loop for one request frame that is not a cancel, the frame already counted. */
  function OnRequest(s: Server, cfg: Config, e: Event, now: nat): Server {
    var stage := StageOf(cfg, e.frame.kind);
    var c := e.frame.correlation;
    if !Acceptable(s, cfg, e) then
      Refuse(s, e, if stage == 0 then 1 else stage, 0, STATUS_INVALID, true)
    else
      var m := DecodeMessage(e.payload).value;
      if c !in s.assemblies && |s.assemblies| >= MAX_IN_FLIGHT then
        Refuse(s, e, stage, m.trace, STATUS_INTERNAL, false)
      else
        var a := if c in s.assemblies then s.assemblies[c] else Assembly(e.frame.kind, m, []);
        var body := e.payload[MODULE_HEADER..MODULE_HEADER + m.bodyLen];
        if |a.body| + |body| > MAX_BODY then
          Refuse(s, e, stage, m.trace, STATUS_INTERNAL, true)
        else if Has(e.frame.flags, F_MORE) then
          s.(assemblies := s.assemblies[c := a.(body := a.body + body)],
             ledger := s.ledger.(absorbed := s.ledger.absorbed + 1))
        else if Expired(m.deadline, now) then
          Refuse(s, e, stage, m.trace, STATUS_DEADLINE, true)
        else if !cfg.hasHandler then
          Refuse(s, e, stage, m.trace, STATUS_ABSENT, true)
        else if |s.jobs| >= MAX_IN_FLIGHT then
          Refuse(s, e, stage, m.trace, STATUS_INTERNAL, true)
        else
          s.(assemblies := Without(s.assemblies, c),
             jobs := s.jobs[c := Work(e.frame.kind, stage, m.deadline, m.trace, a.body + body, false)],
             running := s.running + {c},
             ledger := s.ledger.(started := s.ledger.started + [c]))
  }

  function OnCancel(s: Server, c: nat): Server {
    s.(assemblies := Without(s.assemblies, c),
       jobs := if c in s.jobs then s.jobs[c := s.jobs[c].(cancelled := true)] else s.jobs)
  }

  function Step(s: Server, cfg: Config, a: Happening): Server {
    match a
    case Arrive(e, now) =>
      if Has(e.frame.flags, F_CANCEL) then OnCancel(s, e.frame.correlation)
      else if !Has(e.frame.flags, F_REQUEST) then s
      else OnRequest(s.(ledger := s.ledger.(requests := s.ledger.requests + 1)), cfg, e, now)
    case Return(c, response, status, now) =>
      if c in s.running && c in s.jobs then
        s.(running := s.running - {c}, done := s.done + [Verdict(s.jobs[c], c, response, status, now)])
      else s
    case Collect =>
      if s.done == [] || s.done[0].correlation !in s.jobs then s
      else
        var r := s.done[0];
        var w := s.jobs[r.correlation];
        s.(done := s.done[1..], jobs := Without(s.jobs, r.correlation),
           ledger := s.ledger.(answered := s.ledger.answered
             + [AnswerOf(w.kind, r.correlation, w.stage, w.trace, r.status, r.body)]))
  }

  function Run(s: Server, cfg: Config, schedule: seq<Happening>): Server
    decreases |schedule|
  {
    if schedule == [] then s else Run(Step(s, cfg, schedule[0]), cfg, schedule[1..])
  }

  const START := Server(map[], map[], {}, [], Ledger(0, 0, [], [], []))

  // ---- the invariant ----

  function Correlations(done: seq<Finished>): (cs: seq<nat>)
    ensures |cs| == |done|
  {
    seq(|done|, i requires 0 <= i < |done| => done[i].correlation)
  }

  function AnswerIds(answers: seq<Answer>): (cs: seq<nat>)
    ensures |cs| == |answers|
  {
    seq(|answers|, i requires 0 <= i < |answers| => answers[i].correlation)
  }

  /** Running handlers and queued results are the jobs, one for one. */
  ghost predicate OneForOne(jobs: set<nat>, running: set<nat>, queued: seq<nat>) {
    multiset(jobs) == multiset(running) + multiset(queued)
  }

  /** Every job that was started is answered, or still a job. */
  ghost predicate Balanced(started: seq<nat>, answered: seq<nat>, jobs: set<nat>) {
    multiset(started) == multiset(answered) + multiset(jobs)
  }

  ghost predicate Inv(s: Server) {
    && |s.assemblies| <= MAX_IN_FLIGHT && |s.jobs| <= MAX_IN_FLIGHT
    && s.assemblies.Keys !! s.jobs.Keys
    && (forall c <- s.assemblies :: |s.assemblies[c].body| <= MAX_BODY)
    && OneForOne(s.jobs.Keys, s.running, Correlations(s.done))
    && Balanced(s.ledger.started, AnswerIds(s.ledger.answered), s.jobs.Keys)
    && s.ledger.requests == s.ledger.absorbed + |s.ledger.refused| + |s.ledger.started|
  }

  lemma SetAdd(s: set<nat>, c: nat)
    ensures c !in s ==> multiset(s + {c}) == multiset(s) + multiset{c}
    ensures c in s ==> multiset(s) == multiset(s - {c}) + multiset{c}
  {
  }

  lemma SeqAdd(s: seq<nat>, c: nat)
    ensures multiset(s + [c]) == multiset(s) + multiset{c}
  {
  }

  lemma StartBalance(jobs: set<nat>, running: set<nat>, queued: seq<nat>, started: seq<nat>, answered: seq<nat>, c: nat)
    requires OneForOne(jobs, running, queued) && Balanced(started, answered, jobs) && c !in jobs
    ensures OneForOne(jobs + {c}, running + {c}, queued) && Balanced(started + [c], answered, jobs + {c})
  {
    assert c !in multiset(jobs);
    assert c !in multiset(running);
    SetAdd(jobs, c);
    SetAdd(running, c);
    SeqAdd(started, c);
  }

  lemma ReturnBalance(jobs: set<nat>, running: set<nat>, queued: seq<nat>, c: nat)
    requires OneForOne(jobs, running, queued) && c in running
    ensures OneForOne(jobs, running - {c}, queued + [c])
  {
    SetAdd(running, c);
    SeqAdd(queued, c);
  }

  lemma Cancel(a: multiset<nat>, b: multiset<nat>, c: nat)
    requires a + multiset{c} == b + multiset{c}
    ensures a == b
  {
    assert a == (a + multiset{c}) - multiset{c} && b == (b + multiset{c}) - multiset{c};
  }

  lemma CollectBalance(jobs: set<nat>, running: set<nat>, queued: seq<nat>, started: seq<nat>, answered: seq<nat>)
    requires OneForOne(jobs, running, queued) && Balanced(started, answered, jobs) && queued != []
    ensures queued[0] in jobs
    ensures OneForOne(jobs - {queued[0]}, running, queued[1..])
    ensures Balanced(started, answered + [queued[0]], jobs - {queued[0]})
  {
    TakeBalance(jobs, running, queued);
    SetAdd(jobs, queued[0]);
    SeqAdd(answered, queued[0]);
  }

  /** Taking the oldest result off the channel, and its job out of the table. */
  lemma TakeBalance(jobs: set<nat>, running: set<nat>, queued: seq<nat>)
    requires OneForOne(jobs, running, queued) && queued != []
    ensures queued[0] in jobs && OneForOne(jobs - {queued[0]}, running, queued[1..])
  {
    var c := queued[0];
    assert queued == [c] + queued[1..];
    assert multiset(queued) == multiset{c} + multiset(queued[1..]);
    assert c in multiset(jobs);
    SetAdd(jobs, c);
    var rest := multiset(running) + multiset(queued[1..]);
    assert multiset(jobs - {c}) + multiset{c} == rest + multiset{c};
    Cancel(multiset(jobs - {c}), rest, c);
  }

  // ---- every turn of the loop ----

  lemma WithoutKeys<V>(m: map<nat, V>, c: nat)
    ensures Without(m, c).Keys == m.Keys - {c}
    ensures |Without(m, c)| == |m| - if c in m then 1 else 0
  {
    assert Without(m, c).Keys == m.Keys - {c};
    assert |Without(m, c)| == |Without(m, c).Keys| && |m| == |m.Keys|;
  }

  lemma UpdateKeys<V>(m: map<nat, V>, c: nat, v: V)
    ensures m[c := v].Keys == m.Keys + {c}
    ensures |m[c := v]| == |m| + if c in m then 0 else 1
  {
    assert m[c := v].Keys == m.Keys + {c};
    assert |m[c := v]| == |m[c := v].Keys| && |m| == |m.Keys|;
  }

  lemma RefuseInv(s: Server, e: Event, stage: nat, trace: nat, status: nat, drop: bool)
    requires Inv(s.(ledger := s.ledger.(absorbed := s.ledger.absorbed + 1)))
    ensures Inv(Refuse(s, e, stage, trace, status, drop))
  {
    WithoutKeys(s.assemblies, e.frame.correlation);
  }

  lemma AbsorbInv(s: Server, c: nat, a: Assembly)
    requires Inv(s) && c !in s.jobs && |a.body| <= MAX_BODY
    requires c !in s.assemblies ==> |s.assemblies| < MAX_IN_FLIGHT
    ensures Inv(s.(assemblies := s.assemblies[c := a]))
  {
    UpdateKeys(s.assemblies, c, a);
  }

  lemma StartInv(s: Server, c: nat, w: Work)
    requires Inv(s.(ledger := s.ledger.(absorbed := s.ledger.absorbed + 1)))
    requires c !in s.jobs && |s.jobs| < MAX_IN_FLIGHT
    ensures Inv(s.(assemblies := Without(s.assemblies, c), jobs := s.jobs[c := w], running := s.running + {c},
                   ledger := s.ledger.(started := s.ledger.started + [c])))
  {
    WithoutKeys(s.assemblies, c);
    UpdateKeys(s.jobs, c, w);
    StartBalance(s.jobs.Keys, s.running, Correlations(s.done), s.ledger.started, AnswerIds(s.ledger.answered), c);
  }

  lemma RequestInv(s: Server, cfg: Config, e: Event, now: nat)
    requires Inv(s.(ledger := s.ledger.(absorbed := s.ledger.absorbed + 1)))
    ensures Inv(OnRequest(s, cfg, e, now))
  {
    hide Inv, Refuse, Without, DecodeMessage;
    var stage := StageOf(cfg, e.frame.kind);
    var c := e.frame.correlation;
    if !Acceptable(s, cfg, e) {
      RefuseInv(s, e, if stage == 0 then 1 else stage, 0, STATUS_INVALID, true);
    } else {
      var m := DecodeMessage(e.payload).value;
      var a := if c in s.assemblies then s.assemblies[c] else Assembly(e.frame.kind, m, []);
      var body := e.payload[MODULE_HEADER..MODULE_HEADER + m.bodyLen];
      if c !in s.assemblies && |s.assemblies| >= MAX_IN_FLIGHT {
        RefuseInv(s, e, stage, m.trace, STATUS_INTERNAL, false);
      } else if |a.body| + |body| > MAX_BODY {
        RefuseInv(s, e, stage, m.trace, STATUS_INTERNAL, true);
      } else if Has(e.frame.flags, F_MORE) {
        AbsorbInv(s.(ledger := s.ledger.(absorbed := s.ledger.absorbed + 1)), c, a.(body := a.body + body));
      } else if Expired(m.deadline, now) {
        RefuseInv(s, e, stage, m.trace, STATUS_DEADLINE, true);
      } else if !cfg.hasHandler {
        RefuseInv(s, e, stage, m.trace, STATUS_ABSENT, true);
      } else if |s.jobs| >= MAX_IN_FLIGHT {
        RefuseInv(s, e, stage, m.trace, STATUS_INTERNAL, true);
      } else {
        StartInv(s, c, Work(e.frame.kind, stage, m.deadline, m.trace, a.body + body, false));
      }
    }
  }

  lemma CancelInv(s: Server, c: nat)
    requires Inv(s)
    ensures Inv(OnCancel(s, c))
  {
    WithoutKeys(s.assemblies, c);
    if c in s.jobs {
      UpdateKeys(s.jobs, c, s.jobs[c].(cancelled := true));
    }
  }

  lemma CorrelationsJoin(done: seq<Finished>, r: Finished)
    ensures Correlations(done + [r]) == Correlations(done) + [r.correlation]
    ensures done != [] ==> Correlations(done) == [done[0].correlation] + Correlations(done[1..])
  {
  }

  lemma ReturnInv(s: Server, c: nat, r: Finished)
    requires Inv(s) && c in s.running && r.correlation == c
    ensures Inv(s.(running := s.running - {c}, done := s.done + [r])) && |s.done| < MAX_IN_FLIGHT
  {
    CorrelationsJoin(s.done, r);
    ReturnBalance(s.jobs.Keys, s.running, Correlations(s.done), c);
    FlyingHolds(s);
    InFlight(s);
  }

  /** The part of the invariant that also holds while the loop shuts down. */
  ghost predicate Flying(jobs: set<nat>, running: set<nat>, done: seq<Finished>) {
    |jobs| <= MAX_IN_FLIGHT && OneForOne(jobs, running, Correlations(done))
  }

  lemma FlyingHolds(s: Server)
    requires Inv(s)
    ensures Flying(s.jobs.Keys, s.running, s.done)
  {
    assert |s.jobs| == |s.jobs.Keys|;
  }

  /** Running handlers and queued results together are the jobs. */
  lemma InFlight(s: Server)
    requires Flying(s.jobs.Keys, s.running, s.done)
    ensures |s.running| + |s.done| == |s.jobs| <= MAX_IN_FLIGHT
    ensures s.running <= s.jobs.Keys && forall r <- s.done :: r.correlation in s.jobs
  {
    assert |multiset(s.jobs.Keys)| == |s.jobs.Keys| == |s.jobs|;
    assert |multiset(Correlations(s.done))| == |s.done|;
    forall c | c in s.running ensures c in s.jobs {
      assert c in multiset(s.jobs.Keys);
    }
    forall r | r in s.done ensures r.correlation in s.jobs {
      var i :| 0 <= i < |s.done| && s.done[i] == r;
      assert Correlations(s.done)[i] == r.correlation;
      assert r.correlation in multiset(s.jobs.Keys);
    }
  }

  lemma CollectInv(s: Server, a: Answer)
    requires Inv(s) && s.done != [] && a.correlation == s.done[0].correlation
    ensures a.correlation in s.jobs
    ensures Inv(s.(done := s.done[1..], jobs := Without(s.jobs, a.correlation),
                   ledger := s.ledger.(answered := s.ledger.answered + [a])))
  {
    var c := a.correlation;
    CorrelationsJoin(s.done, s.done[0]);
    CollectBalance(s.jobs.Keys, s.running, Correlations(s.done), s.ledger.started, AnswerIds(s.ledger.answered));
    WithoutKeys(s.jobs, c);
    assert Correlations(s.done)[1..] == Correlations(s.done[1..]);
    assert AnswerIds(s.ledger.answered + [a]) == AnswerIds(s.ledger.answered) + [c];
  }

  lemma StepInv(s: Server, cfg: Config, a: Happening)
    requires Inv(s)
    ensures Inv(Step(s, cfg, a))
  {
    hide OnRequest, OnCancel, Inv, Verdict, AnswerOf;
    match a
    case Arrive(e, now) =>
      CancelInv(s, e.frame.correlation);
      var t := s.(ledger := s.ledger.(requests := s.ledger.requests + 1));
      Counted(s);
      RequestInv(t, cfg, e, now);
    case Return(c, response, status, now) =>
      if c in s.running && c in s.jobs {
        ReturnInv(s, c, Verdict(s.jobs[c], c, response, status, now));
      }
    case Collect =>
      if s.done != [] && s.done[0].correlation in s.jobs {
        var r := s.done[0];
        var w := s.jobs[r.correlation];
        CollectInv(s, AnswerOf(w.kind, r.correlation, w.stage, w.trace, r.status, r.body));
      }
  }

  lemma Counted(s: Server)
    requires Inv(s)
    ensures Inv(s.(ledger := s.ledger.(requests := s.ledger.requests + 1, absorbed := s.ledger.absorbed + 1)))
  {
  }

  lemma StartHolds()
    ensures Inv(START)
  {
  }

  lemma {:induction false} RunInv(s: Server, cfg: Config, schedule: seq<Happening>)
    requires Inv(s)
    ensures Inv(Run(s, cfg, schedule))
    decreases |schedule|
  {
    hide Step, Inv;
    if schedule != [] {
      StepInv(s, cfg, schedule[0]);
      RunInv(Step(s, cfg, schedule[0]), cfg, schedule[1..]);
    }
  }

  /** In every reachable state: the tables are within 16, the jobs are exactly the running handlers and the
      queued results, so a returning handler always finds room in the channel; every request frame was
      absorbed, refused by one answer, or started one job; and a correlation was answered as often as it
      was started, but for the job it may still have. */
  lemma EveryRun(cfg: Config, schedule: seq<Happening>, c: nat)
    ensures var s := Run(START, cfg, schedule);
            && |s.assemblies| <= MAX_IN_FLIGHT && |s.running| + |s.done| == |s.jobs| <= MAX_IN_FLIGHT
            && (s.running != {} ==> |s.done| < MAX_IN_FLIGHT)
            && s.ledger.requests == s.ledger.absorbed + |s.ledger.refused| + |s.ledger.started|
            && |s.ledger.started| == |s.ledger.answered| + |s.jobs|
            && multiset(s.ledger.started)[c]
               == multiset(AnswerIds(s.ledger.answered))[c] + (if c in s.jobs then 1 else 0)
  {
    StartHolds();
    RunInv(START, cfg, schedule);
    var s := Run(START, cfg, schedule);
    FlyingHolds(s);
    InFlight(s);
    assert |multiset(s.ledger.started)| == |s.ledger.started|;
    assert |multiset(AnswerIds(s.ledger.answered))| == |s.ledger.answered|;
    assert |multiset(s.jobs.Keys)| == |s.jobs|;
    assert s.running != {} ==> |s.running| > 0;
  }

  // ---- a request comes together again ----

  /** The request frames of one correlation in a schedule. */
  function Own(schedule: seq<Happening>, c: nat): seq<Event> {
    if schedule == [] then []
    else
      (match schedule[0]
       case Arrive(e, _) => if e.frame.correlation == c then [e] else []
       case _ => [])
      + Own(schedule[1..], c)
  }

  /** A request this configuration serves. */
  predicate Served(call: Call, cfg: Config) {
    && call.Good() && call.pattern == F_REQUEST && call.m.operation == OP_INVOKE
    && StageOf(cfg, call.kind) == call.m.stage
  }

  /** The assembly for this request holds exactly these bytes, and no job has its correlation. */
  ghost predicate Holds(s: Server, call: Call, body: seq<byte>) {
    && call.correlation in s.assemblies && call.correlation !in s.jobs
    && var a := s.assemblies[call.correlation];
       && a.kind == call.kind && a.message.stage == call.m.stage
       && a.message.deadline == call.m.deadline && a.message.trace == call.m.trace && a.body == body
  }

  /** Nothing but a frame of its own correlation touches an assembly. */
  lemma OthersKeep(s: Server, cfg: Config, a: Happening, call: Call, body: seq<byte>)
    requires Holds(s, call, body) && (a.Arrive? ==> a.event.frame.correlation != call.correlation)
    requires Inv(s)
    ensures Holds(Step(s, cfg, a), call, body)
  {
    hide Acceptable, Inv, DecodeMessage;
    if a.Return? && a.correlation in s.running {
      FlyingHolds(s);
      InFlight(s);
    }
  }

  lemma FragmentAccepted(s: Server, cfg: Config, call: Call, p: Part)
    requires Served(call, cfg) && |p.bytes| <= MAX_BODY && call.correlation !in s.jobs
    requires call.correlation !in s.assemblies || Holds(s, call, s.assemblies[call.correlation].body)
    ensures Acceptable(s, cfg, FragmentEvent(call, p))
  {
    hide FragmentEvent, DecodeMessage;
    FragmentReads(call, p);
    PartMessage(call, |p.bytes|);
  }

  /** A fragment that is not the last is appended. */
  lemma FragmentAbsorbed(s: Server, cfg: Config, call: Call, p: Part, body: seq<byte>, now: nat)
    requires Served(call, cfg) && p.more && |body| + |p.bytes| <= MAX_BODY && call.correlation !in s.jobs
    requires Holds(s, call, body)
          || (call.correlation !in s.assemblies && |s.assemblies| < MAX_IN_FLIGHT && body == [])
    ensures Holds(Step(s, cfg, Arrive(FragmentEvent(call, p), now)), call, body + p.bytes)
  {
    hide FragmentEvent, DecodeMessage, Acceptable, Has;
    FragmentReads(call, p);
    FragmentAccepted(s, cfg, call, p);
    FragmentAccepted(s.(ledger := s.ledger.(requests := s.ledger.requests + 1)), cfg, call, p);
    assert [] + p.bytes == p.bytes;
  }

  /** The job a whole request becomes. */
  function WorkFor(call: Call, body: seq<byte>): Work {
    Work(call.kind, call.m.stage, call.m.deadline, call.m.trace, body, false)
  }

  /** The last fragment makes the job, with the whole body. */
  lemma FragmentStarts(s: Server, cfg: Config, call: Call, p: Part, body: seq<byte>, now: nat)
    requires Served(call, cfg) && !p.more && |body| + |p.bytes| <= MAX_BODY && call.correlation !in s.jobs
    requires Holds(s, call, body)
          || (call.correlation !in s.assemblies && |s.assemblies| < MAX_IN_FLIGHT && body == [])
    requires !Expired(call.m.deadline, now) && cfg.hasHandler && |s.jobs| < MAX_IN_FLIGHT
    ensures var t := Step(s, cfg, Arrive(FragmentEvent(call, p), now));
            && call.correlation in t.jobs && call.correlation in t.running
            && t.jobs[call.correlation] == WorkFor(call, body + p.bytes)
            && t.ledger.started == s.ledger.started + [call.correlation]
  {
    hide FragmentEvent, DecodeMessage, Acceptable, Has;
    FragmentReads(call, p);
    FragmentAccepted(s.(ledger := s.ledger.(requests := s.ledger.requests + 1)), cfg, call, p);
    assert [] + p.bytes == p.bytes;
  }

  /** While only non-final fragments of a request arrive, mixed with anything of other correlations,
      with handlers returning and results being collected, the assembly grows by exactly their bytes. */
  lemma {:induction false} Accumulates(s: Server, cfg: Config, call: Call, schedule: seq<Happening>, ps: seq<Part>,
                                       body: seq<byte>)
    requires Inv(s) && Served(call, cfg) && Holds(s, call, body)
    requires Own(schedule, call.correlation) == Wired(call, ps) && (forall p <- ps :: p.more)
    requires |body| + |Joined(ps)| <= MAX_BODY
    ensures Holds(Run(s, cfg, schedule), call, body + Joined(ps))
    decreases |schedule|
  {
    hide Step, Inv, Holds, FragmentEvent;
    if schedule == [] {
      assert ps == [] && body + [] == body;
    } else {
      var a := schedule[0];
      StepInv(s, cfg, a);
      var t := Step(s, cfg, a);
      if a.Arrive? && a.event.frame.correlation == call.correlation {
        var p := ps[0];
        assert a.event == FragmentEvent(call, p) by {
          assert Own(schedule, call.correlation)[0] == a.event;
        }
        assert Own(schedule[1..], call.correlation) == Own(schedule, call.correlation)[1..] == Wired(call, ps[1..]);
        CorrelationHeld(s, call, body);
        FragmentAbsorbed(s, cfg, call, p, body, a.now);
        Accumulates(t, cfg, call, schedule[1..], ps[1..], body + p.bytes);
        assert (body + p.bytes) + Joined(ps[1..]) == body + Joined(ps);
      } else {
        assert Own(schedule, call.correlation) == Own(schedule[1..], call.correlation);
        OthersKeep(s, cfg, a, call, body);
        Accumulates(t, cfg, call, schedule[1..], ps, body);
      }
    }
  }

  lemma CorrelationHeld(s: Server, call: Call, body: seq<byte>)
    requires Holds(s, call, body)
    ensures call.correlation !in s.jobs
  {
  }

  lemma {:induction false} JoinedEnd(ps: seq<Part>, p: Part)
    ensures Joined(ps + [p]) == Joined(ps) + p.bytes
  {
    if ps == [] {
      assert [p][1..] == [] && Joined([p]) == p.bytes + [];
    } else {
      assert (ps + [p])[1..] == ps[1..] + [p];
      JoinedEnd(ps[1..], p);
    }
  }

  /** Request round trip, single fragment: the job gets exactly the caller's bytes. */
  lemma ShortRequest(s: Server, cfg: Config, call: Call, body: seq<byte>, budget: nat, now: nat)
    requires budget > MODULE_HEADER && |body| <= budget - MODULE_HEADER && |body| <= MAX_BODY && Served(call, cfg)
    requires call.correlation !in s.assemblies && call.correlation !in s.jobs && |s.assemblies| < MAX_IN_FLIGHT
    requires !Expired(call.m.deadline, now) && cfg.hasHandler && |s.jobs| < MAX_IN_FLIGHT
    ensures var es := Wired(call, Parts(body, budget - MODULE_HEADER));
            |es| == 1 && var t := Step(s, cfg, Arrive(es[0], now));
            && call.correlation in t.jobs && call.correlation in t.running
            && t.jobs[call.correlation] == WorkFor(call, body)
            && t.ledger.started == s.ledger.started + [call.correlation]
  {
    hide Step, FragmentEvent;
    FragmentStarts(s, cfg, call, Part(body, false), [], now);
    assert [] + body == body;
  }

  /** Request round trip: for every body up to 16 MiB and every budget above the header, the fragments of
      one call, mixed in any way with other traffic and the loop's own work, reach the handler as exactly
      the bytes that were sent. The table must have room when the first fragment arrives, and the jobs
      when the last one does. */
  lemma RequestRoundTrip(s: Server, cfg: Config, call: Call, body: seq<byte>, budget: nat, first: nat,
                         schedule: seq<Happening>, now: nat)
    requires Inv(s) && Served(call, cfg)
    requires budget > MODULE_HEADER && budget - MODULE_HEADER < |body| <= MAX_BODY
    requires call.correlation !in s.assemblies && call.correlation !in s.jobs && |s.assemblies| < MAX_IN_FLIGHT
    requires var es := Wired(call, Parts(body, budget - MODULE_HEADER));
             |es| >= 2 && Own(schedule, call.correlation) == es[1..|es| - 1]
    requires !Expired(call.m.deadline, now) && cfg.hasHandler
    requires |Run(Step(s, cfg, Arrive(Wired(call, Parts(body, budget - MODULE_HEADER))[0], first)), cfg, schedule).jobs|
             < MAX_IN_FLIGHT
    ensures var es := Wired(call, Parts(body, budget - MODULE_HEADER));
            var t := Run(Step(s, cfg, Arrive(es[0], first)), cfg, schedule);
            var u := Step(t, cfg, Arrive(es[|es| - 1], now));
            && call.correlation in u.jobs && call.correlation in u.running
            && u.jobs[call.correlation] == WorkFor(call, body)
            && u.ledger.started == t.ledger.started + [call.correlation]
  {
    hide Step, Inv, Holds, FragmentEvent, Parts, Run;
    var ps := Parts(body, budget - MODULE_HEADER);
    var es := Wired(call, ps);
    PartsExact(body, budget - MODULE_HEADER);
    var mid, last := ps[1..|ps| - 1], ps[|ps| - 1];
    WiredSlices(call, ps);
    assert ps == [ps[0]] + (mid + [last]);
    assert Joined(ps) == ps[0].bytes + Joined(mid + [last]) by {
      assert ps[1..] == mid + [last];
    }
    JoinedEnd(mid, last);
    assert body == (ps[0].bytes + Joined(mid)) + last.bytes;
    FragmentAbsorbed(s, cfg, call, ps[0], [], first);
    assert [] + ps[0].bytes == ps[0].bytes;
    StepInv(s, cfg, Arrive(es[0], first));
    var t0 := Step(s, cfg, Arrive(es[0], first));
    Accumulates(t0, cfg, call, schedule, mid, ps[0].bytes);
    var t := Run(t0, cfg, schedule);
    CorrelationHeld(t, call, ps[0].bytes + Joined(mid));
    FragmentStarts(t, cfg, call, last, ps[0].bytes + Joined(mid), now);
  }

  lemma {:induction false} WiredSlices(call: Call, ps: seq<Part>)
    ensures forall i | 0 <= i < |ps| :: Wired(call, ps)[i] == FragmentEvent(call, ps[i])
    ensures |ps| >= 2 ==> Wired(call, ps)[1..|ps| - 1] == Wired(call, ps[1..|ps| - 1])
  {
    hide FragmentEvent;
    WiredAt(call, ps);
    if |ps| >= 2 {
      WiredAt(call, ps[1..|ps| - 1]);
    }
  }

  lemma {:induction false} WiredAt(call: Call, ps: seq<Part>)
    ensures forall i | 0 <= i < |ps| :: Wired(call, ps)[i] == FragmentEvent(call, ps[i])
  {
    hide FragmentEvent;
    if ps != [] {
      WiredAt(call, ps[1..]);
    }
  }

  // ---- the loop as it runs ----

  /** The tables of runModuleClient. `running` stands for the handler goroutines; the ledger is ghost. */
  class ModuleLoop {
    const cfg: Config
    var assemblies: map<nat, Assembly>
    var jobs: map<nat, Work>
    var done: seq<Finished>
    var sent: seq<Answer>
    var running: set<nat>
    ghost var ledger: Ledger

    ghost function View(): Server
      reads this
    {
      Server(assemblies, jobs, running, done, ledger)
    }

    ghost predicate Valid()
      reads this
    {
      Inv(View())
    }

    constructor (cfg: Config)
      ensures Valid() && View() == START && this.cfg == cfg && sent == []
    {
      this.cfg := cfg;
      assemblies, jobs, done, sent := map[], map[], [], [];
      running, ledger := {}, START.ledger;
      StartHolds();
    }

    method Reply(kind: nat, correlation: nat, stage: nat, trace: nat, status: nat, body: seq<byte>) returns (a: Answer)
      modifies this`sent
      ensures a == AnswerOf(kind, correlation, stage, trace, status, body) && sent == old(sent) + [a]
    {
      a := AnswerOf(kind, correlation, stage, trace, status, body);
      sent := sent + [a];
    }

    method RefuseNow(e: Event, stage: nat, trace: nat, status: nat, drop: bool)
      modifies this`assemblies, this`sent, this`ledger
      ensures View() == Refuse(old(View()), e, stage, trace, status, drop)
    {
      if drop {
        assemblies := Without(assemblies, e.frame.correlation);
      }
      var a := Reply(e.frame.kind, e.frame.correlation, stage, trace, status, []);
      ledger := ledger.(refused := ledger.refused + [a]);
    }

    /** What the loop does with one polled event. */
    method Handle(e: Event, now: nat)
      requires Valid()
      modifies this
      ensures Valid() && View() == Step(old(View()), cfg, Arrive(e, now))
    {
      hide Inv, DecodeMessage, Has, Expired;
      StepInv(View(), cfg, Arrive(e, now));
      var correlation := e.frame.correlation;
      if Has(e.frame.flags, F_CANCEL) {
        if correlation in jobs {
          jobs := jobs[correlation := jobs[correlation].(cancelled := true)];
        }
        assemblies := Without(assemblies, correlation);
        return;
      }
      if !Has(e.frame.flags, F_REQUEST) {
        return;
      }
      ledger := ledger.(requests := ledger.requests + 1);
      HandleRequest(e, now);
    }

    method HandleRequest(e: Event, now: nat)
      modifies this
      ensures View() == OnRequest(old(View()), cfg, e, now)
    {
      hide DecodeMessage, Has, Expired;
      var correlation := e.frame.correlation;
      var expected := StageOf(cfg, e.frame.kind);
      var decoded := DecodeMessage(e.payload);
      var invalid := expected == 0 || decoded.None? || decoded.value.operation != OP_INVOKE
                     || decoded.value.stage != expected || correlation in jobs;
      if !invalid && correlation in assemblies {
        var a := assemblies[correlation];
        invalid := a.kind != e.frame.kind || a.message.stage != decoded.value.stage
                   || a.message.deadline != decoded.value.deadline || a.message.trace != decoded.value.trace;
      }
      assert invalid == !Acceptable(View(), cfg, e);
      if invalid {
        RefuseNow(e, if expected == 0 then 1 else expected, 0, STATUS_INVALID, true);
        return;
      }
      var m := decoded.value;
      var assembly := Assembly(e.frame.kind, m, []);
      if correlation in assemblies {
        assembly := assemblies[correlation];
      } else if |assemblies| >= MAX_IN_FLIGHT {
        RefuseNow(e, expected, m.trace, STATUS_INTERNAL, false);
        return;
      }
      var body := e.payload[MODULE_HEADER..MODULE_HEADER + m.bodyLen];
      if |assembly.body| + |body| > MAX_BODY {
        RefuseNow(e, expected, m.trace, STATUS_INTERNAL, true);
        return;
      }
      assembly := assembly.(body := assembly.body + body);
      if Has(e.frame.flags, F_MORE) {
        assemblies := assemblies[correlation := assembly];
        ledger := ledger.(absorbed := ledger.absorbed + 1);
        return;
      }
      if Expired(m.deadline, now) {
        RefuseNow(e, expected, m.trace, STATUS_DEADLINE, true);
        return;
      }
      if !cfg.hasHandler {
        RefuseNow(e, expected, m.trace, STATUS_ABSENT, true);
        return;
      }
      if |jobs| >= MAX_IN_FLIGHT {
        RefuseNow(e, expected, m.trace, STATUS_INTERNAL, true);
        return;
      }
      assemblies := Without(assemblies, correlation);
      jobs := jobs[correlation := Work(e.frame.kind, expected, m.deadline, m.trace, assembly.body, false)];
      running := running + {correlation};
      ledger := ledger.(started := ledger.started + [correlation]);
    }

    ghost predicate Draining()
      reads this
    {
      Flying(jobs.Keys, running, done)
    }

    /** A handler returns: its result goes into the channel, where there is always room. */
    method HandlerReturns(correlation: nat, response: seq<byte>, status: nat, now: nat)
      requires Draining() && correlation in running
      modifies this`running, this`done
      ensures |done| == |old(done)| + 1 <= MAX_IN_FLIGHT
      ensures Draining() && View() == Step(old(View()), cfg, Return(correlation, response, status, now))
      ensures old(Valid()) ==> Valid()
    {
      hide Verdict, Inv;
      InFlight(View());
      if Valid() {
        StepInv(View(), cfg, Return(correlation, response, status, now));
      }
      ghost var r := Verdict(jobs[correlation], correlation, response, status, now);
      ReturnFlying(jobs.Keys, running, done, correlation, r);
      done := done + [Verdict(jobs[correlation], correlation, response, status, now)];
      running := running - {correlation};
      InFlight(View());
    }

    /** What shutdown does with a result: its job goes, and nobody is answered. */
    method Discard()
      requires Draining() && done != []
      modifies this`jobs, this`done
      ensures Draining() && done == old(done)[1..] && |jobs| == |old(jobs)| - 1
    {
      TakeFlying(jobs.Keys, running, done);
      WithoutKeys(jobs, done[0].correlation);
      jobs := Without(jobs, done[0].correlation);
      done := done[1..];
    }

    /** finishModuleWork on the oldest result. */
    method CollectOne()
      requires Valid() && done != []
      modifies this`jobs, this`done, this`sent, this`ledger
      ensures Valid() && View() == Step(old(View()), cfg, Collect) && |done| == |old(done)| - 1
      ensures |jobs| == |old(jobs)| - 1 && sent == old(sent) + [ledger.answered[|old(ledger.answered)|]]
      ensures |ledger.answered| == |old(ledger.answered)| + 1
    {
      hide Inv, AnswerOf;
      FlyingHolds(View());
      InFlight(View());
      StepInv(View(), cfg, Collect);
      var r := done[0];
      assert r in done;
      var w := jobs[r.correlation];
      WithoutKeys(jobs, r.correlation);
      done := done[1..];
      jobs := Without(jobs, r.correlation);
      var a := Reply(w.kind, r.correlation, w.stage, w.trace, r.status, r.body);
      ledger := ledger.(answered := ledger.answered + [a]);
    }

    /** The drain at the top of the loop. */
    method CollectAll()
      requires Valid()
      modifies this`jobs, this`done, this`sent, this`ledger
      ensures Valid() && done == [] && |jobs| == |old(jobs)| - |old(done)|
    {
      hide Inv, Step;
      while done != []
        invariant Valid() && |jobs| - |done| == |old(jobs)| - |old(done)|
        decreases |done|
      {
        CollectOne();
      }
    }

    /** Shutdown: cancel every job, then wait for exactly as many results as there are jobs. While one is
        missing some handler is still running, so the wait always ends; `pick` says which returns next. Nothing is
        sent any more, so exactly the jobs there were go unanswered. */
    method Shutdown(pick: set<nat> -> nat) returns (received: nat)
      requires Valid() && forall r: set<nat> | r != {} :: pick(r) in r
      modifies this`jobs, this`done, this`running
      ensures jobs == map[] && done == [] && running == {} && received == |old(jobs)|
      ensures |ledger.started| == |ledger.answered| + received
    {
      hide Step, Inv, Flying;
      FlyingHolds(View());
      Unanswered(View());
      jobs := CancelAll(jobs);
      KeysCount(jobs, old(jobs));
      received := 0;
      while |jobs| > 0
        invariant Draining() && received + |jobs| == |old(jobs)|
        decreases |jobs|
      {
        InFlight(View());
        if done == [] {
          HandlerReturns(pick(running), [], STATUS_OK, 0);
        }
        Discard();
        received := received + 1;
      }
      Idle(View());
    }
  }

  function CancelAll(jobs: map<nat, Work>): (r: map<nat, Work>)
    ensures r.Keys == jobs.Keys
  {
    map c | c in jobs :: jobs[c].(cancelled := true)
  }

  lemma ReturnFlying(jobs: set<nat>, running: set<nat>, done: seq<Finished>, c: nat, r: Finished)
    requires Flying(jobs, running, done) && c in running && r.correlation == c
    ensures Flying(jobs, running - {c}, done + [r])
  {
    CorrelationsJoin(done, r);
    ReturnBalance(jobs, running, Correlations(done), c);
  }

  lemma TakeFlying(jobs: set<nat>, running: set<nat>, done: seq<Finished>)
    requires Flying(jobs, running, done) && done != []
    ensures done[0].correlation in jobs && Flying(jobs - {done[0].correlation}, running, done[1..])
  {
    CorrelationsJoin(done, done[0]);
    TakeBalance(jobs, running, Correlations(done));
    assert Correlations(done)[1..] == Correlations(done[1..]);
  }

  lemma Unanswered(s: Server)
    requires Inv(s)
    ensures |s.ledger.started| == |s.ledger.answered| + |s.jobs|
  {
    assert |multiset(s.ledger.started)| == |s.ledger.started|;
    assert |multiset(AnswerIds(s.ledger.answered))| == |s.ledger.answered|;
    assert |multiset(s.jobs.Keys)| == |s.jobs|;
  }

  /** With no job left nothing runs and nothing is queued. */
  lemma Idle(s: Server)
    requires Flying(s.jobs.Keys, s.running, s.done) && |s.jobs| == 0
    ensures s.jobs == map[] && s.running == {} && s.done == []
  {
    InFlight(s);
  }

  lemma KeysCount<V>(a: map<nat, V>, b: map<nat, V>)
    requires a.Keys == b.Keys
    ensures |a| == |b|
  {
    assert |a| == |a.Keys| && |b| == |b.Keys|;
  }
}
