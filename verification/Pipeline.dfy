/** The running program: any number of validator handlers and the three workers, joined by the unbuffered
    channels that cain.go wires up. A send and its receive are one step; an API call is another. */
module Pipeline {
  import opened Workers
  import opened Validator

  // ------------------------------------------------------------------ states

  /** Work for a worker, named by the handler and the position in its script that it comes from. */
  datatype Job =
    | CaJob(h: nat, i: nat)
    | PasswordJob(h: nat, i: nat)
    | DeletionJob(h: nat, i: nat)
    | CertificateJob(h: nat, i: nat)

  /** A handler sends the messages of its script in order; `pc` of them are sent. */
  datatype Handler = Handler(script: seq<Send>, pc: nat)

  datatype CreatorState = CreatorReady | CreatorBusy(job: Job, req: CreationRequest)

  datatype DeleterState = DeleterReady | DeleterBusy(job: Job, del: DeletionRequest)

  /** Forwarding waits to send the password request, Submitting to call the API. */
  datatype CertState = CertReady | Forwarding(h: nat, i: nat, info: CertInfo) | Submitting(h: nat, i: nat, info: CertInfo)

  datatype Event = Received(job: Job) | Done(job: Job, act: Act) | Outside(change: Change)

  datatype State = State(
    handlers: seq<Handler>,
    creator: CreatorState,
    deleter: DeleterState,
    cert: CertState,
    api: Api,
    issuerName: string,
    log: seq<Event>)

  function Init(issuerName: string): State {
    State([], CreatorReady, DeleterReady, CertReady, EMPTY_API, issuerName, [])
  }

  // ------------------------------------------------------------------ steps

  /** Arrive and Interfere come from outside; the others are steps of the program. */
  datatype Step =
    | Arrive(script: seq<Send>)
    | Interfere(change: Change)
    | SendNext(h: nat)
    | ForwardPassword
    | CallCreate(fault: Fault)
    | CallDelete(fault: Fault)
    | CallCertify(fault: Fault)

  predicate Internal(step: Step) {
    !step.Arrive? && !step.Interfere?
  }

  /** Not a change by somebody else, and not a call that is answered with an error. */
  predicate Calm(step: Step) {
    match step
    case Interfere(_) => false
    case CallCreate(fault) => fault.NoFault?
    case CallDelete(fault) => fault.NoFault?
    case CallCertify(fault) => fault.NoFault?
    case _ => true
  }

  predicate CanSend(s: State, h: nat) {
    && h < |s.handlers|
    && s.handlers[h].pc < |s.handlers[h].script|
    && match s.handlers[h].script[s.handlers[h].pc]
       case ToCreator(_) => s.creator.CreatorReady?
       case ToDeleter(_) => s.deleter.DeleterReady?
       case ToCertCreator(_) => s.cert.CertReady?
  }

  predicate Enabled(s: State, step: Step) {
    match step
    case Arrive(_) => true
    case Interfere(_) => true
    case SendNext(h) => CanSend(s, h)
    case ForwardPassword => s.cert.Forwarding? && s.creator.CreatorReady?
    case CallCreate(_) => s.creator.CreatorBusy?
    case CallDelete(_) => s.deleter.DeleterBusy?
    case CallCertify(_) => s.cert.Submitting?
  }

  function ActOf(event: Event): Act {
    match event
    case Received(_) => Nothing
    case Done(_, act) => act
    case Outside(change) => Foreign(change)
  }

  function Record(s: State, event: Event): State {
    s.(log := s.log + [event], api := Perform(s.api, ActOf(event)))
  }

  function Advance(s: State, h: nat): State
    requires h < |s.handlers|
  {
    s.(handlers := s.handlers[h := s.handlers[h].(pc := s.handlers[h].pc + 1)])
  }

  function AfterSend(s: State, h: nat): State
    requires CanSend(s, h)
  {
    var i := s.handlers[h].pc;
    match s.handlers[h].script[i]
    case ToCreator(req) => Record(Advance(s, h).(creator := CreatorBusy(CaJob(h, i), req)), Received(CaJob(h, i)))
    case ToDeleter(del) =>
      Record(Advance(s, h).(deleter := DeleterBusy(DeletionJob(h, i), del)), Received(DeletionJob(h, i)))
    case ToCertCreator(info) =>
      Record(Advance(s, h).(cert := Forwarding(h, i, info)), Received(CertificateJob(h, i)))
  }

  function Next(s: State, step: Step): State
    requires Enabled(s, step)
  {
    match step
    case Arrive(script) => s.(handlers := s.handlers + [Handler(script, 0)])
    case Interfere(change) => Record(s, Outside(change))
    case SendNext(h) => AfterSend(s, h)
    case ForwardPassword =>
      var job := PasswordJob(s.cert.h, s.cert.i);
      Record(s.(creator := CreatorBusy(job, PasswordRequest(s.cert.info)),
                cert := Submitting(s.cert.h, s.cert.i, s.cert.info)), Received(job))
    case CallCreate(fault) =>
      Record(s.(creator := CreatorReady), Done(s.creator.job, CreateSecret(s.creator.req, fault)))
    case CallDelete(fault) =>
      Record(s.(deleter := DeleterReady), Done(s.deleter.job, DeleteSecret(s.deleter.del, fault)))
    case CallCertify(fault) =>
      Record(s.(cert := CertReady),
             Done(CertificateJob(s.cert.h, s.cert.i), CreateCertificate(s.issuerName, s.cert.info, fault)))
  }

  /** A finite interleaving from a state. */
  ghost predicate Runs(s: State, steps: seq<Step>)
    decreases |steps|
  {
    |steps| > 0 ==> Enabled(s, steps[0]) && Runs(Next(s, steps[0]), steps[1..])
  }

  ghost function Exec(s: State, steps: seq<Step>): State
    requires Runs(s, steps)
    decreases |steps|
  {
    if |steps| == 0 then s else Exec(Next(s, steps[0]), steps[1..])
  }

  // ------------------------------------------------------------------ progress

  ghost predicate InRange(s: State) {
    forall h :: 0 <= h < |s.handlers| ==> s.handlers[h].pc <= |s.handlers[h].script|
  }

  /** Nothing is left to do. */
  ghost predicate Quiescent(s: State) {
    && s.creator.CreatorReady?
    && s.deleter.DeleterReady?
    && s.cert.CertReady?
    && forall h :: 0 <= h < |s.handlers| ==> s.handlers[h].pc == |s.handlers[h].script|
  }

  /** How many steps a message takes: a certificate is received, forwards a password request that is then
      carried out, and is submitted. */
  function Cost(send: Send): nat {
    if send.ToCertCreator? then 4 else 2
  }

  function ScriptCost(script: seq<Send>): nat {
    if |script| == 0 then 0 else Cost(script[0]) + ScriptCost(script[1..])
  }

  function HandlerCost(handler: Handler): nat {
    if handler.pc <= |handler.script| then ScriptCost(handler.script[handler.pc..]) else 0
  }

  function HandlersCost(handlers: seq<Handler>): nat {
    if |handlers| == 0 then 0 else HandlersCost(handlers[..|handlers| - 1]) + HandlerCost(handlers[|handlers| - 1])
  }

  /** The exact number of program steps that are left. */
  function Work(s: State): nat {
    HandlersCost(s.handlers)
    + (if s.creator.CreatorBusy? then 1 else 0)
    + (if s.deleter.DeleterBusy? then 1 else 0)
    + (match s.cert case CertReady => 0 case Forwarding(_, _, _) => 3 case Submitting(_, _, _) => 1)
  }

  lemma {:induction false} HandlersCostUpdate(handlers: seq<Handler>, h: nat, handler: Handler)
    requires h < |handlers|
    ensures HandlersCost(handlers[h := handler])
         == HandlersCost(handlers) - HandlerCost(handlers[h]) + HandlerCost(handler)
  {
    var n := |handlers| - 1;
    if h < n {
      HandlersCostUpdate(handlers[..n], h, handler);
      assert handlers[h := handler][..n] == handlers[..n][h := handler];
    } else {
      assert handlers[h := handler][..n] == handlers[..n];
    }
  }

  lemma {:induction false} HandlersCostZero(handlers: seq<Handler>)
    requires forall h :: 0 <= h < |handlers| ==> handlers[h].pc <= |handlers[h].script|
    ensures HandlersCost(handlers) == 0 <==>
              forall h :: 0 <= h < |handlers| ==> handlers[h].pc == |handlers[h].script|
  {
    if |handlers| > 0 {
      HandlersCostZero(handlers[..|handlers| - 1]);
    }
  }

  lemma SendTakesOne(s: State, h: nat)
    requires InRange(s) && CanSend(s, h)
    ensures InRange(AfterSend(s, h)) && Work(AfterSend(s, h)) == Work(s) - 1
  {
    var handler := s.handlers[h];
    var todo := handler.script[handler.pc..];
    HandlersCostUpdate(s.handlers, h, handler.(pc := handler.pc + 1));
    assert todo[0] == handler.script[handler.pc] && todo[1..] == handler.script[handler.pc + 1..];
    assert HandlersCost(AfterSend(s, h).handlers) == HandlersCost(s.handlers) - Cost(todo[0]);
  }

  /** Every program step takes exactly one off the work, whichever step it is and however it is answered. */
  lemma StepTakesOne(s: State, step: Step)
    requires InRange(s) && Enabled(s, step)
    ensures InRange(Next(s, step))
    ensures Work(Next(s, step)) == match step
                                   case Arrive(script) => Work(s) + ScriptCost(script)
                                   case Interfere(_) => Work(s)
                                   case _ => Work(s) - 1
  {
    match step
    case Arrive(script) =>
      assert (s.handlers + [Handler(script, 0)])[..|s.handlers|] == s.handlers;
      assert script[0..] == script;
    case SendNext(h) => SendTakesOne(s, h);
    case _ =>
  }

  /** No deadlock: while work is left, some program step is enabled, and none has to meet a fault. */
  lemma NoDeadlock(s: State)
    requires InRange(s)
    ensures Work(s) == 0 <==> Quiescent(s)
    ensures !Quiescent(s) <==> exists step :: Internal(step) && Enabled(s, step)
    ensures !Quiescent(s) <==> exists step :: Internal(step) && Calm(step) && Enabled(s, step)
  {
    HandlersCostZero(s.handlers);
    if !Quiescent(s) {
      var step :=
        if s.creator.CreatorBusy? then CallCreate(NoFault)
        else if s.deleter.DeleterBusy? then CallDelete(NoFault)
        else if s.cert.Forwarding? then ForwardPassword
        else if s.cert.Submitting? then CallCertify(NoFault)
        else var h :| 0 <= h < |s.handlers| && s.handlers[h].pc != |s.handlers[h].script|; SendNext(h);
      assert Internal(step) && Calm(step) && Enabled(s, step);
    }
  }

  function InternalSteps(steps: seq<Step>): nat {
    if |steps| == 0 then 0 else (if Internal(steps[0]) then 1 else 0) + InternalSteps(steps[1..])
  }

  function ArrivedCost(steps: seq<Step>): nat {
    if |steps| == 0 then 0
    else (if steps[0].Arrive? then ScriptCost(steps[0].script) else 0) + ArrivedCost(steps[1..])
  }

  /** Conservation of work over every interleaving: the program has taken as many steps as were admitted and are
      not left. In particular no run can go on without further admissions, and all runs that finish the same
      admissions take the same number of program steps. */
  lemma {:induction false} WorkIsConserved(s: State, steps: seq<Step>)
    requires InRange(s) && Runs(s, steps)
    ensures InRange(Exec(s, steps))
    ensures InternalSteps(steps) + Work(Exec(s, steps)) == Work(s) + ArrivedCost(steps)
    ensures Quiescent(Exec(s, steps)) <==> InternalSteps(steps) == Work(s) + ArrivedCost(steps)
    decreases |steps|
  {
    if |steps| > 0 {
      StepTakesOne(s, steps[0]);
      WorkIsConserved(Next(s, steps[0]), steps[1..]);
    } else {
      NoDeadlock(s);
    }
  }

  lemma RunsConcat(s: State, step: Step, rest: seq<Step>)
    requires Enabled(s, step) && Runs(Next(s, step), rest)
    ensures Runs(s, [step] + rest) && Exec(s, [step] + rest) == Exec(Next(s, step), rest)
  {
    assert ([step] + rest)[1..] == rest;
  }

  /** From every state the program can drain, with no admission and no fault, by as many steps as there is work. */
  lemma {:induction false} Drains(s: State) returns (steps: seq<Step>)
    requires InRange(s)
    ensures Runs(s, steps) && Quiescent(Exec(s, steps))
    ensures |steps| == Work(s)
    ensures forall k :: 0 <= k < |steps| ==> Internal(steps[k]) && Calm(steps[k])
    decreases Work(s)
  {
    NoDeadlock(s);
    if Quiescent(s) {
      steps := [];
    } else {
      var step :| Internal(step) && Calm(step) && Enabled(s, step);
      StepTakesOne(s, step);
      var rest := Drains(Next(s, step));
      RunsConcat(s, step, rest);
      steps := [step] + rest;
    }
  }
}
