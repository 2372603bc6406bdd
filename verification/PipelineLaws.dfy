/** What holds in every state of every interleaving: nothing is lost, doubled or made up, and certificates are
    submitted after the requests that they depend on. */
module PipelineLaws {
  import opened Workers
  import opened Validator
  import opened Pipeline

  // ------------------------------------------------------------------ invariants

  predicate Sent(s: State, h: nat, i: nat) {
    h < |s.handlers| && i < s.handlers[h].pc && i < |s.handlers[h].script|
  }

  /** The message that handler h sent at position i. */
  function Message(s: State, h: nat, i: nat): Send
    requires Sent(s, h, i)
  {
    s.handlers[h].script[i]
  }

  /** The act carries out, for this job, what its handler asked for. */
  predicate Asked(s: State, job: Job, act: Act) {
    match job
    case CaJob(h, i) => Sent(s, h, i) && act.CreateSecret? && Message(s, h, i) == ToCreator(act.req)
    case DeletionJob(h, i) => Sent(s, h, i) && act.DeleteSecret? && Message(s, h, i) == ToDeleter(act.del)
    case PasswordJob(h, i) =>
      && Sent(s, h, i) && Message(s, h, i).ToCertCreator?
      && act.CreateSecret? && act.req == PasswordRequest(Message(s, h, i).info)
    case CertificateJob(h, i) =>
      && Sent(s, h, i) && act.CreateCertificate? && act.issuerName == s.issuerName
      && Message(s, h, i) == ToCertCreator(act.info)
  }

  /** The certificate creator holds this message. */
  predicate HoldsCert(s: State, h: nat, i: nat) {
    !s.cert.CertReady? && s.cert.h == h && s.cert.i == i
  }

  predicate Waits(s: State, h: nat, i: nat) {
    s.cert.Forwarding? && s.cert.h == h && s.cert.i == i
  }

  /** What the workers hold was sent to them. */
  ghost predicate Shape(s: State) {
    && InRange(s)
    && (s.creator.CreatorBusy? ==>
          && (s.creator.job.CaJob? || s.creator.job.PasswordJob?)
          && Asked(s, s.creator.job, CreateSecret(s.creator.req, NoFault))
          && (s.creator.job.PasswordJob? ==> !Waits(s, s.creator.job.h, s.creator.job.i)))
    && (s.deleter.DeleterBusy? ==>
          s.deleter.job.DeletionJob? && Asked(s, s.deleter.job, DeleteSecret(s.deleter.del, NoFault)))
    && (!s.cert.CertReady? ==>
          Sent(s, s.cert.h, s.cert.i) && Message(s, s.cert.h, s.cert.i) == ToCertCreator(s.cert.info))
  }

  ghost predicate OnlyAsked(s: State) {
    forall k :: 0 <= k < |s.log| && s.log[k].Done? ==> Asked(s, s.log[k].job, s.log[k].act)
  }

  function Acts(log: seq<Event>): seq<Act> {
    seq(|log|, k requires 0 <= k < |log| => ActOf(log[k]))
  }

  ghost predicate Replayed(s: State) {
    s.api == Replay(EMPTY_API, Acts(s.log))
  }

  function DoneCount(log: seq<Event>, job: Job): nat {
    if |log| == 0 then 0
    else
      var last := log[|log| - 1];
      DoneCount(log[..|log| - 1], job) + if last.Done? && last.job == job then 1 else 0
  }

  /** A job is finished when its message was sent and no worker holds it any more. */
  predicate Finished(s: State, job: Job) {
    match job
    case CaJob(h, i) =>
      Sent(s, h, i) && Message(s, h, i).ToCreator? && !(s.creator.CreatorBusy? && s.creator.job == job)
    case DeletionJob(h, i) =>
      Sent(s, h, i) && Message(s, h, i).ToDeleter? && !(s.deleter.DeleterBusy? && s.deleter.job == job)
    case PasswordJob(h, i) =>
      && Sent(s, h, i) && Message(s, h, i).ToCertCreator?
      && !Waits(s, h, i) && !(s.creator.CreatorBusy? && s.creator.job == job)
    case CertificateJob(h, i) =>
      Sent(s, h, i) && Message(s, h, i).ToCertCreator? && !HoldsCert(s, h, i)
  }

  /** Each finished job was done once, each other job never. */
  ghost predicate Counted(s: State) {
    forall job: Job :: DoneCount(s.log, job) == if Finished(s, job) then 1 else 0
  }

  /** All secrets that the handler asked for before position i have been tried. */
  ghost predicate EarlierTried(script: seq<Send>, log: seq<Event>, h: nat, i: nat) {
    forall e: nat :: e < i && e < |script| && script[e].ToCreator? ==> DoneCount(log, CaJob(h, e)) == 1
  }

  /** The secret creator has received the password request, at a time when all earlier secrets had been tried. */
  ghost predicate PasswordTaken(script: seq<Send>, log: seq<Event>, h: nat, i: nat) {
    exists j :: 0 <= j < |log| && log[j] == Received(PasswordJob(h, i)) && EarlierTried(script, log[..j], h, i)
  }

  /** A certificate that is about to be submitted comes after what it depends on. */
  ghost predicate OrderedNow(s: State) {
    s.cert.Submitting? && s.cert.h < |s.handlers| ==>
      PasswordTaken(s.handlers[s.cert.h].script, s.log, s.cert.h, s.cert.i)
  }

  /** And so did each one that was submitted. */
  ghost predicate OrderedBefore(s: State) {
    forall k :: 0 <= k < |s.log| && s.log[k].Done? && s.log[k].job.CertificateJob?
                && s.log[k].job.h < |s.handlers| ==>
      PasswordTaken(s.handlers[s.log[k].job.h].script, s.log[..k], s.log[k].job.h, s.log[k].job.i)
  }

  ghost predicate Ordered(s: State) {
    OrderedNow(s) && OrderedBefore(s)
  }

  // ------------------------------------------------------------------ they are kept

  /** What was sent stays sent, and scripts do not change. */
  lemma HandlersKept(s: State, step: Step)
    requires InRange(s) && Enabled(s, step)
    ensures InRange(Next(s, step))
    ensures |Next(s, step).handlers| >= |s.handlers|
    ensures forall h :: 0 <= h < |s.handlers| ==> Next(s, step).handlers[h].script == s.handlers[h].script
    ensures forall h: nat, i: nat :: Sent(s, h, i) ==>
              Sent(Next(s, step), h, i) && Message(Next(s, step), h, i) == Message(s, h, i)
    ensures forall job, act :: Asked(s, job, act) ==> Asked(Next(s, step), job, act)
  {
  }

  lemma ShapeOnSend(s: State, h: nat)
    requires Shape(s) && CanSend(s, h)
    ensures Shape(AfterSend(s, h))
  {
    HandlersKept(s, SendNext(h));
    var i := s.handlers[h].pc;
    assert Sent(AfterSend(s, h), h, i) && !Sent(s, h, i);
  }

  lemma ShapeOnForward(s: State)
    requires Shape(s) && Enabled(s, ForwardPassword)
    ensures Shape(Next(s, ForwardPassword))
  {
    HandlersKept(s, ForwardPassword);
  }

  lemma ShapeKept(s: State, step: Step)
    requires Shape(s) && Enabled(s, step)
    ensures Shape(Next(s, step))
  {
    match step
    case SendNext(h) => ShapeOnSend(s, h);
    case ForwardPassword => ShapeOnForward(s);
    case _ => HandlersKept(s, step);
  }

  lemma OnlyAskedKept(s: State, step: Step)
    requires Shape(s) && OnlyAsked(s) && Enabled(s, step)
    ensures OnlyAsked(Next(s, step))
  {
    HandlersKept(s, step);
  }

  lemma ReplayedKept(s: State, step: Step)
    requires Replayed(s) && Enabled(s, step)
    ensures Replayed(Next(s, step))
  {
    var after := Next(s, step);
    if |after.log| > |s.log| {
      var event := after.log[|s.log|];
      assert Acts(after.log) == Acts(s.log) + [ActOf(event)];
      ReplaySnoc(EMPTY_API, Acts(s.log), ActOf(event));
    }
  }

  lemma DoneCountSnoc(log: seq<Event>, event: Event, job: Job)
    ensures DoneCount(log + [event], job)
         == DoneCount(log, job) + if event.Done? && event.job == job then 1 else 0
  {
    assert (log + [event])[..|log|] == log;
  }

  /** The step logs this job as done. */
  predicate Completes(s: State, step: Step, job: Job)
    requires Enabled(s, step)
  {
    var log := Next(s, step).log;
    |log| > |s.log| && log[|s.log|].Done? && log[|s.log|].job == job
  }

  lemma FinishedOnSend(s: State, h: nat, job: Job)
    requires Shape(s) && CanSend(s, h)
    ensures !Completes(s, SendNext(h), job)
    ensures Finished(AfterSend(s, h), job) == Finished(s, job)
  {
    var after := AfterSend(s, h);
    assert forall g: nat, i: nat :: (g != h || i != s.handlers[h].pc) ==> Sent(after, g, i) == Sent(s, g, i);
  }

  lemma FinishedOnForward(s: State, job: Job)
    requires Shape(s) && Enabled(s, ForwardPassword)
    ensures !Completes(s, ForwardPassword, job)
    ensures Finished(Next(s, ForwardPassword), job) == Finished(s, job)
  {
  }

  lemma FinishedOnCall(s: State, step: Step, job: Job)
    requires Shape(s) && Enabled(s, step) && (step.CallCreate? || step.CallDelete? || step.CallCertify?)
    ensures if Completes(s, step, job) then !Finished(s, job) && Finished(Next(s, step), job)
            else Finished(Next(s, step), job) == Finished(s, job)
  {
  }

  /** A job becomes finished exactly by the step that logs it as done. */
  lemma FinishedStep(s: State, step: Step, job: Job)
    requires Shape(s) && Enabled(s, step)
    ensures if Completes(s, step, job) then !Finished(s, job) && Finished(Next(s, step), job)
            else Finished(Next(s, step), job) == Finished(s, job)
  {
    match step
    case SendNext(h) => FinishedOnSend(s, h, job);
    case Arrive(script) =>
      assert forall g: nat, i: nat :: Sent(Next(s, step), g, i) == Sent(s, g, i);
    case Interfere(_) =>
    case ForwardPassword => FinishedOnForward(s, job);
    case _ => FinishedOnCall(s, step, job);
  }

  lemma CountedKept(s: State, step: Step)
    requires Shape(s) && Counted(s) && Enabled(s, step)
    ensures Counted(Next(s, step))
  {
    var after := Next(s, step);
    forall job: Job
      ensures DoneCount(after.log, job) == if Finished(after, job) then 1 else 0
    {
      FinishedStep(s, step, job);
      if |after.log| > |s.log| {
        assert after.log == s.log + [after.log[|s.log|]];
        DoneCountSnoc(s.log, after.log[|s.log|], job);
      }
    }
  }

  lemma PasswordTakenGrows(script: seq<Send>, log: seq<Event>, event: Event, h: nat, i: nat)
    requires PasswordTaken(script, log, h, i)
    ensures PasswordTaken(script, log + [event], h, i)
  {
    var j :| 0 <= j < |log| && log[j] == Received(PasswordJob(h, i)) && EarlierTried(script, log[..j], h, i);
    assert (log + [event])[j] == log[j] && (log + [event])[..j] == log[..j];
  }

  /** When the password request is taken, the secret creator is free, so all earlier requests of the same
      handler have been tried. */
  lemma TakenWhenFree(s: State)
    requires Shape(s) && Counted(s) && Enabled(s, ForwardPassword)
    ensures PasswordTaken(s.handlers[s.cert.h].script, Next(s, ForwardPassword).log, s.cert.h, s.cert.i)
  {
    var h, i := s.cert.h, s.cert.i;
    var log := Next(s, ForwardPassword).log;
    var j := |s.log|;
    assert log[..j] == s.log;
    forall e: nat | e < i && s.handlers[h].script[e].ToCreator?
      ensures DoneCount(s.log, CaJob(h, e)) == 1
    {
      assert Sent(s, h, e) && Finished(s, CaJob(h, e));
    }
    assert log[j] == Received(PasswordJob(h, i)) && EarlierTried(s.handlers[h].script, log[..j], h, i);
  }

  lemma OrderedBeforeKept(s: State, step: Step)
    requires Shape(s) && OnlyAsked(s) && Ordered(s) && Enabled(s, step)
    ensures OrderedBefore(Next(s, step))
  {
    HandlersKept(s, step);
    var after := Next(s, step);
    forall k | 0 <= k < |after.log| && after.log[k].Done? && after.log[k].job.CertificateJob?
               && after.log[k].job.h < |after.handlers|
      ensures PasswordTaken(after.handlers[after.log[k].job.h].script, after.log[..k], after.log[k].job.h,
                            after.log[k].job.i)
    {
      assert after.log[..k] == s.log[..k];
      if k < |s.log| {
        assert after.log[k] == s.log[k];
        assert Asked(s, s.log[k].job, s.log[k].act);
      } else {
        assert s.log[..k] == s.log;
      }
    }
  }

  lemma OrderedNowKept(s: State, step: Step)
    requires Shape(s) && Counted(s) && OrderedNow(s) && Enabled(s, step)
    ensures OrderedNow(Next(s, step))
  {
    HandlersKept(s, step);
    var after := Next(s, step);
    if after.cert.Submitting? {
      if step.ForwardPassword? {
        TakenWhenFree(s);
      } else if |after.log| > |s.log| {
        PasswordTakenGrows(s.handlers[s.cert.h].script, s.log, after.log[|s.log|], s.cert.h, s.cert.i);
      }
    }
  }

  ghost predicate Inv(s: State) {
    Shape(s) && OnlyAsked(s) && Replayed(s) && Counted(s) && Ordered(s)
  }

  lemma InvKept(s: State, step: Step)
    requires Inv(s) && Enabled(s, step)
    ensures Inv(Next(s, step))
  {
    ShapeKept(s, step);
    OnlyAskedKept(s, step);
    ReplayedKept(s, step);
    CountedKept(s, step);
    OrderedBeforeKept(s, step);
    OrderedNowKept(s, step);
  }

  lemma {:induction false} InvAlongRun(s: State, steps: seq<Step>)
    requires Inv(s) && Runs(s, steps)
    ensures Inv(Exec(s, steps))
    decreases |steps|
  {
    if |steps| > 0 {
      InvKept(s, steps[0]);
      InvAlongRun(Next(s, steps[0]), steps[1..]);
    }
  }

  ghost predicate Reached(issuerName: string, steps: seq<Step>, s: State) {
    Runs(Init(issuerName), steps) && Exec(Init(issuerName), steps) == s
  }

  /** A state in which the program has come to rest. */
  ghost predicate AtRest(issuerName: string, steps: seq<Step>, s: State) {
    Reached(issuerName, steps, s) && Quiescent(s)
  }

  lemma {:induction false} IssuerKept(s: State, steps: seq<Step>)
    requires Runs(s, steps)
    ensures Exec(s, steps).issuerName == s.issuerName
    decreases |steps|
  {
    if |steps| > 0 {
      IssuerKept(Next(s, steps[0]), steps[1..]);
    }
  }

  lemma InvReached(issuerName: string, steps: seq<Step>)
    requires Runs(Init(issuerName), steps)
    ensures Inv(Exec(Init(issuerName), steps))
  {
    assert Acts([]) == [];
    InvAlongRun(Init(issuerName), steps);
  }

  // ------------------------------------------------------------------ theorems

  /** In every interleaving, before a certificate is submitted the secret creator has received the password
      request for it, and before that the API call for every secret that the same handler had asked for earlier
      was completed, exactly once. */
  lemma CertificateComesAfter(issuerName: string, steps: seq<Step>, k: nat, h: nat, i: nat)
    requires Runs(Init(issuerName), steps)
    requires var log := Exec(Init(issuerName), steps).log;
             k < |log| && log[k].Done? && log[k].job == CertificateJob(h, i)
    ensures var s := Exec(Init(issuerName), steps);
            && h < |s.handlers| && i < |s.handlers[h].script|
            && exists j: nat ::
                 && j < k
                 && s.log[j] == Received(PasswordJob(h, i))
                 && forall e: nat :: e < i && s.handlers[h].script[e].ToCreator? ==>
                      DoneCount(s.log[..j], CaJob(h, e)) == 1
  {
    InvReached(issuerName, steps);
    var s := Exec(Init(issuerName), steps);
    assert Asked(s, s.log[k].job, s.log[k].act);
    var before := s.log[..k];
    var j :| 0 <= j < |before| && before[j] == Received(PasswordJob(h, i))
             && EarlierTried(s.handlers[h].script, before[..j], h, i);
    assert before[..j] == s.log[..j];
  }

  lemma {:induction false} RunsFurther(s: State, steps: seq<Step>, step: Step)
    requires Runs(s, steps) && Enabled(Exec(s, steps), step)
    ensures Runs(s, steps + [step]) && Exec(s, steps + [step]) == Next(Exec(s, steps), step)
    decreases |steps|
  {
    var longer := steps + [step];
    if |steps| > 0 {
      RunsFurther(Next(s, steps[0]), steps[1..], step);
      assert longer[1..] == steps[1..] + [step];
    } else {
      assert longer[1..] == [];
    }
  }

  /** But the password secret itself need not have been tried when the certificate is submitted: in every
      reachable state in which that is about to happen, it was not tried exactly when the secret creator still
      holds the request. */
  lemma PasswordMayBePending(issuerName: string, steps: seq<Step>, s: State)
    requires Reached(issuerName, steps, s) && s.cert.Submitting?
    ensures var job := PasswordJob(s.cert.h, s.cert.i);
            DoneCount(s.log, job) == if s.creator.CreatorBusy? && s.creator.job == job then 0 else 1
  {
    InvReached(issuerName, steps);
    assert Finished(s, PasswordJob(s.cert.h, s.cert.i)) ==
           !(s.creator.CreatorBusy? && s.creator.job == PasswordJob(s.cert.h, s.cert.i));
  }

  /** The act for a finished job, found in the log. */
  lemma {:induction false} DoneIsLogged(log: seq<Event>, job: Job) returns (k: nat)
    requires DoneCount(log, job) > 0
    ensures k < |log| && log[k].Done? && log[k].job == job
  {
    var n := |log| - 1;
    if log[n].Done? && log[n].job == job {
      k := n;
    } else {
      k := DoneIsLogged(log[..n], job);
    }
  }

  /** The jobs that a message stands for. */
  function JobsOf(message: Send, h: nat, i: nat): set<Job> {
    match message
    case ToCreator(_) => {CaJob(h, i)}
    case ToDeleter(_) => {DeletionJob(h, i)}
    case ToCertCreator(_) => {PasswordJob(h, i), CertificateJob(h, i)}
  }

  /** In every interleaving, nothing is carried out twice or without a handler having asked for it, and what is
      carried out is what was asked for. */
  lemma NothingTwice(issuerName: string, steps: seq<Step>)
    requires Runs(Init(issuerName), steps)
    ensures var s := Exec(Init(issuerName), steps);
            && (forall job :: DoneCount(s.log, job) <= 1)
            && (forall k :: 0 <= k < |s.log| && s.log[k].Done? ==> Asked(s, s.log[k].job, s.log[k].act))
  {
    InvReached(issuerName, steps);
  }

  /** Once the program has come to rest, every message of every handler has been carried out exactly once, as it
      was sent: the act at position k of the log. */
  lemma EverythingOnce(issuerName: string, steps: seq<Step>, h: nat, i: nat, job: Job) returns (k: nat)
    requires Runs(Init(issuerName), steps) && Quiescent(Exec(Init(issuerName), steps))
    requires var s := Exec(Init(issuerName), steps);
             h < |s.handlers| && i < |s.handlers[h].script| && job in JobsOf(s.handlers[h].script[i], h, i)
    ensures var s := Exec(Init(issuerName), steps);
            && DoneCount(s.log, job) == 1
            && k < |s.log| && s.log[k].Done? && s.log[k].job == job && Asked(s, job, s.log[k].act)
  {
    InvReached(issuerName, steps);
    var s := Exec(Init(issuerName), steps);
    assert Sent(s, h, i) && Finished(s, job);
    k := DoneIsLogged(s.log, job);
  }
}
