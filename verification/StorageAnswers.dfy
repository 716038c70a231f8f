/**
 What the storage component reports is what the service answered. The replies of a run are kept, and every success that
 is counted, every result that is held back and every report is traced to the one reply behind it.
 */
module StorageAnswers {
  import opened Prelude
  import opened StorageSystem
  import opened StorageSystemInvariant
  import opened StorageTypes
  import C = ControllerSpec
  import CD = ControllerDecisions
  import CG = ControllerGuarantees
  import CI = ControllerInvariant
  import R = RefreshProtocol
  import T = StorageSystemTheorems
  import U = UDisksSpec
  import UE = UDisksEffects
  import UI = UDisksInvariant

  /** The reply to the call that was made for a step. */
  datatype Answer = Answer(step: Id, reply: U.OperationReply)

  /** The replies to operation calls that arrive in the run, in order. */
  ghost function Answers(service: string, events: seq<Event>): seq<Answer> {
    if events == [] then []
    else
      var before, e := events[..|events| - 1], events[|events| - 1];
      var s := Run(service, before);
      Answers(service, before) +
      if e.OperationAnswered? && Enabled(s, e) then [Answer(s.backend.operations[e.at].result.requestId, e.reply)] else []
  }

  // ---------------------------------------------------------------- what replies say

  /** The step was answered with success; a mount with the path where the volume is mounted. */
  ghost predicate SucceededWith(answers: seq<Answer>, step: Id, operation: Operation, mountPath: string) {
    exists a :: a in answers && a.step == step && a.reply.Success? && mountPath == if operation == Mount then a.reply.path else ""
  }

  ghost predicate Succeeded(answers: seq<Answer>, step: Id) {
    exists a :: a in answers && a.step == step && a.reply.Success?
  }

  ghost predicate FailedWith(answers: seq<Answer>, step: Id, errorName: string) {
    Answer(step, U.Failure(errorName)) in answers
  }

  /** An error of the component itself. */
  predicate OwnError(errorName: string) {
    "org.holonight.Storage." <= errorName
  }

  /** The result says what the reply to its step said, or that the target is gone. */
  ghost predicate Honest(answers: seq<Answer>, r: Result) {
    if r.errorName == "" then SucceededWith(answers, r.requestId, r.operation, r.mountPath)
    else FailedWith(answers, r.requestId, r.errorName) || OwnError(r.errorName)
  }

  ghost predicate InLog(log: seq<Dispatched>, command: C.Command) {
    exists i :: 0 <= i < |log| && log[i].command == command
  }

  /** The result is about a command that was handed over. */
  ghost predicate Logged(log: seq<Dispatched>, r: Result) {
    InLog(log, C.Command(r.requestId, r.operation, r.targetId))
  }

  // ---------------------------------------------------------------- the invariant

  /** Every success counted was answered so, and every command recorded was handed over. */
  ghost predicate TraceTold(answers: seq<Answer>, log: seq<Dispatched>, t: C.Trace) {
    && t.acked <= |t.sent|
    && (forall k :: 0 <= k < t.acked ==> Succeeded(answers, t.sent[k].stepId))
    && (forall k :: 0 <= k < |t.sent| ==> InLog(log, t.sent[k]))
  }

  predicate AboutPlan(t: C.Trace, operation: Operation, targetId: Id) {
    t.plan != [] && t.plan[|t.plan| - 1] == C.Action(operation, targetId)
  }

  /**
   A report is about what was asked for. Success means that the whole plan was sent and answered with success; an error is
   the component's own or the one that the last command was answered with.
   */
  ghost predicate ResultTold(answers: seq<Answer>, id: Id, r: Result, t: C.Trace) {
    && r.requestId == id && AboutPlan(t, r.operation, r.targetId)
    && if r.errorName == "" then
         && t.acked == |t.sent| == |t.plan|
         && SucceededWith(answers, t.sent[|t.sent| - 1].stepId, r.operation, r.mountPath)
       else
         && r.mountPath == ""
         && (OwnError(r.errorName) || (t.sent != [] && FailedWith(answers, t.sent[|t.sent| - 1].stepId, r.errorName)))
  }

  ghost predicate ControllerTold(c: C.Controller, log: seq<Dispatched>, answers: seq<Answer>) {
    && (forall id :: id in c.traces ==> TraceTold(answers, log, c.traces[id]))
    && (forall id :: id in c.results ==> id in c.traces && ResultTold(answers, id, c.results[id], c.traces[id]))
    && (forall id :: id in c.requests ==>
          id in c.traces && AboutPlan(c.traces[id], c.requests[id].operation, c.requests[id].targetId))
  }

  ghost predicate Backed(log: seq<Dispatched>, answers: seq<Answer>, r: Result) {
    Honest(answers, r) && Logged(log, r)
  }

  ghost predicate CallsTold(operations: map<nat, U.OperationCall>, log: seq<Dispatched>, answers: seq<Answer>) {
    && (forall t :: t in operations ==>
          && Logged(log, operations[t].result) && operations[t].result.errorName == "" && operations[t].result.mountPath == ""
          && forall a :: a in answers ==> a.step != operations[t].result.requestId)
    && (forall t, u :: t in operations && u in operations && t != u ==>
          operations[t].result.requestId != operations[u].result.requestId)
  }

  ghost predicate BackendTold(b: U.Backend, log: seq<Dispatched>, answers: seq<Answer>) {
    && CallsTold(b.operations, log, answers)
    && (forall c :: c in b.completions ==> Backed(log, answers, c.result))
    && (forall r :: r in b.immediate ==> Backed(log, answers, r))
  }

  ghost predicate SignalsTold(rest: seq<U.Signal>, log: seq<Dispatched>, answers: seq<Answer>) {
    forall g :: g in rest && g.OperationFinished? ==> Backed(log, answers, g.result)
  }

  /** Each step was drawn for one command, and is answered once. */
  ghost predicate StepsOnce(minted: set<Id>, log: seq<Dispatched>, answers: seq<Answer>) {
    && (forall i :: 0 <= i < |log| ==> log[i].command.stepId in minted)
    && (forall i, j :: 0 <= i < j < |log| ==> log[i].command.stepId != log[j].command.stepId)
    && (forall a :: a in answers ==> a.step in minted)
    && (forall i, j :: 0 <= i < j < |answers| ==> answers[i].step != answers[j].step)
  }

  ghost predicate Told(s: System, answers: seq<Answer>, rest: seq<U.Signal>) {
    && ControllerTold(s.controller, s.log, answers) && BackendTold(s.backend, s.log, answers)
    && SignalsTold(rest, s.log, answers) && StepsOnce(s.controller.minted, s.log, answers)
  }

  // ---------------------------------------------------------------- moves of the controller

  lemma StillInLog(log: seq<Dispatched>, d: Dispatched)
    ensures InLog(log + [d], d.command) && forall command :: InLog(log, command) ==> InLog(log + [d], command)
  {
    assert (log + [d])[|log|] == d;
    forall command | InLog(log, command) ensures InLog(log + [d], command) {
      var i :| 0 <= i < |log| && log[i].command == command;
      assert (log + [d])[i] == log[i];
    }
  }

  /** One more command in the log leaves everything told. */
  lemma LongerLog(c: C.Controller, b: U.Backend, rest: seq<U.Signal>, log: seq<Dispatched>, d: Dispatched, answers: seq<Answer>)
    requires ControllerTold(c, log, answers) && BackendTold(b, log, answers) && SignalsTold(rest, log, answers)
    ensures ControllerTold(c, log + [d], answers) && BackendTold(b, log + [d], answers) && SignalsTold(rest, log + [d], answers)
  {
    hide InLog, Honest, SucceededWith, Succeeded, FailedWith, ResultTold;
    StillInLog(log, d);
  }

  lemma GivingTells(c: C.Controller, id: Id, name: string, m: C.Move, log: seq<Dispatched>, answers: seq<Answer>)
    requires ControllerTold(c, log, answers) && id in c.requests && CD.Gives(c, id, name, m)
    ensures ControllerTold(m.state, log, answers)
  {
    hide TraceTold, SucceededWith, FailedWith;
    assert "org.holonight.Storage." <= "org.holonight.Storage." + name;
  }

  lemma SendingTells(c: C.Controller, id: Id, step: Id, operation: Operation, targetId: Id, left: seq<Id>, last: bool, m: C.Move,
                     log: seq<Dispatched>, answers: seq<Answer>)
    requires ControllerTold(c, log, answers) && id in c.requests && id in c.traces && id !in c.results
    requires CD.Sends(c, id, step, operation, targetId, left, last, m)
    requires InLog(log, C.Command(step, operation, targetId))
    ensures ControllerTold(m.state, log, answers)
  {
    hide InLog, SucceededWith, FailedWith, Succeeded;
  }

  /** The log after a move. */
  ghost function LogAfter(log: seq<Dispatched>, m: C.Move): seq<Dispatched> {
    if m.command.Some? then log + [Dispatched(m.command.value, m.state)] else log
  }

  lemma AdvancingTells(c: C.Controller, id: Id, step: Id, m: C.Move, b: U.Backend, rest: seq<U.Signal>, log: seq<Dispatched>,
                       answers: seq<Answer>)
    requires ControllerTold(c, log, answers) && BackendTold(b, log, answers) && SignalsTold(rest, log, answers)
    requires id in c.requests && id in c.traces && id !in c.results && CD.AdvancesRight(c, id, step, m)
    ensures ControllerTold(m.state, LogAfter(log, m), answers)
    ensures BackendTold(b, LogAfter(log, m), answers) && SignalsTold(rest, LogAfter(log, m), answers)
    ensures m.command.Some? ==> m.command.value.stepId == step
  {
    hide ControllerTold, BackendTold, SignalsTold, CD.Known, CD.CanDo, C.RemovalScope, CD.Gives;
    SentOrGiven(c, id, step, m);
    if m.command.Some? {
      var d := Dispatched(m.command.value, m.state);
      LongerLog(c, b, rest, log, d, answers);
      StillInLog(log, d);
      var operation, targetId, left, last :| CD.Sends(c, id, step, operation, targetId, left, last, m);
      SendingTells(c, id, step, operation, targetId, left, last, m, log + [d], answers);
    } else {
      var name :| CD.Gives(c, id, name, m);
      GivingTells(c, id, name, m, log, answers);
    }
  }

  lemma SentOrGiven(c: C.Controller, id: Id, step: Id, m: C.Move)
    requires id in c.requests && id in c.traces && CD.AdvancesRight(c, id, step, m)
    ensures m.command == None ==> exists name :: CD.Gives(c, id, name, m)
    ensures m.command.Some? ==>
              exists operation, targetId, left, last :: CD.Sends(c, id, step, operation, targetId, left, last, m)
  {
    hide CD.Known, CD.CanDo, C.RemovalScope;
  }

  /** A step's result moves on the request that awaits it, and what is counted or reported is what was answered. */
  lemma SettlingTells(c: C.Controller, id: Id, result: Result, step: Id, b: U.Backend, rest: seq<U.Signal>, log: seq<Dispatched>,
                      answers: seq<Answer>)
    requires CI.Invariant(c) && id in c.requests && c.requests[id].stepId == result.requestId && result.requestId != ""
    requires c.requests.Keys <= c.traces.Keys
    requires ControllerTold(c, log, answers) && BackendTold(b, log, answers) && SignalsTold(rest, log, answers)
    requires StepsOnce(c.minted, log, answers) && Backed(log, answers, result)
    ensures var m := C.Settle(c, result, step);
            && ControllerTold(m.state, LogAfter(log, m), answers)
            && BackendTold(b, LogAfter(log, m), answers) && SignalsTold(rest, LogAfter(log, m), answers)
            && (m.command.Some? ==> m.command.value.stepId == step)
  {
    hide C.Settle, ControllerTold, BackendTold, SignalsTold, CI.Invariant, CD.AdvancesRight, CD.Reports, Honest, Logged, StepsOnce;
    var m := C.Settle(c, result, step);
    var t, r := c.traces[id], c.requests[id];
    CD.SettleDecides(c, id, result, step);
    AwaitedIsLast(c, id, result, log, answers);
    if result.errorName != "" {
      FailureTells(c, id, result, m, log, answers);
    } else {
      var acked := c.(traces := c.traces[id := t.(acked := t.acked + 1)]);
      AcknowledgingTells(c, id, result, log, answers);
      if r.finalStep {
        LastSuccessTells(acked, id, result, m, log, answers);
      } else {
        var cleared := acked.(requests := c.requests[id := r.(stepId := "")]);
        ClearingTells(acked, id, log, answers);
        AdvancingTells(cleared, id, step, m, b, rest, log, answers);
      }
    }
  }

  /** The result awaited is about the last command sent, which is the whole plan's last one when the step is final. */
  lemma AwaitedIsLast(c: C.Controller, id: Id, result: Result, log: seq<Dispatched>, answers: seq<Answer>)
    requires CI.Invariant(c) && id in c.requests && c.requests[id].stepId == result.requestId && result.requestId != ""
    requires ControllerTold(c, log, answers) && StepsOnce(c.minted, log, answers) && Logged(log, result)
    ensures id in c.traces && id !in c.results
    ensures var t := c.traces[id];
            && t.acked + 1 == |t.sent| && t.sent[t.acked] == C.Command(result.requestId, result.operation, result.targetId)
            && (c.requests[id].finalStep ==> |t.sent| == |t.plan| && result.operation == c.requests[id].operation)
  {
    hide CI.Scopes, CI.Lists, Honest, ResultTold, Succeeded;
    var t := c.traces[id];
    assert CI.Follows(t, c.requests[id], CI.Queued(c, id));
    assert TraceTold(answers, log, t);
    assert InLog(log, t.sent[t.acked]);
    var i :| 0 <= i < |log| && log[i].command == t.sent[t.acked];
    var j :| 0 <= j < |log| && log[j].command == C.Command(result.requestId, result.operation, result.targetId);
    assert i == j;
  }

  lemma FailureTells(c: C.Controller, id: Id, result: Result, m: C.Move, log: seq<Dispatched>, answers: seq<Answer>)
    requires ControllerTold(c, log, answers) && id in c.requests && Honest(answers, result) && result.errorName != ""
    requires c.traces[id].sent != [] && c.traces[id].sent[|c.traces[id].sent| - 1].stepId == result.requestId
    requires CD.Reports(c, id, result.errorName, "", m.state)
    ensures ControllerTold(m.state, log, answers)
  {
    hide TraceTold, SucceededWith, FailedWith;
  }

  lemma AcknowledgingTells(c: C.Controller, id: Id, result: Result, log: seq<Dispatched>, answers: seq<Answer>)
    requires ControllerTold(c, log, answers) && id in c.requests && id !in c.results && Honest(answers, result) && result.errorName == ""
    requires c.traces[id].acked + 1 == |c.traces[id].sent| && c.traces[id].sent[c.traces[id].acked].stepId == result.requestId
    ensures ControllerTold(c.(traces := c.traces[id := c.traces[id].(acked := c.traces[id].acked + 1)]), log, answers)
  {
    hide InLog, FailedWith;
  }

  lemma ClearingTells(c: C.Controller, id: Id, log: seq<Dispatched>, answers: seq<Answer>)
    requires ControllerTold(c, log, answers) && id in c.requests
    ensures ControllerTold(c.(requests := c.requests[id := c.requests[id].(stepId := "")]), log, answers)
  {
    hide TraceTold, ResultTold;
  }

  lemma LastSuccessTells(c: C.Controller, id: Id, result: Result, m: C.Move, log: seq<Dispatched>, answers: seq<Answer>)
    requires ControllerTold(c, log, answers) && id in c.requests && Honest(answers, result) && result.errorName == ""
    requires var t := c.traces[id];
             t.acked == |t.sent| == |t.plan| && t.sent[|t.sent| - 1].stepId == result.requestId && result.operation == c.requests[id].operation
    requires CD.Reports(c, id, "", result.mountPath, m.state)
    ensures ControllerTold(m.state, log, answers)
  {
    hide TraceTold, SucceededWith, FailedWith;
  }

  lemma BeginningTells(c: C.Controller, id: Id, operation: Operation, targetId: Id, confirmed: seq<Id>, log: seq<Dispatched>,
                       answers: seq<Answer>)
    requires CI.Invariant(c) && id !in c.minted && ControllerTold(c, log, answers)
    ensures ControllerTold(C.Begin(c, id, operation, targetId, confirmed), log, answers)
    ensures C.Begin(c, id, operation, targetId, confirmed).minted == c.minted + {id}
  {
    hide CI.Invariant, C.Begin, TraceTold, ResultTold;
    NewToAll(c, id);
    Begun(c, id, operation, targetId, confirmed);
    var c' := C.Begin(c, id, operation, targetId, confirmed);
    NothingSentTold(log, answers, c'.traces[id]);
  }

  lemma NothingSentTold(log: seq<Dispatched>, answers: seq<Answer>, t: C.Trace)
    requires t.sent == [] && t.acked == 0
    ensures TraceTold(answers, log, t)
  {}

  lemma Begun(c: C.Controller, id: Id, operation: Operation, targetId: Id, confirmed: seq<Id>)
    requires CI.Invariant(c) && id !in c.requests
    ensures var c' := C.Begin(c, id, operation, targetId, confirmed);
            && id in c'.requests && id in c'.traces && c'.traces[id].sent == [] && c'.traces[id].acked == 0
            && AboutPlan(c'.traces[id], c'.requests[id].operation, c'.requests[id].targetId)
            && c'.requests == c.requests[id := c'.requests[id]] && c'.traces == c.traces[id := c'.traces[id]]
            && c'.results == c.results && c'.minted == c.minted + {id}
  {
    CD.BeginDecides(c, id, operation, targetId, confirmed);
    hide C.Begin, CI.Scopes, CI.Conserved, CI.Traced, CI.Identifiers, CD.Affects, CD.Refuses, CD.InListOrder;
  }

  lemma NewToAll(c: C.Controller, id: Id)
    requires CI.Invariant(c) && id !in c.minted
    ensures id !in c.requests && id !in c.traces && id !in c.results
  {}

  lemma WithdrawingTells(c: C.Controller, log: seq<Dispatched>, answers: seq<Answer>)
    requires ControllerTold(c, log, answers) && forall id :: id in c.requests ==> id !in c.results
    ensures ControllerTold(C.TakeSnapshot(c, [], [], false), log, answers)
    ensures C.TakeSnapshot(c, [], [], false).minted == c.minted
  {
    CD.WithdrawalDecides(c, [], []);
    hide C.TakeSnapshot, TraceTold, SucceededWith, FailedWith;
    assert "org.holonight.Storage." <= "org.holonight.Storage." + "Unavailable";
  }

  lemma ShowingTells(c: C.Controller, drives: seq<Drive>, volumes: seq<Volume>, log: seq<Dispatched>, answers: seq<Answer>)
    requires ControllerTold(c, log, answers)
    ensures ControllerTold(C.TakeSnapshot(c, drives, volumes, true), log, answers)
    ensures C.TakeSnapshot(c, drives, volumes, true).minted == c.minted
  {
    hide TraceTold, ResultTold;
  }

  /** The callback of a begun request: the refusal is reported, or the first command sent. */
  lemma DequeuingTells(c: C.Controller, id: Id, step: Id, b: U.Backend, log: seq<Dispatched>, answers: seq<Answer>)
    requires CI.Invariant(c) && id in c.queued
    requires ControllerTold(c, log, answers) && BackendTold(b, log, answers)
    ensures var m := C.Dequeue(c, id, step);
            && ControllerTold(m.state, LogAfter(log, m), answers) && BackendTold(b, LogAfter(log, m), answers)
            && (m.command.Some? ==> m.command.value.stepId == step)
  {
    hide C.Dequeue, BackendTold, CI.Scopes, CI.Lists, CI.Traced, CI.Identifiers, CD.AdvancesRight, CD.Gives, TraceTold, ResultTold;
    assert CI.Lists(c);
    CD.DequeueDecides(c, id, step);
    var m, c' := C.Dequeue(c, id, step), c.(queued := c.queued - {id});
    assert ControllerTold(c', log, answers);
    if id in c.requests {
      assert id !in c.results;
      if c.queued[id] != "" {
        GivingTells(c', id, c.queued[id], m, log, answers);
        GivenNothing(c', id, c.queued[id], m);
      } else {
        NoSignalsTold(log, answers);
        AdvancingTells(c', id, step, m, b, [], log, answers);
      }
    }
  }

  lemma GivenNothing(c: C.Controller, id: Id, name: string, m: C.Move)
    requires id in c.requests && CD.Gives(c, id, name, m)
    ensures m.command == None
  {}

  lemma NoSignalsTold(log: seq<Dispatched>, answers: seq<Answer>)
    ensures SignalsTold([], log, answers)
  {}

  // ---------------------------------------------------------------- the backend

  /** Handing a command over: the call or the failure is about it. */
  lemma ExecutingTells(b: U.Backend, command: C.Command, log: seq<Dispatched>, answers: seq<Answer>)
    requires BackendTold(b, log, answers) && InLog(log, command)
    requires forall t :: t in b.operations ==> b.operations[t].result.requestId != command.stepId
    requires forall a :: a in answers ==> a.step != command.stepId
    ensures BackendTold(U.Execute(b, command.stepId, command.operation, command.targetId), log, answers)
  {
    UE.ExecuteDecides(b, command.stepId, command.operation, command.targetId);
    var b' := U.Execute(b, command.stepId, command.operation, command.targetId);
    var gone := Result(command.stepId, command.targetId, command.operation, "", "org.holonight.Storage." + "Disappeared");
    assert command == C.Command(command.stepId, command.operation, command.targetId);
    assert "org.holonight.Storage." <= gone.errorName;
    hide U.Execute, InLog, SucceededWith, FailedWith;
    if b'.operations == b.operations {
      hide CallsTold;
      assert Backed(log, answers, gone);
    } else {
      hide Backed;
      CallsStayTold(b.operations, b.refresh.clock, b'.operations[b.refresh.clock], log, answers);
    }
  }

  lemma CallsStayTold(operations: map<nat, U.OperationCall>, t: nat, call: U.OperationCall, log: seq<Dispatched>, answers: seq<Answer>)
    requires CallsTold(operations, log, answers) && Logged(log, call.result)
    requires call.result.errorName == "" && call.result.mountPath == ""
    requires forall u :: u in operations ==> operations[u].result.requestId != call.result.requestId
    requires forall a :: a in answers ==> a.step != call.result.requestId
    ensures CallsTold(operations[t := call], log, answers)
  {
    hide Logged;
  }

  lemma RecheckedStaysBacked(log: seq<Dispatched>, answers: seq<Answer>, r: Result, result: Result, ids: map<U.Key, Id>)
    requires Backed(log, answers, result) && UE.Rechecked(r, result, ids)
    ensures Backed(log, answers, r)
  {
    assert "org.holonight.Storage." <= "org.holonight.Storage." + "Disappeared";
  }

  /** A reply arrives: it is kept, and if it is not stale, what is held back says what it says. */
  lemma AnsweringTells(b: U.Backend, t: nat, reply: U.OperationReply, log: seq<Dispatched>, answers: seq<Answer>)
    requires BackendTold(b, log, answers) && t in b.operations && (reply.Failure? ==> reply.errorName != "")
    ensures BackendTold(U.OperationAnswered(b, t, reply), log, answers + [Answer(b.operations[t].result.requestId, reply)])
  {
    var call := b.operations[t];
    var more := answers + [Answer(call.result.requestId, reply)];
    MoreAnswers(b, log, answers, Answer(call.result.requestId, reply));
    UE.OperationReplyDecides(b, t, reply);
    if call.generation == b.refresh.generation {
      var said, held :| UE.Says(said, call, reply) && UE.Rechecked(held, said, b.ids)
                        && U.OperationAnswered(b, t, reply).completions == b.completions + [U.Completion(held, b.refresh.clock)];
      SaidIsBacked(call, reply, said, log, more);
      RecheckedStaysBacked(log, more, held, said, b.ids);
    }
    hide U.OperationAnswered, Backed, Logged, UE.Says, UE.Rechecked;
  }

  lemma SaidIsBacked(call: U.OperationCall, reply: U.OperationReply, said: Result, log: seq<Dispatched>, answers: seq<Answer>)
    requires UE.Says(said, call, reply) && (reply.Failure? ==> reply.errorName != "") && Logged(log, call.result)
    requires call.result.errorName == "" && call.result.mountPath == "" && Answer(call.result.requestId, reply) in answers
    ensures Backed(log, answers, said)
  {}

  /** One more answer takes nothing back; calls other than the one answered stay unanswered. */
  lemma MoreAnswers(b: U.Backend, log: seq<Dispatched>, answers: seq<Answer>, a: Answer)
    requires BackendTold(b, log, answers)
    ensures forall r :: Backed(log, answers, r) ==> Backed(log, answers + [a], r)
    ensures forall t :: t in b.operations && b.operations[t].result.requestId == a.step ==>
              CallsTold(b.operations - {t}, log, answers + [a])
  {
    forall r | Backed(log, answers, r) ensures Backed(log, answers + [a], r) {
      MoreBacks(log, answers, a, r);
    }
    hide Logged;
  }

  lemma MoreBacks(log: seq<Dispatched>, answers: seq<Answer>, a: Answer, r: Result)
    requires Backed(log, answers, r)
    ensures Backed(log, answers + [a], r)
  {
    if r.errorName == "" {
      var x :| x in answers && x.step == r.requestId && x.reply.Success? && r.mountPath == if r.operation == Mount then x.reply.path else "";
      assert x in answers + [a];
    }
  }

  lemma MoreAnswersTell(c: C.Controller, log: seq<Dispatched>, answers: seq<Answer>, a: Answer)
    requires ControllerTold(c, log, answers)
    ensures ControllerTold(c, log, answers + [a])
  {
    forall step | Succeeded(answers, step) ensures Succeeded(answers + [a], step) {
      var x :| x in answers && x.step == step && x.reply.Success?;
      assert x in answers + [a];
    }
    forall step, operation, path | SucceededWith(answers, step, operation, path) ensures SucceededWith(answers + [a], step, operation, path) {
      var x :| x in answers && x.step == step && x.reply.Success? && path == if operation == Mount then x.reply.path else "";
      assert x in answers + [a];
    }
    hide Succeeded, SucceededWith, InLog;
  }

  // ---------------------------------------------------------------- every event

  /** A move handed over under a fresh step keeps everything told. */
  lemma PerformingTells(s: System, m: C.Move, step: Id, answers: seq<Answer>, rest: seq<U.Signal>)
    requires ControllerTold(m.state, LogAfter(s.log, m), answers)
    requires BackendTold(s.backend, LogAfter(s.log, m), answers) && SignalsTold(rest, LogAfter(s.log, m), answers)
    requires StepsOnce(s.controller.minted, s.log, answers) && StepsKnown(s.controller.minted, s.backend, rest)
    requires m.command.Some? ==> m.command.value.stepId == step && step !in s.controller.minted
    requires s.controller.minted <= m.state.minted && (m.command.Some? ==> step in m.state.minted)
    ensures Told(Perform(s, m), answers, rest)
  {
    hide ControllerTold, SignalsTold, BackendTold;
    if m.command.Some? {
      var command := m.command.value;
      StillInLog(s.log, Dispatched(command, m.state));
      ExecutingTells(s.backend, command, LogAfter(s.log, m), answers);
    }
  }

  lemma ResultTells(s: System, result: Result, step: Id, answers: seq<Answer>, rest: seq<U.Signal>)
    requires InvariantDuring(s, [U.OperationFinished(result)] + rest) && Told(s, answers, [U.OperationFinished(result)] + rest)
    requires step != "" && step !in s.controller.minted
    ensures Told(Handle(s, U.OperationFinished(result), step), answers, rest)
  {
    hide CI.Scopes, CI.Conserved, CI.Traced, CI.Lists, UI.Invariant, Linked, StaleCallsRetired, LogJustified, StepsOnce,
         ControllerTold, BackendTold, C.Settle, Backed;
    var signals := [U.OperationFinished(result)] + rest;
    assert U.OperationFinished(result) in signals && forall g :: g in rest ==> g in signals;
    var c, m := s.controller, C.Settle(s.controller, result, step);
    assert result.requestId in c.minted && result.requestId != "";
    SettleAccounts(c, result, step);
    FewerSignalsKnown(c.minted, s.backend, U.OperationFinished(result), rest);
    if id :| id in c.requests && c.requests[id].stepId == result.requestId {
      SettlingTells(c, id, result, step, s.backend, rest, s.log, answers);
    } else {
      CD.NobodyAwaits(c, result, step);
    }
    PerformingTells(s, m, step, answers, rest);
  }

  lemma {:induction false} SignalsTell(s: System, signals: seq<U.Signal>, steps: seq<Id>, answers: seq<Answer>)
    requires |steps| == |signals| && InvariantDuring(s, signals) && FreshSteps(s.controller, steps) && Told(s, answers, signals)
    requires forall g :: g in signals && g.SnapshotChanged? ==> g.available
    ensures Told(HandleAll(s, signals, steps), answers, [])
    decreases |signals|
  {
    hide InvariantDuring, ControllerTold, BackendTold, StepsOnce;
    if signals == [] {
    } else {
      assert signals == [signals[0]] + signals[1..] && signals[0] in signals;
      RequestsTraced(s, signals);
      var s' := Handle(s, signals[0], steps[0]);
      match signals[0] {
        case SnapshotChanged(drives, volumes, available) =>
          SnapshotHandled(s, drives, volumes, steps[0], signals[1..]);
          ShowingTells(s.controller, drives, volumes, s.log, answers);
        case OperationFinished(result) =>
          ResultHandled(s, result, steps[0], signals[1..]);
          ResultTells(s, result, steps[0], answers, signals[1..]);
      }
      assert FreshSteps(s'.controller, steps[1..]);
      SignalsTell(s', signals[1..], steps[1..], answers);
    }
  }

  lemma RequestsTraced(s: System, rest: seq<U.Signal>)
    requires InvariantDuring(s, rest)
    ensures s.controller.requests.Keys <= s.controller.traces.Keys
    ensures forall id :: id in s.controller.requests ==> id !in s.controller.results
  {}

  lemma ControllerEventTells(s: System, e: Event, answers: seq<Answer>)
    requires Invariant(s) && Told(s, answers, []) && Enabled(s, e) && (e.Begin? || e.Dequeue?)
    ensures Told(Step(s, e), answers, [])
  {
    hide CI.Scopes, CI.Conserved, CI.Traced, CI.Lists, CI.Identifiers, UI.Invariant, Linked, StaleCallsRetired, LogJustified,
         ControllerTold, BackendTold, C.Begin, C.Dequeue;
    RequestsTraced(s, []);
    match e {
      case Begin(id, operation, targetId, confirmed) =>
        BeginningTells(s.controller, id, operation, targetId, confirmed, s.log, answers);
      case Dequeue(id, step) =>
        assert FreshSteps(s.controller, [step]) && [step][0] == step;
        DequeueAccounts(s.controller, id, step);
        DequeuingTells(s.controller, id, step, s.backend, s.log, answers);
        NoSignalsTold(LogAfter(s.log, C.Dequeue(s.controller, id, step)), answers);
        PerformingTells(s, C.Dequeue(s.controller, id, step), step, answers, []);
    }
  }

  /** The backend forgets held results or keeps them, and calls in flight and failures queued stay. */
  predicate SameCalls(b: U.Backend, b': U.Backend) {
    && b'.operations == b.operations && b'.immediate == b.immediate
    && (b'.completions == b.completions || b'.completions == [])
  }

  lemma FewerHeldTold(b: U.Backend, b': U.Backend, log: seq<Dispatched>, answers: seq<Answer>)
    requires BackendTold(b, log, answers) && SameCalls(b, b')
    ensures BackendTold(b', log, answers)
  {
    hide CallsTold, Backed;
  }

  lemma WithdrawTells(s: System, m: U.Outcome, answers: seq<Answer>)
    requires Invariant(s) && Told(s, answers, []) && SameCalls(s.backend, m.state) && (m.signals == [] || m.signals == [U.WITHDRAWN])
    ensures Told(Withdraw(s, m), answers, [])
  {
    hide InvariantDuring, ControllerTold, BackendTold, StepsOnce, C.TakeSnapshot, SignalsTold;
    RequestsTraced(s, []);
    FewerHeldTold(s.backend, m.state, s.log, answers);
    WithdrawingTells(s.controller, s.log, answers);
  }

  lemma BackendEventTells(s: System, e: Event, answers: seq<Answer>)
    requires Invariant(s) && Told(s, answers, []) && Enabled(s, e)
    requires e.Start? || e.SomethingChanged? || e.InterfacesRemoved? || e.NameAnswered? || e.OwnerChanged? || e.Stop?
    ensures Told(Step(s, e), answers, [])
  {
    hide Invariant, ControllerTold, BackendTold, StepsOnce, SignalsTold, R.Changed, R.SetOwner, R.Stop;
    match e {
      case NameAnswered(generation, reply) => WithdrawTells(s, U.NameAnswered(s.backend, generation, reply), answers);
      case OwnerChanged(owner) => WithdrawTells(s, U.OwnerChanged(s.backend, owner), answers);
      case Stop => WithdrawTells(s, U.Stop(s.backend), answers);
      case _ => FewerHeldTold(s.backend, Step(s, e).backend, s.log, answers);
    }
  }

  /** What is delivered says what was held back. */
  lemma DeliveriesTold(b: U.Backend, t: nat, reply: Option<seq<U.Object>>, uuids: map<U.Key, Id>, log: seq<Dispatched>, answers: seq<Answer>)
    requires t in b.refresh.calls && (reply.Some? ==> uuids.Keys == U.Live(reply.value) - b.ids.Keys)
    requires BackendTold(b, log, answers)
    ensures var m := U.Answered(b, t, reply, uuids); SameCalls(b, m.state) && SignalsTold(m.signals, log, answers)
  {
    hide CallsTold, Backed, UE.ShowsReply, UE.TableNames, UE.Rechecked;
    UE.SnapshotReplyDecides(b, t, reply, uuids);
    var m := U.Answered(b, t, reply, uuids);
    if UE.Usable(b.refresh, t) && reply.Some? {
      forall g | g in m.signals && g.OperationFinished? ensures Backed(log, answers, g.result) {
        var i :| 0 <= i < |m.signals| && m.signals[i] == g;
        assert b.completions[i - 1] in b.completions;
        RecheckedStaysBacked(log, answers, g.result, b.completions[i - 1].result, m.state.ids);
      }
    }
    hide U.Answered;
  }

  lemma SnapshotTells(s: System, e: Event, answers: seq<Answer>)
    requires Invariant(s) && Told(s, answers, []) && Enabled(s, e) && e.SnapshotAnswered?
    ensures Told(Step(s, e), answers, [])
  {
    hide InvariantDuring, ControllerTold, BackendTold, StepsOnce, SignalsTold, U.Answered;
    assert e.objects.Some? ==> e.uuids.Keys == U.Live(e.objects.value) - s.backend.ids.Keys;
    var m := U.Answered(s.backend, e.at, e.objects, e.uuids);
    var s' := s.(backend := m.state);
    DeliveriesTold(s.backend, e.at, e.objects, e.uuids, s.log, answers);
    FewerHeldTold(s.backend, m.state, s.log, answers);
    RequestsTraced(s, []);
    if R.VerdictOn(s.backend.refresh, e.at, e.objects.Some?).Failed? {
      FailureWithdraws(s.backend, e.at, e.uuids);
      WithdrawingTells(s.controller, s.log, answers);
      assert HandleAll(s', m.signals, e.steps) == Handle(s', m.signals[0], e.steps[0]);
      NoSignalsTold(s.log, answers);
    } else {
      PublicationLinks(s, e.at, e.objects, e.uuids);
      PublicationIsAvailable(s.backend, e.at, e.objects, e.uuids);
      SignalsTell(s', m.signals, e.steps, answers);
    }
  }

  lemma FailureWithdraws(b: U.Backend, t: nat, uuids: map<U.Key, Id>)
    requires t in b.refresh.calls && R.VerdictOn(b.refresh, t, false).Failed?
    ensures U.Answered(b, t, None, uuids).signals == [U.WITHDRAWN]
  {}

  /** The answers after an event. */
  ghost function AnswersAfter(s: System, e: Event, answers: seq<Answer>): seq<Answer> {
    answers + if e.OperationAnswered? && Enabled(s, e) then [Answer(s.backend.operations[e.at].result.requestId, e.reply)] else []
  }

  lemma OperationReplyTells(s: System, t: nat, reply: U.OperationReply, answers: seq<Answer>)
    requires Invariant(s) && Told(s, answers, []) && Enabled(s, OperationAnswered(t, reply))
    ensures Told(Step(s, OperationAnswered(t, reply)), AnswersAfter(s, OperationAnswered(t, reply), answers), [])
  {
    hide CI.Invariant, UI.Invariant, Linked, StaleCallsRetired, LogJustified, ControllerTold, BackendTold, U.OperationAnswered;
    var answer := Answer(s.backend.operations[t].result.requestId, reply);
    MoreAnswersTell(s.controller, s.log, answers, answer);
    AnsweringTells(s.backend, t, reply, s.log, answers);
    NoSignalsTold(s.log, answers + [answer]);
    OnlyOnce(s.backend, s.log, answers, t);
  }

  lemma OnlyOnce(b: U.Backend, log: seq<Dispatched>, answers: seq<Answer>, t: nat)
    requires BackendTold(b, log, answers) && t in b.operations
    ensures forall a :: a in answers ==> a.step != b.operations[t].result.requestId
  {}

  lemma ExpireTells(s: System, result: Result, step: Id, answers: seq<Answer>)
    requires Invariant(s) && Told(s, answers, []) && Enabled(s, Expire(result, step))
    ensures Told(Step(s, Expire(result, step)), answers, [])
  {
    hide CI.Invariant, CG.Retired, CG.Justified, R.Invariant, UI.IdsSound, ControllerTold, CallsTold, StepsOnce, Backed;
    var m := U.Expire(s.backend, result);
    ExpireOwes(s.backend, result);
    assert forall g :: g in m.signals ==> g == U.OperationFinished(result);
    hide Owed;
    SignalsTell(s.(backend := m.state), m.signals, [step], answers);
  }

  lemma StepTells(s: System, e: Event, answers: seq<Answer>)
    requires Invariant(s) && Told(s, answers, [])
    ensures Told(Step(s, e), AnswersAfter(s, e, answers), [])
  {
    hide Invariant, Told;
    assert answers + [] == answers;
    if Enabled(s, e) {
      match e {
        case Begin(_, _, _, _) => ControllerEventTells(s, e, answers);
        case Dequeue(_, _) => ControllerEventTells(s, e, answers);
        case SnapshotAnswered(_, _, _, _) => SnapshotTells(s, e, answers);
        case OperationAnswered(t, reply) => OperationReplyTells(s, t, reply, answers);
        case Expire(result, step) => ExpireTells(s, result, step, answers);
        case _ => BackendEventTells(s, e, answers);
      }
    }
    hide Step, Enabled;
  }

  lemma {:induction false} EveryRunTells(service: string, events: seq<Event>)
    ensures Told(Run(service, events), Answers(service, events), [])
  {
    hide Step, Told, Enabled;
    if events == [] {
      InitiallyTold(service);
    } else {
      var before, e := events[..|events| - 1], events[|events| - 1];
      EveryRunTells(service, before);
      T.EveryRunKeepsInvariant(service, before);
      StepTells(Run(service, before), e, Answers(service, before));
    }
  }

  lemma InitiallyTold(service: string)
    ensures Told(Run(service, []), Answers(service, []), [])
  {}

  // ---------------------------------------------------------------- what that means

  /** In every run: no step is answered twice, so "the reply to a step" is one reply. */
  lemma StepsAreAnsweredOnce(service: string, events: seq<Event>, i: nat, j: nat)
    requires i < |Answers(service, events)| && j < |Answers(service, events)|
    requires Answers(service, events)[i].step == Answers(service, events)[j].step
    ensures i == j
  {
    EveryRunTells(service, events);
  }

  /** In every run: what a request counts as done was answered with success, and never a step answered with an error. */
  lemma CountedStepsSucceeded(service: string, events: seq<Event>, id: Id, k: nat)
    requires id in Run(service, events).controller.traces && k < Run(service, events).controller.traces[id].acked
    ensures var t := Run(service, events).controller.traces[id];
            && k < |t.sent|
            && (exists path :: Answer(t.sent[k].stepId, U.Success(path)) in Answers(service, events))
            && (forall errorName :: Answer(t.sent[k].stepId, U.Failure(errorName)) !in Answers(service, events))
  {
    EveryRunTells(service, events);
    var answers, t := Answers(service, events), Run(service, events).controller.traces[id];
    assert TraceTold(answers, Run(service, events).log, t);
    assert Succeeded(answers, t.sent[k].stepId);
    var a :| a in answers && a.step == t.sent[k].stepId && a.reply.Success?;
    assert a == Answer(t.sent[k].stepId, U.Success(a.reply.path));
    var i :| 0 <= i < |answers| && answers[i] == a;
    forall j | 0 <= j < |answers| && answers[j].step == a.step ensures answers[j] == a {
      assert i == j;
    }
  }

  /**
   In every run: a report is about what was asked for. It says success only if every action of the plan was sent and its
   last one answered with success, for a mount with the mount path reported; any other error name than the component's
   own is the one that the last command was answered with.
   */
  lemma ReportsSayWhatWasAnswered(service: string, events: seq<Event>, id: Id)
    requires id in Run(service, events).controller.results
    ensures var c, answers := Run(service, events).controller, Answers(service, events);
            && id in c.traces
            && var r, t := c.results[id], c.traces[id];
            && r.requestId == id && t.plan != [] && t.plan[|t.plan| - 1] == C.Action(r.operation, r.targetId)
            && (r.errorName == "" ==>
                  && t.acked == |t.sent| == |t.plan|
                  && exists path :: Answer(t.sent[|t.sent| - 1].stepId, U.Success(path)) in answers
                                    && r.mountPath == if r.operation == Mount then path else "")
            && (r.errorName != "" ==>
                  && r.mountPath == ""
                  && ("org.holonight.Storage." <= r.errorName
                      || (t.sent != [] && Answer(t.sent[|t.sent| - 1].stepId, U.Failure(r.errorName)) in answers)))
  {
    hide Run, Answers, ResultTold;
    EveryRunTells(service, events);
    var c, answers := Run(service, events).controller, Answers(service, events);
    ToldMeans(answers, id, c.results[id], c.traces[id]);
  }

  lemma ToldMeans(answers: seq<Answer>, id: Id, r: Result, t: C.Trace)
    requires ResultTold(answers, id, r, t)
    ensures r.requestId == id && t.plan != [] && t.plan[|t.plan| - 1] == C.Action(r.operation, r.targetId)
    ensures r.errorName == "" ==>
              && t.acked == |t.sent| == |t.plan|
              && exists path :: Answer(t.sent[|t.sent| - 1].stepId, U.Success(path)) in answers
                                && r.mountPath == if r.operation == Mount then path else ""
    ensures r.errorName != "" ==>
              && r.mountPath == ""
              && ("org.holonight.Storage." <= r.errorName
                  || (t.sent != [] && Answer(t.sent[|t.sent| - 1].stepId, U.Failure(r.errorName)) in answers))
  {
    if r.errorName == "" {
      var step := t.sent[|t.sent| - 1].stepId;
      var a :| a in answers && a.step == step && a.reply.Success? && r.mountPath == if r.operation == Mount then a.reply.path else "";
      assert a == Answer(step, U.Success(a.reply.path));
    }
  }

  /** In every run: a result held back says what the reply to its call said, or that the mounted volume is gone. */
  lemma HeldResultsSayWhatWasAnswered(service: string, events: seq<Event>, c: U.Completion)
    requires c in Run(service, events).backend.completions
    ensures var answers := Answers(service, events);
            if c.result.errorName == "" then
              exists path :: Answer(c.result.requestId, U.Success(path)) in answers
                             && c.result.mountPath == if c.result.operation == Mount then path else ""
            else
              Answer(c.result.requestId, U.Failure(c.result.errorName)) in answers || "org.holonight.Storage." <= c.result.errorName
  {
    EveryRunTells(service, events);
    var answers := Answers(service, events);
    assert Backed(Run(service, events).log, answers, c.result);
    if c.result.errorName == "" {
      var a :| a in answers && a.step == c.result.requestId && a.reply.Success?
               && c.result.mountPath == if c.result.operation == Mount then a.reply.path else "";
      assert a == Answer(c.result.requestId, U.Success(a.reply.path));
    }
    hide Run, Answers;
  }
}
