/**
 * What a client can tell from the answers alone: they carry the name of the grammar and the transaction id, so it has
 * to use every id once.
 */
module HeardRuns {
  import opened Bytes
  import opened Grammars
  import opened GrammarSpec
  import opened Ledger
  import opened Messages
  import opened RequestRuns
  import opened Runs

  function HeardIn(t: Ticket): Task -> seq<Status> {
    (task: Task) => if AnswerOf(task) == [t] then [task.msg.status] else []
  }

  /** How requests with those ids were answered, as often as they were. */
  function Heard(sent: seq<Task>, t: Ticket): seq<Status> {
    Concat(HeardIn(t), sent)
  }

  /** A request with those ids is queued. */
  predicate Queueing(s: State, t: Ticket) {
    t.name in s.world.queue && TicketOf(t.name, s.world.queue[t.name]) == t
  }

  /** No request with those ids has been made. */
  ghost predicate Unmade(s: State, t: Ticket) {
    !Queueing(s, t) && Heard(s.world.words.sent, t) == []
  }

  predicate Submits(a: Step, t: Ticket) {
    a.Submit? && TicketOf(a.name, a.req) == t
  }

  /** An unload queued for a disconnected client carries whatever transaction id was in memory; this one happens
      to be that of the request. */
  predicate Drawn(s: State, t: Ticket) {
    Queueing(s, t) && s.world.queue[t.name].Withdraw?
  }

  // -- as long as the client is there to hear it -----------------------------------------------------------

  /** Unloads that nobody asked for are queued only for clients that are gone. */
  ghost predicate WithdrawalsOfTheGone(s: State) {
    forall n :: n in s.world.queue && s.world.queue[n].Withdraw? ==> Gone(s, s.world.queue[n].client)
  }

  predicate Gone(s: State, client: nat) {
    client !in s.clients && client < s.nonce
  }

  lemma GoneStep(s: State, a: Step, s': State)
    requires Moves(s, a, s') && Known(s) && WithdrawalsOfTheGone(s)
    ensures WithdrawalsOfTheGone(s') && forall c :: Gone(s, c) ==> Gone(s', c)
  {
  }

  /** So no such unload is ever taken for a request of a client that is still connected. */
  lemma {:induction false} NeverDrawn(s: State, trace: seq<Moved>, t: Ticket)
    requires Chain(s, trace) && Known(s) && WithdrawalsOfTheGone(s)
    ensures Gone(s, t.client) ==> Gone(Final(s, trace), t.client)
    ensures !Gone(Final(s, trace), t.client) ==> !Drawn(s, t) && forall m :: m in trace ==> !Drawn(m.after, t)
    decreases |trace|
  {
    if trace != [] {
      GoneStep(s, trace[0].step, trace[0].after);
      KnownStep(s, trace[0].step, trace[0].after);
      hide Moves, Known;
      NeverDrawn(trace[0].after, trace[1..], t);
      if !Gone(Final(s, trace), t.client) {
        forall m | m in trace ensures !Drawn(m.after, t) {
          assert m == trace[0] || m in trace[1..];
          assert trace[1..] == [] ==> Final(s, trace) == trace[0].after;
        }
      }
    }
  }

  // -- the one request with those ids ------------------------------------------------------------------------

  predicate Bears(a: Answer, t: Ticket) {
    AnswerOf(a.task) == [t]
  }

  predicate Is(name: string, step: int, t: Ticket, i: int) {
    name == t.name && step == i
  }

  /** What is queued or was answered under the ids is the request that step queued, and nothing else. */
  ghost predicate Sole(s: State, tags: Tags, t: Ticket, i: int) {
    SoleInQueue(s, tags, t, i) && SoleAmong(tags.answers, t, i)
  }

  lemma {:induction false} AnswersAreTo(queue: map<string, Request>, tags: Tags, outcomes: map<string, Outcome>,
                                        order: seq<string>, t: Ticket, i: int)
    requires forall n :: n in queue ==> (TicketOf(n, queue[n]) == t <==> Is(n, Since(tags, n), t, i))
    ensures forall a :: a in Concat(AnswerIn(queue, tags, outcomes), order) ==>
              (Bears(a, t) <==> Is(a.name, a.step, t, i))
  {
    if order != [] {
      AnswersAreTo(queue, tags, outcomes, order[1..], t, i);
    }
  }

  ghost predicate SoleInQueue(s: State, tags: Tags, t: Ticket, i: int) {
    forall n :: n in s.world.queue ==> (TicketOf(n, s.world.queue[n]) == t <==> Is(n, Since(tags, n), t, i))
  }

  ghost predicate SoleAmong(answers: seq<Answer>, t: Ticket, i: int) {
    forall a :: a in answers ==> (Bears(a, t) <==> Is(a.name, a.step, t, i))
  }

  lemma QueueStaysSole(s: State, tags: Tags, a: Step, s': State, t: Ticket, i: int)
    requires Moves(s, a, s') && SoleInQueue(s, tags, t, i) && Past(tags) && i >= 0
    requires (Submits(a, t) <==> tags.now == i) && !Drawn(s', t)
    ensures SoleInQueue(s', Tag(s, tags, a), t, i)
  {
  }

  lemma AnswersStaySole(s: State, tags: Tags, a: Step, t: Ticket, i: int)
    requires SoleInQueue(s, tags, t, i)
    ensures SoleAmong(NewAnswers(s, tags, a), t, i)
  {
    if a.Sync? {
      AnswersAreTo(s.world.queue, tags, a.report.outcomes, a.report.names, t, i);
    }
  }

  lemma SoleStep(s: State, tags: Tags, a: Step, s': State, t: Ticket, i: int)
    requires Moves(s, a, s') && Sole(s, tags, t, i) && Past(tags) && i >= 0
    requires (Submits(a, t) <==> tags.now == i) && !Drawn(s', t)
    ensures Sole(s', Tag(s, tags, a), t, i)
  {
    hide Moves, SoleInQueue, NewAnswers, NewSince, Past, Submits, Drawn;
    QueueStaysSole(s, tags, a, s', t, i);
    AnswersStaySole(s, tags, a, t, i);
  }

  lemma {:induction false} SoleRun(s: State, tags: Tags, trace: seq<Moved>, t: Ticket, i: int)
    requires Chain(s, trace) && Sole(s, tags, t, i) && Past(tags) && i >= 0
    requires forall k :: 0 <= k < |trace| ==> (Submits(trace[k].step, t) <==> tags.now + k == i)
    requires forall m :: m in trace ==> !Drawn(m.after, t)
    ensures Sole(Final(s, trace), TagRun(s, tags, trace), t, i)
    decreases |trace|
  {
    if trace != [] {
      var a, s' := trace[0].step, trace[0].after;
      assert trace[0] in trace;
      SoleStep(s, tags, a, s', t, i);
      PastStep(s, tags, a);
      hide Moves, Drawn, Submits, Sole, Past, NewAnswers, NewSince;
      forall k | 0 <= k < |trace| - 1 ensures Submits(trace[1..][k].step, t) <==> tags.now + 1 + k == i {
        assert trace[1..][k] == trace[k + 1];
      }
      SoleRun(s', Tag(s, tags, a), trace[1..], t, i);
    }
  }

  function StatusIn(task: Task): seq<Status> {
    if AnswerOf(task) == [] then [] else [task.msg.status]
  }

  lemma {:induction false} HeardAmongGrammars(sent: seq<Task>, t: Ticket)
    ensures Heard(sent, t) == Heard(GrammarTasks(sent), t)
  {
    if sent != [] {
      HeardAmongGrammars(sent[1..], t);
      ConcatAppend(HeardIn(t), GrammarTask(sent[0]), GrammarTasks(sent[1..]));
      if AnswerOf(sent[0]) != [] {
        ConcatOne(HeardIn(t), sent[0]);
      }
    }
  }

  lemma {:induction false} HeardIsAnswers(answers: seq<Answer>, t: Ticket, i: int)
    requires forall a :: a in answers ==> (Bears(a, t) <==> Is(a.name, a.step, t, i))
    ensures Heard(TasksOf(answers), t) == Concat(StatusIn, AnswersTo(answers, t.name, i))
  {
    if answers != [] {
      var a := answers[0];
      assert a in answers;
      HeardIsAnswers(answers[1..], t, i);
      ConcatAppend(HeardIn(t), [a.task], TasksOf(answers[1..]));
      ConcatOne(HeardIn(t), a.task);
      ConcatAppend(StatusIn, ToRequest(t.name, i)(a), AnswersTo(answers[1..], t.name, i));
      if Bears(a, t) {
        ConcatOne(StatusIn, a.task);
      }
    }
  }

  /** What a request has been told, given its fate. */
  function FateStatus(fate: Fate, name: string): seq<Status> {
    match fate
    case Replaced => [Skipped]
    case Reached(report) =>
      if name !in report.outcomes then [] else [if report.outcomes[name].errors == [] then Success else Failed]
    case _ => []
  }

  lemma FateTold(fate: Fate, name: string, req: Request)
    ensures Concat(StatusIn, FateTasks(fate, name, req)) == FateStatus(fate, name)
  {
    if FateTasks(fate, name, req) != [] {
      ConcatOne(StatusIn, FateTasks(fate, name, req)[0]);
    }
  }

  lemma SoleStart(s: State, t: Ticket, i: nat)
    requires Unmade(s, t)
    ensures Sole(s, START_TAGS, t, i) && Past(START_TAGS)
  {
  }

  lemma SoleIsQueued(s: State, tags: Tags, t: Ticket, i: int)
    requires Sole(s, tags, t, i)
    ensures Queueing(s, t) <==> Holds(s, tags, t.name, i)
    ensures Heard(TasksOf(tags.answers), t) == Concat(StatusIn, AnswersTo(tags.answers, t.name, i))
  {
    HeardIsAnswers(tags.answers, t, i);
  }

  /**
   * A client that uses a transaction id once, and is still connected, has heard under that id exactly what became of
   * the request: nothing while it is queued or if it was dropped, and otherwise one answer.
   */
  lemma AClientHearsWhatBecame(s: State, trace: seq<Moved>, i: nat, t: Ticket)
    requires Chain(s, trace) && Known(s) && WithdrawalsOfTheGone(s) && Unmade(s, t)
    requires i < |trace| && forall j :: 0 <= j < |trace| ==> (Submits(trace[j].step, t) <==> j == i)
    requires t.client in Final(s, trace).clients
    ensures var fate := FateOf(trace[i].after, trace[i + 1..], t.name);
      && Heard(Final(s, trace).world.words.sent, t) == FateStatus(fate, t.name)
      && (Queueing(Final(s, trace), t) <==> fate.Pending?)
      && (fate.Reached? ==> t.name in fate.report.outcomes)
  {
    var tags, end := TagRun(s, START_TAGS, trace), Final(s, trace);
    NeverDrawn(s, trace, t);
    SoleStart(s, t, i);
    SoleRun(s, START_TAGS, trace, t, i);
    SoleIsQueued(end, tags, t, i);
    EveryRequestMeetsOneFate(s, trace, i);
    FateTold(FateOf(trace[i].after, trace[i + 1..], t.name), t.name, trace[i].step.req);
    EveryAnswerIsToOneRequest(s, trace);
    HeardAmongGrammars(s.world.words.sent, t);
    HeardAmongGrammars(end.world.words.sent, t);
    ConcatAppend(HeardIn(t), GrammarTasks(s.world.words.sent), TasksOf(tags.answers));
  }
}
