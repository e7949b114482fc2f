/** What the answers of a synchronisation tell: the calls that failed, one by one. */
module AnswerRuns {
  import opened Bytes
  import opened EngineModel
  import opened Grammars
  import opened GrammarSpec
  import opened Ledger
  import opened Messages
  import opened RequestRuns
  import opened Runs
  import opened WishRuns
  import opened Words

  /** An error as it is told for a failed call: its return code, and what the call was for. */
  predicate Tells(e: GrammarError, name: string, c: Call) {
    match c
    case LoadGrammar(rc) => e == GrammarError(LoadFailed, rc, name)
    case Register(_, kind, rc) => e == GrammarError(CallbackFailed(kind), rc, name)
    case Activate(_, rule, rc) => e == GrammarError(ActivateFailed, rc, rule)
    case Deactivate(_, rule, rc) => e == GrammarError(DeactivateFailed, rc, rule)
    case SetList(_, list, rc) => e == GrammarError(ListFailed, rc, list)
    case _ => false
  }

  /** The failed load, registration, rule and list calls, in the order they were made. */
  function FailedCalls(calls: seq<Call>): seq<Call> {
    if calls == [] then []
    else
      var c := calls[0];
      (if (c.LoadGrammar? || c.Register? || c.Activate? || c.Deactivate? || c.SetList?) && c.rc != 0 then [c] else [])
      + FailedCalls(calls[1..])
  }

  ghost predicate TellsAll(errors: seq<GrammarError>, name: string, failed: seq<Call>) {
    |errors| == |failed| && forall i :: 0 <= i < |errors| ==> Tells(errors[i], name, failed[i])
  }

  lemma {:induction false} ErrorsTell(name: string, calls: seq<Call>)
    ensures TellsAll(Concat(ErrorsOf(name), calls), name, FailedCalls(calls))
  {
    if calls != [] {
      ErrorsTell(name, calls[1..]);
    }
  }

  lemma StillQueued(s: State, a: Step, s': State, name: string)
    requires Moves(s, a, s') && name in s.world.queue && StepFate(s, a, name).Pending?
    ensures name in s'.world.queue && s'.world.queue[name] == s.world.queue[name]
  {
  }

  lemma SyncTells(s: State, report: SyncReport, s': State, name: string)
    requires Moves(s, Sync(report), s') && name in s.world.queue
    ensures name in report.outcomes
    ensures var req, o := s.world.queue[name], report.outcomes[name];
      if req.Set? then TellsAll(o.errors, name, FailedCalls(o.calls)) else o.errors == []
  {
    var r, queue, r' := s.world.registry, s.world.queue, s'.world.registry;
    SyncedIsQueueStep(s.world.words, r, queue, report, s'.world.words, r');
    assert NameSettled(r, name, queue[name], report.outcomes[name], r');
    ErrorsTell(name, report.outcomes[name].calls);
  }

  lemma {:induction false} FateTells(s: State, trace: seq<Moved>, name: string)
    requires Chain(s, trace) && name in s.world.queue && FateOf(s, trace, name).Reached?
    ensures var req, report := s.world.queue[name], FateOf(s, trace, name).report;
      && name in report.outcomes
      && var o := report.outcomes[name];
         if req.Set? then TellsAll(o.errors, name, FailedCalls(o.calls)) else o.errors == []
    decreases |trace|
  {
    if trace != [] {
      var a, s' := trace[0].step, trace[0].after;
      if a.Sync? {
        SyncTells(s, a.report, s', name);
      } else {
        StillQueued(s, a, s', name);
        hide Moves, TellsAll;
        FateTells(s', trace[1..], name);
      }
    }
  }

  lemma QueuedBySubmit(s: State, a: Step, s': State)
    requires Moves(s, a, s') && a.Submit?
    ensures a.name in s'.world.queue && s'.world.queue[a.name] == a.req
  {
  }

  /**
   * What a request is told when a synchronisation has reached it, over every run: one answer, to its client and under
   * its transaction id, with one error for each load, registration, rule or list call for it that failed, in the
   * order of the calls, and "success" if and only if none did. An unload is told "success" whatever happened.
   */
  lemma ARequestIsToldItsFailures(s: State, trace: seq<Moved>, i: nat)
    requires Chain(s, trace) && i < |trace| && trace[i].step.Submit?
    requires FateOf(trace[i].after, trace[i + 1..], trace[i].step.name).Reached?
    ensures var name, req, report := trace[i].step.name, trace[i].step.req,
        FateOf(trace[i].after, trace[i + 1..], trace[i].step.name).report;
      var told := AnswersTo(TagRun(s, START_TAGS, trace).answers, name, i);
      && name in report.outcomes && |told| == 1
      && told[0].Send? && told[0].client == req.client && told[0].tid == req.tid
      && told[0].msg.GrammarResult? && told[0].msg.name == name
      && var errors := told[0].msg.grammarErrors;
         && told[0].msg.status == (if errors == [] then Success else Failed)
         && (req.Set? ==> TellsAll(errors, name, FailedCalls(report.outcomes[name].calls)))
         && (!req.Set? ==> errors == [])
  {
    var name := trace[i].step.name;
    MovesAt(s, trace, i);
    QueuedBySubmit(Final(s, trace[..i]), trace[i].step, trace[i].after);
    hide Moves, TellsAll, FateOf, TagRun, AnswersTo;
    ChainSplit(s, trace, i + 1);
    assert Final(s, trace[..i + 1]) == trace[i].after;
    FateTells(trace[i].after, trace[i + 1..], name);
    EveryRequestMeetsOneFate(s, trace, i);
  }

  // -- words -----------------------------------------------------------------------------------------------

  /** A word error as it is told: what went wrong, with which return code, for which word. */
  predicate TellsWord(e: WordError, c: Call) {
    match c
    case ValidateWord(word, rc, valid) =>
      !valid && e == WordError(if rc == 0 then InvalidWord else ValidationFailed, rc, word)
    case AddTemporaryWord(word, rc) => rc != 0 && e == WordError(AddFailed, rc, word)
    case _ => false
  }

  /**
   * What a synchronisation tells a client about its words: that they are loaded, if none of them failed, and otherwise
   * each of its words that could not be validated or added, as the call for it went, and nothing else.
   */
  lemma AClientIsToldItsFailures(v: WordView, calls: seq<Call>, order: seq<nat>, v': WordView, i: nat)
    requires Synced(v, calls, order, v') && i < |order|
    ensures order[i] in v.shadow && |v.sent| + i < |v'.sent|
    ensures var s, told := v.shadow[order[i]], v'.sent[|v.sent| + i];
      && told.Send? && told.client == order[i] && told.tid == s.lastTid && told.msg.WordResult?
      && var errors := told.msg.wordErrors;
         && told.msg.status == (if errors == [] then Success else Failed)
         && (forall e :: e in errors ==> e.word in s.words && exists c :: c in calls && TellsWord(e, c))
         && (forall w :: w in s.words && AddFailedFor(calls, w) ==> exists e :: e in errors && e.word == w)
  {
    SyncedReports(v, calls, order, v', i);
    assert order[i] in order;
    var s := v.shadow[order[i]];
    var mine := ClientErrors(WordErrors(calls), s.words);
    assert v'.sent[|v.sent| + i] == WordReply(order[i], s, WordErrors(calls));
    hide Synced, WordErrors, FailedAdds, AddFailedFor, ClientErrors;
    ClientErrorsWords(WordErrors(calls), s.words);
    forall e | e in mine ensures e.word in s.words && exists c :: c in calls && TellsWord(e, c) {
      assert e.word in ErrorWords(mine);
      AmongErrors(calls, e);
      var c :| c in calls && e in WordErrorOf(c);
      assert TellsWord(e, c);
    }
    forall w | w in s.words && AddFailedFor(calls, w) ensures exists e :: e in mine && e.word == w {
      FailuresAre(calls, w);
      assert w in ErrorWords(mine);
    }
    assert mine != [] ==> mine[0].word in ErrorWords(mine);
  }
}
