/** What becomes of each w.set request, over any run of the reconciler. */
module WordRuns {
  import opened Bytes
  import opened Commands
  import opened Grammars
  import opened GrammarSpec
  import opened Ledger
  import opened Messages
  import opened Runs
  import opened Words

  predicate IsWordResult(t: Task) {
    t.Send? && t.msg.WordResult?
  }

  // -- the answers to one request --------------------------------------------------------------------------

  function OutcomeOf(client: nat, tid: nat): Task -> seq<Status> {
    (t: Task) => if IsWordResult(t) && t.client == client && t.tid == tid then [t.msg.status] else []
  }

  /** How a request was answered, as often as it was. */
  function Outcomes(sent: seq<Task>, client: nat, tid: nat): seq<Status> {
    Concat(OutcomeOf(client, tid), sent)
  }

  lemma OutcomesAppend(a: seq<Task>, b: seq<Task>, client: nat, tid: nat)
    ensures Outcomes(a + b, client, tid) == Outcomes(a, client, tid) + Outcomes(b, client, tid)
  {
    ConcatAppend(OutcomeOf(client, tid), a, b);
  }

  /** The request is the one its client's entry holds. */
  predicate Current(s: State, client: nat, tid: nat) {
    client in s.world.words.shadow && s.world.words.shadow[client].lastTid == tid
  }

  lemma ReplyOutcome(shadow: map<nat, WordState>, order: seq<nat>, errors: seq<WordError>, client: nat, tid: nat,
                     k: nat)
    requires (forall c :: c in order ==> c in shadow) && k < |order|
    ensures var got := OutcomeOf(client, tid)(WordReplies(order, shadow, errors)[k]);
      if order[k] == client && shadow[client].lastTid == tid then |got| == 1 && got[0] != Skipped else got == []
  {
    assert order[k] in order;
  }

  /** The replies of a sync answer the entry of every client once. */
  lemma RepliesAnswer(shadow: map<nat, WordState>, order: seq<nat>, errors: seq<WordError>, client: nat, tid: nat)
    requires Enumerates(order, shadow.Keys)
    ensures var got := Outcomes(WordReplies(order, shadow, errors), client, tid);
      if client in shadow && shadow[client].lastTid == tid then |got| == 1 && got[0] != Skipped else got == []
  {
    var replies := WordReplies(order, shadow, errors);
    hide WordReplies, OutcomeOf;
    forall k | 0 <= k < |order| && (order[k] != client || shadow[client].lastTid != tid)
      ensures OutcomeOf(client, tid)(replies[k]) == []
    {
      ReplyOutcome(shadow, order, errors, client, tid, k);
    }
    if client in shadow && shadow[client].lastTid == tid {
      assert client in order;
      var i :| 0 <= i < |order| && order[i] == client;
      forall j | 0 <= j < |order| && j != i ensures order[j] != client {
        EnumeratesOnce(order, shadow.Keys, if i < j then i else j, if i < j then j else i);
      }
      ConcatOnlyAt(OutcomeOf(client, tid), replies, i);
      ReplyOutcome(shadow, order, errors, client, tid, i);
    } else {
      ConcatNone(OutcomeOf(client, tid), replies);
    }
  }

  /**
   * The only step that answers a request "skipped" is its client setting words again before any sync;
   * the only one that answers it otherwise is a sync while it is its client's entry, and that does so once.
   */
  lemma StepAnswers(s: State, a: Step, s': State, client: nat, tid: nat)
    requires Moves(s, a, s')
    ensures var before, after := Outcomes(s.world.words.sent, client, tid), Outcomes(s'.world.words.sent, client, tid);
      if a.SetWords? && a.client == client && Current(s, client, tid) && !s.world.words.shadow[client].synced
      then after == before + [Skipped]
      else if a.Sync? && Current(s, client, tid) then
        |after| == |before| + 1 && before <= after && after[|before|] != Skipped
      else after == before
  {
    var sent := s.world.words.sent;
    match a
    case SetWords(c, t, words) =>
      if c in s.world.words.shadow && !s.world.words.shadow[c].synced {
        var reply := Send(WordResult(Skipped, []), s.world.words.shadow[c].lastTid, c);
        OutcomesAppend(sent, [reply], client, tid);
        ConcatOne(OutcomeOf(client, tid), reply);
      } else {
        assert s'.world.words.sent == sent;
      }
    case Submit(name, req) =>
      OutcomesAppend(sent, SkippedReply(s.world.queue, name), client, tid);
      ConcatNone(OutcomeOf(client, tid), SkippedReply(s.world.queue, name));
    case Sync(report) => SyncAnswers(s, report, s', client, tid);
    case Others(tasks) =>
      OutcomesAppend(sent, tasks, client, tid);
      ConcatNone(OutcomeOf(client, tid), tasks);
    case _ =>
  }

  lemma GrammarsAnswerNoWords(order: seq<string>, queue: map<string, Request>, outcomes: map<string, Outcome>,
                              client: nat, tid: nat)
    requires forall n :: n in order ==> n in queue && n in outcomes
    ensures Outcomes(GrammarReplies(order, queue, outcomes), client, tid) == []
  {
    ConcatNone(OutcomeOf(client, tid), GrammarReplies(order, queue, outcomes));
  }

  lemma SyncAnswers(s: State, report: SyncReport, s': State, client: nat, tid: nat)
    requires AllSynced(s.world, report, s'.world)
    ensures var before, after := Outcomes(s.world.words.sent, client, tid), Outcomes(s'.world.words.sent, client, tid);
      if Current(s, client, tid) then |after| == |before| + 1 && before <= after && after[|before|] != Skipped
      else after == before
  {
    SentBySync(s.world, report, s'.world);
    var v := s.world.words;
    var replies := WordReplies(report.clients, v.shadow, WordErrors(report.wordCalls));
    var grammars := GrammarReplies(report.names, s.world.queue, report.outcomes);
    hide AllSynced, WordReplies, GrammarReplies, Outcomes, Enumerates;
    OutcomesAppend(v.sent, replies, client, tid);
    RepliesAnswer(v.shadow, report.clients, WordErrors(report.wordCalls), client, tid);
    OutcomesAppend(v.sent + replies, grammars, client, tid);
    GrammarsAnswerNoWords(report.names, s.world.queue, report.outcomes, client, tid);
  }

  // -- over whole runs ------------------------------------------------------------------------------------

  /** A request that has not been made has not been answered either. */
  ghost predicate Fresh(s: State, client: nat, tid: nat) {
    !Current(s, client, tid) && Outcomes(s.world.words.sent, client, tid) == []
  }

  /** Where a request stands: waiting for a sync, answered by one, or skipped. */
  ghost predicate Waiting(s: State, client: nat, tid: nat) {
    && Current(s, client, tid) && !s.world.words.shadow[client].synced
    && Outcomes(s.world.words.sent, client, tid) == []
  }

  ghost predicate Answered(s: State, client: nat, tid: nat) {
    && Outcomes(s.world.words.sent, client, tid) != [] && Skipped !in Outcomes(s.world.words.sent, client, tid)
    && Settled(s, client, tid)
  }

  ghost predicate SkippedOnce(s: State, client: nat, tid: nat) {
    !Current(s, client, tid) && Outcomes(s.world.words.sent, client, tid) == [Skipped]
  }

  /** The client does not reuse the transaction id. */
  predicate Sets(a: Step, client: nat, tid: nat) {
    a.SetWords? && a.client == client && a.tid == tid
  }

  predicate SetsAgain(a: Step, client: nat) {
    a.SetWords? && a.client == client
  }

  lemma SetWaits(s: State, a: Step, s': State, client: nat, tid: nat)
    requires Moves(s, a, s') && Sets(a, client, tid) && Fresh(s, client, tid)
    ensures Waiting(s', client, tid)
  {
    StepAnswers(s, a, s', client, tid);
  }

  /** A waiting request leaves that state by being skipped or by being answered, as the step decides. */
  lemma WaitingStep(s: State, a: Step, s': State, client: nat, tid: nat)
    requires Moves(s, a, s') && Waiting(s, client, tid) && !Sets(a, client, tid) && Known(s)
    ensures
      if SetsAgain(a, client) then SkippedOnce(s', client, tid)
      else if a.Sync? then Answered(s', client, tid)
      else Waiting(s', client, tid)
  {
    StepAnswers(s, a, s', client, tid);
  }

  lemma SkippedStep(s: State, a: Step, s': State, client: nat, tid: nat)
    requires Moves(s, a, s') && !Sets(a, client, tid) && SkippedOnce(s, client, tid)
    ensures SkippedOnce(s', client, tid)
  {
    hide Outcomes;
    StepAnswers(s, a, s', client, tid);
  }

  /** The entry of a request that no sync is to answer is that of a client that is gone. */
  predicate Settled(s: State, client: nat, tid: nat) {
    client < s.nonce && (Current(s, client, tid) && !s.world.words.shadow[client].synced ==> client !in s.clients)
  }

  lemma EntryStep(s: State, a: Step, s': State, client: nat, tid: nat)
    requires Moves(s, a, s') && !Sets(a, client, tid) && Settled(s, client, tid)
    ensures Settled(s', client, tid)
    ensures SetsAgain(a, client) && Current(s, client, tid) ==> s.world.words.shadow[client].synced
  {
  }

  lemma AnsweredStep(s: State, a: Step, s': State, client: nat, tid: nat)
    requires Moves(s, a, s') && !Sets(a, client, tid) && Answered(s, client, tid)
    ensures Answered(s', client, tid)
  {
    hide Moves, Outcomes, Settled;
    StepAnswers(s, a, s', client, tid);
    EntryStep(s, a, s', client, tid);
  }

  lemma FreshStep(s: State, a: Step, s': State, client: nat, tid: nat)
    requires Moves(s, a, s') && !Sets(a, client, tid) && Fresh(s, client, tid)
    ensures Fresh(s', client, tid)
  {
    hide Outcomes;
    StepAnswers(s, a, s', client, tid);
  }

  lemma SettledStep(s: State, a: Step, s': State, client: nat, tid: nat)
    requires Moves(s, a, s') && !Sets(a, client, tid)
    ensures SkippedOnce(s, client, tid) ==> SkippedOnce(s', client, tid)
    ensures Answered(s, client, tid) ==> Answered(s', client, tid)
    ensures Fresh(s, client, tid) ==> Fresh(s', client, tid)
  {
    hide Moves, SkippedOnce, Answered, Fresh, Sets;
    if SkippedOnce(s, client, tid) {
      SkippedStep(s, a, s', client, tid);
    }
    if Answered(s, client, tid) {
      AnsweredStep(s, a, s', client, tid);
    }
    if Fresh(s, client, tid) {
      FreshStep(s, a, s', client, tid);
    }
  }

  lemma {:induction false} SettledForever(s: State, trace: seq<Moved>, client: nat, tid: nat)
    requires Chain(s, trace) && Known(s)
    requires forall m :: m in trace ==> !Sets(m.step, client, tid)
    ensures Known(Final(s, trace))
    ensures SkippedOnce(s, client, tid) ==> SkippedOnce(Final(s, trace), client, tid)
    ensures Answered(s, client, tid) ==> Answered(Final(s, trace), client, tid)
    ensures Fresh(s, client, tid) ==> Fresh(Final(s, trace), client, tid)
    decreases |trace|
  {
    if trace != [] {
      SettledStep(s, trace[0].step, trace[0].after, client, tid);
      KnownStep(s, trace[0].step, trace[0].after);
      SettledForever(trace[0].after, trace[1..], client, tid);
    }
  }

  /** What decides about a waiting request: the first later step that sets its client's words again or syncs. */
  function Verdict(trace: seq<Moved>, client: nat): Option<Step> {
    if trace == [] then None
    else if SetsAgain(trace[0].step, client) || trace[0].step.Sync? then Some(trace[0].step)
    else Verdict(trace[1..], client)
  }

  lemma {:induction false} WaitingRun(s: State, trace: seq<Moved>, client: nat, tid: nat)
    requires Chain(s, trace) && Known(s) && Waiting(s, client, tid)
    requires forall m :: m in trace ==> !Sets(m.step, client, tid)
    ensures var verdict, end := Verdict(trace, client), Final(s, trace);
      if verdict.None? then Waiting(end, client, tid)
      else if verdict.value.Sync? then Answered(end, client, tid)
      else SkippedOnce(end, client, tid)
    decreases |trace|
  {
    if trace != [] {
      var a, s' := trace[0].step, trace[0].after;
      WaitingStep(s, a, s', client, tid);
      KnownStep(s, a, s');
      if SetsAgain(a, client) || a.Sync? {
        SettledForever(s', trace[1..], client, tid);
      } else {
        WaitingRun(s', trace[1..], client, tid);
      }
    }
  }

  /**
   * The outcomes of a w.set exclude each other, over every run in which its transaction id is used once: set
   * again before any sync, it is answered "skipped", once and never anything else; reached by a sync first, it
   * is answered by that sync, and never "skipped"; otherwise it still waits, without an answer.
   */
  lemma OutcomesAreExclusive(s: State, trace: seq<Moved>, i: nat, client: nat, tid: nat)
    requires Chain(s, trace) && Known(s) && Fresh(s, client, tid)
    requires i < |trace| && Sets(trace[i].step, client, tid)
    requires forall j :: 0 <= j < |trace| && j != i ==> !Sets(trace[j].step, client, tid)
    ensures var verdict := Verdict(trace[i + 1..], client);
      var got := Outcomes(Final(s, trace).world.words.sent, client, tid);
      if verdict.None? then got == []
      else if verdict.value.Sync? then got != [] && Skipped !in got
      else got == [Skipped]
  {
    ChainSplit(s, trace, i);
    SettledForever(s, trace[..i], client, tid);
    var before, rest := Final(s, trace[..i]), trace[i..];
    assert rest[0] == trace[i] && rest[1..] == trace[i + 1..];
    SetWaits(before, rest[0].step, rest[0].after, client, tid);
    KnownStep(before, rest[0].step, rest[0].after);
    WaitingRun(rest[0].after, rest[1..], client, tid);
    assert Final(rest[0].after, rest[1..]) == Final(before, rest);
  }

  // -- after a disconnect ------------------------------------------------------------------------------------

  lemma QuietStep(s: State, a: Step, s': State, client: nat)
    requires Moves(s, a, s') && !a.Sync? && client !in s.clients && client < s.nonce
    requires client in s.world.words.shadow ==> s.world.words.shadow[client].words == {}
    ensures var v, v' := s.world.words, s'.world.words;
      && client !in s'.clients && client < s'.nonce
      && v'.loaded == v.loaded && (client in v'.shadow ==> v'.shadow[client].words == {})
  {
  }

  /** Between two synchronisations nothing is loaded or deleted, and a client that is gone wants nothing again. */
  lemma {:induction false} QuietRun(s: State, trace: seq<Moved>, client: nat)
    requires Chain(s, trace) && NoSync(trace) && Known(s) && client !in s.clients && client < s.nonce
    requires client in s.world.words.shadow ==> s.world.words.shadow[client].words == {}
    ensures var v, v' := s.world.words, Final(s, trace).world.words;
      v'.loaded == v.loaded && (client in v'.shadow ==> v'.shadow[client].words == {})
    decreases |trace|
  {
    if trace != [] {
      assert trace[0] in trace;
      KnownStep(s, trace[0].step, trace[0].after);
      QuietStep(s, trace[0].step, trace[0].after, client);
      hide Moves, Known;
      QuietRun(trace[0].after, trace[1..], client);
    }
  }

  lemma GoneWantsNothing(s: State, client: nat, t: State)
    requires Known(s) && Moves(s, Disconnect(client), t)
    ensures Known(t) && client !in t.clients && client < t.nonce && t.world.words.loaded == s.world.words.loaded
    ensures client in t.world.words.shadow ==> t.world.words.shadow[client].words == {}
  {
  }

  lemma SyncIs(s: State, report: SyncReport, s': State)
    requires Moves(s, Sync(report), s')
    ensures AllSynced(s.world, report, s'.world)
  {
  }

  lemma SyncKeepsWhatOthersWant(before: World, report: SyncReport, after: World, client: nat, w: CStr)
    requires AllSynced(before, report, after) && w in before.words.loaded
    requires client in before.words.shadow ==> before.words.shadow[client].words == {}
    ensures w in after.words.loaded <==>
      w in FailedDeletes(report.wordCalls)
      || exists c :: c in before.words.shadow && c != client && w in before.words.shadow[c].words
  {
    var v := before.words;
    SyncedLoads(v, report.wordCalls, report.clients, report.words);
    assert w !in FailedAdds(report.wordCalls);
    if c :| c in v.shadow && c != client && w in v.shadow[c].words {
      assert w in Wanted(v.shadow);
    }
  }

  /**
   * After a disconnect and the next synchronisation, whatever others have asked for in between, a word that was
   * loaded still is exactly if somebody else wants it by then or it could not be deleted.
   */
  lemma DisconnectWithdrawsWords(s: State, client: nat, t: State, trace: seq<Moved>, report: SyncReport, end: State,
                                 w: CStr)
    requires Known(s) && Moves(s, Disconnect(client), t) && Chain(t, trace) && NoSync(trace)
    requires Moves(Final(t, trace), Sync(report), end) && w in s.world.words.loaded
    ensures var wanted := Final(t, trace).world.words.shadow;
      w in end.world.words.loaded <==>
        w in FailedDeletes(report.wordCalls) || exists c :: c in wanted && c != client && w in wanted[c].words
  {
    GoneWantsNothing(s, client, t);
    SyncIs(Final(t, trace), report, end);
    hide Moves, Known, AllSynced;
    QuietRun(t, trace, client);
    SyncKeepsWhatOthersWant(Final(t, trace).world, report, end.world, client, w);
  }
}
