/** The pauses of the program: whom each waits for, when it ends, and that nothing is left to do while it lasts. */
module PauseRuns {
  import opened Bytes
  import opened CommandRuns
  import Commands
  import Grammars
  import GrammarSpec
  import Ledger
  import Words
  import opened Events
  import opened LoopRuns
  import opened Messages
  import opened ProgramRuns
  import opened Server
  import P = Pausing
  import R = Runs

  // -- what happens, as the pause machine has it -----------------------------------------------------------

  lemma {:induction false} PausesAndTokens(queue: seq<Task>)
    ensures |Concat(PauseOf, queue)| == |PauseTokens(queue)|
    ensures forall i :: 0 <= i < |PauseTokens(queue)| ==> Concat(PauseOf, queue)[i] == P.Pause(PauseTokens(queue)[i])
  {
    if queue != [] {
      PausesAndTokens(queue[1..]);
    }
  }

  lemma EventMeans(p: Program, ev: Event, c: nat, t: nat)
    ensures P.Timeout in EventPauses(p, ev) <==> ev.TimerFires?
    ensures P.Disconnect(c) in EventPauses(p, ev) <==> ev == Close(c)
    ensures P.Unpause(c, t) in EventPauses(p, ev) <==> ev.Receive? && ev.client == c && ev.command == UnpauseWith(t)
    ensures P.Pause(t) in EventPauses(p, ev) <==> ev.Drain? && t in PauseTokens(p.loop.queue)
  {
    PausesAndTokens(p.loop.queue);
  }

  /** Event number `j` comes when it can. */
  predicate Happens(events: seq<Event>, records: seq<Record>, j: nat)
    requires |records| == |events|
  {
    j < |events| && CanHappen(AtEvent(records, j), events[j])
  }

  lemma RecordMeans(events: seq<Event>, records: seq<Record>, j: nat, x: P.PauseEvent)
    requires RunOf(NOTHING, events, records) && j < |events|
    ensures x in records[j].pauses <==> Happens(events, records, j) && x in EventPauses(AtEvent(records, j), events[j])
  {
    assert Follows(AtEvent(records, j), events[j], records[j]);
  }

  /** The timer has fired since event `i`. */
  ghost predicate TimerFired(events: seq<Event>, records: seq<Record>, i: nat)
    requires |records| == |events|
  {
    exists j :: i < j < |events| && Happens(events, records, j) && events[j].TimerFires?
  }

  predicate LetsGo(ev: Event, client: nat, token: nat) {
    ev == Close(client) || (ev.Receive? && ev.client == client && ev.command == UnpauseWith(token))
  }

  /** Since event `i` the client has let the pause of that token go on, or its connection has closed. */
  ghost predicate HasLetGo(events: seq<Event>, records: seq<Record>, i: nat, client: nat, token: nat)
    requires |records| == |events|
  {
    exists j :: i < j < |events| && Happens(events, records, j) && LetsGo(events[j], client, token)
  }

  /** Event number `j` happens, and means that. */
  predicate Means(events: seq<Event>, records: seq<Record>, j: nat, x: P.PauseEvent)
    requires |records| == |events|
  {
    Happens(events, records, j) && x in EventPauses(AtEvent(records, j), events[j])
  }

  lemma AmongLater(events: seq<Event>, records: seq<Record>, i: nat, x: P.PauseEvent)
    requires RunOf(NOTHING, events, records) && i < |events|
    ensures x in Concat(PausesOf, records[i + 1..]) <==>
      exists j :: i < j < |events| && Means(events, records, j, x)
  {
    var later := records[i + 1..];
    InConcat(PausesOf, later, x);
    forall j: nat | j < |events| ensures x in records[j].pauses <==> Means(events, records, j, x) {
      RecordMeans(events, records, j, x);
    }
    hide RunOf, Means;
    if k :| 0 <= k < |later| && x in PausesOf(later[k]) {
      assert Means(events, records, i + 1 + k, x);
    }
    if j :| i < j < |events| && Means(events, records, j, x) {
      assert x in PausesOf(later[j - i - 1]);
    }
  }

  lemma TimerMeans(events: seq<Event>, records: seq<Record>, i: nat)
    requires RunOf(NOTHING, events, records) && i < |events|
    ensures P.Timeout in Concat(PausesOf, records[i + 1..]) <==> TimerFired(events, records, i)
  {
    AmongLater(events, records, i, P.Timeout);
    hide RunOf, Happens, EventPauses;
    forall j: nat | j < |events|
      ensures Means(events, records, j, P.Timeout) <==> Happens(events, records, j) && events[j].TimerFires?
    {
      EventMeans(AtEvent(records, j), events[j], 0, 0);
    }
  }

  lemma LettingGoMeans(events: seq<Event>, records: seq<Record>, i: nat, c: nat, t: nat)
    requires RunOf(NOTHING, events, records) && i < |events|
    ensures var rest := Concat(PausesOf, records[i + 1..]);
      P.Unpause(c, t) in rest || P.Disconnect(c) in rest <==> HasLetGo(events, records, i, c, t)
  {
    AmongLater(events, records, i, P.Unpause(c, t));
    AmongLater(events, records, i, P.Disconnect(c));
    hide RunOf, Happens, EventPauses;
    forall j: nat | j < |events|
      ensures Means(events, records, j, P.Unpause(c, t)) || Means(events, records, j, P.Disconnect(c))
         <==> Happens(events, records, j) && LetsGo(events[j], c, t)
    {
      EventMeans(AtEvent(records, j), events[j], c, t);
    }
    hide Means, LetsGo;
  }

  lemma PausesMean(events: seq<Event>, records: seq<Record>, i: nat, t: nat)
    requires RunOf(NOTHING, events, records) && i < |events| && P.Pause(t) in Concat(PausesOf, records[i + 1..])
    ensures exists j :: i < j < |events| && events[j].Drain? && t in PauseTokens(AtEvent(records, j).loop.queue)
  {
    AmongLater(events, records, i, P.Pause(t));
    hide RunOf, Happens, EventPauses;
    var j :| i < j < |events| && Means(events, records, j, P.Pause(t));
    EventMeans(AtEvent(records, j), events[j], 0, t);
  }

  // -- who is connected -----------------------------------------------------------------------------------

  /** The pause machine and the server agree on who is connected. */
  ghost predicate SameClients(p: Program) {
    forall c :: c in p.pausing.clients <==> c in p.loop.clients
  }

  lemma {:induction false} AmongTheOthers(clients: seq<nat>, id: nat, c: nat)
    ensures c in Without(clients, id) <==> c in clients && c != id
  {
    if clients != [] {
      AmongTheOthers(clients[1..], id, c);
    }
  }

  lemma {:induction false} PausesKeepClients(p: P.PauseState, events: seq<P.PauseEvent>)
    requires P.Possible(p, events) && forall x :: x in events ==> x.Pause?
    ensures P.Run(p, events).clients == p.clients
    decreases |events|
  {
    if events != [] {
      PausesKeepClients(P.Step(p, events[0]), events[1..]);
    }
  }

  lemma OneEvent(p: P.PauseState, x: P.PauseEvent, q: P.PauseState)
    requires P.Leads(p, [x], q)
    ensures q == P.Step(p, x)
  {
    assert [x][1..] == [] && P.Run(P.Step(p, x), []) == P.Step(p, x);
  }

  lemma StillSameClients(p: Program, ev: Event, r: Record)
    requires Handled(p, ev, r) && SameClients(p)
    ensures SameClients(r.after)
  {
    hide R.Leads;
    if ev.Drain? {
      PausesAndTokens(p.loop.queue);
      PausesKeepClients(p.pausing, r.pauses);
    } else if r.pauses != [] {
      OneEvent(p.pausing, r.pauses[0], r.after.pausing);
      if ev.Close? {
        forall c ensures c in Without(p.loop.clients, ev.client) <==> c in p.loop.clients && c != ev.client {
          AmongTheOthers(p.loop.clients, ev.client, c);
        }
      }
    }
  }

  lemma {:induction false} ClientsAreTheSame(events: seq<Event>, records: seq<Record>)
    requires RunOf(NOTHING, events, records)
    ensures SameClients(Reached(NOTHING, records))
    decreases |records|
  {
    if records != [] {
      var n := |records| - 1;
      RunLess(events, records);
      hide RunOf, Handled, SameClients, CanHappen;
      ClientsAreTheSame(events[..n], records[..n]);
      if CanHappen(Reached(NOTHING, records[..n]), events[n]) {
        StillSameClients(Reached(NOTHING, records[..n]), events[n], records[n]);
      }
    } else {
      NobodyYet();
    }
  }

  lemma NobodyYet()
    ensures SameClients(NOTHING)
  {
  }

  // -- one pause at a time ------------------------------------------------------------------------------------

  function TokensAnnounced(m: R.Moved): seq<nat> {
    if m.step.Others? then PauseTokens(m.step.tasks) else []
  }

  lemma SendsNoPause(tasks: seq<Task>)
    requires forall t :: t in tasks ==> !t.HandlePause?
    ensures PauseTokens(tasks) == []
  {
    ConcatNone(PauseTokenOf, tasks);
  }

  lemma RepliesAreNoPauses(order: seq<nat>, shadow: map<nat, Words.WordState>, errors: seq<WordError>)
    requires forall c :: c in order ==> c in shadow
    ensures PauseTokens(Words.WordReplies(order, shadow, errors)) == []
  {
    SendsNoPause(Words.WordReplies(order, shadow, errors));
  }

  lemma GrammarRepliesAreNoPauses(order: seq<string>, queue: map<string, Grammars.Request>,
                                  outcomes: map<string, GrammarSpec.Outcome>)
    requires forall n :: n in order ==> n in queue && n in outcomes
    ensures PauseTokens(Ledger.GrammarReplies(order, queue, outcomes)) == []
  {
    SendsNoPause(Ledger.GrammarReplies(order, queue, outcomes));
  }

  lemma SyncAddsNoPause(s: R.State, report: Ledger.SyncReport, s': R.State)
    requires Commands.AllSynced(s.world, report, s'.world)
    ensures PauseTokens(s'.world.words.sent) == PauseTokens(s.world.words.sent)
  {
    Commands.SentBySync(s.world, report, s'.world);
    hide Commands.AllSynced, PauseTokens, Words.WordReplies, Ledger.GrammarReplies;
    var errors := Words.WordErrors(report.wordCalls);
    var words := Words.WordReplies(report.clients, s.world.words.shadow, errors);
    RepliesAreNoPauses(report.clients, s.world.words.shadow, errors);
    GrammarRepliesAreNoPauses(report.names, s.world.queue, report.outcomes);
    PauseTokensAppend(s.world.words.sent, words);
    PauseTokensAppend(s.world.words.sent + words, Ledger.GrammarReplies(report.names, s.world.queue, report.outcomes));
  }

  lemma StepAnnounces(s: R.State, a: R.Step, s': R.State)
    requires R.Moves(s, a, s')
    ensures PauseTokens(s'.world.words.sent)
         == PauseTokens(s.world.words.sent) + TokensAnnounced(R.Moved(a, s'))
  {
    if a.Sync? {
      SyncAddsNoPause(s, a.report, s');
    } else {
      hide PauseTokens, Commands.AllSynced;
      var sent, more := s.world.words.sent, s'.world.words.sent[|s.world.words.sent|..];
      assert s'.world.words.sent == sent + more;
      PauseTokensAppend(sent, more);
      if a.Others? {
        assert more == a.tasks;
      } else {
        SendsNoPause(more);
      }
    }
  }

  lemma {:induction false} TraceAnnounces(s: R.State, trace: seq<R.Moved>)
    requires R.Chain(s, trace)
    ensures PauseTokens(R.Final(s, trace).world.words.sent)
         == PauseTokens(s.world.words.sent) + Concat(TokensAnnounced, trace)
    decreases |trace|
  {
    if trace != [] {
      var m := trace[0];
      StepAnnounces(s, m.step, m.after);
      hide R.Moves, TokensAnnounced, PauseTokens;
      TraceAnnounces(m.after, trace[1..]);
      Associate(PauseTokens(s.world.words.sent), TokensAnnounced(m), Concat(TokensAnnounced, trace[1..]));
    }
  }

  lemma {:induction false} DrainAnnounces(clients: seq<nat>, tasks: seq<Task>)
    ensures forall kind :: kind in Concat(KindsOf(clients), tasks) ==>
              kind.None? || (kind.value.Others? && PauseTokens(kind.value.tasks) == [])
  {
    if tasks != [] {
      DrainAnnounces(clients, tasks[1..]);
      if tasks[0].HandlePause? {
        SendsNoPause(PauseNotice(tasks[0].token, clients));
      }
    }
  }

  lemma EventAnnounces(p: Program, ev: Event, r: Record)
    requires Handled(p, ev, r)
    ensures Concat(TokensAnnounced, r.trace) == if ev.EnginePauses? then [ev.token] else []
  {
    KindsAt(r.trace);
    hide R.Chain, PauseTokens;
    if ev.EnginePauses? {
      assert r.trace == [r.trace[0]];
      ConcatOne(TokensAnnounced, r.trace[0]);
      PauseTokensNext([], HandlePause(ev.token));
      assert [HandlePause(ev.token)] + [] == [HandlePause(ev.token)];
      SendsNoPause([]);
    } else {
      forall i | 0 <= i < |r.trace| ensures TokensAnnounced(r.trace[i]) == [] {
        if ev.Drain? {
          DrainAnnounces(p.loop.clients, p.loop.queue);
        } else if r.trace[i].step.Others? {
          SendsNoPause(r.trace[i].step.tasks);
        }
      }
      ConcatNone(TokensAnnounced, r.trace);
    }
  }

  /** At most one pause is on its way. */
  predicate OneOnItsWay(p: Program) {
    && |PauseTokens(p.loop.queue)| <= 1
    && p.reconciler.world.words.sent == p.loop.taken + p.loop.queue
  }

  lemma StillOneOnItsWay(p: Program, ev: Event, r: Record)
    requires Handled(p, ev, r) && CanHappen(p, ev) && OneOnItsWay(p)
    ensures OneOnItsWay(r.after)
  {
    TraceAnnounces(p.reconciler, r.trace);
    EventAnnounces(p, ev, r);
    hide R.Chain, EventKinds, PauseTokens;
    var q := r.after;
    PauseTokensAppend(p.loop.taken, p.loop.queue);
    PauseTokensAppend(q.loop.taken, q.loop.queue);
    Cut(PauseTokens(q.loop.taken), PauseTokens(q.loop.queue));
    if !ev.Drain? {
      NothingRuns(ev, p.loop, q.loop.queue);
      var announced := if ev.EnginePauses? then [ev.token] else [];
      Associate(PauseTokens(p.loop.taken), PauseTokens(p.loop.queue), announced);
      Cut(PauseTokens(p.loop.taken), PauseTokens(p.loop.queue) + announced);
    }
  }

  lemma PauseTokensAppend(a: seq<Task>, b: seq<Task>)
    ensures PauseTokens(a + b) == PauseTokens(a) + PauseTokens(b)
  {
    ConcatAppend(PauseTokenOf, a, b);
  }

  /** In every run of the program at most one announced pause waits to be handled. */
  lemma {:induction false} PausesComeOneByOne(events: seq<Event>, records: seq<Record>)
    requires RunOf(NOTHING, events, records)
    ensures OneOnItsWay(Reached(NOTHING, records))
    decreases |records|
  {
    if records != [] {
      var n := |records| - 1;
      RunLess(events, records);
      hide RunOf, Handled, OneOnItsWay, CanHappen;
      PausesComeOneByOne(events[..n], records[..n]);
      if CanHappen(Reached(NOTHING, records[..n]), events[n]) {
        StillOneOnItsWay(Reached(NOTHING, records[..n]), events[n], records[n]);
      }
    } else {
      SendsNoPause([]);
    }
  }

  // -- nothing is left to do during a pause -------------------------------------------------------------------

  ghost predicate NothingLeft(p: Program) {
    p.pausing.token != 0 ==> p.reconciler.world.queue == map[]
  }

  lemma {:induction false} QuietAfterSync(s: R.State, trace: seq<R.Moved>)
    requires R.Chain(s, trace) && (s.world.queue == map[] || (trace != [] && trace[0].step.Sync?))
    requires forall m :: m in trace ==> m.step.Sync? || m.step.Others? || m.step.SetWords? || m.step.Connect?
    ensures R.Final(s, trace).world.queue == map[]
    decreases |trace|
  {
    if trace != [] {
      assert trace[0] in trace;
      QuietAfterSync(trace[0].after, trace[1..]);
    }
  }

  lemma {:induction false} FirstOfDrain(clients: seq<nat>, tasks: seq<Task>)
    ensures var kinds := Concat(KindsOf(clients), tasks);
      if PauseTokens(tasks) == [] then kinds == [] else kinds != [] && kinds[0] == None
  {
    if tasks != [] {
      FirstOfDrain(clients, tasks[1..]);
    }
  }

  lemma DrainLeavesNothing(p: Program, r: Record)
    requires Handled(p, Drain, r) && NothingLeft(p)
    ensures NothingLeft(r.after)
  {
    OtherEventsAsk(p, Drain, r);
    KindsAt(r.trace);
    FirstOfDrain(p.loop.clients, p.loop.queue);
    PausesAndTokens(p.loop.queue);
    hide R.Moves, PauseTokens;
    if PauseTokens(p.loop.queue) != [] {
      QuietAfterSync(p.reconciler, r.trace);
    } else {
      assert r.pauses == [] && r.trace == [];
    }
  }

  lemma CommandsOpenNoPause(p: Program, client: nat, tid: nat, command: Command, r: Record)
    requires Handled(p, Receive(client, tid, command), r) && r.after.pausing.token != 0
    ensures p.pausing.token != 0
  {
    hide R.Leads;
    if r.pauses != [] {
      OneEvent(p.pausing, r.pauses[0], r.after.pausing);
    }
  }

  lemma {:induction false} QuietAfterSyncAt(s: R.State, trace: seq<R.Moved>, i: nat)
    requires R.Chain(s, trace) && i < |trace| && trace[i].step.Sync?
    requires forall m :: m in trace[i..] ==> m.step.Sync? || m.step.Others? || m.step.SetWords? || m.step.Connect?
    ensures R.Final(s, trace).world.queue == map[]
  {
    hide R.Moves;
    R.ChainSplit(s, trace, i);
    QuietAfterSync(R.Final(s, trace[..i]), trace[i..]);
  }

  lemma CommandShape(p: Program, client: nat, tid: nat, command: Command, r: Record)
    requires Handled(p, Receive(client, tid, command), r) && p.pausing.token != 0
    ensures if |r.trace| == 3 then r.trace[1].step.Sync? && r.trace[2].step.Others?
            else forall m :: m in r.trace ==> m.step.Others? || m.step.SetWords?
  {
    ACommandAsksForWhatItSays(p, client, tid, command, r);
  }

  lemma CommandLeavesNothing(p: Program, client: nat, tid: nat, command: Command, r: Record)
    requires Handled(p, Receive(client, tid, command), r) && NothingLeft(p)
    ensures NothingLeft(r.after)
  {
    if r.after.pausing.token != 0 {
      CommandsOpenNoPause(p, client, tid, command, r);
      CommandShape(p, client, tid, command, r);
      hide R.Moves, R.Chain, EventKinds, P.Leads, LoopAfter;
      if |r.trace| == 3 {
        QuietAfterSyncAt(p.reconciler, r.trace, 1);
      } else {
        QuietAfterSync(p.reconciler, r.trace);
      }
    }
  }

  lemma EventLeavesNothing(p: Program, ev: Event, r: Record)
    requires Handled(p, ev, r) && NothingLeft(p)
    ensures NothingLeft(r.after)
  {
    if ev.Drain? {
      DrainLeavesNothing(p, r);
    } else if ev.Receive? {
      CommandLeavesNothing(p, ev.client, ev.tid, ev.command, r);
    } else {
      OtherEventsAsk(p, ev, r);
      if r.pauses != [] {
        OneEvent(p.pausing, r.pauses[0], r.after.pausing);
      }
      hide R.Moves, EventKinds;
      if r.after.pausing.token != 0 {
        if ev.Close? {
          QuietAfterSyncAt(p.reconciler, r.trace, 1);
        } else {
          QuietAfterSync(p.reconciler, r.trace);
        }
      }
    }
  }

  /** In every run of the program: while the engine is paused, no grammar request waits, whoever made it and when. */
  lemma {:induction false} NothingIsLeftDuringAPause(events: seq<Event>, records: seq<Record>)
    requires RunOf(NOTHING, events, records)
    ensures NothingLeft(Reached(NOTHING, records))
    decreases |records|
  {
    if records != [] {
      var n := |records| - 1;
      RunLess(events, records);
      hide RunOf, Handled, NothingLeft, CanHappen;
      NothingIsLeftDuringAPause(events[..n], records[..n]);
      if CanHappen(Reached(NOTHING, records[..n]), events[n]) {
        EventLeavesNothing(Reached(NOTHING, records[..n]), events[n], records[n]);
      }
    } else {
      assert NothingLeft(NOTHING);
    }
  }

  // -- how a pause ends ---------------------------------------------------------------------------------------

  lemma RunUpTo(events: seq<Event>, records: seq<Record>, i: nat)
    requires RunOf(NOTHING, events, records) && i <= |events|
    ensures RunOf(NOTHING, events[..i], records[..i])
  {
    hide Follows;
    forall j | 0 <= j < i ensures records[..i][..j] == records[..j] {
    }
  }

  lemma PausingUpTo(events: seq<Event>, records: seq<Record>, i: nat)
    requires RunOf(NOTHING, events, records) && i <= |events|
    ensures P.Leads(P.INITIAL, Concat(PausesOf, records[..i]), AtEvent(records, i).pausing)
    ensures SameClients(AtEvent(records, i))
  {
    RunUpTo(events, records, i);
    hide RunOf, R.Chain, P.Leads, SameClients, Carries, Concat;
    var steps, log := EveryRunIsOfAllThree(events[..i], records[..i]);
    ClientsAreTheSame(events[..i], records[..i]);
  }

  lemma HasToken(queue: seq<Task>, t: nat)
    requires HandlePause(t) in queue
    ensures t in PauseTokens(queue)
  {
    InConcat(PauseTokenOf, queue, t);
    var k :| 0 <= k < |queue| && queue[k] == HandlePause(t);
    assert t in PauseTokenOf(queue[k]);
  }

  lemma OnlyOnePause(events: seq<Event>, records: seq<Record>, i: nat, t: nat)
    requires RunOf(NOTHING, events, records) && i < |events| && HandlePause(t) in AtEvent(records, i).loop.queue
    ensures PauseTokens(AtEvent(records, i).loop.queue) == [t]
  {
    RunUpTo(events, records, i);
    hide RunOf, PauseTokens;
    PausesComeOneByOne(events[..i], records[..i]);
    HasToken(AtEvent(records, i).loop.queue, t);
  }

  lemma PauseOfDrain(events: seq<Event>, records: seq<Record>, i: nat, t: nat)
    requires RunOf(NOTHING, events, records) && i < |events| && events[i].Drain?
    requires PauseTokens(AtEvent(records, i).loop.queue) == [t]
    ensures var before, rest := Concat(PausesOf, records[..i]), Concat(PausesOf, records[i + 1..]);
      Concat(PausesOf, records) == before + [P.Pause(t)] + rest
  {
    assert Follows(AtEvent(records, i), events[i], records[i]);
    PausesAndTokens(AtEvent(records, i).loop.queue);
    assert records[i].pauses == [P.Pause(t)];
    hide Concat;
    ConcatNext(PausesOf, records, i);
  }

  /**
   * In every run of the program, a pause that a drain handles, if no other has been handled since, has been resumed
   * if and only if nobody was connected at that drain, or the timer has fired since, or each client connected then
   * has since unpaused with its token or closed its connection. Otherwise it is still open.
   */
  lemma APauseIsResumedWhen(events: seq<Event>, records: seq<Record>, i: nat, t: nat)
    requires RunOf(NOTHING, events, records) && i < |events| && events[i].Drain?
    requires HandlePause(t) in AtEvent(records, i).loop.queue
    requires forall j, task :: i < j < |events| && events[j].Drain? && task in AtEvent(records, j).loop.queue ==>
               !task.HandlePause?
    ensures var before, end := AtEvent(records, i), Reached(NOTHING, records);
      var over := before.loop.clients == [] || TimerFired(events, records, i)
                  || forall c :: c in before.loop.clients ==> HasLetGo(events, records, i, c, t);
      && end.pausing.resumed == before.pausing.resumed + (if over then [t] else [])
      && end.pausing.token == (if over then 0 else t)
  {
    var first, rest, all :=
      Concat(PausesOf, records[..i]), Concat(PausesOf, records[i + 1..]), Concat(PausesOf, records);
    OnlyOnePause(events, records, i, t);
    PauseOfDrain(events, records, i, t);
    PausingUpTo(events, records, i);
    PausingUpTo(events, records, |events|);
    assert records[..|events|] == records;
    forall x | x in rest ensures !x.Pause? {
      if x.Pause? {
        PausesMean(events, records, i, x.token);
        var j :| i < j < |events| && events[j].Drain? && x.token in PauseTokens(AtEvent(records, j).loop.queue);
        SendsNoPause(AtEvent(records, j).loop.queue);
        assert false;
      }
    }
    TimerMeans(events, records, i);
    forall c: nat ensures P.Unpause(c, t) in rest || P.Disconnect(c) in rest <==> HasLetGo(events, records, i, c, t) {
      LettingGoMeans(events, records, i, c, t);
    }
    hide RunOf, TimerFired, HasLetGo, Concat, Follows, Handled;
    ResumedWhen(first, t, rest, AtEvent(records, i).pausing, Reached(NOTHING, records).pausing);
  }

  lemma ResumedWhen(first: seq<P.PauseEvent>, t: nat, rest: seq<P.PauseEvent>, before: P.PauseState, end: P.PauseState)
    requires P.Leads(P.INITIAL, first, before) && P.Leads(P.INITIAL, first + [P.Pause(t)] + rest, end)
    requires forall x :: x in rest ==> !x.Pause?
    ensures var over := before.clients == {} || P.Timeout in rest
                        || forall c :: c in before.clients ==> P.Unpause(c, t) in rest || P.Disconnect(c) in rest;
      && end.resumed == before.resumed + (if over then [t] else [])
      && end.token == (if over then 0 else t)
  {
    var all, i := first + [P.Pause(t)] + rest, |first|;
    assert all[..i] == first && all[i] == P.Pause(t) && all[i + 1..] == rest && all[i..][0] == P.Pause(t);
    P.RunSplit(P.INITIAL, all, i);
    P.SinceTheBeginning(first);
    P.PauseIsResumedWhen(all, i);
  }
}
