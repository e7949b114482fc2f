/** The event loop that drives everything: one callback after the other, for any sequence of events. */
module EventLoop {
  import opened Bytes
  import opened Commands
  import opened Messages
  import opened Server
  import opened Core
  import EngineModel
  import P = Pausing
  import L = Ledger
  import R = Runs
  import opened Events
  import opened LoopRuns

  ghost function LoopState(d: Draconity): Loop
    reads d.server`clients, d.server`clientNonce, d.server`invokeQueue, d.server`taken, d.server`written
  {
    Loop(d.server.clients, d.server.clientNonce, d.server.invokeQueue, d.server.taken, d.server.written)
  }

  /** The pause the engine has announced but the loop has not handled yet. */
  ghost function Announced(d: Draconity): seq<nat>
    reads d`pauseToken, d.engine`outstanding
  {
    if d.engine.outstanding != 0 && d.pauseToken == 0 then [d.engine.outstanding] else []
  }

  /**
   * Between callbacks, or with `batch` still to run in one: Draconity is in order, the pauses taken off the
   * queue are those handled and those in the batch, and at most one announced pause is still on its way.
   */
  ghost predicate InOrder(d: Draconity, batch: seq<Task>)
    reads d, d.Repr, d.engine`words, d.engine`handles, d.engine`unloadFaults, d.engine`resumed, d.engine`outstanding
    reads d.server`clients, d.server`clientNonce, d.server`invokeQueue, d.server`pushed, d.server`taken,
          d.server`announced
  {
    && d.Valid()
    && PauseTokens(d.server.taken) == d.pauses + PauseTokens(batch)
    && d.server.announced == d.pauses + Announced(d)
    && (d.pauseToken != 0 ==> d.engine.outstanding == d.pauseToken)
  }

  ghost function RunState(d: Draconity): R.State
    reads d`shadowWords, d`loadedWords, d`shadowGrammars, d`lives, d`issued, d`dropped
    reads d.server`pushed, d.server`clients, d.server`clientNonce
    reads d.engine`handles, d.engine`unloadFaults, d.engine`calls
  {
    R.State(d.State(), d.server.Ids(), d.server.clientNonce)
  }

  ghost function View(d: Draconity): Program
    reads d, d.server, d.engine`handles, d.engine`unloadFaults, d.engine`calls, d.engine`resumed
  {
    Program(d.ready, d.Pausing(), LoopState(d), RunState(d))
  }

  /** A pause that is next to run is the one the engine is waiting for. */
  lemma NextPause(d: Draconity, token: nat, rest: seq<Task>)
    requires InOrder(d, [HandlePause(token)] + rest)
    ensures d.pauseToken == 0 && token != 0 && d.engine.outstanding == token
    ensures PauseTokens(rest) == [] && PauseTokens(d.server.invokeQueue) == []
  {
    PauseTokensNext(rest, HandlePause(token));
    ConcatAppend(PauseTokenOf, d.server.taken, d.server.invokeQueue);
    var announced, more := d.server.announced, [token] + (PauseTokens(rest) + PauseTokens(d.server.invokeQueue));
    assert announced == d.pauses + more;
    Cut(d.pauses, more);
    Cut(d.pauses, Announced(d));
    assert more == Announced(d);
    assert more[0] == token && |more| == 1;
  }

  lemma EnabledPause(d: Draconity, token: nat)
    requires d.pauseToken == 0 && token != 0
    ensures P.Enabled(d.Pausing(), P.Pause(token))
  {
  }

  lemma NothingDelivered(task: Task, clients: seq<nat>)
    requires task.HandlePause?
    ensures Deliveries(task, clients) == []
  {
  }

  lemma PauseLeads(s: R.State, report: L.SyncReport, synced: World, clients: seq<nat>, token: nat)
    returns (trace: seq<R.Moved>)
    requires AllSynced(s.world, report, synced)
    ensures R.Leads(s, trace, KindsOf(clients)(HandlePause(token)),
            s.(world := Told(synced, PauseNotice(token, clients))))
  {
    hide AllSynced, R.Leads, PauseNotice;
    var mid, notice := s.(world := synced), PauseNotice(token, clients);
    var first := R.SyncLeads(s, report, synced);
    NoticeIsNoReply(token, clients);
    var second := R.OthersLead(mid, notice);
    R.LeadsOn(s, first, [None], mid, second, [Some(R.Others(notice))], s.(world := Told(synced, notice)));
    trace := first + second;
    assert [None] + [Some(R.Others(notice))] == KindsOf(clients)(HandlePause(token));
  }

  lemma NoticeIsNoReply(token: nat, clients: seq<nat>)
    ensures forall t :: t in PauseNotice(token, clients) ==> !t.Send?
  {
  }

  lemma NothingHappens(p: P.PauseState)
    ensures P.Leads(p, [], p)
  {
  }

  /** One function of a drained batch. */
  method RunTask(d: Draconity, task: Task, ghost rest: seq<Task>) returns (ghost trace: seq<R.Moved>)
    requires InOrder(d, [task] + rest)
    modifies d, d.Repr, d.server, d.engine
    ensures InOrder(d, rest) && fresh(d.Repr - old(d.Repr)) && d.ready == old(d.ready)
    ensures d.server.clients == old(d.server.clients) && d.server.taken == old(d.server.taken)
    ensures d.server.clientNonce == old(d.server.clientNonce)
    ensures d.server.written == old(d.server.written) + Deliveries(task, d.server.clients)
    ensures R.Leads(old(RunState(d)), trace, KindsOf(d.server.clients)(task), RunState(d))
    ensures P.Leads(old(d.Pausing()), PauseOf(task), d.Pausing())
  {
    hide Draconity.Valid, PauseTokens, Deliveries, R.Leads, AllSynced, P.Leads, P.Step, PauseNotice;
    trace := [];
    ghost var s := RunState(d);
    R.NoStep(s);
    NothingHappens(d.Pausing());
    PauseTokensNext(rest, task);
    if task.HandlePause? {
      NextPause(d, task.token, rest);
      Associate(d.pauses, [task.token], PauseTokens(rest));
      EnabledPause(d, task.token);
      P.OneStep(d.Pausing(), P.Pause(task.token));
      ghost var report, synced := d.HandlePause(task.token);
      NothingDelivered(task, d.server.clients);
      trace := PauseLeads(s, report, synced, d.server.clients, task.token);
    } else {
      d.server.Deliver(task);
    }
  }

  /**
   * `drain_invoke_queue`: the functions queued at that moment run once each, in order; what they queue
   * themselves is left for the next drain.
   */
  method DrainInvokeQueue(d: Draconity) returns (ghost trace: seq<R.Moved>)
    requires InOrder(d, [])
    modifies d, d.Repr, d.server, d.engine
    ensures InOrder(d, []) && fresh(d.Repr - old(d.Repr)) && d.ready == old(d.ready)
    ensures d.server.clients == old(d.server.clients) && d.server.clientNonce == old(d.server.clientNonce)
    ensures d.server.taken == old(d.server.taken) + old(d.server.invokeQueue)
    ensures d.server.written
            == old(d.server.written) + Concat(DeliveriesTo(d.server.clients), old(d.server.invokeQueue))
    ensures R.Leads(old(RunState(d)), trace, Concat(KindsOf(d.server.clients), old(d.server.invokeQueue)), RunState(d))
    ensures P.Leads(old(d.Pausing()), Concat(PauseOf, old(d.server.invokeQueue)), d.Pausing())
  {
    hide Draconity.Valid, Draconity.State, Deliveries, PauseTokens, KindsOf, R.Leads, P.Leads;
    ghost var start, pausing, clients, written := RunState(d), d.Pausing(), d.server.clients, d.server.written;
    var functions := Take(d);
    trace := [];
    R.NoStep(start);
    NothingHappens(pausing);
    var i := 0;
    assert functions[0..] == functions;
    while i < |functions|
      invariant 0 <= i <= |functions|
      invariant InOrder(d, functions[i..]) && fresh(d.Repr - old(d.Repr)) && d.ready == old(d.ready)
      invariant d.server.clients == clients && d.server.clientNonce == old(d.server.clientNonce)
      invariant d.server.taken == old(d.server.taken) + functions
      invariant d.server.written == written + Concat(DeliveriesTo(clients), functions[..i])
      invariant R.Leads(start, trace, Concat(KindsOf(clients), functions[..i]), RunState(d))
      invariant P.Leads(pausing, Concat(PauseOf, functions[..i]), d.Pausing())
    {
      ghost var before, machine := RunState(d), d.Pausing();
      assert functions[i..] == [functions[i]] + functions[i + 1..];
      ConcatNext(DeliveriesTo(clients), functions, i);
      ConcatNext(PauseOf, functions, i);
      ConcatNext(KindsOf(clients), functions, i);
      Associate(written, Concat(DeliveriesTo(clients), functions[..i]), Deliveries(functions[i], clients));
      ghost var more := RunTask(d, functions[i], functions[i + 1..]);
      R.LeadsOn(start, trace, Concat(KindsOf(clients), functions[..i]), before,
                more, KindsOf(clients)(functions[i]), RunState(d));
      P.LeadsOn(pausing, Concat(PauseOf, functions[..i]), machine, PauseOf(functions[i]), d.Pausing());
      trace := trace + more;
      i := i + 1;
    }
    assert functions[..i] == functions && functions[i..] == [];
  }

  method Take(d: Draconity) returns (functions: seq<Task>)
    requires InOrder(d, [])
    modifies d.server`invokeQueue, d.server`wakeup, d.server`taken
    ensures InOrder(d, functions) && functions == old(d.server.invokeQueue)
    ensures d.server.taken == old(d.server.taken) + functions
  {
    hide Draconity.GrammarsValid, Draconity.VocabularyValid, Draconity.QueueValid, Draconity.LedgerBalanced;
    hide Draconity.PauseValid, UvServer.Valid;
    ConcatAppend(PauseTokenOf, d.server.taken, d.server.invokeQueue);
    functions := d.server.TakeQueue();
  }

  // -- one event --------------------------------------------------------------------------------

  method EnginePauses(d: Draconity, token: nat)
    requires InOrder(d, []) && token != 0 && d.engine.outstanding == 0
    modifies d.server`invokeQueue, d.server`wakeup, d.server`pushed, d.server`announced, d.engine`outstanding
    ensures InOrder(d, []) && d.server.pushed == old(d.server.pushed) + [HandlePause(token)]
            && d.Pausing() == old(d.Pausing())
  {
    hide Draconity.GrammarsValid, Draconity.VocabularyValid, Draconity.QueueValid, UvServer.Valid, PauseTokens,
         P.Invariant;
    PauseIsNoAnswer(d, token);
    d.engine.Pause(token);
    d.server.InvokePause(token);
  }

  lemma PauseIsNoAnswer(d: Draconity, token: nat)
    requires d.LedgerBalanced()
    ensures L.Balanced(d.issued, d.server.pushed + [HandlePause(token)], d.shadowGrammars, d.dropped)
  {
    L.BalanceOthers(d.issued, d.server.pushed, d.shadowGrammars, d.dropped, [HandlePause(token)]);
  }

  method Receives(d: Draconity, client: nat, tid: nat, command: Command) returns (ghost trace: seq<R.Moved>)
    requires InOrder(d, []) && client in d.server.clients && ValidCommand(command)
    modifies d, d.Repr, d.server, d.engine
    ensures InOrder(d, []) && fresh(d.Repr - old(d.Repr)) && d.ready == old(d.ready)
    ensures R.Leads(old(RunState(d)), trace,
                    EventKinds(Receive(client, tid, command), old(d.ready), old(d.pauseToken), [], []), RunState(d))
    ensures P.Leads(old(d.Pausing()), PauseEvents(Receive(client, tid, command), 0, []), d.Pausing())
    ensures d.server.clients == old(d.server.clients) && d.server.clientNonce == old(d.server.clientNonce)
    ensures d.server.taken == old(d.server.taken) && d.server.written == old(d.server.written)
  {
    hide Draconity.Valid, ValidCommand, Performed, R.Leads, P.Leads, R.CommandKinds;
    ghost var machine := d.Pausing();
    NothingHappens(machine);
    P.OneStep(machine, P.Unpause(client, if command.UnpauseWith? then command.token else 0));
    ghost var s, ready, token := RunState(d), d.ready, d.pauseToken;
    var reply;
    ghost var report, done;
    reply, report, done := d.HandleMessage(client, tid, command);
    ghost var first := R.CommandLeads(s, ready, token, client, tid, command, report, done);
    ghost var mid, echo := s.(world := done), [Publish(CommandEcho(!reply.Refused?))];
    ghost var second := R.OthersLead(mid, echo);
    R.LeadsOn(s, first, R.CommandKinds(ready, token, client, tid, command), mid, second, [Some(R.Others(echo))],
        RunState(d));
    trace := first + second;
  }

  /** Any event: everything stays in order, the pause machine takes the steps the event stands for, and the
      reconciler takes its own. */
  method HandleEvent(d: Draconity, ev: Event) returns (ghost record: Record)
    requires InOrder(d, []) && CanHappen(View(d), ev) && ValidEvent(ev)
    modifies d, d.Repr, d.server, d.engine
    ensures InOrder(d, []) && fresh(d.Repr - old(d.Repr))
    ensures Handled(old(View(d)), ev, record) && record.after == View(d)
  {
    hide Draconity.Valid, ValidCommand, R.Leads, P.Leads, RunState, Deliveries, R.CommandKinds, PauseTokens;
    OutstandingIs(d);
    ghost var before := View(d);
    R.NoStep(before.reconciler);
    NothingHappens(before.pausing);
    ghost var trace := [];
    match ev {
      case Accept => trace := Accepts(d);
      case Close(client) => trace := Closes(d, client);
      case Receive(client, tid, command) => trace := Receives(d, client, tid, command);
      case TimerFires =>
        P.OneStep(before.pausing, P.Timeout);
        d.OnTimeout();
      case EnginePauses(token) => trace := Announces(d, token);
      case EngineReady => d.OnReady();
      case Drain => trace := DrainInvokeQueue(d);
    }
    SentIs(d);
    if !ev.Drain? {
      NothingRuns(ev, before.loop, d.server.invokeQueue);
    }
    record := Record(trace, EventPauses(before, ev), View(d));
  }

  lemma SentIs(d: Draconity)
    requires d.Valid()
    ensures RunState(d).world.words.sent == d.server.taken + d.server.invokeQueue
  {
  }

  method Announces(d: Draconity, token: nat) returns (ghost trace: seq<R.Moved>)
    requires InOrder(d, []) && token != 0 && d.engine.outstanding == 0
    modifies d.server`invokeQueue, d.server`wakeup, d.server`pushed, d.server`announced, d.engine`outstanding
    ensures InOrder(d, []) && d.Pausing() == old(d.Pausing())
    ensures R.Leads(old(RunState(d)), trace, [Some(R.Others([HandlePause(token)]))], RunState(d))
  {
    hide Draconity.Valid, R.Leads;
    ghost var before := RunState(d);
    EnginePauses(d, token);
    trace := R.OthersLead(before, [HandlePause(token)]);
  }

  method Accepts(d: Draconity) returns (ghost trace: seq<R.Moved>)
    requires InOrder(d, [])
    modifies d.server
    ensures InOrder(d, []) && R.Leads(old(RunState(d)), trace, [Some(R.Connect)], RunState(d))
    ensures P.Leads(old(d.Pausing()), [P.Connect(old(d.server.clientNonce))], d.Pausing())
    ensures d.server.clients == old(d.server.clients) + [old(d.server.clientNonce)]
    ensures d.server.clientNonce == old(d.server.clientNonce) + 1
    ensures d.server.taken == old(d.server.taken) && d.server.written == old(d.server.written)
  {
    hide Draconity.Valid, R.Leads, P.Leads;
    ghost var before, machine := RunState(d), d.Pausing();
    var id := d.OnConnect();
    P.OneStep(machine, P.Connect(id));
    assert d.server.Ids() == before.clients + {id};
    R.OneStep(before, R.Connect, RunState(d));
    trace := [R.Moved(R.Connect, RunState(d))];
  }

  method Closes(d: Draconity, client: nat) returns (ghost trace: seq<R.Moved>)
    requires InOrder(d, []) && client in d.server.clients
    modifies d, d.Repr, d.server, d.engine
    ensures InOrder(d, []) && fresh(d.Repr - old(d.Repr)) && d.ready == old(d.ready)
    ensures R.Leads(old(RunState(d)), trace, EventKinds(Close(client), old(d.ready), old(d.pauseToken), [], []),
            RunState(d))
    ensures P.Leads(old(d.Pausing()), [P.Disconnect(client)], d.Pausing())
    ensures d.server.clients == Without(old(d.server.clients), client)
    ensures d.server.clientNonce == old(d.server.clientNonce)
    ensures d.server.taken == old(d.server.taken) && d.server.written == old(d.server.written)
  {
    hide Draconity.Valid, R.Leads, AllSynced, TakenBack, P.Leads;
    P.OneStep(d.Pausing(), P.Disconnect(client));
    ghost var before, paused := RunState(d), d.pauseToken != 0;
    ghost var taken, report := d.OnClose(client);
    ghost var mid := before.(world := taken, clients := before.clients - {client});
    R.OneStep(before, R.Disconnect(client), mid);
    trace := [R.Moved(R.Disconnect(client), mid)];
    if paused {
      ghost var rest := R.SyncLeads(mid, report, d.State());
      R.LeadsOn(before, trace, [Some(R.Disconnect(client))], mid, rest, [None], RunState(d));
      trace := trace + rest;
    } else {
      assert [Some(R.Disconnect(client))] + [] == [Some(R.Disconnect(client))];
    }
  }

  /** A fresh engine, server and reconciler are in order; `HandleEvent` keeps them so, whatever happens. */
  method Start() returns (d: Draconity)
    ensures fresh(d) && fresh(d.engine) && fresh(d.server) && fresh(d.Repr) && InOrder(d, [])
    ensures RunState(d) == R.START && d.Pausing() == P.INITIAL && d.engine.words == {} && d.engine.outstanding == 0
    ensures LoopState(d) == START && !d.ready
  {
    hide Draconity.GrammarsValid, Draconity.VocabularyValid, Draconity.QueueValid, Draconity.LedgerBalanced;
    hide Draconity.PauseValid, UvServer.Valid;
    var engine := new EngineModel.Engine();
    var server := new UvServer();
    d := new Draconity(engine, server);
  }

  /** An announced pause that has not been handled waits in the queue. */
  lemma OutstandingIs(d: Draconity)
    requires InOrder(d, [])
    ensures d.engine.outstanding == 0 <==> d.pauseToken == 0 && PauseTokens(d.server.invokeQueue) == []
  {
    hide P.Invariant, Draconity.VocabularyValid, Draconity.GrammarsValid, Draconity.QueueValid,
         Draconity.LedgerBalanced;
    ConcatAppend(PauseTokenOf, d.server.taken, d.server.invokeQueue);
    assert PauseTokens([]) == [];
    Cut(d.pauses, PauseTokens(d.server.invokeQueue));
    Cut(d.pauses, Announced(d));
  }

  lemma StartIsNothing(d: Draconity)
    requires RunState(d) == R.START && d.Pausing() == P.INITIAL && LoopState(d) == START && !d.ready
    ensures View(d) == NOTHING
  {
  }

  /** Whether the outside world can do this now. */
  method Happens(d: Draconity, ev: Event) returns (can: bool)
    requires InOrder(d, [])
    ensures can == CanHappen(View(d), ev)
  {
    hide Draconity.Valid, RunState;
    OutstandingIs(d);
    match ev
    case Close(client) => can := client in d.server.clients;
    case Receive(client, _, _) => can := client in d.server.clients;
    case TimerFires => can := d.pauseTimer;
    case EnginePauses(token) => can := token != 0 && d.engine.outstanding == 0;
    case _ => can := true;
  }

  method NextEvent(d: Draconity, ev: Event) returns (ghost record: Record)
    requires InOrder(d, []) && ValidEvent(ev)
    modifies d, d.Repr, d.server, d.engine
    ensures InOrder(d, []) && fresh(d.Repr - old(d.Repr))
    ensures Follows(old(View(d)), ev, record) && record.after == View(d)
  {
    hide Draconity.Valid, View, ValidEvent, Handled, CanHappen;
    record := Record([], [], View(d));
    var can := Happens(d, ev);
    if can {
      record := HandleEvent(d, ev);
    }
  }

  /**
   * The program: it starts with nothing, and handles one event after the other, whichever come; those that cannot
   * happen as things are do not.
   */
  method RunLoop(events: seq<Event>) returns (d: Draconity, ghost records: seq<Record>)
    requires forall ev :: ev in events ==> ValidEvent(ev)
    ensures InOrder(d, []) && RunOf(NOTHING, events, records) && View(d) == Reached(NOTHING, records)
  {
    hide InOrder, View, RunState, ValidEvent, Follows, RunOf, Reached;
    d := Start();
    records := [];
    StartIsNothing(d);
    NoRecords(NOTHING);
    for i := 0 to |events|
      invariant fresh(d) && fresh(d.engine) && fresh(d.server) && fresh(d.Repr) && InOrder(d, [])
      invariant RunOf(NOTHING, events[..i], records) && View(d) == Reached(NOTHING, records)
    {
      assert events[..i + 1] == events[..i] + [events[i]];
      ghost var record := NextEvent(d, events[i]);
      OneMoreRecord(NOTHING, events[..i], records, events[i], record);
      records := records + [record];
    }
    assert events[..|events|] == events;
  }
}
