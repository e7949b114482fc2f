/** Runs of the whole program: what every one of them is, and what it promises the clients. */
module ProgramRuns {
  import opened Bytes
  import opened Events
  import opened LoopRuns
  import opened Messages
  import opened Server
  import D = Delivery
  import H = HeardRuns
  import L = Ledger
  import P = Pausing
  import Q = InvokeQueue
  import R = Runs
  import RR = RequestRuns
  import W = WordRuns

  function TraceOf(r: Record): seq<R.Moved> {
    r.trace
  }

  function PausesOf(r: Record): seq<P.PauseEvent> {
    r.pauses
  }

  lemma DrainEvent(trace: seq<R.Moved>, loop: Loop, steps: seq<Q.Step>, log: seq<Ran>, more: seq<R.Moved>,
                   s': R.State, loop': Loop) returns (steps': seq<Q.Step>, log': seq<Ran>)
    requires Carries(trace, loop, steps, log)
    requires var s := R.Final(R.START, trace);
      R.Leads(s, more, Concat(KindsOf(loop.clients), loop.queue), s') && s.world.words.sent == loop.taken + loop.queue
    requires s'.world.words.sent == loop'.taken + loop'.queue && loop' == LoopAfter(Drain, loop, loop'.queue)
    ensures Carries(trace + more, loop', steps', log')
  {
    hide Carries, RanAs, KindsOf, R.Leads;
    var s := R.Final(R.START, trace);
    var ran := DrainRan(trace, s, more, loop.clients, loop.queue, s');
    Cut(s.world.words.sent, Concat(PushedBy, ran));
    Cut(loop'.taken, loop'.queue);
    assert loop' == AfterDrain(loop, ran);
    steps' := DrainCarries(trace, loop, steps, log, trace + more, ran);
    log' := log + ran;
  }

  lemma OtherEvent(ev: Event, trace: seq<R.Moved>, loop: Loop, steps: seq<Q.Step>, log: seq<Ran>, tasks: seq<Task>,
                   more: seq<R.Moved>, loop': Loop) returns (steps': seq<Q.Step>)
    requires Carries(trace, loop, steps, log) && !ev.Drain? && (ev.Close? ==> ev.client in loop.clients)
    requires loop' == LoopAfter(ev, loop, loop.queue + tasks)
    ensures Carries(trace + more, loop', steps', log)
  {
    hide Carries, Without;
    var mid, listed := steps, loop;
    if ev.Accept? {
      mid := ConnectCarries(trace, loop, steps, log);
      listed := loop.(clients := loop.clients + [loop.nonce], nonce := loop.nonce + 1);
    } else if ev.Close? {
      mid := DisconnectCarries(trace, loop, steps, log, ev.client);
      listed := loop.(clients := Without(loop.clients, ev.client));
    }
    steps' := PushCarries(trace, listed, mid, log, trace + more, tasks);
    assert loop' == listed.(queue := listed.queue + tasks);
  }

  /** An event of the run, as steps of the invoke queue and what its functions do. */
  lemma EventCarries(ev: Event, ready: bool, token: nat, trace: seq<R.Moved>, loop: Loop, steps: seq<Q.Step>,
                     log: seq<Ran>, more: seq<R.Moved>, s': R.State, loop': Loop)
    returns (steps': seq<Q.Step>, log': seq<Ran>)
    requires Carries(trace, loop, steps, log) && (ev.Close? ==> ev.client in loop.clients)
    requires var s := R.Final(R.START, trace);
      && R.Leads(s, more, EventKinds(ev, ready, token, loop.clients, loop.queue), s')
      && s.world.words.sent == loop.taken + loop.queue
    requires s'.world.words.sent == loop'.taken + loop'.queue && loop' == LoopAfter(ev, loop, loop'.queue)
    ensures Carries(trace + more, loop', steps', log')
  {
    hide Carries, KindsOf, Without, R.Final, R.Chain;
    if ev.Drain? {
      steps', log' := DrainEvent(trace, loop, steps, log, more, s', loop');
    } else {
      var sent := R.Final(R.START, trace).world.words.sent;
      SentGrows(R.Final(R.START, trace), more);
      var tasks := s'.world.words.sent[|sent|..];
      Associate(loop.taken, loop.queue, tasks);
      Cut(loop.taken, loop'.queue);
      Cut(loop.taken, loop.queue + tasks);
      steps' := OtherEvent(ev, trace, loop, steps, log, tasks, more, loop');
      log' := log;
    }
  }

  lemma RunLess(events: seq<Event>, records: seq<Record>)
    requires RunOf(NOTHING, events, records) && records != []
    ensures var n := |records| - 1;
      && RunOf(NOTHING, events[..n], records[..n])
      && Follows(Reached(NOTHING, records[..n]), events[n], records[n])
  {
    hide Follows, Reached;
    forall i | 0 <= i < |records| - 1 ensures records[..|records| - 1][..i] == records[..i] {
    }
  }

  /** Where a run has led: the reconciler, the pause machine and the invoke queue. */
  ghost predicate Led(p: Program, trace: seq<R.Moved>, pauses: seq<P.PauseEvent>, steps: seq<Q.Step>, log: seq<Ran>) {
    && R.Chain(R.START, trace) && R.Final(R.START, trace) == p.reconciler
    && P.Leads(P.INITIAL, pauses, p.pausing)
    && Carries(trace, p.loop, steps, log)
    && p.reconciler.world.words.sent == p.loop.taken + p.loop.queue
  }

  lemma LedAtTheStart()
    ensures Led(NOTHING, [], [], [], [])
  {
  }

  lemma OneMore(p: Program, trace: seq<R.Moved>, pauses: seq<P.PauseEvent>, steps: seq<Q.Step>, log: seq<Ran>,
                ev: Event, r: Record) returns (steps': seq<Q.Step>, log': seq<Ran>)
    requires Led(p, trace, pauses, steps, log) && Follows(p, ev, r)
    ensures Led(r.after, trace + r.trace, pauses + r.pauses, steps', log')
  {
    hide R.Chain, R.Leads, Carries, P.Leads, LoopAfter, EventKinds, PauseEvents, R.Final;
    if CanHappen(p, ev) {
      steps', log' := EventCarries(ev, p.ready, p.pausing.token, trace, p.loop, steps, log, r.trace,
                                   r.after.reconciler, r.after.loop);
      LeadsFromTheStart(trace, p.reconciler, r.trace,
                        EventKinds(ev, p.ready, p.pausing.token, p.loop.clients, p.loop.queue), r.after.reconciler);
      P.LeadsOn(P.INITIAL, pauses, p.pausing, r.pauses, r.after.pausing);
    } else {
      assert trace + [] == trace && pauses + [] == pauses;
      steps', log' := steps, log;
    }
  }

  lemma LeadsFromTheStart(trace: seq<R.Moved>, s: R.State, more: seq<R.Moved>, kinds: Kinds, s': R.State)
    requires R.Chain(R.START, trace) && R.Final(R.START, trace) == s && R.Leads(s, more, kinds, s')
    ensures R.Chain(R.START, trace + more) && R.Final(R.START, trace + more) == s'
  {
    R.ChainAppend(R.START, trace, more);
  }

  /**
   * Every run of the program, whatever events come, is one run of the reconciler from nothing, one of the pause
   * machine, and one of the invoke queue in which the functions push what the reconciler pushes.
   */
  lemma {:induction false} EveryRunIsOfAllThree(events: seq<Event>, records: seq<Record>)
    returns (steps: seq<Q.Step>, log: seq<Ran>)
    requires RunOf(NOTHING, events, records)
    ensures Led(Reached(NOTHING, records), Concat(TraceOf, records), Concat(PausesOf, records), steps, log)
    decreases |records|
  {
    hide Led, Concat, Follows;
    if records == [] {
      LedAtTheStart();
      NoneYet();
      steps, log := [], [];
    } else {
      var n := |records| - 1;
      RunLess(events, records);
      ConcatNext(TraceOf, records, n);
      ConcatNext(PausesOf, records, n);
      assert records[..n + 1] == records;
      steps, log := EveryRunIsOfAllThree(events[..n], records[..n]);
      steps, log := OneMore(Reached(NOTHING, records[..n]), Concat(TraceOf, records[..n]),
                            Concat(PausesOf, records[..n]), steps, log, events[n], records[n]);
    }
  }

  lemma NoneYet()
    ensures Concat(TraceOf, []) == [] && Concat(PausesOf, []) == []
  {
  }

  // -- what every run of the program promises ----------------------------------------------------------------

  /** Nothing has been asked for, and nobody is gone, before a run begins. */
  lemma NothingAsked(t: L.Ticket, client: nat, tid: nat)
    ensures R.Known(R.START) && H.WithdrawalsOfTheGone(R.START) && H.Unmade(R.START, t)
    ensures W.Fresh(R.START, client, tid)
  {
  }

  /** The reconciler's steps in a run. */
  function Steps(records: seq<Record>): seq<R.Moved> {
    Concat(TraceOf, records)
  }

  /** All that was handed to the event loop for the clients, whether it has been written yet or not. */
  function Sent(p: Program): seq<Task> {
    p.loop.taken + p.loop.queue
  }

  /**
   * In every run of the program, a client that has used a transaction id for one grammar request, and is still
   * connected, has been answered under it exactly as the request went.
   */
  lemma GrammarRequestsAreAnswered(events: seq<Event>, records: seq<Record>, i: nat, t: L.Ticket)
    requires RunOf(NOTHING, events, records)
    requires var trace := Steps(records);
      i < |trace| && forall j :: 0 <= j < |trace| ==> (H.Submits(trace[j].step, t) <==> j == i)
    requires t.client in Reached(NOTHING, records).reconciler.clients
    ensures var trace, end := Steps(records), Reached(NOTHING, records);
      var fate := RR.FateOf(trace[i].after, trace[i + 1..], t.name);
      && H.Heard(Sent(end), t) == H.FateStatus(fate, t.name)
      && (H.Queueing(end.reconciler, t) <==> fate.Pending?)
      && (fate.Reached? ==> t.name in fate.report.outcomes)
  {
    var steps, log := EveryRunIsOfAllThree(events, records);
    NothingAsked(t, 0, 0);
    hide R.Chain, H.Heard, H.WithdrawalsOfTheGone, H.Unmade, R.Known, Concat, RunOf;
    H.AClientHearsWhatBecame(R.START, Steps(records), i, t);
  }

  /** And a request for words made under an id used once is skipped, answered by a synchronisation, or still waiting. */
  lemma WordRequestsAreAnswered(events: seq<Event>, records: seq<Record>, i: nat, client: nat, tid: nat)
    requires RunOf(NOTHING, events, records)
    requires var trace := Steps(records);
      i < |trace| && forall j :: 0 <= j < |trace| ==> (W.Sets(trace[j].step, client, tid) <==> j == i)
    ensures var verdict := W.Verdict(Steps(records)[i + 1..], client);
      var got := W.Outcomes(Sent(Reached(NOTHING, records)), client, tid);
      if verdict.None? then got == []
      else if verdict.value.Sync? then got != [] && Skipped !in got
      else got == [Skipped]
  {
    var steps, log := EveryRunIsOfAllThree(events, records);
    NothingAsked(L.Ticket("", client, tid), client, tid);
    hide R.Chain, W.Outcomes, W.Verdict, W.Fresh, R.Known, Concat, RunOf;
    W.OutcomesAreExclusive(R.START, Steps(records), i, client, tid);
  }

  /**
   * And a client is written that the engine is paused only after its answers: every run of the program is one of the
   * invoke queue, and wherever a connection was written the notice in it, all its answers of that pause came before.
   */
  lemma PausesAreAnnouncedLast(events: seq<Event>, records: seq<Record>) returns (steps: seq<Q.Step>, log: seq<Ran>)
    requires RunOf(NOTHING, events, records)
    ensures Carries(Steps(records), Reached(NOTHING, records).loop, steps, log)
    ensures var q := Q.Run(Pushes(log), Q.INITIAL, steps);
      forall conn: nat, k: nat, token: nat, j: nat :: D.NoticeAt(q, conn, k, token, j) ==>
        && k < |log| && RanAs(Steps(records), HandlePause(token), log[k])
        && D.AllAnswered(WorldAt(Steps(records), log[k].at), Steps(records)[log[k].at].step.report,
                         q.sessions[conn].id, D.Before(q, conn, k, j))
  {
    steps, log := EveryRunIsOfAllThree(events, records);
    var q, end := Q.Run(Pushes(log), Q.INITIAL, steps), Reached(NOTHING, records);
    hide R.Chain, Carries, D.AllAnswered, Concat, RunOf, Q.Run, Q.Possible, RanAs;
    forall conn: nat, k: nat, token: nat, j: nat | D.NoticeAt(q, conn, k, token, j)
      ensures k < |log| && RanAs(Steps(records), HandlePause(token), log[k])
        && D.AllAnswered(WorldAt(Steps(records), log[k].at), Steps(records)[log[k].at].step.report,
                         q.sessions[conn].id, D.Before(q, conn, k, j))
    {
      ClientsHearBeforeTheNotice(Steps(records), end.loop, steps, log, conn, k, token, j);
    }
  }
}
