/** What the events of a run ask of the reconciler, and what comes of it, in terms of the commands themselves. */
module CommandRuns {
  import opened Bytes
  import opened Commands
  import opened Events
  import opened Grammars
  import opened LoopRuns
  import opened Messages
  import opened ProgramRuns
  import R = Runs
  import W = WishRuns

  lemma {:induction false} KindsAt(trace: seq<R.Moved>)
    ensures |R.Kinds(trace)| == |trace|
    ensures forall i :: 0 <= i < |trace| ==>
              R.Kinds(trace)[i] == if trace[i].step.Sync? then None else Some(trace[i].step)
  {
    if trace != [] {
      KindsAt(trace[1..]);
    }
  }

  /** Whether a command is accepted: what it needs, and nothing else. */
  predicate Accepted(p: Program, command: Command) {
    match command
    case WordSet(words) => p.ready && words.Some?
    case GrammarSet(name, data, rules, lists) =>
      p.ready && name.Some? && data.Some? && data.value != [] && rules.Some? && !lists.Broken?
    case GrammarUnload(name) => p.ready && name.Some?
    case UnpauseWith(token) => token != 0 && token == p.pausing.token
  }

  /** The reason a command is refused for is the first that applies. */
  lemma RefusedForAReason(p: Program, command: Command)
    ensures var reply := ReplyTo(p.ready, p.pausing.token, command);
      && (reply.Refused? <==> !Accepted(p, command))
      && (reply.Done? <==> Accepted(p, command) && command.UnpauseWith?)
      && (command.UnpauseWith? && reply.Refused? ==> reply.why == BadToken)
      && (!command.UnpauseWith? && !p.ready ==> reply == Refused(NotReady))
      && (p.ready && command.WordSet? && reply.Refused? ==> reply.why == BadWords)
      && (p.ready && command.GrammarUnload? && reply.Refused? ==> reply.why == NoName)
      && (p.ready && command.GrammarSet? ==>
            var named, data := command.name.Some?, command.data.Some? && command.data.value != [];
            && (reply == Refused(NoName) <==> !named)
            && (reply == Refused(BadData) <==> named && !data)
            && (reply == Refused(BadRules) <==> named && data && command.rules.None?)
            && (reply == Refused(BadLists) <==> named && data && command.rules.Some? && command.lists.Broken?))
  {
  }

  /** An accepted command asks for what it says, in one step, which a synchronisation follows if the engine is paused;
      a refused one asks for nothing; and either is echoed last. */
  lemma ACommandAsksForWhatItSays(p: Program, client: nat, tid: nat, command: Command, r: Record)
    requires Handled(p, Receive(client, tid, command), r)
    ensures r.trace != []
    ensures r.trace[|r.trace| - 1].step == R.Others([Publish(CommandEcho(Accepted(p, command)))])
    ensures !Accepted(p, command) || command.UnpauseWith? ==> |r.trace| == 1
    ensures Accepted(p, command) && command.WordSet? ==>
      |r.trace| == 2 && r.trace[0].step == R.SetWords(client, tid, command.words.value)
    ensures Accepted(p, command) && (command.GrammarSet? || command.GrammarUnload?) ==>
      && |r.trace| == (if p.pausing.token == 0 then 2 else 3)
      && (p.pausing.token != 0 ==> r.trace[1].step.Sync?)
      && r.trace[0].step.Submit? && Some(r.trace[0].step.name) == command.name
    ensures Accepted(p, command) && command.GrammarUnload? ==> r.trace[0].step.req == Unload(client, tid)
    ensures Accepted(p, command) && command.GrammarSet? ==>
      var lists := if command.lists.Given? then command.lists.lists else map[];
      r.trace[0].step.req == Set(client, tid, command.data.value, command.rules.value, lists)
  {
    hide R.Chain;
    RefusedForAReason(p, command);
    KindsAt(r.trace);
  }

  /** A connection that closes withdraws what its client has asked for, and that is synchronised at once if the engine
      is paused. No event but these and commands asks for anything. */
  lemma OtherEventsAsk(p: Program, ev: Event, r: Record)
    requires Handled(p, ev, r) && !ev.Receive?
    ensures ev.Close? ==>
      && |r.trace| == (if p.pausing.token == 0 then 1 else 2)
      && r.trace[0].step == R.Disconnect(ev.client)
      && (p.pausing.token != 0 ==> r.trace[1].step.Sync?)
    ensures !ev.Close? ==> forall m :: m in r.trace ==> m.step.Sync? || m.step.Others? || m.step.Connect?
  {
    hide R.Chain;
    KindsAt(r.trace);
    if ev.Drain? {
      DrainKinds(p.loop.clients, p.loop.queue);
    }
  }

  lemma {:induction false} DrainKinds(clients: seq<nat>, tasks: seq<Task>)
    ensures forall kind :: kind in Concat(KindsOf(clients), tasks) ==> kind.None? || kind.value.Others?
  {
    if tasks != [] {
      DrainKinds(clients, tasks[1..]);
    }
  }

  // -- over the runs of the program ------------------------------------------------------------------------

  /** How things are when event number `i` comes. */
  function AtEvent(records: seq<Record>, i: nat): Program
    requires i <= |records|
  {
    Reached(NOTHING, records[..i])
  }

  /** The number of the reconciler's first step for it. */
  function StepNumber(records: seq<Record>, i: nat): nat
    requires i <= |records|
  {
    |Steps(records[..i])|
  }

  lemma StepsOfEvent(events: seq<Event>, records: seq<Record>, i: nat)
    requires RunOf(NOTHING, events, records) && i < |events|
    ensures Follows(AtEvent(records, i), events[i], records[i])
    ensures var at := StepNumber(records, i);
      && at + |records[i].trace| <= |Steps(records)|
      && Steps(records)[..at] == Steps(records[..i])
      && forall j :: 0 <= j < |records[i].trace| ==> Steps(records)[at + j] == records[i].trace[j]
  {
    hide Concat, Follows, Reached;
    ConcatNext(TraceOf, records, i);
    var before, now := Steps(records[..i]), records[i].trace;
    var rest := Concat(TraceOf, records[i + 1..]);
    assert Steps(records) == before + now + rest;
    Associate(before, now, rest);
    Cut(before, now + rest);
    assert forall j :: 0 <= j < |now| ==> (now + rest)[j] == now[j];
  }

  lemma ReadyStep(p: Program, ev: Event, r: Record)
    requires Follows(p, ev, r)
    ensures r.after.ready <==> p.ready || ev.EngineReady?
  {
  }

  /** The program is ready once the engine has said so. */
  lemma {:induction false} ReadyOnceTheEngineIs(events: seq<Event>, records: seq<Record>)
    requires RunOf(NOTHING, events, records)
    ensures Reached(NOTHING, records).ready <==> EngineReady in events
    decreases |records|
  {
    hide Follows, RunOf;
    OneRecordEach(events, records);
    if records != [] {
      var n := |records| - 1;
      RunLess(events, records);
      ReadyStep(Reached(NOTHING, records[..n]), events[n], records[n]);
      ReadyOnceTheEngineIs(events[..n], records[..n]);
      assert events == events[..n] + [events[n]];
    }
  }

  lemma OneRecordEach(events: seq<Event>, records: seq<Record>)
    requires RunOf(NOTHING, events, records)
    ensures |events| == |records|
  {
  }

  lemma RunIsChain(events: seq<Event>, records: seq<Record>)
    requires RunOf(NOTHING, events, records)
    ensures R.Chain(R.START, Steps(records))
  {
    hide R.Chain, RunOf;
    var steps, log := EveryRunIsOfAllThree(events, records);
  }

  lemma ChainUpTo(trace: seq<R.Moved>, k: nat)
    requires R.Chain(R.START, trace) && k < |trace|
    ensures R.Chain(R.START, trace[..k] + [trace[k]])
  {
    hide R.Moves;
    R.ChainSplit(R.START, trace, k + 1);
    assert trace[..k + 1] == trace[..k] + [trace[k]];
  }

  /**
   * In every run of the program: a g.set that is accepted, and that nothing overtakes before the next synchronisation,
   * is live after it if none of the calls for it failed, with the blob and the rules of the command, and with its
   * lists over those that were kept; and if one failed, nothing is live under its name.
   */
  lemma AGrammarSetGoesLive(events: seq<Event>, records: seq<Record>, i: nat, k: nat, client: nat, tid: nat,
                            name: string, data: seq<byte>, rules: set<string>, lists: ListsField)
    requires RunOf(NOTHING, events, records) && i < |events|
    requires events[i] == Receive(client, tid, GrammarSet(Some(name), Some(data), Some(rules), lists))
    requires CanHappen(AtEvent(records, i), events[i]) && AtEvent(records, i).ready && data != [] && !lists.Broken?
    requires StepNumber(records, i) < k < |Steps(records)| && Steps(records)[k].step.Sync?
    requires W.NotOvertaken(Steps(records)[..k], StepNumber(records, i), name)
    ensures var m, kept := Steps(records)[k], W.StandingOf(Steps(records)[..k], name).live;
      var lives, calls := m.after.world.registry.lives, W.CallsFor(m.step.report, name);
      && (name in lives <==> !W.LoadFailedIn(calls))
      && (name in lives ==>
            && lives[name].client == client && lives[name].blob == data && lives[name].rules == rules
            && var asked, had := if lists.Given? then lists.lists else map[], lives[name].lists;
               var keeps := kept.Some? && (kept.value.blob == data || W.UnloadFailedIn(calls));
               forall l :: if l in asked then l in had && had[l] == asked[l]
                           else if keeps && l in kept.value.lists then l in had && had[l] == kept.value.lists[l]
                           else l !in had)
  {
    hide R.Chain, R.Moves, W.StandingOf, W.NotOvertaken, W.LoadFailedIn, W.UnloadFailedIn, Steps, R.Leads;
    var p, at, trace := AtEvent(records, i), StepNumber(records, i), Steps(records);
    StepsOfEvent(events, records, i);
    ACommandAsksForWhatItSays(p, client, tid, events[i].command, records[i]);
    assert trace[at + 0] == records[i].trace[0];
    RunIsChain(events, records);
    ChainUpTo(trace, k);
    W.WhatWasSetGoesLive(trace[..k], at, trace[k], name);
  }

  /**
   * In every run of the program: after the synchronisation that follows a w.set, the words it gave are loaded unless
   * they could not be added, and a word it did not give, and no other client wants, is loaded only if it could not
   * be deleted.
   */
  lemma AWordSetReplacesWords(events: seq<Event>, records: seq<Record>, i: nat, k: nat, client: nat, tid: nat,
                              words: set<CStr>, word: CStr)
    requires RunOf(NOTHING, events, records) && i < |events|
    requires events[i] == Receive(client, tid, WordSet(Some(words)))
    requires CanHappen(AtEvent(records, i), events[i]) && AtEvent(records, i).ready
    requires StepNumber(records, i) < k < |Steps(records)| && Steps(records)[k].step.Sync?
    requires forall j :: StepNumber(records, i) < j < k ==>
      && !Steps(records)[j].step.Sync? && Steps(records)[j].step != R.Disconnect(client)
      && !(Steps(records)[j].step.SetWords? && Steps(records)[j].step.client == client)
    ensures var m := Steps(records)[k];
      word in m.after.world.words.loaded <==>
        if word in words || W.WishedByOthers(Steps(records)[..k], client, word)
        then !W.AddFailedFor(m.step.report.wordCalls, word)
        else W.DeleteFailedFor(m.step.report.wordCalls, word)
  {
    hide R.Chain, R.Moves, Steps, R.Leads, W.WishedByOthers, W.AddFailedFor, W.DeleteFailedFor;
    var p, at, trace := AtEvent(records, i), StepNumber(records, i), Steps(records);
    StepsOfEvent(events, records, i);
    ACommandAsksForWhatItSays(p, client, tid, events[i].command, records[i]);
    assert trace[at + 0] == records[i].trace[0];
    RunIsChain(events, records);
    ChainUpTo(trace, k);
    W.WordsAreReplaced(trace[..k], at, trace[k], word);
  }
}
