/**
 * What the clients have asked for, read off the steps of a run alone: no record, no queue, nothing the reconciler
 * keeps. The engine's words, and the live grammars, are shown to be just that.
 */
module WishRuns {
  import opened Bytes
  import opened EngineModel
  import opened Grammars
  import opened GrammarSpec
  import opened Ledger
  import Messages
  import opened Runs
  import opened Words

  // -- words -----------------------------------------------------------------------------------------------

  /** A call to validate or add the word failed. */
  predicate AddFailedFor(calls: seq<Call>, word: CStr) {
    exists c :: c in calls && ((c.ValidateWord? && c.word == word && !c.valid)
                               || (c.AddTemporaryWord? && c.word == word && c.rc != 0))
  }

  predicate DeleteFailedFor(calls: seq<Call>, word: CStr) {
    exists c :: c in calls && c.DeleteWord? && c.word == word && c.rc != 0
  }

  /** The words a client wants: those it set last, unless it has disconnected since, without those that a
      synchronisation could not add. */
  function Wishes(trace: seq<Moved>, client: nat): set<CStr> {
    if trace == [] then {}
    else
      var before := Wishes(trace[..|trace| - 1], client);
      match trace[|trace| - 1].step
      case SetWords(c, _, words) => if c == client then words else before
      case Disconnect(c) => if c == client then {} else before
      case Sync(report) => set w | w in before && !AddFailedFor(report.wordCalls, w)
      case _ => before
  }

  lemma FailuresAre(calls: seq<Call>, word: CStr)
    ensures word in FailedAdds(calls) <==> AddFailedFor(calls, word)
    ensures word in FailedDeletes(calls) <==> DeleteFailedFor(calls, word)
  {
    forall e ensures e in WordErrors(calls) <==> exists c :: c in calls && e in WordErrorOf(c) {
      AmongErrors(calls, e);
    }
    if AddFailedFor(calls, word) {
      var c :| c in calls && ((c.ValidateWord? && c.word == word && !c.valid)
                              || (c.AddTemporaryWord? && c.word == word && c.rc != 0));
      assert WordErrorOf(c)[0] in WordErrors(calls);
    }
    if DeleteFailedFor(calls, word) {
      var c :| c in calls && c.DeleteWord? && c.word == word && c.rc != 0;
      assert WordErrorOf(c)[0] in WordErrors(calls);
    }
  }

  lemma AmongErrors(calls: seq<Call>, e: Messages.WordError)
    ensures e in WordErrors(calls) <==> exists c :: c in calls && e in WordErrorOf(c)
  {
    InConcat(WordErrorOf, calls, e);
    if c :| c in calls && e in WordErrorOf(c) {
      var i :| 0 <= i < |calls| && calls[i] == c;
    }
  }

  function Entry(s: State, client: nat): set<CStr> {
    if client in s.world.words.shadow then s.world.words.shadow[client].words else {}
  }

  lemma WishStep(s: State, trace: seq<Moved>, m: Moved, client: nat)
    requires Moves(s, m.step, m.after) && Entry(s, client) == Wishes(trace, client)
    ensures Entry(m.after, client) == Wishes(trace + [m], client)
  {
    assert (trace + [m])[..|trace|] == trace;
    if m.step.Sync? {
      forall w ensures w in FailedAdds(m.step.report.wordCalls) <==> AddFailedFor(m.step.report.wordCalls, w) {
        FailuresAre(m.step.report.wordCalls, w);
      }
    }
  }

  lemma {:induction false} EntriesAreWishes(trace: seq<Moved>, client: nat)
    requires Chain(START, trace)
    ensures Entry(Final(START, trace), client) == Wishes(trace, client)
    decreases |trace|
  {
    if trace != [] {
      var last := |trace| - 1;
      MovesAt(START, trace, last);
      EntriesAreWishes(trace[..last], client);
      WishStep(Final(START, trace[..last]), trace[..last], trace[last], client);
      assert trace == trace[..last] + [trace[last]];
    }
  }

  /** Whether some client wants the word. */
  ghost predicate Wished(trace: seq<Moved>, word: CStr) {
    exists c: nat :: word in Wishes(trace, c)
  }

  ghost predicate WishedByOthers(trace: seq<Moved>, client: nat, word: CStr) {
    exists c: nat :: c != client && word in Wishes(trace, c)
  }

  /**
   * Over every run: a synchronisation leaves a word loaded exactly if some client wants it and it could be added, or
   * nobody does and it could not be deleted; and no other step loads or deletes anything.
   */
  lemma LoadedIsWhatIsWished(trace: seq<Moved>, m: Moved, word: CStr)
    requires Chain(START, trace + [m])
    ensures word in m.after.world.words.loaded <==>
      if !m.step.Sync? then word in Final(START, trace).world.words.loaded
      else if Wished(trace, word) then !AddFailedFor(m.step.report.wordCalls, word)
      else DeleteFailedFor(m.step.report.wordCalls, word)
  {
    MovesAt(START, trace + [m], |trace|);
    assert (trace + [m])[..|trace|] == trace;
    var s := Final(START, trace);
    if m.step.Sync? {
      FailuresAre(m.step.report.wordCalls, word);
      WantedIsWished(trace, word);
    }
  }

  lemma WantedIsWished(trace: seq<Moved>, word: CStr)
    requires Chain(START, trace)
    ensures word in Wanted(Final(START, trace).world.words.shadow) <==> Wished(trace, word)
  {
    var shadow := Final(START, trace).world.words.shadow;
    forall c: nat ensures Entry(Final(START, trace), c) == Wishes(trace, c) {
      EntriesAreWishes(trace, c);
    }
    if Wished(trace, word) {
      var c: nat :| word in Wishes(trace, c);
      assert c in shadow && word in shadow[c].words;
    }
    if word in Wanted(shadow) {
      var c :| c in shadow && word in shadow[c].words;
      assert word in Entry(Final(START, trace), c);
    }
  }

  lemma {:induction false} WishStays(trace: seq<Moved>, i: nat, client: nat)
    requires i < |trace| && trace[i].step.SetWords? && trace[i].step.client == client
    requires forall j :: i < j < |trace| ==>
      && !trace[j].step.Sync? && trace[j].step != Disconnect(client)
      && !(trace[j].step.SetWords? && trace[j].step.client == client)
    ensures Wishes(trace, client) == trace[i].step.words
    decreases |trace|
  {
    if i < |trace| - 1 {
      WishStays(trace[..|trace| - 1], i, client);
    }
  }

  /**
   * A w.set replaces what its client wanted: after the next synchronisation its words are loaded unless they could
   * not be added, and a word it does not list, and nobody else wants, is loaded only if it could not be deleted.
   */
  lemma WordsAreReplaced(trace: seq<Moved>, i: nat, m: Moved, word: CStr)
    requires Chain(START, trace + [m]) && m.step.Sync? && i < |trace| && trace[i].step.SetWords?
    requires forall j :: i < j < |trace| ==>
      && !trace[j].step.Sync? && trace[j].step != Disconnect(trace[i].step.client)
      && !(trace[j].step.SetWords? && trace[j].step.client == trace[i].step.client)
    ensures word in m.after.world.words.loaded <==>
      if word in trace[i].step.words || WishedByOthers(trace, trace[i].step.client, word)
      then !AddFailedFor(m.step.report.wordCalls, word)
      else DeleteFailedFor(m.step.report.wordCalls, word)
  {
    hide Chain, Moves, Wishes, AddFailedFor, DeleteFailedFor;
    var client := trace[i].step.client;
    WishStays(trace, i, client);
    LoadedIsWhatIsWished(trace, m, word);
    assert Wished(trace, word) <==> word in Wishes(trace, client) || WishedByOthers(trace, client, word);
  }

  // -- grammars --------------------------------------------------------------------------------------------

  /** What was last asked for a name since the last synchronisation, and what is live under it. */
  datatype Asked = Nothing | Load(req: Request) | Drop

  datatype Granted = Granted(client: nat, blob: seq<byte>, rules: set<string>, lists: Lists)

  datatype Standing = Standing(asked: Asked, live: Option<Granted>)

  /** A call to load it, to register its callbacks, or for its rules and lists failed. */
  predicate LoadFailedIn(calls: seq<Call>) {
    exists c :: c in calls
                && (c.LoadGrammar? || c.Register? || c.Activate? || c.Deactivate? || c.SetList?) && c.rc != 0
  }

  predicate UnloadFailedIn(calls: seq<Call>) {
    exists c :: c in calls && (c.Unregister? || c.Destroy?) && c.rc != 0
  }

  /** The lists of what was live stay, unless it was unloaded for another blob. */
  function KeptOf(live: Option<Granted>, req: Request, calls: seq<Call>): Lists
    requires req.Set?
  {
    if live.Some? && (live.value.blob == req.blob || UnloadFailedIn(calls)) then live.value.lists else map[]
  }

  /** What a synchronisation makes of it: a grammar is live as it was asked for, or, if a call failed, not at all. */
  function Granting(before: Standing, calls: seq<Call>): Option<Granted> {
    match before.asked
    case Nothing => before.live
    case Drop => None
    case Load(req) =>
      if !req.Set? || LoadFailedIn(calls) then None
      else Some(Granted(req.client, req.blob, req.rules, KeptOf(before.live, req, calls) + req.lists))
  }

  function CallsFor(report: SyncReport, name: string): seq<Call> {
    if name in report.outcomes then report.outcomes[name].calls else []
  }

  /** A request replaces what was asked for its name, and a client that disconnects drops what is live of its own. */
  function StandingOf(trace: seq<Moved>, name: string): Standing {
    if trace == [] then Standing(Nothing, None)
    else
      var before := StandingOf(trace[..|trace| - 1], name);
      match trace[|trace| - 1].step
      case Submit(n, req) => if n == name then before.(asked := if req.Set? then Load(req) else Drop) else before
      case Disconnect(c) =>
        if before.live.Some? && before.live.value.client == c then before.(asked := Drop) else before
      case Sync(report) => Standing(Nothing, Granting(before, CallsFor(report, name)))
      case _ => before
  }

  /** How it stands with a name in what is queued and recorded. */
  function Recorded(s: State, name: string): Standing {
    var queue, lives := s.world.queue, s.world.registry.lives;
    Standing(
      if name !in queue then Nothing else if queue[name].Set? then Load(queue[name]) else Drop,
      LiveAs(Lookup(lives, name)))
  }

  lemma ErrorsAre(name: string, calls: seq<Call>)
    ensures Concat(ErrorsOf(name), calls) == [] <==> !LoadFailedIn(calls)
    ensures NoFailedUnload(calls) <==> !UnloadFailedIn(calls)
  {
    if !LoadFailedIn(calls) {
      forall i | 0 <= i < |calls| ensures ErrorsOf(name)(calls[i]) == [] {
        assert calls[i] in calls;
      }
      ConcatNone(ErrorsOf(name), calls);
    } else {
      var c :| c in calls && (c.LoadGrammar? || c.Register? || c.Activate? || c.Deactivate? || c.SetList?) && c.rc != 0;
      var i :| 0 <= i < |calls| && calls[i] == c;
      ConcatNext(ErrorsOf(name), calls, i);
      assert ErrorsOf(name)(c) != [];
    }
  }

  function LiveAs(live: Option<Live>): Option<Granted> {
    if live.None? then None
    else Some(Granted(live.value.client, live.value.blob, live.value.rules, live.value.lists))
  }

  lemma NameStands(r: Registry, name: string, req: Request, o: Outcome, r': Registry)
    requires NameSettled(r, name, req, o, r')
    ensures LiveAs(Lookup(r'.lives, name))
         == Granting(Standing(if req.Set? then Load(req) else Drop, LiveAs(Lookup(r.lives, name))), o.calls)
  {
    hide Agreement, AlreadyLive, LoadFailedIn, UnloadFailedIn, NoFailedUnload;
    ErrorsAre(name, o.calls);
  }

  lemma SyncStands(s: State, report: SyncReport, s': State, name: string)
    requires Moves(s, Sync(report), s')
    ensures Recorded(s', name) == Standing(Nothing, Granting(Recorded(s, name), CallsFor(report, name)))
  {
    var r, queue, r' := s.world.registry, s.world.queue, s'.world.registry;
    SyncedIsQueueStep(s.world.words, r, queue, report, s'.world.words, r');
    hide StateSynced, CallsMade, FaultsCounted, StraysKept, NameSettled, Granting;
    if name in queue {
      assert NameSettled(r, name, queue[name], report.outcomes[name], r');
      NameStands(r, name, queue[name], report.outcomes[name], r');
    } else {
      assert Lookup(r'.lives, name) == Lookup(r.lives, name);
      NothingAsked(LiveAs(Lookup(r.lives, name)), CallsFor(report, name));
    }
  }

  lemma NothingAsked(live: Option<Granted>, calls: seq<Call>)
    ensures Granting(Standing(Nothing, live), calls) == live
  {
  }

  lemma StandingStep(s: State, trace: seq<Moved>, m: Moved, name: string)
    requires Moves(s, m.step, m.after) && Recorded(s, name) == StandingOf(trace, name)
    ensures Recorded(m.after, name) == StandingOf(trace + [m], name)
  {
    assert (trace + [m])[..|trace|] == trace;
    if m.step.Sync? {
      SyncStands(s, m.step.report, m.after, name);
    }
  }

  /**
   * Over every run, and for every name: what is queued is what was asked for last, and what is live is what the last
   * request that a synchronisation reached asked for, if the calls for it went well, with the lists it did not name.
   */
  lemma {:induction false} EveryNameStandsAsAsked(trace: seq<Moved>, name: string)
    requires Chain(START, trace)
    ensures Recorded(Final(START, trace), name) == StandingOf(trace, name)
    decreases |trace|
  {
    if trace != [] {
      var last := |trace| - 1;
      MovesAt(START, trace, last);
      EveryNameStandsAsAsked(trace[..last], name);
      StandingStep(Final(START, trace[..last]), trace[..last], trace[last], name);
      assert trace == trace[..last] + [trace[last]];
    }
  }

  /** Nothing overtakes what step `i` asked for a name: no synchronisation, no other request for it, and the client
      it is live for, if it is, does not disconnect. */
  predicate NotOvertaken(trace: seq<Moved>, i: nat, name: string) {
    var live := StandingOf(trace, name).live;
    forall j :: i < j < |trace| ==>
      && !trace[j].step.Sync?
      && !(trace[j].step.Submit? && trace[j].step.name == name)
      && !(trace[j].step.Disconnect? && live.Some? && live.value.client == trace[j].step.client)
  }

  lemma {:induction false} StillAsked(trace: seq<Moved>, i: nat, name: string)
    requires i < |trace| && NotOvertaken(trace, i, name)
    requires trace[i].step.Submit? && trace[i].step.name == name && trace[i].step.req.Set?
    ensures StandingOf(trace, name).asked == Load(trace[i].step.req)
    decreases |trace|
  {
    if i < |trace| - 1 {
      var shorter := trace[..|trace| - 1];
      assert StandingOf(shorter, name).live == StandingOf(trace, name).live;
      assert forall j :: i < j < |shorter| ==> shorter[j] == trace[j];
      StillAsked(shorter, i, name);
    }
  }

  /**
   * A set request that nothing overtakes is live after the next synchronisation, if none of its calls failed: for its
   * client, with its own blob and rules, and its lists over those that were kept.
   */
  lemma WhatWasSetGoesLive(trace: seq<Moved>, i: nat, m: Moved, name: string)
    requires Chain(START, trace + [m]) && m.step.Sync? && i < |trace| && NotOvertaken(trace, i, name)
    requires trace[i].step.Submit? && trace[i].step.name == name && trace[i].step.req.Set?
    ensures var req, calls, lives := trace[i].step.req, CallsFor(m.step.report, name), m.after.world.registry.lives;
      && (name in lives <==> !LoadFailedIn(calls))
      && (name in lives ==>
            && lives[name].client == req.client && lives[name].blob == req.blob && lives[name].rules == req.rules
            && lives[name].lists == KeptOf(StandingOf(trace, name).live, req, calls) + req.lists)
  {
    StillAsked(trace, i, name);
    assert (trace + [m])[..|trace|] == trace;
    hide Moves, LoadFailedIn, KeptOf, NotOvertaken;
    EveryNameStandsAsAsked(trace + [m], name);
  }
}
