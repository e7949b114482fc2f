/** The reconciler: the queued state of the clients on one side, the engine on the other. */
module Core {
  import opened Bytes
  import opened Commands
  import opened EngineModel
  import opened Grammars
  import opened GrammarSpec
  import opened Ledger
  import P = Pausing
  import opened Messages
  import opened Server
  import opened Words

  /** The pause the engine waits for, once the one with token `before` was resumed or not. */
  function StillOutstanding(outstanding: nat, before: nat, after: nat): nat {
    if after != before && before == outstanding then 0 else outstanding
  }

  class Draconity {
    const engine: Engine
    const server: UvServer
    var grammars: map<string, Grammar>
    var shadowGrammars: map<string, Request>
    var loadedWords: set<CStr>
    var shadowWords: map<nat, WordState>
    // every grammar object there has been
    ghost var Repr: set<Grammar>
    // what the grammar objects record, by name
    ghost var lives: map<string, Live>
    // the ledger of grammar requests, next to the answers the server was given to send
    ghost var issued: multiset<Ticket>
    ghost var dropped: multiset<Ticket>

    var ready: bool
    var pauseToken: nat
    var pauseClients: set<nat>
    var pauseTimer: bool
    // the tokens of the pauses handled so far
    ghost var pauses: seq<nat>

    /** The pause token is meant to start at 0, which is what an unpaused engine is recorded as. */
    constructor (engine: Engine, server: UvServer)
      requires engine.words == {} && engine.handles == map[] && engine.unloadFaults == 0 && engine.resumed == []
      requires server.Valid() && server.Queued() && server.pushed == [] && server.clients == []
      ensures Valid() && this.engine == engine && this.server == server
      ensures State()
              == World(WordView(map[], {}, []), Registry(map[], map[], 0), map[], engine.calls, multiset{}, multiset{})
      ensures Pausing() == P.PauseState(0, {}, false, {}, [], []) && Repr == {} && !ready
    {
      this.engine, this.server := engine, server;
      ready, pauseToken, pauseClients, pauseTimer, pauses := false, 0, {}, false, [];
      grammars, shadowGrammars, loadedWords, shadowWords := map[], map[], {}, map[];
      Repr, lives, issued, dropped := {}, map[], multiset{}, multiset{};
    }

    ghost function Pausing(): P.PauseState
      reads `pauseToken, `pauseClients, `pauseTimer, `pauses, server`clients, engine`resumed
    {
      P.PauseState(pauseToken, pauseClients, pauseTimer, server.Ids(), pauses, engine.resumed)
    }

    /** What holds between any two callbacks of the event loop. */
    ghost predicate Valid()
      reads this, Repr, engine`words, engine`handles, engine`unloadFaults, engine`resumed
      reads server`clients, server`clientNonce, server`invokeQueue, server`pushed, server`taken, server`announced
    {
      && server.Valid() && server.Queued()
      && VocabularyValid()
      && GrammarsValid() && QueueValid() && LedgerBalanced()
      && PauseValid()
    }

    /** The recorded words are the engine's, and only ids already given out have an entry. */
    ghost predicate VocabularyValid()
      reads `loadedWords, `shadowWords, engine`words, server`clientNonce
    {
      engine.words == loadedWords && forall c :: c in shadowWords ==> c < server.clientNonce
    }

    /** The pause machine is in order, and nothing is left in the queue while the engine waits. */
    ghost predicate PauseValid()
      reads `pauseToken, `pauseClients, `pauseTimer, `pauses, `shadowGrammars, server`clients, engine`resumed
    {
      P.Invariant(Pausing()) && (pauseToken != 0 ==> shadowGrammars == map[])
    }

    ghost function Vocabulary(): WordView
      reads `shadowWords, `loadedWords, server`pushed
    {
      WordView(shadowWords, loadedWords, server.pushed)
    }

    ghost function State(): World
      reads `shadowWords, `loadedWords, `shadowGrammars, `lives, `issued, `dropped
      reads server`pushed, engine`handles, engine`unloadFaults, engine`calls
    {
      World(Vocabulary(), Registered(), shadowGrammars, engine.calls, issued, dropped)
    }

    // -- words --------------------------------------------------------------------------------------

    /** One word error for each failing call, and the recorded words follow the engine's. */
    ghost predicate WordProgress(calls: seq<Call>, errors: seq<WordError>)
      reads engine`calls, engine`words, `loadedWords
    {
      && calls <= engine.calls
      && errors == WordErrors(engine.calls[|calls|..])
      && engine.words == loadedWords
    }

    method AddWord(word: CStr, errors: seq<WordError>, ghost calls: seq<Call>) returns (errors': seq<WordError>)
      requires WordProgress(calls, errors)
      modifies `loadedWords, engine`calls, engine`words
      ensures WordProgress(calls, errors')
      ensures old(engine.calls) <= engine.calls
      ensures var cs := engine.calls[|old(engine.calls)|..];
        && CallsOnly(cs, {word}, {})
        && FailedAdds(cs) <= {word} && FailedDeletes(cs) == {}
        && loadedWords == old(loadedWords) + ({word} - FailedAdds(cs))
    {
      hide WordErrors, FailedAdds, FailedDeletes;
      errors' := errors;
      var rc, valid := engine.ValidateWord(word);
      ghost var c := Call.ValidateWord(word, rc, valid);
      WordErrorsNext(calls, old(engine.calls), c);
      if !valid {
        errors' := errors' + [WordError(if rc == 0 then InvalidWord else ValidationFailed, rc, word)];
        AddCalls(word, [c]);
        assert engine.calls[|old(engine.calls)|..] == [c];
        return;
      }
      rc := engine.AddTemporaryWord(word);
      ghost var d := Call.AddTemporaryWord(word, rc);
      WordErrorsNext(calls, old(engine.calls) + [c], d);
      AddCalls(word, [c, d]);
      assert engine.calls[|old(engine.calls)|..] == [c, d];
      if rc != 0 {
        errors' := errors' + [WordError(AddFailed, rc, word)];
        return;
      }
      loadedWords := loadedWords + {word};
    }

    method RemoveWord(word: CStr, errors: seq<WordError>, ghost calls: seq<Call>) returns (errors': seq<WordError>)
      requires WordProgress(calls, errors)
      modifies `loadedWords, engine`calls, engine`words
      ensures WordProgress(calls, errors')
      ensures old(engine.calls) <= engine.calls
      ensures var cs := engine.calls[|old(engine.calls)|..];
        && CallsOnly(cs, {}, {word})
        && FailedAdds(cs) == {} && FailedDeletes(cs) <= {word}
        && loadedWords == old(loadedWords) - ({word} - FailedDeletes(cs))
    {
      hide WordErrors, FailedAdds, FailedDeletes;
      errors' := errors;
      var rc := engine.DeleteWord(word);
      ghost var c := Call.DeleteWord(word, rc);
      WordErrorsNext(calls, old(engine.calls), c);
      RemoveCalls(c);
      assert engine.calls[|old(engine.calls)|..] == [c];
      if rc != 0 {
        errors' := errors' + [WordError(DeleteFailed, rc, word)];
        return;
      }
      loadedWords := loadedWords - {word};
    }

    method SetWords(wanted: set<CStr>) returns (errors: seq<WordError>)
      requires engine.words == loadedWords
      modifies `loadedWords, engine`calls, engine`words
      ensures WordProgress(old(engine.calls), errors)
      ensures WordsSet(old(loadedWords), wanted, engine.calls[|old(engine.calls)|..], loadedWords)
    {
      hide FailedAdds, FailedDeletes;
      ghost var calls, loaded := engine.calls, loadedWords;
      var toAdd := wanted - loadedWords;
      var toRemove := loadedWords - wanted;
      errors := [];
      NoCalls(engine.calls);
      var todo := toAdd;
      while todo != {}
        invariant todo <= toAdd
        invariant WordProgress(calls, errors)
        invariant CallsOnly(engine.calls[|calls|..], toAdd, toRemove)
        invariant FailedAdds(engine.calls[|calls|..]) <= toAdd - todo && FailedDeletes(engine.calls[|calls|..]) == {}
        invariant loadedWords == loaded + (toAdd - todo - FailedAdds(engine.calls[|calls|..]))
        decreases todo
      {
        var word :| word in todo;
        ghost var before := engine.calls;
        errors := AddWord(word, errors, calls);
        todo := todo - {word};
        JoinCalls(calls, before, engine.calls, toAdd, toRemove);
      }
      todo := toRemove;
      while todo != {}
        invariant todo <= toRemove
        invariant WordProgress(calls, errors)
        invariant CallsOnly(engine.calls[|calls|..], toAdd, toRemove)
        invariant FailedAdds(engine.calls[|calls|..]) <= toAdd
                  && FailedDeletes(engine.calls[|calls|..]) <= toRemove - todo
        invariant loadedWords == (loaded + (toAdd - FailedAdds(engine.calls[|calls|..])))
                                 - (toRemove - todo - FailedDeletes(engine.calls[|calls|..]))
        decreases todo
      {
        var word :| word in todo;
        ghost var before := engine.calls;
        errors := RemoveWord(word, errors, calls);
        todo := todo - {word};
        JoinCalls(calls, before, engine.calls, toAdd, toRemove);
      }
    }

    static lemma NoCalls(calls: seq<Call>)
      ensures WordErrors(calls[|calls|..]) == []
      ensures FailedAdds(calls[|calls|..]) == {} && FailedDeletes(calls[|calls|..]) == {}
    {
      assert calls[|calls|..] == [];
    }

    static lemma JoinCalls(a: seq<Call>, b: seq<Call>, c: seq<Call>, adding: set<CStr>, removing: set<CStr>)
      requires a <= b <= c && CallsOnly(b[|a|..], adding, removing) && CallsOnly(c[|b|..], adding, removing)
      ensures a <= c && c[|a|..] == b[|a|..] + c[|b|..]
      ensures CallsOnly(c[|a|..], adding, removing)
      ensures FailedAdds(c[|a|..]) == FailedAdds(b[|a|..]) + FailedAdds(c[|b|..])
      ensures FailedDeletes(c[|a|..]) == FailedDeletes(b[|a|..]) + FailedDeletes(c[|b|..])
    {
      assert c[|a|..] == b[|a|..] + c[|b|..];
      WordErrorsAppend(b[|a|..], c[|b|..]);
    }

    /** The errors of one client; its failing words are taken out of its entry so that they are not tried again. */
    method ClientFailures(client: nat, errors: seq<WordError>) returns (clientErrors: seq<WordError>)
      requires client in shadowWords
      modifies `shadowWords
      ensures clientErrors == ClientErrors(errors, old(shadowWords)[client].words)
      ensures shadowWords == old(shadowWords)[client :=
        old(shadowWords)[client].(words := old(shadowWords)[client].words - ErrorWords(errors))]
    {
      var words := shadowWords[client].words;
      clientErrors := [];
      for i := 0 to |errors|
        invariant shadowWords == old(shadowWords)
        invariant words == old(shadowWords)[client].words - ErrorWords(errors[..i])
        invariant clientErrors + ClientErrors(errors[i..], words)
                  == ClientErrors(errors, old(shadowWords)[client].words)
      {
        ErrorWordsNext(errors, i);
        assert errors[i..][1..] == errors[i + 1..];
        if errors[i].word in words {
          clientErrors := clientErrors + [errors[i]];
          words := words - {errors[i].word};
        }
      }
      assert errors[..|errors|] == errors && errors[|errors|..] == [];
      shadowWords := shadowWords[client := shadowWords[client].(words := words)];
    }

    method HandleWordFailures(errors: seq<WordError>) returns (ghost order: seq<nat>)
      requires server.Queued()
      modifies `shadowWords, server`invokeQueue, server`wakeup, server`pushed
      ensures shadowWords == Cleaned(old(shadowWords), {}, ErrorWords(errors))
      ensures Enumerates(order, old(shadowWords).Keys)
      ensures server.pushed == old(server.pushed) + WordReplies(order, old(shadowWords), errors)
      ensures server.Queued()
    {
      hide WordReply, WordReplies, ErrorWords, ClientErrors, Cleaned;
      ghost var shadow, sent := shadowWords, server.pushed;
      var todo := shadowWords.Keys;
      order := [];
      NoReplies(shadow, errors);
      CleanedAll(shadow, ErrorWords(errors));
      while todo != {}
        invariant todo <= shadow.Keys
        invariant shadowWords == Cleaned(shadow, todo, ErrorWords(errors))
        invariant Enumerates(order, shadow.Keys - todo)
        invariant server.pushed == sent + WordReplies(order, shadow, errors)
        invariant server.Queued()
        decreases todo
      {
        var client :| client in todo;
        CleanedStep(shadow, todo, client, ErrorWords(errors));
        RepliesNext(order, client, shadow, errors);
        WordReplyIs(client, shadow[client], errors);
        var tid := shadowWords[client].lastTid;
        var clientErrors := ClientFailures(client, errors);
        var reply := Send(WordResult(if clientErrors == [] then Success else Failed, clientErrors), tid, client);
        Associate(sent, WordReplies(order, shadow, errors), [reply]);
        server.Invoke(reply);
        todo := todo - {client};
        order := order + [client];
        assert shadow.Keys - todo == (shadow.Keys - todo - {client}) + {client};
      }
      assert shadow.Keys - todo == shadow.Keys;
    }

    /** The union of what the clients want; every entry counts as synced from here on. */
    method GatherWanted() returns (wanted: set<CStr>)
      modifies `shadowWords
      ensures wanted == Wanted(old(shadowWords))
      ensures shadowWords == Marked(old(shadowWords), {})
    {
      hide Wanted, Marked;
      ghost var shadow := shadowWords;
      wanted := {};
      var todo := shadowWords.Keys;
      assert shadow - todo == map[];
      WantedNone();
      MarkedAll(shadow);
      while todo != {}
        invariant todo <= shadow.Keys
        invariant wanted == Wanted(shadow - todo)
        invariant shadowWords == Marked(shadow, todo) && shadowWords.Keys == shadow.Keys
        decreases todo
      {
        var client :| client in todo;
        WantedNext(shadow, todo, client);
        MarkedStep(shadow, todo, client);
        wanted := wanted + shadowWords[client].words;
        shadowWords := shadowWords[client := shadowWords[client].(synced := true)];
        todo := todo - {client};
      }
      assert shadow - todo == shadow;
    }

    method SyncWords() returns (ghost order: seq<nat>)
      requires engine.words == loadedWords && server.Queued()
      modifies `loadedWords, `shadowWords, engine`calls, engine`words, server`invokeQueue, server`wakeup, server`pushed
      ensures old(engine.calls) <= engine.calls
      ensures Synced(old(Vocabulary()), engine.calls[|old(engine.calls)|..], order, Vocabulary())
      ensures engine.words == loadedWords && server.Queued()
    {
      hide Wanted, FailedAdds, FailedDeletes, WordErrors, WordReplies, ErrorWords, Marked, Cleaned, Survivors;
      ghost var shadow, calls := shadowWords, engine.calls;
      var wanted := GatherWanted();
      var errors := SetWords(wanted);
      order := HandleWordFailures(errors);
      SyncedFrom(shadow, engine.calls[|calls|..], old(loadedWords), order);
    }

    // -- grammars -----------------------------------------------------------------------------------

    ghost function Registered(): Registry
      reads `lives, engine`handles, engine`unloadFaults
    {
      Registry(lives, engine.handles, engine.unloadFaults)
    }

    /** One grammar object for each name, and `lives` is what they record. */
    ghost predicate Tied()
      reads `grammars, `lives, `Repr, Repr
    {
      && grammars.Keys == lives.Keys
      && forall n :: n in grammars ==> grammars[n] in Repr && grammars[n].name == n && grammars[n].View() == lives[n]
    }

    ghost predicate TiedExcept(name: string)
      reads `grammars, `lives, `Repr, Repr
    {
      && (forall n :: n != name ==> (n in grammars <==> n in lives))
      && (forall n :: n in grammars ==> grammars[n] in Repr && grammars[n].name == n)
      && (forall n :: n != name && n in grammars ==> grammars[n].View() == lives[n])
    }

    ghost predicate GrammarsValid()
      reads `grammars, `lives, `Repr, Repr, engine`handles, engine`unloadFaults
    {
      Tied() && Sound(Registered())
    }

    /** Unload and erase a live grammar; whether the unload worked is not looked at. */
    method RemoveGrammar(name: string, g: Grammar)
      requires name in grammars && grammars[name] == g
      requires Attached(g.View(), engine.handles)
      modifies `grammars, g`blob, g`activeRules, g`lists, g`enabled, engine`handles, engine`calls, engine`unloadFaults
      ensures grammars == old(grammars) - {name}
      ensures old(engine.calls) <= engine.calls && ErrorsSince(g.name, old(engine.calls), engine.calls) == []
      ensures Unloaded(old(g.View()), old(engine.handles), engine.handles)
      ensures engine.unloadFaults >= old(engine.unloadFaults)
    {
      assert engine.calls[|engine.calls|..] == [];
      if g.enabled {
        var _ := UnloadGrammar(engine, g, engine.calls);
      }
      grammars := grammars - {name};
    }

    method UnloadName(name: string, req: Request)
      requires GrammarsValid() && !req.Set?
      modifies `grammars, `lives, if name in grammars then {grammars[name]} else {}
      modifies engine`handles, engine`calls, engine`unloadFaults
      ensures Tied() && NameStep(old(Registered()), name, req, Registered(), [], true)
      ensures old(engine.calls) <= engine.calls
      ensures grammars == old(grammars) - {name}
    {
      hide Unloaded, NameStep, Sound, Grammar.View;
      ghost var r := Registered();
      if name in grammars {
        LiveAttached(r, name);
        RemoveGrammar(name, grammars[name]);
      }
      lives := lives - {name};
      UnloadStep(r, name, req, engine.handles, engine.unloadFaults);
    }

    /** Synchronise the grammar of that name, made if there is none, and unload it again if anything failed. */
    method SetName(name: string, req: Request) returns (errors: seq<GrammarError>, ghost clean: bool)
      requires GrammarsValid() && ValidRequest(req) && req.Set?
      modifies `grammars, `lives, `Repr, if name in grammars then {grammars[name]} else {}
      modifies engine`handles, engine`calls, engine`unloadFaults
      ensures Tied() && NameStep(old(Registered()), name, req, Registered(), errors, clean)
      ensures old(engine.calls) <= engine.calls && errors == ErrorsSince(name, old(engine.calls), engine.calls)
      ensures !clean ==> !UnloadsWentWell(old(engine.calls), engine.calls)
      ensures errors == [] && clean ==> UnloadsWentWell(old(engine.calls), engine.calls)
      ensures AlreadyLive(Lookup(old(lives), name), req) ==> engine.calls == old(engine.calls)
      ensures fresh(Repr - old(Repr))
    {
      hide UnloadsWentWell, GrammarSynced, ErrorsSince, ValidRequest, NameStep, Tied, TiedExcept;
      ghost var r, calls := Registered(), engine.calls;
      var g;
      ghost var blank;
      g, errors, blank, clean := SyncEntry(name, req);
      ghost var calls1 := engine.calls;
      if errors != [] {
        RemoveFailed(name, g, req, errors, r, blank, clean);
        ErrorsSplit(name, calls, calls1, engine.calls);
        WellJoin(calls, calls1, engine.calls);
      } else {
        Keep(name, g, req, r, blank, clean);
      }
    }

    /** The synchronisation itself; the errors are taken off the grammar. */
    method SyncEntry(name: string, req: Request)
      returns (g: Grammar, errors: seq<GrammarError>, ghost blank: Live, ghost clean: bool)
      requires GrammarsValid() && ValidRequest(req) && req.Set?
      modifies `grammars, `Repr, if name in grammars then {grammars[name]} else {}
      modifies engine`handles, engine`calls, engine`unloadFaults
      ensures name in grammars && grammars == old(grammars)[name := g] && g.name == name && TiedExcept(name)
      ensures if name in old(grammars) then g == old(grammars)[name] else fresh(g)
      ensures Repr == old(Repr) + {g} && fresh(Repr - old(Repr))
      ensures StartsFrom(Lookup(lives, name), blank)
      ensures GrammarSynced(blank, old(engine.handles), req, g.View(), engine.handles, clean, errors)
      ensures engine.unloadFaults >= old(engine.unloadFaults) + if clean then 0 else 1
      ensures old(engine.calls) <= engine.calls && errors == ErrorsSince(name, old(engine.calls), engine.calls)
      ensures clean <==> UnloadsWentWell(old(engine.calls), engine.calls)
      ensures AlreadyLive(Lookup(lives, name), req) ==> errors == [] && engine.calls == old(engine.calls)
    {
      hide UnloadsWentWell, Sound, Attached, Wellformed, GrammarSynced, DifferenceCalls, ErrorsSince, ValidRequest,
           Grammar.View, TiedExcept;
      g := FindOrMake(name);
      blank := g.View();
      errors := SyncObject(name, g, req);
      clean := engine.unloadFaults == old(engine.unloadFaults);
      if AlreadyLive(Lookup(lives, name), req) {
        AlreadyLiveIsQuiet(name, blank, req, old(engine.calls), engine.calls);
      }
    }

    /** If any errors occurred, the entire grammar is unloaded, to wait for the client to fix it. */
    method RemoveFailed(name: string, g: Grammar, req: Request, errors: seq<GrammarError>,
                        ghost r: Registry, ghost blank: Live, ghost clean: bool)
      requires name in grammars && grammars[name] == g && g.name == name && TiedExcept(name)
      requires req.Set? && StartsFrom(Lookup(r.lives, name), blank) && errors != []
      requires r.lives == lives && engine.unloadFaults >= r.faults + if clean then 0 else 1
      requires GrammarSynced(blank, r.handles, req, g.View(), engine.handles, clean, errors)
      modifies `grammars, `lives, g`blob, g`activeRules, g`lists, g`enabled
      modifies engine`handles, engine`calls, engine`unloadFaults
      ensures Tied() && NameStep(r, name, req, Registered(), errors, clean)
      ensures old(engine.calls) <= engine.calls && ErrorsSince(name, old(engine.calls), engine.calls) == []
      ensures grammars == old(grammars) - {name}
    {
      hide Unloaded, NameStep, Attached, GrammarSynced, ValidRequest, StartsFrom, ErrorsSince, Grammar.View;
      ghost var mid, b := g.View(), engine.handles;
      SyncedAttached(blank, r.handles, req, mid, b, clean, errors);
      RemoveGrammar(name, g);
      lives := r.lives - {name};
      ErrorStep(r, name, req, blank, mid, b, engine.handles, engine.unloadFaults, errors, clean);
      forall n | n in grammars ensures n in lives && grammars[n].View() == lives[n] {
        assert old(grammars[n]) != g;
      }
    }

    ghost method Keep(name: string, g: Grammar, req: Request, r: Registry, blank: Live, clean: bool)
      requires name in grammars && grammars[name] == g && TiedExcept(name)
      requires req.Set? && ValidRequest(req) && StartsFrom(Lookup(r.lives, name), blank)
      requires r.lives == lives && engine.unloadFaults >= r.faults + if clean then 0 else 1
      requires GrammarSynced(blank, r.handles, req, g.View(), engine.handles, clean, [])
      modifies `lives
      ensures Tied() && NameStep(r, name, req, Registered(), [], clean)
    {
      hide NameStep, GrammarSynced, ValidRequest, Grammar.View;
      lives := r.lives[name := g.View()];
      FulfilStep(r, name, req, blank, g.View(), engine.handles, engine.unloadFaults, clean);
    }

    /** `sync_grammar` on one grammar object; its errors are taken off it. The other objects stay tied. */
    method SyncObject(name: string, g: Grammar, req: Request) returns (errors: seq<GrammarError>)
      requires req.Set? && ValidRequest(req) && Wellformed(g.View(), engine.handles)
      requires name in grammars && grammars[name] == g && TiedExcept(name)
      modifies g, engine`handles, engine`calls, engine`unloadFaults
      ensures TiedExcept(name)
      ensures old(engine.calls) <= engine.calls && errors == ErrorsSince(g.name, old(engine.calls), engine.calls)
      ensures GrammarSynced(old(g.View()), old(engine.handles), req, g.View(), engine.handles,
                            engine.unloadFaults == old(engine.unloadFaults), errors)
      ensures engine.unloadFaults == old(engine.unloadFaults) || engine.unloadFaults == old(engine.unloadFaults) + 1
      ensures engine.unloadFaults == old(engine.unloadFaults) <==> UnloadsWentWell(old(engine.calls), engine.calls)
      ensures old(g.View()).blob == req.blob ==>
        DifferenceCalls(old(g.View()).handle, old(g.View()), req, old(engine.calls), engine.calls)
    {
      hide Wellformed, GrammarSynced, DifferenceCalls, ErrorsSince, UnloadsWentWell, ValidRequest, Grammar.View;
      SyncGrammar(engine, g, req);
      errors := g.errors;
      g.errors := [];
      forall n | n in grammars && n != name ensures grammars[n].View() == lives[n] {
        assert grammars[n].name != g.name;
      }
    }

    method FindOrMake(name: string) returns (g: Grammar)
      requires GrammarsValid()
      modifies `grammars, `Repr
      ensures name in grammars && grammars == old(grammars)[name := g] && g.name == name
      ensures g in Repr && Repr == old(Repr) + {g}
      ensures name in old(grammars) ==> g == old(grammars)[name]
      ensures name !in old(grammars) ==> fresh(g)
      ensures TiedExcept(name)
      ensures Wellformed(g.View(), engine.handles) && StartsFrom(Lookup(lives, name), g.View())
    {
      hide Sound, Wellformed, StartsFrom, Grammar.View;
      if name in grammars {
        g := grammars[name];
        LiveStarts(Registered(), name);
      } else {
        g := Make(name);
        grammars, Repr := grammars[name := g], Repr + {g};
      }
    }

    method Make(name: string) returns (g: Grammar)
      requires Sound(Registered()) && name !in lives
      ensures fresh(g) && g.name == name
      ensures Wellformed(g.View(), engine.handles) && StartsFrom(Lookup(lives, name), g.View())
    {
      hide Sound, Wellformed, StartsFrom;
      g := new Grammar(name);
      NewStarts(Registered(), name, g.View());
    }

    method SyncName(name: string, req: Request) returns (errors: seq<GrammarError>, ghost o: Outcome)
      requires GrammarsValid() && ValidRequest(req)
      modifies `grammars, `lives, `Repr, if name in grammars then {grammars[name]} else {}
      modifies engine`handles, engine`calls, engine`unloadFaults
      ensures Tied() && NameStep(old(Registered()), name, req, Registered(), o.errors, o.clean)
      ensures errors == o.errors && engine.calls == old(engine.calls) + o.calls
      ensures Reported(Lookup(old(lives), name), name, req, o)
      ensures fresh(Repr - old(Repr))
    {
      hide NameStep, Tied, Sound;
      ghost var calls, clean := engine.calls, true;
      errors := [];
      if !req.Set? {
        UnloadName(name, req);
      } else {
        errors, clean := SetName(name, req);
      }
      o := Outcome(errors, clean, engine.calls[|calls|..]);
    }

    ghost predicate LedgerBalanced()
      reads `issued, `dropped, `shadowGrammars, server`pushed
    {
      Balanced(issued, server.pushed, shadowGrammars, dropped)
    }

    ghost predicate QueueValid()
      reads `shadowGrammars
    {
      forall n :: n in shadowGrammars ==> ValidRequest(shadowGrammars[n])
    }

    method SyncGrammars() returns (ghost outcomes: map<string, Outcome>, ghost order: seq<string>)
      requires GrammarsValid() && QueueValid() && LedgerBalanced() && server.Queued()
      modifies `grammars, `lives, `shadowGrammars, `Repr, Repr
      modifies engine`handles, engine`calls, engine`unloadFaults
      modifies server`invokeQueue, server`wakeup, server`pushed
      ensures GrammarsValid() && LedgerBalanced() && server.Queued() && shadowGrammars == map[]
      ensures outcomes.Keys == old(shadowGrammars).Keys
      ensures Underway(old(Registered()), old(shadowGrammars), old(server.pushed),
                       outcomes, order, Registered(), server.pushed)
      ensures engine.calls == old(engine.calls) + CallsOf(order, outcomes)
      ensures fresh(Repr - old(Repr))
    {
      hide NameStep, QueueStep, Tied, Sound, GrammarReplies, ValidRequest, AlreadyLive, Balanced, Underway, CallsOf;
      hide UvServer.Queued, GrammarsValid, QueueValid;
      ghost var r, queue, sent, calls := Registered(), shadowGrammars, server.pushed, engine.calls;
      var todo := shadowGrammars.Keys;
      outcomes, order := map[], [];
      StartRound();
      NoCallsOf([], map[]);
      assert queue - outcomes.Keys == queue;
      while todo != {}
        invariant todo == queue.Keys - outcomes.Keys && outcomes.Keys <= queue.Keys && shadowGrammars == queue
        invariant GrammarsValid() && server.Queued()
        invariant Underway(r, queue, sent, outcomes, order, Registered(), server.pushed)
        invariant Balanced(issued, server.pushed, queue - outcomes.Keys, dropped)
        invariant forall n :: n in order ==> n in outcomes
        invariant engine.calls == calls + CallsOf(order, outcomes)
        invariant fresh(Repr - old(Repr))
        decreases todo
      {
        var name :| name in todo;
        InRepr(name);
        ghost var before := CallsOf(order, outcomes);
        ghost var more;
        outcomes, order, more := SyncAndAnswer(name, r, queue, sent, outcomes, order);
        Associate(calls, before, more);
        todo := todo - {name};
      }
      forall n | n in queue ensures n in outcomes {
        assert n !in queue.Keys - outcomes.Keys;
      }
      assert outcomes.Keys == queue.Keys;
      assert queue - outcomes.Keys == map[];
      shadowGrammars := map[];
    }

    lemma InRepr(name: string)
      requires GrammarsValid()
      ensures name in grammars ==> grammars[name] in Repr
    {
    }

    lemma StartRound()
      requires GrammarsValid()
      ensures Underway(Registered(), shadowGrammars, server.pushed, map[], [], Registered(), server.pushed)
    {
      RoundStart(Registered(), shadowGrammars, server.pushed);
    }

    method SyncAndAnswer(name: string, ghost r: Registry, ghost queue: map<string, Request>, ghost sent: seq<Task>,
                         ghost outcomes: map<string, Outcome>, ghost order: seq<string>)
      returns (ghost outcomes': map<string, Outcome>, ghost order': seq<string>, ghost more: seq<Call>)
      requires GrammarsValid() && QueueValid() && server.Queued() && shadowGrammars == queue
      requires name in shadowGrammars && name !in outcomes && forall n :: n in order ==> n in outcomes
      requires Underway(r, queue, sent, outcomes, order, Registered(), server.pushed)
      requires Balanced(issued, server.pushed, queue - outcomes.Keys, dropped)
      modifies `grammars, `lives, `Repr, if name in grammars then {grammars[name]} else {}
      modifies engine`handles, engine`calls, engine`unloadFaults
      modifies server`invokeQueue, server`wakeup, server`pushed
      ensures outcomes'.Keys == outcomes.Keys + {name} && forall n :: n in order' ==> n in outcomes'
      ensures GrammarsValid() && server.Queued()
      ensures Underway(r, queue, sent, outcomes', order', Registered(), server.pushed)
      ensures Balanced(issued, server.pushed, queue - outcomes'.Keys, dropped)
      ensures engine.calls == old(engine.calls) + more
      ensures CallsOf(order', outcomes') == CallsOf(order, outcomes) + more
      ensures fresh(Repr - old(Repr))
    {
      hide NameStep, Tied, Sound, ValidRequest, AlreadyLive, Balanced, Underway, CallsOf, Reported;
      ghost var mid := Registered();
      var req := shadowGrammars[name];
      var errors;
      ghost var o;
      errors, o := SyncName(name, req);
      NameStepKeepsSound(mid, name, req, Registered(), o.errors, o.clean);
      RoundNext(r, queue, sent, outcomes, order, mid, server.pushed, name, o, Registered());
      CallsOfNext(order, outcomes, name, o);
      var status := if errors == [] then Success else Failed;
      BalanceAnswer(issued, server.pushed, queue - outcomes.Keys, dropped, name, status, errors);
      assert queue - (outcomes.Keys + {name}) == queue - outcomes.Keys - {name};
      server.Invoke(GrammarReply(name, req, status, errors));
      outcomes', order', more := outcomes[name := o], order + [name], o.calls;
    }

    // -- sync_state -----------------------------------------------------------------------------------

    /** Push the queued state into the engine: words first, then grammars. */
    method SyncState() returns (ghost report: SyncReport)
      requires server.Queued() && VocabularyValid() && GrammarsValid() && QueueValid() && LedgerBalanced()
      modifies `loadedWords, `shadowWords, `grammars, `lives, `shadowGrammars, `Repr, Repr
      modifies engine`words, engine`handles, engine`calls, engine`unloadFaults
      modifies server`invokeQueue, server`wakeup, server`pushed
      ensures server.Queued() && VocabularyValid() && GrammarsValid() && LedgerBalanced() && shadowGrammars == map[]
      ensures AllSynced(old(State()), report, State())
      ensures fresh(Repr - old(Repr))
    {
      hide CallsOf, Synced, Balanced, Sound, Tied, QueueStep, GrammarReplies, ValidRequest, Underway, UvServer.Queued;
      ghost var v, calls := Vocabulary(), engine.calls;
      ghost var clients := SyncWords();
      ghost var words, wordCalls := Vocabulary(), engine.calls[|calls|..];
      SyncedAnswersNoGrammar(v, wordCalls, clients, words, issued, shadowGrammars, dropped);
      ghost var r, queue := Registered(), shadowGrammars;
      ghost var outcomes, names := SyncGrammars();
      RoundEnd(r, queue, words.sent, outcomes, names, Registered(), server.pushed);
      report := SyncReport(wordCalls, clients, words, outcomes, names);
      SyncedKeys(v, wordCalls, clients, words);
    }

    method SetShadowGrammar(name: string, req: Request)
      requires server.Queued() && QueueValid() && LedgerBalanced() && ValidRequest(req)
      modifies `shadowGrammars, `issued, server`invokeQueue, server`wakeup, server`pushed
      ensures server.Queued() && QueueValid() && LedgerBalanced()
      ensures State() == Enlisted(old(State()), name, req)
    {
      hide Balanced;
      if name in shadowGrammars {
        BalanceAnswer(issued, server.pushed, shadowGrammars, dropped, name, Skipped, []);
        server.Invoke(GrammarReply(name, shadowGrammars[name], Skipped, []));
      }
      assert shadowGrammars[name := req] == (shadowGrammars - {name})[name := req];
      assert name !in shadowGrammars ==> shadowGrammars - {name} == shadowGrammars;
      BalanceQueue(issued, server.pushed, shadowGrammars - {name}, dropped, name, req);
      shadowGrammars, issued := shadowGrammars[name := req], issued + multiset{TicketOf(name, req)};
    }

    method SetShadowWords(client: nat, tid: nat, words: set<CStr>)
      requires server.Queued() && VocabularyValid() && LedgerBalanced() && client < server.clientNonce
      modifies `shadowWords, server`invokeQueue, server`wakeup, server`pushed
      ensures server.Queued() && VocabularyValid() && LedgerBalanced()
      ensures Words.Queued(old(Vocabulary()), client, tid, words, Vocabulary())
      ensures client in shadowWords && shadowWords[client].words == words && shadowWords[client].lastTid == tid
      ensures forall c :: c != client ==>
        (c in shadowWords <==> c in old(shadowWords)) && (c in shadowWords ==> shadowWords[c] == old(shadowWords)[c])
    {
      hide Balanced;
      if client in shadowWords && !shadowWords[client].synced {
        var reply := Send(WordResult(Skipped, []), shadowWords[client].lastTid, client);
        BalanceOthers(issued, server.pushed, shadowGrammars, dropped, [reply]);
        server.Invoke(reply);
      }
      shadowWords := shadowWords[client := WordState(words, tid, false)];
    }

    /** Queue the unload of everything a disconnected client has set, without telling it. */
    method ClearClientState(client: nat)
      requires VocabularyValid() && GrammarsValid() && QueueValid() && LedgerBalanced()
      modifies `shadowGrammars, `shadowWords, `issued, `dropped
      ensures VocabularyValid() && QueueValid() && LedgerBalanced()
      ensures TakenBack(old(State()), client, State())
    {
      hide Balanced, Sound, Tied, UnloadsQueued, Pending, Restrict, OwnedNames, ValidRequest;
      QueueUnloads(client);
      if client in shadowWords {
        shadowWords := shadowWords[client := WordState({}, shadowWords[client].lastTid, false)];
      }
    }

    /** Unloads queued under those names, since the queue and the ledger were like that. */
    ghost predicate UnloadProgress(queue: map<string, Request>, names: set<string>, client: nat,
                                   issued0: multiset<Ticket>, dropped0: multiset<Ticket>)
      reads `shadowGrammars, `issued, `dropped
    {
      && UnloadsQueued(queue, names, client, shadowGrammars)
      && issued == issued0 + multiset(Pending(Restrict(shadowGrammars, names)))
      && dropped == dropped0 + multiset(Pending(Restrict(queue, names)))
    }

    /** Entries queued under the names of the client's live grammars are dropped unanswered; entries it has
        queued under other names stay. */
    method QueueUnloads(client: nat)
      requires GrammarsValid() && QueueValid() && LedgerBalanced()
      modifies `shadowGrammars, `issued, `dropped
      ensures QueueValid() && LedgerBalanced()
      ensures UnloadProgress(old(shadowGrammars), OwnedNames(lives, client), client, old(issued), old(dropped))
    {
      hide LedgerBalanced, Sound, Tied, UnloadProgress, OwnedNames, ValidRequest;
      ghost var queue, owned, names := shadowGrammars, OwnedNames(lives, client), {};
      ghost var issued0, dropped0 := issued, dropped;
      var todo := grammars.Keys;
      NoUnloadYet(client);
      OwnedBelow(client);
      assert owned - todo == {};
      while todo != {}
        invariant todo <= grammars.Keys
        invariant names == owned - todo
        invariant QueueValid() && LedgerBalanced()
        invariant UnloadProgress(queue, names, client, issued0, dropped0)
        decreases todo
      {
        var name :| name in todo;
        IsOwned(name, client);
        TakeOne(owned, todo, name);
        if grammars[name].clientId == client {
          QueueUnload(name, client, queue, names, issued0, dropped0);
          names := names + {name};
        }
        todo := todo - {name};
      }
      assert names == owned;
    }

    lemma NoUnloadYet(client: nat)
      ensures UnloadProgress(shadowGrammars, {}, client, issued, dropped)
    {
      UnloadsNone(shadowGrammars, client);
    }

    method QueueUnload(name: string, client: nat, ghost queue: map<string, Request>, ghost names: set<string>,
                       ghost issued0: multiset<Ticket>, ghost dropped0: multiset<Ticket>)
      requires QueueValid() && LedgerBalanced()
      requires UnloadProgress(queue, names, client, issued0, dropped0) && name !in names
      modifies `shadowGrammars, `issued, `dropped
      ensures QueueValid() && LedgerBalanced()
      ensures UnloadProgress(queue, names + {name}, client, issued0, dropped0)
    {
      hide Balanced, UnloadsQueued, Pending, Restrict;
      ghost var before := shadowGrammars;
      var tid: nat := *;
      var unload := Withdraw(client, tid);
      BalanceOverwrite(issued, server.pushed, shadowGrammars, dropped, name, unload);
      UnloadsNext(queue, names, client, shadowGrammars, name, tid);
      PendingGrows(queue, names, name);
      PendingGrows(before[name := unload], names, name);
      RestrictElsewhere(before, names, name, unload);
      issued := issued + multiset{TicketOf(name, unload)};
      dropped := dropped + if name in before then multiset{TicketOf(name, before[name])} else multiset{};
      shadowGrammars := shadowGrammars[name := unload];
    }

    lemma IsOwned(name: string, client: nat)
      requires Tied() && name in grammars
      ensures name in OwnedNames(lives, client) <==> grammars[name].clientId == client
    {
    }

    lemma OwnedBelow(client: nat)
      requires Tied()
      ensures OwnedNames(lives, client) <= grammars.Keys
    {
    }

    // -- the pause machine ----------------------------------------------------------------------------

    method DoUnpause()
      modifies `pauseToken, `pauseClients, `pauseTimer, engine`outstanding, engine`resumed
      ensures Pausing() == P.Resume(old(Pausing()))
      ensures engine.outstanding == if old(pauseToken) > 0 && old(pauseToken) == old(engine.outstanding) then 0
                                    else old(engine.outstanding)
    {
      if pauseToken > 0 {
        pauseClients := {};
        pauseTimer := false;
        engine.Resume(pauseToken);
        pauseToken := 0;
      }
    }

    method ClientUnpause(client: nat, token: nat)
      modifies `pauseToken, `pauseClients, `pauseTimer, engine`outstanding, engine`resumed
      ensures Pausing() == P.ClientUnpause(old(Pausing()), client, token)
      ensures engine.outstanding == StillOutstanding(old(engine.outstanding), old(pauseToken), pauseToken)
    {
      if pauseToken == token {
        pauseClients := pauseClients - {client};
        if |pauseClients| == 0 {
          DoUnpause();
        }
      }
    }

    /** Everything queued is worked off while the engine waits. */
    method SyncPaused(token: nat) returns (ghost report: SyncReport)
      requires server.Queued() && VocabularyValid() && GrammarsValid() && QueueValid() && LedgerBalanced()
      modifies `loadedWords, `shadowWords, `grammars, `lives, `shadowGrammars, `Repr, Repr, `pauseToken, `pauses
      modifies engine`words, engine`handles, engine`calls, engine`unloadFaults
      modifies server`invokeQueue, server`wakeup, server`pushed
      ensures server.Queued() && VocabularyValid() && GrammarsValid() && LedgerBalanced() && shadowGrammars == map[]
      ensures AllSynced(old(State()), report, State())
      ensures Pausing() == old(Pausing()).(token := token, paused := old(pauses) + [token])
      ensures fresh(Repr - old(Repr))
    {
      hide AllSynced, UvServer.Queued, GrammarsValid, VocabularyValid, LedgerBalanced, QueueValid;
      pauseToken, pauses := token, pauses + [token];
      report := SyncState();
    }

    /** The function a pause puts on the event loop: synchronise first, then tell the clients and wait for them.
        `synced` is how things are in between. */
    method HandlePause(token: nat) returns (ghost report: SyncReport, ghost synced: World)
      requires Valid() && P.Enabled(Pausing(), P.Pause(token)) && engine.outstanding == token
      modifies this, Repr
      modifies engine`words, engine`handles, engine`calls, engine`unloadFaults, engine`outstanding, engine`resumed
      modifies server`invokeQueue, server`wakeup, server`pushed
      ensures Valid() && fresh(Repr - old(Repr)) && ready == old(ready)
      ensures Pausing() == P.Step(old(Pausing()), P.Pause(token)) && pauses == old(pauses) + [token]
      ensures engine.outstanding == pauseToken
      ensures server.clients == [] ==> pauseToken == 0 && engine.resumed == old(engine.resumed) + [token]
      ensures server.clients != [] ==>
        pauseToken == token && pauseTimer && pauseClients == server.Ids() && engine.resumed == old(engine.resumed)
      ensures PauseHandled(old(State()), report, synced, token, server.clients, State())
    {
      hide P.Invariant, P.Step, P.Resume, UvServer.Ids, AllSynced, UvServer.Queued, UvServer.Valid, State, Told;
      hide GrammarsValid, VocabularyValid, LedgerBalanced, PauseNotice;
      server.NobodyConnected();
      report := SyncPaused(token);
      synced := State();
      ReleaseOrAwait(token);
      PauseOpens(old(Pausing()), token, Pausing());
    }

    static lemma PauseOpens(p: P.PauseState, token: nat, q: P.PauseState)
      requires P.Invariant(p) && P.Enabled(p, P.Pause(token))
      requires var r := p.(token := token, paused := p.paused + [token]);
        q == if p.clients == {} then P.Resume(r) else r.(waiting := p.waiting + p.clients, timer := true)
      ensures q == P.Step(p, P.Pause(token)) && P.Invariant(q)
      ensures if p.clients == {} then q.token == 0 && q.resumed == p.resumed + [token]
              else q.token == token && q.timer && q.waiting == p.clients && q.resumed == p.resumed
    {
    }

    method ReleaseOrAwait(token: nat)
      requires server.Queued() && LedgerBalanced() && pauseToken == token == engine.outstanding && token != 0
      modifies `pauseToken, `pauseClients, `pauseTimer, engine`outstanding, engine`resumed
      modifies server`invokeQueue, server`wakeup, server`pushed
      ensures server.Queued() && LedgerBalanced()
      ensures Pausing() == if server.clients == [] then P.Resume(old(Pausing()))
                           else old(Pausing()).(waiting := old(pauseClients) + server.Ids(), timer := true)
      ensures engine.outstanding == pauseToken
      ensures State() == Told(old(State()), PauseNotice(token, server.clients))
    {
      hide UvServer.Queued, LedgerBalanced;
      if server.clients == [] {
        DoUnpause();
      } else {
        AwaitClients(token);
      }
    }

    method AwaitClients(token: nat)
      requires server.Queued() && LedgerBalanced()
      modifies `pauseClients, `pauseTimer, server`invokeQueue, server`wakeup, server`pushed
      ensures server.Queued() && LedgerBalanced()
      ensures pauseClients == old(pauseClients) + server.Ids() && pauseTimer
      ensures server.pushed == old(server.pushed) + [Publish(Paused(token))]
    {
      hide Balanced;
      var i := 0;
      while i < |server.clients|
        invariant 0 <= i <= |server.clients|
        invariant pauseClients == old(pauseClients) + set c | c in server.clients[..i]
        invariant server.Queued() && LedgerBalanced() && server.pushed == old(server.pushed)
      {
        pauseClients := pauseClients + {server.clients[i]};
        assert server.clients[..i + 1] == server.clients[..i] + [server.clients[i]];
        i := i + 1;
      }
      assert server.clients[..i] == server.clients;
      BalanceOthers(issued, server.pushed, shadowGrammars, dropped, [Publish(Paused(token))]);
      server.Invoke(Publish(Paused(token)));
      pauseTimer := true;
    }

    /** The timer's callback. libuv only fires a timer that is running. */
    method OnTimeout()
      requires Valid() && pauseTimer && (pauseToken != 0 ==> engine.outstanding == pauseToken)
      modifies `pauseToken, `pauseClients, `pauseTimer, engine`outstanding, engine`resumed
      ensures Valid() && Pausing() == P.Step(old(Pausing()), P.Timeout)
      ensures pauseToken == 0 && engine.outstanding == 0 && engine.resumed == old(engine.resumed) + [old(pauseToken)]
    {
      hide UvServer.Queued, UvServer.Valid, GrammarsValid, VocabularyValid, LedgerBalanced, QueueValid;
      DoUnpause();
    }

    method OnConnect() returns (id: nat)
      requires Valid()
      modifies server`clients, server`clientNonce
      ensures Valid() && id == old(server.clientNonce) && id !in old(server.Ids()) && id !in shadowWords
      ensures server.clients == old(server.clients) + [id] && server.clientNonce == id + 1
      ensures Pausing() == P.Step(old(Pausing()), P.Connect(id))
    {
      hide UvServer.Queued, GrammarsValid, LedgerBalanced, QueueValid;
      id := server.Accept();
      assert server.Ids() == old(server.Ids()) + {id};
    }

    /** Unload everything related to a client that is no longer connected; it may be one that is waited for.
        `taken` is how things are before a synchronisation, if there is one. */
    method HandleDisconnect(client: nat) returns (ghost taken: World, ghost report: SyncReport)
      requires server.Valid() && server.Queued() && client !in server.clients
      requires VocabularyValid() && GrammarsValid() && QueueValid() && LedgerBalanced()
      requires P.Invariant(Pausing().(clients := server.Ids() + {client}))
      requires pauseToken != 0 ==> shadowGrammars == map[] && engine.outstanding == pauseToken
      modifies this, Repr
      modifies engine`words, engine`handles, engine`calls, engine`unloadFaults, engine`outstanding, engine`resumed
      modifies server`invokeQueue, server`wakeup, server`pushed
      ensures Valid() && fresh(Repr - old(Repr)) && ready == old(ready)
      ensures Pausing() == if old(pauseToken) == 0 then old(Pausing())
                           else P.ClientUnpause(old(Pausing()), client, old(pauseToken))
      ensures engine.outstanding == if old(pauseToken) == 0 then old(engine.outstanding) else pauseToken
      ensures TakenBack(old(State()), client, taken)
      ensures old(pauseToken) == 0 ==> State() == taken
      ensures old(pauseToken) != 0 ==> AllSynced(taken, report, State()) && OwnedNames(lives, client) == {}
    {
      hide AllSynced, TakenBack, OwnedNames, UvServer.Queued, UvServer.Valid;
      hide GrammarsValid, VocabularyValid, LedgerBalanced;
      ghost var w := State();
      ClearClientState(client);
      taken, report := State(), SyncReport([], [], Vocabulary(), map[], []);
      if pauseToken > 0 {
        report := SyncState();
        NothingOwnedAfter(w, client, taken, report, State());
        ClientUnpause(client, pauseToken);
      }
    }

    /** A connection is closed: the server forgets the client, then its state is taken back. */
    method OnClose(client: nat) returns (ghost taken: World, ghost report: SyncReport)
      requires Valid() && client in server.clients
      requires pauseToken != 0 ==> engine.outstanding == pauseToken
      modifies this, Repr
      modifies engine`words, engine`handles, engine`calls, engine`unloadFaults, engine`outstanding, engine`resumed
      modifies server`clients, server`invokeQueue, server`wakeup, server`pushed
      ensures Valid() && fresh(Repr - old(Repr)) && ready == old(ready)
      ensures Pausing() == P.Step(old(Pausing()), P.Disconnect(client))
      ensures server.clients == Without(old(server.clients), client)
      ensures engine.outstanding == if old(pauseToken) == 0 then old(engine.outstanding) else pauseToken
      ensures TakenBack(old(State()), client, taken)
      ensures old(pauseToken) == 0 ==> State() == taken
      ensures old(pauseToken) != 0 ==> AllSynced(taken, report, State()) && OwnedNames(lives, client) == {}
    {
      hide AllSynced, TakenBack, OwnedNames, UvServer.Queued;
      hide GrammarsValid, VocabularyValid, LedgerBalanced, QueueValid;
      server.Remove(client);
      assert server.Ids() == old(server.Ids()) - {client};
      assert server.Ids() + {client} == old(server.Ids());
      taken, report := HandleDisconnect(client);
    }

    // -- handle_message -------------------------------------------------------------------------------

    method WordSet(client: nat, tid: nat, words: Option<set<CStr>>) returns (reply: Reply)
      requires Valid() && client in server.clients
      modifies `shadowWords, server`invokeQueue, server`wakeup, server`pushed
      ensures Valid() && reply == ReplyTo(ready, pauseToken, Command.WordSet(words))
      ensures Performed(old(State()), ready, pauseToken, client, tid, Command.WordSet(words),
                        SyncReport([], [], Vocabulary(), map[], []), State())
    {
      hide UvServer.Queued, GrammarsValid, LedgerBalanced, QueueValid, Words.Queued, Tied, Sound;
      if !ready {
        return Refused(NotReady);
      }
      if words.None? {
        return Refused(BadWords);
      }
      SetShadowWords(client, tid, words.value);
      return Later;
    }

    /** An accepted request waits for the next pause, or is worked off at once if there is one already. */
    method Submit(name: string, req: Request) returns (ghost report: SyncReport)
      requires Valid() && ValidRequest(req)
      modifies this, Repr, engine`words, engine`handles, engine`calls, engine`unloadFaults
      modifies server`invokeQueue, server`wakeup, server`pushed
      ensures Valid() && fresh(Repr - old(Repr)) && Pausing() == old(Pausing()) && ready == old(ready)
      ensures Submitted(old(State()), pauseToken != 0, name, req, report, State())
    {
      hide UvServer.Queued, UvServer.Valid, GrammarsValid, LedgerBalanced, VocabularyValid, AllSynced, ValidRequest;
      hide P.Invariant, Enlisted;
      report := SyncReport([], [], Vocabulary(), map[], []);
      SetShadowGrammar(name, req);
      if pauseToken != 0 {
        report := SyncState();
      }
    }

    /** g.set and g.unload: refused for the first thing wrong with the command, or submitted. */
    method GrammarCommand(client: nat, tid: nat, command: Command) returns (reply: Reply, ghost report: SyncReport)
      requires Valid() && (command.GrammarSet? || command.GrammarUnload?) && ValidCommand(command)
      modifies this, Repr, engine`words, engine`handles, engine`calls, engine`unloadFaults
      modifies server`invokeQueue, server`wakeup, server`pushed
      ensures Valid() && fresh(Repr - old(Repr)) && Pausing() == old(Pausing()) && ready == old(ready)
      ensures reply == ReplyTo(old(ready), old(pauseToken), command)
      ensures Performed(old(State()), old(ready), old(pauseToken), client, tid, command, report, State())
      ensures reply.Later? && old(pauseToken) == 0 ==> AsCommanded(shadowGrammars, client, tid, command)
    {
      hide Valid, Submitted, GrammarRequest, AsCommanded, AllSynced;
      ghost var before, open := State(), pauseToken;
      report := SyncReport([], [], Vocabulary(), map[], []);
      var refusal := GrammarRefusal(ready, command);
      if refusal.Some? {
        return Refused(refusal.value), report;
      }
      RequestIsValid(client, tid, command);
      report := Submit(command.name.value, GrammarRequest(client, tid, command));
      ghost var queued := AcceptedAsCommanded(before, ready, open, client, tid, command, report, State());
      return Later, report;
    }

    static lemma RequestIsValid(client: nat, tid: nat, command: Command)
      requires (command.GrammarSet? || command.GrammarUnload?) && ValidCommand(command)
               && GrammarRefusal(true, command).None?
      ensures ValidRequest(GrammarRequest(client, tid, command))
    {
    }

    method UnpauseCommand(client: nat, token: nat) returns (reply: Reply)
      requires Valid() && client in server.clients
      modifies `pauseToken, `pauseClients, `pauseTimer, engine`outstanding, engine`resumed
      ensures Valid() && Pausing() == P.Step(old(Pausing()), P.Unpause(client, token))
      ensures reply == ReplyTo(ready, old(pauseToken), UnpauseWith(token))
      ensures engine.outstanding == StillOutstanding(old(engine.outstanding), old(pauseToken), pauseToken)
    {
      hide UvServer.Queued, UvServer.Valid, GrammarsValid, VocabularyValid, LedgerBalanced, QueueValid;
      if token == 0 || token != pauseToken {
        return Refused(BadToken);
      }
      ClientUnpause(client, token);
      return Done;
    }

    method Execute(client: nat, tid: nat, command: Command) returns (reply: Reply, ghost report: SyncReport)
      requires Valid() && client in server.clients && ValidCommand(command)
      modifies this, Repr
      modifies engine`words, engine`handles, engine`calls, engine`unloadFaults, engine`outstanding, engine`resumed
      modifies server`invokeQueue, server`wakeup, server`pushed
      ensures Valid() && fresh(Repr - old(Repr)) && ready == old(ready)
      ensures Pausing() == if command.UnpauseWith? then P.Step(old(Pausing()), P.Unpause(client, command.token))
                           else old(Pausing())
      ensures engine.outstanding == StillOutstanding(old(engine.outstanding), old(pauseToken), pauseToken)
      ensures reply == ReplyTo(old(ready), old(pauseToken), command)
      ensures Performed(old(State()), old(ready), old(pauseToken), client, tid, command, report, State())
    {
      hide UvServer.Queued, UvServer.Valid, GrammarsValid, VocabularyValid, QueueValid, LedgerBalanced, PauseValid;
      hide Submitted, Words.Queued, P.Step;
      report := SyncReport([], [], Vocabulary(), map[], []);
      match command {
        case WordSet(words) => reply := WordSet(client, tid, words);
        case GrammarSet(_, _, _, _) => reply, report := GrammarCommand(client, tid, command);
        case GrammarUnload(_) => reply, report := GrammarCommand(client, tid, command);
        case UnpauseWith(token) => reply := UnpauseCommand(client, token);
      }
    }

    method Echo(handled: bool)
      requires Valid()
      modifies server`invokeQueue, server`wakeup, server`pushed
      ensures Valid() && server.pushed == old(server.pushed) + [Publish(CommandEcho(handled))]
    {
      hide UvServer.Queued, UvServer.Valid, GrammarsValid, VocabularyValid, QueueValid, Balanced;
      BalanceOthers(issued, server.pushed, shadowGrammars, dropped, [Publish(CommandEcho(handled))]);
      server.Invoke(Publish(CommandEcho(handled)));
    }

    /** A command does what it does, and whatever the reply, it is echoed to all clients last. */
    method HandleMessage(client: nat, tid: nat, command: Command)
      returns (reply: Reply, ghost report: SyncReport, ghost done: World)
      requires Valid() && client in server.clients && ValidCommand(command)
      modifies this, Repr
      modifies engine`words, engine`handles, engine`calls, engine`unloadFaults, engine`outstanding, engine`resumed
      modifies server`invokeQueue, server`wakeup, server`pushed
      ensures Valid() && fresh(Repr - old(Repr)) && ready == old(ready)
      ensures Pausing() == if command.UnpauseWith? then P.Step(old(Pausing()), P.Unpause(client, command.token))
                           else old(Pausing())
      ensures engine.outstanding == StillOutstanding(old(engine.outstanding), old(pauseToken), pauseToken)
      ensures reply == ReplyTo(old(ready), old(pauseToken), command)
      ensures Performed(old(State()), old(ready), old(pauseToken), client, tid, command, report, done)
      ensures State() == Told(done, [Publish(CommandEcho(!reply.Refused?))])
      ensures reply.Later? && old(pauseToken) == 0 && (command.GrammarSet? || command.GrammarUnload?) ==>
        AsCommanded(shadowGrammars, client, tid, command)
      ensures reply.Later? && command.WordSet? ==>
        client in shadowWords && command.words == Some(shadowWords[client].words) && shadowWords[client].lastTid == tid
    {
      hide Valid, ValidCommand, Performed, ReplyTo, P.Step, AsCommanded, AllSynced;
      ghost var before, open := State(), pauseToken;
      reply, report := Execute(client, tid, command);
      done := State();
      Echo(!reply.Refused?);
      if reply.Later? && (command.GrammarSet? || command.GrammarUnload?) {
        ghost var queued := AcceptedAsCommanded(before, ready, open, client, tid, command, report, done);
      }
      if reply.Later? && command.WordSet? {
        AcceptedWords(before, ready, open, client, tid, command, report, done);
      }
    }

    method OnReady()
      requires Valid()
      modifies `ready
      ensures Valid() && ready
    {
      ready := true;
    }
  }
}
