/** What becomes of the engine's handles, and of the grammars a client has set, over any run of the reconciler. */
module GrammarRuns {
  import opened EngineModel
  import opened Grammars
  import opened GrammarSpec
  import opened Ledger
  import opened Runs

  /** A handle that has leaked stays leaked, and as it is, for good. */
  lemma {:induction false} LeaksAreForever(s: State, trace: seq<Moved>, h: Handle)
    requires Chain(s, trace) && h in s.world.registry.handles && !Owned(h, s.world.registry.lives)
    ensures var r, r' := s.world.registry, Final(s, trace).world.registry;
      HandleKept(h, r.handles, r'.handles) && !Owned(h, r'.lives)
    decreases |trace|
  {
    if trace != [] {
      LeakStep(s, trace[0].step, trace[0].after, h);
      LeaksAreForever(trace[0].after, trace[1..], h);
    }
  }

  lemma LeakStep(s: State, a: Step, s': State, h: Handle)
    requires Moves(s, a, s') && h in s.world.registry.handles && !Owned(h, s.world.registry.lives)
    ensures HandleKept(h, s.world.registry.handles, s'.world.registry.handles) && !Owned(h, s'.world.registry.lives)
  {
    if a.Sync? {
      SyncedIsQueueStep(s.world.words, s.world.registry, s.world.queue, a.report, s'.world.words, s'.world.registry);
    }
  }

  /** Whether what is recorded for a name is what the engine holds. */
  ghost predicate InStep(s: State, name: string) {
    name in s.world.registry.lives ==> Agrees(s.world.registry.lives[name], s.world.registry.handles)
  }

  /** A synchronisation that loaded that name anew although one of the calls to unload it had failed, and carried
      something of the old record over. */
  ghost predicate CarriesOver(s: State, m: Moved, name: string) {
    && m.step.Sync? && name in s.world.queue && name in m.step.report.outcomes
    && var pre, req, o := Lookup(s.world.registry.lives, name), s.world.queue[name], m.step.report.outcomes[name];
       && pre.Some? && Reloads(pre, req) && o.errors == [] && !o.clean && !NoFailedUnload(o.calls)
       && !NothingCarriedOver(pre.value.rules, pre.value.lists, req)
  }

  /** The state a step of a run started from. */
  function Before(s: State, trace: seq<Moved>, i: nat): State
    requires i < |trace|
  {
    Final(s, trace[..i])
  }

  /** A name falls out of step in such a reload, and in no other step. */
  lemma OutOfStep(s: State, m: Moved, name: string)
    requires Moves(s, m.step, m.after) && InStep(s, name)
    ensures !InStep(m.after, name) <==> CarriesOver(s, m, name)
  {
    var a, r, r' := m.step, s.world.registry, m.after.world.registry;
    if a.Sync? {
      SyncedIsQueueStep(s.world.words, r, s.world.queue, a.report, m.after.world.words, r');
      if name in s.world.queue {
        assert NameSettled(r, name, s.world.queue[name], a.report.outcomes[name], r');
      } else {
        assert Lookup(r'.lives, name) == Lookup(r.lives, name);
      }
    }
  }

  /**
   * A name is out of step with the engine only if one of its own reloads went on over a failed unload and carried
   * something over: whatever else has failed in the run, and for whatever other names.
   */
  lemma {:induction false} OnlyItsOwnReloadPutsANameOutOfStep(s: State, trace: seq<Moved>, name: string)
    requires Chain(s, trace) && InStep(s, name) && !InStep(Final(s, trace), name)
    ensures exists i :: 0 <= i < |trace| && CarriesOver(Before(s, trace, i), trace[i], name)
    decreases |trace|
  {
    assert trace != [];
    var last := |trace| - 1;
    ChainSplit(s, trace, last);
    var before := Before(s, trace, last);
    assert trace[last..] == [trace[last]] && Moves(before, trace[last].step, trace[last].after);
    if InStep(before, name) {
      OutOfStep(before, trace[last], name);
    } else {
      OnlyItsOwnReloadPutsANameOutOfStep(s, trace[..last], name);
      var i :| 0 <= i < last && CarriesOver(Before(s, trace[..last], i), trace[..last][i], name);
      assert trace[..last][..i] == trace[..i];
    }
  }

  // -- after a disconnect ------------------------------------------------------------------------------------

  /** Between two synchronisations nothing becomes live or leaves, and what a client that is gone has queued can
      only be replaced by others or dropped. */
  lemma {:induction false} QuietRun(s: State, trace: seq<Moved>, client: nat, name: string)
    requires Chain(s, trace) && NoSync(trace) && Known(s) && client !in s.clients && client < s.nonce
    ensures var q, q', end := s.world.queue, Final(s, trace).world.queue, Final(s, trace);
      && Known(end) && client !in end.clients && client < end.nonce
      && end.world.registry == s.world.registry
      && (name in q ==> name in q')
      && (name in q' && q'[name].Set? && q'[name].client == client ==> name in q && q'[name] == q[name])
    decreases |trace|
  {
    if trace != [] {
      assert trace[0] in trace;
      KnownStep(s, trace[0].step, trace[0].after);
      QuietRun(trace[0].after, trace[1..], client, name);
    }
  }

  /** After a synchronisation a client owns what it asked for and got, and what it owned and nobody asked for. */
  lemma OwnedAfterSync(s: State, report: SyncReport, end: State, client: nat, name: string)
    requires Moves(s, Sync(report), end)
    ensures var queue := s.world.queue;
      name in OwnedNames(end.world.registry.lives, client) <==>
        if name in queue then
          queue[name].Set? && queue[name].client == client
          && name in report.outcomes && report.outcomes[name].errors == []
        else name in OwnedNames(s.world.registry.lives, client)
  {
    var r, r' := s.world.registry, end.world.registry;
    SyncedIsQueueStep(s.world.words, r, s.world.queue, report, end.world.words, r');
    if name in s.world.queue {
      assert NameSettled(r, name, s.world.queue[name], report.outcomes[name], r');
    } else {
      assert Lookup(r'.lives, name) == Lookup(r.lives, name);
    }
  }

  /** A disconnect queues an unload under every name the client owns, and leaves the other names alone. */
  lemma QueuedByDisconnect(s: State, client: nat, t: State, name: string)
    requires Known(s) && Moves(s, Disconnect(client), t)
    ensures Known(t) && client !in t.clients && client < t.nonce && t.world.registry == s.world.registry
    ensures var q, q' := s.world.queue, t.world.queue;
      if name in OwnedNames(s.world.registry.lives, client) then name in q' && q'[name].Withdraw?
      else (name in q' <==> name in q) && (name in q ==> q'[name] == q[name])
  {
    KnownStep(s, Disconnect(client), t);
  }

  /**
   * What a disconnect leaves: after the next synchronisation, whatever others have asked for in between, the client
   * owns a grammar exactly if it had a set request queued under a name it did not own, which nobody replaced and
   * which went well.
   */
  lemma WhatADisconnectLeaves(s: State, client: nat, t: State, trace: seq<Moved>, report: SyncReport, end: State,
                              name: string)
    requires Known(s) && Moves(s, Disconnect(client), t) && Chain(t, trace) && NoSync(trace)
    requires Moves(Final(t, trace), Sync(report), end)
    ensures var queue, lives := Final(t, trace).world.queue, s.world.registry.lives;
      name in OwnedNames(end.world.registry.lives, client) <==>
        && name !in OwnedNames(lives, client)
        && name in s.world.queue && s.world.queue[name].Set? && s.world.queue[name].client == client
        && name in queue && queue[name] == s.world.queue[name]
        && name in report.outcomes && report.outcomes[name].errors == []
  {
    hide Moves, Known, OwnedNames;
    QueuedByDisconnect(s, client, t, name);
    QuietRun(t, trace, client, name);
    OwnedAfterSync(Final(t, trace), report, end, client, name);
  }
}
