/**
 * The pause protocol as a state machine. The engine announces a pause and waits; every client connected
 * at that moment has to let it go on, or disconnect, or the timer runs out.
 */
module Pausing {
  /** `token` is 0 while the engine runs. `paused` and `resumed` are the tokens handled and given back so far. */
  datatype PauseState = PauseState(
    token: nat, waiting: set<nat>, timer: bool, clients: set<nat>, paused: seq<nat>, resumed: seq<nat>)

  datatype PauseEvent =
    | Pause(token: nat)
    | Unpause(client: nat, token: nat)
    | Timeout
    | Connect(client: nat)
    | Disconnect(client: nat)

  const INITIAL := PauseState(0, {}, false, {}, [], [])

  function Resume(p: PauseState): PauseState {
    if p.token > 0 then p.(token := 0, waiting := {}, timer := false, resumed := p.resumed + [p.token]) else p
  }

  function ClientUnpause(p: PauseState, client: nat, token: nat): PauseState {
    if p.token == token then
      var q := p.(waiting := p.waiting - {client});
      if q.waiting == {} then Resume(q) else q
    else p
  }

  function Step(p: PauseState, ev: PauseEvent): PauseState {
    match ev
    case Pause(token) =>
      var q := p.(token := token, paused := p.paused + [token]);
      if p.clients == {} then Resume(q) else q.(waiting := p.waiting + p.clients, timer := true)
    case Unpause(client, token) => if token == 0 || token != p.token then p else ClientUnpause(p, client, token)
    case Timeout => Resume(p)
    case Connect(client) => p.(clients := p.clients + {client})
    case Disconnect(client) =>
      var q := p.(clients := p.clients - {client});
      if p.token > 0 then ClientUnpause(q, client, p.token) else q
  }

  /** Pauses come one at a time and never with token 0, the timer only fires while it is armed, ids are not shared. */
  predicate Enabled(p: PauseState, ev: PauseEvent) {
    match ev
    case Pause(token) => token != 0 && p.token == 0
    case Timeout => p.timer
    case Connect(client) => client !in p.clients
    case Disconnect(client) => client in p.clients
    case Unpause(client, _) => client in p.clients
  }

  predicate Invariant(p: PauseState) {
    && (p.token == 0 ==> p.waiting == {} && !p.timer && p.resumed == p.paused)
    && (p.token != 0 ==> p.timer && p.waiting != {} && p.waiting <= p.clients && p.paused == p.resumed + [p.token])
  }

  predicate Possible(p: PauseState, events: seq<PauseEvent>)
    decreases |events|
  {
    events == [] || (Enabled(p, events[0]) && Possible(Step(p, events[0]), events[1..]))
  }

  function Run(p: PauseState, events: seq<PauseEvent>): PauseState
    decreases |events|
  {
    if events == [] then p else Run(Step(p, events[0]), events[1..])
  }

  /** The events are possible one after the other, and lead from one state to the other. */
  predicate Leads(p: PauseState, events: seq<PauseEvent>, q: PauseState) {
    Possible(p, events) && Run(p, events) == q
  }

  lemma {:induction false} LeadsOn(p: PauseState, a: seq<PauseEvent>, q: PauseState, b: seq<PauseEvent>, r: PauseState)
    requires Leads(p, a, q) && Leads(q, b, r)
    ensures Leads(p, a + b, r)
    decreases |a|
  {
    if a == [] {
      assert a + b == b;
    } else {
      LeadsOn(Step(p, a[0]), a[1..], q, b, r);
      assert (a + b)[0] == a[0] && (a + b)[1..] == a[1..] + b;
    }
  }

  lemma OneStep(p: PauseState, ev: PauseEvent)
    requires Enabled(p, ev)
    ensures Leads(p, [ev], Step(p, ev))
  {
    assert Run(Step(p, ev), []) == Step(p, ev);
  }

  lemma StepKeepsInvariant(p: PauseState, ev: PauseEvent)
    requires Invariant(p) && Enabled(p, ev)
    ensures Invariant(Step(p, ev))
  {
  }

  /**
   * Over every run: the engine is resumed once for each pause, in order and with that pause's own token,
   * at most one pause is open, and while one is, the timer is armed and somebody connected is waited for.
   */
  lemma {:induction false} RunKeepsInvariant(p: PauseState, events: seq<PauseEvent>)
    requires Invariant(p) && Possible(p, events)
    ensures Invariant(Run(p, events))
    decreases |events|
  {
    if events != [] {
      RunKeepsInvariant(Step(p, events[0]), events[1..]);
    }
  }

  /** Whether some event lets the pause of that token go on without this client. */
  predicate Acts(events: seq<PauseEvent>, client: nat, token: nat) {
    Unpause(client, token) in events || Disconnect(client) in events
  }

  predicate AllAct(events: seq<PauseEvent>, clients: set<nat>, token: nat) {
    forall c :: c in clients ==> Acts(events, c, token)
  }

  /**
   * A pause is over exactly when the timer has fired or every client it was waiting for has unpaused with
   * its token or disconnected. Nothing else ends it: not a client that joined later, a repeated unpause,
   * or an unpause with another token.
   */
  lemma {:induction false} PauseEndsWhen(p: PauseState, events: seq<PauseEvent>)
    requires Invariant(p) && p.token != 0 && Possible(p, events)
    requires forall ev :: ev in events ==> !ev.Pause?
    ensures Run(p, events).token == 0 <==> Timeout in events || AllAct(events, p.waiting, p.token)
    ensures Run(p, events).token == 0 ==> Run(p, events).resumed == p.resumed + [p.token]
    ensures Run(p, events).token != 0 ==> Run(p, events).token == p.token && Run(p, events).resumed == p.resumed
    decreases |events|
  {
    if events != [] {
      var ev, q, rest := events[0], Step(p, events[0]), events[1..];
      assert events == [ev] + rest;
      if q.token == 0 {
        NoPauseNoChange(q, rest);
        if ev != Timeout {
          forall c | c in p.waiting ensures Acts(events, c, p.token) {
            assert c !in p.waiting - {ev.client};
          }
        }
      } else {
        PauseEndsWhen(q, rest);
        forall c | c in p.waiting ensures Acts(events, c, p.token) <==> c !in q.waiting || Acts(rest, c, p.token) {
        }
      }
    }
  }

  lemma {:induction false} NoPauseNoChange(p: PauseState, events: seq<PauseEvent>)
    requires Invariant(p) && p.token == 0 && Possible(p, events)
    requires forall ev :: ev in events ==> !ev.Pause?
    ensures Run(p, events).token == 0 && Run(p, events).resumed == p.resumed
    decreases |events|
  {
    if events != [] {
      assert events[0] in events;
      NoPauseNoChange(Step(p, events[0]), events[1..]);
    }
  }

  // -- from the very beginning -------------------------------------------------------------------------------

  /** Who is connected after these events. */
  function Connected(events: seq<PauseEvent>): set<nat> {
    if events == [] then {}
    else
      var before, last := Connected(events[..|events| - 1]), events[|events| - 1];
      if last.Connect? then before + {last.client}
      else if last.Disconnect? then before - {last.client}
      else before
  }

  /** The tokens of the pauses among them. */
  function Tokens(events: seq<PauseEvent>): seq<nat> {
    if events == [] then []
    else
      Tokens(events[..|events| - 1])
      + if events[|events| - 1].Pause? then [events[|events| - 1].token] else []
  }

  lemma {:induction false} RunLast(p: PauseState, events: seq<PauseEvent>, ev: PauseEvent)
    requires Possible(p, events + [ev])
    ensures Possible(p, events) && Enabled(Run(p, events), ev)
    ensures Run(p, events + [ev]) == Step(Run(p, events), ev)
    decreases |events|
  {
    if events == [] {
      assert [] + [ev] == [ev];
    } else {
      assert (events + [ev])[0] == events[0] && (events + [ev])[1..] == events[1..] + [ev];
      RunLast(Step(p, events[0]), events[1..], ev);
    }
  }

  lemma {:induction false} RunSplit(p: PauseState, events: seq<PauseEvent>, i: nat)
    requires Possible(p, events) && i <= |events|
    ensures Possible(p, events[..i]) && Possible(Run(p, events[..i]), events[i..])
    ensures Run(p, events) == Run(Run(p, events[..i]), events[i..])
    decreases i
  {
    if i == 0 {
      assert events[0..] == events;
    } else {
      RunSplit(Step(p, events[0]), events[1..], i - 1);
      assert events[..i][1..] == events[1..][..i - 1] && events[1..][i - 1..] == events[i..];
    }
  }

  lemma {:induction false} SinceTheBeginning(events: seq<PauseEvent>)
    requires Possible(INITIAL, events)
    ensures var p := Run(INITIAL, events); Invariant(p) && p.clients == Connected(events) && p.paused == Tokens(events)
    decreases |events|
  {
    RunKeepsInvariant(INITIAL, events);
    if events != [] {
      var last := |events| - 1;
      assert events == events[..last] + [events[last]];
      RunLast(INITIAL, events[..last], events[last]);
      SinceTheBeginning(events[..last]);
    }
  }

  /**
   * Over every run from the beginning: a pause is resumed, with its own token and after all earlier ones, if and only
   * if nobody was connected when it was handled, or the timer has fired since, or everybody who was connected then
   * has since unpaused with that token or disconnected.
   */
  lemma PauseIsResumedWhen(events: seq<PauseEvent>, i: nat)
    requires Possible(INITIAL, events) && i < |events| && events[i].Pause?
    requires forall j :: i < j < |events| ==> !events[j].Pause?
    ensures var t, rest, awaited := events[i].token, events[i + 1..], Connected(events[..i]);
      var over :=
        awaited == {} || Timeout in rest || forall c :: c in awaited ==> Unpause(c, t) in rest || Disconnect(c) in rest;
      && Run(INITIAL, events).resumed == Tokens(events[..i]) + (if over then [t] else [])
      && Run(INITIAL, events).token == (if over then 0 else t)
  {
    var rest, before := events[i + 1..], Run(INITIAL, events[..i]);
    RunSplit(INITIAL, events, i);
    SinceTheBeginning(events[..i]);
    assert events[i..][0] == events[i] && events[i..][1..] == rest;
    var handled := Step(before, events[i]);
    StepKeepsInvariant(before, events[i]);
    if handled.token == 0 {
      NoPauseNoChange(handled, rest);
    } else {
      PauseEndsWhen(handled, rest);
      assert AllAct(rest, handled.waiting, handled.token)
             <==> forall c :: c in handled.waiting ==> Acts(rest, c, handled.token);
    }
  }

  lemma {:induction false} NeverResumed(p: PauseState, events: seq<PauseEvent>, token: nat)
    requires p.token != token && token != 0 && token !in p.resumed && Pause(token) !in events
    ensures token !in Run(p, events).resumed
    decreases |events|
  {
    if events != [] {
      var ev := events[0];
      assert ev in events;
      NeverResumed(Step(p, ev), events[1..], token);
    }
  }

  /** If the engine did announce a pause while another was open, the first token would never be given back, whatever
      happens afterwards. */
  lemma OverlappingPauseIsLost(p: PauseState, token: nat, events: seq<PauseEvent>)
    requires Invariant(p) && p.token != 0 && p.token !in p.resumed && token !in {0, p.token}
    requires Pause(p.token) !in events
    ensures p.token in p.paused && p.token !in Run(Step(p, Pause(token)), events).resumed
  {
    assert p.paused[|p.resumed|] == p.token;
    assert p.clients != {} by {
      var c :| c in p.waiting;
      assert c in p.clients;
    }
    NeverResumed(Step(p, Pause(token)), events, p.token);
  }
}
