/** The steps the reconciler takes, whatever the events behind them, and runs of such steps. */
module Runs {
  import opened Bytes
  import opened Commands
  import opened Grammars
  import opened GrammarSpec
  import opened Ledger
  import opened Messages
  import opened Words

  /** Everything the reconciler keeps, who is connected, and the next client id. */
  datatype State = State(world: World, clients: set<nat>, nonce: nat)

  /** Nobody is connected, nothing is recorded, queued, called or sent. */
  const START: State :=
    State(World(WordView(map[], {}, []), Registry(map[], map[], 0), map[], [], multiset{}, multiset{}), {}, 0)

  datatype Step =
    | Connect
    | Disconnect(client: nat)
    | SetWords(client: nat, tid: nat, words: set<CStr>)
    | Submit(name: string, req: Request)
    | Sync(report: SyncReport)
    | Others(tasks: seq<Task>)

  ghost predicate Moves(s: State, a: Step, s': State) {
    match a
    case Connect => s' == s.(clients := s.clients + {s.nonce}, nonce := s.nonce + 1)
    case Disconnect(client) =>
      && client in s.clients
      && s' == s.(world := s'.world, clients := s.clients - {client}) && TakenBack(s.world, client, s'.world)
    case SetWords(client, tid, words) =>
      client in s.clients && s' == s.(world := s'.world) && WordsSetBy(s.world, client, tid, words, s'.world)
    case Submit(name, req) =>
      req.client in s.clients && !req.Withdraw? && s' == s.(world := Enlisted(s.world, name, req))
    case Sync(report) => s' == s.(world := s'.world) && AllSynced(s.world, report, s'.world)
    case Others(tasks) => s' == s.(world := Told(s.world, tasks)) && forall t :: t in tasks ==> !t.Send?
  }

  /** A step and the state it leads to. */
  datatype Moved = Moved(step: Step, after: State)

  ghost predicate Chain(s: State, trace: seq<Moved>)
    decreases |trace|
  {
    trace == [] || (Moves(s, trace[0].step, trace[0].after) && Chain(trace[0].after, trace[1..]))
  }

  function Final(s: State, trace: seq<Moved>): State {
    if trace == [] then s else trace[|trace| - 1].after
  }

  lemma {:induction false} ChainAppend(s: State, a: seq<Moved>, b: seq<Moved>)
    requires Chain(s, a) && Chain(Final(s, a), b)
    ensures Chain(s, a + b) && Final(s, a + b) == Final(Final(s, a), b)
    decreases |a|
  {
    hide Moves;
    if a == [] {
      assert a + b == b;
    } else {
      ChainAppend(a[0].after, a[1..], b);
      assert (a + b)[0] == a[0] && (a + b)[1..] == a[1..] + b;
    }
  }

  lemma {:induction false} ChainSplit(s: State, trace: seq<Moved>, i: nat)
    requires Chain(s, trace) && i <= |trace|
    ensures Chain(s, trace[..i]) && Chain(Final(s, trace[..i]), trace[i..])
    ensures Final(Final(s, trace[..i]), trace[i..]) == Final(s, trace)
    decreases i
  {
    hide Moves;
    if i > 0 {
      ChainSplit(trace[0].after, trace[1..], i - 1);
      assert trace[..i][1..] == trace[1..][..i - 1] && trace[1..][i - 1..] == trace[i..];
    } else {
      assert trace[0..] == trace;
    }
  }

  lemma MovesAt(s: State, trace: seq<Moved>, i: nat)
    requires Chain(s, trace) && i < |trace|
    ensures Chain(s, trace[..i]) && Moves(Final(s, trace[..i]), trace[i].step, trace[i].after)
  {
    hide Moves;
    ChainSplit(s, trace, i);
    assert trace[i..][0] == trace[i];
  }

  /** Only ids already given out are connected or have words queued. */
  ghost predicate Known(s: State) {
    && (forall c :: c in s.clients ==> c < s.nonce)
    && (forall c :: c in s.world.words.shadow ==> c < s.nonce)
  }

  lemma KnownStep(s: State, a: Step, s': State)
    requires Moves(s, a, s') && Known(s)
    ensures Known(s')
  {
    if a.Sync? {
      SyncedKeys(s.world.words, a.report.wordCalls, a.report.clients, a.report.words);
    }
  }

  predicate NoSync(trace: seq<Moved>) {
    forall m :: m in trace ==> !m.step.Sync?
  }

  // -- what the event loop does, as such steps ------------------------------------------------------------

  /** A step without what the engine decided: None stands for a synchronisation, whatever came of it. */
  function Kind(m: Moved): seq<Option<Step>> {
    [if m.step.Sync? then None else Some(m.step)]
  }

  function Kinds(trace: seq<Moved>): seq<Option<Step>> {
    Concat(Kind, trace)
  }

  /** A run from one state to another, with steps of these kinds. */
  ghost predicate Leads(s: State, trace: seq<Moved>, kinds: seq<Option<Step>>, s': State) {
    Chain(s, trace) && Final(s, trace) == s' && Kinds(trace) == kinds
  }

  lemma LeadsOn(s: State, a: seq<Moved>, ka: seq<Option<Step>>, s': State, b: seq<Moved>, kb: seq<Option<Step>>,
                s'': State)
    requires Leads(s, a, ka, s') && Leads(s', b, kb, s'')
    ensures Leads(s, a + b, ka + kb, s'')
  {
    ChainAppend(s, a, b);
    ConcatAppend(Kind, a, b);
  }

  lemma NoStep(s: State)
    ensures Leads(s, [], [], s)
  {
  }

  lemma OneStep(s: State, a: Step, s': State)
    requires Moves(s, a, s')
    ensures Leads(s, [Moved(a, s')], [if a.Sync? then None else Some(a)], s')
  {
    assert Concat(Kind, [Moved(a, s')]) == Kind(Moved(a, s')) + Concat(Kind, []);
  }

  /** What an accepted command, a refused one, or an unpause comes to. */
  function CommandKinds(ready: bool, pauseToken: nat, client: nat, tid: nat, command: Command): seq<Option<Step>> {
    if !ReplyTo(ready, pauseToken, command).Later? then []
    else if command.WordSet? then [Some(SetWords(client, tid, command.words.value))]
    else [Some(Submit(command.name.value, GrammarRequest(client, tid, command)))]
         + if pauseToken != 0 then [None] else []
  }

  lemma SyncLeads(s: State, report: SyncReport, w': World) returns (trace: seq<Moved>)
    requires AllSynced(s.world, report, w')
    ensures Leads(s, trace, [None], s.(world := w'))
  {
    hide AllSynced;
    trace := [Moved(Sync(report), s.(world := w'))];
    OneStep(s, Sync(report), s.(world := w'));
  }

  lemma OthersLead(s: State, tasks: seq<Task>) returns (trace: seq<Moved>)
    requires forall t :: t in tasks ==> !t.Send?
    ensures Leads(s, trace, [Some(Others(tasks))], s.(world := Told(s.world, tasks)))
  {
    trace := [Moved(Others(tasks), s.(world := Told(s.world, tasks)))];
    OneStep(s, Others(tasks), s.(world := Told(s.world, tasks)));
  }

  lemma SubmitLeads(s: State, name: string, req: Request, paused: bool, report: SyncReport, w': World)
    returns (trace: seq<Moved>)
    requires req.client in s.clients && !req.Withdraw? && Submitted(s.world, paused, name, req, report, w')
    ensures Leads(s, trace, [Some(Submit(name, req))] + if paused then [None] else [], s.(world := w'))
  {
    hide AllSynced, Leads;
    var mid := s.(world := Enlisted(s.world, name, req));
    trace := [Moved(Submit(name, req), mid)];
    OneStep(s, Submit(name, req), mid);
    if paused {
      var rest := SyncLeads(mid, report, w');
      LeadsOn(s, trace, [Some(Submit(name, req))], mid, rest, [None], s.(world := w'));
      trace := trace + rest;
    } else {
      assert [Some(Submit(name, req))] + [] == [Some(Submit(name, req))];
    }
  }

  lemma CommandLeads(s: State, ready: bool, pauseToken: nat, client: nat, tid: nat, command: Command,
                     report: SyncReport, w': World) returns (trace: seq<Moved>)
    requires client in s.clients && Performed(s.world, ready, pauseToken, client, tid, command, report, w')
    ensures Leads(s, trace, CommandKinds(ready, pauseToken, client, tid, command), s.(world := w'))
  {
    hide WordsSetBy, Submitted, Leads;
    if !ReplyTo(ready, pauseToken, command).Later? {
      NoStep(s);
      trace := [];
    } else if command.WordSet? {
      OneStep(s, SetWords(client, tid, command.words.value), s.(world := w'));
      trace := [Moved(SetWords(client, tid, command.words.value), s.(world := w'))];
    } else {
      trace := SubmitLeads(s, command.name.value, GrammarRequest(client, tid, command), pauseToken != 0, report, w');
    }
  }
}
