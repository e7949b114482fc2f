/** The events that drive the program, what each does to everything it keeps, and runs of them. */
module Events {
  import opened Bytes
  import opened Commands
  import opened LoopRuns
  import opened Messages
  import opened Server
  import P = Pausing
  import R = Runs

  datatype Event =
    | Accept
    | Close(client: nat)
    | Receive(client: nat, tid: nat, command: Command)
    | TimerFires
    | EnginePauses(token: nat)
    | EngineReady
    | Drain

  function PauseOf(t: Task): seq<P.PauseEvent> {
    if t.HandlePause? then [P.Pause(t.token)] else []
  }

  /** What an event means to the pause machine; `id` is the next client's, `queue` what waits in the invoke queue. */
  function PauseEvents(ev: Event, id: nat, queue: seq<Task>): seq<P.PauseEvent> {
    match ev
    case Accept => [P.Connect(id)]
    case Close(client) => [P.Disconnect(client)]
    case Receive(client, _, command) => if command.UnpauseWith? then [P.Unpause(client, command.token)] else []
    case TimerFires => [P.Timeout]
    case Drain => Concat(PauseOf, queue)
    case _ => []
  }

  /** The client list after an event. */
  function ClientsAfter(ev: Event, id: nat, clients: seq<nat>): seq<nat> {
    match ev
    case Accept => clients + [id]
    case Close(client) => Without(clients, client)
    case _ => clients
  }

  /** What an event does to the server: only a drain runs what is queued; `queue` is what waits afterwards. */
  ghost function LoopAfter(ev: Event, loop: Loop, queue: seq<Task>): Loop {
    var run := if ev.Drain? then loop.queue else [];
    Loop(ClientsAfter(ev, loop.nonce, loop.clients), if ev.Accept? then loop.nonce + 1 else loop.nonce, queue,
         loop.taken + run, loop.written + Concat(DeliveriesTo(loop.clients), run))
  }

  lemma NothingRuns(ev: Event, loop: Loop, queue: seq<Task>)
    requires !ev.Drain?
    ensures LoopAfter(ev, loop, queue).taken == loop.taken && LoopAfter(ev, loop, queue).written == loop.written
  {
  }

  type Kinds = seq<Option<R.Step>>

  /** The steps an event stands for; None is a synchronisation. */
  function EventKinds(ev: Event, ready: bool, pauseToken: nat, clients: seq<nat>, queue: seq<Task>): Kinds {
    match ev
    case Accept => [Some(R.Connect)]
    case Close(client) => [Some(R.Disconnect(client))] + if pauseToken != 0 then [None] else []
    case Receive(client, tid, command) =>
      R.CommandKinds(ready, pauseToken, client, tid, command)
      + [Some(R.Others([Publish(CommandEcho(!ReplyTo(ready, pauseToken, command).Refused?))]))]
    case EnginePauses(token) => [Some(R.Others([HandlePause(token)]))]
    case Drain => Concat(KindsOf(clients), queue)
    case _ => []
  }

  // -- the program, event by event ----------------------------------------------------------------------------

  /** Everything the program keeps between two callbacks. */
  datatype Program = Program(ready: bool, pausing: P.PauseState, loop: Loop, reconciler: R.State)

  const NOTHING: Program := Program(false, P.INITIAL, START, R.START)

  /** What the outside world does not do: speak for a closed connection, fire a stopped timer, pause while a pause is
      under way or on its way. */
  predicate CanHappen(p: Program, ev: Event) {
    match ev
    case Close(client) => client in p.loop.clients
    case Receive(client, _, _) => client in p.loop.clients
    case TimerFires => p.pausing.timer
    case EnginePauses(token) => token != 0 && p.pausing.token == 0 && PauseTokens(p.loop.queue) == []
    case _ => true
  }

  ghost predicate ValidEvent(ev: Event) {
    ev.Receive? ==> ValidCommand(ev.command)
  }

  /** The steps an event came to, of the reconciler and of the pause machine, and how things are after it. */
  datatype Record = Record(trace: seq<R.Moved>, pauses: seq<P.PauseEvent>, after: Program)

  function EventPauses(p: Program, ev: Event): seq<P.PauseEvent> {
    PauseEvents(ev, p.loop.nonce, p.loop.queue)
  }

  ghost predicate Handled(p: Program, ev: Event, r: Record) {
    && r.after.ready == (p.ready || ev.EngineReady?)
    && R.Leads(p.reconciler, r.trace, EventKinds(ev, p.ready, p.pausing.token, p.loop.clients, p.loop.queue),
               r.after.reconciler)
    && r.pauses == EventPauses(p, ev) && P.Leads(p.pausing, r.pauses, r.after.pausing)
    && r.after.loop == LoopAfter(ev, p.loop, r.after.loop.queue)
    && r.after.reconciler.world.words.sent == r.after.loop.taken + r.after.loop.queue
  }

  /** An event that cannot happen is skipped. */
  ghost predicate Follows(p: Program, ev: Event, r: Record) {
    if CanHappen(p, ev) then Handled(p, ev, r) else r == Record([], [], p)
  }

  function Reached(p: Program, records: seq<Record>): Program {
    if records == [] then p else records[|records| - 1].after
  }

  /** A run: what every event came to, one after the other. */
  ghost predicate RunOf(p: Program, events: seq<Event>, records: seq<Record>) {
    |records| == |events| && forall i :: 0 <= i < |events| ==> Follows(Reached(p, records[..i]), events[i], records[i])
  }

  lemma NoRecords(p: Program)
    ensures RunOf(p, [], []) && Reached(p, []) == p
  {
  }

  lemma OneMoreRecord(p: Program, events: seq<Event>, records: seq<Record>, ev: Event, r: Record)
    requires RunOf(p, events, records) && Follows(Reached(p, records), ev, r)
    ensures RunOf(p, events + [ev], records + [r]) && Reached(p, records + [r]) == r.after
  {
    hide Follows;
    forall i | 0 <= i <= |records| ensures (records + [r])[..i] == records[..i] {
    }
    assert records[..|records|] == records;
  }
}
