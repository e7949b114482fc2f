/** Everything the reconciler keeps, and how commands, synchronisations and disconnects change it. */
module Commands {
  import opened Bytes
  import opened EngineModel
  import opened Grammars
  import opened GrammarSpec
  import opened Ledger
  import opened Messages
  import opened Words

  /** The vocabulary, the live grammars next to the engine's, the queued grammar requests, the engine calls
      made so far, and the ledger of the requests. */
  datatype World = World(
    words: WordView, registry: Registry, queue: map<string, Request>,
    calls: seq<Call>, issued: multiset<Ticket>, dropped: multiset<Ticket>)

  function ReplyTo(ready: bool, pauseToken: nat, command: Command): Reply {
    match command
    case UnpauseWith(token) => if token == 0 || token != pauseToken then Refused(BadToken) else Done
    case WordSet(words) => if !ready then Refused(NotReady) else if words.None? then Refused(BadWords) else Later
    case _ => match GrammarRefusal(ready, command) case Some(why) => Refused(why) case None => Later
  }

  /** More was handed to the event loop, and nothing else happened. */
  function Told(w: World, tasks: seq<Task>): World {
    w.(words := w.words.(sent := w.words.sent + tasks))
  }

  function SkippedReply(queue: map<string, Request>, name: string): seq<Task> {
    if name in queue then [GrammarReply(name, queue[name], Skipped, [])] else []
  }

  /** An accepted grammar request replaces the queued one for its name, which is answered "skipped". */
  function Enlisted(w: World, name: string, req: Request): World {
    Told(w, SkippedReply(w.queue, name)).(
      queue := w.queue[name := req], issued := w.issued + multiset{TicketOf(name, req)})
  }

  /** One `sync_state`, of everything queued: the engine is called for that and for nothing else. */
  ghost predicate AllSynced(w: World, report: SyncReport, w': World) {
    && w' == w.(words := w'.words, registry := w'.registry, queue := map[], calls := w'.calls)
    && StateSynced(w.words, w.registry, w.queue, report, w'.words, w'.registry)
    && CallsMade(w.calls, report, w'.calls)
  }

  /** A pause was handled: everything synchronised, and then announced, if there was anybody to announce it to. */
  ghost predicate PauseHandled(w: World, report: SyncReport, synced: World, token: nat, clients: seq<nat>, w': World) {
    AllSynced(w, report, synced) && w' == Told(synced, PauseNotice(token, clients))
  }

  /** What a client has set is withdrawn: its words, and everything live it owns. What was queued under the names
      it owns is dropped. */
  ghost predicate TakenBack(w: World, client: nat, w': World) {
    var owned := OwnedNames(w.registry.lives, client);
    && w' == w.(words := w'.words, queue := w'.queue, issued := w'.issued, dropped := w'.dropped)
    && Withdrawn(w.words, client, w'.words)
    && UnloadsQueued(w.queue, owned, client, w'.queue)
    && w'.issued == w.issued + multiset(Pending(Restrict(w'.queue, owned)))
    && w'.dropped == w.dropped + multiset(Pending(Restrict(w.queue, owned)))
  }

  /** What a synchronisation sends: the word replies, then the grammar replies. */
  lemma SentBySync(w: World, report: SyncReport, w': World)
    requires AllSynced(w, report, w')
    ensures Enumerates(report.clients, w.words.shadow.Keys) && Enumerates(report.names, w.queue.Keys)
    ensures report.outcomes.Keys == w.queue.Keys
    ensures w'.words.sent
         == w.words.sent + WordReplies(report.clients, w.words.shadow, WordErrors(report.wordCalls))
            + GrammarReplies(report.names, w.queue, report.outcomes)
  {
  }

  lemma NothingOwnedAfter(w: World, client: nat, taken: World, report: SyncReport, w': World)
    requires w.queue == map[] && TakenBack(w, client, taken) && AllSynced(taken, report, w')
    ensures OwnedNames(w'.registry.lives, client) == {}
  {
    NothingOwned(w.registry, client, taken.queue, report.outcomes, w'.registry);
  }

  /** It waits for the next pause, or is worked off at once if there is one already. */
  ghost predicate Submitted(w: World, paused: bool, name: string, req: Request, report: SyncReport, w': World) {
    if paused then AllSynced(Enlisted(w, name, req), report, w') else w' == Enlisted(w, name, req)
  }

  /** w.set changes the vocabulary and nothing else. */
  ghost predicate WordsSetBy(w: World, client: nat, tid: nat, words: set<CStr>, w': World) {
    w' == w.(words := w'.words) && Words.Queued(w.words, client, tid, words, w'.words)
  }

  /** A refused command, or an unpause, changes nothing here. */
  ghost predicate Performed(w: World, ready: bool, pauseToken: nat, client: nat, tid: nat, command: Command,
                            report: SyncReport, w': World)
  {
    if !ReplyTo(ready, pauseToken, command).Later? then w' == w
    else if command.WordSet? then WordsSetBy(w, client, tid, command.words.value, w')
    else Submitted(w, pauseToken != 0, command.name.value, GrammarRequest(client, tid, command), report, w')
  }

  /** Under the command's name the queue holds what the command says, field by field. */
  predicate AsCommanded(queue: map<string, Request>, client: nat, tid: nat, command: Command)
    requires command.GrammarSet? || command.GrammarUnload?
  {
    && command.name.Some? && command.name.value in queue
    && var req := queue[command.name.value];
    && req.client == client && req.tid == tid
    && (command.GrammarUnload? ==> req.Unload?)
    && (command.GrammarSet? ==>
          && req.Set? && command.data == Some(req.blob) && command.rules == Some(req.rules)
          && (command.lists == Given(req.lists) || (command.lists == Absent && req.lists == map[])))
  }

  /** What was accepted is queued as it was commanded, and during a pause synchronised at once, with everything else
      in the queue as it was. */
  lemma AcceptedAsCommanded(w: World, ready: bool, pauseToken: nat, client: nat, tid: nat, command: Command,
                            report: SyncReport, w': World) returns (queued: World)
    requires Performed(w, ready, pauseToken, client, tid, command, report, w')
    requires ReplyTo(ready, pauseToken, command).Later? && (command.GrammarSet? || command.GrammarUnload?)
    ensures AsCommanded(queued.queue, client, tid, command)
    ensures forall n :: n != command.name.value ==>
      (n in queued.queue <==> n in w.queue) && (n in w.queue ==> queued.queue[n] == w.queue[n])
    ensures if pauseToken == 0 then w' == queued else AllSynced(queued, report, w')
  {
    hide AllSynced;
    queued := Enlisted(w, command.name.value, GrammarRequest(client, tid, command));
  }

  lemma AcceptedWords(w: World, ready: bool, pauseToken: nat, client: nat, tid: nat, command: Command,
                      report: SyncReport, w': World)
    requires Performed(w, ready, pauseToken, client, tid, command, report, w')
    requires ReplyTo(ready, pauseToken, command).Later? && command.WordSet?
    ensures command.words.Some? && client in w'.words.shadow
    ensures w'.words.shadow[client] == WordState(command.words.value, tid, false)
  {
  }
}
