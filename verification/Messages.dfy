/** What the server queues for its event loop, and what the clients are told. */
module Messages {
  import opened Bytes
  import opened Grammars

  datatype Status = Success | Failed | Skipped

  datatype WordErrorKind = InvalidWord | ValidationFailed | AddFailed | DeleteFailed

  datatype WordError = WordError(kind: WordErrorKind, rc: int, word: CStr)

  datatype Message =
    | GrammarResult(name: string, status: Status, grammarErrors: seq<GrammarError>)
    | WordResult(status: Status, wordErrors: seq<WordError>)
    | Paused(token: nat)
    | CommandEcho(handled: bool)

  /** The functions that are ever handed to `UvServer::invoke`. */
  datatype Task =
    | Send(msg: Message, tid: nat, client: nat)
    | Publish(msg: Message)
    | HandlePause(token: nat)

  /** What a pause tells the clients, if there are any to tell. */
  function PauseNotice(token: nat, clients: seq<nat>): seq<Task> {
    if clients == [] then [] else [Publish(Paused(token))]
  }

  // -- commands, as the message handler has decoded them --------------------------------------------------

  datatype ListsField = Absent | Broken | Given(lists: Lists)

  datatype Command =
    | WordSet(words: Option<set<CStr>>)
    | GrammarSet(name: Option<string>, data: Option<seq<byte>>, rules: Option<set<string>>, lists: ListsField)
    | GrammarUnload(name: Option<string>)
    | UnpauseWith(token: nat)

  datatype Refusal = NotReady | BadWords | NoName | BadData | BadRules | BadLists | BadToken

  /** `Later` is the null reply: the answer is sent when the update is synced or discarded. */
  datatype Reply = Done | Later | Refused(why: Refusal)

  /** A list that arrives in one message packs into less than 4 GiB. */
  ghost predicate ValidCommand(c: Command) {
    c.GrammarSet? && c.lists.Given? ==> forall k :: k in c.lists.lists ==> Packable(c.lists.lists[k])
  }

  /** g.set and g.unload: the first thing wrong with the command, if anything. */
  function GrammarRefusal(ready: bool, command: Command): Option<Refusal>
    requires command.GrammarSet? || command.GrammarUnload?
  {
    if !ready then Some(NotReady)
    else if command.name.None? then Some(NoName)
    else if command.GrammarUnload? then None
    else if command.data.None? || command.data.value == [] then Some(BadData)
    else if command.rules.None? then Some(BadRules)
    else if command.lists.Broken? then Some(BadLists)
    else None
  }

  function GrammarRequest(client: nat, tid: nat, command: Command): (req: Request)
    requires (command.GrammarSet? || command.GrammarUnload?) && GrammarRefusal(true, command).None?
    ensures req.client == client && req.tid == tid && !req.Withdraw? && (req.Set? <==> command.GrammarSet?)
    ensures command.GrammarSet? ==>
      && command.data == Some(req.blob) && command.rules == Some(req.rules)
      && (command.lists == Given(req.lists) || (command.lists == Absent && req.lists == map[]))
  {
    if command.GrammarUnload? then Unload(client, tid)
    else Set(client, tid, command.data.value, command.rules.value,
             if command.lists.Given? then command.lists.lists else map[])
  }

  function PauseTokenOf(t: Task): seq<nat> {
    if t.HandlePause? then [t.token] else []
  }

  function PauseTokens(tasks: seq<Task>): seq<nat> {
    Concat(PauseTokenOf, tasks)
  }

  lemma PauseTokensNext(tasks: seq<Task>, t: Task)
    ensures PauseTokens(tasks + [t]) == PauseTokens(tasks) + PauseTokenOf(t)
    ensures PauseTokens([t] + tasks) == PauseTokenOf(t) + PauseTokens(tasks)
  {
    ConcatAppend(PauseTokenOf, tasks, [t]);
    ConcatAppend(PauseTokenOf, [t], tasks);
    assert Concat(PauseTokenOf, [t]) == PauseTokenOf(t) + Concat(PauseTokenOf, []);
  }

  // -- what the clients are written ----------------------------------------------------------------------

  /** `PUBLISH_TID`: the transaction id of messages nobody asked for. */
  const PUBLISH_TID: nat := 0

  datatype Write = Write(client: nat, tid: nat, msg: Message)

  /** A directed message reaches its client if it is still connected, a published one everybody. */
  function Deliveries(t: Task, clients: seq<nat>): seq<Write> {
    match t
    case Send(msg, tid, client) => if client in clients then [Write(client, tid, msg)] else []
    case Publish(msg) => Published(msg, clients)
    case HandlePause(_) => []
  }

  function Published(msg: Message, clients: seq<nat>): seq<Write> {
    seq(|clients|, i requires 0 <= i < |clients| => Write(clients[i], PUBLISH_TID, msg))
  }

  function DeliveriesTo(clients: seq<nat>): Task -> seq<Write> {
    t => Deliveries(t, clients)
  }
}
