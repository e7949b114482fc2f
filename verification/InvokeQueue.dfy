/**
 * The invoke queue between threads, one atomic step at a time. Any thread pushes a function under the lock
 * and then signals the loop; the loop wakes, swaps the queue out under the lock and runs the functions,
 * which may push functions themselves while other threads go on pushing.
 */
module InvokeQueue {
  import opened Bytes
  import opened Messages

  /** A queued function; `from` is the place in the execution order of the function that pushed it, if one did. */
  datatype Item = Item(task: Task, from: Option<nat>)

  /** `Running`: the rest of the swapped-out batch, which function is running, what it still has to push, and
      whether it has pushed without having signalled yet. */
  datatype Phase =
    | Idle
    | Entered
    | Running(batch: seq<Item>, self: nat, emit: seq<Task>, unsignalled: bool)

  /** An entry of the server's client list: a connection, numbered in the order they were accepted, and its id. */
  datatype Client = Client(conn: nat, id: nat)

  /** What is remembered of a connection: its id, and how many functions had run when it came and when it left. */
  datatype Session = Session(id: nat, since: nat, until: Option<nat>)

  datatype Written = Written(conn: nat, item: Item)

  datatype System = System(
    queue: seq<Item>, wakeup: bool, pushers: nat, loop: Phase,
    pushed: seq<Item>, executed: seq<Item>,
    nonce: nat, clients: seq<Client>, sessions: seq<Session>, written: seq<Written>)
  {
    predicate Connected(conn: nat) {
      conn < |sessions| && sessions[conn].until.None?
    }
  }

  const INITIAL := System([], false, 0, Idle, [], [], 0, [], [], [])

  /** What a function pushes, in order, may depend on everything that has run up to and including it. */
  type Emits = seq<Item> -> seq<Task>

  datatype Step =
    | ForeignPush(task: Task)
    | ForeignSignal
    | Wake
    | Swap
    | Start
    | Push
    | Signal
    | Finish
    | Connect
    | Disconnect(conn: nat)

  predicate Addressed(t: Task, client: nat) {
    t.Publish? || (t.Send? && t.client == client)
  }

  predicate Enabled(s: System, a: Step) {
    match a
    case ForeignPush(_) => true
    case ForeignSignal => s.pushers > 0
    case Wake => s.loop.Idle? && s.wakeup
    case Swap => s.loop.Entered?
    case Start => s.loop.Running? && s.loop.emit == [] && !s.loop.unsignalled && s.loop.batch != []
    case Push => s.loop.Running? && s.loop.emit != [] && !s.loop.unsignalled
    case Signal => s.loop.Running? && s.loop.unsignalled
    case Finish => s.loop.Running? && s.loop.emit == [] && !s.loop.unsignalled && s.loop.batch == []
    case Connect => s.loop.Idle?
    case Disconnect(conn) => s.loop.Idle? && s.Connected(conn)
  }

  function Enqueue(s: System, item: Item): System {
    s.(queue := s.queue + [item], pushed := s.pushed + [item])
  }

  /** `send`: the first client of the list with that id is written the message. */
  function WriteFirst(clients: seq<Client>, item: Item, id: nat): seq<Written> {
    if clients == [] then []
    else if clients[0].id == id then [Written(clients[0].conn, item)]
    else WriteFirst(clients[1..], item, id)
  }

  /** `publish`: every client of the list is. */
  function WriteAll(clients: seq<Client>, item: Item): seq<Written> {
    seq(|clients|, i requires 0 <= i < |clients| => Written(clients[i].conn, item))
  }

  function Deliver(clients: seq<Client>, item: Item): seq<Written> {
    match item.task
    case Publish(_) => WriteAll(clients, item)
    case Send(_, _, id) => WriteFirst(clients, item, id)
    case HandlePause(_) => []
  }

  /** `std::list::remove` of a connection that was closed. */
  function Without(clients: seq<Client>, conn: nat): seq<Client> {
    if clients == [] then []
    else if clients[0].conn == conn then Without(clients[1..], conn)
    else [clients[0]] + Without(clients[1..], conn)
  }

  function Next(f: Emits, s: System, a: Step): System
    requires Enabled(s, a)
  {
    match a
    case ForeignPush(task) => Enqueue(s, Item(task, None)).(pushers := s.pushers + 1)
    case ForeignSignal => s.(pushers := s.pushers - 1, wakeup := true)
    case Wake => s.(loop := Entered, wakeup := false)
    case Swap => s.(loop := Running(s.queue, 0, [], false), queue := [])
    case Start =>
      var item := s.loop.batch[0];
      s.(executed := s.executed + [item],
         loop := Running(s.loop.batch[1..], |s.executed|, f(s.executed + [item]), false),
         written := s.written + Deliver(s.clients, item))
    case Push =>
      var item := Item(s.loop.emit[0], Some(s.loop.self));
      Enqueue(s, item).(loop := s.loop.(emit := s.loop.emit[1..], unsignalled := true))
    case Signal => s.(wakeup := true, loop := s.loop.(unsignalled := false))
    case Finish => s.(loop := Idle)
    case Connect =>
      s.(nonce := s.nonce + 1, clients := s.clients + [Client(|s.sessions|, s.nonce)],
         sessions := s.sessions + [Session(s.nonce, |s.executed|, None)])
    case Disconnect(conn) =>
      s.(clients := Without(s.clients, conn),
         sessions := s.sessions[conn := s.sessions[conn].(until := Some(|s.executed|))])
  }

  predicate Possible(f: Emits, s: System, steps: seq<Step>)
    decreases |steps|
  {
    steps == [] || (Enabled(s, steps[0]) && Possible(f, Next(f, s, steps[0]), steps[1..]))
  }

  function Run(f: Emits, s: System, steps: seq<Step>): System
    requires Possible(f, s, steps)
    decreases |steps|
  {
    if steps == [] then s else Run(f, Next(f, s, steps[0]), steps[1..])
  }

  // -- filters ---------------------------------------------------------------------------------------

  function TaskFrom(k: nat): Item -> seq<Task> {
    (item: Item) => if item.from == Some(k) then [item.task] else []
  }

  /** What function number `k` pushed, among these. */
  function From(items: seq<Item>, k: nat): seq<Task> {
    Concat(TaskFrom(k), items)
  }

  function ItemFor(client: nat): Item -> seq<Item> {
    (item: Item) => if Addressed(item.task, client) then [item] else []
  }

  function For(items: seq<Item>, client: nat): seq<Item> {
    Concat(ItemFor(client), items)
  }

  function TaskFor(client: nat): Task -> seq<Task> {
    (task: Task) => if Addressed(task, client) then [task] else []
  }

  function TasksFor(tasks: seq<Task>, client: nat): seq<Task> {
    Concat(TaskFor(client), tasks)
  }

  lemma FromAppend(a: seq<Item>, b: seq<Item>, k: nat)
    ensures From(a + b, k) == From(a, k) + From(b, k)
  {
    ConcatAppend(TaskFrom(k), a, b);
  }

  lemma FromOne(item: Item, k: nat)
    ensures From([item], k) == if item.from == Some(k) then [item.task] else []
  {
    assert Concat(TaskFrom(k), [item]) == TaskFrom(k)(item) + Concat(TaskFrom(k), []);
  }

  lemma {:induction false} FromNone(items: seq<Item>, k: nat)
    requires forall i :: 0 <= i < |items| ==> items[i].from != Some(k)
    ensures From(items, k) == []
  {
    if items != [] {
      FromNone(items[1..], k);
    }
  }

  lemma ForNone(client: nat)
    ensures For([], client) == []
  {
  }

  lemma ForNext(items: seq<Item>, item: Item, client: nat)
    ensures For(items + [item], client) == For(items, client) + if Addressed(item.task, client) then [item] else []
  {
    ConcatAppend(ItemFor(client), items, [item]);
    assert Concat(ItemFor(client), [item]) == ItemFor(client)(item) + Concat(ItemFor(client), []);
  }

  /** Filtering by address and by origin commute. */
  lemma {:induction false} FromFor(items: seq<Item>, client: nat, k: nat)
    ensures From(For(items, client), k) == TasksFor(From(items, k), client)
  {
    if items != [] {
      var item, rest := items[0], items[1..];
      FromFor(rest, client, k);
      FromAppend(ItemFor(client)(item), For(rest, client), k);
      FromOne(item, k);
      ConcatAppend(TaskFor(client), TaskFrom(k)(item), From(rest, k));
      assert Concat(TaskFor(client), [item.task]) == TaskFor(client)(item.task) + Concat(TaskFor(client), []);
    }
  }

  // -- the invariant -------------------------------------------------------------------------------------

  function Batch(s: System): seq<Item> {
    if s.loop.Running? then s.loop.batch else []
  }

  /** Everything ever pushed has run, is in the batch, or is in the queue, and in that order. */
  predicate FirstInFirstOut(s: System) {
    s.pushed == s.executed + Batch(s) + s.queue
  }

  /** If functions wait, the loop has been signalled, or is about to be, or is about to swap anyway. */
  predicate NoLostWakeup(s: System) {
    s.queue != [] ==> s.wakeup || s.pushers > 0 || s.loop.Entered? || (s.loop.Running? && s.loop.unsignalled)
  }

  /** What the running function still has to push. */
  function Left(s: System, k: nat): seq<Task> {
    if s.loop.Running? && s.loop.self == k then s.loop.emit else []
  }

  /** Each function that ran has pushed what it set out to, in order, except for what it still has to push. */
  ghost predicate PushedInOrder(f: Emits, s: System) {
    && (s.loop.Running? && s.loop.emit != [] ==> s.loop.self < |s.executed|)
    && (forall k :: 0 <= k < |s.executed| ==> From(s.pushed, k) + Left(s, k) == f(s.executed[..k + 1]))
    && (forall i :: 0 <= i < |s.pushed| && s.pushed[i].from.Some? ==>
          s.pushed[i].from.value < i && s.pushed[i].from.value < |s.executed|)
  }

  /** What ran while a connection was open. */
  predicate Known(s: System, conn: nat) {
    conn < |s.sessions| && s.sessions[conn].since <= End(s, conn) <= |s.executed|
  }

  function End(s: System, conn: nat): nat
    requires conn < |s.sessions|
  {
    if s.sessions[conn].until.Some? then s.sessions[conn].until.value else |s.executed|
  }

  function Seen(s: System, conn: nat): seq<Item>
    requires Known(s, conn)
  {
    s.executed[s.sessions[conn].since..End(s, conn)]
  }

  function ItemTo(conn: nat): Written -> seq<Item> {
    (w: Written) => if w.conn == conn then [w.item] else []
  }

  /** What a connection was written. */
  function Received(written: seq<Written>, conn: nat): seq<Item> {
    Concat(ItemTo(conn), written)
  }

  /** The list holds the open connections, each once, with their ids. */
  ghost predicate ListUpToDate(clients: seq<Client>, sessions: seq<Session>) {
    && (forall i :: 0 <= i < |clients| ==> InList(clients[i], sessions))
    && (forall i, j :: 0 <= i < j < |clients| ==> clients[i].conn != clients[j].conn)
    && (forall conn :: 0 <= conn < |sessions| && sessions[conn].until.None? ==>
          Client(conn, sessions[conn].id) in clients)
  }

  predicate InList(c: Client, sessions: seq<Session>) {
    c.conn < |sessions| && sessions[c.conn].until.None? && sessions[c.conn].id == c.id
  }

  /** No id was ever given out twice. */
  ghost predicate IdsDiffer(sessions: seq<Session>, nonce: nat) {
    && (forall i :: 0 <= i < |sessions| ==> sessions[i].id < nonce)
    && (forall i, j :: 0 <= i < j < |sessions| ==> sessions[i].id != sessions[j].id)
  }

  /** Every connection was written exactly what was addressed to its id while it was open, in the order it ran. */
  ghost predicate EachReceived(s: System) {
    forall conn :: 0 <= conn < |s.sessions| ==>
      Known(s, conn) && Received(s.written, conn) == For(Seen(s, conn), s.sessions[conn].id)
  }

  ghost predicate Delivered(s: System) {
    ListUpToDate(s.clients, s.sessions) && IdsDiffer(s.sessions, s.nonce) && EachReceived(s)
  }

  ghost predicate Invariant(f: Emits, s: System) {
    FirstInFirstOut(s) && NoLostWakeup(s) && PushedInOrder(f, s) && Delivered(s) && NothingAhead(s)
  }

  lemma EnqueueInOrder(f: Emits, s: System, item: Item, s': System)
    requires FirstInFirstOut(s) && PushedInOrder(f, s) && s'.pushed == s.pushed + [item] && s'.executed == s.executed
    requires item.from.None? ==> s'.loop == s.loop
    requires item.from.Some? ==>
      (s.loop.Running? && s.loop.emit != [] && s'.loop.Running?
       && item == Item(s.loop.emit[0], Some(s.loop.self))
       && s'.loop.self == s.loop.self && s'.loop.emit == s.loop.emit[1..])
    ensures PushedInOrder(f, s')
  {
    forall k | 0 <= k < |s.executed| ensures From(s'.pushed, k) + Left(s', k) == f(s.executed[..k + 1]) {
      FromAppend(s.pushed, [item], k);
      FromOne(item, k);
      if item.from == Some(k) {
        assert Left(s, k) == [item.task] + Left(s', k);
        Associate(From(s.pushed, k), [item.task], Left(s', k));
      } else {
        assert Left(s', k) == Left(s, k) && From(s'.pushed, k) == From(s.pushed, k);
      }
    }
  }

  lemma StartInOrder(f: Emits, s: System)
    requires FirstInFirstOut(s) && PushedInOrder(f, s) && Enabled(s, Start)
    ensures PushedInOrder(f, Next(f, s, Start))
  {
    var s', n := Next(f, s, Start), |s.executed|;
    forall k | 0 <= k <= n ensures From(s'.pushed, k) + Left(s', k) == f(s'.executed[..k + 1]) {
      if k < n {
        assert s'.executed[..k + 1] == s.executed[..k + 1];
        assert Left(s, k) == [] == Left(s', k);
      } else {
        FromNone(s.pushed, n);
        assert s'.executed[..n + 1] == s'.executed;
      }
    }
  }

  lemma {:induction false} FirstWithId(clients: seq<Client>, item: Item, id: nat, k: nat)
    requires k < |clients| && clients[k].id == id
    requires forall i :: 0 <= i < k ==> clients[i].id != id
    ensures WriteFirst(clients, item, id) == [Written(clients[k].conn, item)]
  {
    if k > 0 {
      FirstWithId(clients[1..], item, id, k - 1);
    }
  }

  lemma {:induction false} NobodyWithId(clients: seq<Client>, item: Item, id: nat)
    requires forall i :: 0 <= i < |clients| ==> clients[i].id != id
    ensures WriteFirst(clients, item, id) == []
  {
    if clients != [] {
      NobodyWithId(clients[1..], item, id);
    }
  }

  /** Running a function writes its message to the open connections it is addressed to, once each. As ids differ,
      the first with an id is the only one. */
  lemma DeliverReaches(clients: seq<Client>, sessions: seq<Session>, nonce: nat, item: Item, conn: nat)
    requires ListUpToDate(clients, sessions) && IdsDiffer(sessions, nonce) && conn < |sessions|
    ensures Received(Deliver(clients, item), conn)
         == if sessions[conn].until.None? && Addressed(item.task, sessions[conn].id) then [item] else []
  {
    var out := Deliver(clients, item);
    if item.task.Publish? {
      PublishReaches(clients, sessions, item, conn);
    } else if item.task.Send? {
      SendReaches(clients, sessions, nonce, item, conn);
    }
  }

  lemma PublishReaches(clients: seq<Client>, sessions: seq<Session>, item: Item, conn: nat)
    requires ListUpToDate(clients, sessions) && conn < |sessions|
    ensures Received(WriteAll(clients, item), conn) == if sessions[conn].until.None? then [item] else []
  {
    var out := WriteAll(clients, item);
    if sessions[conn].until.None? {
      assert Client(conn, sessions[conn].id) in clients;
      var k :| 0 <= k < |clients| && clients[k] == Client(conn, sessions[conn].id);
      forall i | 0 <= i < |out| && i != k ensures ItemTo(conn)(out[i]) == [] {
        assert clients[if i < k then i else k].conn != clients[if i < k then k else i].conn;
      }
      ConcatOnlyAt(ItemTo(conn), out, k);
    } else {
      forall i | 0 <= i < |out| ensures ItemTo(conn)(out[i]) == [] {
        assert InList(clients[i], sessions);
      }
      ConcatNone(ItemTo(conn), out);
    }
  }

  lemma {:induction false} SendReaches(clients: seq<Client>, sessions: seq<Session>, nonce: nat, item: Item, conn: nat)
    requires ListUpToDate(clients, sessions) && IdsDiffer(sessions, nonce) && conn < |sessions| && item.task.Send?
    ensures Received(WriteFirst(clients, item, item.task.client), conn)
         == if sessions[conn].until.None? && item.task.client == sessions[conn].id then [item] else []
  {
    var id := item.task.client;
    if k :| 0 <= k < |clients| && clients[k].id == id {
      forall i | 0 <= i < |clients| && i != k ensures clients[i].id != id {
        assert InList(clients[i], sessions) && InList(clients[k], sessions);
        assert clients[if i < k then i else k].conn != clients[if i < k then k else i].conn;
      }
      FirstWithId(clients, item, id, k);
      ConcatOne(ItemTo(conn), Written(clients[k].conn, item));
      assert InList(clients[k], sessions);
      assert conn != clients[k].conn ==> sessions[conn].id != id;
    } else {
      NobodyWithId(clients, item, id);
      assert sessions[conn].until.None? ==> Client(conn, sessions[conn].id) in clients;
    }
  }

  lemma SeenNext(s: System, item: Item, s': System, conn: nat)
    requires Known(s, conn) && s'.executed == s.executed + [item] && s'.sessions == s.sessions
    ensures Known(s', conn)
    ensures var id := s.sessions[conn].id;
      var more := if s.Connected(conn) && Addressed(item.task, id) then [item] else [];
      For(Seen(s', conn), id) == For(Seen(s, conn), id) + more
  {
    if s.Connected(conn) {
      assert Seen(s', conn) == Seen(s, conn) + [item];
      ForNext(Seen(s, conn), item, s.sessions[conn].id);
    } else {
      assert Seen(s', conn) == Seen(s, conn);
    }
  }

  lemma StepKeepsQueue(f: Emits, s: System, a: Step)
    requires FirstInFirstOut(s) && NoLostWakeup(s) && Enabled(s, a)
    ensures FirstInFirstOut(Next(f, s, a)) && NoLostWakeup(Next(f, s, a))
  {
    var s' := Next(f, s, a);
    if a.ForeignPush? || a.Push? {
      Associate(s.executed + Batch(s), s.queue, [Last(s'.queue)]);
    }
    if a.Start? {
      Associate(s.executed, [s.loop.batch[0]], s.loop.batch[1..]);
      assert s.loop.batch == [s.loop.batch[0]] + s.loop.batch[1..];
    }
  }

  function Last<T>(s: seq<T>): T
    requires s != []
  {
    s[|s| - 1]
  }

  lemma StepKeepsOrder(f: Emits, s: System, a: Step)
    requires FirstInFirstOut(s) && PushedInOrder(f, s) && Enabled(s, a)
    ensures PushedInOrder(f, Next(f, s, a))
  {
    var s' := Next(f, s, a);
    match a
    case ForeignPush(task) => EnqueueInOrder(f, s, Item(task, None), s');
    case Push => EnqueueInOrder(f, s, Item(s.loop.emit[0], Some(s.loop.self)), s');
    case Start => StartInOrder(f, s);
    case _ =>
      assert s'.pushed == s.pushed && s'.executed == s.executed;
      forall k | 0 <= k < |s.executed| ensures Left(s', k) == Left(s, k) {}
  }

  lemma StartDelivers(f: Emits, s: System)
    requires Delivered(s) && Enabled(s, Start)
    ensures Delivered(Next(f, s, Start))
  {
    hide For, Received, Deliver, ListUpToDate, IdsDiffer;
    var s', item := Next(f, s, Start), s.loop.batch[0];
    forall conn | 0 <= conn < |s'.sessions|
      ensures Known(s', conn) && Received(s'.written, conn) == For(Seen(s', conn), s'.sessions[conn].id)
    {
      SeenNext(s, item, s', conn);
      DeliverReaches(s.clients, s.sessions, s.nonce, item, conn);
      ReceivedAppend(s.written, Deliver(s.clients, item), conn);
    }
  }

  lemma ReceivedAppend(a: seq<Written>, b: seq<Written>, conn: nat)
    ensures Received(a + b, conn) == Received(a, conn) + Received(b, conn)
  {
    ConcatAppend(ItemTo(conn), a, b);
  }

  /** Nothing is written to a connection that is yet to come. */
  ghost predicate NothingAhead(s: System) {
    forall i :: 0 <= i < |s.written| ==> s.written[i].conn < |s.sessions|
  }

  lemma {:induction false} FirstIsListed(clients: seq<Client>, item: Item, id: nat)
    ensures forall w :: w in WriteFirst(clients, item, id) ==> exists c :: c in clients && c.conn == w.conn
  {
    if clients != [] && clients[0].id != id {
      FirstIsListed(clients[1..], item, id);
    }
  }

  lemma StepAhead(f: Emits, s: System, a: Step)
    requires NothingAhead(s) && ListUpToDate(s.clients, s.sessions) && Enabled(s, a)
    ensures NothingAhead(Next(f, s, a))
  {
    if a.Start? && s.loop.batch[0].task.Send? {
      FirstIsListed(s.clients, s.loop.batch[0], s.loop.batch[0].task.client);
    }
  }

  lemma ConnectDelivers(f: Emits, s: System)
    requires Delivered(s) && NothingAhead(s) && Enabled(s, Connect)
    ensures Delivered(Next(f, s, Connect))
  {
    hide For, Received;
    var s' := Next(f, s, Connect);
    ForNone(s.nonce);
    NothingYet(s, |s.sessions|);
    forall conn | 0 <= conn < |s'.sessions|
      ensures Known(s', conn) && Received(s'.written, conn) == For(Seen(s', conn), s'.sessions[conn].id)
    {
      assert conn < |s.sessions| ==> Known(s, conn);
      assert Seen(s', conn) == if conn == |s.sessions| then [] else Seen(s, conn);
    }
    forall conn | 0 <= conn < |s'.sessions| && s'.sessions[conn].until.None?
      ensures Client(conn, s'.sessions[conn].id) in s'.clients
    {
      assert conn < |s.sessions| ==> Client(conn, s.sessions[conn].id) in s.clients;
      assert s'.clients[|s.clients|] == Client(|s.sessions|, s.nonce);
    }
  }

  lemma NothingYet(s: System, conn: nat)
    requires NothingAhead(s) && conn >= |s.sessions|
    ensures Received(s.written, conn) == []
  {
    ConcatNone(ItemTo(conn), s.written);
  }

  lemma {:induction false} WithoutIs(clients: seq<Client>, conn: nat)
    requires forall i, j :: 0 <= i < j < |clients| ==> clients[i].conn != clients[j].conn
    ensures var left := Without(clients, conn);
      && (forall c :: c in left <==> c in clients && c.conn != conn)
      && (forall i, j :: 0 <= i < j < |left| ==> left[i].conn != left[j].conn)
  {
    if clients != [] {
      WithoutIs(clients[1..], conn);
      var left, rest := Without(clients, conn), Without(clients[1..], conn);
      if clients[0].conn != conn {
        forall i | 0 < i < |left| ensures left[0].conn != left[i].conn {
          assert left[i] == rest[i - 1] && rest[i - 1] in clients[1..];
        }
      }
    }
  }

  lemma DisconnectDelivers(f: Emits, s: System, conn: nat)
    requires Delivered(s) && Enabled(s, Disconnect(conn))
    ensures Delivered(Next(f, s, Disconnect(conn)))
  {
    hide For, Received;
    var s' := Next(f, s, Disconnect(conn));
    WithoutIs(s.clients, conn);
    forall c | 0 <= c < |s'.sessions| ensures Known(s', c) && Seen(s', c) == Seen(s, c) {
      assert Known(s, c);
    }
    forall i | 0 <= i < |s'.clients| ensures InList(s'.clients[i], s'.sessions) {
      assert s'.clients[i] in s.clients;
    }
    forall c | 0 <= c < |s'.sessions| && s'.sessions[c].until.None? ensures Client(c, s'.sessions[c].id) in s'.clients {
      assert Client(c, s.sessions[c].id) in s.clients;
    }
  }

  lemma StepDelivers(f: Emits, s: System, a: Step)
    requires Delivered(s) && NothingAhead(s) && Enabled(s, a)
    ensures Delivered(Next(f, s, a)) && NothingAhead(Next(f, s, a))
  {
    StepAhead(f, s, a);
    match a
    case Start => StartDelivers(f, s);
    case Connect => ConnectDelivers(f, s);
    case Disconnect(conn) => DisconnectDelivers(f, s, conn);
    case _ => OthersDeliver(s, Next(f, s, a));
  }

  lemma OthersDeliver(s: System, s': System)
    requires Delivered(s) && s'.executed == s.executed && s'.written == s.written
    requires s'.sessions == s.sessions && s'.clients == s.clients && s'.nonce == s.nonce
    ensures Delivered(s')
  {
    hide For, Received;
    forall conn | 0 <= conn < |s'.sessions| ensures Known(s', conn) && Seen(s', conn) == Seen(s, conn) {
      assert Known(s, conn);
    }
  }

  lemma StepKeepsInvariant(f: Emits, s: System, a: Step)
    requires Invariant(f, s) && Enabled(s, a)
    ensures Invariant(f, Next(f, s, a))
  {
    StepKeepsQueue(f, s, a);
    StepKeepsOrder(f, s, a);
    StepDelivers(f, s, a);
    hide Next, FirstInFirstOut, NoLostWakeup, PushedInOrder, Delivered, NothingAhead;
  }

  /** Over every run and every interleaving. */
  lemma {:induction false} RunKeepsInvariant(f: Emits, s: System, steps: seq<Step>)
    requires Invariant(f, s) && Possible(f, s, steps)
    ensures Invariant(f, Run(f, s, steps))
    decreases |steps|
  {
    if steps != [] {
      StepKeepsInvariant(f, s, steps[0]);
      RunKeepsInvariant(f, Next(f, s, steps[0]), steps[1..]);
    }
  }

  lemma RunAppend(f: Emits, s: System, a: seq<Step>, b: seq<Step>)
    requires Possible(f, s, a) && Possible(f, Run(f, s, a), b)
    ensures Possible(f, s, a + b) && Run(f, s, a + b) == Run(f, Run(f, s, a), b)
    decreases |a|
  {
    if a == [] {
      assert a + b == b;
    } else {
      RunAppend(f, Next(f, s, a[0]), a[1..], b);
      assert (a + b)[0] == a[0] && (a + b)[1..] == a[1..] + b;
    }
  }

  // -- what every run promises ------------------------------------------------------------------------

  /**
   * Functions run in the order they were pushed, each once: what has run is always the first part of what was
   * pushed. And when the loop sleeps with no signal pending and nobody about to send one, that is all of it.
   */
  lemma EveryRunIsFirstInFirstOut(f: Emits, steps: seq<Step>)
    requires Possible(f, INITIAL, steps)
    ensures var s := Run(f, INITIAL, steps);
      && s.executed <= s.pushed
      && (s.loop.Idle? && !s.wakeup && s.pushers == 0 ==> s.executed == s.pushed)
  {
    RunKeepsInvariant(f, INITIAL, steps);
    hide Invariant, Run, Possible;
    QueueHoldsTheRest(f, Run(f, INITIAL, steps));
  }

  lemma QueueHoldsTheRest(f: Emits, s: System)
    requires Invariant(f, s)
    ensures s.executed <= s.pushed
    ensures s.loop.Idle? && !s.wakeup && s.pushers == 0 ==> s.executed == s.pushed
  {
    hide PushedInOrder, Delivered, NothingAhead;
    assert s.pushed == s.executed + (Batch(s) + s.queue);
  }

  lemma DrainStep(f: Emits, s: System, a: Step)
    requires s.loop.Running? && Enabled(s, a) && !a.Finish?
    ensures var s' := Next(f, s, a);
      s'.loop.Running? && s'.executed + s'.loop.batch == s.executed + s.loop.batch && s.pushed <= s'.pushed
  {
    if a.Start? {
      Associate(s.executed, [s.loop.batch[0]], s.loop.batch[1..]);
      assert s.loop.batch == [s.loop.batch[0]] + s.loop.batch[1..];
    }
  }

  /** A drain runs the functions that were queued when it swapped, and no others, whatever is pushed meanwhile. */
  lemma {:induction false} DrainRunsItsBatch(f: Emits, s: System, steps: seq<Step>)
    requires s.loop.Running? && Possible(f, s, steps) && Finish !in steps
    ensures var s' := Run(f, s, steps);
      s'.loop.Running? && s'.executed + s'.loop.batch == s.executed + s.loop.batch && s.pushed <= s'.pushed
    decreases |steps|
  {
    if steps != [] {
      DrainStep(f, s, steps[0]);
      hide Next;
      DrainRunsItsBatch(f, Next(f, s, steps[0]), steps[1..]);
    }
  }

  // -- how much the loop can have left to do -----------------------------------------------------------------

  /** The steps that drain, as opposed to those of other threads and of connections. */
  predicate Drains(a: Step) {
    a.Wake? || a.Swap? || a.Start? || a.Push? || a.Signal? || a.Finish?
  }

  function DrainSteps(steps: seq<Step>): nat {
    if steps == [] then 0 else (if Drains(steps[0]) then 1 else 0) + DrainSteps(steps[1..])
  }

  /** To run these functions next: each is started, and pushes and signals once for whatever it pushes. */
  function Work(f: Emits, executed: seq<Item>, batch: seq<Item>): nat
    decreases |batch|
  {
    if batch == [] then 0
    else 1 + 2 * |f(executed + [batch[0]])| + Work(f, executed + [batch[0]], batch[1..])
  }

  /** To end the drain that is under way. */
  function Effort(f: Emits, s: System): nat
    requires s.loop.Running?
  {
    (if s.loop.unsignalled then 1 else 0) + 2 * |s.loop.emit| + Work(f, s.executed, s.loop.batch)
  }

  lemma EffortStep(f: Emits, s: System, a: Step)
    requires s.loop.Running? && Enabled(s, a) && !a.Finish?
    ensures var s' := Next(f, s, a);
      s'.loop.Running? && Effort(f, s') == if Drains(a) then Effort(f, s) - 1 else Effort(f, s)
  {
  }

  /**
   * A drain ends however much its functions push, and in every interleaving: in any run in which it has not
   * finished, the loop has taken no more steps than its effort allowed, whatever other threads have pushed.
   */
  lemma {:induction false} EveryDrainEnds(f: Emits, s: System, steps: seq<Step>)
    requires s.loop.Running? && Possible(f, s, steps) && Finish !in steps
    ensures Run(f, s, steps).loop.Running?
    ensures DrainSteps(steps) + Effort(f, Run(f, s, steps)) == Effort(f, s)
    decreases |steps|
  {
    if steps != [] {
      EffortStep(f, s, steps[0]);
      EveryDrainEnds(f, Next(f, s, steps[0]), steps[1..]);
    }
  }

  /** Until the first `goal` functions ever pushed have run: those that have not, after what is under way, and the
      drain they are in may yet have to be entered. */
  function Due(f: Emits, s: System, goal: nat): nat
    requires goal <= |s.pushed|
  {
    if |s.executed| >= goal then 0
    else
      (if s.loop.Running? then (if s.loop.unsignalled then 1 else 0) + 2 * |s.loop.emit| else 0)
      + Work(f, s.executed, s.pushed[|s.executed|..goal])
      + match s.loop
        case Idle => 2
        case Entered => 1
        case Running(batch, _, _, _) => if |s.executed| + |batch| >= goal then 0 else 3
  }

  lemma DueStart(f: Emits, s: System, goal: nat)
    requires FirstInFirstOut(s) && goal <= |s.pushed| && |s.executed| < goal && Enabled(s, Start)
    ensures Due(f, Next(f, s, Start), goal) < Due(f, s, goal)
  {
    var n, item := |s.executed|, s.loop.batch[0];
    assert s.pushed == s.executed + (s.loop.batch + s.queue);
    assert s.pushed[n] == item;
    assert s.pushed[n..goal][0] == item && s.pushed[n..goal][1..] == s.pushed[n + 1..goal];
  }

  lemma DueStep(f: Emits, s: System, a: Step, goal: nat)
    requires FirstInFirstOut(s) && goal <= |s.pushed| && Enabled(s, a)
    ensures var s' := Next(f, s, a);
      && goal <= |s'.pushed| && |s'.executed| >= |s.executed|
      && Due(f, s', goal) <= Due(f, s, goal)
      && (Drains(a) && |s.executed| < goal ==> Due(f, s', goal) < Due(f, s, goal))
  {
    var s' := Next(f, s, a);
    if |s.executed| < goal {
      if a.Start? {
        DueStart(f, s, goal);
      } else {
        assert s'.executed == s.executed && s.pushed <= s'.pushed;
        assert s'.pushed[|s.executed|..goal] == s.pushed[|s.executed|..goal];
        assert |s.pushed| == |s.executed| + |Batch(s)| + |s.queue|;
      }
    }
  }

  lemma {:induction false} DueRun(f: Emits, s: System, steps: seq<Step>, goal: nat)
    requires Invariant(f, s) && Possible(f, s, steps) && goal <= |s.pushed|
    ensures var end := Run(f, s, steps);
      && goal <= |end.pushed| && |s.executed| <= |end.executed|
      && (|end.executed| < goal ==> DrainSteps(steps) + Due(f, end, goal) <= Due(f, s, goal))
    decreases |steps|
  {
    if steps != [] {
      var s' := Next(f, s, steps[0]);
      StepKeepsInvariant(f, s, steps[0]);
      hide PushedInOrder, Delivered, NothingAhead, NoLostWakeup;
      DueStep(f, s, steps[0], goal);
      hide Next, Due, Invariant;
      DueRun(f, s', steps[1..], goal);
    }
  }

  lemma {:induction false} RunGrows(f: Emits, s: System, steps: seq<Step>)
    requires Possible(f, s, steps)
    ensures s.pushed <= Run(f, s, steps).pushed
    decreases |steps|
  {
    if steps != [] {
      RunGrows(f, Next(f, s, steps[0]), steps[1..]);
    }
  }

  /**
   * Everything pushed so far has run once the loop has taken as many steps as that is due to take, in any run,
   * however it is interleaved and whatever else is pushed.
   */
  lemma EverythingPushedRunsSoon(f: Emits, s: System, steps: seq<Step>)
    requires Invariant(f, s) && Possible(f, s, steps) && DrainSteps(steps) >= Due(f, s, |s.pushed|)
    ensures s.pushed <= Run(f, s, steps).executed
  {
    var end := Run(f, s, steps);
    DueRun(f, s, steps, |s.pushed|);
    RunGrows(f, s, steps);
    RunKeepsInvariant(f, s, steps);
    hide Run, Possible, Invariant, Due, DrainSteps;
    if |end.executed| < |s.pushed| {
      DueLeft(f, end, |s.pushed|);
      assert false;
    }
    RanInOrder(f, end);
    RanFirst(end, s.pushed);
  }

  lemma RanInOrder(f: Emits, s: System)
    requires Invariant(f, s)
    ensures FirstInFirstOut(s)
  {
  }

  lemma RanFirst(s: System, pushed: seq<Item>)
    requires FirstInFirstOut(s) && pushed <= s.pushed && |pushed| <= |s.executed|
    ensures pushed <= s.executed
  {
    assert s.pushed == s.executed + (Batch(s) + s.queue);
    assert s.executed == s.pushed[..|s.executed|];
    assert pushed == s.pushed[..|pushed|] == s.pushed[..|s.executed|][..|pushed|];
  }

  lemma DueLeft(f: Emits, s: System, goal: nat)
    requires |s.executed| < goal <= |s.pushed|
    ensures Due(f, s, goal) > 0
  {
    assert s.pushed[|s.executed|..goal] != [];
  }

  /** And as long as it has not, such a step can be taken, or a thread is about to make one possible. */
  lemma WorkIsNeverStuck(f: Emits, s: System)
    requires Invariant(f, s) && s.executed != s.pushed
    ensures (exists a :: Drains(a) && Enabled(s, a)) || Enabled(s, ForeignSignal)
  {
    hide PushedInOrder, Delivered, NothingAhead;
    if s.loop.Running? {
      assert Enabled(s, DrainNext(s));
    } else if s.loop.Entered? {
      assert Drains(Swap) && Enabled(s, Swap);
    } else {
      assert s.pushed == s.executed + s.queue;
      assert s.wakeup ==> Drains(Wake) && Enabled(s, Wake);
    }
  }

  /** The next step of the loop itself while it drains. */
  function DrainNext(s: System): (a: Step)
    requires s.loop.Running?
    ensures Enabled(s, a) && Drains(a)
  {
    if s.loop.unsignalled then Signal
    else if s.loop.emit != [] then Push
    else if s.loop.batch != [] then Start
    else Finish
  }

  /** Left to itself, the loop ends its drain. */
  lemma {:induction false} DrainEnds(f: Emits, s: System) returns (steps: seq<Step>)
    requires Invariant(f, s) && s.loop.Running?
    ensures Possible(f, s, steps)
    ensures var s' := Run(f, s, steps);
      s'.loop.Idle? && Invariant(f, s') && s'.executed == s.executed + s.loop.batch && s.pushed <= s'.pushed
    decreases |s.loop.batch|, |s.loop.emit|, s.loop.unsignalled
  {
    hide Invariant;
    var a := DrainNext(s);
    StepKeepsInvariant(f, s, a);
    var s' := Next(f, s, a);
    var rest := [];
    if !a.Finish? {
      DrainStep(f, s, a);
      rest := DrainEnds(f, s');
    }
    steps := [a] + rest;
    assert steps[0] == a && steps[1..] == rest;
  }

  /** What the loop, or a thread that has pushed already, does next if functions wait. */
  function OwnNext(s: System): Step {
    if s.loop.Running? then DrainNext(s) else if s.loop.Entered? then Swap else if s.wakeup then Wake else ForeignSignal
  }

  lemma OwnNextEnabled(f: Emits, s: System)
    requires Invariant(f, s) && |s.executed| < |s.pushed|
    ensures Enabled(s, OwnNext(s)) && (Drains(OwnNext(s)) || OwnNext(s).ForeignSignal?)
  {
    hide PushedInOrder, Delivered, NothingAhead;
    assert !s.loop.Running? ==> s.pushed == s.executed + s.queue;
  }

  /** Left to itself, with nothing more pushed from elsewhere, the loop runs as many of the functions pushed so far as
      one likes, within the steps that is due to take. */
  lemma {:induction false} RunsLeftAlone(f: Emits, s: System, goal: nat) returns (steps: seq<Step>)
    requires Invariant(f, s) && goal <= |s.pushed|
    ensures Possible(f, s, steps) && (forall a :: a in steps ==> Drains(a) || a.ForeignSignal?)
    ensures |Run(f, s, steps).executed| >= goal && DrainSteps(steps) <= Due(f, s, goal)
    decreases Due(f, s, goal), s.pushers
  {
    if |s.executed| >= goal {
      steps := [];
    } else {
      var a := OwnNext(s);
      OwnNextEnabled(f, s);
      StepKeepsInvariant(f, s, a);
      RanInOrder(f, s);
      DueStep(f, s, a, goal);
      hide Invariant, Due;
      var rest := RunsLeftAlone(f, Next(f, s, a), goal);
      steps := [a] + rest;
      assert steps[1..] == rest;
    }
  }

  lemma EverythingPushedRuns(f: Emits, s: System) returns (steps: seq<Step>)
    requires Invariant(f, s)
    ensures Possible(f, s, steps) && (forall a :: a in steps ==> Drains(a) || a.ForeignSignal?)
    ensures s.pushed <= Run(f, s, steps).executed && DrainSteps(steps) <= Due(f, s, |s.pushed|)
  {
    steps := RunsLeftAlone(f, s, |s.pushed|);
    RunGrows(f, s, steps);
    RunKeepsInvariant(f, s, steps);
    hide Run, Possible, Invariant, Due, DrainSteps;
    RanInOrder(f, Run(f, s, steps));
    RanFirst(Run(f, s, steps), s.pushed);
  }
}
