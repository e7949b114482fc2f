/**
 * A run of the event loop, callback by callback, is one of the runs of the invoke queue, atomic step by atomic step,
 * in which the functions push what the reconciler pushes.
 */
module LoopRuns {
  import opened Bytes
  import opened Commands
  import opened Ledger
  import opened Messages
  import opened Words
  import Delivery
  import Server
  import Q = InvokeQueue
  import R = Runs

  /** What the server holds between two callbacks. */
  datatype Loop = Loop(clients: seq<nat>, nonce: nat, queue: seq<Task>, taken: seq<Task>, written: seq<Write>)

  const START: Loop := Loop([], 0, [], [], [])

  /** Of a function that ran: what it pushed, how many steps of the reconciler came before it, and who was connected. */
  datatype Ran = Ran(pushed: seq<Task>, at: nat, clients: seq<nat>)

  function Pushes(log: seq<Ran>): Q.Emits {
    (ran: seq<Q.Item>) => if 0 < |ran| <= |log| then log[|ran| - 1].pushed else []
  }

  function WorldAt(trace: seq<R.Moved>, i: nat): World
    requires i <= |trace|
  {
    R.Final(R.START, trace[..i]).world
  }

  /** A message pushes nothing. A pause is a synchronisation of the reconciler and then the notice, and pushes what
      these send. */
  predicate RanAs(trace: seq<R.Moved>, task: Task, ran: Ran) {
    if !task.HandlePause? then ran.pushed == []
    else
      && ran.at + 1 < |trace| && trace[ran.at].step.Sync?
      && trace[ran.at + 1].step == R.Others(PauseNotice(task.token, ran.clients))
      && trace[ran.at + 1].after.world.words.sent == WorldAt(trace, ran.at).words.sent + ran.pushed
  }

  // -- the two views of the server -----------------------------------------------------------------------

  function Tasks(items: seq<Q.Item>): (tasks: seq<Task>)
    ensures |tasks| == |items|
  {
    seq(|items|, i requires 0 <= i < |items| => items[i].task)
  }

  function Ids(clients: seq<Q.Client>): (ids: seq<nat>)
    ensures |ids| == |clients|
  {
    seq(|clients|, i requires 0 <= i < |clients| => clients[i].id)
  }

  function SessionIds(sessions: seq<Q.Session>): (ids: seq<nat>)
    ensures |ids| == |sessions|
  {
    seq(|sessions|, i requires 0 <= i < |sessions| => sessions[i].id)
  }

  /** What a stream was given, under the id of its connection. */
  function WriteOf(ids: seq<nat>): Q.Written -> seq<Write> {
    (w: Q.Written) =>
      if w.conn >= |ids| then []
      else match w.item.task
        case Send(msg, tid, _) => [Write(ids[w.conn], tid, msg)]
        case Publish(msg) => [Write(ids[w.conn], PUBLISH_TID, msg)]
        case HandlePause(_) => []
  }

  function Writes(ids: seq<nat>, written: seq<Q.Written>): seq<Write> {
    Concat(WriteOf(ids), written)
  }

  predicate Same(loop: Loop, q: Q.System) {
    && q.loop.Idle? && q.pushers == 0 && (q.queue != [] ==> q.wakeup)
    && loop == Loop(Ids(q.clients), q.nonce, Tasks(q.queue), Tasks(q.executed),
                    Writes(SessionIds(q.sessions), q.written))
  }

  /** Some steps of the invoke queue lead to this state of the server, every function having run as the reconciler's
      trace says. */
  ghost predicate Carries(trace: seq<R.Moved>, loop: Loop, steps: seq<Q.Step>, log: seq<Ran>) {
    && Q.Possible(Pushes(log), Q.INITIAL, steps)
    && Same(loop, Q.Run(Pushes(log), Q.INITIAL, steps))
    && |log| == |loop.taken| && (forall k :: 0 <= k < |log| ==> RanAs(trace, loop.taken[k], log[k]))
  }

  // -- steps of the invoke queue -------------------------------------------------------------------------

  lemma Then(f: Q.Emits, s: Q.System, a: Q.Step, rest: seq<Q.Step>)
    requires Q.Enabled(s, a) && Q.Possible(f, Q.Next(f, s, a), rest)
    ensures Q.Possible(f, s, [a] + rest) && Q.Run(f, s, [a] + rest) == Q.Run(f, Q.Next(f, s, a), rest)
  {
    hide Q.Next;
    assert ([a] + rest)[0] == a && ([a] + rest)[1..] == rest;
  }

  function Foreign(tasks: seq<Task>): seq<Q.Item> {
    seq(|tasks|, i requires 0 <= i < |tasks| => Q.Item(tasks[i], None))
  }

  /** Outside a drain, functions are pushed and the loop is signalled. */
  lemma {:induction false} OthersPush(f: Q.Emits, q: Q.System, tasks: seq<Task>) returns (steps: seq<Q.Step>)
    ensures Q.Possible(f, q, steps)
    ensures Q.Run(f, q, steps)
         == q.(queue := q.queue + Foreign(tasks), pushed := q.pushed + Foreign(tasks),
               wakeup := q.wakeup || tasks != [])
    decreases |tasks|
  {
    if tasks == [] {
      steps := [];
    } else {
      var a, b := Q.ForeignPush(tasks[0]), Q.ForeignSignal;
      var mid := Q.Next(f, q, a);
      var after := Q.Next(f, mid, b);
      var rest := OthersPush(f, after, tasks[1..]);
      Then(f, mid, b, rest);
      Then(f, q, a, [b] + rest);
      steps := [a] + ([b] + rest);
      assert Foreign(tasks) == [Q.Item(tasks[0], None)] + Foreign(tasks[1..]);
      Associate(q.queue, [Q.Item(tasks[0], None)], Foreign(tasks[1..]));
      Associate(q.pushed, [Q.Item(tasks[0], None)], Foreign(tasks[1..]));
    }
  }

  function Own(tasks: seq<Task>, self: nat): seq<Q.Item> {
    seq(|tasks|, i requires 0 <= i < |tasks| => Q.Item(tasks[i], Some(self)))
  }

  lemma {:induction false} RunningPushes(f: Q.Emits, q: Q.System) returns (steps: seq<Q.Step>)
    requires q.loop.Running? && !q.loop.unsignalled
    ensures Q.Possible(f, q, steps)
    ensures var more := Own(q.loop.emit, q.loop.self);
      Q.Run(f, q, steps)
      == q.(queue := q.queue + more, pushed := q.pushed + more, wakeup := q.wakeup || more != [],
            loop := q.loop.(emit := []))
    decreases |q.loop.emit|
  {
    if q.loop.emit == [] {
      steps := [];
    } else {
      var first, others := Q.Item(q.loop.emit[0], Some(q.loop.self)), Own(q.loop.emit[1..], q.loop.self);
      var mid := Q.Next(f, q, Q.Push);
      var after := Q.Next(f, mid, Q.Signal);
      var rest := RunningPushes(f, after);
      Then(f, mid, Q.Signal, rest);
      Then(f, q, Q.Push, [Q.Signal] + rest);
      steps := [Q.Push] + ([Q.Signal] + rest);
      assert Own(q.loop.emit, q.loop.self) == [first] + others;
      Associate(q.queue, [first], others);
      Associate(q.pushed, [first], others);
    }
  }

  function AllPushed(f: Q.Emits, executed: seq<Q.Item>, batch: seq<Q.Item>): seq<Q.Item>
    decreases |batch|
  {
    if batch == [] then []
    else Own(f(executed + [batch[0]]), |executed|) + AllPushed(f, executed + [batch[0]], batch[1..])
  }

  function DeliverTo(clients: seq<Q.Client>): Q.Item -> seq<Q.Written> {
    (item: Q.Item) => Q.Deliver(clients, item)
  }

  function Drained(f: Q.Emits, q: Q.System): Q.System {
    var batch := Q.Batch(q);
    var more := AllPushed(f, q.executed, batch);
    q.(queue := q.queue + more, pushed := q.pushed + more, wakeup := q.wakeup || more != [], loop := Q.Idle,
       executed := q.executed + batch, written := q.written + Concat(DeliverTo(q.clients), batch))
  }

  lemma {:induction false} BatchRuns(f: Q.Emits, q: Q.System) returns (steps: seq<Q.Step>)
    requires q.loop.Running? && !q.loop.unsignalled && q.loop.emit == []
    ensures Q.Possible(f, q, steps) && Q.Run(f, q, steps) == Drained(f, q)
    decreases |q.loop.batch|
  {
    if q.loop.batch == [] {
      steps := [Q.Finish];
    } else {
      var started := Q.Next(f, q, Q.Start);
      var pushing := RunningPushes(f, started);
      var next := Q.Run(f, started, pushing);
      var rest := BatchRuns(f, next);
      Q.RunAppend(f, started, pushing, rest);
      Then(f, q, Q.Start, pushing + rest);
      steps := [Q.Start] + (pushing + rest);
      OneMoreDrained(f, q, next);
    }
  }

  lemma OneMoreDrained(f: Q.Emits, q: Q.System, next: Q.System)
    requires q.loop.Running? && q.loop.batch != []
    requires var item := q.loop.batch[0];
      var more := Own(f(q.executed + [item]), |q.executed|);
      next == q.(queue := q.queue + more, pushed := q.pushed + more, wakeup := q.wakeup || more != [],
                 executed := q.executed + [item], written := q.written + Q.Deliver(q.clients, item),
                 loop := Q.Running(q.loop.batch[1..], |q.executed|, [], false))
    ensures Drained(f, next) == Drained(f, q)
  {
    hide AllPushed, Own, Concat, Q.Deliver;
    var item, batch, rest := q.loop.batch[0], q.loop.batch, q.loop.batch[1..];
    var more, later := Own(f(q.executed + [item]), |q.executed|), AllPushed(f, next.executed, rest);
    AllPushedNext(f, q.executed, batch);
    DeliveredNext(q.clients, batch);
    assert batch == [item] + rest;
    Associate(q.executed, [item], rest);
    Associate(q.queue, more, later);
    Associate(q.pushed, more, later);
    Associate(q.written, Q.Deliver(q.clients, item), Concat(DeliverTo(q.clients), rest));
  }

  lemma AllPushedNext(f: Q.Emits, executed: seq<Q.Item>, batch: seq<Q.Item>)
    requires batch != []
    ensures AllPushed(f, executed, batch)
         == Own(f(executed + [batch[0]]), |executed|) + AllPushed(f, executed + [batch[0]], batch[1..])
  {
  }

  lemma DeliveredNext(clients: seq<Q.Client>, batch: seq<Q.Item>)
    requires batch != []
    ensures Concat(DeliverTo(clients), batch)
         == Q.Deliver(clients, batch[0]) + Concat(DeliverTo(clients), batch[1..])
  {
  }

  /** A drain, from the wakeup to its end, with nothing pushed from elsewhere meanwhile. */
  lemma WholeDrain(f: Q.Emits, q: Q.System) returns (steps: seq<Q.Step>)
    requires q.loop.Idle? && (q.queue != [] ==> q.wakeup)
    ensures Q.Possible(f, q, steps)
    ensures var more := AllPushed(f, q.executed, q.queue);
      Q.Run(f, q, steps)
      == q.(queue := more, pushed := q.pushed + more, executed := q.executed + q.queue,
            wakeup := if q.queue == [] then q.wakeup else more != [],
            written := q.written + Concat(DeliverTo(q.clients), q.queue))
  {
    if q.queue == [] {
      steps := [];
    } else {
      var entered := Q.Next(f, q, Q.Wake);
      var running := Q.Next(f, entered, Q.Swap);
      var rest := BatchRuns(f, running);
      Then(f, entered, Q.Swap, rest);
      Then(f, q, Q.Wake, [Q.Swap] + rest);
      steps := [Q.Wake] + ([Q.Swap] + rest);
    }
  }

  // -- functions that push what the log says -------------------------------------------------------------

  lemma {:induction false} RanGrows(f: Q.Emits, s: Q.System, steps: seq<Q.Step>)
    requires Q.Possible(f, s, steps)
    ensures |s.executed| <= |Q.Run(f, s, steps).executed|
    decreases |steps|
  {
    if steps != [] {
      RanGrows(f, Q.Next(f, s, steps[0]), steps[1..]);
    }
  }

  /** What functions push that have not run makes no difference. */
  lemma {:induction false} SameSoFar(f: Q.Emits, g: Q.Emits, s: Q.System, steps: seq<Q.Step>)
    requires Q.Possible(f, s, steps)
    requires forall ran: seq<Q.Item> :: |ran| <= |Q.Run(f, s, steps).executed| ==> f(ran) == g(ran)
    ensures Q.Possible(g, s, steps) && Q.Run(g, s, steps) == Q.Run(f, s, steps)
    decreases |steps|
  {
    if steps != [] {
      var next := Q.Next(f, s, steps[0]);
      RanGrows(f, next, steps[1..]);
      assert Q.Next(g, s, steps[0]) == next;
      SameSoFar(f, g, next, steps[1..]);
    }
  }

  function PushedBy(ran: Ran): seq<Task> {
    ran.pushed
  }

  lemma OwnTasks(tasks: seq<Task>, self: nat)
    ensures Tasks(Own(tasks, self)) == tasks
  {
  }

  lemma TasksAppend(a: seq<Q.Item>, b: seq<Q.Item>)
    ensures Tasks(a + b) == Tasks(a) + Tasks(b)
  {
  }

  lemma {:induction false} AllPushedIs(log: seq<Ran>, executed: seq<Q.Item>, batch: seq<Q.Item>)
    requires |log| == |executed| + |batch|
    ensures Tasks(AllPushed(Pushes(log), executed, batch)) == Concat(PushedBy, log[|executed|..])
    decreases |batch|
  {
    if batch == [] {
      assert log[|executed|..] == [] && Tasks([]) == [];
    } else {
      hide AllPushed, Own, Tasks;
      var n, ran := |executed|, executed + [batch[0]];
      var own, later := Own(log[n].pushed, n), AllPushed(Pushes(log), ran, batch[1..]);
      AllPushedNext(Pushes(log), executed, batch);
      AllPushedIs(log, ran, batch[1..]);
      assert log[n..] == [log[n]] + log[n + 1..];
      OwnTasks(log[n].pushed, n);
      TasksAppend(own, later);
    }
  }

  // -- the writes ------------------------------------------------------------------------------------------

  lemma DeliveryIsWritten(clients: seq<Q.Client>, sessions: seq<Q.Session>, item: Q.Item)
    requires forall i :: 0 <= i < |clients| ==> Q.InList(clients[i], sessions)
    ensures Writes(SessionIds(sessions), Q.Deliver(clients, item)) == Deliveries(item.task, Ids(clients))
  {
    match item.task
    case Send(_, _, id) => FirstIsWritten(clients, sessions, item);
    case Publish(_) => AllAreWritten(clients, sessions, item);
    case HandlePause(_) =>
  }

  lemma {:induction false} FirstIsWritten(clients: seq<Q.Client>, sessions: seq<Q.Session>, item: Q.Item)
    requires item.task.Send? && forall i :: 0 <= i < |clients| ==> Q.InList(clients[i], sessions)
    ensures Writes(SessionIds(sessions), Q.WriteFirst(clients, item, item.task.client))
         == Deliveries(item.task, Ids(clients))
  {
    if clients != [] {
      assert Q.InList(clients[0], sessions);
      if clients[0].id == item.task.client {
        assert Ids(clients)[0] == item.task.client;
        ConcatOne(WriteOf(SessionIds(sessions)), Q.Written(clients[0].conn, item));
      } else {
        FirstIsWritten(clients[1..], sessions, item);
        assert Ids(clients) == [clients[0].id] + Ids(clients[1..]);
      }
    }
  }

  lemma {:induction false} AllAreWritten(clients: seq<Q.Client>, sessions: seq<Q.Session>, item: Q.Item)
    requires item.task.Publish? && forall i :: 0 <= i < |clients| ==> Q.InList(clients[i], sessions)
    ensures Writes(SessionIds(sessions), Q.WriteAll(clients, item)) == Published(item.task.msg, Ids(clients))
  {
    if clients != [] {
      assert Q.InList(clients[0], sessions);
      AllAreWritten(clients[1..], sessions, item);
      assert Q.WriteAll(clients, item)[1..] == Q.WriteAll(clients[1..], item);
      assert Ids(clients)[1..] == Ids(clients[1..]);
    }
  }

  lemma {:induction false} BatchIsWritten(clients: seq<Q.Client>, sessions: seq<Q.Session>, batch: seq<Q.Item>)
    requires forall i :: 0 <= i < |clients| ==> Q.InList(clients[i], sessions)
    ensures Writes(SessionIds(sessions), Concat(DeliverTo(clients), batch))
         == Concat(DeliveriesTo(Ids(clients)), Tasks(batch))
  {
    hide Q.InList, Deliveries, Q.Deliver;
    if batch != [] {
      DeliveredNext(clients, batch);
      BatchIsWritten(clients, sessions, batch[1..]);
      DeliveryIsWritten(clients, sessions, batch[0]);
      ConcatAppend(WriteOf(SessionIds(sessions)), Q.Deliver(clients, batch[0]), Concat(DeliverTo(clients), batch[1..]));
      assert Tasks(batch)[1..] == Tasks(batch[1..]);
    }
  }

  lemma {:induction false} WritesStay(ids: seq<nat>, more: seq<nat>, written: seq<Q.Written>)
    requires forall i :: 0 <= i < |written| ==> written[i].conn < |ids|
    ensures Writes(ids + more, written) == Writes(ids, written)
  {
    if written != [] {
      WritesStay(ids, more, written[1..]);
    }
  }

  // -- one event -------------------------------------------------------------------------------------------

  lemma RanStays(trace: seq<R.Moved>, trace': seq<R.Moved>, log: seq<Ran>, taken: seq<Task>)
    requires trace <= trace' && |log| == |taken| && forall k :: 0 <= k < |log| ==> RanAs(trace, taken[k], log[k])
    ensures forall k :: 0 <= k < |log| ==> RanAs(trace', taken[k], log[k])
  {
    forall k | 0 <= k < |log| ensures RanAs(trace', taken[k], log[k]) {
      assert RanAs(trace, taken[k], log[k]);
      if taken[k].HandlePause? {
        assert trace'[..log[k].at] == trace[..log[k].at];
      }
    }
  }

  /** The state of the invoke queue behind a run, and what is known of it. */
  lemma Behind(trace: seq<R.Moved>, loop: Loop, steps: seq<Q.Step>, log: seq<Ran>) returns (q: Q.System)
    requires Carries(trace, loop, steps, log)
    ensures Q.Possible(Pushes(log), Q.INITIAL, steps) && q == Q.Run(Pushes(log), Q.INITIAL, steps)
    ensures Same(loop, q) && |log| == |q.executed|
    ensures Q.ListUpToDate(q.clients, q.sessions) && Q.NothingAhead(q) && Q.IdsDiffer(q.sessions, q.nonce)
  {
    Q.RunKeepsInvariant(Pushes(log), Q.INITIAL, steps);
    q := Q.Run(Pushes(log), Q.INITIAL, steps);
    hide Q.FirstInFirstOut, Q.NoLostWakeup, Q.PushedInOrder, Q.EachReceived, Q.Run, Q.Possible;
  }

  lemma CarriesOn(trace: seq<R.Moved>, loop: Loop, steps: seq<Q.Step>, log: seq<Ran>, trace': seq<R.Moved>,
                  loop': Loop, more: seq<Q.Step>)
    requires Carries(trace, loop, steps, log) && trace <= trace' && loop'.taken == loop.taken
    requires Q.Possible(Pushes(log), Q.Run(Pushes(log), Q.INITIAL, steps), more)
    requires Same(loop', Q.Run(Pushes(log), Q.Run(Pushes(log), Q.INITIAL, steps), more))
    ensures Carries(trace', loop', steps + more, log)
  {
    hide Same, RanAs, Pushes, Q.Run, Q.Possible;
    Q.RunAppend(Pushes(log), Q.INITIAL, steps, more);
    RanStays(trace, trace', log, loop.taken);
  }

  lemma PushCarries(trace: seq<R.Moved>, loop: Loop, steps: seq<Q.Step>, log: seq<Ran>, trace': seq<R.Moved>,
                    tasks: seq<Task>) returns (steps': seq<Q.Step>)
    requires Carries(trace, loop, steps, log) && trace <= trace'
    ensures Carries(trace', loop.(queue := loop.queue + tasks), steps', log)
  {
    hide RanAs, Pushes, Q.Run, Q.Possible;
    var q := Behind(trace, loop, steps, log);
    var more := OthersPush(Pushes(log), q, tasks);
    CarriesOn(trace, loop, steps, log, trace', loop.(queue := loop.queue + tasks), more);
    steps' := steps + more;
  }

  lemma ConnectCarries(trace: seq<R.Moved>, loop: Loop, steps: seq<Q.Step>, log: seq<Ran>)
    returns (steps': seq<Q.Step>)
    requires Carries(trace, loop, steps, log)
    ensures Carries(trace, loop.(clients := loop.clients + [loop.nonce], nonce := loop.nonce + 1), steps', log)
  {
    hide RanAs, Pushes;
    var q := Behind(trace, loop, steps, log);
    var f := Pushes(log);
    var q' := Q.Next(f, q, Q.Connect);
    var loop' := loop.(clients := loop.clients + [loop.nonce], nonce := loop.nonce + 1);
    WritesStay(SessionIds(q.sessions), [q.nonce], q.written);
    assert SessionIds(q'.sessions) == SessionIds(q.sessions) + [q.nonce];
    assert Same(loop', q');
    Then(f, q, Q.Connect, []);
    assert [Q.Connect] + [] == [Q.Connect];
    CarriesOn(trace, loop, steps, log, trace, loop', [Q.Connect]);
    steps' := steps + [Q.Connect];
  }

  lemma {:induction false} WithoutIds(clients: seq<Q.Client>, conn: nat, id: nat)
    requires forall c :: c in clients ==> (c.conn == conn <==> c.id == id)
    ensures Ids(Q.Without(clients, conn)) == Server.Without(Ids(clients), id)
  {
    if clients != [] {
      assert clients[0] in clients;
      WithoutIds(clients[1..], conn, id);
      assert Ids(clients)[1..] == Ids(clients[1..]);
    }
  }

  /** The open connection with that id. */
  lemma Connection(q: Q.System, id: nat) returns (conn: nat)
    requires Q.ListUpToDate(q.clients, q.sessions) && Q.IdsDiffer(q.sessions, q.nonce) && id in Ids(q.clients)
    ensures q.Connected(conn) && forall c :: c in q.clients ==> (c.conn == conn <==> c.id == id)
  {
    var i :| 0 <= i < |q.clients| && Ids(q.clients)[i] == id;
    conn := q.clients[i].conn;
    assert Q.InList(q.clients[i], q.sessions);
    forall c | c in q.clients ensures c.conn == conn <==> c.id == id {
      assert Q.InList(c, q.sessions);
    }
  }

  lemma DisconnectCarries(trace: seq<R.Moved>, loop: Loop, steps: seq<Q.Step>, log: seq<Ran>, client: nat)
    returns (steps': seq<Q.Step>)
    requires Carries(trace, loop, steps, log) && client in loop.clients
    ensures Carries(trace, loop.(clients := Server.Without(loop.clients, client)), steps', log)
  {
    hide RanAs, Pushes;
    var q := Behind(trace, loop, steps, log);
    var f := Pushes(log);
    var conn := Connection(q, client);
    var q', loop' := Q.Next(f, q, Q.Disconnect(conn)), loop.(clients := Server.Without(loop.clients, client));
    WithoutIds(q.clients, conn, client);
    assert SessionIds(q'.sessions) == SessionIds(q.sessions);
    assert Same(loop', q');
    Then(f, q, Q.Disconnect(conn), []);
    assert [Q.Disconnect(conn)] + [] == [Q.Disconnect(conn)];
    CarriesOn(trace, loop, steps, log, trace, loop', [Q.Disconnect(conn)]);
    steps' := steps + [Q.Disconnect(conn)];
  }

  /** The queue after a drain holds what the functions pushed that ran. */
  function AfterDrain(loop: Loop, more: seq<Ran>): Loop {
    loop.(queue := Concat(PushedBy, more), taken := loop.taken + loop.queue,
          written := loop.written + Concat(DeliveriesTo(loop.clients), loop.queue))
  }

  lemma DrainIsSame(loop: Loop, log: seq<Ran>, more: seq<Ran>, q: Q.System, q': Q.System)
    requires Same(loop, q) && |log| == |q.executed| && |more| == |q.queue|
    requires Q.ListUpToDate(q.clients, q.sessions)
    requires q'.loop.Idle? && q'.pushers == 0 && (q'.queue != [] ==> q'.wakeup)
    requires q'.clients == q.clients && q'.sessions == q.sessions && q'.nonce == q.nonce
    requires q'.queue == AllPushed(Pushes(log + more), q.executed, q.queue) && q'.executed == q.executed + q.queue
    requires q'.written == q.written + Concat(DeliverTo(q.clients), q.queue)
    ensures Same(AfterDrain(loop, more), q')
  {
    hide Concat, AllPushed, Pushes;
    var ids := SessionIds(q.sessions);
    AllPushedIs(log + more, q.executed, q.queue);
    assert (log + more)[|q.executed|..] == more;
    BatchIsWritten(q.clients, q.sessions, q.queue);
    ConcatAppend(WriteOf(ids), q.written, Concat(DeliverTo(q.clients), q.queue));
    TasksAppend(q.executed, q.queue);
  }

  lemma LogGrows(trace: seq<R.Moved>, loop: Loop, steps: seq<Q.Step>, log: seq<Ran>, more: seq<Ran>)
    requires Carries(trace, loop, steps, log)
    ensures Q.Possible(Pushes(log + more), Q.INITIAL, steps)
    ensures Q.Run(Pushes(log + more), Q.INITIAL, steps) == Q.Run(Pushes(log), Q.INITIAL, steps)
  {
    SameSoFar(Pushes(log), Pushes(log + more), Q.INITIAL, steps);
  }

  lemma DrainSteps(loop: Loop, steps: seq<Q.Step>, log: seq<Ran>, more: seq<Ran>, q: Q.System)
    returns (steps': seq<Q.Step>)
    requires Q.Possible(Pushes(log + more), Q.INITIAL, steps) && q == Q.Run(Pushes(log + more), Q.INITIAL, steps)
    requires Same(loop, q) && |log| == |q.executed| && |more| == |q.queue| && Q.ListUpToDate(q.clients, q.sessions)
    ensures Q.Possible(Pushes(log + more), Q.INITIAL, steps')
    ensures Same(AfterDrain(loop, more), Q.Run(Pushes(log + more), Q.INITIAL, steps'))
  {
    hide Pushes, Q.Run, Q.Possible, AllPushed, Q.ListUpToDate;
    var f := Pushes(log + more);
    var drain := WholeDrain(f, q);
    EmptyDrain(f, q.executed);
    DrainIsSame(loop, log, more, q, Q.Run(f, q, drain));
    Q.RunAppend(f, Q.INITIAL, steps, drain);
    steps' := steps + drain;
  }

  lemma DrainCarries(trace: seq<R.Moved>, loop: Loop, steps: seq<Q.Step>, log: seq<Ran>, trace': seq<R.Moved>,
                     more: seq<Ran>) returns (steps': seq<Q.Step>)
    requires Carries(trace, loop, steps, log) && trace <= trace' && |more| == |loop.queue|
    requires forall k :: 0 <= k < |more| ==> RanAs(trace', loop.queue[k], more[k])
    ensures Carries(trace', AfterDrain(loop, more), steps', log + more)
  {
    hide RanAs, Pushes, Q.Run, Q.Possible, Q.ListUpToDate, Q.IdsDiffer, Q.NothingAhead;
    var q := Behind(trace, loop, steps, log);
    LogGrows(trace, loop, steps, log, more);
    RanStays(trace, trace', log, loop.taken);
    steps' := DrainSteps(loop, steps, log, more, q);
  }

  lemma EmptyDrain(f: Q.Emits, executed: seq<Q.Item>)
    ensures AllPushed(f, executed, []) == []
  {
  }

  // -- what the functions of a drain push ------------------------------------------------------------------

  /** Handling a pause is a synchronisation, and then the notice. */
  function KindsOf(clients: seq<nat>): Task -> seq<Option<R.Step>> {
    (t: Task) => if t.HandlePause? then [None, Some(R.Others(PauseNotice(t.token, clients)))] else []
  }

  lemma SyncOnlyAdds(s: R.State, a: R.Step, s': R.State)
    requires R.Moves(s, a, s')
    ensures s.world.words.sent <= s'.world.words.sent
  {
    if a.Sync? {
      SentBySync(s.world, a.report, s'.world);
    }
  }

  lemma {:induction false} SentGrows(s: R.State, trace: seq<R.Moved>)
    requires R.Chain(s, trace)
    ensures s.world.words.sent <= R.Final(s, trace).world.words.sent
    decreases |trace|
  {
    hide R.Moves;
    if trace != [] {
      SyncOnlyAdds(s, trace[0].step, trace[0].after);
      SentGrows(trace[0].after, trace[1..]);
    }
  }

  lemma FirstStep(s: R.State, trace: seq<R.Moved>, kind: Option<R.Step>, rest: seq<Option<R.Step>>, s': R.State)
    requires R.Leads(s, trace, [kind] + rest, s')
    ensures trace != [] && kind == (if trace[0].step.Sync? then None else Some(trace[0].step))
    ensures R.Moves(s, trace[0].step, trace[0].after) && R.Leads(trace[0].after, trace[1..], rest, s')
  {
    hide R.Moves;
    assert ([kind] + rest)[0] == kind && ([kind] + rest)[1..] == rest;
    assert R.Kinds(trace) == R.Kind(trace[0]) + R.Kinds(trace[1..]);
    assert R.Kinds(trace)[1..] == R.Kinds(trace[1..]);
  }

  /** The trace of a drain begins with the two steps of a pause. */
  lemma PauseRan(before: seq<R.Moved>, s: R.State, trace: seq<R.Moved>, token: nat, clients: seq<nat>,
                 rest: seq<Option<R.Step>>, s': R.State) returns (ran: Ran)
    requires R.Final(R.START, before) == s && R.Leads(s, trace, KindsOf(clients)(HandlePause(token)) + rest, s')
    ensures |trace| >= 2 && RanAs(before + trace, HandlePause(token), ran)
    ensures trace[1].after.world.words.sent == s.world.words.sent + ran.pushed
    ensures R.Leads(trace[1].after, trace[2..], rest, s')
  {
    hide R.Leads, R.Moves, PauseNotice;
    var notice := Some(R.Others(PauseNotice(token, clients)));
    assert KindsOf(clients)(HandlePause(token)) + rest == [None] + ([notice] + rest);
    FirstStep(s, trace, None, [notice] + rest, s');
    FirstStep(trace[0].after, trace[1..], notice, rest, s');
    assert trace[1..][1..] == trace[2..];
    SyncOnlyAdds(s, trace[0].step, trace[0].after);
    SyncOnlyAdds(trace[0].after, trace[1].step, trace[1].after);
    ran := Ran(trace[1].after.world.words.sent[|s.world.words.sent|..], |before|, clients);
    assert (before + trace)[..|before|] == before;
  }

  lemma {:induction false} DrainRan(before: seq<R.Moved>, s: R.State, trace: seq<R.Moved>, clients: seq<nat>,
                                    tasks: seq<Task>, s': R.State) returns (more: seq<Ran>)
    requires R.Final(R.START, before) == s && R.Leads(s, trace, Concat(KindsOf(clients), tasks), s')
    ensures |more| == |tasks| && forall k :: 0 <= k < |more| ==> RanAs(before + trace, tasks[k], more[k])
    ensures s'.world.words.sent == s.world.words.sent + Concat(PushedBy, more)
    decreases |tasks|
  {
    hide R.Leads, RanAs;
    if tasks == [] {
      NothingRan(s, trace, s');
      more := [];
    } else {
      var ran, rest;
      if tasks[0].HandlePause? {
        ran := PauseRan(before, s, trace, tasks[0].token, clients, Concat(KindsOf(clients), tasks[1..]), s');
        assert before + trace[..2] + trace[2..] == before + trace;
        rest := DrainRan(before + trace[..2], trace[1].after, trace[2..], clients, tasks[1..], s');
        Associate(s.world.words.sent, ran.pushed, Concat(PushedBy, rest));
      } else {
        ran := Ran([], |before|, clients);
        MessageRan(before + trace, tasks[0], ran);
        assert Concat(KindsOf(clients), tasks) == Concat(KindsOf(clients), tasks[1..]);
        rest := DrainRan(before, s, trace, clients, tasks[1..], s');
      }
      more := [ran] + rest;
      assert Concat(PushedBy, more) == ran.pushed + Concat(PushedBy, rest);
    }
  }

  lemma MessageRan(trace: seq<R.Moved>, task: Task, ran: Ran)
    requires !task.HandlePause? && ran.pushed == []
    ensures RanAs(trace, task, ran)
  {
  }

  lemma NothingRan(s: R.State, trace: seq<R.Moved>, s': R.State)
    requires R.Leads(s, trace, [], s')
    ensures s' == s
  {
  }

  // -- what a run of the program promises its clients ------------------------------------------------------

  /** What a function pushed that ran is what the log says. */
  lemma PushedAt(log: seq<Ran>, executed: seq<Q.Item>, k: nat)
    requires k < |log| == |executed|
    ensures Pushes(log)(executed[..k + 1]) == log[k].pushed
  {
  }

  lemma PauseWasHandled(trace: seq<R.Moved>, token: nat, ran: Ran)
    requires R.Chain(R.START, trace) && RanAs(trace, HandlePause(token), ran)
    ensures PauseHandled(WorldAt(trace, ran.at), trace[ran.at].step.report, trace[ran.at].after.world, token,
                         ran.clients, trace[ran.at + 1].after.world)
  {
    R.MovesAt(R.START, trace, ran.at);
    R.MovesAt(R.START, trace, ran.at + 1);
    assert R.Final(R.START, trace[..ran.at + 1]) == trace[ran.at].after;
    hide AllSynced, PauseNotice;
  }

  /** Without anybody to tell, a pause is not announced. */
  lemma NotAnnounced(w: World, report: SyncReport, synced: World, token: nat, w': World, pushed: seq<Task>)
    requires PauseHandled(w, report, synced, token, [], w') && w'.words.sent == w.words.sent + pushed
    ensures Publish(Paused(token)) !in pushed
  {
    SentBySync(w, report, synced);
    Delivery.NoNoticeAmong(w, report, token);
    hide AllSynced, WordReplies, GrammarReplies;
    Delivery.SameRest(w.words.sent, WordReplies(report.clients, w.words.shadow, WordErrors(report.wordCalls)),
                      GrammarReplies(report.names, w.queue, report.outcomes), [], pushed);
  }

  /** What a connection was written of a function's messages, that function has pushed. */
  lemma WrittenIsPushed(f: Q.Emits, s: Q.System, conn: nat, k: nat, j: nat, task: Task)
    requires Q.Invariant(f, s) && k < |s.executed| && conn < |s.sessions| && s.sessions[conn].since <= k
    requires j < |Q.Received(s.written, conn)| && Q.Received(s.written, conn)[j] == Q.Item(task, Some(k))
    ensures task in f(s.executed[..k + 1])
  {
    hide Q.Invariant, Q.Received, Q.From, Q.TasksFor;
    var got, id := Q.Received(s.written, conn), s.sessions[conn].id;
    Delivery.WrittenInOrder(f, s, conn, k);
    AmongOwn(got, k, j);
    assert task in Q.TasksFor(f(s.executed[..k + 1]), id);
    Delivery.TasksForSubset(f(s.executed[..k + 1]), id, task);
  }

  lemma {:induction false} AmongOwn(items: seq<Q.Item>, k: nat, j: nat)
    requires j < |items| && items[j].from == Some(k)
    ensures items[j].task in Q.From(items, k)
  {
    ConcatNext(Q.TaskFrom(k), items, j);
  }

  /**
   * In every run of the program: a client that was connected when a pause was handled is written that the engine is
   * paused only after its answers, that for its words, if it has set any, and those to all its grammar requests that
   * were queued at that point of the reconciler's run.
   */
  lemma ClientsHearBeforeTheNotice(trace: seq<R.Moved>, loop: Loop, steps: seq<Q.Step>, log: seq<Ran>, conn: nat,
                                   k: nat, token: nat, j: nat)
    requires R.Chain(R.START, trace) && Carries(trace, loop, steps, log)
    requires Delivery.NoticeAt(Q.Run(Pushes(log), Q.INITIAL, steps), conn, k, token, j)
    ensures k < |log| && RanAs(trace, HandlePause(token), log[k])
    ensures var q := Q.Run(Pushes(log), Q.INITIAL, steps);
      Delivery.AllAnswered(WorldAt(trace, log[k].at), trace[log[k].at].step.report, q.sessions[conn].id,
                           Delivery.Before(q, conn, k, j))
  {
    var f := Pushes(log);
    var q := Behind(trace, loop, steps, log);
    PushedAt(log, q.executed, k);
    assert loop.taken[k] == HandlePause(token);
    Q.RunKeepsInvariant(f, Q.INITIAL, steps);
    WrittenIsPushed(f, q, conn, k, j, Publish(Paused(token)));
    var ran := log[k];
    PauseWasHandled(trace, token, ran);
    var w, synced, w' := WorldAt(trace, ran.at), trace[ran.at].after.world, trace[ran.at + 1].after.world;
    if ran.clients == [] {
      NotAnnounced(w, trace[ran.at].step.report, synced, token, w', ran.pushed);
    }
    hide PauseHandled, Q.Run, Q.Possible, Q.Invariant, Q.Received, Pushes, WordReply;
    Delivery.PauseIsAnnouncedLast(f, steps, conn, k, token, w, trace[ran.at].step.report, synced, ran.clients, w', j);
  }
}
