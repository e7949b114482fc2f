/** What reaches a client through the invoke queue, and in what order, for every interleaving. */
module Delivery {
  import opened Bytes
  import opened Commands
  import opened Grammars
  import opened InvokeQueue
  import opened Ledger
  import opened Messages
  import opened Words

  lemma {:induction false} ForAddressed(items: seq<Item>, client: nat, item: Item)
    ensures item in For(items, client) <==> item in items && Addressed(item.task, client)
  {
    if items != [] {
      ForAddressed(items[1..], client, item);
      assert items == [items[0]] + items[1..];
    }
  }

  lemma ReceivedIs(f: Emits, s: System, conn: nat)
    requires Invariant(f, s) && conn < |s.sessions|
    ensures Known(s, conn) && Received(s.written, conn) == For(Seen(s, conn), s.sessions[conn].id)
  {
    hide For, Received, FirstInFirstOut, NoLostWakeup, PushedInOrder, ListUpToDate;
  }

  lemma SessionsDiffer(f: Emits, s: System, i: nat, j: nat)
    requires Invariant(f, s) && i < j < |s.sessions|
    ensures s.sessions[i].id != s.sessions[j].id
  {
    hide FirstInFirstOut, NoLostWakeup, PushedInOrder, ListUpToDate, EachReceived;
  }

  /** A directed message was written to the connection that was given its id, and to no other: ids are never given
      out twice, so two connections that were written messages for one id are the same. */
  lemma DirectedMessagesReachOneClient(f: Emits, steps: seq<Step>, c: nat, d: nat, a: Item, b: Item)
    requires Possible(f, INITIAL, steps)
    requires var s := Run(f, INITIAL, steps);
      && c < |s.sessions| && a in Received(s.written, c) && a.task.Send?
      && d < |s.sessions| && b in Received(s.written, d) && b.task.Send?
      && a.task.client == b.task.client
    ensures c == d && Run(f, INITIAL, steps).sessions[c].id == a.task.client && a in Run(f, INITIAL, steps).executed
  {
    RunKeepsInvariant(f, INITIAL, steps);
    var s := Run(f, INITIAL, steps);
    hide Invariant, Run, Possible;
    ReceivedIs(f, s, c);
    ReceivedIs(f, s, d);
    ForAddressed(Seen(s, c), s.sessions[c].id, a);
    ForAddressed(Seen(s, d), s.sessions[d].id, b);
    if c < d {
      SessionsDiffer(f, s, c, d);
    } else if d < c {
      SessionsDiffer(f, s, d, c);
    }
  }

  lemma TasksForPrefix(a: seq<Task>, b: seq<Task>, client: nat)
    requires a <= b
    ensures TasksFor(a, client) <= TasksFor(b, client)
  {
    ConcatAppend(TaskFor(client), a, b[|a|..]);
    assert b == a + b[|a|..];
  }

  lemma FromPrefix(a: seq<Item>, b: seq<Item>, k: nat)
    requires a <= b
    ensures From(a, k) <= From(b, k)
  {
    FromAppend(a, b[|a|..], k);
    assert b == a + b[|a|..];
  }

  /** Functions pushed by function number `k` come after it. */
  lemma FromLater(f: Emits, s: System, a: nat, b: nat, k: nat)
    requires FirstInFirstOut(s) && PushedInOrder(f, s) && a <= b <= |s.executed| && a <= k
    ensures From(s.executed[a..b], k) == From(s.executed[..b], k) <= From(s.pushed, k)
  {
    assert s.executed <= s.pushed by {
      assert s.pushed == s.executed + (Batch(s) + s.queue);
    }
    assert s.executed[..a] == s.pushed[..a];
    FromNone(s.executed[..a], k);
    FromAppend(s.executed[..a], s.executed[a..b], k);
    assert s.executed[..a] + s.executed[a..b] == s.executed[..b];
    FromPrefix(s.executed[..b], s.pushed, k);
  }

  lemma PushedInOrderAt(f: Emits, s: System, k: nat)
    requires Invariant(f, s) && k < |s.executed|
    ensures FirstInFirstOut(s) && PushedInOrder(f, s) && From(s.pushed, k) <= f(s.executed[..k + 1])
  {
    hide From, Delivered, NothingAhead, NoLostWakeup;
    assert From(s.pushed, k) + Left(s, k) == f(s.executed[..k + 1]);
  }

  /** What a connection was written of a function's messages is always the first part of those meant for it. */
  lemma WrittenInOrder(f: Emits, s: System, conn: nat, k: nat)
    requires Invariant(f, s) && k < |s.executed| && conn < |s.sessions| && s.sessions[conn].since <= k
    ensures From(Received(s.written, conn), k) <= TasksFor(f(s.executed[..k + 1]), s.sessions[conn].id)
  {
    var id := s.sessions[conn].id;
    PushedInOrderAt(f, s, k);
    ReceivedIs(f, s, conn);
    hide From, For, TasksFor, FirstInFirstOut, PushedInOrder, Invariant, Received;
    FromFor(Seen(s, conn), id, k);
    FromLater(f, s, s.sessions[conn].since, End(s, conn), k);
    TasksForPrefix(From(Seen(s, conn), k), f(s.executed[..k + 1]), id);
  }

  /**
   * When function number `k` pushes some replies and then a notice, a client that was connected when it ran has been
   * written every reply meant for it before it is written the notice, whatever else is pushed in between.
   */
  lemma RepliesComeBeforeTheNotice(f: Emits, steps: seq<Step>, conn: nat, k: nat, replies: seq<Task>, notice: Task,
                                   j: nat)
    requires Possible(f, INITIAL, steps)
    requires var s := Run(f, INITIAL, steps);
      && k < |s.executed| && conn < |s.sessions| && s.sessions[conn].since <= k
      && f(s.executed[..k + 1]) == replies + [notice] && notice.Publish? && notice !in replies
      && j < |Received(s.written, conn)| && Received(s.written, conn)[j] == Item(notice, Some(k))
    ensures var s := Run(f, INITIAL, steps);
      From(Received(s.written, conn)[..j], k) == TasksFor(replies, s.sessions[conn].id)
  {
    RunKeepsInvariant(f, INITIAL, steps);
    hide Run, Invariant, Possible, Received;
    var s := Run(f, INITIAL, steps);
    WrittenInOrder(f, s, conn, k);
    NoticeComesLast(Received(s.written, conn), replies, s.sessions[conn].id, k, notice, j);
  }

  lemma NoticeComesLast(written: seq<Item>, replies: seq<Task>, c: nat, k: nat, notice: Task, j: nat)
    requires notice.Publish? && notice !in replies && j < |written| && written[j] == Item(notice, Some(k))
    requires From(written, k) <= TasksFor(replies + [notice], c)
    ensures From(written[..j], k) == TasksFor(replies, c)
  {
    hide From;
    var got := From(written[..j], k);
    FromAppend(written[..j], [written[j]], k);
    FromOne(written[j], k);
    assert written[..j] + [written[j]] == written[..j + 1];
    FromPrefix(written[..j + 1], written, k);
    TasksForNext(replies, notice, c);
    TasksForSubset(replies, c, notice);
    LastOnlyAtTheEnd(got, TasksFor(replies, c), notice);
  }

  lemma TasksForNext(tasks: seq<Task>, task: Task, client: nat)
    ensures TasksFor(tasks + [task], client) == TasksFor(tasks, client) + if Addressed(task, client) then [task] else []
  {
    ConcatAppend(TaskFor(client), tasks, [task]);
    ConcatOne(TaskFor(client), task);
  }

  lemma {:induction false} TasksForSubset(tasks: seq<Task>, client: nat, task: Task)
    ensures task in TasksFor(tasks, client) <==> task in tasks && Addressed(task, client)
  {
    if tasks != [] {
      TasksForSubset(tasks[1..], client, task);
      assert tasks == [tasks[0]] + tasks[1..];
    }
  }

  lemma LastOnlyAtTheEnd(a: seq<Task>, b: seq<Task>, last: Task)
    requires a + [last] <= b + [last]
    ensures a == b || last in b
  {
    var longer := b + [last];
    assert (a + [last])[|a|] == last == longer[|a|];
    if |a| < |b| {
      assert longer[|a|] == b[|a|];
    } else {
      assert a == longer[..|a|] == b;
    }
  }

  // -- the replies of a pause -----------------------------------------------------------------------------------

  /** What the synchronisation of a pause sends. */
  function PauseReplies(w: World, report: SyncReport): seq<Task>
    requires forall c :: c in report.clients ==> c in w.words.shadow
    requires forall n :: n in report.names ==> n in w.queue && n in report.outcomes
  {
    WordReplies(report.clients, w.words.shadow, WordErrors(report.wordCalls))
    + GrammarReplies(report.names, w.queue, report.outcomes)
  }

  /** Handling a pause while somebody is connected pushes those replies, and then the notice. */
  lemma PausePushes(w: World, report: SyncReport, synced: World, token: nat, clients: seq<nat>, w': World,
                    pushed: seq<Task>)
    requires PauseHandled(w, report, synced, token, clients, w') && clients != []
    requires w'.words.sent == w.words.sent + pushed
    ensures (forall c :: c in report.clients ==> c in w.words.shadow)
      && (forall n :: n in report.names ==> n in w.queue && n in report.outcomes)
      && pushed == PauseReplies(w, report) + [Publish(Paused(token))]
      && Publish(Paused(token)) !in PauseReplies(w, report)
    ensures report.outcomes.Keys == w.queue.Keys
  {
    SentBySync(w, report, synced);
    NoNoticeAmong(w, report, token);
    hide AllSynced, WordReplies, GrammarReplies;
    SameRest(w.words.sent, WordReplies(report.clients, w.words.shadow, WordErrors(report.wordCalls)),
             GrammarReplies(report.names, w.queue, report.outcomes), [Publish(Paused(token))], pushed);
  }

  lemma SameRest(sent: seq<Task>, words: seq<Task>, grammars: seq<Task>, notice: seq<Task>, pushed: seq<Task>)
    requires sent + words + grammars + notice == sent + pushed
    ensures pushed == words + grammars + notice
  {
    assert sent + words + grammars + notice == sent + (words + grammars + notice);
    Cut(sent, words + grammars + notice);
    Cut(sent, pushed);
  }

  lemma NoNoticeAmong(w: World, report: SyncReport, token: nat)
    requires forall c :: c in report.clients ==> c in w.words.shadow
    requires forall n :: n in report.names ==> n in w.queue && n in report.outcomes
    ensures Publish(Paused(token)) !in PauseReplies(w, report)
  {
  }

  /** The answers of a synchronisation to one client: that for its words, if it has set any, and those to all its
      queued grammar requests. */
  predicate AllAnswered(w: World, report: SyncReport, client: nat, among: seq<Task>) {
    && (client in w.words.shadow ==> WordReply(client, w.words.shadow[client], WordErrors(report.wordCalls)) in among)
    && (forall n :: n in w.queue && w.queue[n].client == client ==>
          n in report.outcomes && ReplyOf(n, w.queue[n], report.outcomes[n]) in among)
  }

  /** They hold all the answers. */
  lemma PauseRepliesHold(w: World, report: SyncReport, synced: World, client: nat)
    requires AllSynced(w, report, synced)
    ensures (forall c :: c in report.clients ==> c in w.words.shadow)
      && (forall n :: n in report.names ==> n in w.queue && n in report.outcomes)
    ensures AllAnswered(w, report, client, PauseReplies(w, report))
  {
    SentBySync(w, report, synced);
    hide AllSynced, Enumerates;
    if client in w.words.shadow {
      WordReplyAmong(w, report, client);
    }
    forall n | n in w.queue
      ensures n in report.outcomes && ReplyOf(n, w.queue[n], report.outcomes[n]) in PauseReplies(w, report)
    {
      GrammarReplyAmong(w, report, n);
    }
  }

  lemma WordReplyAmong(w: World, report: SyncReport, client: nat)
    requires Enumerates(report.clients, w.words.shadow.Keys) && client in w.words.shadow
    requires forall n :: n in report.names ==> n in w.queue && n in report.outcomes
    ensures WordReply(client, w.words.shadow[client], WordErrors(report.wordCalls)) in PauseReplies(w, report)
  {
    hide WordReply, GrammarReplies, WordErrors;
    var i :| 0 <= i < |report.clients| && report.clients[i] == client;
    assert PauseReplies(w, report)[i] == WordReply(client, w.words.shadow[client], WordErrors(report.wordCalls));
  }

  lemma GrammarReplyAmong(w: World, report: SyncReport, n: string)
    requires forall c :: c in report.clients ==> c in w.words.shadow
    requires Enumerates(report.names, w.queue.Keys) && report.outcomes.Keys == w.queue.Keys && n in w.queue
    ensures ReplyOf(n, w.queue[n], report.outcomes[n]) in PauseReplies(w, report)
  {
    hide WordReply, ReplyOf, WordErrors;
    var i :| 0 <= i < |report.names| && report.names[i] == n;
    assert PauseReplies(w, report)[|report.clients| + i] == ReplyOf(n, w.queue[n], report.outcomes[n]);
  }

  /** And all of them are addressed to that client. */
  lemma AnsweredForIt(w: World, report: SyncReport, client: nat, tasks: seq<Task>)
    requires AllAnswered(w, report, client, tasks)
    ensures AllAnswered(w, report, client, TasksFor(tasks, client))
  {
    hide TasksFor, WordErrors;
    if client in w.words.shadow {
      TasksForSubset(tasks, client, WordReply(client, w.words.shadow[client], WordErrors(report.wordCalls)));
    }
    forall n | n in w.queue && w.queue[n].client == client
      ensures n in report.outcomes && ReplyOf(n, w.queue[n], report.outcomes[n]) in TasksFor(tasks, client)
    {
      TasksForSubset(tasks, client, ReplyOf(n, w.queue[n], report.outcomes[n]));
    }
  }

  /** As its message number `j`, a connection that was open when function `k` handled a pause was written the notice. */
  predicate NoticeAt(s: System, conn: nat, k: nat, token: nat, j: nat) {
    && k < |s.executed| && s.executed[k].task == HandlePause(token)
    && conn < |s.sessions| && s.sessions[conn].since <= k
    && j < |Received(s.written, conn)| && Received(s.written, conn)[j] == Item(Publish(Paused(token)), Some(k))
  }

  /** What it was written of that function's messages before. */
  function Before(s: System, conn: nat, k: nat, j: nat): seq<Task>
    requires j <= |Received(s.written, conn)|
  {
    From(Received(s.written, conn)[..j], k)
  }

  /**
   * A pause as `HandlePause` handles it, being function number `k`: a client that was connected then has been
   * written its reply for its words, if it has set any, and the answer to every grammar request of its own that was
   * queued, all before it is written that the engine is paused; whatever other threads send in between.
   */
  lemma PauseIsAnnouncedLast(f: Emits, steps: seq<Step>, conn: nat, k: nat, token: nat,
                             w: World, report: SyncReport, synced: World, clients: seq<nat>, w': World, j: nat)
    requires Possible(f, INITIAL, steps)
    requires var s := Run(f, INITIAL, steps);
      && NoticeAt(s, conn, k, token, j)
      && PauseHandled(w, report, synced, token, clients, w') && clients != []
      && w'.words.sent == w.words.sent + f(s.executed[..k + 1])
    ensures var s := Run(f, INITIAL, steps);
      AllAnswered(w, report, s.sessions[conn].id, Before(s, conn, k, j))
  {
    hide PauseReplies, AllSynced, PauseHandled, Run, Possible, Received, AllAnswered, From, TasksFor;
    var s := Run(f, INITIAL, steps);
    var id := s.sessions[conn].id;
    PausePushes(w, report, synced, token, clients, w', f(s.executed[..k + 1]));
    HandledIsSynced(w, report, synced, token, clients, w');
    PauseRepliesHold(w, report, synced, id);
    AnsweredForIt(w, report, id, PauseReplies(w, report));
    RepliesComeBeforeTheNotice(f, steps, conn, k, PauseReplies(w, report), Publish(Paused(token)), j);
  }

  lemma HandledIsSynced(w: World, report: SyncReport, synced: World, token: nat, clients: seq<nat>, w': World)
    requires PauseHandled(w, report, synced, token, clients, w')
    ensures AllSynced(w, report, synced)
  {
  }
}
