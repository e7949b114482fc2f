/** The grammar requests by what became of them: answered, still queued, or dropped by a disconnect. */
module Ledger {
  import opened Bytes
  import opened EngineModel
  import opened Grammars
  import opened GrammarSpec
  import opened Messages
  import opened Words

  /** A queue entry; a request of a client is one of its transactions. */
  datatype Ticket = Ticket(name: string, client: nat, tid: nat)

  function TicketOf(name: string, r: Request): Ticket {
    Ticket(name, r.client, r.tid)
  }

  function Pending(queue: map<string, Request>): set<Ticket> {
    set n | n in queue :: TicketOf(n, queue[n])
  }

  function AnswerOf(t: Task): seq<Ticket> {
    if t.Send? && t.msg.GrammarResult? then [Ticket(t.msg.name, t.client, t.tid)] else []
  }

  /** The grammar results among everything ever handed to the event loop. */
  function Answers(sent: seq<Task>): seq<Ticket> {
    Concat(AnswerOf, sent)
  }

  /** Every entry ever queued is in exactly one of three places, as often as it was queued. */
  ghost predicate Balanced(issued: multiset<Ticket>, sent: seq<Task>, queue: map<string, Request>,
                           dropped: multiset<Ticket>) {
    issued == multiset(Answers(sent)) + multiset(Pending(queue)) + dropped
  }

  lemma AnswersAppend(a: seq<Task>, b: seq<Task>)
    ensures Answers(a + b) == Answers(a) + Answers(b)
    ensures multiset(Answers(a + b)) == multiset(Answers(a)) + multiset(Answers(b))
  {
    ConcatAppend(AnswerOf, a, b);
  }

  lemma AnswersOne(a: seq<Task>, t: Task)
    ensures multiset(Answers(a + [t])) == multiset(Answers(a)) + multiset(AnswerOf(t))
  {
    AnswersAppend(a, [t]);
    assert Concat(AnswerOf, [t]) == AnswerOf(t) + Concat(AnswerOf, []);
  }

  lemma {:induction false} NoAnswers(sent: seq<Task>)
    requires forall t :: t in sent ==> AnswerOf(t) == []
    ensures Answers(sent) == []
  {
    if sent != [] {
      assert sent == [sent[0]] + sent[1..];
      NoAnswers(sent[1..]);
    }
  }

  lemma PendingPut(queue: map<string, Request>, name: string, r: Request)
    ensures multiset(Pending(queue[name := r])) == multiset(Pending(queue - {name})) + multiset{TicketOf(name, r)}
  {
    var rest := queue - {name};
    assert Pending(queue[name := r]) == Pending(rest) + {TicketOf(name, r)} by {
      forall t ensures t in Pending(queue[name := r]) <==> t in Pending(rest) + {TicketOf(name, r)} {
        if t in Pending(queue[name := r]) {
          var n :| n in queue[name := r] && t == TicketOf(n, queue[name := r][n]);
          assert n != name ==> n in rest && rest[n] == queue[n];
        }
        if t in Pending(rest) {
          var n :| n in rest && t == TicketOf(n, rest[n]);
          assert n in queue[name := r] && queue[name := r][n] == rest[n];
        }
        assert name in queue[name := r];
      }
    }
    assert TicketOf(name, r) !in Pending(rest);
  }

  lemma PendingRemove(queue: map<string, Request>, name: string)
    ensures multiset(Pending(queue))
         == multiset(Pending(queue - {name}))
            + if name in queue then multiset{TicketOf(name, queue[name])} else multiset{}
  {
    if name in queue {
      PendingPut(queue, name, queue[name]);
      assert queue[name := queue[name]] == queue;
    } else {
      assert queue - {name} == queue;
    }
  }

  function GrammarReply(name: string, r: Request, status: Status, errors: seq<GrammarError>): Task {
    Send(GrammarResult(name, status, errors), r.tid, r.client)
  }

  /** Answering an entry takes it off the queue and nothing else. */
  lemma BalanceAnswer(issued: multiset<Ticket>, sent: seq<Task>, queue: map<string, Request>, dropped: multiset<Ticket>,
                      name: string, status: Status, errors: seq<GrammarError>)
    requires Balanced(issued, sent, queue, dropped) && name in queue
    ensures Balanced(issued, sent + [GrammarReply(name, queue[name], status, errors)], queue - {name}, dropped)
  {
    AnswersOne(sent, GrammarReply(name, queue[name], status, errors));
    PendingRemove(queue, name);
  }

  lemma BalanceOthers(issued: multiset<Ticket>, sent: seq<Task>, queue: map<string, Request>, dropped: multiset<Ticket>,
                      more: seq<Task>)
    requires Balanced(issued, sent, queue, dropped) && forall t :: t in more ==> AnswerOf(t) == []
    ensures Balanced(issued, sent + more, queue, dropped)
  {
    AnswersAppend(sent, more);
    NoAnswers(more);
  }

  /** Queueing an entry under a free name. */
  lemma BalanceQueue(issued: multiset<Ticket>, sent: seq<Task>, queue: map<string, Request>, dropped: multiset<Ticket>,
                     name: string, r: Request)
    requires Balanced(issued, sent, queue, dropped) && name !in queue
    ensures Balanced(issued + multiset{TicketOf(name, r)}, sent, queue[name := r], dropped)
  {
    PendingPut(queue, name, r);
    assert queue - {name} == queue;
  }

  /** Putting an entry over another, unanswered, drops that one. */
  lemma BalanceOverwrite(issued: multiset<Ticket>, sent: seq<Task>, queue: map<string, Request>,
                         dropped: multiset<Ticket>,
                         name: string, r: Request)
    requires Balanced(issued, sent, queue, dropped)
    ensures Balanced(issued + multiset{TicketOf(name, r)}, sent, queue[name := r],
                     dropped + if name in queue then multiset{TicketOf(name, queue[name])} else multiset{})
  {
    PendingRemove(queue, name);
    PendingPut(queue, name, r);
  }

  function ReplyOf(name: string, r: Request, o: Outcome): Task {
    GrammarReply(name, r, if o.errors == [] then Success else Failed, o.errors)
  }

  /** One answer for each queued name, in some order. */
  function GrammarReplies(order: seq<string>, queue: map<string, Request>, outcomes: map<string, Outcome>): seq<Task>
    requires forall n :: n in order ==> n in queue && n in outcomes
  {
    seq(|order|, i requires 0 <= i < |order| =>
      ReplyOf(order[i], queue[order[i]], outcomes[order[i]]))
  }

  lemma GrammarRepliesNext(order: seq<string>, name: string, queue: map<string, Request>,
                           outcomes: map<string, Outcome>, o: Outcome)
    requires forall n :: n in order ==> n in queue && n in outcomes
    requires name in queue && name !in order
    ensures forall n :: n in order + [name] ==> n in queue && n in outcomes[name := o]
    ensures GrammarReplies(order + [name], queue, outcomes[name := o])
         == GrammarReplies(order, queue, outcomes) + [ReplyOf(name, queue[name], o)]
  {
    forall i | 0 <= i < |order| ensures order[i] in order && order[i] != name {
    }
  }

  /** The calls of one request after the other. */
  function CallsOf(order: seq<string>, outcomes: map<string, Outcome>): seq<Call>
    requires forall n :: n in order ==> n in outcomes
  {
    if order == [] then [] else CallsOf(order[..|order| - 1], outcomes) + outcomes[order[|order| - 1]].calls
  }

  lemma {:induction false} CallsOfOthers(order: seq<string>, outcomes: map<string, Outcome>, name: string, o: Outcome)
    requires name !in order && forall n :: n in order ==> n in outcomes
    ensures CallsOf(order, outcomes[name := o]) == CallsOf(order, outcomes)
  {
    if order != [] {
      assert order[|order| - 1] in order;
      CallsOfOthers(order[..|order| - 1], outcomes, name, o);
    }
  }

  lemma CallsOfNext(order: seq<string>, outcomes: map<string, Outcome>, name: string, o: Outcome)
    requires name !in order && forall n :: n in order ==> n in outcomes
    ensures forall n :: n in order + [name] ==> n in outcomes[name := o]
    ensures CallsOf(order + [name], outcomes[name := o]) == CallsOf(order, outcomes) + o.calls
  {
    CallsOfOthers(order, outcomes, name, o);
    assert (order + [name])[..|order|] == order;
  }

  lemma {:induction false} NoCallsOf(order: seq<string>, outcomes: map<string, Outcome>)
    requires forall n :: n in order ==> n in outcomes && outcomes[n].calls == []
    ensures CallsOf(order, outcomes) == []
  {
    if order != [] {
      assert order[|order| - 1] in order;
      NoCallsOf(order[..|order| - 1], outcomes);
    }
  }

  /** Requests for what is live already take no call, and if all of them are, the synchronisation takes none. */
  lemma LiveAlreadyTakesNoCall(r: Registry, queue: map<string, Request>, outcomes: map<string, Outcome>, r': Registry,
                               order: seq<string>)
    requires QueueStep(r, queue, outcomes, r') && Enumerates(order, queue.Keys)
    ensures forall n :: n in queue && AlreadyLive(Lookup(r.lives, n), queue[n]) ==> outcomes[n].calls == []
    ensures (forall n :: n in queue ==> AlreadyLive(Lookup(r.lives, n), queue[n])) ==> CallsOf(order, outcomes) == []
  {
    forall n | n in queue && AlreadyLive(Lookup(r.lives, n), queue[n]) ensures outcomes[n].calls == [] {
      assert NameSettled(r, n, queue[n], outcomes[n], r');
    }
    if forall n :: n in queue ==> AlreadyLive(Lookup(r.lives, n), queue[n]) {
      NoCallsOf(order, outcomes);
    }
  }

  // -- one round of answers ------------------------------------------------------------------------------

  function Restrict(queue: map<string, Request>, names: set<string>): map<string, Request> {
    map n | n in queue && n in names :: queue[n]
  }

  /** Part of a queue worked off: those names settled and answered once each, the others still pending. */
  ghost predicate Underway(r: Registry, queue: map<string, Request>, sent: seq<Task>, outcomes: map<string, Outcome>,
                           order: seq<string>, r': Registry, sent': seq<Task>)
  {
    && outcomes.Keys <= queue.Keys
    && Enumerates(order, outcomes.Keys)
    && QueueStep(r, Restrict(queue, outcomes.Keys), outcomes, r')
    && sent' == sent + GrammarReplies(order, queue, outcomes)
  }

  lemma RoundStart(r: Registry, queue: map<string, Request>, sent: seq<Task>)
    requires Sound(r)
    ensures Underway(r, queue, sent, map[], [], r, sent)
  {
    QueueEmpty(r);
    assert Restrict(queue, {}) == map[];
  }

  lemma RoundEnd(r: Registry, queue: map<string, Request>, sent: seq<Task>, outcomes: map<string, Outcome>,
                 order: seq<string>, r': Registry, sent': seq<Task>)
    requires Underway(r, queue, sent, outcomes, order, r', sent') && outcomes.Keys == queue.Keys
    ensures QueueStep(r, queue, outcomes, r') && Enumerates(order, queue.Keys)
    ensures sent' == sent + GrammarReplies(order, queue, outcomes)
  {
    assert Restrict(queue, queue.Keys) == queue;
  }

  lemma RoundNext(r: Registry, queue: map<string, Request>, sent: seq<Task>, outcomes: map<string, Outcome>,
                  order: seq<string>, mid: Registry, sent': seq<Task>,
                  name: string, o: Outcome, r': Registry)
    requires Underway(r, queue, sent, outcomes, order, mid, sent') && name in queue && name !in outcomes
    requires Sound(mid) && NameStep(mid, name, queue[name], r', o.errors, o.clean)
    requires Reported(Lookup(mid.lives, name), name, queue[name], o)
    ensures name !in order
    ensures Underway(r, queue, sent, outcomes[name := o], order + [name], r',
                     sent' + [ReplyOf(name, queue[name], o)])
  {
    hide QueueStep, NameStep, Sound, GrammarReplies, Reported;
    var done := Restrict(queue, outcomes.Keys);
    QueueNext(r, done, outcomes, mid, name, queue[name], o, r');
    QueueUntouched(r, done, outcomes, mid, name);
    assert Restrict(queue, outcomes[name := o].Keys) == done[name := queue[name]];
    GrammarRepliesNext(order, name, queue, outcomes, o);
    assert outcomes[name := o].Keys == outcomes.Keys + {name};
  }

  // -- a whole synchronisation ----------------------------------------------------------------------------

  /** What one `sync_state` did: the word calls it made, and how each queued grammar request went. */
  datatype SyncReport = SyncReport(
    wordCalls: seq<Call>, clients: seq<nat>, words: WordView, outcomes: map<string, Outcome>, names: seq<string>)

  /** The engine was called for these words and grammars and for nothing else. */
  ghost predicate CallsMade(before: seq<Call>, report: SyncReport, after: seq<Call>) {
    && (forall n :: n in report.names ==> n in report.outcomes)
    && after == before + report.wordCalls + CallsOf(report.names, report.outcomes)
  }

  ghost predicate StateSynced(v: WordView, r: Registry, queue: map<string, Request>, report: SyncReport,
                              v': WordView, r': Registry)
  {
    && Synced(v, report.wordCalls, report.clients, report.words)
    && QueueStep(r, queue, report.outcomes, r')
    && Enumerates(report.names, queue.Keys)
    && report.outcomes.Keys == queue.Keys
    && v' == report.words.(sent := report.words.sent + GrammarReplies(report.names, queue, report.outcomes))
  }

  lemma SyncedIsQueueStep(v: WordView, r: Registry, queue: map<string, Request>, report: SyncReport, v': WordView,
                          r': Registry)
    requires StateSynced(v, r, queue, report, v', r')
    ensures QueueStep(r, queue, report.outcomes, r')
  {
  }

  lemma SyncedAnswersNoGrammar(v: WordView, calls: seq<Call>, order: seq<nat>, v': WordView,
                               issued: multiset<Ticket>, queue: map<string, Request>, dropped: multiset<Ticket>)
    requires Synced(v, calls, order, v') && Balanced(issued, v.sent, queue, dropped)
    ensures Balanced(issued, v'.sent, queue, dropped)
  {
    BalanceOthers(issued, v.sent, queue, dropped, WordReplies(order, v.shadow, WordErrors(calls)));
  }

  lemma SyncedKeys(v: WordView, calls: seq<Call>, order: seq<nat>, v': WordView)
    requires Synced(v, calls, order, v')
    ensures v'.shadow.Keys == v.shadow.Keys
  {
  }

  // -- a disconnect -----------------------------------------------------------------------------------------

  function OwnedNames(lives: map<string, Live>, client: nat): set<string> {
    set n | n in lives && lives[n].client == client
  }

  /** The queue after unloads for a client were queued under those names. */
  ghost predicate UnloadsQueued(queue: map<string, Request>, names: set<string>, client: nat,
                                queue': map<string, Request>) {
    && queue'.Keys == queue.Keys + names
    && forall n :: n in queue' ==>
         if n in names then queue'[n].Withdraw? && queue'[n].client == client
         else n in queue && queue'[n] == queue[n]
  }

  lemma UnloadsNone(queue: map<string, Request>, client: nat)
    ensures UnloadsQueued(queue, {}, client, queue) && Pending(Restrict(queue, {})) == {}
  {
  }

  lemma UnloadsNext(queue: map<string, Request>, names: set<string>, client: nat, queue': map<string, Request>,
                    name: string, tid: nat)
    requires UnloadsQueued(queue, names, client, queue') && name !in names
    ensures UnloadsQueued(queue, names + {name}, client, queue'[name := Withdraw(client, tid)])
    ensures name in queue' <==> name in queue
    ensures name in queue ==> queue'[name] == queue[name]
  {
  }

  lemma TakeOne<T>(all: set<T>, todo: set<T>, x: T)
    requires x in todo
    ensures all - (todo - {x}) == if x in all then (all - todo) + {x} else all - todo
  {
  }

  lemma PendingGrows(queue: map<string, Request>, names: set<string>, name: string)
    requires name !in names
    ensures multiset(Pending(Restrict(queue, names + {name})))
         == multiset(Pending(Restrict(queue, names)))
            + if name in queue then multiset{TicketOf(name, queue[name])} else multiset{}
  {
    var a, b := Restrict(queue, names), Restrict(queue, names + {name});
    PendingRemove(b, name);
    assert b - {name} == a;
  }

  lemma RestrictElsewhere(queue: map<string, Request>, names: set<string>, name: string, r: Request)
    requires name !in names
    ensures Restrict(queue[name := r], names) == Restrict(queue, names)
  {
  }

  /** A disconnect while the queue is empty, followed by a synchronisation, leaves nothing of the client's live. */
  lemma NothingOwned(r: Registry, client: nat, queue: map<string, Request>, outcomes: map<string, Outcome>,
                     r': Registry)
    requires UnloadsQueued(map[], OwnedNames(r.lives, client), client, queue) && QueueStep(r, queue, outcomes, r')
    ensures OwnedNames(r'.lives, client) == {}
  {
    forall n | n in queue ensures n !in r'.lives {
      assert NameSettled(r, n, queue[n], outcomes[n], r');
    }
    forall n | n in r'.lives ensures r'.lives[n].client != client {
      assert Lookup(r'.lives, n) == Lookup(r.lives, n);
      assert n !in OwnedNames(r.lives, client);
    }
  }
}
