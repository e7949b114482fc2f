/**
 * What becomes of each grammar request, over any run of the reconciler. A request is told apart from all others by
 * the step that queued it; the answers are those the clients are really sent.
 */
module RequestRuns {
  import opened Bytes
  import opened Commands
  import opened Grammars
  import opened GrammarSpec
  import opened Ledger
  import opened Messages
  import opened Runs
  import opened Words

  /** What happens to a queued request. */
  datatype Fate = Pending | Replaced | Dropped | Reached(report: SyncReport)

  /** What a step means for the request queued under a name. */
  function StepFate(s: State, a: Step, name: string): Fate {
    match a
    case Submit(n, _) => if n == name then Replaced else Pending
    case Disconnect(client) => if name in OwnedNames(s.world.registry.lives, client) then Dropped else Pending
    case Sync(report) => Reached(report)
    case _ => Pending
  }

  /** The first step that takes it off the queue decides. */
  function FateOf(s: State, trace: seq<Moved>, name: string): Fate
    decreases |trace|
  {
    if trace == [] then Pending
    else if !StepFate(s, trace[0].step, name).Pending? then StepFate(s, trace[0].step, name)
    else FateOf(trace[0].after, trace[1..], name)
  }

  /** All a request is ever sent, given its fate. */
  function FateTasks(fate: Fate, name: string, req: Request): seq<Task> {
    match fate
    case Replaced => [GrammarReply(name, req, Skipped, [])]
    case Reached(report) => if name in report.outcomes then [ReplyOf(name, req, report.outcomes[name])] else []
    case _ => []
  }

  // -- which request an answer is to -------------------------------------------------------------------------

  /** An answer, and the request it is to: its name, and the number of the step that queued it. */
  datatype Answer = Answer(name: string, step: int, task: Task)

  /** Along a run: which step queued what is in the queue, -1 for what was there at the beginning. */
  datatype Tags = Tags(since: map<string, int>, now: nat, answers: seq<Answer>)

  const START_TAGS := Tags(map[], 0, [])

  function Since(tags: Tags, name: string): int {
    if name in tags.since then tags.since[name] else -1
  }

  function AnswerIn(queue: map<string, Request>, tags: Tags, outcomes: map<string, Outcome>): string -> seq<Answer> {
    (n: string) =>
      if n in queue && n in outcomes then [Answer(n, Since(tags, n), ReplyOf(n, queue[n], outcomes[n]))] else []
  }

  /** What a step answers, and to which requests. */
  function NewAnswers(s: State, tags: Tags, a: Step): seq<Answer> {
    var queue := s.world.queue;
    match a
    case Submit(n, _) =>
      if n in queue then [Answer(n, Since(tags, n), GrammarReply(n, queue[n], Skipped, []))] else []
    case Sync(report) => Concat(AnswerIn(queue, tags, report.outcomes), report.names)
    case _ => []
  }

  function NewSince(s: State, tags: Tags, a: Step): map<string, int> {
    match a
    case Submit(n, _) => tags.since[n := tags.now]
    case Disconnect(client) => tags.since + map n | n in OwnedNames(s.world.registry.lives, client) :: tags.now
    case _ => tags.since
  }

  function Tag(s: State, tags: Tags, a: Step): Tags {
    Tags(NewSince(s, tags, a), tags.now + 1, tags.answers + NewAnswers(s, tags, a))
  }

  function TagRun(s: State, tags: Tags, trace: seq<Moved>): Tags
    decreases |trace|
  {
    if trace == [] then tags else TagRun(trace[0].after, Tag(s, tags, trace[0].step), trace[1..])
  }

  lemma {:induction false} TagRunAppend(s: State, tags: Tags, a: seq<Moved>, b: seq<Moved>)
    ensures TagRun(s, tags, a + b) == TagRun(Final(s, a), TagRun(s, tags, a), b)
    decreases |a|
  {
    hide Tag;
    if a == [] {
      assert a + b == b;
    } else {
      TagRunAppend(a[0].after, Tag(s, tags, a[0].step), a[1..], b);
      assert (a + b)[0] == a[0] && (a + b)[1..] == a[1..] + b;
    }
  }

  // -- the answers are all the clients are sent about grammars ---------------------------------------------

  function GrammarTask(t: Task): seq<Task> {
    if AnswerOf(t) == [] then [] else [t]
  }

  /** The grammar results among everything ever handed to the event loop. */
  function GrammarTasks(sent: seq<Task>): seq<Task> {
    Concat(GrammarTask, sent)
  }

  function TaskOf(a: Answer): seq<Task> {
    [a.task]
  }

  function TasksOf(answers: seq<Answer>): seq<Task> {
    Concat(TaskOf, answers)
  }

  lemma {:induction false} RepliesAreAnswers(queue: map<string, Request>, tags: Tags, outcomes: map<string, Outcome>,
                                             order: seq<string>)
    requires forall n :: n in order ==> n in queue && n in outcomes
    ensures TasksOf(Concat(AnswerIn(queue, tags, outcomes), order)) == GrammarReplies(order, queue, outcomes)
    ensures GrammarTasks(GrammarReplies(order, queue, outcomes)) == GrammarReplies(order, queue, outcomes)
    decreases |order|
  {
    if order != [] {
      var rest := order[1..];
      assert order[0] in order;
      RepliesAreAnswers(queue, tags, outcomes, rest);
      var first := Answer(order[0], Since(tags, order[0]), ReplyOf(order[0], queue[order[0]], outcomes[order[0]]));
      assert GrammarReplies(order, queue, outcomes) == [first.task] + GrammarReplies(rest, queue, outcomes);
      ConcatAppend(TaskOf, [first], Concat(AnswerIn(queue, tags, outcomes), rest));
      ConcatOne(TaskOf, first);
      ConcatAppend(GrammarTask, [first.task], GrammarReplies(rest, queue, outcomes));
      ConcatOne(GrammarTask, first.task);
    }
  }

  lemma NoGrammarAmongWords(order: seq<nat>, shadow: map<nat, WordState>, errors: seq<WordError>)
    requires forall c :: c in order ==> c in shadow
    ensures GrammarTasks(WordReplies(order, shadow, errors)) == []
  {
    ConcatNone(GrammarTask, WordReplies(order, shadow, errors));
  }

  lemma SentGrammars(sent: seq<Task>, words: seq<Task>, grammars: seq<Task>)
    requires GrammarTasks(words) == []
    ensures GrammarTasks(sent + words + grammars) == GrammarTasks(sent) + GrammarTasks(grammars)
  {
    ConcatAppend(GrammarTask, sent, words);
    ConcatAppend(GrammarTask, sent + words, grammars);
  }

  lemma SyncSends(w: World, tags: Tags, report: SyncReport, w': World)
    requires AllSynced(w, report, w')
    ensures GrammarTasks(w'.words.sent)
         == GrammarTasks(w.words.sent) + TasksOf(Concat(AnswerIn(w.queue, tags, report.outcomes), report.names))
  {
    SentBySync(w, report, w');
    hide AllSynced, WordReplies, GrammarReplies, GrammarTasks, TasksOf, Enumerates;
    assert forall n :: n in report.names ==> n in w.queue && n in report.outcomes by {
      NamesAreQueued(report.names, w.queue, report.outcomes);
    }
    NoGrammarAmongWords(report.clients, w.words.shadow, WordErrors(report.wordCalls));
    RepliesAreAnswers(w.queue, tags, report.outcomes, report.names);
    SentGrammars(w.words.sent, WordReplies(report.clients, w.words.shadow, WordErrors(report.wordCalls)),
                 GrammarReplies(report.names, w.queue, report.outcomes));
  }

  lemma NamesAreQueued(order: seq<string>, queue: map<string, Request>, outcomes: map<string, Outcome>)
    requires Enumerates(order, queue.Keys) && outcomes.Keys == queue.Keys
    ensures forall n :: n in order ==> n in queue && n in outcomes
  {
  }

  lemma MoreSends(sent: seq<Task>, more: seq<Task>, answers: seq<Answer>)
    requires GrammarTasks(more) == TasksOf(answers)
    ensures GrammarTasks(sent + more) == GrammarTasks(sent) + TasksOf(answers)
  {
    ConcatAppend(GrammarTask, sent, more);
  }

  lemma SkippedIsAnswer(queue: map<string, Request>, name: string, step: int)
    ensures GrammarTasks(SkippedReply(queue, name))
         == TasksOf(if name in queue then [Answer(name, step, GrammarReply(name, queue[name], Skipped, []))] else [])
  {
    if name in queue {
      ConcatOne(GrammarTask, GrammarReply(name, queue[name], Skipped, []));
      ConcatOne(TaskOf, Answer(name, step, GrammarReply(name, queue[name], Skipped, [])));
    }
  }

  lemma WordsSetSendsNoGrammar(w: World, client: nat, tid: nat, words: set<CStr>, w': World)
    requires WordsSetBy(w, client, tid, words, w')
    ensures GrammarTasks(w'.words.sent) == GrammarTasks(w.words.sent)
  {
    var more := w'.words.sent[|w.words.sent|..];
    assert w'.words.sent == w.words.sent + more;
    ConcatNone(GrammarTask, more);
    MoreSends(w.words.sent, more, []);
  }

  lemma NoticesAreNoAnswers(tasks: seq<Task>)
    requires forall t :: t in tasks ==> !t.Send?
    ensures GrammarTasks(tasks) == []
  {
    ConcatNone(GrammarTask, tasks);
  }

  lemma StepSends(s: State, tags: Tags, a: Step, s': State)
    requires Moves(s, a, s')
    ensures GrammarTasks(s'.world.words.sent) == GrammarTasks(s.world.words.sent) + TasksOf(NewAnswers(s, tags, a))
  {
    hide WordsSetBy, AllSynced, SkippedReply, GrammarTasks, TasksOf;
    var sent := s.world.words.sent;
    NothingOf();
    match a
    case SetWords(client, tid, words) => WordsSetSendsNoGrammar(s.world, client, tid, words, s'.world);
    case Submit(name, req) =>
      SkippedIsAnswer(s.world.queue, name, Since(tags, name));
      MoreSends(sent, SkippedReply(s.world.queue, name), NewAnswers(s, tags, a));
    case Sync(report) => SyncSends(s.world, tags, report, s'.world);
    case Others(tasks) =>
      NoticesAreNoAnswers(tasks);
      MoreSends(sent, tasks, []);
    case _ =>
  }

  lemma NothingOf()
    ensures TasksOf([]) == []
  {
  }

  lemma {:induction false} RunSends(s: State, tags: Tags, trace: seq<Moved>, before: seq<Task>)
    requires Chain(s, trace) && GrammarTasks(s.world.words.sent) == before + TasksOf(tags.answers)
    ensures GrammarTasks(Final(s, trace).world.words.sent) == before + TasksOf(TagRun(s, tags, trace).answers)
    decreases |trace|
  {
    if trace != [] {
      var a, s' := trace[0].step, trace[0].after;
      StepSends(s, tags, a, s');
      ConcatAppend(TaskOf, tags.answers, NewAnswers(s, tags, a));
      hide Moves, NewAnswers, NewSince, GrammarTasks, TasksOf;
      Associate(before, TasksOf(tags.answers), TasksOf(NewAnswers(s, tags, a)));
      RunSends(s', Tag(s, tags, a), trace[1..], before);
    }
  }

  /** Over every run, what clients are sent about grammars is exactly the answers, in order, each to one request. */
  lemma EveryAnswerIsToOneRequest(s: State, trace: seq<Moved>)
    requires Chain(s, trace)
    ensures GrammarTasks(Final(s, trace).world.words.sent)
         == GrammarTasks(s.world.words.sent) + TasksOf(TagRun(s, START_TAGS, trace).answers)
  {
    RunSends(s, START_TAGS, trace, GrammarTasks(s.world.words.sent));
  }

  // -- one fate for every request --------------------------------------------------------------------------

  function ToRequest(name: string, step: int): Answer -> seq<Task> {
    (a: Answer) => if a.name == name && a.step == step then [a.task] else []
  }

  /** The answers to one request. */
  function AnswersTo(answers: seq<Answer>, name: string, step: int): seq<Task> {
    Concat(ToRequest(name, step), answers)
  }

  /** The request that step queued is the one in the queue. */
  predicate Holds(s: State, tags: Tags, name: string, step: int) {
    name in s.world.queue && Since(tags, name) == step
  }

  lemma SyncAnswersRequest(s: State, tags: Tags, report: SyncReport, s': State, name: string, step: int)
    requires AllSynced(s.world, report, s'.world)
    ensures Holds(s, tags, name, step) ==> name in report.outcomes
    ensures AnswersTo(Concat(AnswerIn(s.world.queue, tags, report.outcomes), report.names), name, step)
         == if Holds(s, tags, name, step) then FateTasks(Reached(report), name, s.world.queue[name]) else []
  {
    hide AnswersTo, Concat, AllSynced, Enumerates;
    SyncTakesAll(s.world, report, s'.world);
    AnswersAmong(s.world.queue, tags, report.outcomes, report.names, name, step);
  }

  lemma SyncTakesAll(w: World, report: SyncReport, w': World)
    requires AllSynced(w, report, w')
    ensures Enumerates(report.names, w.queue.Keys) && report.outcomes.Keys == w.queue.Keys
  {
    SentBySync(w, report, w');
  }

  lemma {:induction false} NotAmong(queue: map<string, Request>, tags: Tags, outcomes: map<string, Outcome>,
                                    order: seq<string>, name: string, step: int)
    requires name !in order || Since(tags, name) != step
    ensures AnswersTo(Concat(AnswerIn(queue, tags, outcomes), order), name, step) == []
  {
    if order != [] {
      var first, rest := AnswerIn(queue, tags, outcomes)(order[0]), Concat(AnswerIn(queue, tags, outcomes), order[1..]);
      NotAmong(queue, tags, outcomes, order[1..], name, step);
      ConcatAppend(ToRequest(name, step), first, rest);
      assert order[0] in order;
      ConcatNone(ToRequest(name, step), first);
    }
  }

  lemma AnswersAmong(queue: map<string, Request>, tags: Tags, outcomes: map<string, Outcome>, order: seq<string>,
                     name: string, step: int)
    requires Enumerates(order, queue.Keys) && outcomes.Keys == queue.Keys
    ensures AnswersTo(Concat(AnswerIn(queue, tags, outcomes), order), name, step)
         == if name in queue && Since(tags, name) == step then [ReplyOf(name, queue[name], outcomes[name])] else []
  {
    if name in queue && Since(tags, name) == step {
      assert name in order;
      var i :| 0 <= i < |order| && order[i] == name;
      forall j | 0 <= j < |order| && j != i ensures order[j] != name {
        EnumeratesOnce(order, queue.Keys, if i < j then i else j, if i < j then j else i);
      }
      OneAmong(queue, tags, outcomes, order, name, step, i);
    } else {
      NotAmong(queue, tags, outcomes, order, name, step);
    }
  }

  lemma OneAmong(queue: map<string, Request>, tags: Tags, outcomes: map<string, Outcome>, order: seq<string>,
                 name: string, step: int, i: nat)
    requires i < |order| && order[i] == name && name in queue && name in outcomes && Since(tags, name) == step
    requires forall j :: 0 <= j < |order| && j != i ==> order[j] != name
    ensures AnswersTo(Concat(AnswerIn(queue, tags, outcomes), order), name, step)
         == [ReplyOf(name, queue[name], outcomes[name])]
  {
    var answer := AnswerIn(queue, tags, outcomes);
    var a, b, c := Concat(answer, order[..i]), answer(name), Concat(answer, order[i + 1..]);
    ConcatNext(answer, order, i);
    assert Concat(answer, order) == a + b + c;
    NotAmong(queue, tags, outcomes, order[..i], name, step);
    NotAmong(queue, tags, outcomes, order[i + 1..], name, step);
    ConcatAppend(ToRequest(name, step), a, b);
    ConcatAppend(ToRequest(name, step), a + b, c);
    ConcatOne(ToRequest(name, step), Answer(name, step, ReplyOf(name, queue[name], outcomes[name])));
  }

  /** What becomes of a request (if it is `held` in the queue): the answers it gets, and whether it is still held. */
  predicate Meets(had: seq<Task>, held: Option<Request>, name: string, fate: Fate, has: seq<Task>,
                  still: Option<Request>) {
    && has == had + (if held.Some? then FateTasks(fate, name, held.value) else [])
    && still == (if fate.Pending? then held else None)
    && (held.Some? && fate.Reached? ==> name in fate.report.outcomes)
  }

  function HeldIn(s: State, tags: Tags, name: string, step: int): Option<Request> {
    if Holds(s, tags, name, step) then Some(s.world.queue[name]) else None
  }

  lemma MeetsThen(had: seq<Task>, held: Option<Request>, name: string, first: Fate, mid: seq<Task>,
                  between: Option<Request>, second: Fate, has: seq<Task>, still: Option<Request>)
    requires Meets(had, held, name, first, mid, between) && Meets(mid, between, name, second, has, still)
    ensures Meets(had, held, name, if first.Pending? then second else first, has, still)
  {
  }

  lemma StepHolds(s: State, tags: Tags, a: Step, s': State, name: string, step: int)
    requires Moves(s, a, s') && step < tags.now
    ensures AnswersTo(NewAnswers(s, tags, a), name, step)
         == if Holds(s, tags, name, step) then FateTasks(StepFate(s, a, name), name, s.world.queue[name]) else []
    ensures HeldIn(s', Tag(s, tags, a), name, step)
         == if StepFate(s, a, name).Pending? then HeldIn(s, tags, name, step) else None
    ensures Holds(s, tags, name, step) && a.Sync? ==> name in a.report.outcomes
  {
    match a
    case Submit(n, _) =>
      if n in s.world.queue {
        ConcatOne(ToRequest(name, step), NewAnswers(s, tags, a)[0]);
      }
    case Sync(report) => SyncAnswersRequest(s, tags, report, s', name, step);
    case _ =>
  }

  /** A step answers a request that is in the queue as its fate has it, and no other request at all. */
  lemma StepAnswers(s: State, tags: Tags, a: Step, s': State, name: string, step: int)
    requires Moves(s, a, s') && step < tags.now
    ensures Meets(AnswersTo(tags.answers, name, step), HeldIn(s, tags, name, step), name, StepFate(s, a, name),
                  AnswersTo(Tag(s, tags, a).answers, name, step), HeldIn(s', Tag(s, tags, a), name, step))
  {
    hide Moves, NewAnswers, NewSince, AnswersTo, Holds, FateTasks;
    StepHolds(s, tags, a, s', name, step);
    AnswersAppend(tags.answers, NewAnswers(s, tags, a), name, step);
  }

  lemma {:induction false} HeldRun(s: State, tags: Tags, trace: seq<Moved>, name: string, step: int)
    requires Chain(s, trace) && step < tags.now
    ensures Meets(AnswersTo(tags.answers, name, step), HeldIn(s, tags, name, step), name, FateOf(s, trace, name),
                  AnswersTo(TagRun(s, tags, trace).answers, name, step),
                  HeldIn(Final(s, trace), TagRun(s, tags, trace), name, step))
    decreases |trace|
  {
    hide Moves, NewAnswers, NewSince, AnswersTo, HeldIn, StepFate;
    if trace != [] {
      hide FateTasks, Meets;
      var a, s' := trace[0].step, trace[0].after;
      var tags' := Tag(s, tags, a);
      StepAnswers(s, tags, a, s', name, step);
      HeldRun(s', tags', trace[1..], name, step);
      MeetsThen(AnswersTo(tags.answers, name, step), HeldIn(s, tags, name, step), name, StepFate(s, a, name),
                AnswersTo(tags'.answers, name, step), HeldIn(s', tags', name, step), FateOf(s', trace[1..], name),
                AnswersTo(TagRun(s, tags, trace).answers, name, step),
                HeldIn(Final(s, trace), TagRun(s, tags, trace), name, step));
    }
  }

  lemma AnswersAppend(a: seq<Answer>, b: seq<Answer>, name: string, step: int)
    ensures AnswersTo(a + b, name, step) == AnswersTo(a, name, step) + AnswersTo(b, name, step)
  {
    ConcatAppend(ToRequest(name, step), a, b);
  }

  /** Tags only ever name steps that have been taken. */
  predicate Past(tags: Tags) {
    && (forall n :: n in tags.since ==> -1 <= tags.since[n] < tags.now)
    && (forall i :: 0 <= i < |tags.answers| ==> tags.answers[i].step < tags.now)
  }

  lemma {:induction false} SyncAnswersPast(queue: map<string, Request>, tags: Tags, outcomes: map<string, Outcome>,
                                           order: seq<string>)
    requires Past(tags)
    ensures forall a :: a in Concat(AnswerIn(queue, tags, outcomes), order) ==> a.step < tags.now
  {
    if order != [] {
      SyncAnswersPast(queue, tags, outcomes, order[1..]);
    }
  }

  lemma StartIsPast()
    ensures Past(START_TAGS)
  {
  }

  lemma PastStep(s: State, tags: Tags, a: Step)
    requires Past(tags)
    ensures Past(Tag(s, tags, a))
  {
    if a.Sync? {
      SyncAnswersPast(s.world.queue, tags, a.report.outcomes, a.report.names);
    }
  }

  lemma {:induction false} PastRun(s: State, tags: Tags, trace: seq<Moved>)
    requires Past(tags)
    ensures Past(TagRun(s, tags, trace)) && TagRun(s, tags, trace).now == tags.now + |trace|
    decreases |trace|
  {
    if trace != [] {
      PastStep(s, tags, trace[0].step);
      hide Past, NewAnswers, NewSince;
      PastRun(trace[0].after, Tag(s, tags, trace[0].step), trace[1..]);
    }
  }

  /**
   * Every grammar request meets one fate, over every run, whatever transaction ids the clients use. While it is
   * queued it has no answer. Replaced by another request for its name it is answered "skipped", dropped by a
   * disconnect it is not answered, and reached by a synchronisation it is answered as it went; each once, to the client
   * and under the transaction id it came with, and nothing else ever.
   */
  lemma EveryRequestMeetsOneFate(s: State, trace: seq<Moved>, i: nat)
    requires Chain(s, trace) && i < |trace| && trace[i].step.Submit?
    ensures var a, tags := trace[i].step, TagRun(s, START_TAGS, trace);
      var fate := FateOf(trace[i].after, trace[i + 1..], a.name);
      && AnswersTo(tags.answers, a.name, i) == FateTasks(fate, a.name, a.req)
      && (Holds(Final(s, trace), tags, a.name, i) <==> fate.Pending?)
      && (fate.Reached? ==> a.name in fate.report.outcomes)
  {
    hide Moves, Tag, Past, AnswersTo, FateTasks, FateOf;
    var a := trace[i].step;
    ChainSplit(s, trace, i);
    var before, tags, rest := Final(s, trace[..i]), TagRun(s, START_TAGS, trace[..i]), trace[i..];
    assert trace == trace[..i] + rest && rest[0] == trace[i] && rest[1..] == trace[i + 1..];
    TagRunAppend(s, START_TAGS, trace[..i], rest);
    StartIsPast();
    PastRun(s, START_TAGS, trace[..i]);
    var after := trace[i].after;
    QueuedBy(before, tags, a, after);
    HeldRun(after, Tag(before, tags, a), rest[1..], a.name, i);
    assert Final(after, rest[1..]) == Final(before, rest);
  }

  lemma QueuedBy(s: State, tags: Tags, a: Step, s': State)
    requires Moves(s, a, s') && a.Submit? && Past(tags)
    ensures var tags' := Tag(s, tags, a);
      && Holds(s', tags', a.name, tags.now) && s'.world.queue[a.name] == a.req && tags'.now == tags.now + 1
      && AnswersTo(tags'.answers, a.name, tags.now) == []
  {
    ConcatNone(ToRequest(a.name, tags.now), Tag(s, tags, a).answers);
  }

  /** So it is answered at most once, and not at all while it is queued. */
  lemma AnsweredAtMostOnce(s: State, trace: seq<Moved>, i: nat)
    requires Chain(s, trace) && i < |trace| && trace[i].step.Submit?
    ensures var a, tags := trace[i].step, TagRun(s, START_TAGS, trace);
      |AnswersTo(tags.answers, a.name, i)| + (if Holds(Final(s, trace), tags, a.name, i) then 1 else 0) <= 1
  {
    EveryRequestMeetsOneFate(s, trace, i);
  }
}
