# Draconity: what its reconciler, its pause protocol and its transport promise

Draconity sits between many network clients and one speech engine. Clients queue the state they want; a
synchronisation drives the engine towards it with calls that may each fail, keeps a record of what the engine
is believed to hold, and answers every client. This project models that core in Dafny and proves what holds
after any pattern of failures, over any run, and for any interleaving.

Run `dafny verify dfyconfig.toml`.

## The files

| file | of the program | models |
|---|---|---|
| `Engine.dfy` | the engine's interface | loaded handles with blob, rules, lists and callbacks; temporary words; every call succeeds with its effect or fails with none, as it pleases; a log of all calls |
| `Grammar.dfy`, `GrammarSpec.dfy` | `src/draconity.cpp`, `src/dragon/` | one grammar and the calls that synchronise it; what working off one request, and a whole queue, does to record and engine |
| `Words.dfy` | `src/draconity.cpp` | the vocabulary, and what one synchronisation does to it |
| `Ledger.dfy`, `Commands.dfy` | `src/draconity.cpp`, `src/server.cpp` | every grammar request by what became of it; what a command, a synchronisation, a disconnect and a pause do to everything that is kept |
| `Runs.dfy`, `WordRuns.dfy`, `GrammarRuns.dfy` | `src/draconity.cpp` | runs of such steps, and what becomes of each w.set, each engine handle and each record over them |
| `RequestRuns.dfy`, `HeardRuns.dfy` | `src/draconity.cpp` | what becomes of each grammar request over a run, and what its client hears of it |
| `WishRuns.dfy`, `AnswerRuns.dfy` | `src/draconity.cpp` | what clients have asked for, read off the steps of a run alone, against what is loaded and live; what the answers tell of failed calls |
| `Pausing.dfy` | `src/draconity.cpp` | the pause protocol as a state machine |
| `Draconity.dfy` | `src/draconity.cpp`, `src/server.cpp` | the class itself, method by method, proved against the files above |
| `Messages.dfy`, `Server.dfy`, `Events.dfy`, `EventLoop.dfy` | `src/transport/server.cpp` | the messages, the server, the events and what each does to everything that is kept, and the event loop that handles them |
| `InvokeQueue.dfy`, `Delivery.dfy` | `src/transport/server.cpp` | the invoke queue between threads, one atomic step at a time; what reaches which client, and in what order |
| `LoopRuns.dfy`, `ProgramRuns.dfy` | `src/transport/server.cpp`, `src/draconity.cpp` | the event loop's runs as runs of that queue; what every run of the whole program promises the clients |
| `CommandRuns.dfy`, `PauseRuns.dfy` | `src/server.cpp`, `src/draconity.cpp` | what each command and event of the program's runs comes to, in terms of the command; whom its pauses wait for and when they end |
| `Framing.dfy` | `src/transport/client.h` | a client's byte stream and the authentication gate |
| `Packing.dfy` | `src/draconity.cpp`, `src/phrase.cpp`, `src/server.cpp` | the packed word buffers and their walk |
| `Ticks.dfy` | `src/dr_time.c` | scaling ticks in 64 bits |
| `CodeHook.dfy`, `Machine.dfy` | `src/code_hook.cpp` | the jump patch and its trampoline; the instructions it is made of, as the processor runs them |
| `Bytes.dfy` | | bytes, endianness, C strings, `memcpy` |

The pieces meet. The bytes `set_list` packs are the bytes the engine model decodes. The relations of
`GrammarSpec.dfy`, `Words.dfy`, `Commands.dfy` and `Pausing.dfy` are the postconditions of the methods of
`Draconity.dfy`. `EventLoop.HandleEvent` proves two things of any event. It keeps the invariant `InOrder`: the
recorded words are the engine's, the engine's handles are accounted for and, as long as no unload fails, agree with
the record, the pause machine's invariant holds. And it amounts to exactly the steps it stands for (`Events.Handled`),
of the pause machine, of `Runs.dfy` and of the server. `EventLoop.RunLoop` handles any sequence of events from the
start, and `ProgramRuns.EveryRunIsOfAllThree` shows every such run to be one run of `Runs.dfy` from nothing, one of
`Pausing.dfy`, and one of `InvokeQueue.dfy` in which the functions push what the reconciler pushes. So
`Pausing.PauseEndsWhen`, `WordRuns.OutcomesAreExclusive`, `RequestRuns.EveryRequestMeetsOneFate`,
`Delivery.WrittenInOrder` and the other results about runs are about the program's; the last three of
`ProgramRuns.dfy` say what clients are promised in its terms.

Four results compare the program with a reference of its own, which shares no definition with the methods.
`WishRuns.dfy` folds what clients have asked for over the steps of a run: the loaded words and the live grammars are
that. `CommandRuns.ACommandAsksForWhatItSays` reads those steps off the commands, field by field. `Machine.dfy` runs
the bytes of a patch. `PauseRuns.APauseIsResumedWhen` speaks of the events only.

## What turned out not to hold

* The record and the engine can part. A reload that cannot unload the old grammar goes on, loads the blob
  under a new handle, and keeps the recorded rules and lists, although the new handle has none
  (`src/draconity.cpp:240-250`). `Grammars.CarriedOverRuleIsLost` is such a reload, and `Grammars.StaleRecord`
  says exactly when the two agree all the same. Nothing else puts a record out of step with the engine:
  `GrammarRuns.OutOfStep`, `GrammarRuns.OnlyItsOwnReloadPutsANameOutOfStep`.
* A disconnect does not discard everything a client has queued: requests for names it does not own yet
  survive. `GrammarRuns.WhatADisconnectLeaves` says exactly what is left.
* The unload queued for a disconnected client carries whatever transaction id was in memory, so its answer may carry
  the ids of a request of that client. The answers to the two are kept apart by the step that queued each
  (`RequestRuns.EveryAnswerIsToOneRequest`). A client cannot tell them apart, but it is gone by then:
  `HeardRuns.NeverDrawn`.
* Two pauses must not overlap: `Pausing.OverlappingPauseIsLost`.
* On Apple a clock whose timebase cannot be had divides by zero: `Ticks.MonotonicClock.Now`.
* A hook on a function whose first instructions the disassembler does not recognise is set up all the same,
  with a trampoline that jumps into the patch: `CodeHooks.UncuttableCodeIsBroken`. It happens exactly when the
  code is not `Cuttable`; `CodeHooks.ShortCodeIsUncuttable` is such code.
* A message of 2^32 bytes or more is written with a wrong length: `Framing.OneFrameRoundTrip`.
* A w.set is not answered once: every synchronisation answers every client that has an entry. What is
  exclusive is "skipped" on one side and any other answer on the other.

## Assumptions

* `pause_token` starts at 0. The constructor does not set it; `src/draconity.h:81-84` gives the intent.
* The engine's pause tokens are nonzero, and it announces no pause while one is open.
* An engine call that returns nonzero changed nothing. A load returns a handle, and a registration a key,
  that is not in use.
* Each callback of the loop (message, timer, disconnect, one drained function) is one atomic step.
* The order in which an `std::unordered_map` or `std::set` is walked is arbitrary here.
* Reading and writing BSON, and what the message handler answers, are parameters of `Framing.dfy`; the
  commands of `Messages.dfy` are already decoded. A w.set without a words field reads an uninitialised pointer
  (`src/server.cpp:115`); the model takes the intended branch, the refusal.
* A list that arrives in one message can be packed into fewer than 2^32 bytes (`ValidCommand`).
  `Grammars.ArrivedListIsPackable` shows that any list that fits a BSON array can.
* `src/draconity.cpp:317-320` leaves the transaction id of that unload unset; here it is arbitrary, and so is that
  of a grammar object that was never synchronised.
* `faulted`, `unloadFaults` and the log of calls are annotations of the engine model; no code reads them.
* `Machine.dfy` knows only the two instructions of a patch, with operands the program's compilers lay out in memory
  least significant byte first.
* In `CodeHook.dfy` memory is writable, `mmap` answers with memory that does not overlap the function, and
  the disassembler's verdict on an instruction depends on the bytes of that instruction only.

## Model

| member | source | states |
|---|---|---|
| Grammars.UnloadGrammar | src/draconity.cpp:110-133 | success releases the handle and clears the record; after the first failure the record is as it was and the grammar still loaded, possibly with fewer callbacks, and marked; no error is recorded either way, and no other handle is touched |
| Grammars.LoadGrammar | src/draconity.cpp:135-161 | success yields a fresh handle with the blob, all three callbacks and no rules or lists; failure reports one error and either loaded nothing or leaves a new handle behind whose registration failed |
| Grammars.RegisterCallbacks | src/draconity.cpp:145-159 | the grammar counts as enabled only once all three registrations succeeded; then the engine has each callback under the key recorded for it, and otherwise at least none that the recorded keys do not cover |
| Grammars.ActivateRule | src/draconity.cpp:163-170 | a rule is recorded as active exactly when the engine activated it, and a failure is one error |
| Grammars.SyncRules | src/draconity.cpp:181-202 | only rules that differ are called for, and whichever calls fail, the recorded rules move exactly as the engine's do; no error means the requested set |
| Grammars.SetList | src/draconity.cpp:204-234 | the engine is given the packed words, which it reads back as the list; the list is recorded exactly when the call succeeded |
| Grammars.SyncLists | src/draconity.cpp:252-258 | only lists that differ are set; the engine's lists move exactly where the recorded ones do, and without an error the record is the old lists overridden by the requested ones |
| Grammars.SyncBlob | src/draconity.cpp:240-250 | a reload empties rules and lists unless the unload before it failed, in which case the old record stays over a handle loaded afresh |
| Grammars.SyncGrammar | src/draconity.cpp:236-264 | whatever fails, the engine agrees with the record unless an unload failed; without errors the request is fulfilled; the errors are those of the failed calls, in order; with an equal blob only what differs is called for |
| Grammars.ContentsKeepMirror | src/draconity.cpp:252-258 | rules and lists that move together stay in agreement, whichever calls failed |
| Grammars.StaleRecord | src/draconity.cpp:240-250 | after a reload over a failed unload the record agrees with the engine if and only if no recorded rule was asked for again and every recorded list was replaced by a different one |
| Grammars.CarriedOverRuleIsLost | src/draconity.cpp:236-264 | a concrete grammar that agrees with the engine, a request, and the calls that fail, after which a rule is recorded as active that the engine does not have active |
| Grammars.ArrivedListIsPackable | src/draconity.cpp:204-217 | a list that arrived as a BSON array always packs into fewer than 2^32 bytes, whatever order it is packed in |
| GrammarSpec.NameStepKeepsSound | src/draconity.cpp:341-384 | working off one request, however it goes, keeps: handles of the engine are those of live grammars, no two share one, strays are faulted ones, and, as long as no unload has failed, every grammar agrees with the engine |
| GrammarSpec.WithoutFaultsTheRecordIsTheEngine | src/draconity.cpp:110-264 | in every reachable state in which no unload and no registration has failed, the loaded handles are exactly those of the live grammars, none shared, and blob, rules, lists and callbacks agree, whatever loads, activations, deactivations and list calls have failed |
| GrammarSpec.LeakedHandlesAreTheFaultedOnes | src/draconity.cpp:110-161 | in every reachable state a handle of the engine belongs to no grammar if and only if one of its unloads or registrations has failed |
| GrammarRuns.LeaksAreForever | src/draconity.cpp:334-386 | over every run a handle that has leaked stays leaked, and as it is |
| GrammarRuns.OutOfStep | src/draconity.cpp:236-264 | a step of a run puts a name out of step with the engine if and only if it is a synchronisation that reloads that name over a failed unload and carries something of the old record over |
| GrammarRuns.OnlyItsOwnReloadPutsANameOutOfStep | src/draconity.cpp:236-264 | over every run, a name that is out of step with the engine had such a reload of its own; failures for other names do not matter |
| GrammarSpec.StaysConsistent | src/draconity.cpp:341-384 | whatever comes of one request, handles of live grammars are loaded, shared by no two, and not faulted, and every other handle is faulted |
| GrammarSpec.StaysAgreeing | src/draconity.cpp:341-384 | one request leaves every other grammar as it is, and in agreement with the engine if and only if it was |
| GrammarSpec.UnloadStep | src/draconity.cpp:351-356 | an unload request leaves the name absent whether or not the engine let go of the handle |
| GrammarSpec.FulfilStep | src/draconity.cpp:357-372 | a set request without errors leaves the name live with exactly what was asked for |
| GrammarSpec.ErrorStep | src/draconity.cpp:373-378 | a set request with errors leaves the name absent |
| GrammarSpec.AlreadyLiveIsQuiet | src/draconity.cpp:252-258 | asking again for what is recorded makes no engine call and no error |
| GrammarSpec.QueueNext | src/draconity.cpp:342-383 | the requests of a queue do not disturb each other: settling one more name keeps every settled name settled, every other name and its handle untouched, and strays where they are |
| Core.Draconity.RemoveGrammar | src/draconity.cpp:334-339 | the name is erased whether or not the unload worked |
| Core.Draconity.SyncName | src/draconity.cpp:342-380 | one queued request against the live grammars: the errors are those of its calls, and the step relation the lemmas above are about holds |
| Core.Draconity.SyncGrammars | src/draconity.cpp:341-386 | every queued name is settled and answered once, in some order; the queue is empty afterwards; the engine is called for these requests and nothing else |
| Ledger.LiveAlreadyTakesNoCall | src/draconity.cpp:341-386 | in a synchronisation each request for what is live already takes no engine call, and if all are, there is no call at all |
| Core.Draconity.AddWord | src/draconity.cpp:397-425 | a word is validated, then added; it is recorded as loaded exactly when the engine added it; a failure is one error, and an invalid word is never added |
| Core.Draconity.RemoveWord | src/draconity.cpp:427-439 | a word is recorded as gone exactly when the engine deleted it |
| Core.Draconity.SetWords | src/draconity.cpp:441-461 | only missing words are added and only unwanted ones deleted; the loaded words become the wanted ones minus failed adds plus failed deletes |
| Core.Draconity.HandleWordFailures | src/draconity.cpp:479-504 | every client with an entry is answered once, told of its own failed words, which are taken out of its entry |
| Core.Draconity.SyncWords | src/draconity.cpp:506-521 | the relation `Synced` between the old and new vocabulary, the engine calls and the replies |
| Words.SyncedLoads | src/draconity.cpp:506-521 | after every sync the loaded words are exactly the words still wanted by some client plus those whose delete failed |
| Words.SyncedReports | src/draconity.cpp:479-504 | each reply names exactly the client's words whose add failed, success if there are none; a failed delete is reported to nobody |
| Words.ResyncIsQuiet | src/draconity.cpp:441-521 | a second sync with nothing new adds nothing and only retries the deletes that failed |
| WordRuns.DisconnectWithdrawsWords | src/draconity.cpp:310-331 | after a disconnect and the next sync, whatever others ask for in between, a loaded word stays if and only if somebody else wants it by then or its delete failed |
| WishRuns.LoadedIsWhatIsWished | src/draconity.cpp:441-559 | over every run, a synchronisation leaves a word loaded exactly if some client wants it and it could be added, or nobody does and it could not be deleted; no other step loads or deletes a word; what a client wants is a fold over the steps |
| WishRuns.WordsAreReplaced | src/draconity.cpp:545-559 | over every run, a w.set replaces what its client wanted before |
| AnswerRuns.AClientIsToldItsFailures | src/draconity.cpp:397-504 | each error a client is told tells one failed call for a word of its own, what went wrong and with which return code, and none of its failed words is missing |
| Words.ClientErrorsWords | src/draconity.cpp:487-498 | the errors a client is sent are those of its own words |
| WordRuns.StepAnswers | src/draconity.cpp:479-559 | a w.set is answered "skipped" only by its client setting words again before any sync, and otherwise only by a sync, once each |
| WordRuns.OutcomesAreExclusive | src/draconity.cpp:479-559 | over every run with distinct transaction ids: superseded before a sync a w.set is answered "skipped" once and nothing else ever; reached by a sync first it is answered and never "skipped"; otherwise it waits unanswered |
| WordRuns.WaitingStep | src/draconity.cpp:545-559 | how one step moves a waiting w.set on |
| WordRuns.SettledForever | src/draconity.cpp:479-559 | a skipped or answered w.set stays so |
| Core.Draconity.SetShadowGrammar | src/draconity.cpp:531-543 | a queued request for the name is replaced and answered "skipped" |
| Core.Draconity.SetShadowWords | src/draconity.cpp:545-559 | the client's entry is replaced by exactly the words given, and no other entry changes; an entry no sync has seen is answered "skipped" |
| Core.Draconity.ClearClientState | src/draconity.cpp:310-331 | unloads are queued for exactly the live grammars of the client, dropping unanswered what was queued under those names; its words are withdrawn; the ledger records both, and nothing else changes |
| Core.Draconity.SyncState | src/draconity.cpp:524-529 | words first, then grammars; the engine is called for what the report says and nothing else |
| RequestRuns.EveryRequestMeetsOneFate | src/draconity.cpp:291-386 | over every run, whatever transaction ids are used: a request has no answer while it is queued; replaced it is answered "skipped", dropped by a disconnect it is not answered, reached by a synchronisation it is answered success or error as its calls went; once, to its client and under its id, and nothing else ever |
| RequestRuns.AnsweredAtMostOnce | src/draconity.cpp:291-386 | so it has at most one answer, and none while it is queued |
| RequestRuns.StepAnswers | src/draconity.cpp:291-386 | a queued request is answered by another request for its name or by a synchronisation; no other step answers it, and none answers a request that is not queued |
| RequestRuns.EveryAnswerIsToOneRequest | src/draconity.cpp:291-386 | over every run, the grammar results handed to the event loop are exactly the answers to the requests, in order |
| HeardRuns.NeverDrawn | src/draconity.cpp:310-322 | as long as a client is connected, no unload that nobody asked for is queued under its ids |
| HeardRuns.AClientHearsWhatBecame | src/draconity.cpp:291-386 | a client that used an id once and is still connected has been sent under it exactly what became of the request |
| Ledger.BalanceAnswer | src/draconity.cpp:341-386 | answering a request takes it off the queue and nothing else |
| Ledger.BalanceQueue | src/draconity.cpp:531-543 | accepting a request makes it pending |
| Ledger.BalanceOverwrite | src/draconity.cpp:316-321 | an unload that overwrites a queued request drops that one, unanswered |
| Ledger.NothingOwned | src/draconity.cpp:601-609 | a disconnect during a pause leaves no live grammar of the client |
| GrammarRuns.WhatADisconnectLeaves | src/draconity.cpp:310-322 | after a disconnect and the next sync, whatever others ask for in between, the client owns a grammar if and only if it had a set request queued for a name it did not own, which nobody replaced and which went well |
| WishRuns.EveryNameStandsAsAsked | src/draconity.cpp:310-386 | over every run and for every name: what is queued is what was asked for last, and what is live, with owner, blob, rules and lists, is what the last request a synchronisation reached asked for, if no call for it failed; a reference fold over the steps says so |
| WishRuns.WhatWasSetGoesLive | src/draconity.cpp:341-386 | a set request that nothing overtakes is live after the next synchronisation exactly if no call for it failed, as it was asked for |
| AnswerRuns.ARequestIsToldItsFailures | src/draconity.cpp:341-383 | over every run, a request that a synchronisation reached is told once, under its id: one error for each failed load, registration, rule or list call for it, in their order, and "success" exactly if there was none; an unload is told "success" |
| Core.Draconity.WordSet | src/server.cpp:214-236 | refused or queued, and when refused nothing changes |
| Core.Draconity.GrammarCommand | src/server.cpp:243-336 | refused for the first thing wrong with it; otherwise queued with the command's own data, rules, lists, client and id, and worked off at once during a pause |
| Commands.AcceptedAsCommanded | src/server.cpp:243-336 | what is queued under the name has, field by field, the data, the rules, the given lists or none, the client and the id of the command; the rest of the queue stays, and a paused engine is synchronised with that queue |
| CommandRuns.RefusedForAReason | src/server.cpp:214-364 | exactly which commands are accepted, and for which of its faults each other one is refused |
| CommandRuns.ACommandAsksForWhatItSays | src/server.cpp:214-364 | in a run, an accepted command is one step that asks for what the command says, literally, followed by a synchronisation if the engine is paused and by its echo; a refused one is its echo only |
| CommandRuns.OtherEventsAsk | src/draconity.cpp:601-609 | a connection that closes is a withdrawal, synchronised at once if the engine is paused; no other event asks for anything |
| CommandRuns.ReadyOnceTheEngineIs | src/server.cpp:243-247 | commands are let through from the moment the engine has announced itself, and not before |
| CommandRuns.AGrammarSetGoesLive | src/server.cpp:251-336 | in every run of the program, a g.set that nothing overtakes before the next synchronisation is live after it exactly if no call for it failed: for its client, with the command's data and rules, its lists, and those that were kept |
| CommandRuns.AWordSetReplacesWords | src/server.cpp:214-236 | in every run of the program, after the synchronisation that follows a w.set, a word it gave or another client wants is loaded exactly unless it could not be added, and any other word exactly if it could not be deleted |
| Core.Draconity.Submit | src/server.cpp:328-336 | a submitted request waits, or is synchronised at once together with everything queued if the engine is paused |
| Core.Draconity.UnpauseCommand | src/server.cpp:357-364 | refused unless it carries the token of the open pause |
| Core.Draconity.HandleMessage | src/server.cpp:457-492 | the reply and the whole effect of a command, on the vocabulary, the grammars, the queue, the engine calls and the ledger; its echo to all clients comes after everything it sent |
| Core.Draconity.DoUnpause | src/draconity.cpp:562-569 | the engine is resumed with the open pause's token, once |
| Core.Draconity.ClientUnpause | src/draconity.cpp:572-579 | the step of the pause machine |
| Core.Draconity.HandlePause | src/draconity.cpp:581-598 | everything queued is synchronised first, and the pause is announced after all its replies; exactly the connected clients are waited for, with the timer armed; without clients the engine goes on at once |
| Core.Draconity.OnTimeout | src/draconity.cpp:64-69 | the timer ends the pause, whoever is still waited for |
| Core.Draconity.HandleDisconnect | src/draconity.cpp:601-609 | the client's state is taken back and nothing else changes; during a pause that is synchronised before the client is no longer waited for, and nothing live is owned by it any more |
| Core.Draconity.OnClose | src/transport/server.cpp:99-103 | the server forgets the client before its state is taken back |
| Core.Draconity.OnConnect | src/transport/server.cpp:97-117 | a client that joins during a pause is not waited for, and has no words queued under its id |
| Pausing.RunKeepsInvariant | src/draconity.cpp:562-609 | over every run: no token means nobody waited for and a stopped timer; a token means an armed timer and somebody connected being waited for; each pause is resumed once, in order, with its own token |
| Pausing.PauseEndsWhen | src/draconity.cpp:562-609 | a pause is over if and only if the timer fired or every client it was waiting for has unpaused with its token or disconnected |
| Pausing.PauseIsResumedWhen | src/draconity.cpp:562-609 | over every run from the beginning: a pause has been resumed, with its own token and after all earlier ones, if and only if nobody was connected when it was handled, or the timer has fired since, or everybody connected then has since unpaused with its token or disconnected; who is connected is a fold over the events |
| PauseRuns.APauseIsResumedWhen | src/draconity.cpp:562-609 | the same over every run of the program, in terms of its connections, messages and timer |
| PauseRuns.PausesComeOneByOne | src/draconity.cpp:581-585 | in every run of the program at most one announced pause waits to be handled |
| PauseRuns.NothingIsLeftDuringAPause | src/server.cpp:328-336 | in every run of the program no grammar request waits while the engine is paused |
| Pausing.OverlappingPauseIsLost | src/draconity.cpp:581-585 | if a second pause could open while one is open, the first token would not be given back by any later events |
| EventLoop.NextPause | src/draconity.cpp:581-598 | a pause about to be handled is the one the engine is waiting for, and the only one on its way |
| Server.UvServer.Accept | src/transport/server.cpp:97-117 | a connection gets an id no connection had before |
| Server.UvServer.Remove | src/transport/server.cpp:99-103 | exactly that client is forgotten |
| Server.UvServer.Invoke | src/transport/server.cpp:168-177 | appended to the queue, and the loop is signalled |
| Server.UvServer.TakeQueue | src/transport/server.cpp:204-211 | the queue is taken as a whole and left empty |
| Server.UvServer.Deliver | src/transport/server.cpp:180-202 | a published message is written to every client under transaction 0, a directed one to its client if it is still there |
| EventLoop.DrainInvokeQueue | src/transport/server.cpp:204-214 | the functions queued at the swap run once each, in order; what they queue is left for the next drain |
| EventLoop.HandleEvent | src/draconity.cpp:524-609 | any event keeps everything in order and is exactly the steps it stands for: what was sent, queued, answered, dropped, called and recorded changes by those steps and by nothing else, the pause machine takes its own, and clients are written only what a drain runs |
| EventLoop.Start | src/draconity.h:81-84 | a fresh engine, server and reconciler are in order: nobody is connected, nothing is queued, recorded, called, sent or paused |
| EventLoop.RunLoop | src/transport/server.cpp:97-214 | from there any sequence of events is handled, each as `HandleEvent` says, and everything is in order at the end |
| ProgramRuns.EveryRunIsOfAllThree | src/transport/server.cpp:97-214 | every run of the program is one of the reconciler from nothing, one of the pause machine, and one of the invoke queue, atomic step by atomic step, with the same queue, clients and writes, in which each function pushes what the reconciler pushed in it |
| ProgramRuns.GrammarRequestsAreAnswered | src/draconity.cpp:291-386 | in every run of the program, a client that used an id once for a grammar request and is still connected has been answered under it exactly as the request went |
| ProgramRuns.WordRequestsAreAnswered | src/draconity.cpp:479-559 | in every run of the program, a w.set under an id used once is skipped once, or answered by a synchronisation and never skipped, or waits unanswered |
| ProgramRuns.PausesAreAnnouncedLast | src/draconity.cpp:581-598 | in every run of the program, wherever a connection was written the notice of a pause that was handled while it was open, it had been written its answers of that pause before |
| LoopRuns.ClientsHearBeforeTheNotice | src/draconity.cpp:581-598 | those answers are the word reply of the entry, and the answer to every queued request, that the client had in the state the reconciler was in when that pause was handled |
| InvokeQueue.StepKeepsInvariant | src/transport/server.cpp:168-214 | every atomic step of every thread keeps: what was pushed is what ran, the batch and the queue, in that order; a non-empty queue is signalled, about to be signalled, or about to be swapped out; clients were written what was addressed to them while they were connected |
| InvokeQueue.EveryRunIsFirstInFirstOut | src/transport/server.cpp:168-214 | over every interleaving functions run in the order pushed, each once; when the loop sleeps unsignalled with no pusher under way, all of them have run |
| InvokeQueue.DrainRunsItsBatch | src/transport/server.cpp:204-214 | a drain runs the functions of its swap and no others, whatever is pushed meanwhile, by them or by other threads |
| InvokeQueue.EveryDrainEnds | src/transport/server.cpp:204-214 | in every interleaving a drain takes no more steps than its batch and what that pushes account for, whatever other threads push meanwhile |
| InvokeQueue.DrainEnds | src/transport/server.cpp:211-213 | left to itself, the loop can finish its drain from any reachable state |
| InvokeQueue.EverythingPushedRunsSoon | src/transport/server.cpp:168-214 | in every interleaving everything pushed so far has run once the loop has taken a number of steps that is known beforehand |
| InvokeQueue.WorkIsNeverStuck | src/transport/server.cpp:168-214 | as long as something pushed has not run, the loop can take such a step or a thread is about to signal it |
| InvokeQueue.EverythingPushedRuns | src/transport/server.cpp:168-214 | left to itself, with nothing more pushed from elsewhere, the loop runs everything pushed so far within that number of steps |
| InvokeQueue.DeliverReaches | src/transport/server.cpp:180-202 | walking the client list, publish writes to every open connection once, and send, which stops at the first match, to the one with that id |
| Delivery.DirectedMessagesReachOneClient | src/transport/server.cpp:97-202 | over every run, two connections that were written directed messages for one id are the same connection, the one that was given the id |
| Delivery.WrittenInOrder | src/transport/server.cpp:180-214 | what a connection was written of one function's messages is always the first part of those meant for it |
| Delivery.RepliesComeBeforeTheNotice | src/transport/server.cpp:168-214 | if a function pushes replies and then a notice, a connection is written its replies before the notice, whatever else is pushed in between |
| Delivery.PauseIsAnnouncedLast | src/draconity.cpp:581-598 | if a function pushes what `HandlePause` pushes, a client connected then is written its word reply, and the answer to each of its queued grammar requests, before it is told of the pause, for every interleaving and whatever other threads push |
| Framing.UvClient.OnData | src/transport/client.h:29-54 | the loop ends; every complete frame is handled in order, and what is kept is too little for the next header or body |
| Framing.UvClient.WriteMessage | src/transport/client.h:126-138 | transaction id and length in network order, then the message |
| Framing.WireBytes | src/transport/client.h:126-138 | the eight header bytes, most significant first, are the transaction id and the length |
| Framing.UvClient.HandleAuth | src/transport/client.h:84-122 | the client is let in exactly by the command "auth" with the server's non-empty secret; each of the three refusals is given exactly when its reason holds |
| Framing.SameText | src/transport/client.h:103-110 | the accumulated difference is zero if and only if the texts are equal |
| Framing.UvClient.HandleMessage | src/transport/client.h:67-82 | before authentication a message only reaches the authenticator; a reply, if any, is written under the message's transaction id |
| Framing.ParseLeavesWaiting | src/transport/client.h:32-53 | what is left over is too little for the next header or body |
| Framing.ParseAppend | src/transport/client.h:29-54 | parsing early and continuing later finds the same frames as parsing at once |
| Framing.PiecesDoNotMatter | src/transport/client.h:29-54 | however a stream is cut into pieces, the frames and the residue are those of the whole |
| Framing.SessionOfAStream | src/transport/client.h:29-82 | so are the session, what the handler was given, and the replies of a handler that depends on nothing but the client's own messages |
| Framing.FramesRoundTrip | src/transport/client.h:29-54 | any frames with 32-bit ids and lengths, written, joined and cut anywhere, arrive as they were, with nothing left over |
| Framing.OneFrameRoundTrip | src/transport/client.h:126-138 | a single message arrives as it was if and only if its length is below 2^32 |
| Framing.OnlyTheSecretOpens | src/transport/client.h:67-122 | over any frames, a client gets in if and only if one of them reads as the command "auth" with the server's secret, which is not empty |
| Framing.WithoutTheSecret | src/transport/client.h:67-122 | until then nothing is delivered, and each message is answered under its id by what is wrong with it: unreadable, not "auth", or not the secret |
| Framing.BehindTheSecret | src/transport/client.h:67-122 | the handler is given exactly the frames behind the first one with the secret, and the replies from then on are its |
| Framing.NoSecretNoAccess | src/transport/client.h:105 | a server without a secret lets nobody in |
| Packing.Align4 | src/draconity.cpp:14 | the least multiple of four with room for a NUL |
| Packing.SizePass | src/draconity.cpp:209-212 | the 32-bit sum of the sizing pass is the packed size modulo 2^32 |
| Packing.WriteEntry | src/draconity.cpp:219-223 | one entry is written in bounds, over zeroes, and nothing else |
| Packing.BuildDataptr | src/draconity.cpp:204-224 | the buffer is allocated as large as the fill pass needs, and ends up holding the packed words |
| Packing.EntryShape | src/draconity.cpp:211-222 | an entry is 4-aligned, tells its own size, holds its word, and is terminated |
| Packing.PhraseToBson | src/phrase.cpp:10-27 | the walk returns the names of the entries |
| Packing.WalkPacked | src/phrase.cpp:16-25 | the walk by stored sizes finds exactly the packed words, in order, wherever they lie |
| Packing.UnpackPack | src/draconity.cpp:204-224 | what `set_list` packs, the walk unpacks |
| Packing.PhraseRoundTrip | src/phrase.cpp:16-25 | a phrase laid out with its length in front is read back word for word |
| Packing.BuildMimic | src/server.cpp:417-441 | both passes agree, every write is in bounds |
| Packing.MimicRoundTrip | src/server.cpp:417-441 | the buffer splits back into its words if and only if no word holds a NUL |
| Ticks.SplitIsExact | src/dr_time.c:46-47 | scaling whole periods and the rest apart equals scaling at once, rounded down |
| Ticks.ScalingIsMonotone | src/dr_time.c:60-61 | more ticks never read as an earlier time |
| Ticks.SafeExactlyWhen | src/dr_time.c:60-61 | nothing overflows if and only if the result and the product of the rest fit 63 bits |
| Ticks.SafeForTimebase | src/dr_time.c:46-47 | so nothing overflows whenever the timebase's product and the result fit, even if ticks times `mul` does not |
| Ticks.MonotonicClock.Now | src/dr_time.c:37-61 | the timebase is asked for until it is known; then the time is the exact quotient; until then it is -1 on Windows, and a division by zero on Apple, where a failed answer is not looked at |
| CodeHooks.DisCodeSize | src/code_hook.cpp:15-24 | the scan stops at the first instruction boundary at or behind the size, if and only if there is one; otherwise at the last boundary the disassembler reaches |
| CodeHooks.JumpArrives | src/code_hook.cpp:73-87 | the processor, started on the bytes of a jump anywhere in memory, with anything in its registers, arrives at the address the jump was made for, and only rax (or eax) has changed |
| CodeHooks.CodeHook.Setup | src/code_hook.cpp:41-62 | memory afterwards is the trampoline and the entry jump over the old memory, and nothing else; the entry leads to the target and the trampoline's end back behind what was displaced; the overwritten bytes are saved |
| CodeHooks.RevertUndoesApply | src/code_hook.h:30-35 | writing the saved bytes back over the patch leaves the code as it was |
| CodeHooks.EntryJumpsToTarget | src/code_hook.cpp:54-56 | started at the entry of a hooked function, the processor arrives at the target |
| CodeHooks.TrampolineRunsWhatWasDisplaced | src/code_hook.cpp:46-51 | the trampoline consists of the displaced instructions, one by one, and behind them the processor arrives at the first one not displaced |
| CodeHooks.RestIsIntact | src/code_hook.cpp:46-56 | that one and everything behind it are intact if the code could be cut |
| CodeHooks.UncuttableCodeIsBroken | src/code_hook.cpp:46-56 | if it could not, the hook is set up all the same, and the trampoline jumps into the middle of the patch |
| CodeHooks.ShortCodeIsUncuttable | src/code_hook.cpp:15-24 | a concrete disassembler and piece of code for which that happens |

## Left out

- BSON, TOML, printing, symbol loading, the uvw handles and memory protection: foreign calls or plumbing.
- Refusals before a command is decoded (no BSON, no `cmd` field, an unknown command) and of vocabulary commands on an engine without vocabulary functions (`src/server.cpp:120-169`): answered like any other refusal.
- w.list, mic state, status, speaker changes, and matching mimic callbacks to mimics: shallow, or dependent on the timing of engine callbacks.
- Foreign rules and the dragon pseudo-grammar: their hooks are not installed (`src/shim.cpp:207-213`).
- Reads of the live grammars by engine callbacks on other threads while the loop changes them.
- The clocks themselves, and the branches of `src/dr_time.c` that compute in floating point.
- Client ids, pause tokens and transaction ids are unbounded numbers; the 64-bit counters do not wrap around.
- The copy constructor of the hook, and addresses inside displaced instructions: an instruction that is relative to its own address is copied as it is, by the program as by the model.
- InvokeQueue.EverythingPushedRunsSoon: counts the loop's own steps; that the operating system does schedule the loop, and a thread between its push and its signal, is outside the model.
- ProgramRuns.EveryRunIsOfAllThree: takes the event loop's view, in which pushes from other threads happen between callbacks; their interleaving with a running drain is the subject of `InvokeQueue.dfy` and `Delivery.dfy`, where what a function pushes is a parameter.
- Framing.SessionOfAStream: the program's handler also reads state shared with other clients, so its replies may depend on when a message arrives.
- HeardRuns.AClientHearsWhatBecame: assumes that the transaction id is used once and the client still connected; `RequestRuns.EveryRequestMeetsOneFate` does without.
- Packing.PhraseToBson: is stated for phrases that are well-formed; on others the loop reads outside the buffer or does not end.
- Packing.BuildMimic: assumes a total below 2^32, which every BSON message meets.
- Ticks.MonotonicClock.Now: assumes non-negative ticks, a positive timebase if there is one, and that nothing overflows; `SafeExactlyWhen` says when that is.
