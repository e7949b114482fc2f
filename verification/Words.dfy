/** The vocabulary: what clients want, what is loaded, and what a synchronisation does and answers. */
module Words {
  import opened Bytes
  import opened EngineModel
  import opened Grammars
  import opened Messages

  datatype WordState = WordState(words: set<CStr>, lastTid: nat, synced: bool)

  /** The queued state of every client, the words recorded as loaded, and everything sent so far. */
  datatype WordView = WordView(shadow: map<nat, WordState>, loaded: set<CStr>, sent: seq<Task>)

  function Wanted(shadow: map<nat, WordState>): set<CStr> {
    set c, w | c in shadow && w in shadow[c].words :: w
  }

  // -- failures, as the call history shows them ------------------------------------------------------

  function WordErrorOf(c: Call): seq<WordError> {
    match c
    case ValidateWord(w, rc, valid) =>
      if valid then [] else [WordError(if rc == 0 then InvalidWord else ValidationFailed, rc, w)]
    case AddTemporaryWord(w, rc) => if rc == 0 then [] else [WordError(AddFailed, rc, w)]
    case DeleteWord(w, rc) => if rc == 0 then [] else [WordError(DeleteFailed, rc, w)]
    case _ => []
  }

  function WordErrors(calls: seq<Call>): seq<WordError> {
    Concat(WordErrorOf, calls)
  }

  function ErrorWords(errors: seq<WordError>): set<CStr> {
    set e | e in errors :: e.word
  }

  function FailedAdds(calls: seq<Call>): set<CStr> {
    set e | e in WordErrors(calls) && !e.kind.DeleteFailed? :: e.word
  }

  function FailedDeletes(calls: seq<Call>): set<CStr> {
    set e | e in WordErrors(calls) && e.kind.DeleteFailed? :: e.word
  }

  /** Only `adding` is validated and added, and only `removing` deleted. */
  predicate CallsOnly(calls: seq<Call>, adding: set<CStr>, removing: set<CStr>) {
    forall c :: c in calls ==>
      || (c.ValidateWord? && c.word in adding)
      || (c.AddTemporaryWord? && c.word in adding)
      || (c.DeleteWord? && c.word in removing)
  }

  lemma WordErrorsAppend(a: seq<Call>, b: seq<Call>)
    ensures WordErrors(a + b) == WordErrors(a) + WordErrors(b)
    ensures FailedAdds(a + b) == FailedAdds(a) + FailedAdds(b)
    ensures FailedDeletes(a + b) == FailedDeletes(a) + FailedDeletes(b)
  {
    ConcatAppend(WordErrorOf, a, b);
  }

  lemma WordErrorsNext(a: seq<Call>, b: seq<Call>, c: Call)
    requires a <= b
    ensures a <= b + [c] && WordErrors((b + [c])[|a|..]) == WordErrors(b[|a|..]) + WordErrorOf(c)
  {
    assert (b + [c])[|a|..] == b[|a|..] + [c];
    ConcatAppend(WordErrorOf, b[|a|..], [c]);
    assert Concat(WordErrorOf, [c]) == WordErrorOf(c) + Concat(WordErrorOf, []);
  }

  /** The calls of one `add_word`. */
  lemma AddCalls(word: CStr, calls: seq<Call>)
    requires (|calls| == 1 && calls[0].ValidateWord? && calls[0].word == word && !calls[0].valid)
          || (|calls| == 2 && calls[0].ValidateWord? && calls[0].word == word && calls[0].valid
              && calls[1].AddTemporaryWord? && calls[1].word == word)
    ensures CallsOnly(calls, {word}, {}) && FailedDeletes(calls) == {}
    ensures FailedAdds(calls) == if |calls| == 1 || calls[1].rc != 0 then {word} else {}
  {
    WordErrorsNext([], [], calls[0]);
    assert [calls[0]] == ([] + [calls[0]])[0..] && WordErrors([]) == [];
    if |calls| == 2 {
      WordErrorsNext([], [calls[0]], calls[1]);
      assert calls == ([calls[0]] + [calls[1]])[0..];
      assert [calls[0]][0..] == [calls[0]];
    } else {
      assert calls == [calls[0]];
      assert WordErrors(calls)[0] in WordErrors(calls);
    }
    assert WordErrors(calls) != [] ==> WordErrors(calls)[0] in WordErrors(calls);
  }

  /** The one call of `remove_word`. */
  lemma RemoveCalls(c: Call)
    requires c.DeleteWord?
    ensures CallsOnly([c], {}, {c.word}) && FailedAdds([c]) == {}
    ensures FailedDeletes([c]) == if c.rc != 0 then {c.word} else {}
  {
    WordErrorsNext([], [], c);
    assert [c] == ([] + [c])[0..] && WordErrors([]) == [];
    assert WordErrors([c]) != [] ==> WordErrors([c])[0] in WordErrors([c]);
  }

  // -- the steps --------------------------------------------------------------------------------------

  /** w.set: the request replaces the client's entry, and an entry no sync has seen is answered "skipped". */
  ghost predicate Queued(v: WordView, client: nat, tid: nat, words: set<CStr>, v': WordView) {
    v' == WordView(
      v.shadow[client := WordState(words, tid, false)], v.loaded,
      v.sent + if client in v.shadow && !v.shadow[client].synced
               then [Send(WordResult(Skipped, []), v.shadow[client].lastTid, client)] else [])
  }

  /** A disconnected client wants nothing any more; it is not told. */
  ghost predicate Withdrawn(v: WordView, client: nat, v': WordView) {
    v' == if client in v.shadow
          then v.(shadow := v.shadow[client := WordState({}, v.shadow[client].lastTid, false)])
          else v
  }

  /** The errors a client is sent: the first one for each of its words, in the order they happened. */
  function ClientErrors(errors: seq<WordError>, words: set<CStr>): seq<WordError> {
    if errors == [] then []
    else if errors[0].word in words then [errors[0]] + ClientErrors(errors[1..], words - {errors[0].word})
    else ClientErrors(errors[1..], words)
  }

  function WordReply(client: nat, state: WordState, errors: seq<WordError>): Task {
    var mine := ClientErrors(errors, state.words);
    Send(WordResult(if mine == [] then Success else Failed, mine), state.lastTid, client)
  }

  /** One reply for each client, in some order. */
  function WordReplies(order: seq<nat>, shadow: map<nat, WordState>, errors: seq<WordError>): seq<Task>
    requires forall c :: c in order ==> c in shadow
  {
    seq(|order|, i requires 0 <= i < |order| => WordReply(order[i], shadow[order[i]], errors))
  }

  /** What `set_words` does to the loaded words, given the calls it made. */
  ghost predicate WordsSet(loaded: set<CStr>, wanted: set<CStr>, calls: seq<Call>, loaded': set<CStr>) {
    && CallsOnly(calls, wanted - loaded, loaded - wanted)
    && FailedAdds(calls) <= wanted - loaded
    && FailedDeletes(calls) <= loaded - wanted
    && loaded' == (wanted - FailedAdds(calls)) + FailedDeletes(calls)
  }

  function Marked(shadow: map<nat, WordState>, todo: set<nat>): map<nat, WordState> {
    map c | c in shadow :: if c in todo then shadow[c] else shadow[c].(synced := true)
  }

  function Cleaned(shadow: map<nat, WordState>, todo: set<nat>, failed: set<CStr>): map<nat, WordState> {
    map c | c in shadow :: if c in todo then shadow[c] else shadow[c].(words := shadow[c].words - failed)
  }

  /** Every entry synced, without the words that could not be added. */
  function Survivors(shadow: map<nat, WordState>, failed: set<CStr>): map<nat, WordState> {
    map c | c in shadow :: WordState(shadow[c].words - failed, shadow[c].lastTid, true)
  }

  ghost predicate Synced(v: WordView, calls: seq<Call>, order: seq<nat>, v': WordView) {
    && WordsSet(v.loaded, Wanted(v.shadow), calls, v'.loaded)
    && v'.shadow == Survivors(v.shadow, FailedAdds(calls))
    && Enumerates(order, v.shadow.Keys)
    && v'.sent == v.sent + WordReplies(order, v.shadow, WordErrors(calls))
  }

  // -- one synchronisation -----------------------------------------------------------------------------

  lemma {:induction false} ClientErrorsWords(errors: seq<WordError>, words: set<CStr>)
    ensures ErrorWords(ClientErrors(errors, words)) == words * ErrorWords(errors)
    ensures forall e :: e in ClientErrors(errors, words) ==> e in errors
  {
    if errors != [] {
      var w := errors[0].word;
      assert ErrorWords(errors) == {w} + ErrorWords(errors[1..]) by {
        assert errors == [errors[0]] + errors[1..];
      }
      ClientErrorsWords(errors[1..], words - {w});
      ClientErrorsWords(errors[1..], words);
      if w in words {
        var rest := ClientErrors(errors[1..], words - {w});
        assert ErrorWords([errors[0]] + rest) == {w} + ErrorWords(rest);
      }
    }
  }

  lemma ErrorWordsSplit(calls: seq<Call>)
    ensures ErrorWords(WordErrors(calls)) == FailedAdds(calls) + FailedDeletes(calls)
  {
  }

  /** Afterwards the loaded words are those still wanted and those whose delete failed, and nothing else. */
  lemma SyncedLoads(v: WordView, calls: seq<Call>, order: seq<nat>, v': WordView)
    requires Synced(v, calls, order, v')
    ensures v'.loaded == Wanted(v'.shadow) + FailedDeletes(calls)
    ensures Wanted(v'.shadow) == Wanted(v.shadow) - FailedAdds(calls)
    ensures Wanted(v'.shadow) !! FailedDeletes(calls)
  {
    forall w ensures w in Wanted(v'.shadow) <==> w in Wanted(v.shadow) - FailedAdds(calls) {
      if w in Wanted(v.shadow) - FailedAdds(calls) {
        var c :| c in v.shadow && w in v.shadow[c].words;
        assert c in v'.shadow && w in v'.shadow[c].words;
      }
    }
  }

  /**
   * Every client with an entry is answered once, and told of exactly those of its words that could not
   * be added: each failed add reaches every client that wanted it, a failed delete reaches nobody.
   */
  lemma SyncedReports(v: WordView, calls: seq<Call>, order: seq<nat>, v': WordView, i: nat)
    requires Synced(v, calls, order, v') && i < |order|
    ensures order[i] in v.shadow && |v.sent| + i < |v'.sent|
    ensures var s, reply := v.shadow[order[i]], v'.sent[|v.sent| + i];
      && reply.Send? && reply.client == order[i] && reply.tid == s.lastTid && reply.msg.WordResult?
      && ErrorWords(reply.msg.wordErrors) == s.words * FailedAdds(calls)
      && reply.msg.status == (if s.words * FailedAdds(calls) == {} then Success else Failed)
      && (forall e :: e in reply.msg.wordErrors ==> !e.kind.DeleteFailed?)
  {
    assert order[i] in order;
    var s := v.shadow[order[i]];
    var mine := ClientErrors(WordErrors(calls), s.words);
    ClientErrorsWords(WordErrors(calls), s.words);
    ErrorWordsSplit(calls);
    assert s.words <= Wanted(v.shadow);
    assert s.words * (FailedAdds(calls) + FailedDeletes(calls)) == s.words * FailedAdds(calls);
    assert v'.sent[|v.sent| + i] == WordReply(order[i], s, WordErrors(calls));
    assert ErrorWords(mine) == s.words * FailedAdds(calls);
    assert mine != [] ==> mine[0].word in ErrorWords(mine);
    assert mine == [] ==> ErrorWords(mine) == {};
    forall e | e in mine ensures !e.kind.DeleteFailed? {
      assert e.word in ErrorWords(mine);
      assert e.kind.DeleteFailed? ==> e.word in FailedDeletes(calls);
    }
  }

  lemma ErrorWordsNext(errors: seq<WordError>, i: nat)
    requires i < |errors|
    ensures ErrorWords(errors[..i + 1]) == ErrorWords(errors[..i]) + {errors[i].word}
  {
    assert errors[..i + 1] == errors[..i] + [errors[i]];
  }

  lemma NoReplies(shadow: map<nat, WordState>, errors: seq<WordError>)
    ensures WordReplies([], shadow, errors) == []
  {
  }

  lemma RepliesNext(order: seq<nat>, c: nat, shadow: map<nat, WordState>, errors: seq<WordError>)
    requires forall d :: d in order ==> d in shadow
    requires c in shadow
    ensures forall d :: d in order + [c] ==> d in shadow
    ensures WordReplies(order + [c], shadow, errors)
            == WordReplies(order, shadow, errors) + [WordReply(c, shadow[c], errors)]
  {
  }

  lemma WordReplyIs(client: nat, state: WordState, errors: seq<WordError>)
    ensures var mine := ClientErrors(errors, state.words);
      WordReply(client, state, errors)
          == Send(WordResult(if mine == [] then Success else Failed, mine), state.lastTid, client)
  {
  }

  lemma WantedNone()
    ensures Wanted(map[]) == {}
  {
  }

  lemma WantedNext(shadow: map<nat, WordState>, todo: set<nat>, client: nat)
    requires client in shadow && client in todo
    ensures Wanted(shadow - (todo - {client})) == Wanted(shadow - todo) + shadow[client].words
  {
    var a, b := shadow - todo, shadow - (todo - {client});
    forall w ensures w in Wanted(b) <==> w in Wanted(a) + shadow[client].words {
      if w in Wanted(b) {
        var c :| c in b && w in b[c].words;
        assert c != client ==> c in a && w in a[c].words;
      }
      if w in Wanted(a) {
        var c :| c in a && w in a[c].words;
        assert c in b && w in b[c].words;
      }
      if w in shadow[client].words {
        assert client in b && w in b[client].words;
      }
    }
  }

  lemma MarkedAll(shadow: map<nat, WordState>)
    ensures Marked(shadow, shadow.Keys) == shadow
  {
  }

  lemma MarkedStep(shadow: map<nat, WordState>, todo: set<nat>, client: nat)
    requires client in shadow && client in todo
    ensures client in Marked(shadow, todo) && Marked(shadow, todo)[client] == shadow[client]
    ensures Marked(shadow, todo - {client}) == Marked(shadow, todo)[client := shadow[client].(synced := true)]
  {
  }

  lemma CleanedAll(shadow: map<nat, WordState>, failed: set<CStr>)
    ensures Cleaned(shadow, shadow.Keys, failed) == shadow
  {
  }

  lemma CleanedStep(shadow: map<nat, WordState>, todo: set<nat>, client: nat, failed: set<CStr>)
    requires client in shadow && client in todo
    ensures client in Cleaned(shadow, todo, failed) && Cleaned(shadow, todo, failed)[client] == shadow[client]
    ensures Cleaned(shadow, todo - {client}, failed)
         == Cleaned(shadow, todo, failed)[client := shadow[client].(words := shadow[client].words - failed)]
  {
  }

  /** Marking the entries synced and then taking the failed words out is what `Synced` describes. */
  lemma SyncedFrom(shadow: map<nat, WordState>, calls: seq<Call>, loaded: set<CStr>, order: seq<nat>)
    requires FailedDeletes(calls) <= loaded - Wanted(shadow)
    requires Enumerates(order, Marked(shadow, {}).Keys)
    ensures var marked := Marked(shadow, {});
      && marked.Keys == shadow.Keys
      && Cleaned(marked, {}, ErrorWords(WordErrors(calls))) == Survivors(shadow, FailedAdds(calls))
      && WordReplies(order, marked, WordErrors(calls)) == WordReplies(order, shadow, WordErrors(calls))
  {
    ErrorWordsSplit(calls);
    forall c | c in shadow
      ensures shadow[c].words - ErrorWords(WordErrors(calls)) == shadow[c].words - FailedAdds(calls)
    {
      assert shadow[c].words <= Wanted(shadow);
    }
  }

  // -- two steps and more ------------------------------------------------------------------------------

  /** A second sync with nothing new validates and adds nothing, and only retries the failed deletes. */
  lemma ResyncIsQuiet(v: WordView, calls: seq<Call>, order: seq<nat>, v': WordView,
                      calls': seq<Call>, order': seq<nat>, v'': WordView)
    requires Synced(v, calls, order, v') && Synced(v', calls', order', v'')
    ensures CallsOnly(calls', {}, FailedDeletes(calls))
    ensures v''.shadow == v'.shadow
  {
    SyncedLoads(v, calls, order, v');
    assert Wanted(v'.shadow) - v'.loaded == {};
    assert v'.loaded - Wanted(v'.shadow) == FailedDeletes(calls);
    forall c | c in v'.shadow ensures v''.shadow[c] == v'.shadow[c] {
      assert v'.shadow[c].words - {} == v'.shadow[c].words;
    }
  }
}
