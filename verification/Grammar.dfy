/** One live grammar and the calls that drive the engine from its recorded state to a requested one. */
module Grammars {
  import opened Bytes
  import opened Packing
  import opened EngineModel

  type Lists = map<string, set<CStr>>

  /** A queued desired state. `Withdraw` is the unload queued for a client that has disconnected; nobody
      asked for it, and its transaction id is whatever was in memory. */
  datatype Request =
    | Set(client: nat, tid: nat, blob: seq<byte>, rules: set<string>, lists: Lists)
    | Unload(client: nat, tid: nat)
    | Withdraw(client: nat, tid: nat)

  datatype ErrorKind = LoadFailed | CallbackFailed(cb: Callback) | ActivateFailed | DeactivateFailed | ListFailed

  datatype GrammarError = GrammarError(kind: ErrorKind, rc: int, subject: string)

  /** The recorded state of a live grammar. */
  datatype Live = Live(
    blob: seq<byte>, rules: set<string>, lists: Lists, client: nat, tid: nat,
    handle: Handle, enabled: bool, endKey: nat, hypoKey: nat, beginKey: nat)
  {
    /** The callbacks the record says are registered, by the keys it has for them. */
    function Callbacks(): map<nat, Callback> {
      map[endKey := EndPhrase, hypoKey := Hypothesis, beginKey := BeginPhrase]
    }

    function Keys(): set<nat> {
      {endKey, hypoKey, beginKey}
    }
  }

  /** What a list may be: its packed form fits a `uint32_t` size, in whatever order it is packed. */
  ghost predicate Enumerates<T(!new)>(xs: seq<T>, s: set<T>) {
    && |xs| == |s|
    && (forall x :: x in xs <==> x in s)
  }

  ghost predicate Packable(list: set<CStr>) {
    forall ws: seq<CStr> :: Enumerates(ws, list) ==> |Pack(ws)| < TWO32
  }

  /** The requests the message handler lets through. */
  ghost predicate ValidRequest(r: Request) {
    r.Set? ==> r.blob != [] && forall k :: k in r.lists ==> Packable(r.lists[k])
  }

  /** The least an array of strings takes in a message: for each its type, a key of one digit or more, its length,
      its bytes and two NULs. */
  function ArraySize(words: seq<CStr>): nat {
    if words == [] then 0 else |words[0]| + 8 + ArraySize(words[1..])
  }

  lemma {:induction false} ArraySizeWithout(words: seq<CStr>, i: nat)
    requires i < |words|
    ensures ArraySize(words) == |words[i]| + 8 + ArraySize(words[..i] + words[i + 1..])
  {
    if i > 0 {
      ArraySizeWithout(words[1..], i - 1);
      assert words[1..][..i - 1] + words[1..][i..] == (words[..i] + words[i + 1..])[1..];
    } else {
      assert words[..0] + words[1..] == words[1..];
    }
  }

  lemma {:induction false} PacksSmaller(words: seq<CStr>, arrived: seq<CStr>)
    requires forall i, j :: 0 <= i < j < |words| ==> words[i] != words[j]
    requires forall w :: w in words ==> w in arrived
    ensures 2 * |Pack(words)| <= 3 * ArraySize(arrived)
  {
    if words != [] {
      assert words[0] in words;
      var i :| 0 <= i < |arrived| && arrived[i] == words[0];
      ArraySizeWithout(arrived, i);
      forall w | w in words[1..] ensures w in arrived[..i] + arrived[i + 1..] {
        assert w in words && w != words[0];
      }
      PacksSmaller(words[1..], arrived[..i] + arrived[i + 1..]);
    }
  }

  lemma {:induction false} ElementsAtMost<T>(xs: seq<T>, s: set<T>)
    requires forall x :: x in s ==> x in xs
    ensures |s| <= |xs|
    decreases |xs|
  {
    if xs == [] {
      assert s == {};
    } else {
      ElementsAtMost(xs[1..], s - {xs[0]});
    }
  }

  /** An enumeration repeats nothing. */
  lemma EnumeratesOnce<T(!new)>(xs: seq<T>, s: set<T>, i: nat, j: nat)
    requires Enumerates(xs, s) && i < j < |xs|
    ensures xs[i] != xs[j]
  {
    if xs[i] == xs[j] {
      var ys := xs[..i] + xs[i + 1..];
      forall x | x in s ensures x in ys {
        var k :| 0 <= k < |xs| && xs[k] == x;
        assert k < i ==> ys[k] == x;
        assert k > i ==> ys[k - 1] == x;
        assert ys[j - 1] == xs[j];
      }
      ElementsAtMost(ys, s);
    }
  }

  /** A list that arrived as a BSON array, whose length is a signed 32-bit number, can be packed. */
  lemma ArrivedListIsPackable(arrived: seq<CStr>, list: set<CStr>)
    requires ArraySize(arrived) < 0x8000_0000 && list == set w | w in arrived
    ensures Packable(list)
  {
    forall words: seq<CStr> | Enumerates(words, list) ensures |Pack(words)| < TWO32 {
      forall i, j | 0 <= i < j < |words| ensures words[i] != words[j] {
        EnumeratesOnce(words, list, i, j);
      }
      PacksSmaller(words, arrived);
    }
  }

  // -- agreement between the record and the engine --------------------------------------------------

  /** The engine, reading its bytes entry by entry, finds each word of the list once. */
  ghost predicate Listed(bytes: seq<byte>, list: set<CStr>) {
    Unpack(bytes).Some? && Enumerates(Unpack(bytes).value, list)
  }

  ghost predicate ListsMirror(l: Lists, e: map<string, seq<byte>>) {
    l.Keys == e.Keys && forall k :: k in l ==> Listed(e[k], l[k])
  }

  ghost predicate Mirrors(l: Live, h: Loaded) {
    && h.blob == l.blob
    && h.rules == l.rules
    && ListsMirror(l.lists, h.lists)
    && h.callbacks == l.Callbacks()
  }

  /** The engine's lists have moved exactly where the recorded lists have. */
  ghost predicate ListDelta(l0: Lists, l1: Lists, e0: map<string, seq<byte>>, e1: map<string, seq<byte>>) {
    && l0.Keys <= l1.Keys
    && (forall k :: Moved(l0, l1, k) ==> k in e1 && Listed(e1[k], l1[k]))
    && (forall k :: !Moved(l0, l1, k) ==> (k in e0 <==> k in e1) && (k in e0 ==> e1[k] == e0[k]))
  }

  ghost predicate Moved(l0: Lists, l1: Lists, k: string) {
    k in l1 && (k in l0 ==> l0[k] != l1[k])
  }

  lemma ListDeltaMirrors(l0: Lists, l1: Lists, e0: map<string, seq<byte>>, e1: map<string, seq<byte>>)
    requires ListDelta(l0, l1, e0, e1) && ListsMirror(l0, e0)
    ensures ListsMirror(l1, e1)
  {
    forall k ensures k in l1 <==> k in e1 {
      if Moved(l0, l1, k) {
      } else {
        assert k in l1 ==> k in l0;
      }
    }
    forall k | k in l1 ensures Listed(e1[k], l1[k]) {
      if !Moved(l0, l1, k) {
        assert l0[k] == l1[k] && e1[k] == e0[k];
      }
    }
  }

  /** The rule set after the same additions and removals that take `a` to `b`. */
  function Shift(rules: set<string>, a: set<string>, b: set<string>): set<string> {
    (rules + (b - a)) - (a - b)
  }

  // -- which calls count as errors of a grammar ------------------------------------------------------

  function Failure(kind: ErrorKind, rc: int, subject: string): seq<GrammarError> {
    if rc == 0 then [] else [GrammarError(kind, rc, subject)]
  }

  function ErrorOf(name: string, c: Call): seq<GrammarError> {
    match c
    case LoadGrammar(rc) => Failure(LoadFailed, rc, name)
    case Register(_, cb, rc) => Failure(CallbackFailed(cb), rc, name)
    case Activate(_, rule, rc) => Failure(ActivateFailed, rc, rule)
    case Deactivate(_, rule, rc) => Failure(DeactivateFailed, rc, rule)
    case SetList(_, list, rc) => Failure(ListFailed, rc, list)
    case _ => []
  }

  function ErrorsOf(name: string): Call -> seq<GrammarError> {
    c => ErrorOf(name, c)
  }

  /** One error for each load, registration, rule or list call that failed between two points of the
      call history, in call order; none for an unload call. */
  function ErrorsSince(name: string, before: seq<Call>, after: seq<Call>): seq<GrammarError>
    requires before <= after
  {
    Concat(ErrorsOf(name), after[|before|..])
  }

  lemma ErrorsSplit(name: string, a: seq<Call>, b: seq<Call>, c: seq<Call>)
    requires a <= b <= c
    ensures ErrorsSince(name, a, c) == ErrorsSince(name, a, b) + ErrorsSince(name, b, c)
  {
    assert c[|a|..] == b[|a|..] + c[|b|..];
    ConcatAppend(ErrorsOf(name), b[|a|..], c[|b|..]);
  }

  lemma ErrorsNext(name: string, a: seq<Call>, b: seq<Call>, c: Call)
    requires a <= b
    ensures a <= b + [c] && ErrorsSince(name, a, b + [c]) == ErrorsSince(name, a, b) + ErrorOf(name, c)
  {
    ErrorsSplit(name, a, b, b + [c]);
    assert (b + [c])[|b|..] == [c];
    assert Concat(ErrorsOf(name), [c]) == ErrorOf(name, c) + Concat(ErrorsOf(name), []);
  }

  // -- whether an unload went well, as the call history shows it --------------------------------------

  predicate FailedUnload(c: Call) {
    (c.Unregister? || c.Destroy?) && c.rc != 0
  }

  ghost predicate NoFailedUnload(calls: seq<Call>) {
    forall c :: c in calls ==> !FailedUnload(c)
  }

  ghost predicate UnloadsWentWell(a: seq<Call>, b: seq<Call>) {
    a <= b && NoFailedUnload(b[|a|..])
  }

  lemma WellNext(a: seq<Call>, b: seq<Call>, c: Call)
    requires a <= b
    ensures a <= b + [c] && (UnloadsWentWell(a, b + [c]) <==> UnloadsWentWell(a, b) && !FailedUnload(c))
    ensures UnloadsWentWell(b, b + [c]) <==> !FailedUnload(c)
  {
    assert (b + [c])[|a|..] == b[|a|..] + [c] && (b + [c])[|b|..] == [c];
  }

  lemma WellNone(a: seq<Call>)
    ensures UnloadsWentWell(a, a)
  {
  }

  lemma WellPrefix(a: seq<Call>, b: seq<Call>)
    requires UnloadsWentWell(a, b)
    ensures a <= b
  {
  }

  lemma WellJoin(a: seq<Call>, b: seq<Call>, c: seq<Call>)
    requires a <= b <= c
    ensures UnloadsWentWell(a, c) <==> UnloadsWentWell(a, b) && UnloadsWentWell(b, c)
  {
    assert c[|a|..] == b[|a|..] + c[|b|..];
  }

  // -- the grammar object --------------------------------------------------------------------------

  class Grammar {
    const name: string
    var blob: seq<byte>
    var activeRules: set<string>
    var lists: Lists
    var clientId: nat
    var tid: nat
    var handle: Handle
    var enabled: bool
    var endKey: nat
    var hypoKey: nat
    var beginKey: nat
    var errors: seq<GrammarError>

    /** The client and transaction of a grammar that was never synced are whatever was in memory. */
    constructor (name: string)
      ensures this.name == name && errors == []
      ensures !enabled && handle == 0 && blob == [] && activeRules == {} && lists == map[]
    {
      this.name, errors, enabled, handle := name, [], false, 0;
      blob, activeRules, lists := [], {}, map[];
      endKey, hypoKey, beginKey := 0, 0, 0;
      clientId, tid := *, *;
    }

    ghost function View(): Live
      reads `blob, `activeRules, `lists, `clientId, `tid, `handle, `enabled, `endKey, `hypoKey, `beginKey
    {
      Live(blob, activeRules, lists, clientId, tid, handle, enabled, endKey, hypoKey, beginKey)
    }

    method RecordError(kind: ErrorKind, rc: int, subject: string)
      modifies `errors
      ensures errors == old(errors) + [GrammarError(kind, rc, subject)]
    {
      errors := errors + [GrammarError(kind, rc, subject)];
    }
  }

  /** An enabled grammar is loaded, and every callback the engine has for it is one it can unregister. */
  ghost predicate Attached(l: Live, handles: map<Handle, Loaded>) {
    l.enabled ==> l.handle in handles && handles[l.handle].callbacks.Keys <= l.Keys()
  }

  // -- unload_grammar and load_grammar --------------------------------------------------------------

  ghost predicate OthersSame(h: Handle, a: map<Handle, Loaded>, b: map<Handle, Loaded>) {
    && (forall k :: k != h ==> (k in a <==> k in b))
    && (forall k :: k != h && k in a ==> b[k] == a[k])
  }

  lemma OthersJoin(h: Handle, a: map<Handle, Loaded>, b: map<Handle, Loaded>, c: map<Handle, Loaded>)
    requires OthersSame(h, a, b) && OthersSame(h, b, c)
    ensures OthersSame(h, a, c)
  {
  }

  lemma OthersAfter(h: Handle, a: map<Handle, Loaded>, b: map<Handle, Loaded>)
    requires b == a - {h} || (h in b && b == a[h := b[h]])
    ensures OthersSame(h, a, b)
  {
  }

  /** The grammar's errors are those of the calls since its synchronisation began. */
  ghost predicate Recorded(e: Engine, g: Grammar, since: seq<Call>)
    reads e`calls, g`errors
  {
    since <= e.calls && g.errors == ErrorsSince(g.name, since, e.calls)
  }

  method UnregisterCallback(e: Engine, g: Grammar, key: nat, ghost since: seq<Call>) returns (rc: int)
    requires g.handle in e.handles && since <= e.calls
    modifies e`handles, e`calls, e`unloadFaults
    ensures since <= e.calls && ErrorsSince(g.name, since, e.calls) == ErrorsSince(g.name, since, old(e.calls))
    ensures old(e.calls) <= e.calls && (rc == 0 <==> UnloadsWentWell(old(e.calls), e.calls))
    ensures OthersSame(g.handle, old(e.handles), e.handles) && g.handle in e.handles
    ensures rc == 0 ==>
      && e.handles[g.handle] == old(e.handles[g.handle]).(callbacks := old(e.handles[g.handle]).callbacks - {key})
      && e.unloadFaults == old(e.unloadFaults)
    ensures rc != 0 ==>
      && e.handles[g.handle] == old(e.handles[g.handle]).(faulted := true)
      && e.unloadFaults == old(e.unloadFaults) + 1
  {
    rc := e.Unregister(g.handle, key);
    ErrorsNext(g.name, since, old(e.calls), Call.Unregister(g.handle, key, rc));
    WellNext(since, old(e.calls), Call.Unregister(g.handle, key, rc));
  }

  /** An unload that fails half-way leaves the grammar loaded with some callbacks gone. */
  method UnloadGrammar(e: Engine, g: Grammar, ghost since: seq<Call>) returns (rc: int)
    requires g.handle in e.handles && e.handles[g.handle].callbacks.Keys <= g.View().Keys() && since <= e.calls
    modifies g`blob, g`activeRules, g`lists, g`enabled, e`handles, e`calls, e`unloadFaults
    ensures since <= e.calls && ErrorsSince(g.name, since, e.calls) == ErrorsSince(g.name, since, old(e.calls))
    ensures old(e.calls) <= e.calls && (rc == 0 <==> UnloadsWentWell(old(e.calls), e.calls))
    ensures OthersSame(g.handle, old(e.handles), e.handles)
    ensures rc == 0 ==>
      && g.handle !in e.handles
      && e.unloadFaults == old(e.unloadFaults)
      && g.blob == [] && g.activeRules == {} && g.lists == map[] && !g.enabled
    ensures rc != 0 ==>
      && e.unloadFaults == old(e.unloadFaults) + 1
      && unchanged(g)
      && g.handle in e.handles
      && e.handles[g.handle].callbacks.Keys <= old(e.handles[g.handle]).callbacks.Keys
      && e.handles[g.handle] == old(e.handles[g.handle]).(callbacks := e.handles[g.handle].callbacks, faulted := true)
  {
    hide ErrorsSince, OthersSame, UnloadsWentWell;
    ghost var a, calls := e.handles, e.calls;
    rc := UnregisterCallback(e, g, g.endKey, since);
    if rc != 0 { return; }
    ghost var b, calls1 := e.handles, e.calls;
    rc := UnregisterCallback(e, g, g.hypoKey, since);
    OthersJoin(g.handle, a, b, e.handles);
    WellJoin(calls, calls1, e.calls);
    if rc != 0 { return; }
    ghost var c, calls2 := e.handles, e.calls;
    rc := UnregisterCallback(e, g, g.beginKey, since);
    OthersJoin(g.handle, a, c, e.handles);
    WellJoin(calls, calls2, e.calls);
    if rc != 0 { return; }
    ghost var d, calls3 := e.handles, e.calls;
    rc := e.Destroy(g.handle);
    ErrorsNext(g.name, since, calls3, Call.Destroy(g.handle, rc));
    WellNext(calls, calls3, Call.Destroy(g.handle, rc));
    OthersAfter(g.handle, d, e.handles);
    OthersJoin(g.handle, a, d, e.handles);
    if rc != 0 { return; }
    g.activeRules, g.lists, g.blob, g.enabled := {}, map[], [], false;
  }

  method RegisterCallback(e: Engine, g: Grammar, kind: Callback, ghost since: seq<Call>)
    returns (rc: int, key: nat)
    requires g.handle in e.handles && Recorded(e, g, since)
    modifies e`handles, e`calls, g`errors
    ensures Recorded(e, g, since) && UnloadsWentWell(old(e.calls), e.calls)
    ensures g.errors == old(g.errors) + Failure(CallbackFailed(kind), rc, g.name)
    ensures OthersSame(g.handle, old(e.handles), e.handles) && g.handle in e.handles
    ensures rc == 0 ==>
      && key !in old(e.handles[g.handle]).callbacks
      && e.handles[g.handle] == old(e.handles[g.handle]).(callbacks := old(e.handles[g.handle]).callbacks[key := kind])
    ensures rc != 0 ==> e.handles[g.handle] == old(e.handles[g.handle]).(faulted := true)
  {
    rc, key := e.Register(g.handle, kind);
    ErrorsNext(g.name, since, old(e.calls), Call.Register(g.handle, kind, rc));
    WellNext(since, old(e.calls), Call.Register(g.handle, kind, rc));
    if rc != 0 {
      g.RecordError(CallbackFailed(kind), rc, g.name);
    }
  }

  method RegisterCallbacks(e: Engine, g: Grammar, ghost since: seq<Call>) returns (rc: int)
    requires g.handle in e.handles && e.handles[g.handle].callbacks == map[] && Recorded(e, g, since)
    modifies g`endKey, g`hypoKey, g`beginKey, g`enabled, g`errors, e`handles, e`calls
    ensures Recorded(e, g, since) && UnloadsWentWell(old(e.calls), e.calls)
    ensures rc == 0 <==> g.errors == old(g.errors)
    ensures OthersSame(g.handle, old(e.handles), e.handles) && g.handle in e.handles
    ensures g.enabled == (rc == 0 || old(g.enabled))
    ensures e.handles[g.handle] == old(e.handles[g.handle]).(callbacks := e.handles[g.handle].callbacks,
                                                             faulted := rc != 0 || old(e.handles[g.handle]).faulted)
    ensures e.handles[g.handle].callbacks.Keys <= g.View().Keys()
    ensures rc == 0 ==> e.handles[g.handle].callbacks == g.View().Callbacks()
  {
    hide Recorded, OthersSame, NoFailedUnload;
    var key;
    ghost var a, calls := e.handles, e.calls;
    rc, key := RegisterCallback(e, g, EndPhrase, since);
    if rc != 0 { return; }
    g.endKey := key;
    ghost var b, calls1 := e.handles, e.calls;
    rc, key := RegisterCallback(e, g, Hypothesis, since);
    OthersJoin(g.handle, a, b, e.handles);
    WellJoin(calls, calls1, e.calls);
    if rc != 0 { return; }
    g.hypoKey := key;
    ghost var c, calls2 := e.handles, e.calls;
    rc, key := RegisterCallback(e, g, BeginPhrase, since);
    OthersJoin(g.handle, a, c, e.handles);
    WellJoin(calls, calls2, e.calls);
    if rc != 0 { return; }
    g.beginKey := key;
    g.enabled := true;
  }

  /** On failure either nothing was loaded, or the new handle is left with a registration missing. */
  method LoadGrammar(e: Engine, g: Grammar, blob: seq<byte>, ghost since: seq<Call>) returns (rc: int)
    requires Recorded(e, g, since)
    modifies g`blob, g`handle, g`endKey, g`hypoKey, g`beginKey, g`enabled, g`errors, e`handles, e`calls
    ensures Recorded(e, g, since) && UnloadsWentWell(old(e.calls), e.calls)
    ensures rc == 0 <==> g.errors == old(g.errors)
    ensures rc == 0 ==>
      && g.enabled && g.handle != 0 && g.handle !in old(e.handles) && g.blob == blob
      && OthersSame(g.handle, old(e.handles), e.handles)
      && g.handle in e.handles && e.handles[g.handle] == Loaded(blob, {}, map[], g.View().Callbacks(), false)
    ensures rc != 0 ==>
      && g.enabled == old(g.enabled)
      && (|| (e.handles == old(e.handles)
              && unchanged(g`blob) && unchanged(g`handle)
              && unchanged(g`endKey) && unchanged(g`hypoKey) && unchanged(g`beginKey))
          || (&& g.handle != 0 && g.handle !in old(e.handles)
              && OthersSame(g.handle, old(e.handles), e.handles)
              && g.handle in e.handles && e.handles[g.handle].faulted
              && e.handles[g.handle].callbacks.Keys <= g.View().Keys()))
  {
    var h;
    rc, h := e.LoadGrammar(blob);
    ErrorsNext(g.name, since, old(e.calls), Call.LoadGrammar(rc));
    WellNext(since, old(e.calls), Call.LoadGrammar(rc));
    ghost var calls := e.calls;
    if rc != 0 {
      g.RecordError(LoadFailed, rc, g.name);
    } else {
      g.handle, g.blob := h, blob;
      rc := RegisterCallbacks(e, g, since);
      WellJoin(old(e.calls), calls, e.calls);
    }
  }

  // -- sync_rules ------------------------------------------------------------------------------------

  /** Only the rules of the grammar's handle have moved in the engine. */
  ghost predicate RulesMoved(h: Handle, a: map<Handle, Loaded>, b: map<Handle, Loaded>) {
    OthersSame(h, a, b) && h in a && h in b && b[h] == a[h].(rules := b[h].rules)
  }

  /** Every call between two points of the history touches one of these rules of `h`. */
  ghost predicate RuleCalls(h: Handle, on: set<string>, off: set<string>, a: seq<Call>, b: seq<Call>) {
    && a <= b
    && forall i :: |a| <= i < |b| ==>
         || (b[i].Activate? && b[i].handle == h && b[i].rule in on)
         || (b[i].Deactivate? && b[i].handle == h && b[i].rule in off)
  }

  method ActivateRule(e: Engine, g: Grammar, rule: string, ghost since: seq<Call>)
    requires g.handle in e.handles && Recorded(e, g, since)
    modifies g`activeRules, g`errors, e`handles, e`calls
    ensures Recorded(e, g, since)
    ensures RulesMoved(g.handle, old(e.handles), e.handles)
    ensures RuleCalls(g.handle, {rule}, {}, old(e.calls), e.calls)
    ensures old(g.errors) <= g.errors
    ensures g.errors == old(g.errors) ==>
      && g.activeRules == old(g.activeRules) + {rule}
      && e.handles[g.handle].rules == old(e.handles[g.handle]).rules + {rule}
    ensures g.errors != old(g.errors) ==>
      g.activeRules == old(g.activeRules) && e.handles == old(e.handles)
  {
    var rc := e.Activate(g.handle, rule);
    ErrorsNext(g.name, since, old(e.calls), Call.Activate(g.handle, rule, rc));
    if rc != 0 {
      g.RecordError(ActivateFailed, rc, rule);
      return;
    }
    g.activeRules := g.activeRules + {rule};
  }

  method DeactivateRule(e: Engine, g: Grammar, rule: string, ghost since: seq<Call>)
    requires g.handle in e.handles && Recorded(e, g, since)
    modifies g`activeRules, g`errors, e`handles, e`calls
    ensures Recorded(e, g, since)
    ensures RulesMoved(g.handle, old(e.handles), e.handles)
    ensures RuleCalls(g.handle, {}, {rule}, old(e.calls), e.calls)
    ensures old(g.errors) <= g.errors
    ensures g.errors == old(g.errors) ==>
      && g.activeRules == old(g.activeRules) - {rule}
      && e.handles[g.handle].rules == old(e.handles[g.handle]).rules - {rule}
    ensures g.errors != old(g.errors) ==>
      g.activeRules == old(g.activeRules) && e.handles == old(e.handles)
  {
    var rc := e.Deactivate(g.handle, rule);
    ErrorsNext(g.name, since, old(e.calls), Call.Deactivate(g.handle, rule, rc));
    if rc != 0 {
      g.RecordError(DeactivateFailed, rc, rule);
      return;
    }
    g.activeRules := g.activeRules - {rule};
  }

  method EnableRules(e: Engine, g: Grammar, on: set<string>, ghost since: seq<Call>)
    requires g.handle in e.handles && Recorded(e, g, since)
    requires on !! g.activeRules
    modifies g`activeRules, g`errors, e`handles, e`calls
    ensures Recorded(e, g, since) && old(g.errors) <= g.errors
    ensures RulesMoved(g.handle, old(e.handles), e.handles)
    ensures RuleCalls(g.handle, on, {}, old(e.calls), e.calls)
    ensures old(g.activeRules) <= g.activeRules <= old(g.activeRules) + on
    ensures g.errors == old(g.errors) <==> g.activeRules == old(g.activeRules) + on
    ensures e.handles[g.handle].rules == old(e.handles[g.handle]).rules + (g.activeRules - old(g.activeRules))
  {
    var todo := on;
    while todo != {}
      invariant todo <= on
      invariant Recorded(e, g, since) && old(g.errors) <= g.errors
      invariant RulesMoved(g.handle, old(e.handles), e.handles)
      invariant RuleCalls(g.handle, on, {}, old(e.calls), e.calls)
      invariant old(g.activeRules) <= g.activeRules <= old(g.activeRules) + (on - todo)
      invariant g.errors == old(g.errors) <==> g.activeRules == old(g.activeRules) + (on - todo)
      invariant e.handles[g.handle].rules == old(e.handles[g.handle]).rules + (g.activeRules - old(g.activeRules))
      decreases todo
    {
      var rule :| rule in todo;
      ActivateRule(e, g, rule, since);
      todo := todo - {rule};
    }
  }

  method DisableRules(e: Engine, g: Grammar, off: set<string>, ghost since: seq<Call>)
    requires g.handle in e.handles && Recorded(e, g, since)
    requires off <= g.activeRules
    modifies g`activeRules, g`errors, e`handles, e`calls
    ensures Recorded(e, g, since) && old(g.errors) <= g.errors
    ensures RulesMoved(g.handle, old(e.handles), e.handles)
    ensures RuleCalls(g.handle, {}, off, old(e.calls), e.calls)
    ensures old(g.activeRules) - off <= g.activeRules <= old(g.activeRules)
    ensures g.errors == old(g.errors) <==> g.activeRules == old(g.activeRules) - off
    ensures e.handles[g.handle].rules == old(e.handles[g.handle]).rules - (old(g.activeRules) - g.activeRules)
  {
    var todo := off;
    while todo != {}
      invariant todo <= off
      invariant Recorded(e, g, since) && old(g.errors) <= g.errors
      invariant RulesMoved(g.handle, old(e.handles), e.handles)
      invariant RuleCalls(g.handle, {}, off, old(e.calls), e.calls)
      invariant old(g.activeRules) - (off - todo) <= g.activeRules <= old(g.activeRules)
      invariant g.errors == old(g.errors) <==> g.activeRules == old(g.activeRules) - (off - todo)
      invariant e.handles[g.handle].rules == old(e.handles[g.handle]).rules - (old(g.activeRules) - g.activeRules)
      decreases todo
    {
      var rule :| rule in todo;
      assert rule in g.activeRules;
      assert off - (todo - {rule}) == (off - todo) + {rule};
      DeactivateRule(e, g, rule, since);
      todo := todo - {rule};
    }
  }

  /** Whatever fails, the engine's rules move exactly as the recorded ones do. */
  method SyncRules(e: Engine, g: Grammar, want: set<string>, ghost since: seq<Call>)
    requires g.handle in e.handles && Recorded(e, g, since)
    modifies g`activeRules, g`errors, e`handles, e`calls
    ensures Recorded(e, g, since) && old(g.errors) <= g.errors
    ensures RulesMoved(g.handle, old(e.handles), e.handles)
    ensures RuleCalls(g.handle, want - old(g.activeRules), old(g.activeRules) - want, old(e.calls), e.calls)
    ensures g.errors == old(g.errors) <==> g.activeRules == want
    ensures e.handles[g.handle].rules == Shift(old(e.handles[g.handle]).rules, old(g.activeRules), g.activeRules)
  {
    var on := want - g.activeRules;
    var off := g.activeRules - want;
    EnableRules(e, g, on, since);
    DisableRules(e, g, off, since);
  }

  // -- set_list --------------------------------------------------------------------------------------

  ghost predicate ListsMoved(h: Handle, a: map<Handle, Loaded>, b: map<Handle, Loaded>) {
    OthersSame(h, a, b) && h in a && h in b && b[h] == a[h].(lists := b[h].lists)
  }

  ghost predicate ListCalls(h: Handle, names: set<string>, a: seq<Call>, b: seq<Call>) {
    && a <= b
    && forall i :: |a| <= i < |b| ==> b[i].SetList? && b[i].handle == h && b[i].list in names
  }

  /** The words of a `std::set`, each once; in which order does not matter to anything below. */
  method Enumerate(list: set<CStr>) returns (words: seq<CStr>)
    ensures Enumerates(words, list)
  {
    var todo := list;
    words := [];
    while todo != {}
      invariant todo <= list
      invariant Enumerates(words, list - todo)
      decreases todo
    {
      var w :| w in todo;
      words := words + [w];
      todo := todo - {w};
      assert list - todo == (list - (todo + {w})) + {w};
    }
    assert list - todo == list;
  }

  method SetList(e: Engine, g: Grammar, name: string, list: set<CStr>, ghost since: seq<Call>)
    requires g.handle in e.handles && Recorded(e, g, since) && Packable(list)
    modifies g`lists, g`errors, e`handles, e`calls
    ensures Recorded(e, g, since) && old(g.errors) <= g.errors
    ensures ListsMoved(g.handle, old(e.handles), e.handles)
    ensures ListCalls(g.handle, {name}, old(e.calls), e.calls)
    ensures g.errors == old(g.errors) ==>
      && g.lists == old(g.lists)[name := list]
      && name in e.handles[g.handle].lists && Listed(e.handles[g.handle].lists[name], list)
      && e.handles[g.handle].lists == old(e.handles[g.handle]).lists[name := e.handles[g.handle].lists[name]]
    ensures g.errors != old(g.errors) ==> g.lists == old(g.lists) && e.handles == old(e.handles)
  {
    var words := Enumerate(list);
    var dataptr := BuildDataptr(words);
    UnpackPack(words);
    var rc := e.SetList(g.handle, name, dataptr);
    ErrorsNext(g.name, since, old(e.calls), Call.SetList(g.handle, name, rc));
    if rc != 0 {
      g.RecordError(ListFailed, rc, name);
      return;
    }
    g.lists := g.lists[name := list];
  }

  /** The lists of the request that differ from the recorded ones. */
  function Differing(want: Lists, have: Lists): set<string> {
    set k | k in want && (k in have ==> have[k] != want[k])
  }

  /** The recorded lists after the requested ones were set, but for those whose call failed. */
  function Override(have: Lists, want: Lists, skip: set<string>): Lists {
    have + (want - skip)
  }

  lemma ListDeltaSet(l0: Lists, l1: Lists, e0: map<string, seq<byte>>, e1: map<string, seq<byte>>,
                     k: string, list: set<CStr>, bytes: seq<byte>)
    requires ListDelta(l0, l1, e0, e1) && Listed(bytes, list)
    requires k in l0 ==> l0[k] != list
    ensures ListDelta(l0, l1[k := list], e0, e1[k := bytes])
  {
    forall n ensures Moved(l0, l1[k := list], n) <==> n == k || Moved(l0, l1, n) {
    }
  }

  lemma OverrideNone(have: Lists, want: Lists)
    ensures Override(have, want, want.Keys) == have
  {
  }

  lemma OverrideStep(have: Lists, want: Lists, skip: set<string>, k: string)
    requires k in want && k in skip
    ensures k in Override(have, want, skip) <==> k in have
    ensures k in have ==> Override(have, want, skip)[k] == have[k]
    ensures Override(have, want, skip - {k}) == Override(have, want, skip)[k := want[k]]
  {
  }

  lemma OverrideIsFull(have: Lists, want: Lists, failed: set<string>)
    requires failed <= Differing(want, have)
    ensures Override(have, want, failed) == have + want <==> failed == {}
  {
    if k :| k in failed {
      assert k in (have + want) && (have + want)[k] == want[k];
      assert k in Override(have, want, failed) ==> Override(have, want, failed)[k] == have[k];
    }
  }

  /** Where a synchronisation of lists began. */
  datatype ListMark = ListMark(handles: map<Handle, Loaded>, calls: seq<Call>, lists: Lists)

  ghost predicate ListProgress(e: Engine, g: Grammar, m: ListMark, names: set<string>)
    reads e`calls, e`handles, g`handle, g`lists
  {
    && ListsMoved(g.handle, m.handles, e.handles)
    && ListCalls(g.handle, names, m.calls, e.calls)
    && ListDelta(m.lists, g.lists, m.handles[g.handle].lists, e.handles[g.handle].lists)
  }

  lemma ListStart(e: Engine, g: Grammar, names: set<string>)
    requires g.handle in e.handles
    ensures ListProgress(e, g, ListMark(e.handles, e.calls, g.lists), names)
  {
  }

  /** One list of the request: set in the engine only if it differs from the recorded one. */
  method SyncList(e: Engine, g: Grammar, k: string, list: set<CStr>, ghost m: ListMark, ghost names: set<string>,
                  ghost since: seq<Call>)
    requires g.handle in e.handles && Recorded(e, g, since) && Packable(list)
    requires ListProgress(e, g, m, names)
    requires (k in m.lists <==> k in g.lists) && (k in m.lists ==> m.lists[k] == g.lists[k])
    requires k in names <==> (k in g.lists ==> g.lists[k] != list)
    modifies g`lists, g`errors, e`handles, e`calls
    ensures Recorded(e, g, since) && old(g.errors) <= g.errors
    ensures g.handle in e.handles && ListProgress(e, g, m, names)
    ensures g.lists == if g.errors == old(g.errors) then old(g.lists)[k := list] else old(g.lists)
    ensures g.errors != old(g.errors) ==> k in names
  {
    if k !in g.lists || g.lists[k] != list {
      ghost var l1, e1 := g.lists, e.handles[g.handle].lists;
      SetList(e, g, k, list, since);
      if g.errors == old(g.errors) {
        ListDeltaSet(m.lists, l1, m.handles[g.handle].lists, e1, k, list, e.handles[g.handle].lists[k]);
      }
    }
  }

  /** Whatever fails, the engine's lists move exactly as the recorded ones do. */
  method SyncLists(e: Engine, g: Grammar, want: Lists, ghost since: seq<Call>)
    requires g.handle in e.handles && Recorded(e, g, since)
    requires forall k :: k in want ==> Packable(want[k])
    modifies g`lists, g`errors, e`handles, e`calls
    ensures Recorded(e, g, since) && old(g.errors) <= g.errors
    ensures ListProgress(e, g, ListMark(old(e.handles), old(e.calls), old(g.lists)), Differing(want, old(g.lists)))
    ensures g.errors == old(g.errors) <==> g.lists == old(g.lists) + want
  {
    hide ListProgress, Override, Recorded;
    ghost var m := ListMark(e.handles, e.calls, g.lists);
    ghost var names := Differing(want, g.lists);
    ListStart(e, g, names);
    OverrideNone(g.lists, want);
    var todo := want.Keys;
    ghost var left := todo;  // what is still to be set, and what could not be
    while todo != {}
      invariant g.handle in e.handles
      invariant todo <= left <= want.Keys && left - todo <= names
      invariant Recorded(e, g, since) && old(g.errors) <= g.errors
      invariant ListProgress(e, g, m, names)
      invariant g.lists == Override(m.lists, want, left)
      invariant g.errors == old(g.errors) <==> left == todo
      decreases todo
    {
      var k :| k in todo;
      OverrideStep(m.lists, want, left, k);
      ghost var errs := g.errors;
      SyncList(e, g, k, want[k], m, names, since);
      todo := todo - {k};
      if g.errors == errs {
        left := left - {k};
      }
    }
    OverrideIsFull(m.lists, want, left);
  }

  // -- sync_grammar ----------------------------------------------------------------------------------

  /** A grammar object that has not been loaded has nothing recorded. */
  ghost predicate Wellformed(l: Live, handles: map<Handle, Loaded>) {
    && Attached(l, handles)
    && (l.enabled ==> !handles[l.handle].faulted)
    && (!l.enabled ==> l.handle !in handles && l.blob == [] && l.rules == {} && l.lists == map[])
  }

  /**
   * How the handles of the engine change while one grammar goes from `pre` to `post`: nobody else's
   * are touched, and one that is left behind is one whose release or registration failed.
   */
  ghost predicate Accounted(pre: Live, a: map<Handle, Loaded>, post: Live, b: map<Handle, Loaded>) {
    && (forall h :: h in a && !(pre.enabled && h == pre.handle) ==> h in b && b[h] == a[h])
    && (forall h :: h in b && h != post.handle ==> h in a && (pre.enabled && h == pre.handle ==> b[h].faulted))
    && (post.handle in b && post.handle in a ==> pre.enabled && post.handle == pre.handle)
    && Attached(post, b)
    && (!post.enabled && post.handle in b ==> b[post.handle].faulted)
    && (0 !in a ==> 0 !in b)
  }

  method SyncBlob(e: Engine, g: Grammar, blob: seq<byte>, ghost since: seq<Call>) returns (rc: int)
    requires Recorded(e, g, since) && g.errors == [] && g.blob != blob
    requires Wellformed(g.View(), e.handles)
    modifies g, e`handles, e`calls, e`unloadFaults
    ensures Recorded(e, g, since)
    ensures rc == 0 <==> g.errors == []
    ensures Accounted(old(g.View()), old(e.handles), g.View(), e.handles)
    ensures e.unloadFaults == old(e.unloadFaults) && g.enabled ==> rc == 0
    ensures rc == 0 ==>
      && g.enabled && g.blob == blob && g.handle in e.handles
      && e.handles[g.handle] == Loaded(blob, {}, map[], g.View().Callbacks(), false)
      && (e.unloadFaults == old(e.unloadFaults) ==> g.activeRules == {} && g.lists == map[])
      && (e.unloadFaults != old(e.unloadFaults) ==> unchanged(g`activeRules) && unchanged(g`lists))
    ensures e.unloadFaults != old(e.unloadFaults) ==> old(g.enabled) && e.unloadFaults == old(e.unloadFaults) + 1
    ensures old(e.calls) <= e.calls
    ensures e.unloadFaults == old(e.unloadFaults) <==> UnloadsWentWell(old(e.calls), e.calls)
  {
    hide UnloadsWentWell;
    ghost var calls := e.calls;
    WellNone(calls);
    if g.enabled {
      // the result of the unload is not looked at
      var _ := UnloadGrammar(e, g, since);
    }
    assert g.errors == [];
    ghost var mid := e.calls;
    rc := LoadGrammar(e, g, blob, since);
    WellPrefix(mid, e.calls);
    WellJoin(calls, mid, e.calls);
  }

  /** Every call between two points of the history is about a rule or a list of `h` that differs. */
  ghost predicate DifferenceCalls(h: Handle, pre: Live, req: Request, a: seq<Call>, b: seq<Call>)
    requires req.Set?
  {
    && a <= b
    && forall i :: |a| <= i < |b| ==>
         || (b[i].Activate? && b[i].handle == h && b[i].rule in req.rules - pre.rules)
         || (b[i].Deactivate? && b[i].handle == h && b[i].rule in pre.rules - req.rules)
         || (b[i].SetList? && b[i].handle == h && b[i].list in Differing(req.lists, pre.lists))
  }

  lemma DifferencesUnloadNothing(h: Handle, pre: Live, req: Request, a: seq<Call>, b: seq<Call>)
    requires req.Set? && DifferenceCalls(h, pre, req, a, b)
    ensures UnloadsWentWell(a, b)
  {
    forall c | c in b[|a|..] ensures !FailedUnload(c) {
      var i :| 0 <= i < |b| - |a| && b[|a|..][i] == c;
      assert b[|a| + i] == c;
    }
  }

  ghost predicate ContentsMoved(pre: Live, a: map<Handle, Loaded>, post: Live, b: map<Handle, Loaded>) {
    && post.handle == pre.handle && post.blob == pre.blob && post.enabled == pre.enabled
    && post.Keys() == pre.Keys() && post.Callbacks() == pre.Callbacks()
    && OthersSame(pre.handle, a, b) && pre.handle in a && pre.handle in b
    && var x, y := a[pre.handle], b[pre.handle];
       && y == x.(rules := Shift(x.rules, pre.rules, post.rules), lists := y.lists)
       && ListDelta(pre.lists, post.lists, x.lists, y.lists)
  }

  lemma ContentsJoin(pre: Live, a: map<Handle, Loaded>, m: map<Handle, Loaded>, post: Live, b: map<Handle, Loaded>)
    requires post.handle == pre.handle && post.blob == pre.blob && post.enabled == pre.enabled
    requires post.Keys() == pre.Keys() && post.Callbacks() == pre.Callbacks()
    requires RulesMoved(pre.handle, a, m) && m[pre.handle].rules == Shift(a[pre.handle].rules, pre.rules, post.rules)
    requires ListsMoved(pre.handle, m, b) && ListDelta(pre.lists, post.lists, m[pre.handle].lists, b[pre.handle].lists)
    ensures ContentsMoved(pre, a, post, b)
  {
  }

  lemma CallsJoin(h: Handle, pre: Live, req: Request, a: seq<Call>, m: seq<Call>, b: seq<Call>)
    requires req.Set?
    requires RuleCalls(h, req.rules - pre.rules, pre.rules - req.rules, a, m)
    requires ListCalls(h, Differing(req.lists, pre.lists), m, b)
    ensures DifferenceCalls(h, pre, req, a, b)
  {
    forall i | |a| <= i < |b|
      ensures i < |m| ==> b[i] == m[i]
    {
    }
  }

  method SyncContents(e: Engine, g: Grammar, req: Request, ghost since: seq<Call>)
    requires req.Set? && ValidRequest(req)
    requires g.handle in e.handles && Recorded(e, g, since) && g.errors == []
    modifies g`activeRules, g`lists, g`clientId, g`tid, g`errors, e`handles, e`calls
    ensures Recorded(e, g, since)
    ensures ContentsMoved(old(g.View()), old(e.handles), g.View(), e.handles)
    ensures DifferenceCalls(g.handle, old(g.View()), req, old(e.calls), e.calls)
    ensures g.errors == [] <==> g.activeRules == req.rules && g.lists == old(g.lists) + req.lists
    ensures g.clientId == req.client && g.tid == req.tid
  {
    hide OthersSame, ListDelta, ListCalls, RuleCalls, DifferenceCalls;
    ghost var pre, a, calls := g.View(), e.handles, e.calls;
    if g.activeRules != req.rules {
      SyncRules(e, g, req.rules, since);
    }
    ghost var m, calls1, errs := e.handles, e.calls, g.errors;
    SyncLists(e, g, req.lists, since);
    g.clientId, g.tid := req.client, req.tid;
    ContentsJoin(pre, a, m, g.View(), e.handles);
    CallsJoin(g.handle, pre, req, calls, calls1, e.calls);
  }

  /** Rules and lists that move together stay in agreement, whichever of the calls failed. */
  lemma ContentsKeepMirror(pre: Live, a: map<Handle, Loaded>, post: Live, b: map<Handle, Loaded>)
    requires ContentsMoved(pre, a, post, b) && Mirrors(pre, a[pre.handle])
    ensures Mirrors(post, b[pre.handle])
  {
    ListDeltaMirrors(pre.lists, post.lists, a[pre.handle].lists, b[pre.handle].lists);
  }

  /** Nothing of a recorded state survives a reload: no rule is asked for again, and every list is replaced. */
  ghost predicate NothingCarriedOver(rules: set<string>, lists: Lists, req: Request)
    requires req.Set?
  {
    && rules !! req.rules
    && forall k :: k in lists ==> k in req.lists && req.lists[k] != lists[k]
  }

  /**
   * `stale` is a record that a failed unload did not clear, over a handle that was loaded afresh.
   * If every later call succeeds, the record agrees with the engine exactly when nothing carried over.
   */
  lemma StaleRecord(stale: Live, a: map<Handle, Loaded>, post: Live, b: map<Handle, Loaded>, req: Request)
    requires ReloadedOver(stale, a, post, b, req)
    ensures Mirrors(post, b[post.handle]) <==> NothingCarriedOver(stale.rules, stale.lists, req)
  {
    var y := b[post.handle];
    assert y.rules == req.rules - stale.rules;
    assert y.rules == post.rules <==> stale.rules !! req.rules by {
      if r :| r in stale.rules && r in req.rules {
        assert r !in y.rules;
      }
    }
    StaleLists(stale.lists, post.lists, y.lists, req);
  }

  /** A reload that went on over a failed unload, after which every call succeeded. */
  ghost predicate ReloadedOver(stale: Live, a: map<Handle, Loaded>, post: Live, b: map<Handle, Loaded>, req: Request) {
    && req.Set? && ContentsMoved(stale, a, post, b)
    && a[stale.handle] == Loaded(stale.blob, {}, map[], stale.Callbacks(), false)
    && post.rules == req.rules && post.lists == stale.lists + req.lists
  }

  lemma StaleLists(l0: Lists, l1: Lists, e1: map<string, seq<byte>>, req: Request)
    requires req.Set? && l1 == l0 + req.lists && ListDelta(l0, l1, map[], e1)
    ensures ListsMirror(l1, e1) <==> forall k :: k in l0 ==> k in req.lists && req.lists[k] != l0[k]
  {
    assert forall k :: k in e1 <==> Moved(l0, l1, k);
    if forall k :: k in l0 ==> k in req.lists && req.lists[k] != l0[k] {
      forall k ensures k in l1 <==> k in e1 {
        assert k in l1 ==> Moved(l0, l1, k);
      }
      assert l1.Keys == e1.Keys;
    } else {
      var k :| k in l0 && !(k in req.lists && req.lists[k] != l0[k]);
      assert k in l1.Keys && k !in e1.Keys;
    }
  }

  lemma ContentsKeepAccount(pre: Live, a: map<Handle, Loaded>, mid: Live, b: map<Handle, Loaded>,
                            post: Live, c: map<Handle, Loaded>)
    requires Accounted(pre, a, mid, b) && ContentsMoved(mid, b, post, c) && mid.enabled
    ensures Accounted(pre, a, post, c)
  {
  }

  lemma AccountStart(pre: Live, a: map<Handle, Loaded>)
    requires Wellformed(pre, a)
    ensures Accounted(pre, a, pre, a)
  {
  }

  /** Exactly the requested blob and rules, and the kept lists overridden by the requested ones. */
  ghost predicate Fulfils(kept: Lists, req: Request, post: Live)
    requires req.Set?
  {
    && post.enabled && post.blob == req.blob && post.rules == req.rules
    && post.lists == kept + req.lists
    && post.client == req.client && post.tid == req.tid
  }

  /** The lists a reload empties, unless the unload before it failed. */
  function KeptLists(pre: Live, req: Request, clean: bool): Lists
    requires req.Set?
  {
    if pre.blob == req.blob || !clean then pre.lists else map[]
  }

  /**
   * What synchronising a grammar does. `clean` says that no unload failed on the way. Then the engine
   * agrees with the record, even after an error. If one did fail, the reload has gone on over the old
   * record, and agreement is left to whether anything of that record carried over.
   */
  ghost predicate GrammarSynced(pre: Live, a: map<Handle, Loaded>, req: Request, post: Live, b: map<Handle, Loaded>,
                                clean: bool, errors: seq<GrammarError>)
    requires req.Set?
  {
    && Accounted(pre, a, post, b)
    && (errors == [] ==>
          Fulfils(KeptLists(pre, req, clean), req, post) && post.handle in b && !b[post.handle].faulted)
    && (clean && post.enabled && (pre.blob == req.blob ==> pre.handle in a && Mirrors(pre, a[pre.handle]))
        ==> Mirrors(post, b[post.handle]))
    && (!clean ==> pre.enabled && pre.blob != req.blob)
    && (!clean && errors == [] ==>
          (Mirrors(post, b[post.handle]) <==> NothingCarriedOver(pre.rules, pre.lists, req)))
  }

  /** Synchronise one grammar with a requested state; the caller removes it if there were errors. */
  method SyncGrammar(e: Engine, g: Grammar, req: Request)
    requires req.Set? && ValidRequest(req)
    requires Wellformed(g.View(), e.handles)
    modifies g, e`handles, e`calls, e`unloadFaults
    ensures Recorded(e, g, old(e.calls))
    ensures GrammarSynced(old(g.View()), old(e.handles), req, g.View(), e.handles,
                          e.unloadFaults == old(e.unloadFaults), g.errors)
    ensures e.unloadFaults == old(e.unloadFaults) || e.unloadFaults == old(e.unloadFaults) + 1
    ensures e.unloadFaults == old(e.unloadFaults) <==> UnloadsWentWell(old(e.calls), e.calls)
    // a grammar that keeps its blob is not reloaded, and only what differs is called for
    ensures old(g.View()).blob == req.blob ==>
      DifferenceCalls(old(g.View()).handle, old(g.View()), req, old(e.calls), e.calls)
  {
    hide Accounted, DifferenceCalls, UnloadsWentWell;
    ghost var since, start, a0 := e.calls, g.View(), e.handles;
    WellNone(since);
    g.errors := [];
    assert e.calls[|since|..] == [];
    AccountStart(start, a0);
    if g.blob != req.blob {
      var rc := SyncBlob(e, g, req.blob, since);
      if rc != 0 {
        return;
      }
    }
    ghost var pre, a, calls := g.View(), e.handles, e.calls;
    SyncContents(e, g, req, since);
    DifferencesUnloadNothing(pre.handle, pre, req, calls, e.calls);
    WellPrefix(calls, e.calls);
    WellJoin(since, calls, e.calls);
    ContentsKeepAccount(start, a0, pre, a, g.View(), e.handles);
    if e.unloadFaults != old(e.unloadFaults) {
      if g.errors == [] {
        StaleRecord(pre, a, g.View(), e.handles, req);
      }
    } else if Mirrors(pre, a[pre.handle]) {
      ContentsKeepMirror(pre, a, g.View(), e.handles);
    }
  }

  /**
   * One such reload. The grammar is loaded under handle 7 with its rule active, and is to get another blob with
   * the same rule. No callback of it can be unregistered, the new blob is loaded under handle 8, and nothing else
   * fails: the rule is recorded as active, but the engine was not told so for the new handle.
   */
  lemma CarriedOverRuleIsLost()
    ensures exists pre: Live, a: map<Handle, Loaded>, req: Request, post: Live, b: map<Handle, Loaded> ::
      && Wellformed(pre, a) && pre.enabled && Mirrors(pre, a[pre.handle]) && ValidRequest(req) && req.Set?
      && GrammarSynced(pre, a, req, post, b, false, [])
      && post.handle in b && "rule" in post.rules && "rule" !in b[post.handle].rules && !Mirrors(post, b[post.handle])
  {
    var pre := Live([1], {"rule"}, map[], 0, 0, 7, true, 1, 2, 3);
    var a: map<Handle, Loaded> := map[7 := Loaded([1], {"rule"}, map[], pre.Callbacks(), false)];
    var req := Set(0, 0, [2], {"rule"}, map[]);
    var post := Live([2], {"rule"}, map[], 0, 0, 8, true, 4, 5, 6);
    var b := a[7 := a[7].(faulted := true)][8 := Loaded([2], {}, map[], post.Callbacks(), false)];
    assert KeptLists(pre, req, false) + req.lists == map[];
    assert "rule" in pre.rules && "rule" in req.rules;
    assert GrammarSynced(pre, a, req, post, b, false, []);
    assert "rule" in post.rules && "rule" !in b[post.handle].rules;
  }
}
