/**
 * What the reconciler records about grammars next to what the engine holds, and what working off one
 * queued request does to both. The methods of the next module are proved against these relations.
 */
module GrammarSpec {
  import opened Bytes
  import opened EngineModel
  import opened Grammars

  /** The live grammars and the engine's side of them, with the number of failed unload calls so far. */
  datatype Registry = Registry(lives: map<string, Live>, handles: map<Handle, Loaded>, faults: nat)

  /** The engine's handles are those of the live grammars, one each, and ones whose release or registration failed. */
  ghost predicate Consistent(lives: map<string, Live>, handles: map<Handle, Loaded>) {
    && 0 !in handles
    && (forall n :: n in lives ==> lives[n].enabled && Attached(lives[n], handles) && !handles[lives[n].handle].faulted)
    && (forall m, n :: m in lives && n in lives && m != n ==> lives[m].handle != lives[n].handle)
    && (forall h :: h in handles && !Owned(h, lives) ==> handles[h].faulted)
  }

  /** Synchronising one name leaves everybody else's handles alone, and any new stray handle is a faulted one. */
  ghost predicate NameAccounted(pre: Option<Live>, a: map<Handle, Loaded>, post: Option<Live>, b: map<Handle, Loaded>) {
    && (forall h :: h in a && !Has(pre, h) ==> h in b && b[h] == a[h])
    && (forall h :: h in b && !Has(post, h) ==> b[h].faulted || (h in a && !Has(pre, h)))
    && (post.Some? ==>
          && post.value.enabled && Attached(post.value, b) && !b[post.value.handle].faulted
          && (post.value.handle in a ==> Has(pre, post.value.handle)))
    && (0 !in a ==> 0 !in b)
  }

  /** What is recorded for a name after its request was worked off. */
  ghost predicate Settled(pre: Option<Live>, req: Request, clean: bool, post: Option<Live>, errors: seq<GrammarError>) {
    if req.Set? && errors == [] then
      post.Some? && Fulfils(if pre.Some? then KeptLists(pre.value, req, clean) else map[], req, post.value)
    else
      post.None? && (!req.Set? ==> errors == [])
  }

  /** The engine holds for a live grammar what is recorded for it. */
  ghost predicate Agrees(l: Live, handles: map<Handle, Loaded>) {
    l.handle in handles && Mirrors(l, handles[l.handle])
  }

  /**
   * Whether record and engine agree after a request that went well. If an unload failed on the way: exactly if
   * nothing of the old record was carried over. Otherwise they do if they did before, or if the blob is loaded anew.
   */
  ghost predicate Agreement(pre: Option<Live>, a: map<Handle, Loaded>, req: Request, clean: bool,
                            post: Option<Live>, b: map<Handle, Loaded>)
  {
    req.Set? && post.Some? ==>
      && post.value.handle in b
      && (!clean ==> Reloads(pre, req) && pre.Some?)
      && (!clean ==> (Agrees(post.value, b) <==> NothingCarriedOver(pre.value.rules, pre.value.lists, req)))
      && (clean && (Reloads(pre, req) || (pre.Some? && Agrees(pre.value, a))) ==> Agrees(post.value, b))
  }

  /** The request asks for nothing that is not already recorded. */
  predicate AlreadyLive(pre: Option<Live>, req: Request) {
    && req.Set? && pre.Some?
    && pre.value.blob == req.blob && pre.value.rules == req.rules && Differing(req.lists, pre.value.lists) == {}
  }

  ghost predicate Has(l: Option<Live>, h: Handle) {
    l.Some? && l.value.handle == h
  }

  function Lookup(lives: map<string, Live>, name: string): Option<Live> {
    if name in lives then Some(lives[name]) else None
  }

  function Put(lives: map<string, Live>, name: string, l: Option<Live>): map<string, Live> {
    if l.Some? then lives[name := l.value] else lives - {name}
  }

  /** A grammar was unloaded, or the attempt failed and its handle is left behind. */
  ghost predicate Unloaded(l: Live, b: map<Handle, Loaded>, c: map<Handle, Loaded>) {
    if l.enabled then OthersSame(l.handle, b, c) && (l.handle in c ==> c[l.handle].faulted) else c == b
  }

  lemma RemovalAccounted(pre: Option<Live>, blank: Live, a: map<Handle, Loaded>, mid: Live, b: map<Handle, Loaded>,
                         c: map<Handle, Loaded>)
    requires pre.Some? ==> pre.value == blank && blank.enabled
    requires pre.None? ==> !blank.enabled
    requires Accounted(blank, a, mid, b)
    requires Unloaded(mid, b, c)
    ensures NameAccounted(pre, a, None, c)
  {
    forall h | h in a && !Has(pre, h) ensures h in c && c[h] == a[h] {
      assert h in b && b[h] == a[h];
    }
  }

  lemma StaysConsistent(lives: map<string, Live>, name: string, a: map<Handle, Loaded>, post: Option<Live>,
                        b: map<Handle, Loaded>)
    requires Consistent(lives, a) && NameAccounted(Lookup(lives, name), a, post, b)
    ensures Consistent(Put(lives, name, post), b)
  {
    var pre, lives' := Lookup(lives, name), Put(lives, name, post);
    forall n | n in lives' && n != name
      ensures lives[n].handle in a && !Has(pre, lives[n].handle)
      ensures lives[n].handle in b && b[lives[n].handle] == a[lives[n].handle]
    {
    }
    forall h | h in b && !Owned(h, lives') ensures b[h].faulted {
      if post.Some? {
        assert name in lives' && lives'[name] == post.value;
      }
      assert !Has(post, h);
      if !b[h].faulted {
        assert h in a && !Has(pre, h) && b[h] == a[h];
        forall n | n in lives ensures lives[n].handle != h {
          assert n != name ==> n in lives' && lives'[n] == lives[n];
        }
      }
    }
  }

  /** Every other grammar agrees with the engine afterwards exactly if it did before. */
  lemma StaysAgreeing(lives: map<string, Live>, name: string, a: map<Handle, Loaded>, post: Option<Live>,
                      b: map<Handle, Loaded>, n: string)
    requires Consistent(lives, a) && NameAccounted(Lookup(lives, name), a, post, b)
    requires n in lives && n != name
    ensures n in Put(lives, name, post) && Put(lives, name, post)[n] == lives[n]
    ensures Agrees(lives[n], b) <==> Agrees(lives[n], a)
  {
    assert !Has(Lookup(lives, name), lives[n].handle);
  }

  ghost predicate Owned(h: Handle, lives: map<string, Live>) {
    exists n :: n in lives && lives[n].handle == h
  }

  ghost predicate AllAgree(r: Registry) {
    forall n :: n in r.lives ==> Agrees(r.lives[n], r.handles)
  }

  ghost predicate Sound(r: Registry) {
    Consistent(r.lives, r.handles) && (r.faults == 0 ==> AllAgree(r))
  }

  /**
   * As long as no unload and no registration has failed, the engine holds exactly the live grammars, each
   * under a handle of its own, and of each exactly what is recorded.
   */
  lemma WithoutFaultsTheRecordIsTheEngine(r: Registry)
    requires Sound(r) && r.faults == 0 && forall h :: h in r.handles ==> !r.handles[h].faulted
    ensures r.handles.Keys == set n | n in r.lives :: r.lives[n].handle
    ensures forall m, n :: m in r.lives && n in r.lives && m != n ==> r.lives[m].handle != r.lives[n].handle
    ensures AllAgree(r)
  {
    forall h | h in r.handles ensures exists n :: n in r.lives && r.lives[n].handle == h {
      assert Owned(h, r.lives);
    }
  }

  /** The handles that belong to no grammar are exactly those that a failed unload or registration has left. */
  lemma LeakedHandlesAreTheFaultedOnes(r: Registry, h: Handle)
    requires Sound(r) && h in r.handles
    ensures r.handles[h].faulted <==> !Owned(h, r.lives)
  {
    if Owned(h, r.lives) {
      var n :| n in r.lives && r.lives[n].handle == h;
      assert !r.handles[r.lives[n].handle].faulted;
    }
  }

  /** Whether a request has the engine load the grammar's blob anew. */
  predicate Reloads(pre: Option<Live>, req: Request) {
    req.Set? && (pre.None? || pre.value.blob != req.blob)
  }

  ghost predicate NameStep(r: Registry, name: string, req: Request, r': Registry, errors: seq<GrammarError>,
                           clean: bool) {
    var pre, post := Lookup(r.lives, name), Lookup(r'.lives, name);
    && r'.lives == Put(r.lives, name, post)
    && NameAccounted(pre, r.handles, post, r'.handles)
    && Settled(pre, req, clean, post, errors)
    && Agreement(pre, r.handles, req, clean, post, r'.handles)
    && r'.faults >= r.faults + (if clean then 0 else 1)
  }

  /** Agreement with the engine and the accounting of its handles survive every outcome of one request. */
  lemma NameStepKeepsSound(r: Registry, name: string, req: Request, r': Registry, errors: seq<GrammarError>,
                           clean: bool)
    requires Sound(r) && NameStep(r, name, req, r', errors, clean)
    ensures Sound(r')
  {
    var post := Lookup(r'.lives, name);
    StaysConsistent(r.lives, name, r.handles, post, r'.handles);
    forall n | n in r.lives && n != name ensures Agrees(r.lives[n], r'.handles) <==> Agrees(r.lives[n], r.handles) {
      StaysAgreeing(r.lives, name, r.handles, post, r'.handles, n);
    }
  }

  /** An unload request. */
  lemma UnloadStep(r: Registry, name: string, req: Request, c: map<Handle, Loaded>, faults: nat)
    requires Sound(r) && !req.Set? && faults >= r.faults
    requires if name in r.lives then Unloaded(r.lives[name], r.handles, c) else c == r.handles
    ensures NameStep(r, name, req, Registry(r.lives - {name}, c, faults), [], true)
  {
    if name in r.lives {
      RemovalAccounted(Some(r.lives[name]), r.lives[name], r.handles, r.lives[name], r.handles, c);
    } else {
      assert r.lives - {name} == r.lives;
    }
  }

  /** `blank` is the grammar object before the synchronisation: the live one, or one just made. */
  ghost predicate StartsFrom(pre: Option<Live>, blank: Live) {
    match pre
    case Some(l) => blank == l && l.enabled
    case None => !blank.enabled && blank.blob == [] && blank.lists == map[]
  }

  /** A set request that was fulfilled. */
  lemma FulfilStep(r: Registry, name: string, req: Request, blank: Live, mid: Live, b: map<Handle, Loaded>, faults: nat,
                   clean: bool)
    requires req.Set? && ValidRequest(req) && StartsFrom(Lookup(r.lives, name), blank)
    requires GrammarSynced(blank, r.handles, req, mid, b, clean, [])
    requires faults >= r.faults + if clean then 0 else 1
    ensures NameStep(r, name, req, Registry(r.lives[name := mid], b, faults), [], clean)
  {
  }

  /** A set request that met errors, after which the grammar was removed again. */
  lemma ErrorStep(r: Registry, name: string, req: Request, blank: Live, mid: Live, b: map<Handle, Loaded>,
                  c: map<Handle, Loaded>, faults: nat, errors: seq<GrammarError>, clean: bool)
    requires req.Set? && StartsFrom(Lookup(r.lives, name), blank) && errors != []
    requires GrammarSynced(blank, r.handles, req, mid, b, clean, errors) && Unloaded(mid, b, c)
    requires faults >= r.faults + if clean then 0 else 1
    ensures NameStep(r, name, req, Registry(r.lives - {name}, c, faults), errors, clean)
  {
    RemovalAccounted(Lookup(r.lives, name), blank, r.handles, mid, b, c);
  }

  lemma LiveAttached(r: Registry, name: string)
    requires Sound(r) && name in r.lives
    ensures r.lives[name].enabled && Attached(r.lives[name], r.handles)
  {
  }

  lemma LiveStarts(r: Registry, name: string)
    requires Sound(r) && name in r.lives
    ensures Wellformed(r.lives[name], r.handles) && StartsFrom(Lookup(r.lives, name), r.lives[name])
  {
  }

  lemma NewStarts(r: Registry, name: string, l: Live)
    requires Sound(r) && name !in r.lives
    requires !l.enabled && l.handle == 0 && l.blob == [] && l.rules == {} && l.lists == map[]
    ensures Wellformed(l, r.handles) && StartsFrom(Lookup(r.lives, name), l)
  {
  }

  lemma SyncedAttached(pre: Live, a: map<Handle, Loaded>, req: Request, post: Live, b: map<Handle, Loaded>,
                       clean: bool, errors: seq<GrammarError>)
    requires req.Set? && GrammarSynced(pre, a, req, post, b, clean, errors)
    ensures Attached(post, b)
  {
  }

  lemma FirstDifference(pre: Live, req: Request, a: seq<Call>, b: seq<Call>)
    requires req.Set? && DifferenceCalls(pre.handle, pre, req, a, b) && |a| < |b|
    ensures pre.rules != req.rules || Differing(req.lists, pre.lists) != {}
  {
    var c := b[|a|];
    assert c.Activate? || c.Deactivate? || c.SetList?;
  }

  /** Asking again for what is recorded makes no call at all. */
  lemma AlreadyLiveIsQuiet(name: string, pre: Live, req: Request, a: seq<Call>, b: seq<Call>)
    requires AlreadyLive(Some(pre), req) && DifferenceCalls(pre.handle, pre, req, a, b)
    ensures a == b && ErrorsSince(name, a, b) == []
  {
    if |a| < |b| {
      FirstDifference(pre, req, a, b);
      assert false;
    }
    assert b[|a|..] == [];
  }

  // -- the whole queue ---------------------------------------------------------------------------------

  /** How one queued request went: its errors, whether no unload failed inside a reload, and the calls it took. */
  datatype Outcome = Outcome(errors: seq<GrammarError>, clean: bool, calls: seq<Call>)

  /** A set request reports the calls that failed, an unload reports nothing, and what is live already takes no
      call. A reload over a failed unload is one in which such a call did fail. */
  ghost predicate Reported(pre: Option<Live>, name: string, req: Request, o: Outcome) {
    && o.errors == (if req.Set? then Concat(ErrorsOf(name), o.calls) else [])
    && (!o.clean ==> !NoFailedUnload(o.calls))
    && (req.Set? && o.errors == [] && o.clean ==> NoFailedUnload(o.calls))
    && (AlreadyLive(pre, req) ==> o.calls == [])
  }

  /** Each queued name is settled as its request went. */
  ghost predicate NamesSettled(r: Registry, queue: map<string, Request>, outcomes: map<string, Outcome>, r': Registry) {
    && outcomes.Keys == queue.Keys
    && forall n :: n in queue ==> NameSettled(r, n, queue[n], outcomes[n], r')
  }

  ghost predicate NameSettled(r: Registry, n: string, req: Request, o: Outcome, r': Registry) {
    var pre, post := Lookup(r.lives, n), Lookup(r'.lives, n);
    && Reported(pre, n, req, o)
    && Settled(pre, req, o.clean, post, o.errors)
    && Agreement(pre, r.handles, req, o.clean, post, r'.handles)
  }

  /** Every other name is as it was, and so is the engine's side of it. */
  ghost predicate OthersUntouched(r: Registry, names: set<string>, r': Registry) {
    && (forall n :: n !in names ==> Lookup(r'.lives, n) == Lookup(r.lives, n))
    && (forall n :: n !in names && n in r.lives ==> HandleKept(r.lives[n].handle, r.handles, r'.handles))
  }

  /** A handle that belongs to no grammar stays in the engine for good. */
  ghost predicate StraysKept(r: Registry, r': Registry) {
    forall h :: h in r.handles && !Owned(h, r.lives) ==> HandleKept(h, r.handles, r'.handles) && !Owned(h, r'.lives)
  }

  ghost predicate HandleKept(h: Handle, a: map<Handle, Loaded>, b: map<Handle, Loaded>) {
    h in a && h in b && b[h] == a[h]
  }

  ghost predicate FaultsCounted(r: Registry, outcomes: map<string, Outcome>, r': Registry) {
    && r'.faults >= r.faults
    && (r'.faults == r.faults ==> forall n :: n in outcomes ==> outcomes[n].clean)
  }

  /** Working off a whole queue. */
  ghost predicate QueueStep(r: Registry, queue: map<string, Request>, outcomes: map<string, Outcome>, r': Registry) {
    && NamesSettled(r, queue, outcomes, r')
    && OthersUntouched(r, queue.Keys, r')
    && StraysKept(r, r')
    && FaultsCounted(r, outcomes, r')
  }

  lemma QueueEmpty(r: Registry)
    requires Sound(r)
    ensures QueueStep(r, map[], map[], r)
  {
  }

  lemma NameStepLocal(mid: Registry, name: string, req: Request, r': Registry, o: Outcome)
    requires Sound(mid) && NameStep(mid, name, req, r', o.errors, o.clean)
             && Reported(Lookup(mid.lives, name), name, req, o)
    ensures NameSettled(mid, name, req, o, r')
    ensures OthersUntouched(mid, {name}, r') && StraysKept(mid, r')
    ensures r'.faults >= mid.faults && (r'.faults == mid.faults ==> o.clean)
  {
    forall n | n != name && n in mid.lives ensures HandleKept(mid.lives[n].handle, mid.handles, r'.handles) {
      assert !Has(Lookup(mid.lives, name), mid.lives[n].handle);
    }
    forall h | h in mid.handles && !Owned(h, mid.lives)
      ensures HandleKept(h, mid.handles, r'.handles) && !Owned(h, r'.lives)
    {
      assert !Has(Lookup(mid.lives, name), h);
      forall n | n in r'.lives ensures r'.lives[n].handle != h {
        assert n != name ==> n in mid.lives && r'.lives[n] == mid.lives[n];
      }
    }
  }

  lemma OthersNext(r: Registry, names: set<string>, mid: Registry, name: string, r': Registry)
    requires OthersUntouched(r, names, mid) && StraysKept(r, mid)
    requires OthersUntouched(mid, {name}, r') && StraysKept(mid, r')
    ensures OthersUntouched(r, names + {name}, r') && StraysKept(r, r')
  {
    forall n | n !in names + {name} && n in r.lives ensures HandleKept(r.lives[n].handle, r.handles, r'.handles) {
      assert Lookup(mid.lives, n) == Lookup(r.lives, n);
    }
  }

  lemma SettledNext(r: Registry, queue: map<string, Request>, outcomes: map<string, Outcome>, mid: Registry,
                    name: string, req: Request, o: Outcome, r': Registry)
    requires name !in queue && NamesSettled(r, queue, outcomes, mid) && OthersUntouched(r, queue.Keys, mid)
    requires NameSettled(mid, name, req, o, r') && OthersUntouched(mid, {name}, r')
    ensures NamesSettled(r, queue[name := req], outcomes[name := o], r')
  {
    forall n | n in queue ensures NameSettled(r, n, queue[n], outcomes[n], r') {
      assert NameSettled(r, n, queue[n], outcomes[n], mid);
    }
    assert Lookup(mid.lives, name) == Lookup(r.lives, name);
  }

  /** One more name of the queue. */
  lemma QueueNext(r: Registry, queue: map<string, Request>, outcomes: map<string, Outcome>, mid: Registry,
                  name: string, req: Request, o: Outcome, r': Registry)
    requires Sound(mid) && name !in queue && Reported(Lookup(mid.lives, name), name, req, o)
    requires QueueStep(r, queue, outcomes, mid) && NameStep(mid, name, req, r', o.errors, o.clean)
    ensures QueueStep(r, queue[name := req], outcomes[name := o], r')
  {
    hide NameStep, Sound, Reported, NamesSettled, NameSettled, OthersUntouched, StraysKept;
    NameStepLocal(mid, name, req, r', o);
    SettledNext(r, queue, outcomes, mid, name, req, o, r');
    OthersNext(r, queue.Keys, mid, name, r');
    assert queue[name := req].Keys == queue.Keys + {name};
  }

  lemma QueueUntouched(r: Registry, queue: map<string, Request>, outcomes: map<string, Outcome>, r': Registry,
                       n: string)
    requires QueueStep(r, queue, outcomes, r') && n !in queue
    ensures Lookup(r'.lives, n) == Lookup(r.lives, n)
  {
  }
}
