/**
 * The speech engine behind the `_DSX*` function pointers. Every call may fail; a call that
 * returns a nonzero code has changed nothing. Which calls fail is not constrained at all.
 */
module EngineModel {
  import opened Bytes

  /** An opaque `drg_grammar *`; 0 is the null pointer. */
  type Handle = nat

  /** What the engine holds for one loaded grammar. `faulted` records that a call that registers
      or releases it has failed. */
  datatype Loaded = Loaded(
    blob: seq<byte>, rules: set<string>, lists: map<string, seq<byte>>, callbacks: map<nat, Callback>, faulted: bool)

  datatype Callback = EndPhrase | Hypothesis | BeginPhrase

  datatype Call =
    | ValidateWord(word: CStr, rc: int, valid: bool)
    | AddTemporaryWord(word: CStr, rc: int)
    | DeleteWord(word: CStr, rc: int)
    | LoadGrammar(rc: int)
    | Register(handle: Handle, kind: Callback, rc: int)
    | Unregister(handle: Handle, key: nat, rc: int)
    | Destroy(handle: Handle, rc: int)
    | Activate(handle: Handle, rule: string, rc: int)
    | Deactivate(handle: Handle, rule: string, rc: int)
    | SetList(handle: Handle, list: string, rc: int)

  class Engine {
    var words: set<CStr>
    var handles: map<Handle, Loaded>
    var calls: seq<Call>
    var unloadFaults: nat
    // the token of a pause the engine has announced and nobody has resumed; 0 for none
    var outstanding: nat
    var resumed: seq<nat>

    constructor ()
      ensures words == {} && handles == map[] && calls == [] && unloadFaults == 0 && outstanding == 0 && resumed == []
    {
      words, handles, calls, unloadFaults, outstanding, resumed := {}, map[], [], 0, 0, [];
    }

    // -- vocabulary --------------------------------------------------------------------------------

    method ValidateWord(word: CStr) returns (rc: int, valid: bool)
      modifies `calls
      ensures calls == old(calls) + [Call.ValidateWord(word, rc, valid)]
    {
      rc, valid := *, *;
      calls := calls + [Call.ValidateWord(word, rc, valid)];
    }

    method AddTemporaryWord(word: CStr) returns (rc: int)
      modifies `words, `calls
      ensures calls == old(calls) + [Call.AddTemporaryWord(word, rc)]
      ensures words == if rc == 0 then old(words) + {word} else old(words)
    {
      rc := *;
      calls := calls + [Call.AddTemporaryWord(word, rc)];
      if rc == 0 {
        words := words + {word};
      }
    }

    method DeleteWord(word: CStr) returns (rc: int)
      modifies `words, `calls
      ensures calls == old(calls) + [Call.DeleteWord(word, rc)]
      ensures words == if rc == 0 then old(words) - {word} else old(words)
    {
      rc := *;
      calls := calls + [Call.DeleteWord(word, rc)];
      if rc == 0 {
        words := words - {word};
      }
    }

    // -- grammars: every call but the load is on a handle the engine still holds --------------------

    method LoadGrammar(blob: seq<byte>) returns (rc: int, h: Handle)
      modifies `handles, `calls
      ensures calls == old(calls) + [Call.LoadGrammar(rc)]
      ensures rc == 0 ==> h != 0 && h !in old(handles)
                          && handles == old(handles)[h := Loaded(blob, {}, map[], map[], false)]
      ensures rc != 0 ==> handles == old(handles)
    {
      rc, h := *, *;
      if h == 0 || h in handles {
        rc := -1;
      }
      calls := calls + [Call.LoadGrammar(rc)];
      if rc == 0 {
        handles := handles[h := Loaded(blob, {}, map[], map[], false)];
      }
    }

    method Register(h: Handle, kind: Callback) returns (rc: int, key: nat)
      requires h in handles
      modifies `handles, `calls
      ensures calls == old(calls) + [Call.Register(h, kind, rc)]
      ensures rc == 0 ==>
        && key !in old(handles)[h].callbacks
        && handles == old(handles)[h := old(handles)[h].(callbacks := old(handles)[h].callbacks[key := kind])]
      ensures rc != 0 ==> handles == old(handles)[h := old(handles)[h].(faulted := true)]
    {
      rc, key := *, *;
      if key in handles[h].callbacks {
        rc := -1;
      }
      calls := calls + [Call.Register(h, kind, rc)];
      if rc == 0 {
        handles := handles[h := handles[h].(callbacks := handles[h].callbacks[key := kind])];
      } else {
        handles := handles[h := handles[h].(faulted := true)];
      }
    }

    method Unregister(h: Handle, key: nat) returns (rc: int)
      requires h in handles
      modifies `handles, `calls, `unloadFaults
      ensures calls == old(calls) + [Call.Unregister(h, key, rc)]
      ensures rc == 0 ==> handles == old(handles)[h := old(handles)[h].(callbacks := old(handles)[h].callbacks - {key})]
                          && unloadFaults == old(unloadFaults)
      ensures rc != 0 ==> handles == old(handles)[h := old(handles)[h].(faulted := true)]
                          && unloadFaults == old(unloadFaults) + 1
    {
      rc := *;
      calls := calls + [Call.Unregister(h, key, rc)];
      if rc == 0 {
        handles := handles[h := handles[h].(callbacks := handles[h].callbacks - {key})];
      } else {
        handles, unloadFaults := handles[h := handles[h].(faulted := true)], unloadFaults + 1;
      }
    }

    /** A grammar is only destroyed once nothing calls back into it. */
    method Destroy(h: Handle) returns (rc: int)
      requires h in handles && handles[h].callbacks == map[]
      modifies `handles, `calls, `unloadFaults
      ensures calls == old(calls) + [Call.Destroy(h, rc)]
      ensures rc == 0 ==> handles == old(handles) - {h} && unloadFaults == old(unloadFaults)
      ensures rc != 0 ==> handles == old(handles)[h := old(handles)[h].(faulted := true)]
                          && unloadFaults == old(unloadFaults) + 1
    {
      rc := *;
      calls := calls + [Call.Destroy(h, rc)];
      if rc == 0 {
        handles := handles - {h};
      } else {
        handles, unloadFaults := handles[h := handles[h].(faulted := true)], unloadFaults + 1;
      }
    }

    method Activate(h: Handle, rule: string) returns (rc: int)
      requires h in handles
      modifies `handles, `calls
      ensures calls == old(calls) + [Call.Activate(h, rule, rc)]
      ensures handles == if rc == 0 then old(handles)[h := old(handles)[h].(rules := old(handles)[h].rules + {rule})]
                         else old(handles)
    {
      rc := *;
      calls := calls + [Call.Activate(h, rule, rc)];
      if rc == 0 {
        handles := handles[h := handles[h].(rules := handles[h].rules + {rule})];
      }
    }

    method Deactivate(h: Handle, rule: string) returns (rc: int)
      requires h in handles
      modifies `handles, `calls
      ensures calls == old(calls) + [Call.Deactivate(h, rule, rc)]
      ensures handles == if rc == 0 then old(handles)[h := old(handles)[h].(rules := old(handles)[h].rules - {rule})]
                         else old(handles)
    {
      rc := *;
      calls := calls + [Call.Deactivate(h, rule, rc)];
      if rc == 0 {
        handles := handles[h := handles[h].(rules := handles[h].rules - {rule})];
      }
    }

    method SetList(h: Handle, list: string, data: array<byte>) returns (rc: int)
      requires h in handles
      modifies `handles, `calls
      ensures calls == old(calls) + [Call.SetList(h, list, rc)]
      ensures rc == 0 ==>
        handles == old(handles)[h := old(handles)[h].(lists := old(handles)[h].lists[list := data[..]])]
      ensures rc != 0 ==> handles == old(handles)
    {
      rc := *;
      calls := calls + [Call.SetList(h, list, rc)];
      if rc == 0 {
        handles := handles[h := handles[h].(lists := handles[h].lists[list := data[..]])];
      }
    }

    // -- pausing -------------------------------------------------------------------------------------

    /** The engine never supplies a token of 0, and announces no pause before the last one was resumed. */
    method Pause(token: nat)
      requires token != 0 && outstanding == 0
      modifies `outstanding
      ensures outstanding == token
    {
      outstanding := token;
    }

    /** The result of this call is not looked at. */
    method Resume(token: nat)
      modifies `outstanding, `resumed
      ensures resumed == old(resumed) + [token]
      ensures outstanding == if token == old(outstanding) then 0 else old(outstanding)
    {
      resumed := resumed + [token];
      if token == outstanding {
        outstanding := 0;
      }
    }
  }
}
