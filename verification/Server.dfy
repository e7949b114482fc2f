/** The event-loop side of the transport: who is connected, and what is queued for the loop. */
module Server {
  import opened Bytes
  import opened Messages

  function Unless(id: nat): nat -> seq<nat> {
    (c: nat) => if c == id then [] else [c]
  }

  function Without(clients: seq<nat>, id: nat): seq<nat> {
    Concat(Unless(id), clients)
  }

  lemma {:induction false} WithoutIs(clients: seq<nat>, id: nat)
    requires forall i, j :: 0 <= i < j < |clients| ==> clients[i] != clients[j]
    ensures var left := Without(clients, id);
      && (forall c :: c in left <==> c in clients && c != id)
      && (forall i, j :: 0 <= i < j < |left| ==> left[i] != left[j])
  {
    if clients != [] {
      WithoutIs(clients[1..], id);
      var left, rest := Without(clients, id), Without(clients[1..], id);
      if clients[0] != id {
        assert left == [clients[0]] + rest;
        forall i | 0 < i < |left| ensures left[0] != left[i] {
          assert left[i] == rest[i - 1] && rest[i - 1] in clients[1..];
        }
      }
    }
  }

  class UvServer {
    var clients: seq<nat>
    var clientNonce: nat
    var invokeQueue: seq<Task>
    var wakeup: bool
    // everything ever queued, and what of it the loop has taken
    ghost var pushed: seq<Task>
    ghost var taken: seq<Task>
    // the pauses among it
    ghost var announced: seq<nat>
    // what the clients' streams were given
    ghost var written: seq<Write>

    /** What was queued is what the loop has taken and what still waits, in that order. */
    ghost predicate Queued()
      reads `invokeQueue, `pushed, `taken, `announced
    {
      pushed == taken + invokeQueue && announced == PauseTokens(pushed)
    }

    function Ids(): set<nat>
      reads `clients
    {
      set c | c in clients
    }

    lemma NobodyConnected()
      ensures Ids() == {} <==> clients == []
    {
      assert clients != [] ==> clients[0] in Ids();
    }

    ghost predicate Valid()
      reads `clients, `clientNonce
    {
      && (forall c :: c in clients ==> c < clientNonce)
      && (forall i, j :: 0 <= i < j < |clients| ==> clients[i] != clients[j])
    }

    constructor ()
      ensures Valid() && Queued() && clients == [] && clientNonce == 0 && invokeQueue == [] && pushed == []
              && announced == []
      ensures taken == [] && written == []
    {
      clients, clientNonce, invokeQueue, wakeup, pushed, taken, announced, written := [], 0, [], false, [], [], [], [];
    }

    method Invoke(task: Task)
      requires Queued() && !task.HandlePause?
      modifies `invokeQueue, `wakeup, `pushed
      ensures Queued() && pushed == old(pushed) + [task] && wakeup
    {
      PauseTokensNext(pushed, task);
      invokeQueue, pushed := invokeQueue + [task], pushed + [task];
      wakeup := true;
    }

    /** The engine's pause callback comes from another thread, so the pause is handled through the queue. */
    method InvokePause(token: nat)
      requires Queued()
      modifies `invokeQueue, `wakeup, `pushed, `announced
      ensures Queued() && pushed == old(pushed) + [HandlePause(token)] && announced == old(announced) + [token]
              && wakeup
    {
      PauseTokensNext(pushed, HandlePause(token));
      invokeQueue, pushed := invokeQueue + [HandlePause(token)], pushed + [HandlePause(token)];
      announced := announced + [token];
      wakeup := true;
    }

    /** Drain's first half, under the lock: the queue is taken as a whole. */
    method TakeQueue() returns (functions: seq<Task>)
      requires Queued()
      modifies `invokeQueue, `wakeup, `taken
      ensures Queued() && functions == old(invokeQueue) && invokeQueue == []
      ensures taken == old(taken) + functions && pushed == taken
    {
      wakeup := false;
      functions := invokeQueue;
      invokeQueue, taken := [], taken + functions;
    }

    /** Running a function that writes to the clients. */
    method Deliver(task: Task)
      requires !task.HandlePause?
      modifies `written
      ensures written == old(written) + Deliveries(task, clients)
    {
      var i := 0;
      match task
      case Send(msg, tid, client) =>
        while i < |clients|
          invariant 0 <= i <= |clients| && client !in clients[..i]
          invariant written == old(written)
        {
          if clients[i] == client {
            written := written + [Write(client, tid, msg)];
            return;
          }
          i := i + 1;
        }
        assert clients[..i] == clients;
      case Publish(msg) =>
        while i < |clients|
          invariant 0 <= i <= |clients|
          invariant written == old(written) + Published(msg, clients[..i])
        {
          assert Published(msg, clients[..i + 1])
                 == Published(msg, clients[..i]) + [Write(clients[i], PUBLISH_TID, msg)];
          written := written + [Write(clients[i], PUBLISH_TID, msg)];
          i := i + 1;
        }
        assert clients[..i] == clients;
    }

    /** A connection is given an id that no connection had before. */
    method Accept() returns (id: nat)
      requires Valid()
      modifies `clients, `clientNonce
      ensures Valid() && id == old(clientNonce) && id !in old(clients)
      ensures clients == old(clients) + [id] && clientNonce == old(clientNonce) + 1
    {
      id := clientNonce;
      assert forall i :: 0 <= i < |clients| ==> clients[i] in clients;
      clientNonce := clientNonce + 1;
      clients := clients + [id];
    }

    /** `std::list::remove` takes out every occurrence. */
    method Remove(id: nat)
      requires Valid()
      modifies `clients
      ensures Valid() && clients == Without(old(clients), id)
      ensures forall c :: c in clients <==> c in old(clients) && c != id
    {
      var kept, i := [], 0;
      while i < |clients|
        invariant 0 <= i <= |clients| && clients == old(clients)
        invariant kept == Without(clients[..i], id)
      {
        ConcatNext(Unless(id), clients, i);
        if clients[i] != id {
          kept := kept + [clients[i]];
        }
        i := i + 1;
      }
      assert clients[..i] == clients;
      WithoutIs(clients, id);
      clients := kept;
    }
  }
}
