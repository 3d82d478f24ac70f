/**
 The target manager with its maps, for all targets (apps/desktop/src/target-manager.ts). Each method is
 the code between two awaits, proved to be the matching step of the addressed target's machine and to
 leave every other target alone.
 */
module TargetManagers {
  import opened Wrappers
  import opened TargetModel

  type TargetId = nat

  function Get<K, V>(m: map<K, V>, key: K): Option<V> {
    if key in m then Some(m[key]) else None
  }

  function Listed<V>(m: map<TargetId, seq<V>>, id: TargetId): seq<V> {
    if id in m then m[id] else []
  }

  function LastOf(sent: seq<DesktopState>): Option<DesktopState> {
    if sent == [] then None else Some(sent[|sent| - 1])
  }

  class DesktopTargetManager {
    var generations: map<TargetId, nat>
    var runtimes: map<TargetId, ClientId>
    var connectAttempts: map<TargetId, nat>
    var latestWelcomes: map<TargetId, ClientId>
    var publishedStates: map<TargetId, DesktopState>
    var clients: map<TargetId, seq<Client>>
    ghost var sentStates: map<TargetId, seq<DesktopState>>
    ghost var sentNotices: map<TargetId, seq<Notice>>

    /** The last published state is the last one sent. */
    ghost predicate Valid()
      reads this
    {
      forall id :: Get(publishedStates, id) == LastOf(Listed(sentStates, id))
    }

    function Generation(id: TargetId): nat
      reads this`generations
    {
      if id in generations then generations[id] else 0
    }

    /** A target's entries as its machine, with the given suspended operations. */
    ghost function View(id: TargetId, ops: map<OpId, Stage>): Target
      reads this
    {
      Target(Generation(id), Get(runtimes, id), Get(connectAttempts, id), Get(latestWelcomes, id), Listed(clients, id),
             ops, Listed(sentStates, id), Listed(sentNotices, id))
    }

    constructor ()
      ensures Valid()
      ensures forall id :: View(id, map[]) == UNKNOWN
    {
      generations, runtimes, connectAttempts, latestWelcomes := map[], map[], map[], map[];
      publishedStates, clients, sentStates, sentNotices := map[], map[], map[], map[];
    }

    method CloseRuntimeNow(id: TargetId, ghost ops: map<OpId, Stage>)
      requires Valid()
      modifies this`generations, this`connectAttempts, this`runtimes, this`latestWelcomes, this`clients
      ensures Valid() && View(id, ops) == CloseRuntime(old(View(id, ops)))
      ensures forall other :: other != id ==> View(other, ops) == old(View(other, ops))
    {
      generations := generations[id := Generation(id) + 1];
      connectAttempts := connectAttempts - {id};
      clients := clients[id := Closed(Listed(clients, id), Get(runtimes, id))];
      runtimes := runtimes - {id};
      latestWelcomes := latestWelcomes - {id};
    }

    method PublishState(id: TargetId, state: DesktopState)
      requires Valid()
      modifies this`publishedStates, this`sentStates
      ensures Valid() && Listed(sentStates, id) == Publish(old(Listed(sentStates, id)), state)
      ensures forall other :: other != id ==> Listed(sentStates, other) == old(Listed(sentStates, other))
    {
      if state == ConnectingState && id in publishedStates && publishedStates[id] == state { return; }
      publishedStates := publishedStates[id := state];
      sentStates := sentStates[id := Listed(sentStates, id) + [state]];
      forall other ensures Get(publishedStates, other) == LastOf(Listed(sentStates, other)) {
        assert other != id ==> old(Get(publishedStates, other)) == LastOf(old(Listed(sentStates, other)));
      }
    }

    method InstallRuntime(id: TargetId, capabilities: Capabilities, paired: bool, ghost ops: map<OpId, Stage>)
      requires Valid()
      modifies this
      ensures Valid() && View(id, ops) == Install(old(View(id, ops)), capabilities, paired)
      ensures forall other :: other != id ==> View(other, ops) == old(View(other, ops))
    {
      var generation := Generation(id) + 1;
      AddClient(id, Client(generation, Other, capabilities, paired, false, false));
      PublishState(id, ConnectingState);
      connectAttempts := connectAttempts[id := generation];
    }

    /** A client becomes the runtime, and its generation the target's. */
    method AddClient(id: TargetId, client: Client)
      modifies this`generations, this`clients, this`runtimes
      ensures Generation(id) == client.generation && Get(runtimes, id) == Some(|old(Listed(clients, id))|)
      ensures Listed(clients, id) == old(Listed(clients, id)) + [client]
      ensures forall other :: other != id ==>
                && Generation(other) == old(Generation(other)) && Get(runtimes, other) == old(Get(runtimes, other))
                && Listed(clients, other) == old(Listed(clients, other))
    {
      var known := Listed(clients, id);
      generations := generations[id := client.generation];
      clients := clients[id := known + [client]];
      runtimes := runtimes[id := |known|];
    }

    ghost method Notify(id: TargetId, c: ClientId)
      modifies this`sentNotices
      ensures sentNotices == old(sentNotices)[id := old(Listed(sentNotices, id)) + [ClientNotice(c)]]
    {
      sentNotices := sentNotices[id := Listed(sentNotices, id) + [ClientNotice(c)]];
    }

    method OnClientState(id: TargetId, c: ClientId, state: ClientState, ghost ops: map<OpId, Stage>)
      requires Valid() && c < |Listed(clients, id)|
      modifies this
      ensures Valid() && View(id, ops) == Moved(old(View(id, ops)), c, state)
      ensures forall other :: other != id ==> View(other, ops) == old(View(other, ops))
    {
      SetState(id, c, state);
      if Generation(id) == Listed(clients, id)[c].generation {
        Notify(id, c);
        PublishState(id, StateFor(state));
      }
    }

    method SetState(id: TargetId, c: ClientId, state: ClientState)
      requires c < |Listed(clients, id)|
      modifies this`clients
      ensures Listed(clients, id) == old(Listed(clients, id))[c := old(Listed(clients, id))[c].(state := state)]
      ensures forall other :: other != id ==> Listed(clients, other) == old(Listed(clients, other))
    {
      clients := clients[id := Listed(clients, id)[c := Listed(clients, id)[c].(state := state)]];
    }

    method OnClientEvent(id: TargetId, c: ClientId, welcome: bool, ghost ops: map<OpId, Stage>)
      requires Valid() && c < |Listed(clients, id)|
      modifies this`latestWelcomes, this`sentNotices
      ensures Valid() && View(id, ops) == Spoke(old(View(id, ops)), c, welcome)
      ensures forall other :: other != id ==> View(other, ops) == old(View(other, ops))
    {
      if Generation(id) != Listed(clients, id)[c].generation { return; }
      if welcome { latestWelcomes := latestWelcomes[id := c]; }
      Notify(id, c);
    }

    /** A client gets ready: its state and its welcome reach the two listeners in one stretch. */
    method OnClientReady(id: TargetId, c: ClientId, ghost ops: map<OpId, Stage>)
      requires Valid() && c < |Listed(clients, id)|
      modifies this
      ensures Valid() && View(id, ops) == Greeted(old(View(id, ops)), c)
      ensures forall other :: other != id ==> View(other, ops) == old(View(other, ops))
    {
      OnClientState(id, c, Ready, ops);
      OnClientEvent(id, c, true, ops);
    }

    method OnAttemptSettled(id: TargetId, c: ClientId, rejected: bool, ghost ops: map<OpId, Stage>)
      requires Valid() && c < |Listed(clients, id)|
      modifies this`connectAttempts, this`sentNotices
      ensures Valid() && View(id, ops) == Settled(old(View(id, ops)), c, rejected)
      ensures forall other :: other != id ==> View(other, ops) == old(View(other, ops))
    {
      var generation := Listed(clients, id)[c].generation;
      if rejected && Generation(id) == generation { Notify(id, c); }
      if id in connectAttempts && connectAttempts[id] == generation { connectAttempts := connectAttempts - {id}; }
    }

    /** connectNow's decision after its lookup: whether the installed client is reused, and whether something is awaited. */
    method ReuseRuntime(id: TargetId, capabilities: Capabilities, ghost ops: map<OpId, Stage>, op: OpId, goal: Goal)
      returns (reused: bool, waits: bool)
      requires Valid()
      modifies this
      ensures Valid()
      ensures reused ==> View(id, Connectable(old(View(id, ops)), op, goal, waits).ops)
                         == LookedUp(old(View(id, ops)), op, goal, capabilities)
      ensures !reused ==> View(id, ops[op := Closing(goal, capabilities, waits)])
                          == LookedUp(old(View(id, ops)), op, goal, capabilities)
      ensures id in old(runtimes) && old(runtimes)[id] < |Listed(old(clients), id)| && id in old(latestWelcomes)
              && Listed(old(clients), id)[old(runtimes)[id]].state == Ready
              && Listed(old(clients), id)[old(runtimes)[id]].capabilities == capabilities ==>
                && reused && !waits && runtimes == old(runtimes) && clients == old(clients)
                && Listed(sentNotices, id) == old(Listed(sentNotices, id)) + [Replayed(old(latestWelcomes)[id], old(runtimes)[id])]
      ensures forall other :: other != id ==> View(other, ops) == old(View(other, ops))
    {
      if id in runtimes && runtimes[id] < |Listed(clients, id)| {
        var client := Listed(clients, id)[runtimes[id]];
        if client.capabilities == capabilities {
          if client.state == Ready {
            if id in latestWelcomes {
              sentNotices := sentNotices[id := Listed(sentNotices, id) + [Replayed(latestWelcomes[id], runtimes[id])]];
            }
            return true, false;
          }
          if client.state in {Connecting, Handshaking, NeedsPairing, ReconnectWait} {
            return true, id in connectAttempts && connectAttempts[id] == client.generation;
          }
        }
      }
      reused, waits := false, id in runtimes;
      CloseRuntimeNow(id, ops);
    }
  }
}
