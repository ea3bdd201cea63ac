/** The module state of src/routes/pubsub.ts and the code that changes it, stretch by stretch. Each method
    takes the step Subscriptions.dfy gives for it. */
module SubscriptionServers {
  import opened SlotLimiting
  import opened Subscriptions

  class SubscriptionServer {
    const limiter: SlotLimiter
    var active: set<nat>
    var shuttingDown: bool
    var swept: bool
    var handlers: map<nat, Handler>    // the local variables of each handler

    function State(): Server
      reads this, limiter
    {
      Server(limiter.max, limiter.used, active, shuttingDown, swept, handlers)
    }

    constructor (max: nat)
      ensures State() == Start(max) && fresh(limiter)
    {
      limiter := new SlotLimiter(max);
      active, shuttingDown, swept, handlers := {}, false, false, map[];
    }

    method Put(id: nat, h: Handler)
      modifies this
      ensures State() == Subscriptions.Put(old(State()), id, h)
    {
      handlers := handlers[id := h];
    }

    /** The start of a handler, up to its first await. */
    method HandleRequest(id: nat, kind: Kind, valid: bool)
      requires Enabled(State(), Request(id, kind, valid))
      modifies this, limiter
      ensures State() == Step(old(State()), Request(id, kind, valid))
    {
      if !valid || shuttingDown {
        Put(id, NewHandler(kind, Refused));
        return;
      }
      var ok := limiter.Reserve();
      Put(id, NewHandler(kind, if ok then Connecting else Refused));
    }

    /** The handler's way out: unregister, release, close the connection. */
    method Leave(id: nat)
      requires id in handlers
      modifies this, limiter
      ensures State() == Exit(old(State()), id)
    {
      active := active - {id};
      limiter.Release();
      var h := handlers[id];
      Put(id, h.(phase := Exited, releases := h.releases + 1, link := if h.link.Open? then Closed else h.link));
    }

    method ConnectionFailed(id: nat)
      requires Enabled(State(), OpenFails(id))
      modifies this, limiter
      ensures State() == Step(old(State()), OpenFails(id))
    {
      Leave(id);
    }

    method ConnectionOpened(id: nat)
      requires Enabled(State(), Opens(id))
      modifies this, limiter
      ensures State() == Step(old(State()), Opens(id))
    {
      var h := handlers[id];
      Put(id, h.(phase := AfterOpening(h.kind)));
      active := active + {id};
      // Shutdown, or the client's departure, may have come while the connection was opening.
      if shuttingDown || (h.kind.Pattern? && h.disconnected) {
        Leave(id);
      }
    }

    /** The client's departure: the onAbort callback, where it is registered. */
    method ClientLeft(id: nat)
      requires Enabled(State(), Aborts(id))
      modifies this
      ensures State() == Step(old(State()), Aborts(id))
    {
      var h := handlers[id].(gone := true);
      if Hears(handlers[id]) {
        h := h.(ended := true, disconnected := true);
      }
      Put(id, h);
    }

    /** The end of the connection: the onclose callback, or the closed promise of a pattern subscription. */
    method ConnectionDropped(id: nat)
      requires Enabled(State(), Drops(id))
      modifies this
      ensures State() == Step(old(State()), Drops(id))
    {
      if Hears(handlers[id]) {
        Put(id, handlers[id].(ended := true));
      }
    }

    method SubscribeSettled(id: nat, ok: bool)
      requires Enabled(State(), SubscribeSettles(id, ok))
      modifies this, limiter
      ensures State() == Step(old(State()), SubscribeSettles(id, ok))
    {
      if ok {
        Put(id, handlers[id].(phase := Confirming));
      } else {
        Leave(id);
      }
    }

    method ConfirmationSettled(id: nat, ok: bool)
      requires Enabled(State(), ConfirmationSettles(id, ok))
      modifies this, limiter
      ensures State() == Step(old(State()), ConfirmationSettles(id, ok))
    {
      if ok {
        Put(id, handlers[id].(phase := Listening));
      } else {
        Leave(id);
      }
    }

    method ListeningEnded(id: nat)
      requires Enabled(State(), Finishes(id))
      modifies this, limiter
      ensures State() == Step(old(State()), Finishes(id))
    {
      Leave(id);
    }

    /** `closeAllSubscriptions`: a snapshot of the registry, then each entry in turn. */
    method CloseAllSubscriptions()
      requires Enabled(State(), CloseAll)
      modifies this
      ensures State() == Step(old(State()), CloseAll)
    {
      ghost var before := State();
      var entries := active;
      swept := true;
      while entries != {}
        invariant entries <= before.active && active == entries
        invariant shuttingDown == before.shuttingDown && swept
        invariant handlers == map id | id in before.handlers ::
                    if id in before.active - entries
                    then before.handlers[id].(link := Closed, ended := true, disconnected := true)
                    else before.handlers[id]
        decreases entries
      {
        var id :| id in entries;
        entries := entries - {id};
        active := active - {id};
        if id in handlers {
          handlers := handlers[id := handlers[id].(link := Closed, ended := true, disconnected := true)];
        }
      }
    }
  }
}
