/** The server-sent-event fan-out (backend/app.py): a set of subscriber
    queues, each fed by `notify_all`. Queues are modelled as the sequence of
    events put into them; consumption by the streaming route is not part of
    this model. */
module Notify {
  /** The events the poll cycle publishes. */
  datatype Event =
    | ImportantEmail(msgId: string, subject: string, sender: string, replyNeeded: bool,
                     importanceScore: real, replyScore: real, snippet: string, actionable: bool,
                     assistantMessage: string, assistantSummary: seq<string>, assistantReply: string)
    | AuthRequired
    | Error(message: string)

  /** One subscriber's `asyncio.Queue`. */
  class EventQueue {
    var items: seq<Event>

    constructor()
      ensures items == []
    {
      items := [];
    }

    /** `queue.put(e)` */
    method Put(e: Event)
      modifies this
      ensures items == old(items) + [e]
    {
      items := items + [e];
    }
  }

  /** The module-level `subscribers` set. */
  class Hub {
    var subscribers: set<EventQueue>

    constructor()
      ensures subscribers == {}
    {
      subscribers := {};
    }

    /** The streaming route registering a new, empty queue. */
    method Subscribe() returns (q: EventQueue)
      modifies this
      ensures fresh(q) && q.items == []
      ensures subscribers == old(subscribers) + {q}
    {
      q := new EventQueue();
      subscribers := subscribers + {q};
    }

    /** The streaming route removing its queue when the client leaves. */
    method Unsubscribe(q: EventQueue)
      modifies this
      ensures subscribers == old(subscribers) - {q}
    {
      subscribers := subscribers - {q};
    }

    /** `notify_all`: every subscriber, in no particular order, gets `e` at
        the end of its queue; the subscriber set and every other object are
        left alone. */
    method NotifyAll(e: Event)
      modifies subscribers
      ensures subscribers == old(subscribers)
      ensures forall q | q in subscribers :: q.items == old(q.items) + [e]
    {
      var remaining := subscribers;
      while remaining != {}
        invariant remaining <= subscribers
        invariant forall q | q in subscribers && q !in remaining :: q.items == old(q.items) + [e]
        invariant forall q | q in remaining :: q.items == old(q.items)
        decreases |remaining|
      {
        var q :| q in remaining;
        q.Put(e);
        remaining := remaining - {q};
      }
    }
  }
}
