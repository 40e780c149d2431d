/** The event bus as its callers see it: one list of handlers per event type. */
module Events {

  type Handler = nat

  type Subscribers = map<string, seq<Handler>>

  const DEFAULT_BUFFER := 100

  /** The handlers a publish of this event type would snapshot. */
  function HandlersIn(lists: Subscribers, eventType: string): seq<Handler> {
    if eventType in lists then lists[eventType] else []
  }

  function Subscribed(lists: Subscribers, eventType: string, handler: Handler): Subscribers {
    lists[eventType := HandlersIn(lists, eventType) + [handler]]
  }

  class EventBus {
    var subscribers: Subscribers
    const bufferSize: int

    constructor (requested: int)
      ensures subscribers == map[]
      ensures bufferSize == if requested <= 0 then 100 else requested
    {
      subscribers := map[];
      bufferSize := if requested <= 0 then DEFAULT_BUFFER else requested;
    }

    method Subscribe(eventType: string, handler: Handler)
      modifies this
      ensures subscribers == Subscribed(old(subscribers), eventType, handler)
      ensures eventType in subscribers && subscribers[eventType] ==
                (if eventType in old(subscribers) then old(subscribers)[eventType] else []) + [handler]
      ensures subscribers - {eventType} == old(subscribers) - {eventType}
      ensures HandlersIn(subscribers, eventType) == old(HandlersIn(subscribers, eventType)) + [handler]
      ensures forall t :: t != eventType ==> HandlersIn(subscribers, t) == old(HandlersIn(subscribers, t))
    {
      if eventType !in subscribers {
        subscribers := subscribers[eventType := []];
      }
      subscribers := subscribers[eventType := subscribers[eventType] + [handler]];
    }

    method Unsubscribe(eventType: string)
      modifies this
      ensures subscribers == old(subscribers) - {eventType}
      ensures HandlersIn(subscribers, eventType) == []
      ensures forall t :: t != eventType ==> HandlersIn(subscribers, t) == old(HandlersIn(subscribers, t))
    {
      subscribers := subscribers - {eventType};
    }

    method Clear()
      modifies this
      ensures subscribers == map[]
      ensures forall t :: HandlersIn(subscribers, t) == []
    {
      subscribers := map[];
    }
  }
}
