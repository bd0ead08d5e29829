/** `DomainService.PublishEventAsync` and the event publisher it drives. The
    publisher of the repository does nothing with an event; here it records
    every event it is handed, which is all a caller can observe of it. */
module DomainService {
  import opened Domain

  class EventPublisher {
    /** Every event handed to `PublishAsync`, oldest first; one entry per call. */
    var sent: seq<DomainEvent>

    constructor ()
      ensures sent == []
    {
      sent := [];
    }

    method PublishAsync(e: DomainEvent)
      modifies this
      ensures sent == old(sent) + [e]
    {
      sent := sent + [e];
    }
  }

  /** Hands every pending event of `aggregate` to the publisher, in list
      order, then clears the list. */
  method PublishEventAsync(publisher: EventPublisher, aggregate: Review)
    modifies publisher, aggregate`domainEvents
    ensures publisher.sent == old(publisher.sent) + old(aggregate.domainEvents)
    ensures aggregate.domainEvents == []
  {
    var pending := aggregate.DomainEvents();
    for i := 0 to |pending|
      invariant publisher.sent == old(publisher.sent) + pending[..i]
      invariant aggregate.domainEvents == pending
    {
      publisher.PublishAsync(pending[i]);
    }
    aggregate.ClearDomainEvents();
  }

  /** Publishing the same aggregate twice in a row: the second round sends
      nothing, and an aggregate with no pending events sends nothing at all. */
  method PublishTwice(publisher: EventPublisher, aggregate: Review)
    modifies publisher, aggregate`domainEvents
    ensures publisher.sent == old(publisher.sent) + old(aggregate.domainEvents)
    ensures old(aggregate.domainEvents) == [] ==> publisher.sent == old(publisher.sent)
    ensures aggregate.domainEvents == []
  {
    PublishEventAsync(publisher, aggregate);
    ghost var afterFirst := publisher.sent;
    PublishEventAsync(publisher, aggregate);
    assert publisher.sent == afterFirst + [];
  }
}
