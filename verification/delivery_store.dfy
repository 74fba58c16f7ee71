/** Model of the in-memory store in src/notifications/deliveryStore.ts: one record per event and channel. */
module DeliveryStore {
  import opened Common

  datatype Channel = Email | Webhook

  datatype Status = Pending | Delivering | Delivered | Failed

  datatype Record = Record(
    event: string,
    channel: Channel,
    notificationId: string,
    status: Status,
    attempts: nat,
    lastError: Option<string>)

  type Records = map<string, Record>

  function Name(channel: Channel): string {
    match channel
    case Email => "email"
    case Webhook => "webhook"
  }

  function Key(event: string, channel: Channel): string {
    event + ":" + Name(channel)
  }

  /** The key names its event and channel, whatever colons the event id contains. */
  lemma KeyInjective(e: string, c: Channel, f: string, d: Channel)
    requires Key(e, c) == Key(f, d)
    ensures e == f && c == d
  {
    var k := Key(e, c);
    assert k[|k| - 1] == Name(c)[|Name(c)| - 1] && k[|k| - 1] == Name(d)[|Name(d)| - 1];
    assert c == d;
    assert e == k[..|k| - 1 - |Name(c)|] && f == k[..|k| - 1 - |Name(c)|];
  }

  // ---------------------------------------------------------------- the operations on the records

  predicate CanClaim(records: Records, key: string) {
    key in records ==> !records[key].status.Delivered? && !records[key].status.Delivering?
  }

  // The record a granted claim leaves: the first notification id is kept for good.
  function Granted(records: Records, event: string, channel: Channel, notificationId: string): Record {
    var key := Key(event, channel);
    if key in records
    then Record(event, channel, records[key].notificationId, Delivering, records[key].attempts + 1, None)
    else Record(event, channel, notificationId, Delivering, 1, None)
  }

  function WithDelivered(records: Records, key: string): Records {
    if key in records then records[key := records[key].(status := Delivered, lastError := None)] else records
  }

  function WithFailed(records: Records, key: string, error: string): Records {
    if key in records then records[key := records[key].(status := Failed, lastError := Some(error))] else records
  }

  class InMemoryNotificationDeliveryStore {
    var records: Records

    constructor ()
      ensures records == map[]
    {
      records := map[];
    }

    method ClaimDelivery(event: string, channel: Channel, notificationId: string) returns (claimed: Option<Record>)
      modifies this
      ensures claimed.Some? <==> old(CanClaim(records, Key(event, channel)))
      ensures claimed.Some? ==> claimed.value == old(Granted(records, event, channel, notificationId))
      ensures records == if claimed.Some? then old(records)[Key(event, channel) := claimed.value] else old(records)
    {
      var key := Key(event, channel);
      var existing := if key in records then Some(records[key]) else None;
      if existing.Some? && (existing.value.status.Delivered? || existing.value.status.Delivering?) {
        return None;
      }
      var record := Record(
        event,
        channel,
        if existing.Some? then existing.value.notificationId else notificationId,
        Delivering,
        (if existing.Some? then existing.value.attempts else 0) + 1,
        None);
      records := records[key := record];
      return Some(record);
    }

    method MarkDelivered(event: string, channel: Channel)
      modifies this
      ensures records == WithDelivered(old(records), Key(event, channel))
    {
      var key := Key(event, channel);
      if key in records {
        records := records[key := records[key].(status := Delivered, lastError := None)];
      }
    }

    method MarkFailed(event: string, channel: Channel, error: string)
      modifies this
      ensures records == WithFailed(old(records), Key(event, channel), error)
    {
      var key := Key(event, channel);
      if key in records {
        records := records[key := records[key].(status := Failed, lastError := Some(error))];
      }
    }

    method GetDelivery(event: string, channel: Channel) returns (record: Option<Record>)
      ensures record.Some? <==> Key(event, channel) in records
      ensures record.Some? ==> record.value == records[Key(event, channel)]
    {
      var key := Key(event, channel);
      return if key in records then Some(records[key]) else None;
    }
  }
}
