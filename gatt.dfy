/** The attribute model shared by both sides of the relay: byte payloads,
    the remote (client-side) characteristics and services found by
    discovery, and the `data` listeners registered on a remote
    characteristic, which turn its notification events into pushes to the
    relay's own subscribers. */
module Gatt {

  newtype byte = x: int | 0 <= x < 256

  type Bytes = seq<byte>

  datatype Option<T> = None | Some(value: T)

  /** The completion of a remote operation, delivered by the client stack:
      an error, or success carrying its value. */
  datatype Completion<T> = Failed | Done(value: T)

  /** Identifies the `updateValueCallback` the server stack handed to one
      subscription. */
  type Subscriber = nat

  /** One call of an `updateValueCallback`: a value pushed to a subscriber. */
  datatype Push = UpdateValue(subscriber: Subscriber, data: Bytes)

  /** A `data` listener. `Forwarder(s)` is the listener a subscription
      registers: it passes the payload to `s` when the event is a
      notification and ignores it otherwise. */
  datatype Listener = Forwarder(subscriber: Subscriber)

  /** What one listener does with a `data` event. */
  function Forward(l: Listener, data: Bytes, isNotification: bool): seq<Push>
  {
    if isNotification then [UpdateValue(l.subscriber, data)] else []
  }

  /** A `data` event runs the listeners in registration order. */
  function Dispatch(listeners: seq<Listener>, data: Bytes, isNotification: bool): (pushes: seq<Push>)
    ensures |pushes| == if isNotification then |listeners| else 0
    ensures forall i :: 0 <= i < |pushes| ==> pushes[i] == UpdateValue(listeners[i].subscriber, data)
  {
    if listeners == [] then []
    else Forward(listeners[0], data, isNotification) + Dispatch(listeners[1..], data, isNotification)
  }

  /** Registering one more forwarder adds exactly one push, to its
      subscriber and after all earlier ones, for each later notification. */
  lemma {:induction false} DispatchAppend(listeners: seq<Listener>, s: Subscriber, data: Bytes, isNotification: bool)
    ensures Dispatch(listeners + [Forwarder(s)], data, isNotification)
         == Dispatch(listeners, data, isNotification) + Forward(Forwarder(s), data, isNotification)
  {
    if listeners == [] {
      assert listeners + [Forwarder(s)] == [Forwarder(s)];
    } else {
      assert (listeners + [Forwarder(s)])[1..] == listeners[1..] + [Forwarder(s)];
      DispatchAppend(listeners[1..], s, data, isNotification);
    }
  }

  /** A characteristic of the connected device, as the client stack exposes
      it. Its uuid and properties are fixed by discovery; the state the relay
      changes is the list of `data` listeners registered on it. */
  class RemoteCharacteristic {
    const uuid: string
    const properties: seq<string>
    var listeners: seq<Listener>

    constructor (uuid: string, properties: seq<string>)
      ensures this.uuid == uuid && this.properties == properties
      ensures listeners == []
    {
      this.uuid := uuid;
      this.properties := properties;
      listeners := [];
    }

    /** The pushes caused by a `data` event `(data, isNotification)`: those
        `Dispatch` gives for the listeners registered now. */
    function DataEvent(data: Bytes, isNotification: bool): seq<Push>
      reads this
    {
      Dispatch(listeners, data, isNotification)
    }
  }

  /** A service of the connected device with its characteristics in
      discovery order. */
  datatype Service = Service(uuid: string, name: string, characteristics: seq<RemoteCharacteristic>)

  /** A discovered peripheral: its address and advertised local name. */
  datatype Peripheral = Peripheral(address: string, localName: string)
}
