/** The characteristic proxy: the server-side characteristic that mirrors one
    remote characteristic and forwards every request to it.

    Each handler is one atomic step: the request it issues to the remote
    characteristic is returned as `call`, the completion the client stack
    delivers for it is an input, and the callback of the server stack that
    the handler invokes, if any, is returned as `callback`. The handlers'
    console.assert checks (offset 0, the required property) only log in
    Node.js and never stop the handler, so they constrain nothing here. */
module Proxy {
  import opened Gatt

  /** A request the proxy issues to its remote characteristic. */
  datatype RemoteCall =
    | RemoteRead
    | RemoteWrite(data: Bytes, withoutResponse: bool)
    | RemoteSubscribe
    | RemoteUnsubscribe

  /** A server-stack callback invoked with `RESULT_SUCCESS`: the read value,
      or the acknowledgement of a write. */
  datatype ServerCallback = ReadSuccess(data: Bytes) | WriteSuccess

  class CopiedCharacteristic {
    const uuid: string
    const properties: seq<string>
    const remote: RemoteCharacteristic

    /** The mirror takes uuid and properties from the remote characteristic
        and keeps a reference to it; being constants, they stay equal to the
        remote ones for the life of the mirror. */
    constructor (characteristic: RemoteCharacteristic)
      ensures remote == characteristic
      ensures uuid == characteristic.uuid && properties == characteristic.properties
    {
      uuid := characteristic.uuid;
      properties := characteristic.properties;
      remote := characteristic;
    }

    /** `onReadRequest`: one remote read; on success the server callback is
        called once with the remote value unchanged, on error never. */
    method OnReadRequest(offset: int, completion: Completion<Bytes>)
      returns (call: RemoteCall, callback: Option<ServerCallback>)
      ensures call == RemoteRead
      ensures callback.Some? <==> completion.Done?
      ensures completion.Done? ==> callback.value == ReadSuccess(completion.value)
    {
      call := RemoteRead;
      match completion {
        case Failed =>
          callback := None;
        case Done(data) =>
          callback := Some(ReadSuccess(data));
      }
    }

    /** `onWriteRequest`: one remote write of exactly `data` with the
        caller's `withoutResponse` flag; the server callback reports success
        only when the remote write had no error. */
    method OnWriteRequest(data: Bytes, offset: int, withoutResponse: bool, completion: Completion<()>)
      returns (call: RemoteCall, callback: Option<ServerCallback>)
      ensures call == RemoteWrite(data, withoutResponse)
      ensures callback.Some? <==> completion.Done?
      ensures callback.Some? ==> callback.value == WriteSuccess
    {
      call := RemoteWrite(data, withoutResponse);
      if completion.Failed? {
        callback := None;
      } else {
        callback := Some(WriteSuccess);
      }
    }

    /** `onSubscribe`: one remote subscribe, and a forwarder for
        `updateValueCallback` added after the listeners already registered.
        The subscribe completion is only logged, so the forwarder is added
        whatever it reports. */
    method OnSubscribe(maxValueSize: int, updateValueCallback: Subscriber)
      returns (call: RemoteCall)
      modifies remote
      ensures call == RemoteSubscribe
      ensures remote.listeners == old(remote.listeners) + [Forwarder(updateValueCallback)]
    {
      call := RemoteSubscribe;
      remote.listeners := remote.listeners + [Forwarder(updateValueCallback)];
    }

    /** `onUnsubscribe`: one remote unsubscribe, and `removeAllListeners`,
        which leaves the remote characteristic with no listener at all. */
    method OnUnsubscribe() returns (call: RemoteCall)
      modifies remote
      ensures call == RemoteUnsubscribe
      ensures remote.listeners == []
    {
      call := RemoteUnsubscribe;
      remote.listeners := [];
    }
  }

  /** After a subscription, a notification carrying `data` reaches the new
      subscriber once, in addition, after the earlier ones; an
      event that is not a notification reaches nobody. */
  lemma SubscribeThenNotify(before: seq<Listener>, s: Subscriber, data: Bytes)
    ensures Dispatch(before + [Forwarder(s)], data, true) == Dispatch(before, data, true) + [UpdateValue(s, data)]
    ensures Dispatch(before + [Forwarder(s)], data, false) == []
  {
    DispatchAppend(before, s, data, true);
  }

  /** The relay of notifications through one proxy, from a fresh remote
      characteristic: a subscribe, a notification 0xCAFE forwarded once, a
      data event that is not a notification dropped, an unsubscribe, and a
      notification that is no longer forwarded. */
  method NotificationRelay()
  {
    var remote := new RemoteCharacteristic("2a37", ["notify"]);
    var copied := new CopiedCharacteristic(remote);
    var call := copied.OnSubscribe(20, 1);
    assert call == RemoteSubscribe;
    var cafe: Bytes := [0xCA, 0xFE];
    var pushes := remote.DataEvent(cafe, true);
    assert pushes == [UpdateValue(1, cafe)];
    pushes := remote.DataEvent(cafe, false);
    assert pushes == [];
    call := copied.OnUnsubscribe();
    assert call == RemoteUnsubscribe;
    pushes := remote.DataEvent(cafe, true);
    assert pushes == [];
  }

  /** Read-through and write-through on one proxy: the value 0x0102 read
      remotely is returned as it is, and a write of 0xAABB with response
      issues exactly that remote write and succeeds only if it does. */
  method ReadAndWriteThrough()
  {
    var remote := new RemoteCharacteristic("2a19", ["read", "write"]);
    var copied := new CopiedCharacteristic(remote);
    var value: Bytes := [0x01, 0x02];
    var call, callback := copied.OnReadRequest(0, Done(value));
    assert call == RemoteRead && callback == Some(ReadSuccess(value));
    call, callback := copied.OnReadRequest(0, Failed);
    assert callback == None;
    var payload: Bytes := [0xAA, 0xBB];
    call, callback := copied.OnWriteRequest(payload, 0, false, Done(()));
    assert call == RemoteWrite(payload, false) && callback == Some(WriteSuccess);
    call, callback := copied.OnWriteRequest(payload, 0, false, Failed);
    assert callback == None;
  }
}
