/** The vehicle gateway's forwarder: every uProtocol message it receives is re-addressed
    for the other side (cloud or vehicle) and sent on, with its payload untouched. */
module Gateway {
  import opened Common

  /** A uProtocol address. All numeric fields are 32-bit on the wire, although the
      version is meant to fit in 8 bits and the resource in 16. */
  datatype UUri = UUri(authorityName: string, ueId: U32, ueVersionMajor: U32, resourceId: U32)

  /** The all-default address a missing message field reads as. */
  const DefaultUUri: UUri := UUri("", 0, 0, 0)

  datatype Uuid = Uuid(msb: nat, lsb: nat)

  const DefaultUuid: Uuid := Uuid(0, 0)

  datatype UMessageType = UmtUnspecified | UmtPublish | UmtRequest | UmtResponse | UmtNotification

  datatype UPayloadFormat =
    | UpfUnspecified | UpfProtobufWrappedInAny | UpfProtobuf | UpfJson
    | UpfSomeip | UpfSomeipTlv | UpfRaw | UpfText

  /** The message attributes the forwarder reads or the message builders set; `None` is a
      message field that is not present. */
  datatype UAttributes = UAttributes(
    id: Uuid,
    type_: EnumValue<UMessageType>,
    source: Option<UUri>,
    sink: Option<UUri>,
    ttl: Option<U32>,
    reqid: Option<Uuid>,
    payloadFormat: EnumValue<UPayloadFormat>)

  datatype UMessage = UMessage(attributes: UAttributes, payload: Option<seq<Byte>>)

  /** Why `on_receive` panics, one reason per `unwrap` or `panic!` it can hit. */
  datatype Panic =
    | UnknownMessageType       // `type_.enum_value().unwrap()` on a number with no name
    | UnsupportedMessageType   // neither a request nor a response
    | MissingTtl               // a request without a ttl
    | MissingPayload
    | UnknownPayloadFormat     // `payload_format.enum_value().unwrap()` on a number with no name

  const CloudAuthority: string := "cloud"
  /** The authority of the device the vehicle's uEntities live on. */
  const DeviceAuthority: string := "hcp5"
  /** The vehicle's identification number, the authority the cloud knows it by. */
  const VehicleAuthority: string := "WAUWAUGRRWAUWAU"

  /** A message field read through protobuf's accessor: a missing field reads as the default. */
  function OrDefault(u: Option<UUri>): (r: UUri)
    ensures u.Some? ==> r == u.value
    ensures u.None? ==> r.authorityName == "" && r.ueId == 0 && r.ueVersionMajor == 0 && r.resourceId == 0
  {
    if u.Some? then u.value else DefaultUUri
  }

  function UuidOrDefault(u: Option<Uuid>): Uuid {
    if u.Some? then u.value else DefaultUuid
  }

  /** The authority the forwarded address gets: messages from the cloud go to the device,
      everything else goes to the cloud under the vehicle's identity. */
  function ForwardAuthority(msg: UMessage): (r: string)
    ensures r == DeviceAuthority <==> OrDefault(msg.attributes.source).authorityName == CloudAuthority
    ensures r == VehicleAuthority <==> OrDefault(msg.attributes.source).authorityName != CloudAuthority
  {
    if OrDefault(msg.attributes.source).authorityName == CloudAuthority then DeviceAuthority else VehicleAuthority
  }

  /** `UUri::try_from_parts(authority, ue_id, version as u8, resource as u16)`: the version
      and resource are truncated to their low 8 and 16 bits. */
  function Readdress(authority: string, u: UUri): (r: UUri)
    ensures r.authorityName == authority && r.ueId == u.ueId
    ensures r.ueVersionMajor < 0x100 && r.resourceId < 0x1_0000
    ensures u.ueVersionMajor < 0x100 ==> r.ueVersionMajor == u.ueVersionMajor
    ensures u.resourceId < 0x1_0000 ==> r.resourceId == u.resourceId
    ensures exists k: nat :: u.ueVersionMajor == r.ueVersionMajor + 0x100 * k
    ensures exists k: nat :: u.resourceId == r.resourceId + 0x1_0000 * k
  {
    var r := UUri(authority, u.ueId, u.ueVersionMajor % 0x100, u.resourceId % 0x1_0000);
    assert u.ueVersionMajor == r.ueVersionMajor + 0x100 * (u.ueVersionMajor / 0x100);
    assert u.resourceId == r.resourceId + 0x1_0000 * (u.resourceId / 0x1_0000);
    r
  }

  /** `GatewayForwarder::on_receive`, up to the message handed to the transport. `freshId` is
      the identifier the message builder generates. */
  function OnReceive(msg: UMessage, freshId: Uuid): (r: Result<UMessage, Panic>)
    // the panics, in the order the code reaches them
    ensures msg.attributes.type_.Unrecognized? ==> r == Err(UnknownMessageType)
    ensures msg.attributes.type_.Known? && msg.attributes.type_.value !in {UmtRequest, UmtResponse} ==>
              r == Err(UnsupportedMessageType)
    ensures msg.attributes.type_ == Known(UmtRequest) && msg.attributes.ttl.None? ==> r == Err(MissingTtl)
    ensures r.Ok? <==> IsForwardable(msg)
    // what is forwarded
    ensures r.Ok? ==> r.value.payload == msg.payload
    ensures r.Ok? ==> r.value.attributes.payloadFormat == msg.attributes.payloadFormat
    ensures r.Ok? ==> r.value.attributes.type_ == msg.attributes.type_ && r.value.attributes.id == freshId
    // a request goes to the re-addressed sink and keeps its reply-to address and ttl
    ensures r.Ok? && msg.attributes.type_ == Known(UmtRequest) ==>
              r.value.attributes.sink == Some(Readdress(ForwardAuthority(msg), OrDefault(msg.attributes.sink))) &&
              r.value.attributes.source == Some(OrDefault(msg.attributes.source)) &&
              r.value.attributes.ttl == msg.attributes.ttl && r.value.attributes.reqid.None?
    // a response comes from the re-addressed source, back to the original sink, under the original id
    ensures r.Ok? && msg.attributes.type_ == Known(UmtResponse) ==>
              r.value.attributes.source == Some(Readdress(ForwardAuthority(msg), OrDefault(msg.attributes.source))) &&
              r.value.attributes.sink == Some(OrDefault(msg.attributes.sink)) &&
              r.value.attributes.reqid == Some(UuidOrDefault(msg.attributes.reqid)) && r.value.attributes.ttl.None?
  {
    var a := msg.attributes;
    var authority := ForwardAuthority(msg);
    match a.type_
    case Unrecognized(_) => Err(UnknownMessageType)
    case Known(t) =>
      if t == UmtRequest then
        if a.ttl.None? then Err(MissingTtl)
        else Build(msg, UAttributes(freshId, a.type_, Some(OrDefault(a.source)),
                                    Some(Readdress(authority, OrDefault(a.sink))), a.ttl, None, a.payloadFormat))
      else if t == UmtResponse then
        Build(msg, UAttributes(freshId, a.type_, Some(Readdress(authority, OrDefault(a.source))),
                               Some(OrDefault(a.sink)), None, Some(UuidOrDefault(a.reqid)), a.payloadFormat))
      else Err(UnsupportedMessageType)
  }

  /** `build_with_payload(msg.payload.unwrap(), msg.payload_format.enum_value().unwrap())`. */
  function Build(msg: UMessage, attributes: UAttributes): (r: Result<UMessage, Panic>)
    ensures msg.payload.None? ==> r == Err(MissingPayload)
    ensures msg.payload.Some? && attributes.payloadFormat.Unrecognized? ==> r == Err(UnknownPayloadFormat)
    ensures msg.payload.Some? && attributes.payloadFormat.Known? ==> r == Ok(UMessage(attributes, msg.payload))
  {
    if msg.payload.None? then Err(MissingPayload)
    else if attributes.payloadFormat.Unrecognized? then Err(UnknownPayloadFormat)
    else Ok(UMessage(attributes, msg.payload))
  }

  /** The messages the forwarder passes on without panicking. */
  predicate IsForwardable(msg: UMessage) {
    var a := msg.attributes;
    ((a.type_ == Known(UmtRequest) && a.ttl.Some?) || a.type_ == Known(UmtResponse)) &&
    msg.payload.Some? && a.payloadFormat.Known?
  }

  /** Forwarding a request twice addresses it as forwarding it once: the source, and with it
      the authority choice, is kept, and truncating an already truncated field changes nothing. */
  lemma {:induction false} RequestForwardIdempotent(msg: UMessage, id1: Uuid, id2: Uuid)
    requires IsForwardable(msg) && msg.attributes.type_ == Known(UmtRequest)
    ensures OnReceive(msg, id1).Ok?
    ensures var once := OnReceive(msg, id1).value;
      OnReceive(once, id2).Ok? &&
      OnReceive(once, id2).value.attributes == once.attributes.(id := id2)
  {
    var once := OnReceive(msg, id1).value;
    assert ForwardAuthority(once) == ForwardAuthority(msg);
  }

  /** A request from the cloud travels to the device; the service there answers it (the
      response goes from the invoked method back to the request's reply-to address, under
      the id of the request the device saw); the gateway forwards the answer. It reaches the
      cloud caller's own address, and its source names the invoked method under the vehicle's
      identity. The request id it carries is the one the builder generated for the forwarded
      request, never the id the cloud caller gave its own request: a caller that pairs replies
      with requests by id cannot pair this one. */
  lemma {:induction false} CloudRoundTrip(request: UMessage, reqId: Uuid, respId: Uuid, answer: seq<Byte>)
    requires IsForwardable(request) && request.attributes.type_ == Known(UmtRequest)
    requires OrDefault(request.attributes.source).authorityName == CloudAuthority
    ensures OnReceive(request, reqId).Ok?
    ensures
      var inVehicle := OnReceive(request, reqId).value.attributes;
      var response := UMessage(UAttributes(respId, Known(UmtResponse), inVehicle.sink, inVehicle.source,
                                           None, Some(inVehicle.id), request.attributes.payloadFormat), Some(answer));
      var invoked := OrDefault(request.attributes.sink);
      inVehicle.sink.value.authorityName == DeviceAuthority &&
      OnReceive(response, respId).Ok? &&
      OnReceive(response, respId).value.attributes.sink == Some(OrDefault(request.attributes.source)) &&
      OnReceive(response, respId).value.attributes.reqid == Some(reqId) &&
      (reqId != request.attributes.id ==>
         OnReceive(response, respId).value.attributes.reqid != Some(request.attributes.id)) &&
      OnReceive(response, respId).value.attributes.source ==
        Some(UUri(VehicleAuthority, invoked.ueId, invoked.ueVersionMajor % 0x100, invoked.resourceId % 0x1_0000)) &&
      OnReceive(response, respId).value.payload == Some(answer)
  {
    var inVehicle := OnReceive(request, reqId).value.attributes;
    assert inVehicle.sink.value.authorityName == DeviceAuthority;
  }
}
