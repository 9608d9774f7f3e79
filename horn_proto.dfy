/** The horn service's protobuf messages, as plain values (the codec is not modelled). */
module HornProto {
  import opened Common

  datatype HornMode = HmUnspecified | HmSequenced | HmContinuous | HmUnknown

  /** One on/off cycle; both durations are milliseconds. */
  datatype HornCycle = HornCycle(onTime: U32, offTime: U32)

  datatype HornSequence = HornSequence(hornCycles: seq<HornCycle>)

  /** `mode` keeps numbers the generated enum does not know, as protobuf does. */
  datatype ActivateHornRequest = ActivateHornRequest(mode: EnumValue<HornMode>, command: seq<HornSequence>)

  /** The deactivate request has no fields. */
  datatype DeactivateHornRequest = DeactivateHornRequest

  /** `google.rpc.Status`; `Status::new()` is code 0 with an empty message. */
  datatype Status = Status(code: int, message: string)

  const DefaultStatus: Status := Status(0, "")

  /** Both RPC responses carry only a status. */
  datatype HornResponse = HornResponse(status: Option<Status>)

  /** What decoding a payload can fail with. */
  datatype DecodeError = DecodeError
}
