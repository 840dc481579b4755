/** Routing of a received frame to its decoder by frame type, profile,
    cluster and cluster command, and the reactions the routing triggers:
    keypad events, and the messages sent back to the device during the join
    handshake and after power and security reports. */
module Dispatch {
  import opened Js
  import opened Generators
  import opened Decoders

  const FrameAtResponse := 0x88
  const FrameTxStatus := 0x8B
  const FrameExplicitRx := 0x91

  /** A frame delivered by the XBee API layer. Absent addresses are None. */
  datatype Frame = Frame(
    frameType: int,
    remote64: Option<string>,
    remote16: Option<string>,
    profileId: string,
    clusterId: string,
    data: Bytes,
    command: string,
    commandData: Bytes)

  /** The AlertMe cluster command: `data[2]`, or 0 when it is missing. */
  function CommandByte(data: Bytes): byte {
    if 2 < |data| then data[2] else 0
  }

  /** Bytes 3 to 5 of a security report that ask for initialisation. */
  const SecuritySignature: Bytes := [0x15, 0x00, 0x39]

  /** Something the engine hands to the outside world. */
  datatype Effect =
    | Publish(topic: string, value: Value, retain: bool)
    | PersistStatus
    | KeypadEvent(attrs: Attrs)
    | Send(delaySec: nat, message: string, params: Option<Params>, remote64: string)

  /** The parameters the join handshake passes along: the sender's network
      address and the sequence number it used. */
  function HandshakeParams(remote16: string, data: Bytes): Params {
    NoParams.(remote16 := Some(remote16), zdoSequenceNumber := At(data, 0))
  }

  const CheckSwitch := NoParams.(switchState := ArgString("check"))
  const NormalMode := NoParams.(mode := Some("normal"))

  /** The decoded attributes of an explicit-RX frame and the reactions sent
      while decoding it. `remote64` is the resolved node key, `remote16` the
      frame's network address, `model` the node's stored model name and
      `offset` its configured temperature offset. */
  datatype Routed = Routed(decoded: Decoded, reactions: seq<Effect>)

  function RouteAlertMe(f: Frame, remote64: string, model: Value, offset: Option<real>): (r: Routed)
    ensures forall e :: e in r.reactions ==>
              e.KeypadEvent? || e == Send(0, "switchStateRequest", Some(CheckSwitch), remote64) ||
              e == Send(0, "securityInit", None, remote64)
  {
    var cmd := CommandByte(f.data);
    if f.clusterId == ClusterAttribute then
      Routed(Attributes(ParseAttribute(f.data)),
             if At(f.data, 2) == Some(0x0A) then [KeypadEvent(ParseAttribute(f.data))] else [])
    else if f.clusterId == ClusterButton then Routed(Attributes(ParseButtonPress(f.data)), [])
    else if f.clusterId == ClusterDiscovery then
      if cmd == 0xFD then Routed(Attributes(ParseRangeInfoUpdate(f.data)), [])
      else if cmd == 0xFE then Routed(Attributes(ParseVersionInfoUpdate(f.data)), [])
      else Routed(NoAttributes, [])
    else if f.clusterId == ClusterPower then
      if cmd == 0x82 then
        var d := ParsePowerConsumption(f.data);
        Routed(d, if d.RangeError? then [] else [Send(0, "switchStateRequest", Some(CheckSwitch), remote64)])
      else if cmd == 0x81 then Routed(ParseActivePower(f.data), [])
      else if cmd == 0x86 then Routed(Attributes(ParsePowerUnknown(f.data)), [])
      else Routed(NoAttributes, [])
    else if f.clusterId == ClusterSecurity then
      if |f.data| < 6 then Routed(RangeError, [])
      else Routed(Attributes(ParseSecurityState(f.data, model)),
                  if f.data[3..6] == SecuritySignature then [Send(0, "securityInit", None, remote64)] else [])
    else if f.clusterId == ClusterStatus then
      if cmd == 0xFB then Routed(ParseStatusUpdate(f.data, offset), []) else Routed(NoAttributes, [])
    else if f.clusterId == ClusterSwitch then
      if cmd == 0x80 then Routed(Attributes(ParseSwitchStateUpdate(f.data)), []) else Routed(NoAttributes, [])
    else if f.clusterId == ClusterTamper then Routed(Attributes(ParseTamperState(f.data)), [])
    else Routed(NoAttributes, [])
  }

  function RouteZdp(f: Frame, remote64: string, remote16: string): (r: Routed)
    ensures forall e :: e in r.reactions ==>
              e == Send(5, "modeChangeRequest", Some(NormalMode), remote64) ||
              e == Send(7, "versionInfoRequest", None, remote64) ||
              e == Send(1, "matchDescriptorResponse", Some(HandshakeParams(remote16, f.data)), remote64) ||
              e == Send(3, "activeEndpointRequest", Some(HandshakeParams(remote16, f.data)), remote64)
  {
    if f.clusterId == ZdoActiveEndpointResponse then
      Routed(Attributes([]),
             [Send(5, "modeChangeRequest", Some(NormalMode), remote64),
              Send(7, "versionInfoRequest", None, remote64)])
    else if f.clusterId == ZdoMatchDescriptorRequest then
      Routed(NoAttributes,
             [Send(1, "matchDescriptorResponse", Some(HandshakeParams(remote16, f.data)), remote64),
              Send(3, "activeEndpointRequest", Some(HandshakeParams(remote16, f.data)), remote64)])
    else Routed(NoAttributes, [])
  }

  /** The decoding step of `parseFrame`: only explicit-RX frames of the
      AlertMe and device profiles carry attributes or trigger reactions. */
  function Route(f: Frame, remote64: string, remote16: string, model: Value, offset: Option<real>): (r: Routed)
    ensures r.decoded.RangeError? ==> r.reactions == []
    ensures f.frameType != FrameExplicitRx ==> r == Routed(NoAttributes, [])
    ensures forall e :: e in r.reactions && e.Send? ==> e.remote64 == remote64
  {
    if f.frameType != FrameExplicitRx then Routed(NoAttributes, [])
    else if f.profileId == ProfileAlertMe then RouteAlertMe(f, remote64, model, offset)
    else if f.profileId == ProfileZdp then RouteZdp(f, remote64, remote16)
    else Routed(NoAttributes, [])
  }

  /** A security report asks for initialisation exactly when bytes 3 to 5
      are 15 00 39; a report shorter than six bytes throws instead. */
  lemma SecurityInitTrigger(f: Frame, remote64: string, remote16: string, model: Value, offset: Option<real>)
    requires f.frameType == FrameExplicitRx && f.profileId == ProfileAlertMe && f.clusterId == ClusterSecurity
    ensures var r := Route(f, remote64, remote16, model, offset);
            (|f.data| < 6 <==> r.decoded.RangeError?) &&
            (Send(0, "securityInit", None, remote64) in r.reactions <==>
               |f.data| >= 6 && f.data[3] == 0x15 && f.data[4] == 0x00 && f.data[5] == 0x39)
  {
    var r := Route(f, remote64, remote16, model, offset);
    if |f.data| >= 6 && f.data[3] == 0x15 && f.data[4] == 0x00 && f.data[5] == 0x39 {
      assert f.data[3..6] == SecuritySignature;
    }
  }

  /** Every message a frame's reactions send is built without error once
      the port is open. */
  lemma {:induction false} ReactionsBuild(f: Frame, remote64: string, remote16: string, model: Value, offset: Option<real>)
    ensures forall e :: e in Route(f, remote64, remote16, model, offset).reactions && e.Send? ==>
              GenerateMessage(true, e.message, e.params).Ready?
  {
    var hs := HandshakeParams(remote16, f.data);
    GenerateWithParams("switchStateRequest", CheckSwitch);
    GenerateWithNull("securityInit");
    GenerateWithNull("versionInfoRequest");
    GenerateWithParams("matchDescriptorResponse", hs);
    GenerateWithParams("activeEndpointRequest", hs);
    GenerateWithParams("modeChangeRequest", NormalMode);
  }

  /** The join handshake answers a match descriptor request from `addr`
      with a match descriptor response and an active endpoint request, both
      carrying the request's sequence number; the latter also carries the
      two address bytes. */
  lemma {:induction false} JoinHandshake(f: Frame, remote64: string, addr: Bytes, model: Value, offset: Option<real>)
    requires |addr| == 2
    requires f.frameType == FrameExplicitRx && f.profileId == ProfileZdp && f.clusterId == ZdoMatchDescriptorRequest
    ensures var r := Route(f, remote64, Hex(addr), model, offset).reactions;
            |r| == 2 && r[0].Send? && r[0].delaySec == 1 && r[1].Send? && r[1].delaySec == 3 &&
            GenerateMessage(true, r[0].message, r[0].params) ==
              Ready(OutFrame(ProfileZdp, ZdoMatchDescriptorResponse, EndpointZdo, EndpointZdo,
                             [At(f.data, 0), Some(0x00), Some(0x00), Some(0x00), Some(0x01), Some(0x02)])) &&
            GenerateMessage(true, r[1].message, r[1].params) ==
              Ready(OutFrame(ProfileZdp, ZdoActiveEndpointRequest, EndpointZdo, EndpointZdo,
                             [At(f.data, 0), Some(addr[0] as int), Some(addr[1] as int)]))
  {
    var p := HandshakeParams(Hex(addr), f.data);
    ActiveEndpointRequestEchoes(p, addr);
  }

  /** After the active endpoint response the device is put into normal mode
      (5 s) and asked for its version (7 s). */
  lemma ActiveEndpointFollowUp(f: Frame, remote64: string, remote16: string, model: Value, offset: Option<real>)
    requires f.frameType == FrameExplicitRx && f.profileId == ProfileZdp && f.clusterId == ZdoActiveEndpointResponse
    ensures var r := Route(f, remote64, remote16, model, offset).reactions;
            |r| == 2 && r[0].delaySec == 5 && r[1].delaySec == 7 &&
            GenerateMessage(true, r[0].message, r[0].params) ==
              Ready(OutFrame(ProfileAlertMe, ClusterStatus, EndpointAlertMe, EndpointAlertMe,
                             [Some(0x11), Some(0x00), Some(0xFA), Some(0x00), Some(0x01)])) &&
            GenerateMessage(true, r[1].message, r[1].params) ==
              Ready(OutFrame(ProfileAlertMe, ClusterDiscovery, EndpointZdo, EndpointAlertMe,
                             [Some(0x11), Some(0x00), Some(0xFC)]))
  {
  }

  /** A power consumption report that decodes is followed by a switch state
      query to its sender, and the query builds as the 4-byte check frame. */
  lemma PowerReportQueriesSwitch(f: Frame, remote64: string, remote16: string, model: Value, offset: Option<real>)
    requires f.frameType == FrameExplicitRx && f.profileId == ProfileAlertMe && f.clusterId == ClusterPower
    requires |f.data| >= 11 && f.data[2] == 0x82
    ensures var r := Route(f, remote64, remote16, model, offset);
            r.decoded.Attributes? &&
            r.reactions == [Send(0, "switchStateRequest", Some(CheckSwitch), remote64)] &&
            GenerateMessage(true, "switchStateRequest", Some(CheckSwitch)) ==
              Ready(OutFrame(ProfileAlertMe, ClusterSwitch, EndpointZdo, EndpointAlertMe,
                             [Some(0x11), Some(0x00), Some(0x01), Some(0x01)]))
  {
    assert Lower("check") == "check";
  }

  /** The on and off switch requests the generator builds decode back to the
      relay state they ask for. */
  lemma SwitchRequestRoundTrip(p: Params, on: bool)
    requires p.switchState == ArgBoolean(on)
    ensures var g := SwitchStateRequest(Some(p));
            g.Data? && |g.cells| == 5 && (forall i :: 0 <= i < 5 ==> g.cells[i].Some? && 0 <= g.cells[i].value < 256) &&
            ParseSwitchStateRequest(seq(5, i requires 0 <= i < 5 => g.cells[i].value as byte)) ==
              [Attr(SwitchState, Bool(on))]
  {
  }
}
