/** The payload generators of the outgoing AlertMe and ZigBee device-profile
    messages, the catalogue that binds each message name to its addressing
    and generator, and `generateMessage`, which builds a frame from both. */
module Generators {
  import opened Js

  /** One element of a generated payload array; None is an `undefined`
      element (a missing parameter, or a read past the end of a buffer). */
  type Cell = Option<int>

  function Cells(xs: seq<int>): (r: seq<Cell>)
    ensures |r| == |xs|
    ensures forall i :: 0 <= i < |xs| ==> r[i] == Some(xs[i])
  {
    seq(|xs|, i requires 0 <= i < |xs| => Some(xs[i]))
  }

  /** The value given as `switchState`: undefined, null, a string, a boolean
      or an integer. */
  datatype SwitchArg = ArgUndefined | ArgNull | ArgString(s: string) | ArgBoolean(b: bool) | ArgNumber(n: int)

  /** The fields of a parameter object the generators read. A None field is
      one that is undefined (or, for `mode`, not a string). */
  datatype Params = Params(
    remote16: Option<string>,
    zdoSequenceNumber: Cell,
    profileId: Option<string>,
    inClusters: Option<seq<int>>,
    outClusters: Option<seq<int>>,
    mode: Option<string>,
    switchState: SwitchArg)

  const NoParams := Params(None, None, None, None, None, None, ArgUndefined)

  /** A payload array, or the TypeError thrown when a generator reads a
      property of null or decodes an undefined hex string. */
  datatype Generated = Data(cells: seq<Cell>) | TypeError

  /** `Buffer.from(s, 'hex')[i]`. */
  function HexByte(s: string, i: nat): Cell {
    At(HexDecode(s), i)
  }

  function CellAt(xs: seq<int>, i: nat): Cell {
    if i < |xs| then Some(xs[i]) else None
  }

  // ---- generators; `params` None is a null parameter object ----

  /** Sequence number, then the two bytes of the hex network address in the
      order they are written. */
  function ActiveEndpointRequest(params: Option<Params>): Generated {
    match params
    case None => TypeError
    case Some(p) =>
      if p.remote16.None? then TypeError
      else Data([p.zdoSequenceNumber, HexByte(p.remote16.value, 0), HexByte(p.remote16.value, 1)])
  }

  /** Sequence number, network address, profile id with its bytes swapped,
      input cluster count and list, output cluster count, then only the
      second and first output clusters. */
  function MatchDescriptorRequest(params: Option<Params>): Generated {
    match params
    case None => TypeError
    case Some(p) =>
      if p.remote16.None? || p.profileId.None? || p.inClusters.None? || p.outClusters.None? then TypeError
      else
        var r16 := p.remote16.value;
        var prof := p.profileId.value;
        var ins := p.inClusters.value;
        var outs := p.outClusters.value;
        Data([p.zdoSequenceNumber, HexByte(r16, 0), HexByte(r16, 1), HexByte(prof, 1), HexByte(prof, 0), Some(|ins|)]
             + Cells(ins)
             + [Some(|outs|), CellAt(outs, 1), CellAt(outs, 0)])
  }

  /** Sequence number, status OK, a zero address and the single endpoint 2;
      the address parameter is decoded (and must be a string) but unused. */
  function MatchDescriptorResponse(params: Option<Params>): Generated {
    match params
    case None => TypeError
    case Some(p) =>
      if p.remote16.None? then TypeError
      else Data([p.zdoSequenceNumber, Some(0x00), Some(0x00), Some(0x00), Some(0x01), Some(0x02)])
  }

  /** The mode names the AlertMe status cluster accepts, with their codes. */
  function ModeCode(mode: string): Option<int> {
    if mode == "idle" then Some(0x04)
    else if mode == "locked" then Some(0x02)
    else if mode == "normal" then Some(0x00)
    else if mode == "rangeTest" then Some(0x01)
    else if mode == "silent" then Some(0x03)
    else None
  }

  /** Preamble, mode-request command, mode code and the constant 0x01; an
      unknown mode yields an empty payload. A null parameter object is
      still an object to `typeof`, so reading its `mode` throws. */
  function ModeChangeRequest(params: Option<Params>): Generated {
    match params
    case None => TypeError
    case Some(p) =>
      var mode := p.mode.GetOr("normal");
      match ModeCode(mode)
      case None => Data([])
      case Some(code) => Data(Cells([0x11, 0x00, 0xFA, code, 0x01]))
  }

  function SecurityInit(): Generated {
    Data(Cells([0x11, 0x80, 0x00, 0x00, 0x05]))
  }

  const OnWords: set<string> := {"1", "active", "activate", "on", "poweron", "switchon", "true"}
  const OffWords: set<string> := {"0", "inactive", "deactivate", "off", "poweroff", "switchoff", "false"}

  /** `switchState.toString().toLowerCase()` after undefined, null and the
      empty string have been replaced by "check". */
  function SwitchStateText(arg: SwitchArg): string {
    match arg
    case ArgUndefined => "check"
    case ArgNull => "check"
    case ArgString(s) => if s == "" then "check" else Lower(s)
    case ArgBoolean(b) => if b then "true" else "false"
    case ArgNumber(n) => IntText(n)
  }

  /** Relay on, relay off, or a state query for anything else. */
  function SwitchStateRequest(params: Option<Params>): Generated {
    match params
    case None => TypeError
    case Some(p) =>
      var text := SwitchStateText(p.switchState);
      if text in OnWords then Data(Cells([0x11, 0x00, 0x02, 0x01, 0x01]))
      else if text in OffWords then Data(Cells([0x11, 0x00, 0x02, 0x00, 0x01]))
      else Data(Cells([0x11, 0x00, 0x01, 0x01]))
  }

  function VersionInfoRequest(): Generated {
    Data(Cells([0x11, 0x00, 0xFC]))
  }

  // ---- the catalogue ----

  /** The `dataGenerate` member of a catalogue entry. */
  datatype Generator =
    | GenActiveEndpointRequest
    | GenMatchDescriptorRequest
    | GenMatchDescriptorResponse
    | GenModeChangeRequest
    | GenSecurityInit
    | GenSwitchStateRequest
    | GenVersionInfoRequest

  function Run(g: Generator, params: Option<Params>): Generated {
    match g
    case GenActiveEndpointRequest => ActiveEndpointRequest(params)
    case GenMatchDescriptorRequest => MatchDescriptorRequest(params)
    case GenMatchDescriptorResponse => MatchDescriptorResponse(params)
    case GenModeChangeRequest => ModeChangeRequest(params)
    case GenSecurityInit => SecurityInit()
    case GenSwitchStateRequest => SwitchStateRequest(params)
    case GenVersionInfoRequest => VersionInfoRequest()
  }

  const ProfileAlertMe := "c216"
  const ProfileHa := "0104"
  const ProfileLl := "c05e"
  const ProfileZdp := "0000"

  const EndpointZdo := "00"
  const EndpointAlertMe := "02"

  const ClusterAttribute := "00c0"
  const ClusterButton := "00f3"
  const ClusterDiscovery := "00f6"
  const ClusterPower := "00ef"
  const ClusterSecurity := "0500"
  const ClusterStatus := "00f0"
  const ClusterSwitch := "00ee"
  const ClusterTamper := "00f2"

  const ZdoActiveEndpointRequest := "0005"
  const ZdoActiveEndpointResponse := "8005"
  const ZdoEndDeviceAnnounce := "0013"
  const ZdoRoutingRequest := "0032"
  const ZdoRoutingResponse := "8032"
  const ZdoMatchDescriptorRequest := "0006"
  const ZdoMatchDescriptorResponse := "8006"
  const ZdoNetworkAddressRequest := "0000"
  const ZdoNetworkAddressResponse := "8000"
  const ZdoPermitJoiningRequest := "0036"
  const ZdoPermitJoiningResponse := "8036"
  const ZdoSimpleDescriptorRequest := "0004"

  /** The `frame` member of a catalogue entry: addressing, the static
      payload and the optional generator that replaces it. */
  datatype Template = Template(
    profileId: string,
    clusterId: string,
    sourceEndpoint: string,
    destinationEndpoint: string,
    generate: Option<Generator>,
    data: seq<int>)

  datatype Message = Message(title: string, frame: Template)

  const Messages: map<string, Message> := map[
    "activeEndpointRequest" := Message("Active endpoint request",
      Template(ProfileZdp, ZdoActiveEndpointRequest, EndpointZdo, EndpointZdo, Some(GenActiveEndpointRequest), [])),
    "matchDescriptorRequest" := Message("Match descriptor request",
      Template(ProfileZdp, ZdoMatchDescriptorRequest, EndpointZdo, EndpointZdo, Some(GenMatchDescriptorRequest), [])),
    "matchDescriptorResponse" := Message("Match descriptor response",
      Template(ProfileZdp, ZdoMatchDescriptorResponse, EndpointZdo, EndpointZdo, Some(GenMatchDescriptorResponse), [])),
    "modeChangeRequest" := Message("Mode change request",
      Template(ProfileAlertMe, ClusterStatus, EndpointAlertMe, EndpointAlertMe, Some(GenModeChangeRequest), [])),
    "permitJoinRequest" := Message("Management permit join request",
      Template(ProfileZdp, ZdoPermitJoiningRequest, EndpointZdo, EndpointZdo, None, [0xFF, 0x00])),
    "routingTableRequest" := Message("Management routing table request",
      Template(ProfileZdp, ZdoRoutingRequest, EndpointZdo, EndpointZdo, None, [0x12, 0x01])),
    "securityInit" := Message("Security initialization",
      Template(ProfileAlertMe, ClusterSecurity, EndpointAlertMe, EndpointAlertMe, Some(GenSecurityInit), [])),
    "switchStateRequest" := Message("Switch state request",
      Template(ProfileAlertMe, ClusterSwitch, EndpointZdo, EndpointAlertMe, Some(GenSwitchStateRequest), [])),
    "versionInfoRequest" := Message("Version info request",
      Template(ProfileAlertMe, ClusterDiscovery, EndpointZdo, EndpointAlertMe, Some(GenVersionInfoRequest), []))
  ]

  /** The frame `generateMessage` returns: the template's addressing with
      the payload filled in. */
  datatype OutFrame = OutFrame(
    profileId: string,
    clusterId: string,
    sourceEndpoint: string,
    destinationEndpoint: string,
    data: seq<Cell>)

  /** undefined when the serial port is closed, the built frame, or the
      TypeError thrown for an unknown name or by a generator. */
  datatype Built = PortClosed | Ready(frame: OutFrame) | Threw

  /** `generateMessage(messageName, params)`. */
  function GenerateMessage(portOpen: bool, name: string, params: Option<Params>): (r: Built)
    ensures !portOpen <==> r.PortClosed?
    ensures portOpen && name !in Messages ==> r.Threw?
    ensures r.Ready? ==>
              (name in Messages &&
               var t := Messages[name].frame;
               r.frame.profileId == t.profileId && r.frame.clusterId == t.clusterId &&
               r.frame.sourceEndpoint == t.sourceEndpoint && r.frame.destinationEndpoint == t.destinationEndpoint)
    ensures portOpen && name in Messages && Messages[name].frame.generate.None? ==>
              r == Ready(OutFrame(Messages[name].frame.profileId, Messages[name].frame.clusterId,
                                  Messages[name].frame.sourceEndpoint, Messages[name].frame.destinationEndpoint,
                                  Cells(Messages[name].frame.data)))
    ensures portOpen && name in Messages && Messages[name].frame.generate.Some? ==>
              var g := Run(Messages[name].frame.generate.value, params);
              (r.Ready? <==> g.Data?) && (r.Ready? ==> r.frame.data == g.cells)
  {
    if !portOpen then PortClosed
    else if name !in Messages then Threw
    else
      var t := Messages[name].frame;
      var payload := if t.generate.Some? then Run(t.generate.value, params) else Data(Cells(t.data));
      match payload
      case TypeError => Threw
      case Data(cells) => Ready(OutFrame(t.profileId, t.clusterId, t.sourceEndpoint, t.destinationEndpoint, cells))
  }

  // ---- properties of the generators and the catalogue ----

  /** The active endpoint request carries the sequence number and the two
      address bytes exactly as the hex address spells them. */
  lemma {:induction false} ActiveEndpointRequestEchoes(p: Params, addr: Bytes)
    requires |addr| == 2 && p.remote16 == Some(Hex(addr))
    ensures ActiveEndpointRequest(Some(p)) == Data([p.zdoSequenceNumber, Some(addr[0] as int), Some(addr[1] as int)])
  {
    HexRoundTrip(addr);
  }

  /** Layout of the match descriptor request: the profile id is written
      byte-swapped and only the first two output clusters are sent, second
      one first, whatever the length of the list. */
  lemma {:induction false} MatchDescriptorRequestLayout(p: Params, addr: Bytes, profile: Bytes, ins: seq<int>, outs: seq<int>)
    requires |addr| == 2 && |profile| == 2 && |outs| >= 2
    requires p.remote16 == Some(Hex(addr)) && p.profileId == Some(Hex(profile))
    requires p.inClusters == Some(ins) && p.outClusters == Some(outs)
    ensures MatchDescriptorRequest(Some(p)).Data?
    ensures var d := MatchDescriptorRequest(Some(p)).cells;
            |d| == 9 + |ins| &&
            d[..6] == [p.zdoSequenceNumber, Some(addr[0] as int), Some(addr[1] as int),
                       Some(profile[1] as int), Some(profile[0] as int), Some(|ins|)] &&
            d[6..6 + |ins|] == Cells(ins) &&
            d[6 + |ins|..] == [Some(|outs|), Some(outs[1]), Some(outs[0])]
  {
    HexRoundTrip(addr);
    HexRoundTrip(profile);
  }

  /** Distinct mode names have distinct codes. */
  lemma ModeCodeInjective(a: string, b: string)
    requires ModeCode(a).Some? && ModeCode(a) == ModeCode(b)
    ensures a == b
  {
  }

  /** The mode table: an absent mode or "normal" asks for code 0x00,
      "idle" 0x04, "locked" 0x02, "rangeTest" 0x01 and "silent" 0x03, each
      in the frame `11 00 FA code 01`; any other mode name gives an empty
      payload. */
  lemma ModeChangeRequestShape(p: Params)
    ensures p.mode == None || p.mode == Some("normal") ==>
              ModeChangeRequest(Some(p)) == Data([Some(0x11), Some(0x00), Some(0xFA), Some(0x00), Some(0x01)])
    ensures p.mode == Some("idle") ==>
              ModeChangeRequest(Some(p)) == Data([Some(0x11), Some(0x00), Some(0xFA), Some(0x04), Some(0x01)])
    ensures p.mode == Some("locked") ==>
              ModeChangeRequest(Some(p)) == Data([Some(0x11), Some(0x00), Some(0xFA), Some(0x02), Some(0x01)])
    ensures p.mode == Some("rangeTest") ==>
              ModeChangeRequest(Some(p)) == Data([Some(0x11), Some(0x00), Some(0xFA), Some(0x01), Some(0x01)])
    ensures p.mode == Some("silent") ==>
              ModeChangeRequest(Some(p)) == Data([Some(0x11), Some(0x00), Some(0xFA), Some(0x03), Some(0x01)])
    ensures p.mode.Some? && p.mode.value !in {"idle", "locked", "normal", "rangeTest", "silent"} ==>
              ModeChangeRequest(Some(p)) == Data([])
  {
  }

  lemma {:induction false} DecimalOneDigit(n: nat)
    ensures |Decimal(n)| == 1 <==> n < 10
  {
    if n >= 10 {
      assert |Decimal(n)| == |Decimal(n / 10)| + 1;
    }
  }

  /** A numeric switch state switches on exactly for 1 and off exactly for
      0; every other number is a state query. */
  lemma {:induction false} SwitchStateNumber(p: Params, n: int)
    requires p.switchState == ArgNumber(n)
    ensures SwitchStateRequest(Some(p)) ==
              if n == 1 then Data(Cells([0x11, 0x00, 0x02, 0x01, 0x01]))
              else if n == 0 then Data(Cells([0x11, 0x00, 0x02, 0x00, 0x01]))
              else Data(Cells([0x11, 0x00, 0x01, 0x01]))
  {
    var text := IntText(n);
    if n < 0 {
      assert text[0] == '-';
      assert text !in OnWords && text !in OffWords;
    } else {
      DecimalOneDigit(n);
      if n >= 10 {
        assert |text| >= 2;
        assert text !in OnWords && text !in OffWords by {
          assert forall w :: w in OnWords + OffWords && |w| >= 2 ==> 'a' <= w[0] <= 'z';
        }
      } else {
        assert text == [('0' as int + n) as char];
      }
    }
  }

  /** The switch words match whatever their case: a non-empty string asks
      for the same payload as its lower-case form. */
  lemma SwitchStateIgnoresCase(p: Params, s: string)
    requires p.switchState == ArgString(s) && s != ""
    ensures SwitchStateRequest(Some(p)) == SwitchStateRequest(Some(p.(switchState := ArgString(Lower(s)))))
  {
    LowerIdempotent(s);
  }

  /** Absent, null and empty switch states all ask for the current state. */
  lemma SwitchStateDefaultsToCheck(p: Params)
    requires p.switchState == ArgUndefined || p.switchState == ArgNull || p.switchState == ArgString("")
    ensures SwitchStateRequest(Some(p)) == Data(Cells([0x11, 0x00, 0x01, 0x01]))
  {
  }

  /** No switch word means both on and off. */
  lemma SwitchWordsDisjoint()
    ensures OnWords * OffWords == {}
  {
  }

  /** Any switch state reduces to one of three payloads: relay on exactly
      for an on word, relay off exactly for an off word, and the state query
      for everything else; without parameters reading `switchState` throws. */
  lemma SwitchStateThreeWay(params: Option<Params>)
    ensures params.None? ==> SwitchStateRequest(params) == TypeError
    ensures params.Some? ==>
              var r := SwitchStateRequest(params);
              var text := SwitchStateText(params.value.switchState);
              (r == Data(Cells([0x11, 0x00, 0x02, 0x01, 0x01])) <==> text in OnWords) &&
              (r == Data(Cells([0x11, 0x00, 0x02, 0x00, 0x01])) <==> text in OffWords) &&
              (r == Data(Cells([0x11, 0x00, 0x01, 0x01])) <==> text !in OnWords && text !in OffWords)
  {
    SwitchWordsDisjoint();
    assert Cells([0x11, 0x00, 0x02, 0x01, 0x01])[3] != Cells([0x11, 0x00, 0x02, 0x00, 0x01])[3];
    assert |Cells([0x11, 0x00, 0x01, 0x01])| == 4;
  }

  /** Every device-profile message travels between the device-object
      endpoints, and every AlertMe message is addressed to the AlertMe
      endpoint. */
  lemma CatalogAddressing(name: string)
    requires name in Messages
    ensures var t := Messages[name].frame;
            (t.profileId == ProfileZdp ==> t.sourceEndpoint == EndpointZdo && t.destinationEndpoint == EndpointZdo) &&
            (t.profileId == ProfileAlertMe ==> t.destinationEndpoint == EndpointAlertMe) &&
            (t.profileId == ProfileZdp || t.profileId == ProfileAlertMe)
  {
  }

  /** Static payloads and generators are exclusive: an entry with static
      data has no generator. */
  lemma CatalogPayloads(name: string)
    requires name in Messages
    ensures Messages[name].frame.data != [] <==> Messages[name].frame.generate.None?
  {
  }

  /** Every message except the match descriptor request builds from any
      parameter object, provided it carries a network address where the
      generator decodes one. */
  lemma GenerateWithParams(name: string, p: Params)
    requires name in Messages && name != "matchDescriptorRequest"
    requires name == "activeEndpointRequest" || name == "matchDescriptorResponse" ==> p.remote16.Some?
    ensures GenerateMessage(true, name, Some(p)).Ready?
  {
  }

  /** With null parameters exactly the four messages that read no parameter
      build; every other one throws. */
  lemma GenerateWithNull(name: string)
    requires name in Messages
    ensures GenerateMessage(true, name, None).Ready? <==>
              name in {"securityInit", "versionInfoRequest", "permitJoinRequest", "routingTableRequest"}
  {
  }
}
