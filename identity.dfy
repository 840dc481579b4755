/** The coordinator's own addresses, learnt from the responses to the MY, SH
    and SL AT commands: the 16-bit address, and the 64-bit address assembled
    from its high and low halves once both are known. */
module Identity {
  import opened Js

  /** `addr64List` (the two halves read so far) and the `addr16` and
      `addr64` entries of `status.xbee.self`. */
  datatype Own = Own(high: Option<string>, low: Option<string>, addr16: Value, addr64: Value)

  const Unknown := Own(None, None, Undefined, Undefined)

  /** `parseATCommandResponse` for one response. */
  function AtResponse(own: Own, command: string, commandData: Bytes): (r: Own)
    ensures command == "MY" ==> r.addr16 == Text(Hex(commandData))
    ensures command == "SH" ==> r.high == Some(Hex(commandData)) && r.low == own.low
    ensures command == "SL" ==> r.low == Some(Hex(commandData)) && r.high == own.high
    ensures command != "SH" && command != "SL" ==> r.high == own.high && r.low == own.low
    ensures command != "MY" ==> r.addr16 == own.addr16
    ensures r.high.Some? && r.low.Some? ==> r.addr64 == Text(r.high.value + r.low.value)
    ensures r.high.None? || r.low.None? ==> r.addr64 == own.addr64
  {
    var o :=
      if command == "MY" then own.(addr16 := Text(Hex(commandData)))
      else if command == "SH" then own.(high := Some(Hex(commandData)))
      else if command == "SL" then own.(low := Some(Hex(commandData)))
      else own;
    if o.high.Some? && o.low.Some? then o.(addr64 := Text(o.high.value + o.low.value)) else o
  }

  datatype AtReply = AtReply(command: string, commandData: Bytes)

  /** The responses handled in order. */
  function AtRun(own: Own, replies: seq<AtReply>): Own {
    if replies == [] then own
    else
      var last := replies[|replies| - 1];
      AtResponse(AtRun(own, replies[..|replies| - 1]), last.command, last.commandData)
  }

  /** The data of the last response to `command`, if any. */
  function LastReply(replies: seq<AtReply>, command: string): Option<Bytes> {
    if replies == [] then None
    else if replies[|replies| - 1].command == command then Some(replies[|replies| - 1].commandData)
    else LastReply(replies[..|replies| - 1], command)
  }

  function HexOf(b: Option<Bytes>): Option<string> {
    if b.Some? then Some(Hex(b.value)) else None
  }

  /** Starting from nothing known, the 16-bit address is the hex text of the
      last MY response, and the 64-bit address is the hex text of the last
      SH response followed by that of the last SL response, whatever order
      the responses came in; it stays undefined until both halves arrived. */
  lemma {:induction false} AtRunAddresses(replies: seq<AtReply>)
    ensures var o := AtRun(Unknown, replies);
            var sh := LastReply(replies, "SH");
            var sl := LastReply(replies, "SL");
            var my := LastReply(replies, "MY");
            o.high == HexOf(sh) && o.low == HexOf(sl) &&
            o.addr16 == (if my.Some? then Text(Hex(my.value)) else Undefined) &&
            o.addr64 == (if sh.Some? && sl.Some? then Text(Hex(sh.value) + Hex(sl.value)) else Undefined)
  {
    if replies != [] {
      AtRunAddresses(replies[..|replies| - 1]);
    }
  }
}
