/** The decoders of AlertMe cluster payloads. Each turns the data bytes of a
    received frame into named attributes, in the order the source object
    receives its keys, or reports the RangeError a fixed-width read past the
    end of the buffer throws. */
module Decoders {
  import opened Js

  /** The attribute names the decoders produce. */
  datatype AttrName =
    | PinEntry | ActionKeyPress | ActionKeyRelease
    | ButtonState
    | KWh | Uptime | ActivePower
    | Rssi
    | Make | Model | BuildDate
    | SecurityStateId | SecurityStateValue(index: nat)
    | TamperState | ContactState | MotionValue | MotionState
    | StatusStateValue(index: nat) | StatusSource | TriggerState | TimerSec
    | BatteryVoltage | BatteryLevel | Temperature | Lqi
    | SwitchState

  /** The property name, as used in status paths and topics. */
  function NameText(n: AttrName): string {
    match n
    case PinEntry => "pinEntry"
    case ActionKeyPress => "actionKeyPress"
    case ActionKeyRelease => "actionKeyRelease"
    case ButtonState => "buttonState"
    case KWh => "kWh"
    case Uptime => "uptime"
    case ActivePower => "activePower"
    case Rssi => "rssi"
    case Make => "make"
    case Model => "model"
    case BuildDate => "buildDate"
    case SecurityStateId => "securityStateId"
    case SecurityStateValue(i) => "securityStateValue" + Decimal(i)
    case TamperState => "tamperState"
    case ContactState => "contactState"
    case MotionValue => "motionValue"
    case MotionState => "motionState"
    case StatusStateValue(i) => "statusStateValue" + Decimal(i)
    case StatusSource => "statusSource"
    case TriggerState => "triggerState"
    case TimerSec => "timerSec"
    case BatteryVoltage => "batteryVoltage"
    case BatteryLevel => "batteryLevel"
    case Temperature => "temperature"
    case Lqi => "lqi"
    case SwitchState => "switchState"
  }

  datatype Attr = Attr(name: AttrName, value: Value)
  type Attrs = seq<Attr>

  /** No attributes object (undefined), an attributes object, or the
      RangeError thrown while building one. */
  datatype Decoded = NoAttributes | Attributes(attrs: Attrs) | RangeError

  /** The value the attributes object holds under `n`: the last write. */
  function Lookup(attrs: Attrs, n: AttrName): Option<Value> {
    if attrs == [] then None
    else if attrs[|attrs| - 1].name == n then Some(attrs[|attrs| - 1].value)
    else Lookup(attrs[..|attrs| - 1], n)
  }

  predicate Names(attrs: Attrs, n: AttrName) {
    exists i :: 0 <= i < |attrs| && attrs[i].name == n
  }

  predicate DistinctNames(attrs: Attrs) {
    forall i, j :: 0 <= i < j < |attrs| ==> attrs[i].name != attrs[j].name
  }

  lemma {:induction false} LookupFound(attrs: Attrs, k: nat)
    requires k < |attrs| && DistinctNames(attrs)
    ensures Lookup(attrs, attrs[k].name) == Some(attrs[k].value)
  {
    if k != |attrs| - 1 {
      var front := attrs[..|attrs| - 1];
      assert front[k] == attrs[k];
      LookupFound(front, k);
    }
  }

  lemma {:induction false} LookupMissing(attrs: Attrs, n: AttrName)
    requires !Names(attrs, n)
    ensures Lookup(attrs, n) == None
  {
    if attrs != [] {
      var front := attrs[..|attrs| - 1];
      assert !Names(front, n) by {
        forall i | 0 <= i < |front| ensures front[i].name != n {
          assert front[i] == attrs[i];
        }
      }
      LookupMissing(front, n);
    }
  }

  /** A later part of the object overrides an earlier one. */
  lemma {:induction false} LookupAppend(a: Attrs, b: Attrs, n: AttrName)
    ensures Lookup(a + b, n) == if Lookup(b, n).Some? then Lookup(b, n) else Lookup(a, n)
  {
    if b == [] {
      assert a + b == a;
    } else {
      var front := b[..|b| - 1];
      assert (a + b)[..|a + b| - 1] == a + front;
      LookupAppend(a, front, n);
    }
  }

  // ---- keypad attribute cluster ----

  /** The keypad key a code stands for. */
  function KeyName(code: Option<byte>): string {
    if code == Some(0x2A) then "*"
    else if code == Some(0x23) then "#"
    else if code == Some(0x48) then "on"
    else if code == Some(0x41) then "off"
    else if code == Some(0x4E) then "partial"
    else if code == Some(0x50) then "panic"
    else "unknown"
  }

  /** The PIN length byte capped at 15, or NaN when it is missing. */
  function PinLength(data: Bytes): Option<int> {
    match At(data, 6)
    case None => None
    case Some(n) => Some(if n > 15 then 15 else n)
  }

  function PinBytes(data: Bytes): Bytes {
    Slice(data, Some(7), Add(Some(7), PinLength(data)))
  }

  /** Keypad attribute reports (`data[2]` 0x0A): a PIN entry, a key press
      or a key release; anything else gives no attributes. */
  function ParseAttribute(data: Bytes): Attrs {
    if At(data, 2) != Some(0x0A) then []
    else if At(data, 3) == Some(0x21) then [Attr(PinEntry, Text(AsText(PinBytes(data))))]
    else if At(data, 3) == Some(0x22) then [Attr(ActionKeyPress, Text(KeyName(At(data, 7))))]
    else if At(data, 3) == Some(0x23) then [Attr(ActionKeyRelease, Text(KeyName(At(data, 7))))]
    else []
  }

  /** A PIN is at most 15 characters: the length byte is honoured up to 15
      and the digits are the bytes that follow it; without a length byte the
      PIN is empty. */
  lemma PinEntryBytes(data: Bytes)
    ensures |PinBytes(data)| <= 15
    ensures At(data, 6).None? ==> PinBytes(data) == []
    ensures At(data, 6).Some? && 7 + PinLength(data).value <= |data| ==>
              PinBytes(data) == data[7..7 + PinLength(data).value]
    ensures At(data, 6).Some? && 7 + PinLength(data).value > |data| ==>
              PinBytes(data) == data[7..]
  {
  }

  /** The PIN attribute spells the entered digits. */
  lemma PinEntryText(data: Bytes, digits: Bytes)
    requires |data| >= 7 && data[2] == 0x0A && data[3] == 0x21
    requires data[6] == |digits| <= 15 && 7 + |digits| <= |data| && data[7..7 + |digits|] == digits
    ensures ParseAttribute(data) == [Attr(PinEntry, Text(AsText(digits)))]
  {
    PinEntryBytes(data);
    assert PinBytes(data) == digits;
  }

  // ---- single-value decoders ----

  function ParseButtonPress(data: Bytes): Attrs {
    [Attr(ButtonState, Bool(Truthy(At(data, 2))))]
  }

  /** Energy (kWh) and uptime as little-endian 32-bit words at 3 and 7. */
  function ParsePowerConsumption(data: Bytes): Decoded {
    match (U32LE(data, 3), U32LE(data, 7))
    case (Some(kwh), Some(up)) => Attributes([Attr(KWh, Num(kwh as real)), Attr(Uptime, Num(up as real))])
    case _ => RangeError
  }

  /** Power demand as a little-endian 16-bit word at 3. */
  function ParseActivePower(data: Bytes): Decoded {
    match U16LE(data, 3)
    case Some(w) => Attributes([Attr(ActivePower, Num(w as real))])
    case None => RangeError
  }

  /** A report carrying energy `kwh` and uptime `up` at offsets 3 and 7
      decodes to exactly those two numbers. */
  lemma PowerConsumptionRoundTrip(head: Bytes, kwh: int, up: int, rest: Bytes)
    requires |head| == 3 && 0 <= kwh < 0x1_0000_0000 && 0 <= up < 0x1_0000_0000
    ensures ParsePowerConsumption(head + LE32(kwh) + LE32(up) + rest) ==
              Attributes([Attr(KWh, Num(kwh as real)), Attr(Uptime, Num(up as real))])
  {
    var data := head + LE32(kwh) + LE32(up) + rest;
    U32LERoundTrip(head, kwh, LE32(up) + rest);
    assert data == head + LE32(kwh) + (LE32(up) + rest);
    U32LERoundTrip(head + LE32(kwh), up, rest);
  }

  /** The power-consumption decoder throws exactly when the buffer ends
      before byte 11. */
  lemma PowerConsumptionRangeError(data: Bytes)
    ensures ParsePowerConsumption(data) == RangeError <==> |data| < 11
  {
  }

  /** A report carrying demand `w` at offset 3 decodes to that number. */
  lemma ActivePowerRoundTrip(head: Bytes, w: int, rest: Bytes)
    requires |head| == 3 && 0 <= w < 0x1_0000
    ensures ParseActivePower(head + LE16(w) + rest) == Attributes([Attr(ActivePower, Num(w as real))])
  {
    U16LERoundTrip(head, w, rest);
  }

  /** The active-power decoder throws exactly when the buffer ends before
      byte 5. */
  lemma ActivePowerRangeError(data: Bytes)
    ensures ParseActivePower(data) == RangeError <==> |data| < 5
  {
  }

  function ParsePowerUnknown(data: Bytes): Attrs {
    [Attr(ActivePower, Null)]
  }

  function ParseRangeInfoUpdate(data: Bytes): Attrs {
    [Attr(Rssi, ByteValue(At(data, 3)))]
  }

  // ---- version information ----

  /** `data.slice(i, i + 1)[0]`, with i possibly NaN. */
  function ByteAtOffset(data: Bytes, i: Option<int>): Option<int> {
    if i.Some? then At(data, i.value) else None
  }

  /** Three length-prefixed strings from offset 21: make, model and build
      date. A missing length turns the later offsets into NaN, which slice
      as 0. */
  function ParseVersionInfoUpdate(data: Bytes): Attrs {
    var m := ByteAtOffset(data, Some(21));
    var mo := ByteAtOffset(data, Add(Some(22), m));
    var bd := ByteAtOffset(data, Add(Add(Some(23), m), mo));
    var make := Slice(data, Some(22), Add(Some(22), m));
    var model := Slice(data, Add(Some(23), m), Add(Add(Some(23), m), mo));
    var date := Slice(data, Add(Add(Some(24), m), mo), Add(Add(Add(Some(24), m), mo), bd));
    [Attr(Make, Text(AsText(make))), Attr(Model, Text(AsText(model))), Attr(BuildDate, Text(AsText(date)))]
  }

  /** A length-prefixed byte string followed by `rest`. */
  function Field(body: Bytes, rest: Bytes): Bytes
    requires |body| < 256
  {
    [|body|] + body + rest
  }

  /** The version report a device sends: 21 header bytes, then make, model
      and build date, each preceded by its length. */
  function VersionInfoFrame(header: Bytes, make: Bytes, model: Bytes, date: Bytes, rest: Bytes): Bytes
    requires |header| == 21 && |make| < 256 && |model| < 256 && |date| < 256
  {
    header + Field(make, Field(model, Field(date, rest)))
  }

  /** Reading a length-prefixed field at `off` gives its length, its bytes
      and what follows. */
  lemma FieldAt(data: Bytes, off: nat, body: Bytes, rest: Bytes)
    requires |body| < 256 && off <= |data| && data[off..] == Field(body, rest)
    ensures off + 1 + |body| <= |data| && data[off] == |body|
    ensures data[off + 1..off + 1 + |body|] == body && data[off + 1 + |body|..] == rest
  {
    assert data[off] == data[off..][0];
    assert data[off + 1..off + 1 + |body|] == data[off..][1..1 + |body|];
    assert data[off + 1 + |body|..] == data[off..][1 + |body|..];
  }

  /** The length byte at `off` and the slice it delimits, from `start` to
      `end`, read back a length-prefixed field. */
  lemma FieldSlice(data: Bytes, off: nat, start: int, end: int, body: Bytes, rest: Bytes)
    requires |body| < 256 && off <= |data| && data[off..] == Field(body, rest)
    requires start == off + 1 && end == start + |body|
    ensures ByteAtOffset(data, Some(off)) == Some(|body|)
    ensures Slice(data, Some(start), Some(end)) == body
    ensures data[end..] == rest
  {
    FieldAt(data, off, body, rest);
  }

  /** Once the three length bytes are known and the slices they delimit
      hold `make`, `model` and `date`, the decoder returns those. */
  lemma VersionInfoOffsets(data: Bytes, make: Bytes, model: Bytes, date: Bytes)
    requires ByteAtOffset(data, Some(21)) == Some(|make|)
    requires ByteAtOffset(data, Some(22 + |make|)) == Some(|model|)
    requires ByteAtOffset(data, Some(23 + |make| + |model|)) == Some(|date|)
    requires Slice(data, Some(22), Some(22 + |make|)) == make
    requires Slice(data, Some(23 + |make|), Some(23 + |make| + |model|)) == model
    requires Slice(data, Some(24 + |make| + |model|), Some(24 + |make| + |model| + |date|)) == date
    ensures ParseVersionInfoUpdate(data) ==
              [Attr(Make, Text(AsText(make))), Attr(Model, Text(AsText(model))), Attr(BuildDate, Text(AsText(date)))]
  {
    var m, mo, bd := |make|, |model|, |date|;
    var om := ByteAtOffset(data, Some(21));
    assert Add(Some(22), om) == Some(22 + m);
    var omo := ByteAtOffset(data, Add(Some(22), om));
    assert Add(Some(23), om) == Some(23 + m);
    assert Add(Add(Some(23), om), omo) == Some(23 + m + mo);
    assert Add(Add(Some(24), om), omo) == Some(24 + m + mo);
    var obd := ByteAtOffset(data, Add(Add(Some(23), om), omo));
    assert Add(Add(Add(Some(24), om), omo), obd) == Some(24 + m + mo + bd);
  }

  /** A buffer whose bytes from 21 on are the three length-prefixed
      strings decodes to those strings, whatever its header. */
  lemma VersionInfoDecode(data: Bytes, make: Bytes, model: Bytes, date: Bytes, rest: Bytes)
    requires |make| < 256 && |model| < 256 && |date| < 256
    requires 21 <= |data| && data[21..] == Field(make, Field(model, Field(date, rest)))
    ensures ParseVersionInfoUpdate(data) ==
              [Attr(Make, Text(AsText(make))), Attr(Model, Text(AsText(model))), Attr(BuildDate, Text(AsText(date)))]
  {
    var m := |make|;
    var mo := |model|;
    FieldSlice(data, 21, 22, 22 + m, make, Field(model, Field(date, rest)));
    FieldSlice(data, 22 + m, 23 + m, 23 + m + mo, model, Field(date, rest));
    FieldSlice(data, 23 + m + mo, 24 + m + mo, 24 + m + mo + |date|, date, rest);
    VersionInfoOffsets(data, make, model, date);
  }

  /** Decoding a version report returns the three strings it carries. */
  lemma VersionInfoRoundTrip(header: Bytes, make: Bytes, model: Bytes, date: Bytes, rest: Bytes)
    requires |header| == 21 && |make| < 256 && |model| < 256 && |date| < 256
    ensures ParseVersionInfoUpdate(VersionInfoFrame(header, make, model, date, rest)) ==
              [Attr(Make, Text(AsText(make))), Attr(Model, Text(AsText(model))), Attr(BuildDate, Text(AsText(date)))]
  {
    var data := VersionInfoFrame(header, make, model, date, rest);
    assert data[21..] == Field(make, Field(model, Field(date, rest)));
    VersionInfoDecode(data, make, model, date, rest);
  }

  // ---- copies of every byte ----

  /** `prefix + i` for every byte index i, holding the byte. */
  function IndexedValues(status: bool, data: Bytes): (r: Attrs)
    ensures |r| == |data|
  {
    seq(|data|, i requires 0 <= i < |data| =>
      Attr(if status then StatusStateValue(i) else SecurityStateValue(i), Num(data[i] as real)))
  }

  /** The loop that copies every byte into the attributes object. */
  method CopyBytes(status: bool, data: Bytes) returns (attrs: Attrs)
    ensures attrs == IndexedValues(status, data)
    ensures forall i :: 0 <= i < |data| ==>
              Lookup(attrs, if status then StatusStateValue(i) else SecurityStateValue(i)) == Some(Num(data[i] as real))
  {
    attrs := [];
    var i := 0;
    while i < |data|
      invariant 0 <= i <= |data|
      invariant attrs == IndexedValues(status, data[..i])
    {
      attrs := attrs + [Attr(if status then StatusStateValue(i) else SecurityStateValue(i), Num(data[i] as real))];
      i := i + 1;
    }
    assert data[..i] == data;
    IndexedValuesDistinct(status, data);
    forall i | 0 <= i < |data|
      ensures Lookup(attrs, if status then StatusStateValue(i) else SecurityStateValue(i)) == Some(Num(data[i] as real))
    {
      LookupFound(attrs, i);
    }
  }

  lemma IndexedValuesDistinct(status: bool, data: Bytes)
    ensures DistinctNames(IndexedValues(status, data))
  {
  }

  // ---- security cluster ----

  const ButtonDevice := "Button Device"
  const ContactSensorDevice := "Contact Sensor Device"
  const KeyfobDevice := "Keyfob Device"
  const PirDevice := "PIR Device"
  const SmartPlug := "SmartPlug2.5"

  /** The motion level in percent, NaN when the byte is missing. */
  function MotionPercent(d1: Option<byte>): Value {
    if d1.Some? then Num(d1.value as real / 255.0 * 100.0) else NaN
  }

  /** The state id and a copy of every byte, then the fields the device
      model defines; nothing beyond the copies when the model is unknown or
      the frame does not start with 0x09. */
  function ParseSecurityState(data: Bytes, model: Value): Attrs {
    SecurityBase(data) + SecurityModelAttrs(data, model)
  }

  /** The state id and the per-byte copies every security report carries. */
  function SecurityBase(data: Bytes): Attrs {
    [Attr(SecurityStateId, ByteValue(At(data, 3)))] + IndexedValues(false, data)
  }

  /** The attributes the device model adds. */
  function SecurityModelAttrs(data: Bytes, model: Value): Attrs {
    if model == Undefined || model == Null || At(data, 0) != Some(0x09) then []
    else if model == Text(ButtonDevice) || model == Text(KeyfobDevice) then
      [Attr(TamperState, Bool(!Bit(At(data, 3), 2)))]
    else if model == Text(ContactSensorDevice) then
      [Attr(ContactState, Bool(Bit(At(data, 3), 0))), Attr(TamperState, Bool(!Bit(At(data, 3), 2)))]
    else if model == Text(PirDevice) then
      if At(data, 1) == Some(0x01) || At(data, 1) == Some(0x6E) then []
      else [Attr(MotionValue, MotionPercent(At(data, 1))),
            Attr(MotionState, Bool(At(data, 1).Some? && At(data, 1).value > 0))]
    else []
  }

  /** Motion is reported exactly when the level is above zero, and never for
      the two spurious levels 0x01 and 0x6E. */
  lemma MotionStateRule(data: Bytes)
    requires |data| >= 2 && data[0] == 0x09
    ensures var attrs := ParseSecurityState(data, Text(PirDevice));
            if data[1] == 0x01 || data[1] == 0x6E then !Names(attrs, MotionState)
            else Lookup(attrs, MotionState) == Some(Bool(data[1] > 0)) &&
                 Lookup(attrs, MotionValue) == Some(Num(data[1] as real / 255.0 * 100.0))
  {
    var base := SecurityBase(data);
    assert !Names(base, MotionState) by {
      forall i | 0 <= i < |base| ensures base[i].name != MotionState {
        if i > 0 {
          assert base[i] == IndexedValues(false, data)[i - 1];
        }
      }
    }
  }


  /** The per-byte copies hold no name other than their own kind. */
  lemma IndexedValuesOnly(status: bool, data: Bytes, n: AttrName)
    requires !n.StatusStateValue? && !n.SecurityStateValue?
    ensures Lookup(IndexedValues(status, data), n) == None
  {
    LookupMissing(IndexedValues(status, data), n);
  }

  /** The device model adds only tamper, contact and motion attributes. */
  lemma SecurityModelNames(data: Bytes, model: Value, n: AttrName)
    requires n != TamperState && n != ContactState && n != MotionValue && n != MotionState
    ensures Lookup(SecurityModelAttrs(data, model), n) == None
  {
    var extra := SecurityModelAttrs(data, model);
    assert forall i :: 0 <= i < |extra| ==> extra[i].name in {TamperState, ContactState, MotionValue, MotionState};
    LookupMissing(extra, n);
  }

  /** Every security report carries its state byte and a copy of each byte,
      whatever the device model. */
  lemma SecurityStateCopies(data: Bytes, model: Value, i: nat)
    requires i < |data|
    ensures var attrs := ParseSecurityState(data, model);
            Lookup(attrs, SecurityStateId) == Some(ByteValue(At(data, 3))) &&
            Lookup(attrs, SecurityStateValue(i)) == Some(Num(data[i] as real))
  {
    var copies := IndexedValues(false, data);
    var head := [Attr(SecurityStateId, ByteValue(At(data, 3)))];
    var extra := SecurityModelAttrs(data, model);
    IndexedValuesDistinct(false, data);
    LookupFound(copies, i);
    IndexedValuesOnly(false, data, SecurityStateId);
    LookupAppend(head, copies, SecurityStateId);
    LookupAppend(head, copies, SecurityStateValue(i));
    SecurityModelNames(data, model, SecurityStateId);
    SecurityModelNames(data, model, SecurityStateValue(i));
    LookupAppend(SecurityBase(data), extra, SecurityStateId);
    LookupAppend(SecurityBase(data), extra, SecurityStateValue(i));
  }

  /** For a report starting with 0x09, bit 0 of byte 3 is the contact
      state of a contact sensor, and a clear bit 2 means tamper for contact
      sensors, buttons and key fobs; an unknown model, a smart plug or a
      report not starting with 0x09 yields none of these. */
  lemma SecurityStateRule(data: Bytes, model: Value)
    ensures |data| >= 4 && data[0] == 0x09 && (model == Text(ButtonDevice) || model == Text(KeyfobDevice)) ==>
              var attrs := ParseSecurityState(data, model);
              Lookup(attrs, TamperState) == Some(Bool(data[3] / 4 % 2 == 0)) &&
              Lookup(attrs, ContactState) == None
    ensures |data| >= 4 && data[0] == 0x09 && model == Text(ContactSensorDevice) ==>
              var attrs := ParseSecurityState(data, model);
              Lookup(attrs, TamperState) == Some(Bool(data[3] / 4 % 2 == 0)) &&
              Lookup(attrs, ContactState) == Some(Bool(data[3] % 2 == 1))
    ensures model == Undefined || model == Null || model == Text(SmartPlug) || At(data, 0) != Some(0x09) ==>
              var attrs := ParseSecurityState(data, model);
              Lookup(attrs, TamperState) == None && Lookup(attrs, ContactState) == None &&
              Lookup(attrs, MotionState) == None
  {
    var head := [Attr(SecurityStateId, ByteValue(At(data, 3)))];
    var extra := SecurityModelAttrs(data, model);
    forall n: AttrName | n == TamperState || n == ContactState || n == MotionState
      ensures Lookup(ParseSecurityState(data, model), n) == Lookup(extra, n)
    {
      IndexedValuesOnly(false, data, n);
      LookupAppend(head, IndexedValues(false, data), n);
      LookupAppend(SecurityBase(data), extra, n);
    }
    if extra == [Attr(TamperState, Bool(!Bit(At(data, 3), 2)))] {
      assert !Names(extra, ContactState);
      LookupMissing(extra, ContactState);
    }
  }

  // ---- status cluster ----

  function StatusSourceName(kind: Option<byte>): Option<string> {
    if kind == Some(0x1B) then Some("power clamp")
    else if kind == Some(0x1C) then Some("power switch")
    else if kind == Some(0x1D) then Some("key fob")
    else if kind == Some(0x1E) then Some("door sensor1E")
    else if kind == Some(0x1F) then Some("door sensor1F")
    else None
  }

  const BatteryMinVoltage: real := 2.0
  const BatteryMaxVoltage: real := 3.28

  /** Whether a status report carries a battery reading: the voltage flag
      is set, neither voltage byte is the 0xFF filler, and the reading is
      below 5000 mV. */
  predicate HasBattery(data: Bytes) {
    Bit(At(data, 14), 0) && At(data, 8) != Some(0xFF) && At(data, 9) != Some(0xFF) &&
    U16LE(data, 8).Some? && U16LE(data, 8).value < 5000
  }

  function BatteryAttrs(data: Bytes): Attrs {
    if HasBattery(data) then
      var volts := U16LE(data, 8).value as real / 1000.0;
      [Attr(BatteryVoltage, Num(volts)),
       Attr(BatteryLevel, Num((volts - BatteryMinVoltage) / (BatteryMaxVoltage - BatteryMinVoltage) * 100.0))]
    else []
  }

  function TemperatureAttrs(data: Bytes, offset: Option<real>): Attrs {
    if Bit(At(data, 14), 1) && I16LE(data, 10).Some? then
      var t := I16LE(data, 10).value as real * 0.0625;
      if t == 0.0 then []
      else [Attr(Temperature, Num(if offset.Some? then t + offset.value else t))]
    else []
  }

  function LqiAttrs(data: Bytes): Attrs {
    if Bit(At(data, 14), 3) && 13 < |data| then [Attr(Lqi, Num(data[13] as real / 255.0 * 100.0))] else []
  }

  /** A status report. It throws unless there are at least 13 bytes (the
      32-bit timer at 3 and the signed RSSI byte at 12). `offset` is the
      configured temperature offset of the node, if it is a number. */
  function ParseStatusUpdate(data: Bytes, offset: Option<real>): Decoded {
    if |data| < 13 then RangeError
    else Attributes(StatusHead(data) + StatusReadingAttrs(data, offset))
  }

  /** The per-byte copies, the device kind and, for door sensors, the
      trigger bit. */
  function StatusHead(data: Bytes): Attrs {
    var source := StatusSourceName(At(data, 3));
    var door := source == Some("door sensor1E") || source == Some("door sensor1F");
    IndexedValues(true, data)
    + (if source.Some? then [Attr(StatusSource, Text(source.value))] else [])
    + (if door then [Attr(TriggerState, Bool(Bit(At(data, 0), 0)))] else [])
  }

  /** The timer, the battery, temperature and link quality the flags
      announce, and the RSSI. */
  function StatusReadingAttrs(data: Bytes, offset: Option<real>): Attrs
    requires |data| >= 13
  {
    [Attr(TimerSec, Num(U32LE(data, 3).value as real / 100000.0))]
    + BatteryAttrs(data)
    + TemperatureAttrs(data, offset)
    + LqiAttrs(data)
    + [Attr(Rssi, Num(I8(data, 12).value as real))]
  }

  /** A status report throws exactly when it is shorter than 13 bytes;
      otherwise it starts with a copy of every byte, carries the timer
      (hundred-thousandths of the 32-bit word at 3) and ends with the signed
      RSSI byte at 12. */
  lemma StatusUpdateShape(data: Bytes, offset: Option<real>)
    ensures ParseStatusUpdate(data, offset) == RangeError <==> |data| < 13
    ensures |data| >= 13 ==>
              var attrs := ParseStatusUpdate(data, offset).attrs;
              |attrs| > |data| && attrs[..|data|] == IndexedValues(true, data) &&
              Attr(TimerSec, Num(U32LE(data, 3).value as real / 100000.0)) in attrs &&
              attrs[|attrs| - 1] == Attr(Rssi, Num(I8(data, 12).value as real))
  {
  }

  /** The readings of a status report: the timer and the signed RSSI
      always; the temperature (sixteenths of a degree, plus the configured
      offset) when bit 1 of the flags byte 14 is set and the reading is not
      zero; the link quality as a percentage of 255 when bit 3 is set. */
  lemma StatusReadings(data: Bytes, offset: Option<real>)
    requires |data| >= 13
    ensures var attrs := ParseStatusUpdate(data, offset).attrs;
            var raw := I16LE(data, 10).value;
            var flags := if |data| > 14 then data[14] else 0;
            Lookup(attrs, TimerSec) == Some(Num(U32LE(data, 3).value as real / 100000.0)) &&
            Lookup(attrs, Rssi) == Some(Num(I8(data, 12).value as real)) &&
            Lookup(attrs, Temperature) ==
              (if flags / 2 % 2 == 1 && raw != 0
               then Some(Num(raw as real * 0.0625 + (if offset.Some? then offset.value else 0.0)))
               else None) &&
            Lookup(attrs, Lqi) == (if flags / 8 % 2 == 1 then Some(Num(data[13] as real / 255.0 * 100.0)) else None)
  {
    var head := StatusHead(data);
    var tail := StatusReadingAttrs(data, offset);
    forall n: AttrName | n == TimerSec || n == Temperature || n == Lqi || n == Rssi
      ensures Lookup(ParseStatusUpdate(data, offset).attrs, n) == Lookup(tail, n)
    {
      StatusHeadNames(data, n);
      LookupAppend(head, tail, n);
    }
    StatusReadingLookup(data, offset, TimerSec);
    StatusReadingLookup(data, offset, Temperature);
    StatusReadingLookup(data, offset, Lqi);
    StatusReadingLookup(data, offset, Rssi);
    TemperatureValue(data, offset);
    LqiValue(data);
  }


  /** The head of a status report holds none of the readings. */
  lemma StatusHeadNames(data: Bytes, n: AttrName)
    requires n == TimerSec || n == Temperature || n == Lqi || n == Rssi
    ensures Lookup(StatusHead(data), n) == None
  {
    var source := StatusSourceName(At(data, 3));
    var door := source == Some("door sensor1E") || source == Some("door sensor1F");
    var copies := IndexedValues(true, data);
    var kind: Attrs := if source.Some? then [Attr(StatusSource, Text(source.value))] else [];
    var trigger: Attrs := if door then [Attr(TriggerState, Bool(Bit(At(data, 0), 0)))] else [];
    IndexedValuesOnly(true, data, n);
    LookupAppend(copies, kind, n);
    LookupAppend(copies + kind, trigger, n);
  }

  /** Where each reading of a status report comes from: the pieces of
      `StatusReadingAttrs` from the last back to the first. */
  lemma StatusReadingLookup(data: Bytes, offset: Option<real>, n: AttrName)
    requires |data| >= 13
    ensures var timer := [Attr(TimerSec, Num(U32LE(data, 3).value as real / 100000.0))];
            var rssi := [Attr(Rssi, Num(I8(data, 12).value as real))];
            Lookup(StatusReadingAttrs(data, offset), n) ==
              if n == Rssi then Lookup(rssi, n)
              else if n == Lqi then Lookup(LqiAttrs(data), n)
              else if n == Temperature then Lookup(TemperatureAttrs(data, offset), n)
              else if n == BatteryVoltage || n == BatteryLevel then Lookup(BatteryAttrs(data), n)
              else Lookup(timer, n)
  {
    var timer := [Attr(TimerSec, Num(U32LE(data, 3).value as real / 100000.0))];
    var rssi := [Attr(Rssi, Num(I8(data, 12).value as real))];
    if n != Lqi {
      LqiNames(data, n);
    }
    if n != Temperature {
      TemperatureNames(data, offset, n);
    }
    if n != BatteryVoltage && n != BatteryLevel {
      BatteryNames(data, n);
    }
    ReadingPiecesLookup(timer, BatteryAttrs(data), TemperatureAttrs(data, offset), LqiAttrs(data), rssi, n);
  }

  /** Looking a name up in the five pieces of the readings, when every
      piece but the one that may hold it lacks it. */
  lemma ReadingPiecesLookup(timer: Attrs, battery: Attrs, temp: Attrs, lqi: Attrs, rssi: Attrs, n: AttrName)
    requires n != TimerSec ==> Lookup(timer, n) == None
    requires n != Rssi ==> Lookup(rssi, n) == None
    requires n != Lqi ==> Lookup(lqi, n) == None
    requires n != Temperature ==> Lookup(temp, n) == None
    requires n != BatteryVoltage && n != BatteryLevel ==> Lookup(battery, n) == None
    ensures Lookup(timer + battery + temp + lqi + rssi, n) ==
              if n == Rssi then Lookup(rssi, n)
              else if n == Lqi then Lookup(lqi, n)
              else if n == Temperature then Lookup(temp, n)
              else if n == BatteryVoltage || n == BatteryLevel then Lookup(battery, n)
              else Lookup(timer, n)
  {
    LookupAppend(timer + battery + temp + lqi, rssi, n);
    LookupAppend(timer + battery + temp, lqi, n);
    LookupAppend(timer + battery, temp, n);
    LookupAppend(timer, battery, n);
  }

  lemma BatteryNames(data: Bytes, n: AttrName)
    requires n != BatteryVoltage && n != BatteryLevel
    ensures Lookup(BatteryAttrs(data), n) == None
  {
    var b := BatteryAttrs(data);
    assert forall i :: 0 <= i < |b| ==> b[i].name in {BatteryVoltage, BatteryLevel};
    LookupMissing(b, n);
  }

  /** A temperature is reported when the flag is set and the reading is
      not zero, with the configured offset added. */
  lemma TemperatureValue(data: Bytes, offset: Option<real>)
    requires |data| >= 13
    ensures var raw := I16LE(data, 10).value;
            var flags := if |data| > 14 then data[14] else 0;
            Lookup(TemperatureAttrs(data, offset), Temperature) ==
              (if flags / 2 % 2 == 1 && raw != 0
               then Some(Num(raw as real * 0.0625 + (if offset.Some? then offset.value else 0.0)))
               else None)
  {
    var raw := I16LE(data, 10).value;
    assert raw as real * 0.0625 == 0.0 <==> raw == 0;
  }

  lemma LqiValue(data: Bytes)
    requires |data| >= 13
    ensures var flags := if |data| > 14 then data[14] else 0;
            Lookup(LqiAttrs(data), Lqi) == (if flags / 8 % 2 == 1 then Some(Num(data[13] as real / 255.0 * 100.0)) else None)
  {
  }

  lemma TemperatureNames(data: Bytes, offset: Option<real>, n: AttrName)
    requires n != Temperature
    ensures Lookup(TemperatureAttrs(data, offset), n) == None
  {
  }

  lemma LqiNames(data: Bytes, n: AttrName)
    requires n != Lqi
    ensures Lookup(LqiAttrs(data), n) == None
  {
  }

  /** The battery level is the voltage placed linearly between 2.0 V (0 %)
      and 3.28 V (100 %), without clamping. */
  lemma {:induction false} BatteryLevelScale(data: Bytes)
    requires HasBattery(data)
    ensures var v := U16LE(data, 8).value as real / 1000.0;
            var level := BatteryAttrs(data)[1].value.x;
            level == (v - 2.0) * 100.0 / 1.28 &&
            (v == 2.0 ==> level == 0.0) && (v == 3.28 ==> level == 100.0)
  {
    var v := U16LE(data, 8).value as real / 1000.0;
    assert BatteryMaxVoltage - BatteryMinVoltage == 1.28;
    assert (v - 2.0) / 1.28 * 100.0 == (v - 2.0) * 100.0 / 1.28;
  }

  /** A 0xFF filler in either voltage byte, or a clear voltage flag, means
      no battery attributes at all. */
  lemma BatteryNeedsFlagAndReading(data: Bytes)
    ensures BatteryAttrs(data) != [] <==>
              Bit(At(data, 14), 0) && 9 < |data| && data[8] != 0xFF && data[9] != 0xFF &&
              data[8] as int + 256 * data[9] as int < 5000
  {
  }

  // ---- switch and tamper clusters ----

  /** The relay state a hub asks for (not dispatched for received frames). */
  function ParseSwitchStateRequest(data: Bytes): Attrs {
    [Attr(SwitchState, Bool(Truthy(At(data, 3))))]
  }

  function ParseSwitchStateUpdate(data: Bytes): Attrs {
    [Attr(SwitchState, Bool(Truthy(At(data, 4))))]
  }

  function ParseTamperState(data: Bytes): Attrs {
    [Attr(TamperState, Bool(Bit(At(data, 3), 1)))]
  }
}
