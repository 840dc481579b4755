# AlertMe / XBee protocol engine — a Dafny model

This project models the protocol engine of an AlertMe-to-MQTT bridge. The
bridge talks to AlertMe Zigbee devices (smart plugs, door, motion and button
sensors, keypads) through an XBee coordinator. The model covers:

- **the frame generators and their catalogue** (`generate*`, `messages`,
  `generateMessage`): pure functions from a parameter object to the payload
  array, and the lookup that puts a template's addressing around it;
- **the cluster decoders** (`parse*`): pure functions from the data bytes of
  a received frame to the attributes object, in the order the object
  receives its keys, or the RangeError a fixed-width read past the end of
  the buffer throws;
- **the dispatcher** of `parseFrame`: routing by frame type, profile,
  cluster and the command byte `data[2]`, with the reactions routing
  triggers;
- **the node registry** kept in `status.xbee.nodes64`: address resolution
  with the last-match-wins scan, creation on first sight, refresh of the
  addresses and timestamps, and application of the decoded attributes with
  the motion debounce;
- **the coordinator's own address**, assembled from the `MY`, `SH` and `SL`
  AT responses;
- **the liveness pass** `checkLastSeenDevices`;
- **the change-detecting store** `update.status` / `update.config`.

Modules, one file each:

| file | module | contents |
|---|---|---|
| `js.dfy` | `Js` | JavaScript values (`undefined`, `null`, booleans, numbers, NaN, strings, Dates); `===`; Buffer reads (`readUInt16LE`, `readUInt32LE`, `readInt16LE`, `readInt8`, indexing, `slice`); hex text; decimal text; lower case |
| `update.dfy` | `Update` | `Put`, the set-if-not-identical rule, and the class `Updater` with `status`, `config` and the change log |
| `generators.dfy` | `Generators` | the seven generators, the message catalogue and `generateMessage` |
| `decoders.dfy` | `Decoders` | attribute names, attribute lists and every cluster decoder |
| `dispatch.dfy` | `Dispatch` | frames, routing, and reactions (keypad events and delayed sends) |
| `identity.dfy` | `Identity` | the own-address slots and the AT-response rule |
| `registry.dfy` | `Registry` | node records, the registry invariant, resolution, refresh, the debounce and the liveness pass |
| `engine.dfy` | `Engine` | `parseFrame` as a function of the state (`FrameStep`), and the stateful class `XBee` whose methods are proved against it |

The decoders and generators are pure functions. `parseFrame`,
`parseATCommandResponse` and `checkLastSeenDevices` change state, so they
are methods of the class `Engine.XBee`. The class holds the registry (a map
from 64-bit address to record, plus the key order that `Object.keys`
follows), the own addresses and an outbox. The outbox collects everything
handed to the outside world: MQTT publications, status persistence, keypad
events and the delayed sends of the join handshake. Each method's `ensures`
ties the new state to a function of the old one: `ParseFrame` to
`FrameStep`, `CheckLastSeenDevices` to `LivenessPass`. The loops of the
source are `while` loops proved against those same functions:

- the `remote16` scan (`ResolveByRemote16`);
- the attribute `forEach` (`AttributeLoop`);
- the liveness loop (`LivenessLoop`);
- the byte-copy loops of the security and status decoders (`CopyBytes`).

Time is a parameter `now` in milliseconds. The configured node names and
temperature offsets are parameters too.

The registry invariant `Registry.Valid` says:

- the key order lists every key exactly once;
- the broadcast address `ffffffffffffffff` is never a key;
- every record's `remote64` is its own key.

Handling any frame preserves it (`Engine.FrameStepValid`), and so does the
liveness pass (`Registry.LivenessPassValid`).

## Model

| member | source | states |
|---|---|---|
| Update.Put | update.js:29-40 | the write reports a change exactly when the new value is not `===` the stored one; without a change the store is untouched; afterwards the key holds the new value; every other key keeps its value and no other key appears |
| Update.PutIdempotent | update.js:31-32 | writing the same value twice: the second write reports no change and leaves the store as it was, except for NaN and Dates, which are never `===` |
| Update.Updater.Config | update.js:15-26 | `config` returns whether the value changed, writes it into the config store by the set-if-not-identical rule, leaves the status store alone, and logs the change unless quiet |
| Update.Updater.Status | update.js:29-40 | `status` returns whether the value changed, writes it into the status store by the same rule, leaves the config store alone, and logs the change unless quiet |
| Generators.GenerateMessage | xbee.js:1813-1829 | a closed port gives undefined; an unknown name throws; a built frame carries its template's profile, cluster and endpoints; a template without a generator passes its static data through; for a template with a generator, the frame builds exactly when the generator does not throw, and its data is the generator's output |
| Generators.ActiveEndpointRequestEchoes | xbee.js:280-306 | the request is the caller's sequence number followed by the two bytes whose hex text is `remote16` |
| Generators.MatchDescriptorRequestLayout | xbee.js:308-342 | the request holds the sequence number, the address bytes, the profile bytes swapped, the in-cluster count and list, then the out-cluster count followed by `outClusters[1]` before `outClusters[0]` |
| Generators.ModeCodeInjective | xbee.js:411-420 | distinct mode names get distinct codes |
| Generators.ModeChangeRequestShape | xbee.js:385-431 | the mode table: absent or `normal` gives `11 00 FA 00 01`, `idle` code 0x04, `locked` 0x02, `rangeTest` 0x01, `silent` 0x03; any other mode name gives an empty payload |
| Generators.SwitchStateNumber | xbee.js:455-520 | a numeric switch state turns the relay on exactly for 1, off exactly for 0, and asks for the state otherwise |
| Generators.SwitchStateIgnoresCase | xbee.js:478 | a non-empty string gives the same payload as its lower-case form |
| Generators.SwitchWordsDisjoint | xbee.js:479-498 | no switch word is both an on word and an off word |
| Generators.SwitchStateThreeWay | xbee.js:455-520 | null parameters throw; otherwise the payload is relay on exactly for an on word, relay off exactly for an off word, and the 4-byte state query exactly for anything else |
| Generators.SwitchStateDefaultsToCheck | xbee.js:474-476 | undefined, null and the empty string all give the 4-byte state query |
| Generators.CatalogAddressing | xbee.js:162-269 | every device-profile message runs between the device-object endpoints; every AlertMe message goes to the AlertMe endpoint |
| Generators.CatalogPayloads | xbee.js:162-269 | an entry has static data exactly when it has no generator |
| Generators.GenerateWithParams | xbee.js:1813-1829 | with a parameter object that has a network address where one is decoded, every message except the match descriptor request builds |
| Generators.GenerateWithNull | xbee.js:1813-1829 | with null parameters exactly the four messages that read no parameter build |
| Decoders.PinEntryBytes | xbee.js:666-672 | the PIN is at most 15 bytes: `data[7 .. 7 + min(data[6], 15))`, cut at the end of the buffer, and empty when byte 6 is missing |
| Decoders.PinEntryText | xbee.js:661-678 | a keypad PIN frame decodes to exactly one attribute, the PIN digits as text |
| Decoders.PowerConsumptionRoundTrip | xbee.js:781-811 | a report carrying two 32-bit words at offsets 3 and 7 decodes to exactly that energy and uptime |
| Decoders.PowerConsumptionRangeError | xbee.js:801-802 | the decoder throws exactly when the buffer is shorter than 11 bytes |
| Decoders.ActivePowerRoundTrip | xbee.js:813-837 | a report carrying a 16-bit word at offset 3 decodes to exactly that demand |
| Decoders.ActivePowerRangeError | xbee.js:831 | the decoder throws exactly when the buffer is shorter than 5 bytes |
| Decoders.VersionInfoRoundTrip | xbee.js:879-926 | a version report with three length-prefixed strings after the 21-byte header decodes to make, model and build date |
| Decoders.VersionInfoDecode | xbee.js:879-926 | whatever the bytes before offset 21, a buffer continuing with three length-prefixed strings decodes to those strings |
| Decoders.CopyBytes | xbee.js:971-973 | the copy loop yields one `…Value<i>` attribute per byte, and looking up index i gives byte i |
| Decoders.IndexedValuesDistinct | xbee.js:1093-1095 | the per-byte attribute names are pairwise distinct |
| Decoders.SecurityStateCopies | xbee.js:969-973 | for every device model, a security report carries the state byte 3 and a copy of each byte under its index |
| Decoders.SecurityStateRule | xbee.js:975-1034 | for reports starting with 0x09: buttons and key fobs report tamper when bit 2 of byte 3 is clear and no contact state; contact sensors add the contact state from bit 0; an unknown model, a smart plug or another first byte adds no tamper, contact or motion state |
| Decoders.MotionStateRule | xbee.js:1008-1029 | for a motion sensor, a reading of 0x01 or 0x6E sets no motion attributes; otherwise the motion state is "reading > 0" and the motion value is the reading as a percentage of 255 |
| Decoders.StatusUpdateShape | xbee.js:1043-1193 | a status report throws exactly when shorter than 13 bytes; otherwise it starts with a copy of every byte, carries the timer from the 32-bit word at 3, and ends with the signed RSSI byte at 12 |
| Decoders.StatusReadings | xbee.js:1140-1183 | a status report holds the timer (the 32-bit word at 3 over 100000) and the signed RSSI byte at 12; a temperature in sixteenths of a degree plus the configured offset exactly when bit 1 of byte 14 is set and the reading is not zero; the link quality as a percentage of byte 13 exactly when bit 3 is set |
| Decoders.TemperatureValue | xbee.js:1161-1177 | the temperature attribute appears exactly when the flag is set and the reading is not zero, with the offset added |
| Decoders.LqiValue | xbee.js:1179-1181 | the link quality appears exactly when bit 3 of the flags is set, as byte 13 in percent of 255 |
| Decoders.BatteryNeedsFlagAndReading | xbee.js:1142-1158 | battery attributes appear exactly when bit 0 of byte 14 is set, neither voltage byte is 0xFF and the reading is below 5000 mV |
| Decoders.BatteryLevelScale | xbee.js:1147-1158 | the battery level is `(v − 2.0) / 1.28 · 100`, 0 at 2.0 V and 100 at 3.28 V, not clamped |
| Js.U16LERoundTrip | xbee.js:831 | reading a 16-bit little-endian word where it was written gives it back |
| Js.U32LERoundTrip | xbee.js:801-802 | reading a 32-bit little-endian word where it was written gives it back |
| Js.I16LERoundTrip | xbee.js:1162 | the signed 16-bit read of a two's complement encoding gives the signed value back |
| Js.I8RoundTrip | xbee.js:1183 | the signed byte read of a two's complement byte gives the signed value back |
| Js.HexRoundTrip | xbee.js:299 | decoding the hex text of bytes gives the bytes back |
| Js.U16LE | xbee.js:831 | the read succeeds exactly when two bytes are available, and gives a value below 2^16 |
| Js.U32LE | xbee.js:801-802 | the read succeeds exactly when four bytes are available, and gives a value below 2^32 |
| Js.I16LE | xbee.js:1162 | the read succeeds exactly when two bytes are available, and gives a value in [−2^15, 2^15) |
| Js.I8 | xbee.js:1183 | the read succeeds exactly when the byte exists, and gives the value in [−128, 128) that is congruent to the byte modulo 256, i.e. its two's complement reading |
| Js.Slice | xbee.js:918-923 | the result is always a contiguous piece of the buffer; within the buffer it is exactly `data[start..end]`; a NaN end gives nothing, a NaN start reads as 0, an end past the buffer stops at its end, a start past it gives nothing, and a negative start counts from the end |
| Dispatch.RouteAlertMe | xbee.js:1421-1598 | an AlertMe frame only ever triggers keypad events, the state query to the sender or the security initialisation of the sender |
| Dispatch.RouteZdp | xbee.js:1611-1700 | a device-profile frame only ever triggers the four handshake sends to the sender |
| Dispatch.Route | xbee.js:1387-1712 | a decoder that throws sends nothing; a frame that is not an explicit RX frame decodes to nothing; every send goes to the sender |
| Dispatch.SecurityInitTrigger | xbee.js:1507-1522 | a security report throws exactly when it is shorter than 6 bytes; the security initialisation is sent exactly when bytes 3 to 5 are `15 00 39` |
| Dispatch.ReactionsBuild | xbee.js:1411-1705 | every message a frame schedules can be built by `generateMessage` with the parameters it is given |
| Dispatch.JoinHandshake | xbee.js:1663-1676 | a match descriptor request schedules the match descriptor response after 1 s and the active endpoint request after 3 s, both echoing the sender's sequence number and the second its network address |
| Dispatch.ActiveEndpointFollowUp | xbee.js:1619-1636 | an active endpoint response schedules the normal-mode change after 5 s and the version request after 7 s |
| Dispatch.PowerReportQueriesSwitch | xbee.js:1478-1485 | a power-consumption report decodes and queries the relay state of the sender, and nothing else |
| Dispatch.SwitchRequestRoundTrip | xbee.js:1195-1209 | a boolean switch request decodes back to the same relay state |
| Identity.AtResponse | xbee.js:547-558 | `MY` sets the 16-bit address to the hex of its data and leaves the slots alone; `SH` sets the high slot and `SL` the low slot to the hex of their data, each leaving the other slot alone; other commands change neither; once both slots hold text the 64-bit address is high followed by low, and until then it is unchanged |
| Identity.AtRunAddresses | xbee.js:547-558 | after any sequence of AT responses the slots hold the latest `SH` and `SL`, the 16-bit address is the latest `MY`, and the 64-bit address is `SH ++ SL` exactly when both slots are filled, in either order |
| Registry.LastMatch | xbee.js:1287-1292 | the result is the last key in order whose record has the frame's `remote16`; there is none exactly when no record matches |
| Registry.Scan | xbee.js:1287-1292 | in a valid registry the scan returns the last matching key |
| Registry.ResolveRule | xbee.js:1286-1315 | a usable `remote64` files the frame under it; a missing or broadcast one takes the last match of `remote16`; the broadcast address is never the result |
| Registry.Touch | xbee.js:1319-1354 | a record is created only for a new address, which is appended to the key order; other records are unchanged; the record becomes the refreshed one |
| Registry.RefreshRecord | xbee.js:1328-1354 | the refresh sets `remote16`, `remote64` and `lastSeen`, the configured name if there is one, and `firstSeen` only when unset; attributes and liveness are untouched |
| Registry.TouchEffects | xbee.js:1319-1354 | a refresh persists the status exactly when the record is new; publishes `remote16` unretained and `remote64` retained; publishes the name exactly when one is configured, the first-seen time exactly when the record had none, and the last-seen time now, last; every publication but `remote16` is retained |
| Registry.PublishesToAppend | xbee.js:1319-1354 | a list of effects publishes to a topic exactly when one of its two parts does |
| Registry.RefreshEffectsFixed | xbee.js:1319-1353 | the status is persisted exactly for a new record; both address publications are present, `remote16` unretained and `remote64` retained; the last-seen publication comes last |
| Registry.RefreshEffectsRetained | xbee.js:1319-1353 | every publication of a refresh except `remote16` is retained |
| Registry.RefreshEffectsOptional | xbee.js:1338-1349 | the name is published exactly when configured, and the first-seen time exactly when it was unset, with their values |
| Registry.TouchKeys | xbee.js:1319-1322 | after a refresh, the key order still lists each key exactly once |
| Registry.TouchAddresses | xbee.js:1331-1333 | after a refresh, every record's `remote64` is still its own key |
| Registry.TouchValid | xbee.js:1319-1354 | a refresh under any non-broadcast key preserves the registry invariant |
| Registry.ApplyOneRule | xbee.js:1744-1788 | an attribute is always stored; a `false` motion state within 180 s of the last accepted one is neither timestamped nor published; any other value is timestamped now and published retained; no other field changes |
| Registry.ApplyAllRule | xbee.js:1744-1788 | after the loop every decoded attribute holds its decoded value; attributes not decoded and non-attribute fields keep their values |
| Registry.CheckOne | xbee.js:1883-1900 | one liveness step keeps the keys and the key order; it publishes exactly one retained `tele/<key>/LWT` carrying the record's new status when the record is checkable, and nothing otherwise |
| Registry.LivenessPass | xbee.js:1882-1902 | the pass keeps the keys and the key order |
| Registry.SettleRule | xbee.js:1886-1897 | only `lwtStatus` changes: a record with a last-seen time and an address becomes `online` within 600 s of it and `offline` otherwise; other records are left alone |
| Registry.CheckOneRule | xbee.js:1883-1900 | a liveness step settles its own record and changes no other |
| Registry.LivenessPassAt | xbee.js:1882-1902 | after the first n steps, a record is settled exactly when its key is among the first n |
| Registry.LivenessPassRule | xbee.js:1882-1902 | after the whole pass every record is settled |
| Registry.LivenessPassEffects | xbee.js:1882-1902 | the pass over the first n keys publishes exactly one retained LWT report per checkable record among them, in key order, carrying its liveness |
| Registry.LwtReportsHold | xbee.js:1899-1900 | a checkable record's LWT report is among the reports of any key list holding its key |
| Registry.LivenessPassReports | xbee.js:1882-1902 | after the whole pass over a valid registry, each checkable record's LWT publication is among the effects, retained, carrying the record's new status |
| Registry.LivenessPassValid | xbee.js:1882-1902 | the pass preserves the registry invariant |
| Engine.FinishRule | xbee.js:1739-1791 | a decoder error propagates and nothing is applied; no attributes, or a frame from the coordinator itself, leave the state alone; otherwise every decoded attribute lands in the sender's record, and nothing else changes |
| Engine.FinishOutbox | xbee.js:1744-1788 | applying attributes only appends to what was handed out |
| Engine.FinishValid | xbee.js:1744-1788 | applying attributes preserves the registry invariant |
| Engine.FrameStepIgnored | xbee.js:1274-1317 | a frame that is an AT response, lacks `remote16` or cannot be resolved touches neither registry nor outbox; only AT responses change the own addresses |
| Engine.FrameStepFiled | xbee.js:1266-1358 | a frame that resolves to a key is handled under that key |
| Engine.HandleRefresh | xbee.js:1319-1354 | whatever the payload decodes to, the sender's record afterwards holds its `remote16`, its `remote64`, `lastSeen` = now and a `firstSeen` |
| Engine.HandleKeys | xbee.js:1319-1322 | a record is created only when the key is new, and no other record changes |
| Engine.HandleOutcome | xbee.js:1387-1791 | the result is the decoded attributes, or the decoder's error; the refresh publications and the reactions come first in the outbox |
| Engine.HandleAttributes | xbee.js:1739-1788 | decoded attributes land in the record unless the frame is from the coordinator itself, in which case the refreshed record stays as it is; non-attribute fields keep their refreshed values |
| Engine.HandleValid | xbee.js:1319-1791 | handling a frame under a non-broadcast key preserves the registry invariant |
| Engine.FrameStepValid | xbee.js:1266-1791 | handling any frame preserves the registry invariant |
| Engine.AttributeLoop | xbee.js:1744-1788 | the `forEach` over the attributes computes the record and publications of applying them in order |
| Engine.LivenessLoop | xbee.js:1883-1901 | the loop over `Object.keys` computes the liveness pass |
| Engine.XBee.ParseATCommandResponse | xbee.js:547-558 | the own addresses follow the AT-response rule; the registry and outbox are unchanged |
| Engine.XBee.ResolveByRemote16 | xbee.js:1287-1292 | the scan loop returns the registry scan for `remote16` |
| Engine.XBee.ApplyAttributes | xbee.js:1744-1788 | the record of the key becomes the result of applying the attributes, and the publications are appended to the outbox; the registry invariant is kept |
| Engine.XBee.CheckLastSeenDevices | xbee.js:1882-1902 | the registry becomes the liveness pass of the old one, with its publications appended; the registry invariant is kept |
| Engine.XBee.HandleFrame | xbee.js:1319-1791 | the new state and result are those of `Handle`; under a non-broadcast key the registry invariant is kept |
| Engine.XBee.FinishFrame | xbee.js:1739-1791 | the new state and result are those of `Finish`; the registry invariant is kept |
| Engine.XBee.ParseFrame | xbee.js:1266-1791 | the new state and result are those of `FrameStep` on the old state; the registry invariant is kept |

## Left out

- Serial transport, the XBee API framing, MQTT, Home Assistant, JSON persistence and logging are not modelled. What the engine hands to them is an `Effect` in the outbox: a publication, a status write to persist, a keypad event or a delayed send. `sendMessage`'s own guards, and the errors it raises asynchronously, are not part of this model.
- Timers are not modelled. `setTimeout` becomes a delayed `Send` effect carrying its delay. The watchdog interval becomes a call to `CheckLastSeenDevices` with `now` as a parameter.
- The configuration (`config.nodeNames`, `config.temperatureOffset`) and the clock are parameters of `ParseFrame`.
- Rounding is not modelled. `num.round2` on the temperature, battery level and LQI, and `toFixed(2)` on the motion value, are left out; those values are exact reals. `num.round2` and `hex.i2s` are not part of this model.
- `bitmask.check(b).mask.bitN` is taken to be bit N of b, with a missing byte reading as 0.
- `Buffer.toString()` maps each byte to the character with that code. This agrees with UTF-8 only for ASCII text.
- Update.Updater.Status: keys are whole paths. The nesting of `object-path` is not modelled, and neither is restoring the store from disk.
- Update.Updater.Config: the quiet flag only suppresses the change log, which is modelled as a list of entries.
- The status writes that `parseFrame` makes through `update.status` are modelled as direct writes to the node record. The change log and the quiet flag for the `statusStateValue…` attributes are left out of the engine, because they only affect logging.
- Registry.TimeOf: only a stored Date or null is read as a time. `new Date(x)` for a stored number or string is taken as NaN, so the value neither debounces nor counts as recently seen.
- Registry.CheckOne: publishes to `tele/<key>/LWT` where the source uses `node.remote64`. The two are equal in a valid registry, and every method of `Engine.XBee` that changes the registry requires and keeps it valid.
- Registry.Resolve: when the matching record has no `remote64`, the frame is dropped. The source would go on under the key "undefined", but this cannot happen in a valid registry, which `Engine.XBee.ParseFrame` requires and keeps.
- The attributes object is a list in insertion order. The decoders write each name once; this is proved for the per-byte copies (`IndexedValuesDistinct`).
- Generators.SwitchStateText: array and non-integer number arguments are not modelled. Neither is the generator storing the defaulted `"check"` back into the caller's `params`.
- The dead 0x88 branch inside the dispatch switch (xbee.js:1388-1403) is not modelled, because the early return at xbee.js:1274-1277 makes it unreachable. The active endpoint response decodes to an empty attributes object, as `parseActiveEndpointResponse` returns `{}`.
- `generateActiveEndpointRequest` sends the two `remote16` bytes in hex-text order, although the comment at xbee.js:283 says little endian; the model follows the code.
- `generateMessage` with an unknown name throws a TypeError when it reads `message.frame`; the model returns `Threw`.
