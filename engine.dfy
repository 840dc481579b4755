/** The frame handler and the periodic liveness check as one stateful
    object: the node registry, the coordinator's own addresses and the
    outbox of publications, status writes, keypad events and delayed
    sends. Each method is proved against the functional step it performs. */
module Engine {
  import opened Js
  import opened Update
  import opened Decoders
  import opened Dispatch
  import opened Identity
  import opened Registry

  /** What `parseFrame` gives back: nothing (`undefined`), a thrown
      RangeError from a decoder, or `{ attributes }`. */
  datatype Outcome = NoResult | Raised | Returned(decoded: Decoded)

  /** Everything frame handling reads and writes. */
  datatype State = State(table: Table, own: Own, outbox: seq<Effect>)

  datatype Step = Step(state: State, outcome: Outcome)

  /** The configured temperature offset of a node, if it is a number. */
  function OffsetOf(offsets: map<string, real>, k: string): Option<real> {
    if k in offsets then Some(offsets[k]) else None
  }

  /** The end of `parseFrame` once the record is refreshed and the frame
      decoded: a RangeError propagates; otherwise the attributes, unless
      there are none or the frame came from the coordinator itself (`self`),
      are applied to the record of `k`. */
  function Finish(s: State, k: string, decoded: Decoded, now: int, self: bool): Step
    requires k in s.table.nodes
  {
    match decoded
    case RangeError => Step(s, Raised)
    case NoAttributes => Step(s, Returned(NoAttributes))
    case Attributes(attrs) =>
      if self then Step(s, Returned(decoded))
      else
        var applied := ApplyAll(s.table.nodes[k], k, attrs, now);
        Step(s.(table := s.table.(nodes := s.table.nodes[k := applied.node]), outbox := s.outbox + applied.effects),
             Returned(decoded))
  }

  /** `parseFrame` for a frame filed under key `k` with network address
      `r16`: refresh the record, decode the frame (sending its reactions),
      then finish. */
  function Handle(s: State, f: Frame, k: string, r16: string, now: int,
                  names: map<string, string>, offsets: map<string, real>): Step
  {
    var touched := Touch(s.table, k, r16, now, names);
    var routed := Route(f, k, r16, Get(touched.table.nodes[k], Attribute(Model)), OffsetOf(offsets, k));
    Finish(State(touched.table, s.own, s.outbox + touched.effects + routed.reactions),
           k, routed.decoded, now, s.own.addr64 == Text(k))
  }

  /** `parseFrame` as a function of the state. `now` is the time of the
      call in ms, `names` the configured node names and `offsets` the
      configured temperature offsets. */
  function FrameStep(s: State, f: Frame, now: int, names: map<string, string>, offsets: map<string, real>): Step {
    if f.frameType == FrameAtResponse then Step(s.(own := AtResponse(s.own, f.command, f.commandData)), NoResult)
    else if f.remote16.None? then Step(s, NoResult)
    else
      var key := Resolve(s.table, f.remote64, f.remote16.value);
      if key.None? then Step(s, NoResult)
      else Handle(s, f, key.value, f.remote16.value, now, names, offsets)
  }

  /** Finishing changes only the record of `k`, and there only attributes
      and their timestamps; the attributes land in it unless the frame came
      from the coordinator itself; only a RangeError is raised. */
  lemma FinishRule(s: State, k: string, decoded: Decoded, now: int, self: bool)
    requires k in s.table.nodes
    ensures var r := Finish(s, k, decoded, now, self);
            var before := s.table.nodes[k];
            var after := r.state.table.nodes[k];
            r.state.table.keys == s.table.keys && r.state.own == s.own &&
            r.state.table.nodes.Keys == s.table.nodes.Keys &&
            (forall j :: j in s.table.nodes && j != k ==> r.state.table.nodes[j] == s.table.nodes[j]) &&
            (forall fld: Field :: !fld.Attribute? && !fld.AttributeLastSeen? ==> Get(after, fld) == Get(before, fld)) &&
            (decoded.Attributes? && !self ==>
               forall a :: Lookup(decoded.attrs, a).Some? ==> Get(after, Attribute(a)) == Lookup(decoded.attrs, a).value) &&
            (!decoded.Attributes? || self ==> r.state == s) &&
            r.outcome == (if decoded.RangeError? then Raised else Returned(decoded))
  {
    if decoded.Attributes? && !self {
      ApplyAllRule(s.table.nodes[k], k, decoded.attrs, now);
    }
  }

  /** The key a handled frame was filed under. */
  function FiledUnder(s: State, f: Frame): Option<string> {
    if f.frameType == FrameAtResponse || f.remote16.None? then None
    else Resolve(s.table, f.remote64, f.remote16.value)
  }

  /** AT responses touch only the coordinator's own addresses, and a frame
      that is not filed under any key changes nothing at all. */
  lemma FrameStepIgnored(s: State, f: Frame, now: int, names: map<string, string>, offsets: map<string, real>)
    ensures var r := FrameStep(s, f, now, names, offsets);
            FiledUnder(s, f).None? ==> r.outcome == NoResult && r.state.table == s.table && r.state.outbox == s.outbox
    ensures var r := FrameStep(s, f, now, names, offsets);
            f.frameType == FrameAtResponse ==> r.state.own == AtResponse(s.own, f.command, f.commandData)
    ensures var r := FrameStep(s, f, now, names, offsets);
            f.frameType != FrameAtResponse ==> r.state.own == s.own
  {
  }

  /** A frame that is filed is handled under its key and network address. */
  lemma FrameStepFiled(s: State, f: Frame, now: int, names: map<string, string>, offsets: map<string, real>)
    requires FiledUnder(s, f).Some?
    ensures f.frameType != FrameAtResponse && f.remote16.Some?
    ensures FrameStep(s, f, now, names, offsets) ==
              Handle(s, f, FiledUnder(s, f).value, f.remote16.value, now, names, offsets)
  {
  }

  /** Handling a frame always refreshes its record, whatever the decoder
      does afterwards: the frame's network address, the key as 64-bit
      address, now as last-seen time and a first-seen time. */
  lemma HandleRefresh(s: State, f: Frame, k: string, r16: string, now: int,
                      names: map<string, string>, offsets: map<string, real>)
    ensures var t := Handle(s, f, k, r16, now, names, offsets).state.table;
            k in t.nodes &&
            Get(t.nodes[k], Remote16) == Text(r16) &&
            Get(t.nodes[k], Remote64) == Text(k) &&
            Get(t.nodes[k], LastSeen) == Date(now) &&
            !FirstSeenUnset(t.nodes[k])
  {
    var before: Node := if k in s.table.nodes then s.table.nodes[k] else map[];
    var touched := Touch(s.table, k, r16, now, names);
    var routed := Route(f, k, r16, Get(touched.table.nodes[k], Attribute(Model)), OffsetOf(offsets, k));
    var s1 := State(touched.table, s.own, s.outbox + touched.effects + routed.reactions);
    var node := touched.table.nodes[k];
    assert Get(node, Remote16) == Text(r16) && Get(node, Remote64) == Text(k) &&
           Get(node, LastSeen) == Date(now) && !FirstSeenUnset(node) by {
      RefreshRecord(before, k, r16, now, NameOf(names, k));
    }
    FinishFields(s1, k, routed.decoded, now, s.own.addr64 == Text(k));
  }

  /** Finishing keeps every field of the record that is not an attribute or
      an attribute's timestamp. */
  lemma FinishFields(s: State, k: string, decoded: Decoded, now: int, self: bool)
    requires k in s.table.nodes
    ensures var after := Finish(s, k, decoded, now, self).state.table.nodes;
            k in after && forall fld: Field :: !fld.Attribute? && !fld.AttributeLastSeen? ==>
                                                Get(after[k], fld) == Get(s.table.nodes[k], fld)
  {
    FinishRule(s, k, decoded, now, self);
  }

  /** A new key is added at the end of the key list, and no other record
      changes. */
  lemma HandleKeys(s: State, f: Frame, k: string, r16: string, now: int,
                   names: map<string, string>, offsets: map<string, real>)
    ensures var t := Handle(s, f, k, r16, now, names, offsets).state.table;
            t.keys == (if k in s.table.nodes then s.table.keys else s.table.keys + [k]) &&
            t.nodes.Keys == s.table.nodes.Keys + {k} &&
            forall j :: j in s.table.nodes && j != k ==> t.nodes[j] == s.table.nodes[j]
  {
    var touched := Touch(s.table, k, r16, now, names);
    var routed := Route(f, k, r16, Get(touched.table.nodes[k], Attribute(Model)), OffsetOf(offsets, k));
    FinishRule(State(touched.table, s.own, s.outbox + touched.effects + routed.reactions),
               k, routed.decoded, now, s.own.addr64 == Text(k));
  }

  /** The outcome is the routed decoder's result: a RangeError throws, any
      other result is returned. The reactions are sent in any case, after
      the refresh publications. */
  lemma HandleOutcome(s: State, f: Frame, k: string, r16: string, now: int,
                      names: map<string, string>, offsets: map<string, real>)
    ensures var touched := Touch(s.table, k, r16, now, names);
            var routed := Route(f, k, r16, Get(touched.table.nodes[k], Attribute(Model)), OffsetOf(offsets, k));
            var r := Handle(s, f, k, r16, now, names, offsets);
            r.outcome == (if routed.decoded.RangeError? then Raised else Returned(routed.decoded)) &&
            r.state.own == s.own &&
            r.state.outbox[..|s.outbox| + |touched.effects| + |routed.reactions|] ==
              s.outbox + touched.effects + routed.reactions
  {
    var touched := Touch(s.table, k, r16, now, names);
    var routed := Route(f, k, r16, Get(touched.table.nodes[k], Attribute(Model)), OffsetOf(offsets, k));
    var s1 := State(touched.table, s.own, s.outbox + touched.effects + routed.reactions);
    FinishRule(s1, k, routed.decoded, now, s.own.addr64 == Text(k));
    FinishOutbox(s1, k, routed.decoded, now, s.own.addr64 == Text(k));
  }

  /** The attributes of a frame from another device land in its record:
      for each name, the value of its last occurrence; fields that are not
      attributes keep their refreshed values. A frame from the coordinator
      itself changes no attribute. */
  lemma HandleAttributes(s: State, f: Frame, k: string, r16: string, now: int,
                         names: map<string, string>, offsets: map<string, real>)
    ensures var node := Touch(s.table, k, r16, now, names).table.nodes[k];
            var r := Handle(s, f, k, r16, now, names, offsets);
            var after := r.state.table.nodes[k];
            (r.outcome.Returned? && r.outcome.decoded.Attributes? && s.own.addr64 != Text(k) ==>
               forall a :: Lookup(r.outcome.decoded.attrs, a).Some? ==>
                 Get(after, Attribute(a)) == Lookup(r.outcome.decoded.attrs, a).value) &&
            (s.own.addr64 == Text(k) ==> after == node) &&
            (forall fld: Field :: !fld.Attribute? && !fld.AttributeLastSeen? ==> Get(after, fld) == Get(node, fld))
  {
    var touched := Touch(s.table, k, r16, now, names);
    var routed := Route(f, k, r16, Get(touched.table.nodes[k], Attribute(Model)), OffsetOf(offsets, k));
    FinishRule(State(touched.table, s.own, s.outbox + touched.effects + routed.reactions),
               k, routed.decoded, now, s.own.addr64 == Text(k));
  }

  /** Handling a frame under a key other than the broadcast address keeps
      the registry invariant. */
  lemma HandleValid(s: State, f: Frame, k: string, r16: string, now: int,
                    names: map<string, string>, offsets: map<string, real>)
    requires Valid(s.table) && k != Broadcast
    ensures Valid(Handle(s, f, k, r16, now, names, offsets).state.table)
  {
    TouchValid(s.table, k, r16, now, names);
    var touched := Touch(s.table, k, r16, now, names);
    var routed := Route(f, k, r16, Get(touched.table.nodes[k], Attribute(Model)), OffsetOf(offsets, k));
    FinishValid(State(touched.table, s.own, s.outbox + touched.effects + routed.reactions),
                k, routed.decoded, now, s.own.addr64 == Text(k));
  }

  /** Frame handling keeps the registry invariant. */
  lemma FrameStepValid(s: State, f: Frame, now: int, names: map<string, string>, offsets: map<string, real>)
    requires Valid(s.table)
    ensures Valid(FrameStep(s, f, now, names, offsets).state.table)
  {
    if FiledUnder(s, f).Some? {
      ResolveRule(s.table, f.remote64, f.remote16.value);
      FrameStepFiled(s, f, now, names, offsets);
      HandleValid(s, f, FiledUnder(s, f).value, f.remote16.value, now, names, offsets);
    }
  }

  /** Finishing only appends to the outbox. */
  lemma FinishOutbox(s: State, k: string, decoded: Decoded, now: int, self: bool)
    requires k in s.table.nodes
    ensures var o := Finish(s, k, decoded, now, self).state.outbox;
            |s.outbox| <= |o| && o[..|s.outbox|] == s.outbox
  {
  }

  /** Finishing keeps the registry invariant. */
  lemma FinishValid(s: State, k: string, decoded: Decoded, now: int, self: bool)
    requires k in s.table.nodes && Valid(s.table)
    ensures Valid(Finish(s, k, decoded, now, self).state.table)
  {
    FinishRule(s, k, decoded, now, self);
    var t := Finish(s, k, decoded, now, self).state.table;
    forall j | j in t.nodes ensures Get(t.nodes[j], Remote64) == Text(j) {
      if j != k {
        assert t.nodes[j] == s.table.nodes[j];
      }
    }
  }

  /** The loop over the attributes of one frame: each is stored, then,
      unless debounced, timestamped and published. */
  method AttributeLoop(n: Node, k: string, attrs: Attrs, now: int) returns (node: Node, published: seq<Effect>)
    ensures Applied(node, published) == ApplyAll(n, k, attrs, now)
  {
    node := n;
    published := [];
    var i := 0;
    while i < |attrs|
      invariant 0 <= i <= |attrs|
      invariant Applied(node, published) == ApplyAll(n, k, attrs[..i], now)
    {
      var a := attrs[i];
      assert attrs[..i + 1][..i] == attrs[..i];
      node := Put(node, Attribute(a.name), a.value).store;
      if !Debounced(node, a, now) {
        node := Put(node, AttributeLastSeen(a.name), Date(now)).store;
        published := published + [Publish(Topic(k, NameText(a.name)), a.value, true)];
      }
      i := i + 1;
    }
    assert attrs[..i] == attrs;
  }

  /** The loop over all keys of the registry, in order. */
  method LivenessLoop(t: Table, now: int) returns (r: Table, published: seq<Effect>)
    ensures Touched(r, published) == LivenessPass(t, |t.keys|, now)
  {
    r := t;
    published := [];
    var i := 0;
    while i < |t.keys|
      invariant 0 <= i <= |t.keys|
      invariant Touched(r, published) == LivenessPass(t, i, now)
    {
      var k := t.keys[i];
      if k in r.nodes && Checkable(r.nodes[k]) {
        var n := r.nodes[k];
        var lwt := Liveness(Get(n, LastSeen), now);
        r := r.(nodes := r.nodes[k := Put(n, LwtStatus, Text(lwt)).store]);
        published := published + [Publish("tele/" + k + "/LWT", Text(lwt), true)];
      }
      i := i + 1;
    }
  }

  /** The handler's state: `status.xbee.nodes64` with its key order, the
      coordinator's own addresses, and what was handed to the outside. */
  class XBee {
    var nodes: map<string, Node>
    var keys: seq<string>
    var own: Own
    var outbox: seq<Effect>

    function Snapshot(): State
      reads this
    {
      State(Table(nodes, keys), own, outbox)
    }

    ghost predicate Valid()
      reads this
    {
      Registry.Valid(Table(nodes, keys))
    }

    constructor ()
      ensures Snapshot() == State(Table(map[], []), Unknown, []) && Valid()
    {
      nodes := map[];
      keys := [];
      own := Unknown;
      outbox := [];
    }

    /** `parseATCommandResponse`. */
    method ParseATCommandResponse(command: string, commandData: Bytes)
      modifies this
      ensures own == AtResponse(old(own), command, commandData)
      ensures nodes == old(nodes) && keys == old(keys) && outbox == old(outbox)
    {
      var o := own;
      if command == "MY" {
        o := o.(addr16 := Text(Hex(commandData)));
      } else if command == "SH" {
        o := o.(high := Some(Hex(commandData)));
      } else if command == "SL" {
        o := o.(low := Some(Hex(commandData)));
      }
      if o.high.Some? && o.low.Some? {
        o := o.(addr64 := Text(o.high.value + o.low.value));
      }
      own := o;
    }

    /** The scan for a frame without a usable 64-bit address: every record
      with the frame's network address overwrites the frame's address with
      its own, so the last one wins. */
    method ResolveByRemote16(r16: string) returns (r: Option<string>)
      ensures r == Scan(Table(nodes, keys), r16)
    {
      var t := Table(nodes, keys);
      var remote64: Value := Undefined;
      var i := 0;
      while i < |keys|
        invariant 0 <= i <= |keys|
        invariant match LastMatch(t, keys[..i], r16)
                  case None => remote64 == Undefined
                  case Some(j) => j in nodes && remote64 == Get(nodes[j], Remote64)
      {
        var k := keys[i];
        assert keys[..i + 1][..i] == keys[..i];
        if k in nodes && Get(nodes[k], Remote16) == Text(r16) {
          remote64 := Get(nodes[k], Remote64);
        }
        i := i + 1;
      }
      assert keys[..i] == keys;
      r := if remote64.Text? then Some(remote64.s) else None;
    }

    /** The attribute loop of `parseFrame` for the record of `k`. */
    method ApplyAttributes(k: string, attrs: Attrs, now: int)
      requires k in nodes && Valid()
      modifies this
      ensures var a := ApplyAll(old(nodes)[k], k, attrs, now);
              nodes == old(nodes)[k := a.node] && outbox == old(outbox) + a.effects
      ensures keys == old(keys) && own == old(own)
      ensures Valid()
    {
      var node, published := AttributeLoop(nodes[k], k, attrs, now);
      ApplyAllRule(nodes[k], k, attrs, now);
      nodes := nodes[k := node];
      outbox := outbox + published;
    }

    /** `checkLastSeenDevices`: each record with a last-seen time and a
      64-bit address gets its status set and published. */
    method CheckLastSeenDevices(now: int)
      requires Valid()
      modifies this
      ensures var r := LivenessPass(old(Snapshot()).table, |old(keys)|, now);
              Table(nodes, keys) == r.table && outbox == old(outbox) + r.effects && own == old(own)
      ensures Valid()
    {
      LivenessPassValid(Table(nodes, keys), now);
      var t, published := LivenessLoop(Table(nodes, keys), now);
      nodes := t.nodes;
      outbox := outbox + published;
    }

    /** The refresh, decoding and attribute steps of `parseFrame` for a
      frame filed under `k`. */
    method HandleFrame(f: Frame, k: string, r16: string, now: int,
                       names: map<string, string>, offsets: map<string, real>) returns (o: Outcome)
      requires Valid() && k != Broadcast
      modifies this
      ensures Step(Snapshot(), o) == Handle(old(Snapshot()), f, k, r16, now, names, offsets)
      ensures Valid()
    {
      TouchValid(Table(nodes, keys), k, r16, now, names);
      var touched := Touch(Table(nodes, keys), k, r16, now, names);
      nodes := touched.table.nodes;
      keys := touched.table.keys;
      outbox := outbox + touched.effects;
      var routed := Route(f, k, r16, Get(nodes[k], Attribute(Model)), OffsetOf(offsets, k));
      outbox := outbox + routed.reactions;
      o := FinishFrame(k, routed.decoded, now);
    }

    /** The end of `parseFrame`: the attribute loop unless there is nothing
      to apply or the frame came from the coordinator itself. */
    method FinishFrame(k: string, decoded: Decoded, now: int) returns (o: Outcome)
      requires k in nodes && Valid()
      modifies this
      ensures Step(Snapshot(), o) == Finish(old(Snapshot()), k, decoded, now, old(own).addr64 == Text(k))
      ensures Valid()
    {
      match decoded {
        case RangeError =>
          return Raised;
        case NoAttributes =>
          return Returned(NoAttributes);
        case Attributes(attrs) =>
          if own.addr64 != Text(k) {
            ApplyAttributes(k, attrs, now);
          }
          return Returned(decoded);
      }
    }

    /** `parseFrame`. */
    method ParseFrame(f: Frame, now: int, names: map<string, string>, offsets: map<string, real>)
      returns (o: Outcome)
      requires Valid()
      modifies this
      ensures Step(Snapshot(), o) == FrameStep(old(Snapshot()), f, now, names, offsets)
      ensures Valid()
    {
      if f.frameType == FrameAtResponse {
        ParseATCommandResponse(f.command, f.commandData);
        return NoResult;
      }
      if f.remote16.None? {
        return NoResult;
      }
      var r16 := f.remote16.value;
      var key := f.remote64;
      if key.None? {
        key := ResolveByRemote16(r16);
        if key.None? {
          return NoResult;
        }
      }
      if key.value == Broadcast {
        key := ResolveByRemote16(r16);
        if key == Some(Broadcast) {
          key := None;
        }
      }
      if key.None? {
        return NoResult;
      }
      o := HandleFrame(f, key.value, r16, now, names, offsets);
    }
  }
}
