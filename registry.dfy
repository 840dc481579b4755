/** The node registry `status.xbee.nodes64`: one record per remote device,
    keyed by its 64-bit address, with the order in which keys were added.
    This module holds the registry invariant and the steps of frame
    handling and of the liveness pass as functions of the registry. */
module Registry {
  import opened Js
  import opened Update
  import opened Decoders
  import opened Dispatch

  /** A property of a node record. */
  datatype Field =
    | Remote16 | Remote64 | Name | FirstSeen | LastSeen | LwtStatus
    | Attribute(attr: AttrName)
    | AttributeLastSeen(attr: AttrName)

  type Node = map<Field, Value>

  const Broadcast := "ffffffffffffffff"
  /** `motionTimeoutSec`, in milliseconds. */
  const MotionTimeoutMs := 180_000
  /** The liveness threshold of 600 s, in milliseconds. */
  const OnlineWindowMs := 600_000

  /** The records and the order of `Object.keys` over them. */
  datatype Table = Table(nodes: map<string, Node>, keys: seq<string>)

  /** Keys are listed once each, the broadcast address is never a key, and
      every record holds its own key as its 64-bit address. */
  ghost predicate Valid(t: Table) {
    Distinct(t.keys) &&
    (forall k :: k in t.keys <==> k in t.nodes) &&
    Broadcast !in t.nodes &&
    (forall k :: k in t.nodes ==> Get(t.nodes[k], Remote64) == Text(k))
  }

  function Remote16Of(t: Table, k: string): Value {
    if k in t.nodes then Get(t.nodes[k], Remote16) else Undefined
  }

  /** The last key in `keys` whose record has network address `r16`. */
  function LastMatch(t: Table, keys: seq<string>, r16: string): (r: Option<string>)
    ensures r.Some? ==> r.value in keys && Remote16Of(t, r.value) == Text(r16)
    ensures r.Some? ==> exists i :: 0 <= i < |keys| && keys[i] == r.value &&
                          forall j :: i < j < |keys| ==> Remote16Of(t, keys[j]) != Text(r16)
    ensures r.None? <==> forall k :: k in keys ==> Remote16Of(t, k) != Text(r16)
  {
    if keys == [] then None
    else if Remote16Of(t, keys[|keys| - 1]) == Text(r16) then Some(keys[|keys| - 1])
    else LastMatch(t, keys[..|keys| - 1], r16)
  }

  /** The scan over the registry: the 64-bit address of the last record
      with network address `r16`. */
  function Scan(t: Table, r16: string): (r: Option<string>)
    ensures Valid(t) ==> r == LastMatch(t, t.keys, r16)
  {
    match LastMatch(t, t.keys, r16)
    case None => None
    case Some(k) =>
      var v := Get(t.nodes[k], Remote64);
      if v.Text? then Some(v.s) else None
  }

  /** The key a frame is filed under, or None when it is dropped: the
      frame's own 64-bit address, or, when that is missing or the broadcast
      address, the one the scan finds. */
  function Resolve(t: Table, remote64: Option<string>, r16: string): Option<string> {
    var first := if remote64.Some? then remote64 else Scan(t, r16);
    if first.None? then None
    else if first.value != Broadcast then first
    else
      var second := Scan(t, r16);
      if second == Some(Broadcast) then None else second
  }

  /** A frame with a usable 64-bit address is filed under it; otherwise the
      last registered node with the frame's network address takes it, and
      with no such node the frame is dropped. */
  lemma ResolveRule(t: Table, remote64: Option<string>, r16: string)
    requires Valid(t)
    ensures remote64.Some? && remote64.value != Broadcast ==> Resolve(t, remote64, r16) == remote64
    ensures remote64.None? || remote64 == Some(Broadcast) ==> Resolve(t, remote64, r16) == LastMatch(t, t.keys, r16)
    ensures Resolve(t, remote64, r16) != Some(Broadcast)
  {
  }

  // ---- admission and refresh ----

  datatype Touched = Touched(table: Table, effects: seq<Effect>)

  function Topic(k: string, leaf: string): string {
    "stat/" + k + "/" + leaf
  }

  /** The first-seen time is missing. */
  predicate FirstSeenUnset(n: Node) {
    Get(n, FirstSeen) == Undefined || Get(n, FirstSeen) == Null
  }

  /** The record after a refresh: both addresses, the configured name if
      any, the first-seen time if unset and the last-seen time. */
  function Refresh(before: Node, k: string, r16: string, now: int, name: Option<string>): Node {
    var n1 := before[Remote16 := Text(r16)][Remote64 := Text(k)];
    var n2 := if name.Some? then Put(n1, Name, Text(name.value)).store else n1;
    var n3 := if FirstSeenUnset(n2) then n2[FirstSeen := Date(now)] else n2;
    n3[LastSeen := Date(now)]
  }

  function NameOf(names: map<string, string>, k: string): Option<string> {
    if k in names then Some(names[k]) else None
  }

  /** Create the record if absent (and persist the status), store both
      addresses, the configured name, the first-seen time if unset and the
      last-seen time, publishing each. */
  function Touch(t: Table, k: string, r16: string, now: int, names: map<string, string>): (r: Touched)
    ensures k in r.table.nodes && r.table.nodes.Keys == t.nodes.Keys + {k}
    ensures r.table.keys == if k in t.nodes then t.keys else t.keys + [k]
    ensures forall j :: j in t.nodes && j != k ==> r.table.nodes[j] == t.nodes[j]
    ensures r.table.nodes[k] == Refresh(if k in t.nodes then t.nodes[k] else map[], k, r16, now, NameOf(names, k))
  {
    var isNew := k !in t.nodes;
    var n0: Node := if isNew then map[] else t.nodes[k];
    Touched(
      Table(t.nodes[k := Refresh(n0, k, r16, now, NameOf(names, k))], if isNew then t.keys + [k] else t.keys),
      RefreshEffects(isNew, k, r16, NameOf(names, k), FirstSeenUnset(n0), now))
  }

  /** Some effect in `e` publishes to `topic`. */
  predicate PublishesTo(e: seq<Effect>, topic: string) {
    exists i :: 0 <= i < |e| && e[i].Publish? && e[i].topic == topic
  }

  lemma PublishesToAppend(a: seq<Effect>, b: seq<Effect>, topic: string)
    ensures PublishesTo(a + b, topic) <==> PublishesTo(a, topic) || PublishesTo(b, topic)
  {
    if PublishesTo(a + b, topic) {
      var i :| 0 <= i < |a + b| && (a + b)[i].Publish? && (a + b)[i].topic == topic;
      if i >= |a| {
        assert b[i - |a|] == (a + b)[i];
      }
    }
    if PublishesTo(a, topic) {
      var i :| 0 <= i < |a| && a[i].Publish? && a[i].topic == topic;
      assert (a + b)[i] == a[i];
    }
    if PublishesTo(b, topic) {
      var i :| 0 <= i < |b| && b[i].Publish? && b[i].topic == topic;
      assert (a + b)[|a| + i] == b[i];
    }
  }

  lemma TopicLength(k: string, leaf: string)
    ensures |Topic(k, leaf)| == |k| + 6 + |leaf|
  {
  }

  /** Every publication in `e` is retained except `exempt`. */
  predicate RetainedExcept(e: seq<Effect>, exempt: Effect) {
    forall i :: 0 <= i < |e| && e[i].Publish? && !e[i].retain ==> e[i] == exempt
  }

  /** The effects of a refresh. */
  function RefreshEffects(isNew: bool, k: string, r16: string, name: Option<string>, firstUnset: bool, now: int): seq<Effect> {
    (if isNew then [PersistStatus] else [])
    + [Publish(Topic(k, "remote16"), Text(r16), false), Publish(Topic(k, "remote64"), Text(k), true)]
    + (if name.Some? then [Publish(Topic(k, "name"), Text(name.value), true)] else [])
    + (if firstUnset then [Publish(Topic(k, "firstSeen"), Date(now), true)] else [])
    + [Publish(Topic(k, "lastSeen"), Date(now), true)]
  }

  /** The status is persisted exactly for a new record; the network address
      is published unretained and the 64-bit address retained; last comes
      the last-seen time. */
  lemma RefreshEffectsFixed(isNew: bool, k: string, r16: string, name: Option<string>, firstUnset: bool, now: int)
    ensures var e := RefreshEffects(isNew, k, r16, name, firstUnset, now);
            (PersistStatus in e <==> isNew) &&
            Publish(Topic(k, "remote16"), Text(r16), false) in e &&
            Publish(Topic(k, "remote64"), Text(k), true) in e &&
            e[|e| - 1] == Publish(Topic(k, "lastSeen"), Date(now), true)
  {
    var e := RefreshEffects(isNew, k, r16, name, firstUnset, now);
    var p := if isNew then [PersistStatus] else [];
    assert e[|p|] == Publish(Topic(k, "remote16"), Text(r16), false);
    assert e[|p| + 1] == Publish(Topic(k, "remote64"), Text(k), true);
  }

  /** Every publication of a refresh is retained except the network
      address. */
  lemma RefreshEffectsRetained(isNew: bool, k: string, r16: string, name: Option<string>, firstUnset: bool, now: int)
    ensures RetainedExcept(RefreshEffects(isNew, k, r16, name, firstUnset, now), Publish(Topic(k, "remote16"), Text(r16), false))
  {
  }

  /** The name is published exactly when one is configured, and the
      first-seen time exactly when it was unset. */
  lemma RefreshEffectsOptional(isNew: bool, k: string, r16: string, name: Option<string>, firstUnset: bool, now: int)
    ensures var e := RefreshEffects(isNew, k, r16, name, firstUnset, now);
            (PublishesTo(e, Topic(k, "name")) <==> name.Some?) &&
            (name.Some? ==> Publish(Topic(k, "name"), Text(name.value), true) in e) &&
            (PublishesTo(e, Topic(k, "firstSeen")) <==> firstUnset) &&
            (firstUnset ==> Publish(Topic(k, "firstSeen"), Date(now), true) in e)
  {
    var p: seq<Effect> := if isNew then [PersistStatus] else [];
    var addrs := [Publish(Topic(k, "remote16"), Text(r16), false), Publish(Topic(k, "remote64"), Text(k), true)];
    var nm: seq<Effect> := if name.Some? then [Publish(Topic(k, "name"), Text(name.value), true)] else [];
    var fs: seq<Effect> := if firstUnset then [Publish(Topic(k, "firstSeen"), Date(now), true)] else [];
    var ls := [Publish(Topic(k, "lastSeen"), Date(now), true)];
    TopicLength(k, "name");
    TopicLength(k, "firstSeen");
    TopicLength(k, "remote16");
    TopicLength(k, "remote64");
    TopicLength(k, "lastSeen");
    forall topic | topic == Topic(k, "name") || topic == Topic(k, "firstSeen")
      ensures PublishesTo(p + addrs + nm + fs + ls, topic) <==> PublishesTo(nm, topic) || PublishesTo(fs, topic)
    {
      PublishesToAppend(p + addrs + nm + fs, ls, topic);
      PublishesToAppend(p + addrs + nm, fs, topic);
      PublishesToAppend(p + addrs, nm, topic);
      PublishesToAppend(p, addrs, topic);
    }
    if name.Some? {
      assert nm[0].topic == Topic(k, "name");
    }
    if firstUnset {
      assert fs[0].topic == Topic(k, "firstSeen");
    }
  }

  /** What a refresh hands to the outside: the status is persisted exactly
      when the record is new; the network address is published unretained
      and the 64-bit address retained; the name exactly when one is
      configured; the first-seen time exactly when the record had none; and
      last, the last-seen time now. Every other publication is retained. */
  lemma TouchEffects(t: Table, k: string, r16: string, now: int, names: map<string, string>)
    ensures var e := Touch(t, k, r16, now, names).effects;
            var before: Node := if k in t.nodes then t.nodes[k] else map[];
            (PersistStatus in e <==> k !in t.nodes) &&
            Publish(Topic(k, "remote16"), Text(r16), false) in e &&
            Publish(Topic(k, "remote64"), Text(k), true) in e &&
            (PublishesTo(e, Topic(k, "name")) <==> k in names) &&
            (k in names ==> Publish(Topic(k, "name"), Text(names[k]), true) in e) &&
            (PublishesTo(e, Topic(k, "firstSeen")) <==> FirstSeenUnset(before)) &&
            (FirstSeenUnset(before) ==> Publish(Topic(k, "firstSeen"), Date(now), true) in e) &&
            |e| > 0 && e[|e| - 1] == Publish(Topic(k, "lastSeen"), Date(now), true) &&
            RetainedExcept(e, Publish(Topic(k, "remote16"), Text(r16), false))
  {
    var before: Node := if k in t.nodes then t.nodes[k] else map[];
    RefreshEffectsFixed(k !in t.nodes, k, r16, NameOf(names, k), FirstSeenUnset(before), now);
    RefreshEffectsOptional(k !in t.nodes, k, r16, NameOf(names, k), FirstSeenUnset(before), now);
    RefreshEffectsRetained(k !in t.nodes, k, r16, NameOf(names, k), FirstSeenUnset(before), now);
  }

  /** After a refresh the record holds the frame's addresses, the configured
      name, the first-seen time it already had (or now) and now as its
      last-seen time; every attribute is left as it was. */
  lemma RefreshRecord(before: Node, k: string, r16: string, now: int, name: Option<string>)
    ensures var n := Refresh(before, k, r16, now, name);
            Get(n, Remote16) == Text(r16) && Get(n, Remote64) == Text(k) && Get(n, LastSeen) == Date(now) &&
            (name.Some? ==> Get(n, Name) == Text(name.value)) &&
            (name.None? ==> Get(n, Name) == Get(before, Name)) &&
            (!FirstSeenUnset(before) ==> Get(n, FirstSeen) == Get(before, FirstSeen)) &&
            (FirstSeenUnset(before) ==> Get(n, FirstSeen) == Date(now)) &&
            (forall a :: Get(n, Attribute(a)) == Get(before, Attribute(a)) &&
                         Get(n, AttributeLastSeen(a)) == Get(before, AttributeLastSeen(a))) &&
            Get(n, LwtStatus) == Get(before, LwtStatus)
  {
    var n1 := before[Remote16 := Text(r16)][Remote64 := Text(k)];
    var n2 := if name.Some? then Put(n1, Name, Text(name.value)).store else n1;
    assert Get(n2, FirstSeen) == Get(before, FirstSeen);
  }

  /** Refreshing a record keeps the registry invariant. */
  lemma TouchValid(t: Table, k: string, r16: string, now: int, names: map<string, string>)
    requires Valid(t) && k != Broadcast
    ensures Valid(Touch(t, k, r16, now, names).table)
  {
    TouchKeys(t, k, r16, now, names);
    TouchAddresses(t, k, r16, now, names);
  }

  lemma TouchKeys(t: Table, k: string, r16: string, now: int, names: map<string, string>)
    requires Valid(t)
    ensures var r := Touch(t, k, r16, now, names).table;
            Distinct(r.keys) && forall j :: j in r.keys <==> j in r.nodes
  {
    var r := Touch(t, k, r16, now, names).table;
    if k !in t.nodes {
      AppendDistinct(t.keys, k);
      assert forall j :: j in r.keys <==> j in t.keys || j == k;
    }
  }

  lemma TouchAddresses(t: Table, k: string, r16: string, now: int, names: map<string, string>)
    requires forall j :: j in t.nodes ==> Get(t.nodes[j], Remote64) == Text(j)
    ensures var r := Touch(t, k, r16, now, names).table;
            forall j :: j in r.nodes ==> Get(r.nodes[j], Remote64) == Text(j)
  {
    var r := Touch(t, k, r16, now, names).table;
    assert Get(r.nodes[k], Remote64) == Text(k) by {
      RefreshRecord(if k in t.nodes then t.nodes[k] else map[], k, r16, now, NameOf(names, k));
    }
  }

  ghost predicate Distinct(keys: seq<string>) {
    forall i, j :: 0 <= i < j < |keys| ==> keys[i] != keys[j]
  }

  lemma AppendDistinct(keys: seq<string>, k: string)
    requires Distinct(keys) && k !in keys
    ensures Distinct(keys + [k])
  {
    var r := keys + [k];
    forall i, j | 0 <= i < j < |r| ensures r[i] != r[j] {
      if j == |keys| {
        assert r[i] == keys[i];
      } else {
        assert r[i] == keys[i] && r[j] == keys[j];
      }
    }
  }

  // ---- attributes ----

  /** `new Date(v).getTime()`: None for NaN. */
  function TimeOf(v: Value): Option<int> {
    match v
    case Date(ms) => Some(ms)
    case Null => Some(0)
    case _ => None
  }

  /** A false motion state within the motion timeout of the previous
      accepted one is stored but neither timestamped nor published. */
  predicate Debounced(n: Node, a: Attr, now: int) {
    a.name == MotionState && a.value == Bool(false) &&
    var last := TimeOf(Get(n, AttributeLastSeen(MotionState)));
    last.Some? && now - last.value < MotionTimeoutMs
  }

  datatype Applied = Applied(node: Node, effects: seq<Effect>)

  /** The handling of one attribute: store it, then unless debounced,
      timestamp it and publish it retained. */
  function ApplyOne(n: Node, k: string, a: Attr, now: int): Applied {
    var n1 := Put(n, Attribute(a.name), a.value).store;
    if Debounced(n1, a, now) then Applied(n1, [])
    else Applied(Put(n1, AttributeLastSeen(a.name), Date(now)).store, [Publish(Topic(k, NameText(a.name)), a.value, true)])
  }

  /** The attribute always lands in the record; it is published, with its
      timestamp set to now, unless it is a debounced false motion state, in
      which case its timestamp is kept. */
  lemma ApplyOneRule(n: Node, k: string, a: Attr, now: int)
    ensures var r := ApplyOne(n, k, a, now);
            Get(r.node, Attribute(a.name)) == a.value &&
            (Debounced(n, a, now) ==>
               r.effects == [] && Get(r.node, AttributeLastSeen(a.name)) == Get(n, AttributeLastSeen(a.name))) &&
            (!Debounced(n, a, now) ==>
               r.effects == [Publish(Topic(k, NameText(a.name)), a.value, true)] &&
               Get(r.node, AttributeLastSeen(a.name)) == Date(now)) &&
            (forall f :: f != Attribute(a.name) && f != AttributeLastSeen(a.name) ==> Get(r.node, f) == Get(n, f))
  {
    var n1 := Put(n, Attribute(a.name), a.value).store;
    assert Get(n1, AttributeLastSeen(MotionState)) == Get(n, AttributeLastSeen(MotionState));
  }

  /** The attributes handled in order. */
  function ApplyAll(n: Node, k: string, attrs: Attrs, now: int): Applied {
    if attrs == [] then Applied(n, [])
    else
      var front := ApplyAll(n, k, attrs[..|attrs| - 1], now);
      var last := ApplyOne(front.node, k, attrs[|attrs| - 1], now);
      Applied(last.node, front.effects + last.effects)
  }

  /** After handling a list of attributes the record holds, for each name,
      the value of its last occurrence, and every field that is not an
      attribute or its timestamp is unchanged. */
  lemma {:induction false} ApplyAllRule(n: Node, k: string, attrs: Attrs, now: int)
    ensures var r := ApplyAll(n, k, attrs, now).node;
            (forall a :: Lookup(attrs, a).Some? ==> Get(r, Attribute(a)) == Lookup(attrs, a).value) &&
            (forall a :: Lookup(attrs, a).None? ==>
               Get(r, Attribute(a)) == Get(n, Attribute(a)) &&
               Get(r, AttributeLastSeen(a)) == Get(n, AttributeLastSeen(a))) &&
            (forall f: Field :: !f.Attribute? && !f.AttributeLastSeen? ==> Get(r, f) == Get(n, f))
  {
    if attrs != [] {
      var front := attrs[..|attrs| - 1];
      var last := attrs[|attrs| - 1];
      var mid := ApplyAll(n, k, front, now).node;
      var r := ApplyAll(n, k, attrs, now).node;
      assert r == ApplyOne(mid, k, last, now).node;
      ApplyAllRule(n, k, front, now);
      ApplyOneRule(mid, k, last, now);
      forall a | Lookup(attrs, a).Some?
        ensures Get(r, Attribute(a)) == Lookup(attrs, a).value
      {
        if a != last.name {
          assert Lookup(attrs, a) == Lookup(front, a);
        }
      }
      forall a | Lookup(attrs, a).None?
        ensures Get(r, Attribute(a)) == Get(n, Attribute(a))
        ensures Get(r, AttributeLastSeen(a)) == Get(n, AttributeLastSeen(a))
      {
        assert a != last.name && Lookup(front, a).None?;
      }
    }
  }

  // ---- liveness ----

  /** The record's `lwtStatus` and the LWT publication for key `k`; records
      without a last-seen time or a 64-bit address are skipped. The topic
      uses the record's 64-bit address, which is `k` in a valid registry. */
  function CheckOne(t: Table, k: string, now: int): (r: Touched)
    ensures r.table.keys == t.keys && r.table.nodes.Keys == t.nodes.Keys
    ensures r.effects == if k in t.nodes && Checkable(t.nodes[k])
                         then [Publish("tele/" + k + "/LWT", Get(r.table.nodes[k], LwtStatus), true)]
                         else []
  {
    if k !in t.nodes || !Checkable(t.nodes[k]) then Touched(t, [])
    else
      var n := t.nodes[k];
      var lwt := Liveness(Get(n, LastSeen), now);
      Touched(Table(t.nodes[k := Put(n, LwtStatus, Text(lwt)).store], t.keys),
              [Publish("tele/" + k + "/LWT", Text(lwt), true)])
  }

  /** `checkLastSeenDevices` over the first `count` keys. */
  function LivenessPass(t: Table, count: nat, now: int): (r: Touched)
    requires count <= |t.keys|
    ensures r.table.keys == t.keys && r.table.nodes.Keys == t.nodes.Keys
  {
    if count == 0 then Touched(t, [])
    else
      var front := LivenessPass(t, count - 1, now);
      var step := CheckOne(front.table, t.keys[count - 1], now);
      Touched(step.table, front.effects + step.effects)
  }

  /** The status a record should report: online exactly when it was last
      seen less than 600 s ago. */
  function Liveness(last: Value, now: int): string {
    var seen := TimeOf(last);
    if seen.Some? && now - seen.value < OnlineWindowMs then "online" else "offline"
  }

  /** The records `checkLastSeenDevices` looks at: those with a last-seen
      time and a 64-bit address. */
  predicate Checkable(n: Node) {
    Get(n, LastSeen) != Undefined && Get(n, LastSeen) != Null &&
    Get(n, Remote64) != Undefined && Get(n, Remote64) != Null
  }

  /** A record after the pass has (or has not yet) reached it: only its
      status may change, and it is set to the record's liveness exactly when
      the record was reached and is checkable. */
  function Settle(before: Node, reached: bool, now: int): Node {
    if reached && Checkable(before) then Put(before, LwtStatus, Text(Liveness(Get(before, LastSeen), now))).store
    else before
  }

  /** Settling changes only the status, and sets it exactly for a reached,
      checkable record. */
  lemma SettleRule(before: Node, reached: bool, now: int)
    ensures var after := Settle(before, reached, now);
            (forall f :: f != LwtStatus ==> Get(after, f) == Get(before, f)) &&
            (reached && Checkable(before) ==> Get(after, LwtStatus) == Text(Liveness(Get(before, LastSeen), now))) &&
            (!reached || !Checkable(before) ==> after == before)
  {
  }

  /** One liveness check touches only the status of its own record. */
  lemma CheckOneRule(t: Table, k: string, now: int)
    ensures var r := CheckOne(t, k, now).table;
            (forall j :: j in t.nodes && j != k ==> r.nodes[j] == t.nodes[j]) &&
            (k in t.nodes ==> r.nodes[k] == Settle(t.nodes[k], true, now))
  {
  }

  /** The keys among the first `count`. */
  function Reached(keys: seq<string>, count: nat): set<string>
    requires count <= |keys|
  {
    if count == 0 then {} else Reached(keys, count - 1) + {keys[count - 1]}
  }

  lemma {:induction false} ReachedAt(keys: seq<string>, count: nat, i: nat)
    requires i < count <= |keys|
    ensures keys[i] in Reached(keys, count)
  {
    if i < count - 1 {
      ReachedAt(keys, count - 1, i);
    }
  }

  /** Checking a record twice is checking it once. */
  lemma SettleTwice(n: Node, reached: bool, now: int)
    ensures Settle(Settle(n, reached, now), true, now) == Settle(n, true, now)
  {
    if reached && Checkable(n) {
      var m := Settle(n, true, now);
      assert Get(m, LastSeen) == Get(n, LastSeen) && Get(m, Remote64) == Get(n, Remote64);
    }
  }

  /** After the pass over the first `count` keys, the record of `k` is
      settled, reached exactly when `k` is among those keys. */
  lemma {:induction false} LivenessPassAt(t: Table, count: nat, now: int, k: string)
    requires count <= |t.keys| && k in t.nodes
    ensures LivenessPass(t, count, now).table.nodes[k] == Settle(t.nodes[k], k in Reached(t.keys, count), now)
  {
    if count > 0 {
      var front := LivenessPass(t, count - 1, now).table;
      var key := t.keys[count - 1];
      CheckOneRule(front, key, now);
      LivenessPassAt(t, count - 1, now, k);
      if k == key {
        SettleTwice(t.nodes[k], k in Reached(t.keys, count - 1), now);
      }
    }
  }

  /** After the pass over all keys of a valid registry, every checkable
      record reports its liveness and nothing else has changed. */
  lemma LivenessPassRule(t: Table, now: int)
    requires forall k :: k in t.nodes ==> k in t.keys
    ensures var r := LivenessPass(t, |t.keys|, now).table;
            forall k :: k in t.nodes ==> r.nodes[k] == Settle(t.nodes[k], true, now)
  {
    forall k | k in t.nodes
      ensures LivenessPass(t, |t.keys|, now).table.nodes[k] == Settle(t.nodes[k], true, now)
    {
      var i :| 0 <= i < |t.keys| && t.keys[i] == k;
      ReachedAt(t.keys, |t.keys|, i);
      LivenessPassAt(t, |t.keys|, now, k);
    }
  }

  /** The LWT publication for each checkable record among `keys`, in
      order, carrying the record's liveness. */
  function LwtReports(t: Table, keys: seq<string>, now: int): seq<Effect> {
    if keys == [] then []
    else
      var k := keys[|keys| - 1];
      LwtReports(t, keys[..|keys| - 1], now) + if k in t.nodes then LwtReport(k, t.nodes[k], now) else []
  }

  /** The LWT report of record `n` under key `k`, if it is checkable. */
  function LwtReport(k: string, n: Node, now: int): seq<Effect> {
    if Checkable(n) then [Publish("tele/" + k + "/LWT", Text(Liveness(Get(n, LastSeen), now)), true)] else []
  }

  /** Checking a record the pass may already have settled publishes the
      report of the record as it was before the pass. */
  lemma CheckOneReport(front: Table, k: string, n: Node, reached: bool, now: int)
    requires k in front.nodes && front.nodes[k] == Settle(n, reached, now)
    ensures CheckOne(front, k, now).effects == LwtReport(k, n, now)
  {
    SettleRule(n, reached, now);
    assert Get(front.nodes[k], LastSeen) == Get(n, LastSeen);
    assert Get(front.nodes[k], Remote64) == Get(n, Remote64);
  }

  /** The pass over the first `count` keys publishes exactly the LWT
      reports of those keys, in key order. */
  lemma {:induction false} LivenessPassEffects(t: Table, count: nat, now: int)
    requires count <= |t.keys|
    ensures LivenessPass(t, count, now).effects == LwtReports(t, t.keys[..count], now)
  {
    if count > 0 {
      var front := LivenessPass(t, count - 1, now);
      var k := t.keys[count - 1];
      var step := CheckOne(front.table, k, now);
      LivenessPassEffects(t, count - 1, now);
      assert t.keys[..count][..count - 1] == t.keys[..count - 1];
      assert LwtReports(t, t.keys[..count], now) ==
               LwtReports(t, t.keys[..count - 1], now) + (if k in t.nodes then LwtReport(k, t.nodes[k], now) else []);
      if k in t.nodes {
        LivenessPassAt(t, count - 1, now, k);
        CheckOneReport(front.table, k, t.nodes[k], k in Reached(t.keys, count - 1), now);
      }
    }
  }

  /** A checkable record's report is among the reports of any key list
      that holds its key. */
  lemma {:induction false} LwtReportsHold(t: Table, keys: seq<string>, now: int, k: string)
    requires k in keys && k in t.nodes && Checkable(t.nodes[k])
    ensures Publish("tele/" + k + "/LWT", Text(Liveness(Get(t.nodes[k], LastSeen), now)), true) in LwtReports(t, keys, now)
  {
    if keys[|keys| - 1] != k {
      LwtReportsHold(t, keys[..|keys| - 1], now, k);
    }
  }

  /** A checkable record listed in the key order has its LWT report, with
      its new status, among the effects of the whole pass. */
  lemma LivenessPassReportOf(t: Table, now: int, k: string)
    requires k in t.keys && k in t.nodes && Checkable(t.nodes[k])
    ensures var r := LivenessPass(t, |t.keys|, now);
            Publish("tele/" + k + "/LWT", Get(r.table.nodes[k], LwtStatus), true) in r.effects
  {
    var i :| 0 <= i < |t.keys| && t.keys[i] == k;
    ReachedAt(t.keys, |t.keys|, i);
    LivenessPassAt(t, |t.keys|, now, k);
    SettleRule(t.nodes[k], true, now);
    LivenessPassEffects(t, |t.keys|, now);
    assert t.keys[..|t.keys|] == t.keys;
    LwtReportsHold(t, t.keys, now, k);
  }

  /** After the whole pass over a valid registry, every checkable record's
      LWT publication is among the effects, retained and carrying the
      record's new status. */
  lemma LivenessPassReports(t: Table, now: int)
    requires Valid(t)
    ensures var r := LivenessPass(t, |t.keys|, now);
            forall k :: k in t.nodes && Checkable(t.nodes[k]) ==>
              Publish("tele/" + k + "/LWT", Get(r.table.nodes[k], LwtStatus), true) in r.effects
  {
    forall k | k in t.nodes && Checkable(t.nodes[k])
      ensures Publish("tele/" + k + "/LWT", Get(LivenessPass(t, |t.keys|, now).table.nodes[k], LwtStatus), true)
                in LivenessPass(t, |t.keys|, now).effects
    {
      LivenessPassReportOf(t, now, k);
    }
  }

  /** The liveness pass keeps the registry invariant. */
  lemma LivenessPassValid(t: Table, now: int)
    requires Valid(t)
    ensures Valid(LivenessPass(t, |t.keys|, now).table)
  {
    LivenessPassRule(t, now);
  }
}
