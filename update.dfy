/** The change-detecting setter shared by the status and configuration
    stores: a key is written, logged and reported only when the new value is
    not `===` to the stored one. */
module Update {
  import opened Js

  /** The stored value, or undefined when the key is absent. */
  function Get<K>(m: map<K, Value>, key: K): Value {
    if key in m then m[key] else Undefined
  }

  /** Outcome of one set-if-changed: whether it wrote, and the store after. */
  datatype Outcome<K> = Outcome(changed: bool, store: map<K, Value>)

  /** Set `key` to `v` unless `v === ` the stored value. */
  function Put<K(!new)>(m: map<K, Value>, key: K, v: Value): (r: Outcome<K>)
    ensures r.changed <==> !StrictEquals(v, Get(m, key))
    ensures !r.changed ==> r.store == m
    ensures Get(r.store, key) == v
    ensures forall k :: k != key ==> Get(r.store, k) == Get(m, k)
    ensures r.store.Keys <= m.Keys + {key}
  {
    if StrictEquals(v, Get(m, key)) then Outcome(false, m) else Outcome(true, m[key := v])
  }

  /** A repeated update with the same value reports no change, unless the
      value is NaN or a Date, which are never `===` to anything stored. */
  lemma PutIdempotent<K(!new)>(m: map<K, Value>, key: K, v: Value)
    ensures var once := Put(m, key, v).store;
            (Put(once, key, v).changed <==> v.NaN? || v.Date?) &&
            Get(Put(once, key, v).store, key) == v &&
            (!Put(once, key, v).changed ==> Put(once, key, v).store == once)
  {
    var once := Put(m, key, v).store;
    assert Get(once, key) == v;
  }

  /** One line of the change log: the full key and the new value. */
  datatype Logged = Logged(keyFull: string, valueNew: Value)

  /** The process-wide `status` and `config` objects, flattened to their
      dotted key paths, together with the change log. */
  class Updater {
    var status: map<string, Value>
    var config: map<string, Value>
    var log: seq<Logged>

    constructor(status0: map<string, Value>, config0: map<string, Value>)
      ensures status == status0 && config == config0 && log == []
    {
      status := status0;
      config := config0;
      log := [];
    }

    /** `update.config(key, valueNew, quiet)`. */
    method Config(key: string, valueNew: Value, quiet: bool) returns (changed: bool)
      modifies this
      ensures changed <==> !StrictEquals(valueNew, Get(old(config), key))
      ensures config == Put(old(config), key, valueNew).store
      ensures status == old(status)
      ensures log == old(log) + (if changed && !quiet then [Logged("config." + key, valueNew)] else [])
    {
      var valueOld := Get(config, key);
      if StrictEquals(valueNew, valueOld) {
        return false;
      }
      var keyFull := "config." + key;
      if !quiet {
        log := log + [Logged(keyFull, valueNew)];
      }
      config := config[key := valueNew];
      return true;
    }

    /** `update.status(key, valueNew, quiet)`. */
    method Status(key: string, valueNew: Value, quiet: bool) returns (changed: bool)
      modifies this
      ensures changed <==> !StrictEquals(valueNew, Get(old(status), key))
      ensures status == Put(old(status), key, valueNew).store
      ensures config == old(config)
      ensures log == old(log) + (if changed && !quiet then [Logged("status." + key, valueNew)] else [])
    {
      var valueOld := Get(status, key);
      if StrictEquals(valueNew, valueOld) {
        return false;
      }
      status := status[key := valueNew];
      var keyFull := "status." + key;
      if !quiet {
        log := log + [Logged(keyFull, valueNew)];
      }
      return true;
    }
  }
}
