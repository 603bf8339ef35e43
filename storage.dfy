/**
 * The persistence adapter: a thin layer over the browser's localStorage that
 * namespaces every key with a fixed prefix, encodes values as JSON, returns a
 * default on any missing or unreadable entry and swallows every failure.
 *
 * JSON encoding and decoding are abstracted as the identity on `Value`; an
 * entry whose text does not parse as JSON is the raw value `Unparsable`.
 */
module Storage {

  /** The JSON values the application writes: null, booleans, numbers and strings. */
  datatype Value =
    | Null
    | Boolean(b: bool)
    | Int(i: int)
    | Fraction(r: real)  // a JSON number with a fractional part (the volume)
    | Text(s: string)

  /** What localStorage holds under a key: JSON text of a value, or text JSON.parse rejects. */
  datatype Raw = Json(value: Value) | Unparsable

  const Prefix: string := "focusflow:"

  /** The key an application key is stored under. */
  function StorageKey(key: string): (k: string)
    ensures |k| == |Prefix| + |key| && k[..|Prefix|] == Prefix && k[|Prefix|..] == key
  {
    Prefix + key
  }

  /** The key `init` writes and removes again to probe whether storage works. */
  const ProbeKey: string := StorageKey("__test__")

  /** Prefixing is injective: distinct application keys never collide. */
  lemma StorageKeyInjective(a: string, b: string)
    ensures StorageKey(a) == StorageKey(b) <==> a == b
  {
    if StorageKey(a) == StorageKey(b) {
      assert a == StorageKey(a)[|Prefix|..];
    }
  }

  /**
   * What `get(key, default)` returns: the decoded entry when storage is
   * accessible and holds parsable text under the prefixed key, the default
   * otherwise (a thrown read, a miss, or a parse failure).
   */
  function Read(entries: map<string, Raw>, available: bool, key: string, default: Value): (v: Value)
    ensures v == default || (available && StorageKey(key) in entries && entries[StorageKey(key)] == Json(v))
  {
    if !available then default
    else if StorageKey(key) !in entries then default
    else match entries[StorageKey(key)]
      case Json(x) => x
      case Unparsable => default
  }

  /** The entries after `set(key, value)`: a write happens only when setItem does not throw. */
  function AfterSet(entries: map<string, Raw>, available: bool, full: bool, key: string, value: Value): map<string, Raw> {
    if available && !full then entries[StorageKey(key) := Json(value)] else entries
  }

  /** The entries after `remove(key)`: nothing changes when storage is inaccessible. */
  function AfterRemove(entries: map<string, Raw>, available: bool, key: string): map<string, Raw> {
    if available then entries - {StorageKey(key)} else entries
  }

  /**
   * A `set` writes the prefixed key and nothing else; when storage is
   * inaccessible or full it changes nothing at all.
   */
  lemma SetChangesOnlyItsEntry(entries: map<string, Raw>, available: bool, full: bool, key: string, value: Value)
    ensures var e := AfterSet(entries, available, full, key, value);
      && (available && !full ==> StorageKey(key) in e && e[StorageKey(key)] == Json(value))
      && (available && !full ==> e.Keys == entries.Keys + {StorageKey(key)})
      && (!available || full ==> e == entries)
      && (forall k :: k != StorageKey(key) ==> (k in e <==> k in entries))
      && (forall k :: k != StorageKey(key) && k in e ==> e[k] == entries[k])
  {
  }

  /**
   * A `remove` deletes the prefixed key and nothing else; when storage is
   * inaccessible it changes nothing at all.
   */
  lemma RemoveChangesOnlyItsEntry(entries: map<string, Raw>, available: bool, key: string)
    ensures var e := AfterRemove(entries, available, key);
      && (available ==> e.Keys == entries.Keys - {StorageKey(key)})
      && (!available ==> e == entries)
      && (forall k :: k in e ==> k in entries && e[k] == entries[k])
  {
  }

  /** `get(k, d)` after a successful `set(k, v)` returns `v`. */
  lemma GetAfterSet(entries: map<string, Raw>, key: string, value: Value, default: Value)
    ensures Read(AfterSet(entries, true, false, key, value), true, key, default) == value
  {
  }

  /** A `set` on one key leaves what `get` returns for every other key unchanged. */
  lemma GetAfterSetOther(entries: map<string, Raw>, available: bool, full: bool, key: string, value: Value,
                         other: string, default: Value)
    requires other != key
    ensures Read(AfterSet(entries, available, full, key, value), available, other, default)
         == Read(entries, available, other, default)
  {
    StorageKeyInjective(key, other);
  }

  /** Writing the same value under the same key twice has the effect of writing it once. */
  lemma SetTwiceIsSetOnce(entries: map<string, Raw>, available: bool, full: bool, key: string, value: Value)
    ensures AfterSet(AfterSet(entries, available, full, key, value), available, full, key, value)
         == AfterSet(entries, available, full, key, value)
  {
  }

  /** `get(k, d)` after `remove(k)` returns `d`. */
  lemma GetAfterRemove(entries: map<string, Raw>, available: bool, key: string, default: Value)
    ensures Read(AfterRemove(entries, available, key), available, key, default) == default
  {
  }

  /** A `remove` on one key leaves what `get` returns for every other key unchanged. */
  lemma GetAfterRemoveOther(entries: map<string, Raw>, available: bool, key: string, other: string, default: Value)
    requires other != key
    ensures Read(AfterRemove(entries, available, key), available, other, default)
         == Read(entries, available, other, default)
  {
    StorageKeyInjective(key, other);
  }

  /** The browser's localStorage for this origin, with the two ways it can fail. */
  class Store {
    /** The stored text, keyed by the full (prefixed) key. */
    var entries: map<string, Raw>
    /** False when accessing localStorage throws (storage disabled): every call fails. */
    var available: bool
    /** True when the quota is exhausted: setItem throws, getItem and removeItem work. */
    var full: bool

    constructor (entries: map<string, Raw>, available: bool, full: bool)
      ensures this.entries == entries && this.available == available && this.full == full
    {
      this.entries := entries;
      this.available := available;
      this.full := full;
    }

    /** What `get(key, default)` returns in the current state. */
    function Lookup(key: string, default: Value): Value
      reads this
    {
      Read(entries, available, key, default)
    }

    /** Probes writability with a test key; a failure only produces a console warning. */
    method Init()
      modifies this`entries
      ensures entries == if available && !full then old(entries) - {ProbeKey} else old(entries)
      ensures available && !full ==> ProbeKey !in entries
    {
      if available && !full {
        entries := entries[ProbeKey := Json(Int(1))];
        entries := entries - {ProbeKey};
      }
    }

    method Get(key: string, default: Value) returns (v: Value)
      ensures v == Lookup(key, default)
    {
      if !available {
        return default;
      }
      var k := StorageKey(key);
      if k in entries && entries[k].Json? {
        v := entries[k].value;
      } else {
        v := default;
      }
    }

    method Set(key: string, value: Value)
      modifies this`entries
      ensures entries == AfterSet(old(entries), available, full, key, value)
    {
      if available && !full {
        entries := entries[StorageKey(key) := Json(value)];
      }
    }

    method Remove(key: string)
      modifies this`entries
      ensures entries == AfterRemove(old(entries), available, key)
    {
      if available {
        entries := entries - {StorageKey(key)};
      }
    }
  }
}
