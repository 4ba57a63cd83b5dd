/** The `useLocalStorage` hook: a value kept in component state, mirrored in a
    ref and persisted as JSON under a key that may change between renders. */
module LocalStorage {
  import opened Common
  import opened Store

  /** What reading a key yields: nothing usable (absent or empty text), a
      parsed value, or text that fails to parse. */
  datatype Stored<V> = Missing | Parsed(value: V) | Malformed

  function ReadKey<V>(items: map<string, string>, key: string, fmt: Format<V>): (r: Stored<V>)
    ensures r.Missing? <==> key !in items || items[key] == ""
    ensures r.Parsed? ==> fmt.decode(items[key]) == Some(r.value)
    ensures r.Malformed? ==> fmt.decode(items[key]).None?
  {
    if key in items && items[key] != "" then
      match fmt.decode(items[key])
      case Some(v) => Parsed(v)
      case None => Malformed
    else Missing
  }

  /** `item ? JSON.parse(item) : initialValue`, with a parse error giving the
      initial value as well. */
  function ValueOr<V>(r: Stored<V>, initial: V): V
  {
    if r.Parsed? then r.value else initial
  }

  /** Text written by the format under a key reads back as the value. */
  lemma ReadWritten<V(!new)>(items: map<string, string>, key: string, fmt: Format<V>, v: V)
    requires Lawful(fmt)
    ensures ReadKey(items[key := fmt.encode(v)], key, fmt) == Parsed(v)
  {
    assert fmt.encode(v) != "";
    assert fmt.decode(fmt.encode(v)) == Some(v);
  }

  /** The store after `setValue` moves a slot from `before` to `after`:
      unchanged when the value is the same, else the key holds the new text. */
  ghost function Saved<V>(items: map<string, string>, key: string, fmt: Format<V>, before: V, after: V): map<string, string>
  {
    if after == before then items else items[key := fmt.encode(after)]
  }

  /** The state a slot shows after a render with `key` once its first
      render is over: unchanged when `key` is the key it last loaded,
      otherwise what `key` holds, or the initial value. */
  function Reloaded<V>(items: map<string, string>, key: string, fmt: Format<V>, initial: V,
                       prevKey: string, state: V): V
  {
    if prevKey == key then state else ValueOr(ReadKey(items, key, fmt), initial)
  }

  class Slot<V(!new)> {
    const store: Storage
    const fmt: Format<V>
    const initial: V
    var key: string
    var prevKey: string
    var state: V
    var mirror: V

    /** The mirror ref always holds the state value. */
    ghost predicate Valid()
      reads this
    {
      Lawful(fmt) && state == mirror
    }

    /** On the store `s`, with `init` as initial value. */
    ghost predicate Mounted(s: Storage, init: V)
      reads this
    {
      Valid() && store == s && initial == init
    }

    /** A fresh mount on the current key would show the current state. */
    ghost predicate Persisted()
      reads this, store
    {
      ValueOr(ReadKey(store.items, key, fmt), initial) == state
    }

    /** Mounting: the initial read of the key. The key-change effect's first
        run, right after the mount, only clears the first-render flag, so no
        later render is ever a first one and the flag is not kept. */
    constructor (store: Storage, fmt: Format<V>, key: string, initial: V)
      requires Lawful(fmt)
      ensures Valid() && Persisted()
      ensures this.store == store && this.fmt == fmt && this.initial == initial
      ensures this.key == key && prevKey == key
      ensures state == ValueOr(ReadKey(store.items, key, fmt), initial)
    {
      this.store := store;
      this.fmt := fmt;
      this.initial := initial;
      this.key := key;
      prevKey := key;
      var v := ValueOr(ReadKey(store.items, key, fmt), initial);
      state := v;
      mirror := v;
    }

    /** A render with `newKey` followed by the key-change effect (its 100 ms
        delay taken as elapsed): a reload when the key differs from the last
        loaded one, where a parse failure falls back to the initial value
        without advancing `prevKey`. */
    method Render(newKey: string)
      requires Valid()
      modifies this
      ensures Valid() && key == newKey
      ensures state == Reloaded(store.items, newKey, fmt, initial, old(prevKey), old(state))
      ensures prevKey == (if old(prevKey) != newKey && ReadKey(store.items, newKey, fmt).Malformed?
                          then old(prevKey) else newKey)
    {
      key := newKey;
      if prevKey != key {
        var r := ReadKey(store.items, key, fmt);
        match r
        case Malformed =>
          state := initial;
          mirror := initial;
        case _ =>
          var v := ValueOr(r, initial);
          state := v;
          mirror := v;
          prevKey := key;
      }
    }

    /** `setValue(value)`: nothing happens when the value's JSON equals the
        mirror's; otherwise state, mirror and the stored text are replaced. */
    method SetValue(v: V)
      requires Valid()
      modifies this, store
      ensures Valid() && state == v
      ensures key == old(key) && prevKey == old(prevKey)
      ensures store.items == Saved(old(store.items), key, fmt, old(state), v)
      ensures old(Persisted()) || v != old(state) ==> Persisted()
    {
      EncodingInjective(fmt, mirror, v);
      if fmt.encode(mirror) == fmt.encode(v) {
        return;
      }
      state := v;
      mirror := v;
      store.SetItem(key, fmt.encode(v));
      ReadWritten(old(store.items), key, fmt, v);
    }

    /** `setValue(prev => f(prev))`: the function is applied to the state. */
    method Update(f: V -> V)
      requires Valid()
      modifies this, store
      ensures Valid() && state == f(old(state))
      ensures key == old(key) && prevKey == old(prevKey)
      ensures store.items == Saved(old(store.items), key, fmt, old(state), f(old(state)))
    {
      SetValue(f(state));
    }

    predicate Adopts(eventKey: string, newValue: Option<string>)
      reads this
    {
      eventKey == key && newValue.Some? && fmt.decode(newValue.value).Some?
    }

    /** A `storage` event from another tab: adopted only for this key, a
        non-null new value, and text that parses. */
    method StorageEvent(eventKey: string, newValue: Option<string>)
      requires Valid()
      modifies this
      ensures Valid()
      ensures key == old(key) && prevKey == old(prevKey)
      ensures Adopts(eventKey, newValue) ==> state == fmt.decode(newValue.value).value
      ensures !Adopts(eventKey, newValue) ==> state == old(state)
    {
      if eventKey == key && newValue.Some? {
        match fmt.decode(newValue.value)
        case Some(v) =>
          state := v;
          mirror := v;
        case None =>
      }
    }
  }
}
