/**
  `useLocalStorage(key, initialValue, useLocalStorage = true)` from
  lib/localStorage.ts: a React state cell whose every write is mirrored, as
  JSON text, under one local-storage key, and which starts from what that key
  holds.

  React keeps the state; the setter the hook returns closes over the value of
  the render that created it. `PersistedState` keeps both: `state` is what
  React holds now and `rendered` is what the component saw at its last render.
*/
module LocalStorageHook {
  import opened Wrappers
  import opened JsonText
  import opened BrowserStorage

  /** The one exception the hook lets escape: a key that is not a string. */
  datatype HookError = KeyNotString

  /** The value the state starts from. The stored text is read only when the hook
      is enabled, an absent or empty item falls back to `initialValue`, and so
      does text `JSON.parse` rejects (the error is logged and swallowed). */
  function InitialValue(key: string, initialValue: Json, enabled: bool, items: map<string, string>): (r: Json)
    ensures !enabled ==> r == initialValue
    ensures enabled && Truthy(GetItem(items, key)) && Parse(items[key]).Some? ==> r == Parse(items[key]).value
    ensures !(enabled && Truthy(GetItem(items, key)) && Parse(items[key]).Some?) ==> r == initialValue
  {
    var storageValue := if enabled then GetItem(items, key) else None;
    if Truthy(storageValue) then
      match Parse(storageValue.value)
      case Some(v) => v
      case None => initialValue
    else initialValue
  }

  /** What `setValue` is given: a value, or an updater applied to the current
      value; an updater that throws is `None`. */
  datatype Setter = Value(v: Json) | Update(f: Json -> Option<Json>)

  /** `value instanceof Function ? value(storedValue) : value`. */
  function ValueToStore(setter: Setter, current: Json): (r: Option<Json>)
    ensures setter.Value? ==> r == Some(setter.v)
    ensures setter.Update? ==> r == setter.f(current)
  {
    match setter
    case Value(v) => Some(v)
    case Update(f) => f(current)
  }

  /** After a write of `v` under `key`, a fresh mount of the hook starts from `v`,
      whatever its own initial value. */
  lemma ReloadAfterWrite(key: string, initialValue: Json, items: map<string, string>, v: Json)
    ensures InitialValue(key, initialValue, true, items[key := Serialise(v)]) == v
  {
    assert |Serialise(v)| > 0;
    ParseSerialise(v);
  }

  class PersistedState {
    const key: string
    const enabled: bool
    const store: Storage
    /** The state React holds. */
    var state: Json
    /** `storedValue` as the last render saw it. */
    var rendered: Json

    /** The first render: the state comes from storage or `initialValue`. */
    constructor (key: string, initialValue: Json, enabled: bool, store: Storage)
      ensures this.key == key && this.enabled == enabled && this.store == store
      ensures state == InitialValue(key, initialValue, enabled, store.items)
      ensures rendered == state
    {
      this.key := key;
      this.enabled := enabled;
      this.store := store;
      state := InitialValue(key, initialValue, enabled, store.items);
      rendered := state;
    }

    /** When enabled, the stored text under `key` is the JSON of the state. */
    predicate Synced()
      reads this, store
    {
      enabled ==> key in store.items && Parse(store.items[key]) == Some(state)
    }

    /** `setValue(value)`: an updater sees the value of the last render. The new
        value becomes the state and, when enabled, is written under `key` and
        nowhere else; an updater that throws changes nothing. */
    method SetValue(setter: Setter)
      modifies this, store
      ensures rendered == old(rendered)
      ensures ValueToStore(setter, old(rendered)).None? ==>
        state == old(state) && store.items == old(store.items)
      ensures ValueToStore(setter, old(rendered)).Some? ==>
        state == ValueToStore(setter, old(rendered)).value
        && store.items == if enabled then old(store.items)[key := Serialise(state)] else old(store.items)
      ensures ValueToStore(setter, old(rendered)).Some? ==> Synced()
      ensures forall k :: k != key ==> (k in store.items <==> k in old(store.items))
      ensures forall k :: k != key && k in store.items ==> store.items[k] == old(store.items)[k]
    {
      var valueToStore := ValueToStore(setter, rendered);
      if valueToStore.Some? {
        state := valueToStore.value;
        if enabled {
          store.SetItem(key, Serialise(state));
          ParseSerialise(state);
        }
      }
    }

    /** A re-render: the component and a new setter see the current state. */
    method Rerender()
      modifies this
      ensures rendered == state && state == old(state)
    {
      rendered := state;
    }
  }

  /** The hook's first call: a key that is not a string throws before storage
      is touched; otherwise the cell starts from `InitialValue`. */
  method UseLocalStorage(key: Json, initialValue: Json, enabled: bool, store: Storage)
    returns (r: Result<PersistedState, HookError>)
    ensures r.Err? <==> !key.JStr?
    ensures r.Ok? ==> fresh(r.value) && r.value.store == store
    ensures r.Ok? ==> r.value.key == key.s && r.value.enabled == enabled
    ensures r.Ok? ==> r.value.state == InitialValue(key.s, initialValue, enabled, store.items)
    ensures r.Ok? ==> r.value.rendered == r.value.state
  {
    if !key.JStr? {
      return Err(KeyNotString);
    }
    var cell := new PersistedState(key.s, initialValue, enabled, store);
    return Ok(cell);
  }
}
