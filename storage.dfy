/**
 * The renderer's expiring key-value store over `localStorage`. Each key holds a
 * `{ value, expiresIn }` record; `expiresIn == 0` means the item never expires.
 * The clock (`new Date().getTime()`) is the parameter `now`, in milliseconds.
 */
module Storage {
  import opened JsValue

  /** The record stored under a key. */
  datatype StoredData = StoredData(value: Value, expiresIn: int)

  /** The expiry `setItem` records: never for `minutes <= 0`, else `minutes` from now. */
  function ExpiryFor(now: int, minutes: int): (e: int)
    ensures minutes <= 0 ==> e == 0
    ensures minutes > 0 ==> e - now == minutes * 60000
    ensures minutes > 0 && now >= 0 ==> e > now
  {
    if minutes > 0 then now + minutes * 60 * 1000 else 0
  }

  /** An item is expired once the clock has passed its expiry; at the expiry itself it is still alive. */
  predicate Expired(d: StoredData, now: int) {
    d.expiresIn > 0 && now > d.expiresIn
  }

  /** What `getItem(key, dflt)` returns. */
  function ReadItem(items: map<string, StoredData>, key: string, dflt: Value, now: int): (v: Value)
    ensures key !in items ==> v == dflt
    ensures key in items && !Expired(items[key], now) ==> v == items[key].value
    ensures key in items && Expired(items[key], now) ==> v == dflt
  {
    if key !in items then dflt
    else if Expired(items[key], now) then dflt
    else items[key].value
  }

  /** The store after `getItem(key, _)`: an expired item is removed, nothing else changes. */
  function ItemsAfterRead(items: map<string, StoredData>, key: string, now: int): (r: map<string, StoredData>)
    ensures r.Keys <= items.Keys
    ensures forall k :: k in r ==> r[k] == items[k]
    ensures forall k :: k in items && k != key ==> k in r
    ensures key in r <==> key in items && !Expired(items[key], now)
  {
    if key in items && Expired(items[key], now) then items - {key} else items
  }

  /** `getObject(key, dflt)` as written: it unwraps `.value` from what `getItem` already unwrapped. */
  function ReadObjectAsWritten(items: map<string, StoredData>, key: string, dflt: Value, now: int): (v: Value)
    ensures key !in items ==> v == dflt
    ensures key in items && !Expired(items[key], now) && !Truthy(items[key].value) ==> v == dflt
    ensures key in items && !Expired(items[key], now) && items[key].value.Obj? ==>
              v == Member(items[key].value, "value")
  {
    var stored := ReadItem(items, key, Undefined, now);
    if Truthy(stored) then Member(stored, "value") else dflt
  }

  /** `getObject(key, dflt)` with the single unwrap `setObject` calls for. */
  function ReadObject(items: map<string, StoredData>, key: string, dflt: Value, now: int): (v: Value)
    ensures key !in items ==> v == dflt
    ensures key in items && !Expired(items[key], now) && Truthy(items[key].value) ==> v == items[key].value
    ensures key in items && !Expired(items[key], now) && !Truthy(items[key].value) ==> v == dflt
  {
    var stored := ReadItem(items, key, Undefined, now);
    if Truthy(stored) then stored else dflt
  }

  /**
   * `setItem(k, v)` with no expiry, then `getItem(k, d)` at any later time, gives
   * back `v` as JSON leaves it, which is `v` itself exactly when no `undefined`
   * is nested in it.
   */
  lemma SetGetRoundTrip(items: map<string, StoredData>, k: string, v: Value, d: Value, now: int, later: int)
    ensures ReadItem(items[k := StoredData(Json(v), ExpiryFor(now, 0))], k, d, later) == Json(v)
    ensures JsonSafe(v) ==> ReadItem(items[k := StoredData(Json(v), ExpiryFor(now, 0))], k, d, later) == v
  {
    if JsonSafe(v) {
      JsonKeepsSafe(v);
    }
  }

  /** An undefined member is lost on the way through `localStorage`: `{a: undefined}` reads back as `{}`. */
  lemma UndefinedMemberDropped(items: map<string, StoredData>, now: int)
    ensures var v := Obj(map["a" := Undefined]);
            ReadItem(items["k" := StoredData(Json(v), ExpiryFor(now, 0))], "k", Null, now) == Obj(map[])
  {
    var v := Obj(map["a" := Undefined]);
    assert Json(v).fields.Keys == {};
  }

  /** An undefined array item comes back as null: `[undefined]` reads back as `[null]`. */
  lemma UndefinedItemNulled(items: map<string, StoredData>, now: int)
    ensures var v := Arr([Undefined]);
            ReadItem(items["k" := StoredData(Json(v), ExpiryFor(now, 0))], "k", Null, now) == Arr([Null])
  {
    var v := Arr([Undefined]);
    assert Json(v).items == [Null];
  }

  /** With an expiry, the value is readable up to and including the expiry instant, and gone after it. */
  lemma ExpiryBoundary(items: map<string, StoredData>, k: string, v: Value, d: Value, now: int, minutes: int)
    requires minutes > 0
    ensures var s := items[k := StoredData(Json(v), ExpiryFor(now, minutes))];
            var e := now + minutes * 60000;
            e > 0 ==> ReadItem(s, k, d, e) == Json(v) && ReadItem(s, k, d, e + 1) == d && k !in ItemsAfterRead(s, k, e + 1)
  {
  }

  /** The object written by `setObject` is not what `getObject` as written returns. */
  lemma ReadObjectAsWrittenLosesObject(items: map<string, StoredData>, now: int)
    ensures var v := Obj(map["name" := Str("x")]);
            var s := items["k" := StoredData(Json(v), ExpiryFor(now, 0))];
            ReadObjectAsWritten(s, "k", Null, now) == Undefined != v
  {
    var v := Obj(map["name" := Str("x")]);
    JsonKeepsSafe(v);
    var s := items["k" := StoredData(Json(v), ExpiryFor(now, 0))];
    assert ReadItem(s, "k", Undefined, now) == v;
    assert "value" !in v.fields;
  }

  /**
   * The corrected read returns every truthy value `setObject` stored without
   * expiry, as JSON leaves it; a JSON-representable value comes back as itself.
   */
  lemma ReadObjectRoundTrip(items: map<string, StoredData>, k: string, v: Value, d: Value, now: int, later: int)
    requires Truthy(v)
    ensures ReadObject(items[k := StoredData(Json(v), ExpiryFor(now, 0))], k, d, later) == Json(v)
    ensures JsonSafe(v) ==> ReadObject(items[k := StoredData(Json(v), ExpiryFor(now, 0))], k, d, later) == v
  {
    if JsonSafe(v) {
      JsonKeepsSafe(v);
    }
  }

  class Store {
    /** The `localStorage` entries this class writes, already parsed back from JSON. */
    var items: map<string, StoredData>

    constructor ()
      ensures items == map[]
    {
      items := map[];
    }

    /** `setItem(key, value, expiresInMinutes)`: the record is written as JSON, so the value is kept as `Json` leaves it. */
    method SetItem(key: string, value: Value, expiresInMinutes: int, now: int)
      modifies this
      ensures items == old(items)[key := StoredData(Json(value), ExpiryFor(now, expiresInMinutes))]
    {
      var data := StoredData(Json(value), 0);
      if expiresInMinutes > 0 {
        data := data.(expiresIn := now + expiresInMinutes * 60 * 1000);
      }
      items := items[key := data];
    }

    /** `getItem(key, defaultValue)`: an expired item is removed and the default returned. */
    method GetItem(key: string, defaultValue: Value, now: int) returns (v: Value)
      modifies this
      ensures v == ReadItem(old(items), key, defaultValue, now)
      ensures items == ItemsAfterRead(old(items), key, now)
    {
      if key !in items {
        return defaultValue;
      }
      var data := items[key];
      if data.expiresIn > 0 && now > data.expiresIn {
        items := items - {key};
        return defaultValue;
      }
      return data.value;
    }

    /** `setObject` is `setItem`. */
    method SetObject(key: string, value: Value, expiresInMinutes: int, now: int)
      modifies this
      ensures items == old(items)[key := StoredData(Json(value), ExpiryFor(now, expiresInMinutes))]
    {
      SetItem(key, value, expiresInMinutes, now);
    }

    /** `getObject(key, defaultValue)`, with the single unwrap (see ReadObjectAsWritten). */
    method GetObject(key: string, defaultValue: Value, now: int) returns (v: Value)
      modifies this
      ensures v == ReadObject(old(items), key, defaultValue, now)
      ensures items == ItemsAfterRead(old(items), key, now)
    {
      var stored := GetItem(key, Undefined, now);
      if Truthy(stored) {
        return stored;
      }
      return defaultValue;
    }

    /** `removeItem(key)` */
    method RemoveItem(key: string)
      modifies this
      ensures items == old(items) - {key}
    {
      items := items - {key};
    }

    /** `clear()` */
    method Clear()
      modifies this
      ensures items == map[]
    {
      items := map[];
    }
  }
}
