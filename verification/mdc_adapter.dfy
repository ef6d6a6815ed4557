/** `JBossMDCAdapter`: the diagnostic-context operations of the facade,
    forwarded to the JBoss Logging `MDC`.

    The backend context is the map `MDC.getMap()` returns, taken to be the
    live per-thread context (not a copy), or `Absent` when it returns null.
    Keys and string values are Java references that may be null (`None`);
    a stored value is any Java object. Backend behaviour the adapter relies
    on but does not define is fixed here with `java.util.HashMap`
    semantics: `MDC.put` creates the context when there is none, null keys
    are ordinary keys, and `MDC.get`/`MDC.remove` on an absent context see
    no entry. */
module MdcAdapter {
  import opened Wrappers

  /** A `java.lang.String` reference: `None` is null. */
  type JString = Option<string>

  /** An object stored in the backend context: null, a `String`, or some
      other object whose `toString()` yields `text`. */
  datatype Value = Null | Str(s: string) | Other(text: string)

  /** The backend context as `MDC.getMap()` reports it. */
  datatype Context = Absent | Present(entries: map<JString, Value>)

  /** The exceptions the adapter lets escape. */
  datatype Exception = NullPointer | ClassCast

  /** The object a `String` argument becomes once stored. */
  function Store(val: JString): Value
  {
    match val
    case None => Null
    case Some(s) => Str(s)
  }

  /** `String.valueOf(value)` for a non-null value; a null value stays
      null. */
  function Render(v: Value): (r: JString)
    ensures r.None? <==> v.Null?
    ensures v.Str? ==> r == Some(v.s)
    ensures v.Other? ==> r == Some(v.text)
  {
    match v
    case Null => None
    case Str(s) => Some(s)
    case Other(text) => Some(text)
  }

  /** Storing a string and rendering it back gives the same string. */
  lemma RenderStore(val: JString)
    ensures Render(Store(val)) == val
  {
  }

  /** `get(key)`: the backend value cast to `String`; null when the key is
      unset; a `ClassCastException` when the stored object is not a
      `String`. */
  function Get(c: Context, key: JString): (r: Result<JString, Exception>)
    ensures r.Failure? <==> c.Present? && key in c.entries && c.entries[key].Other?
    ensures r.Failure? ==> r.error == ClassCast
    ensures r == Success(None) <==> c.Absent? || key !in c.entries || c.entries[key].Null?
    ensures c.Present? && key in c.entries && c.entries[key].Str? ==> r == Success(Some(c.entries[key].s))
  {
    if c.Absent? || key !in c.entries then Success(None)
    else
      match c.entries[key]
      case Null => Success(None)
      case Str(s) => Success(Some(s))
      case Other(_) => Failure(ClassCast)
  }

  /** The entries of a context, an absent one having none. */
  function Entries(c: Context): map<JString, Value>
  {
    if c.Absent? then map[] else c.entries
  }

  /** `clear()`: empty the context when there is one; do nothing when
      `MDC.getMap()` is null. */
  function Clear(c: Context): (r: Context)
    ensures r.Absent? <==> c.Absent?
    ensures r.Present? ==> r.entries == map[]
    ensures forall key :: Get(r, key) == Success(None)
  {
    if c.Absent? then c else Present(map[])
  }

  /** `put(key, val)`: store `val` under `key`, overwriting. */
  function Put(c: Context, key: JString, val: JString): (r: Context)
    ensures r.Present?
    ensures Get(r, key) == Success(val)
    ensures forall k :: k != key ==> Get(r, k) == Get(c, k)
    ensures r.entries.Keys == Entries(c).Keys + {key}
    ensures forall k :: k in Entries(c) && k != key ==> r.entries[k] == Entries(c)[k]
  {
    Present(Entries(c)[key := Store(val)])
  }

  /** `remove(key)`: delete `key`; nothing else changes. */
  function Remove(c: Context, key: JString): (r: Context)
    ensures r.Absent? <==> c.Absent?
    ensures Get(r, key) == Success(None)
    ensures forall k :: k != key ==> Get(r, k) == Get(c, k)
    ensures r.Present? ==> key !in r.entries && r.entries.Keys == c.entries.Keys - {key}
    ensures r.Present? ==> forall k :: k in r.entries ==> r.entries[k] == c.entries[k]
  {
    if c.Absent? then c else Present(c.entries - {key})
  }

  /** What `getCopyOfContextMap()` promises of a present context: the
      non-null keys, each with its value rendered by `String.valueOf`. */
  function CopyOf(entries: map<JString, Value>): (copy: map<string, JString>)
    ensures forall k :: k in copy <==> Some(k) in entries
    ensures forall k :: k in copy ==> copy[k] == Render(entries[Some(k)])
  {
    map k | k in entries && k.Some? :: k.value := Render(entries[k])
  }

  /** `getCopyOfContextMap()`: walk the context's entries into a new map,
      skipping a null key. The context is not null-checked, so an absent
      context throws `NullPointerException`. The copy is a value: nothing
      done to it later reaches the context. */
  method GetCopyOfContextMap(c: Context) returns (r: Result<map<string, JString>, Exception>)
    ensures r.Failure? <==> c.Absent?
    ensures r.Failure? ==> r.error == NullPointer
    ensures r.Success? ==> forall k :: k in r.value <==> Some(k) in c.entries
    ensures r.Success? ==> forall k :: k in r.value ==> r.value[k] == Render(c.entries[Some(k)])
    ensures r == CopyOfContext(c)
  {
    if c.Absent? {
      return Failure(NullPointer);
    }
    var copy: map<string, JString> := map[];
    var todo := c.entries.Keys;
    while todo != {}
      invariant todo <= c.entries.Keys
      invariant forall k :: k in copy <==> Some(k) in c.entries && Some(k) !in todo
      invariant forall k :: k in copy ==> copy[k] == Render(c.entries[Some(k)])
      decreases todo
    {
      var key :| key in todo;
      if key.Some? {
        copy := copy[key.value := Render(c.entries[key])];
      }
      todo := todo - {key};
    }
    assert copy == CopyOf(c.entries);
    return Success(copy);
  }

  /** What `setContextMap(m)` promises: exactly the non-null keys of `m`,
      with their values; a context that was absent stays absent only when
      nothing was put. */
  function Replaced(c: Context, m: map<JString, JString>): (r: Context)
    ensures r.Absent? <==> c.Absent? && forall k :: k in m ==> k.None?
    ensures r.Present? ==> forall k :: k in r.entries <==> k in m && k.Some?
    ensures r.Present? ==> forall k :: k in r.entries ==> r.entries[k] == Store(m[k])
  {
    if c.Absent? && forall k :: k in m ==> k.None? then Absent
    else Present(map k | k in m && k.Some? :: Store(m[k]))
  }

  /** `setContextMap(m)`: clear the context, then put every entry of `m`
      whose key is not null. No earlier entry survives. */
  method SetContextMap(c: Context, m: map<JString, JString>) returns (r: Context)
    ensures r.Absent? <==> c.Absent? && forall k :: k in m ==> k.None?
    ensures r.Present? ==> forall k :: k in r.entries <==> k in m && k.Some?
    ensures forall k :: k in m && k.Some? ==> Get(r, k) == Success(m[k])
    ensures r == Replaced(c, m)
  {
    r := Clear(c);
    var todo := m.Keys;
    while todo != {}
      invariant todo <= m.Keys
      invariant r.Absent? <==> c.Absent? && forall k :: k in m && k !in todo ==> k.None?
      invariant r.Present? ==> forall k :: k in r.entries <==> k in m && k.Some? && k !in todo
      invariant r.Present? ==> forall k :: k in r.entries ==> r.entries[k] == Store(m[k])
      decreases todo
    {
      var key :| key in todo;
      if key.Some? {
        r := Put(r, key, m[key]);
      }
      todo := todo - {key};
    }
  }

  /** The pure counterpart of `GetCopyOfContextMap`, for stating round
      trips. */
  function CopyOfContext(c: Context): Result<map<string, JString>, Exception>
  {
    if c.Absent? then Failure(NullPointer) else Success(CopyOf(c.entries))
  }

  /** The non-null-keyed part of a facade map. */
  function NonNullKeys(m: map<JString, JString>): (r: map<string, JString>)
    ensures forall k :: k in r <==> Some(k) in m
    ensures forall k :: k in r ==> r[k] == m[Some(k)]
  {
    map k | k in m && k.Some? :: k.value := m[k]
  }

  /** Round trip: after `setContextMap(m)`, `getCopyOfContextMap()` yields `m`
      without its null key. It throws only when there was no context and
      `m` had no non-null key, so nothing was ever put. */
  lemma SetThenCopy(c: Context, m: map<JString, JString>)
    ensures CopyOfContext(Replaced(c, m)) ==
              if c.Absent? && forall k :: k in m ==> k.None? then Failure(NullPointer)
              else Success(NonNullKeys(m))
  {
    var r := Replaced(c, m);
    if r.Present? {
      var copy := CopyOf(r.entries);
      forall k | k in copy
        ensures copy[k] == NonNullKeys(m)[k]
      {
        RenderStore(m[Some(k)]);
      }
      assert copy == NonNullKeys(m);
    }
  }

  /** `put` then `get` returns what was put, from any context. */
  lemma PutThenGet(c: Context, key: JString, val: JString)
    ensures Get(Put(c, key, val), key) == Success(val)
  {
  }
}
