/** The named-logger registry of `JBossLoggerFactory`: a memoised
    lookup-or-insert over a map from logger name to adapter.

    A Java object's identity is modelled by a serial number: every
    `new JBossLoggerAdapter(...)` draws the next unused serial from
    `created`, so two adapters are the same object exactly when they are
    equal values. The `synchronized (this)` block is taken as atomic, so
    `getLogger` is one state transition. */
module LoggerFactory {

  /** One `JBossLoggerAdapter` instance: its identity and the name of the
      JBoss logger it wraps. */
  datatype Adapter = Adapter(serial: nat, name: string)

  /** The factory's state: the `loggerMap` cache and the number of adapters
      it has constructed so far. */
  datatype Factory = Factory(loggerMap: map<string, Adapter>, created: nat)

  /** The outcome of one `getLogger` call: the factory afterwards and the
      logger handed back to the caller. */
  datatype Lookup = Lookup(factory: Factory, logger: Adapter)

  /** The cache invariant: each cached adapter wraps the logger named by its
      key, was constructed by this factory, and no adapter is cached under two
      names. */
  ghost predicate Valid(f: Factory)
  {
    && (forall n :: n in f.loggerMap ==> f.loggerMap[n].name == n)
    && (forall n :: n in f.loggerMap ==> f.loggerMap[n].serial < f.created)
    && (forall n, m :: n in f.loggerMap && m in f.loggerMap && n != m ==>
          f.loggerMap[n] != f.loggerMap[m])
  }

  /** The constructor: an empty cache. */
  function NewFactory(): (f: Factory)
    ensures f.loggerMap == map[]
    ensures Valid(f)
  {
    Factory(map[], 0)
  }

  /** `getLogger(name)`: return the cached adapter on a hit; on a miss wrap
      a new JBoss logger for `name`, cache it and return it. */
  function GetLogger(f: Factory, name: string): (r: Lookup)
    // whatever happens, the caller gets the adapter now cached under `name`
    ensures name in r.factory.loggerMap && r.factory.loggerMap[name] == r.logger
    ensures (Valid(f) || name !in f.loggerMap) ==> r.logger.name == name
    // a hit constructs nothing and leaves the cache alone
    ensures name in f.loggerMap ==> r == Lookup(f, f.loggerMap[name])
    // a miss adds exactly the one entry for `name`, holding a new object
    ensures name !in f.loggerMap ==>
              && r.factory.loggerMap == f.loggerMap[name := r.logger]
              && r.factory.created == f.created + 1
              && (Valid(f) ==> forall n :: n in f.loggerMap ==> f.loggerMap[n] != r.logger)
    // other names keep their adapters, and the cache grows by at most one
    ensures forall n :: n in f.loggerMap ==> n in r.factory.loggerMap && r.factory.loggerMap[n] == f.loggerMap[n]
    ensures r.factory.loggerMap.Keys == f.loggerMap.Keys + {name}
    ensures |r.factory.loggerMap| <= |f.loggerMap| + 1
    ensures Valid(f) ==> Valid(r.factory)
  {
    if name in f.loggerMap then
      Lookup(f, f.loggerMap[name])
    else
      var adapter := Adapter(f.created, name);
      Lookup(Factory(f.loggerMap[name := adapter], f.created + 1), adapter)
  }

  /** Asking twice for the same name hands back the identical adapter, and the
      second call changes nothing. */
  lemma GetLoggerIdempotent(f: Factory, name: string)
    ensures var first := GetLogger(f, name);
            GetLogger(first.factory, name) == first
  {
  }

  /** A sequence of `getLogger` calls, in order, starting from `f`: the final
      factory and the logger each call returned. */
  function GetLoggers(f: Factory, names: seq<string>): (r: (Factory, seq<Adapter>))
    ensures |r.1| == |names|
    ensures r.0.loggerMap.Keys == f.loggerMap.Keys + set i | 0 <= i < |names| :: names[i]
    decreases |names|
  {
    if names == [] then
      (f, [])
    else
      var first := GetLogger(f, names[0]);
      var rest := GetLoggers(first.factory, names[1..]);
      (rest.0, [first.logger] + rest.1)
  }

  /** Identity stability over any run of calls: every call returns the
      adapter that ends up cached under its name, so two calls return the
      same adapter exactly when they asked for the same name; entries cached
      before the run are never replaced, and the cache invariant survives. */
  lemma {:induction false} GetLoggersCached(f: Factory, names: seq<string>)
    requires Valid(f)
    ensures var r := GetLoggers(f, names);
            && Valid(r.0)
            && (forall n :: n in f.loggerMap ==> r.0.loggerMap[n] == f.loggerMap[n])
            && (forall i :: 0 <= i < |names| ==> r.0.loggerMap[names[i]] == r.1[i])
            && (forall i, j :: 0 <= i < |names| && 0 <= j < |names| ==>
                  (r.1[i] == r.1[j] <==> names[i] == names[j]))
    decreases |names|
  {
    var r := GetLoggers(f, names);
    if names != [] {
      var first := GetLogger(f, names[0]);
      GetLoggersCached(first.factory, names[1..]);
      var rest := GetLoggers(first.factory, names[1..]);
      assert r.1 == [first.logger] + rest.1;
      forall i | 0 <= i < |names|
        ensures r.0.loggerMap[names[i]] == r.1[i]
      {
        if i > 0 {
          assert names[i] == names[1..][i - 1];
        }
      }
    }
    forall i, j | 0 <= i < |names| && 0 <= j < |names|
      ensures r.1[i] == r.1[j] <==> names[i] == names[j]
    {
      assert r.0.loggerMap[names[i]] == r.1[i] && r.0.loggerMap[names[j]] == r.1[j];
    }
  }
}
