# slf4j-jboss-logging: a Dafny model of the adapter core

This project models the three behaviours the SLF4J-to-JBoss-Logging binding
defines itself, and proves their properties:

- **`JBossLoggerFactory`**: the named-logger registry. `getLogger(name)` is a
  memoised lookup-or-insert on `loggerMap`. Module `LoggerFactory` models it as
  a state transition on an immutable map. A new adapter object is a fresh
  serial number.
- **`JBossMDCAdapter`**: the diagnostic-context operations `get`, `put`,
  `remove`, `clear`, `getCopyOfContextMap` and `setContextMap`. Module
  `MdcAdapter` models them over the map `MDC.getMap()` returns, which may be
  absent (null).
- **`JBossLoggerAdapter`**: level gating and dispatch. Module `LoggerAdapter`
  maps every per-level entry point and the location-aware `log` to at most
  one call into the JBoss logger. The JBoss logger is abstracted to a set of
  enabled levels and the sequence of calls made into it. The slf4j
  `MessageFormatter` is an uninterpreted function parameter.

Module `Wrappers` holds `Option` (a nullable reference) and `Result` (a
call that returns or throws).

Assumptions about code that is not part of this model:

- `MDC.getMap()` returns the live context, not a copy.
- The JBoss Logging MDC behaves like a `java.util.HashMap`: `MDC.put` creates
  the context when there is none, null keys are ordinary keys, and `MDC.get`
  or `MDC.remove` on an absent context sees no entry.
- JBoss Logging's `isTraceEnabled()`, `isDebugEnabled()` and
  `isInfoEnabled()` equal `isEnabled` of their level.
- `Logger.getLogger(name)` returns a logger named `name`.
- `MessageFormatter.format(f, a)` and `format(f, a, b)` equal `arrayFormat`
  over a one- and a two-element array.
- JBoss Logging's `Logger.trace(fqcn, message, t)`, `debug(…)`, `info(…)`,
  `warn(…)` and `error(…)` make the same backend record as
  `log(level, fqcn, message, t)` at their level. The location-aware `log`
  uses the former and the per-level entry points use the latter; the model
  records both as one `BackendCall(level, fqcn, message, thrown)`.

Behaviour of the code worth noting:

- `getCopyOfContextMap()` does not null-check `MDC.getMap()`. On an absent
  context it throws `NullPointerException`, which the model returns as
  `Failure(NullPointer)`. It does not return an empty or null map.
- `get(key)` casts the stored object to `String`. A non-`String` object put
  into the context through the backend's own `MDC` makes it throw
  `ClassCastException`.
- `trace(String)` is the only entry point that forwards without asking
  whether its level is enabled.

## Model

| member | source | states |
|---|---|---|
| LoggerFactory.NewFactory | src/main/java/org/jboss/slf4j/JBossLoggerFactory.java:42-44 | a new factory has an empty cache, and the cache invariant holds |
| LoggerFactory.GetLogger | src/main/java/org/jboss/slf4j/JBossLoggerFactory.java:49-70 | the returned logger is the one now cached under the name. A hit creates nothing and changes nothing. A miss adds exactly one entry, holding a new object not cached under any other name. Other names keep their loggers. The cache grows by at most one. The cache invariant is preserved |
| LoggerFactory.GetLoggerIdempotent | src/main/java/org/jboss/slf4j/JBossLoggerFactory.java:54-57 | a second `getLogger` with the same name returns the identical logger and leaves the factory unchanged |
| LoggerFactory.GetLoggers | src/main/java/org/jboss/slf4j/JBossLoggerFactory.java:49-70 | a run of calls returns one logger per call, and afterwards the cache's names are the earlier names plus every name asked for |
| LoggerFactory.GetLoggersCached | src/main/java/org/jboss/slf4j/JBossLoggerFactory.java:53-69 | over any run of calls from a valid factory, each call returns the logger finally cached under its name. Two calls return the same logger if and only if they asked for the same name. Entries cached before the run are never replaced. The cache invariant survives |
| MdcAdapter.Render | src/main/java/org/jboss/slf4j/JBossMDCAdapter.java:66 | a rendered value is null exactly when the object is null. A `String` renders as itself, and any other object as its `toString()` text |
| MdcAdapter.RenderStore | src/main/java/org/jboss/slf4j/JBossMDCAdapter.java:49-66 | a string that is put and then rendered comes back unchanged, null included |
| MdcAdapter.Get | src/main/java/org/jboss/slf4j/JBossMDCAdapter.java:44-46 | `get` throws `ClassCastException` exactly when the key holds a non-`String` object. It returns null exactly when there is no context, the key is unset, or its value is null. A stored `String` comes back as itself |
| MdcAdapter.Clear | src/main/java/org/jboss/slf4j/JBossMDCAdapter.java:36-41 | `clear` empties a present context, so every key reads as unset. An absent context stays absent and a present one stays present |
| MdcAdapter.Put | src/main/java/org/jboss/slf4j/JBossMDCAdapter.java:49-51 | after `put(k, v)`, `get(k)` returns `v`. Every other key keeps its stored object, whatever its type. The context exists, and its keys are the old ones plus `k` |
| MdcAdapter.PutThenGet | src/main/java/org/jboss/slf4j/JBossMDCAdapter.java:44-51 | `put(k, v)` then `get(k)` returns `v` from any context |
| MdcAdapter.Remove | src/main/java/org/jboss/slf4j/JBossMDCAdapter.java:54-56 | after `remove(k)`, `get(k)` reads unset. Every other key keeps its stored object, whatever its type. The key set loses exactly `k` |
| MdcAdapter.CopyOf | src/main/java/org/jboss/slf4j/JBossMDCAdapter.java:62-67 | the copy's keys are exactly the context's non-null keys. Each value is the rendering of the stored object |
| MdcAdapter.GetCopyOfContextMap | src/main/java/org/jboss/slf4j/JBossMDCAdapter.java:59-70 | throws `NullPointerException` exactly when there is no context. Otherwise the copy has exactly the non-null keys, each with its rendered value, and equals the reference copy |
| MdcAdapter.Replaced | src/main/java/org/jboss/slf4j/JBossMDCAdapter.java:73-81 | reference for `setContextMap`: the context holds exactly the non-null keys of the argument with their values. It stays absent only if it was absent and nothing was put |
| MdcAdapter.SetContextMap | src/main/java/org/jboss/slf4j/JBossMDCAdapter.java:73-81 | the clear-then-put loop leaves exactly the argument's non-null keys, so no earlier entry survives. `get` of each such key returns its value. The result equals the reference |
| MdcAdapter.NonNullKeys | src/main/java/org/jboss/slf4j/JBossMDCAdapter.java:75-79 | the part of an argument map whose keys are not null |
| MdcAdapter.SetThenCopy | src/main/java/org/jboss/slf4j/JBossMDCAdapter.java:59-81 | round trip: `setContextMap(m)` then `getCopyOfContextMap()` yields `m` without its null key. It throws only when there was no context and `m` had no non-null key |
| LoggerAdapter.IsEnabled | src/main/java/org/jboss/slf4j/JBossLoggerAdapter.java:211-214 | every `isXEnabled()` is true exactly when the backend enables that severity's JBoss level. The trace, debug and info versions (lines 84-87, 125-128, 168-171) ask the dedicated predicates; warn and error (lines 211-214, 254-257) ask `isEnabled(level)` |
| LoggerAdapter.Log | src/main/java/org/jboss/slf4j/JBossLoggerAdapter.java:297-299 | the private `log` makes exactly one backend call with the given level, caller identity, message and throwable. Nothing else changes |
| LoggerAdapter.Invoke | src/main/java/org/jboss/slf4j/JBossLoggerAdapter.java:89-295 | a per-level entry point makes one call exactly when it is `trace(String)` or its level is enabled, and otherwise changes nothing. The call is at the severity's level with `LOGGER_FQCN`. Literal messages go out verbatim with a null throwable. `(msg, Throwable)` goes out verbatim with that throwable. Templates go out as the formatter renders them, with the throwable it detached |
| LoggerAdapter.DisabledIgnoresFormatter | src/main/java/org/jboss/slf4j/JBossLoggerAdapter.java:94-100 | when the level is disabled, an entry point's outcome does not depend on the formatter. A gated one changes nothing |
| LoggerAdapter.LiteralMessageGating | src/main/java/org/jboss/slf4j/JBossLoggerAdapter.java:89-135 | with the level disabled, the literal-message entry point reaches the backend if and only if it is `trace` |
| LoggerAdapter.LevelOfInt | src/main/java/org/jboss/slf4j/JBossLoggerAdapter.java:58-80 | exactly the five `LocationAwareLogger` numbers name a level, and none of them names FATAL |
| LoggerAdapter.LevelOfIntInverse | src/main/java/org/jboss/slf4j/JBossLoggerAdapter.java:58-77 | the switch is one to one: each severity's number gives that severity's JBoss level, and no other number gives it |
| LoggerAdapter.LocationAwareLog | src/main/java/org/jboss/slf4j/JBossLoggerAdapter.java:55-82 | throws `IllegalStateException` carrying the number exactly when the level number is unknown, and then makes no call. Otherwise it makes one call at the named level with the caller's `fqcn`, the formatted message and the caller's `t` |
| LoggerAdapter.LocationAwareIgnoresEnablement | src/main/java/org/jboss/slf4j/JBossLoggerAdapter.java:56-82 | the location-aware `log` does not consult enablement: backends that differ only in their enabled levels receive the same calls |
| LoggerAdapter.LocationAwareMatchesEntryPoint | src/main/java/org/jboss/slf4j/JBossLoggerAdapter.java:55-82 | at a severity's number and with `LOGGER_FQCN`, the location-aware `log` produces the same backend record as that severity's enabled vararg entry point, when the formatter detaches no throwable (the two reach the backend through different JBoss methods, taken to record alike) |

## Left out

- Concurrency: the `synchronized (this)` block of `getLogger` is treated as atomic, and racing callers are not modelled.
- Message formatting: `MessageFormatter` and `{}` substitution belong to slf4j. They are an uninterpreted function parameter.
- JBoss Logging internals: logger creation, publication of records, level configuration and thread-local MDC storage are not modelled. Its own second check of the level inside the logger is not modelled either.
- Null logger names, null messages and a null argument map to `setContextMap`: names and messages are plain strings, and the argument map is a value.
- Markers: the location-aware `log` ignores its `Marker`, and so does `MarkerIgnoringBase`. Serialization (`serialVersionUID`) is also left out.
- Order: `getCopyOfContextMap` builds a `LinkedHashMap`. Its iteration order is not modelled, because the copy is stated as a map.
- Service-provider and binder classes, and `JDKLevel`: they only construct factories and return constant strings.
