# Listener registry and mock listener of an MQTT broker

This project models the sequential core of the listener lifecycle of the
`mqtt` Go package:

- the `Listeners` registry (`listeners.go`), a table from listener id to
  listener that `Add` and `Delete` update in place. `Get` and `Len` read it.
  `ServeAll` and `CloseAll` first copy the keys into an `ids` slice of
  `len(internal)` slots and then start or close every listener in that
  snapshot;
- the `MockListener` (`listener/mock.go`), a listener with an immutable id
  and address, `Listening` and `Serving` flags, a one-shot `done` channel
  and an `ErrListen` test knob.

Modules:

- `Wrappers` holds `Option`, used for Go `error` results (`None` is nil).
- `Callbacks` holds `Closer`, the close callback (`CloseFunc`). The broker
  supplies its body, so the model records only what this subsystem can be
  held to: the ids it is called with, in order.
- `Listener` holds `MockListener`, a class whose methods update its flags,
  and `MockEstablisher`.
- `Mqtt` holds `Listeners`, a class whose `internal` field is a
  `map<string, MockListener>`. It also holds the predicate `IsSnapshotOf`,
  which says what the key snapshot is, and the lemmas about it.
  `Listeners.Valid()` states that every listener is stored under its own
  id, which is how `Add` keys it.
- `Scenarios` holds client methods that replay the sequences of
  `listener/mock_test.go` and a serve-all/close-all run. They use only the
  contracts above.

Where the design description and the code differ, the model follows the
code:

- The design asks that a second `Close` fail with an explicit
  already-closed error. The mock instead closes its `done` channel again,
  and in Go that panics. The model therefore makes `!doneClosed` a
  precondition of `MockListener.Close`, `Listeners.Close` and
  `Listeners.CloseAll`.
- The design asks that the in-flight counter be incremented before a
  serve task is dispatched. The code increments it inside the task.
  Concurrency is outside this model, so neither version is modelled.

## Model

| member | source | states |
|---|---|---|
| `Callbacks.Closer.Call` | listeners.go:14 | one call of the close callback appends exactly that id to the record of calls |
| `Listener.MockEstablisher` | listener/mock.go:17-19 | the mock establisher accepts every connection: it returns no error for any id, connection and auth |
| `Listener.MockListener.constructor` | listener/mock.go:33-39 | a new mock keeps the given id and address, is not listening and not serving, has `done` open and the failure knob off |
| `Listener.MockListener.BeginServe` | listener/mock.go:42-45 | serving starts by setting `Serving`; listening, `done` and the knob are untouched |
| `Listener.MockListener.ServeExit` | listener/mock.go:46-51 | the serve loop can return only once `done` is closed, and it then returns nil |
| `Listener.MockListener.Listen` | listener/mock.go:55-64 | with the knob set, returns the "listen failure" error and leaves `Listening` unchanged; otherwise returns nil and sets `Listening`; it never touches `Serving` or `done`, so it also succeeds after `Close` |
| `Listener.MockListener.ID` | listener/mock.go:67-72 | returns the id given at construction; id and address are constants that no operation can change |
| `Listener.MockListener.Close` | listener/mock.go:75-81 | allowed only while `done` is open; clears `Serving`, calls the close callback exactly once with the listener's own id, and closes `done`; `Listening` is kept |
| `Listener.MockListener.IsServing` | listener/mock.go:84-88 | returns exactly the serving flag, reading and changing nothing else |
| `Listener.MockListener.IsListening` | listener/mock.go:91-95 | returns exactly the listening flag, reading and changing nothing else |
| `Mqtt.Listeners.constructor` | listeners.go:35-40 | a new registry holds no listeners, so its length is 0 |
| `Mqtt.Listeners.Add` | listeners.go:43-47 | afterwards the listener is stored under its id and every other entry is unchanged; the length grows by one for a new id and stays the same when an existing id is overwritten |
| `Mqtt.Listeners.Get` | listeners.go:50-55 | found exactly when the id is registered; then it returns the stored listener, whose id is the one asked for; otherwise it returns nil; the map is not modified |
| `Mqtt.Listeners.Len` | listeners.go:58-63 | returns the number of registered ids, which is 0 exactly when the registry is empty; the map is not modified |
| `Mqtt.Listeners.Delete` | listeners.go:66-70 | afterwards the id is absent and every other entry is unchanged; deleting an absent id leaves the map as it was; the length drops by one only when the id was present |
| `Mqtt.Listeners.SnapshotIds` | listeners.go:91-96 | the loop over the map fills `len(internal)` slots with every registered id exactly once, in no promised order, and modifies nothing |
| `Mqtt.SnapshotLength` | listeners.go:92-96 | a sequence holding every key once and only keys has exactly as many entries as there are keys |
| `Mqtt.SnapshotCountsOnce` | listeners.go:115-120 | in a snapshot each registered id occurs exactly once and no other id occurs |
| `Mqtt.SnapshotsArePermutations` | listeners.go:93-96 | any two snapshots of the same key set are permutations of each other, which is why no order needs promising |
| `Mqtt.CallsAfterSnapshot` | listeners.go:123-125 | calling the callback once for each id of a snapshot keeps the earlier calls, adds exactly as many calls as there are keys, and calls it once with each key and with no other id |
| `Mqtt.Listeners.Serve` | listeners.go:73-86 | the id must be registered, because an absent id gives a nil listener that the task dereferences; that listener then serves and nothing else about it changes |
| `Mqtt.Listeners.ServeAll` | listeners.go:89-102 | every listener in the snapshot is serving afterwards; the map and the listeners' other state are unchanged |
| `Mqtt.Listeners.Close` | listeners.go:105-110 | the id must be registered and its listener not yet closed; that listener stops serving, is closed, and the callback receives the id once |
| `Mqtt.Listeners.CloseAll` | listeners.go:113-127 | every listener present at snapshot time is closed and no longer serving; the callback is called once per registered id and with no other id; earlier calls are kept; the registry map is unchanged |

## Left out

- Goroutines, the `sync.RWMutex` locks of both types and the
  `sync.WaitGroup` in-flight counter (listeners.go:78-85, 126) are left
  out. Every operation is modelled as one atomic step, so the lock
  exclusion holds trivially.
- Mqtt.Listeners.Serve: the dispatched task is modelled as starting at
  once. The model shows that the listener ends up serving. It does not
  show that the task runs concurrently, or that its `wg.Add(1)` runs inside
  the task.
- Mqtt.Listeners.CloseAll: the final `wg.Wait()` is not modelled, so the
  model does not state that `CloseAll` returns only after every serve
  task has exited.
- Listener.MockListener.ServeExit: the blocking `select` on `done` is not
  modelled, only the condition under which the loop returns.
- The error returned by a listener's `Serve` is dropped by the registry at
  listeners.go:82-84. This has no observable effect, so it is not modelled.
- The establishment callback is not a parameter of `Serve` or `ServeAll`,
  because the mock never calls it. `MockEstablisher` is modelled on its
  own, with the connection and auth as uninterpreted type parameters.
- `MockCloser` (listener/mock.go:14) has an empty body. Its place is taken
  by `Callbacks.Closer`, which records the calls that the tests observe.
- `system.Info` is not modelled. The registry stores it and `Listen`
  receives it, but neither reads it.
- The `Listener` interface and `Auth()` are not modelled. The registry
  holds `MockListener` references directly, and the mock has no auth.
- The `Auth` and hook types, and the two example programs (a TCP server and a hook demo) are
  process wiring with nothing sequential to verify.
