# planets: controller dispatch and graceful listener, in Dafny

This project models the two pieces of sequential logic inside the `planets` HTTP server and proves
properties of them:

- **The controller action table and dispatcher** (`core/controller_mapper.go`). `buildMap` turns a map
  from controller name to controller into a table from controller name to action names. Each list is
  the controller's methods minus those of the shared base `glaze.Controller`. The table is built at
  most once. `HandleIfPossible` looks up `(controller, canonical action)` and invokes the action, or
  calls the error handler on a miss. `ActionMap` lists the table as route lines.
- **The connection counter and stoppable listener** (`main.go`). A successful `Accept` wraps the
  connection and increments the shared counter. `Close` on a wrapped connection decrements it. A stop
  signal closes the inner listener, after which accepts fail.
- **The straight-line decisions of `main.go`**: the flag defaults, the root alias of generated routes,
  the restart child's command line, and how startup chooses a listener and signals the parent.

Files:

- `common.dfy` (module `Common`): `Option` and `Distinct`.
- `core.dfy` (module `Core`): `core/controller_mapper.go`. Reflection is replaced by explicit
  method-name lists: a controller is the list of its method names in reflection order, and the base
  controller is given the same way. Invoking an action or an error handler appends an `Event` to a
  trace. `SpinalToCamel` and `CamelToSpinal` are function parameters about which nothing is assumed
  (not even that they are inverses). `mux.Vars(r)` is an input map; a missing key reads as `""`, as in
  Go. A nil `controllerActions` map is `None`; lookups treat it as empty, as Go does.
- `listener.dfy` (module `Listener`): the counter, `gracefulConn` and `gracefulListener` of `main.go`.
  It is a class with the counter `count` (Go's global `connCount.c`), a `listenerOpen` flag and the
  stop channel's one-slot buffer. Ghost fields hold the live connection ids, the ids closed so far and
  the number of `Close` calls. What the operating system's `accept(2)` returns is an input.
- `server.dfy` (module `Server`): route registration, the formatting of the child's flags and a
  reference parser for them, `upgradeServer`, and listener selection in `main`.

## Model

| member | source | states |
|---|---|---|
| `Core.Contains` | core/controller_mapper.go:117-124 | the result is true exactly when `e` occurs in `s` |
| `Core.MethodsOfStruct` | core/controller_mapper.go:100-115 | the result is the reference filter on the method list; its members are exactly the input names that are non-empty and not excluded; it is a subsequence of the input (original order kept) |
| `Core.FilteredMembers` | core/controller_mapper.go:106-112 | a name is in the filtered list iff it is in the input, non-empty and not in `exclude` |
| `Core.FilteredIsSubsequence` | core/controller_mapper.go:106-112 | the filtered list can be obtained from the input by deleting names, so order is kept |
| `Core.FilteredOfAllKept` | core/controller_mapper.go:106-112 | when every name is non-empty and not excluded, filtering returns the input unchanged |
| `Core.ActionTableProperties` | core/controller_mapper.go:34-47 | the table has exactly the input's controller names; an action is listed iff the controller has that non-empty method and the base controller does not; no list holds a base-controller method name; an empty input gives an empty table |
| `Core.ControllerMapper.constructor` | core/controller_mapper.go:21-27 | `NewControllerMapper`: `controllers` is the input, the table is built (non-nil) from it, and no custom error handler is set; the mapper is valid (the table lists exactly the controllers, and each listed action is a method of its controller) |
| `Core.ControllerMapper.BuildMap` | core/controller_mapper.go:29-48 | if the table already exists, nothing changes (idempotence); otherwise `controllers` becomes the input and the table becomes the action table of the input minus the base methods; a first build makes the mapper valid and a repeated one keeps it so |
| `Core.DefaultErrorHandler` | core/controller_mapper.go:126-128 | the default handler writes to the writer it was given, with status 500 |
| `Core.DefaultErrorHandlerIgnoresStatus` | core/controller_mapper.go:126-128 | the default handler's response does not depend on its `status` argument |
| `Core.ControllerMapper.HandleIfPossible` | core/controller_mapper.go:50-86 | known controller and listed canonical action: exactly one event, that action called with `(w, r)`; known controller, unlisted action: exactly one error-handler event; unknown controller: the selected handler runs twice. The custom handler, if set, is called with status 404; otherwise the default runs. On a hit in a valid mapper, the controller has the invoked method, so the reflective call finds it |
| `Core.ControllerMapper.HandleIfPossibleWithReturn` | core/controller_mapper.go:55-63 | corrected dispatcher: a listed action runs exactly once; any miss, with the controller unknown or the action unlisted, runs the selected handler exactly once |
| `Core.UnknownControllerRunsHandlerTwice` | core/controller_mapper.go:55-85 | concrete case: request `/missing/index` on a mapper with only `public` yields two default-handler responses |
| `Core.PublicIndexScenario` | core/controller_mapper.go:65-85 | concrete case: with `public` having `Index` beside a base method, `/public/index` invokes `public.Index` once and `/public/missing` runs the custom handler once with 404 |
| `Core.ControllerMapper.ActionMap` | core/controller_mapper.go:88-98 | the output is the newline-join of the route lines of every controller, taken in some duplicate-free enumeration of the table's keys. Every `(controller, action)` pair's line `"/c/<CamelToSpinal(a)>", c.a` occurs in it. It is `""` exactly when no controller has an action |
| `Core.ControllerLinesAt` | core/controller_mapper.go:92-94 | one controller's lines are, position by position, `"/c/<CamelToSpinal(a)>", c.a` for its actions in order |
| `Core.LinesCoverTable` | core/controller_mapper.go:91-95 | every `(controller, action)` pair of the table has its route line in the output |
| `Core.LinesCount` | core/controller_mapper.go:91-95 | the number of lines equals the number of `(controller, action)` pairs |
| `Core.LinesNonEmpty` | core/controller_mapper.go:93 | no route line is empty |
| `Core.JoinContains` | core/controller_mapper.go:97 | every joined line occurs in the joined string |
| `Core.ActionCountZero` | core/controller_mapper.go:91-95 | over an enumeration of the controllers, there are no route lines exactly when every controller's action list is empty |
| `Core.JoinEmpty` | core/controller_mapper.go:97 | joining non-empty lines gives `""` iff there are no lines |
| `Listener.GracefulListener.constructor` | main.go:81-94 | a new listener is open, its stop channel is empty and no connection is counted |
| `Listener.GracefulListener.Get` | main.go:46-51 | returns the current counter value and changes nothing |
| `Listener.GracefulListener.Accept` | main.go:102-118 | if the inner accept fails (always so once the listener is closed), the error is returned and nothing changes. Otherwise the connection is wrapped with a fresh id, the counter grows by exactly 1 and the connection becomes live. The invariant `count == accepts - closes` is kept |
| `Listener.GracefulListener.Close` | main.go:59-69 | the counter drops by exactly 1 with no guard against a repeated close; the inner connection is then closed and its error returned; a repeated close breaks the at-most-once condition |
| `Listener.GracefulListener.Stop` | main.go:81-94 | the first stop signal is received and the inner listener closed; a second fills the one-slot buffer; only a third would block; counter and connections are untouched |
| `Listener.CountIsLive` | main.go:59-69 | when each close was of a different accepted connection, `accepts - closes` is the number of live connections, hence never negative |
| `Listener.ListenerCountIsLive` | main.go:112-115 | for a listener whose connections were each closed at most once, the counter equals the number of live connections and is non-negative |
| `Listener.DrainScenario` | main.go:102-118 | after 10 accepts the counter is 10; after a stop and 3 closes it is 7; an 11th accept fails with the closed-listener error |
| `Listener.DoubleCloseScenario` | main.go:59-69 | closing one connection twice leaves the counter at -1 |
| `Server.RegisterRoutes` | main.go:180-186 | every generated route is registered once with its handler: `/public/index` at `/`, every other path unchanged |
| `Server.FormatIntRoundTrip` | main.go:147 | the `%d` rendering of the port reads back as the same integer |
| `Server.FormatBoolRoundTrip` | main.go:148 | the `%v` rendering of verbose reads back as the same boolean |
| `Server.ChildArgs` | main.go:146-149 | the child gets exactly three arguments, the last being `-graceful` |
| `Server.ChildCommand` | main.go:146-152 | the child runs `./planets`; it sees the listener duplicate at descriptor 3 and no further extra descriptor; parsing its arguments from the flag defaults gives the parent's port and verbosity with graceful mode on |
| `Server.ChildFlagsRoundTrip` | main.go:34-36 | parsed from the defaults, the child's arguments give the parent's port and verbosity, with graceful mode on |
| `Server.UpgradeServer` | main.go:143-157 | the child is launched exactly when the start succeeds. It then runs `./planets` with the listener duplicate at descriptor 3 and nothing beyond, and its arguments read back as the parent's port and verbosity in graceful mode. A start failure is a fatal exit of the parent whose message is `Graceful restart: Failed to launch, error: ` followed by the start error |
| `Server.ListenerSourceFor` | main.go:241-248 | the listener is inherited exactly in graceful mode, and then from descriptor 3. Otherwise it is a new `tcp` listener whose address is `:` followed by text that reads back as the port flag |
| `Server.StartupSteps` | main.go:241-262 | the listener is opened first. A listener error is fatal, and then the parent is never signalled and nothing is served. SIGTERM goes to the parent exactly in graceful mode without an error. Serving comes last |
| `Server.RestartHandoff` | main.go:241-259 | after a successful upgrade, the child parses graceful mode and the parent's settings. It opens descriptor 3, which holds the duplicate the parent passed, and it sends SIGTERM to the parent |
| `Server.FreshStartListensOnPort` | main.go:234-248 | a process started with only `-port=p` listens on a new TCP socket at `:p` and signals nobody |

## Left out

- Reflection (`reflect.TypeOf`, `NumMethod`, `MethodByName(...).Call`): controllers are method-name lists, and a call is an `ActionCalled` event. Go's reflection reports methods sorted by name; the model takes the order as given.
- `stringutils.SpinalToCamel` / `CamelToSpinal`: foreign library functions, taken as arbitrary function parameters.
- `mux.Vars`, `http.Error`, `http.ResponseWriter`, `glaze.GenerateRoutes`, `gorilla/handlers`: foreign HTTP calls. Their inputs and outputs are values: a map, events, writer and request ids, and a route map.
- Core.ControllerMapper.ActionMap: the order of controllers, which comes from Go's map iteration, is a ghost enumeration the method chooses; the lines within one controller keep the table's order.
- The mutex in `counter`, the goroutine, and the channel mechanics in `newGracefulListener`: the model is sequential, and a stop takes effect at once. Interleavings, such as an accept between the send and the goroutine's close, are not modelled.
- The `stopped` field (main.go:76, 90) is written on a copy and never read, so it is not modelled. Nothing in main.go ever sends on the stop channel; `Stop` models what a send would do.
- Listener.GracefulListener.Close: requires that the connection came from this listener's `Accept` (its id is below the number of accepts). This holds by construction, because a `gracefulConn` is only ever made there.
- `gracefulListener.File` (main.go:96-100) duplicates the descriptor and ignores the error: an OS call, taken as the `listenerDup` input of `UpgradeServer`.
- Process spawning, `cmd.Stdout`/`cmd.Stderr` inheritance, `os.NewFile(3)`, `net.FileListener`, `net.Listen`, `syscall.Getppid` and `syscall.Kill`: OS calls. Only their requests (commands, listener sources, the signal step) and the decisions around them are modelled.
- Server.ParseFlags: a reference reader for the three flags in the forms the child is given (`-port=<decimal>`, `-verbose=<bool>`, `-graceful`). It is not a model of Go's `flag` package, which also accepts `--name`, separate values, other integer bases and a 64-bit range.
- Server.FormatInt: integers are unbounded; Go's `int` port is 64-bit, and its overflow is not modelled.
- `server.Serve` and the fatal log on its error (main.go:262-266), the `/upgrade` handler registration (main.go:226), the server timeouts (main.go:234-239), Viper config loading, log-file creation, static file serving, `rand.Seed`, `GOMAXPROCS`, `log` output and `flag.Parse` of the real command line: I/O and configuration plumbing.
- `errorHandler` in main.go (main.go:269-271): never used.
- controllers/public.go: a thin wrapper around the external planet generator (which needs a database) and template rendering. Its only local logic builds a `requestedParams` map that is never read.

Behaviour of the code worth knowing:

- A failed restart launch is fatal to the parent (`log.Fatalf`, main.go:155-157); the parent does not keep serving.
- `upgradeServer` does not check that the listener is still open before restarting, so `UpgradeServer` has no listener-state input.
- The counter is not always non-negative: `Close` has no guard, so a double close drives it below zero. `count >= 0` is proved only when each connection is closed at most once.
- The listener has only the states open and closed; there is no separate draining state.
- The process never drains. Once the listener closes, `server.Serve` returns the closed-listener error and `log.Fatal` ends the process (main.go:262-266). Nothing handles SIGTERM, so the child's `syscall.Kill` (main.go:258) ends the parent at once. `Listener.DrainScenario`'s closes after a stop describe the listener alone.
- For an unknown controller the not-found handler runs twice (see Findings). The default handler answers with status 500 whatever status it is passed, although its body says "Error 404".

## Findings

| source | as written | input that shows it | evidently intended | confidence | as-written member | corrected member |
|---|---|---|---|---|---|---|
| core/controller_mapper.go:55-63 | no `return` after the error handler for an unknown controller, so execution falls through the empty loop to the second handler call at lines 80-85 | a request whose `controller` variable is `missing`, on a mapper whose only controller is `public` | the handler runs once and `HandleIfPossible` returns | high; not executed | `Core.UnknownControllerRunsHandlerTwice` (on `Core.ControllerMapper.HandleIfPossible`) | `Core.ControllerMapper.HandleIfPossibleWithReturn` |
