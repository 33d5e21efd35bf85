# HTMX starter scaffold: item store, fragment handlers and middleware in Dafny

This project models the behaviour of a small server-rendered web application
written in Go. Fragments are swapped into the page in the HTMX style. The model
covers three parts of the program:

- **The in-memory example store and its fragment handlers**
  (`internal/handlers/htmx.go`). The store is an ordered list of items and a
  counter for the next id. It starts with ids 1, 2 and 3 and the counter at 4.
  The table handler renders the whole list. The create handler validates the
  form, appends an item with the counter's id and advances the counter. The
  delete handler finds the first item with the id, splices it out and stops.
  Every handler that succeeds re-renders the whole list.
  - Module `ItemStore` describes this as values: a `Store`, and the step
    functions `Create` and `Delete`. The lemmas prove the store invariant and
    that ids are never reused.
  - Module `Htmx` holds the package-level state as the two fields of the class
    `ExampleHandlers`. Each handler is a method that updates those fields in
    place. Each method is proved to follow the matching step function.
- **The middleware** (`internal/middleware/middleware.go`).
  - `Chain` folds the middlewares from last to first, so the first-listed
    middleware is outermost.
  - `Logger` wraps the writer in a status-capturing `responseWriter`. That
    writer starts at 200 and is overwritten by every `WriteHeader`. `Logger`
    runs the inner handler once, then logs the method, the path and the
    captured status.
  - `Recover` turns a panic into a logged report and a 500
    "Internal Server Error" response.
  - Handlers are abstract. The routed handler (the mux) is given by the writer
    calls it makes and by whether it returned or panicked. The writer classes
    `Recorder` and `StatusWriter` model the client's writer and the wrapper.
- **The page handlers** (`internal/handlers/pages.go`). The index handler
  answers the exact root path with the `index` page and every other path with
  Not Found. The example handler always renders the `example` page.

Two consequences of the code are worth stating:

- `cmd/web/main.go` calls `Chain(mux, Logger, Recover)`. Chain applies the
  last-listed middleware first, so the server runs `Logger(Recover(mux))` and
  Logger is outermost. That is why a recovered panic still gets an access
  line, logged with 500 (`ServerLogsEveryRequest`; the other order is
  `ReverseOrderLosesPanicLog`).
- `responseWriter` overwrites its status on every `WriteHeader`, so the
  logged status is the last code passed (`StatusIsLastCode`).

Calls into foreign code become inputs of the model:

- Form parsing becomes an `Option<Form>`. `None` means `ParseForm` failed; a
  missing field reads as `""`.
- The `{id}` path segment after `strconv.Atoi` becomes an `Option<int>`.
  `None` means the segment is not an integer.
- Template rendering becomes a `Response` value: `Page` for `render`,
  `Fragment` for `renderPartial`, `BadRequest` for `http.Error` with 400, and
  `NotFound` for `http.NotFound`. `Http.ErrorWrites` gives the writer calls of
  the two error answers, which is how they enter the middleware model.

## Model

| member | source | states |
|---|---|---|
| `ItemStore.Seed` | internal/handlers/htmx.go:12-17 | The starting store holds three items with ids 1, 2 and 3, in that order, with the counter at 4. It satisfies the invariant (distinct ids, all below the counter) and its ids are ascending. |
| `ItemStore.FirstIndexOf` | internal/handlers/htmx.go:97-98 | The delete loop stops at the first index whose item has the id: that item matches, no earlier item does, and the result is the length exactly when no item has the id. |
| `ItemStore.Removed` | internal/handlers/htmx.go:97-101 | For an absent id the list is unchanged. Otherwise the list is one shorter and equals the list with the first matching element spliced out, the rest in their original order. |
| `ItemStore.Create` | internal/handlers/htmx.go:39-76 | A form that cannot be parsed gives 400 "Invalid form data", and an empty name gives 400 "Name is required"; in both cases the store is unchanged. Otherwise exactly one item is appended at the end with id equal to the old counter and the given name and description, earlier items stay the same and in order, the counter goes up by one, and the response is the table of the new list. |
| `ItemStore.Delete` | internal/handlers/htmx.go:80-110 | A non-integer id gives 400 "Invalid ID" and leaves the store unchanged. Otherwise the counter is unchanged and the list is the splice given by `Removed`: an absent id leaves the store identical, a present id makes the list one shorter. The response is always the table of the resulting list. |
| `ItemStore.RemovedExactly` | internal/handlers/htmx.go:97-101 | When ids are distinct, deleting the id of the element at index k removes exactly that element, keeps the others in order, and leaves no item with that id. |
| `ItemStore.SpliceKeeps` | internal/handlers/htmx.go:99 | Splicing one element out keeps ids distinct, keeps them below the counter and keeps them ascending. |
| `ItemStore.CreatePreservesValid` | internal/handlers/htmx.go:61-68 | Create keeps the invariant (distinct ids, all below the counter) and keeps list order equal to id order. |
| `ItemStore.DeletePreservesValid` | internal/handlers/htmx.go:97-102 | Delete keeps the invariant and keeps list order equal to id order. |
| `ItemStore.CreateThenDelete` | internal/handlers/htmx.go:61-101 | Creating an item and then deleting its new id restores the list, while the counter stays one higher. |
| `ItemStore.RendersCurrentList` | internal/handlers/htmx.go:30-109 | Whenever a handler renders the table, the rendered list is exactly the store it leaves behind, which is what the table handler would render next. A bad-request answer leaves the store unchanged. |
| `ItemStore.ReplayPreservesValid` | internal/handlers/htmx.go:12-102 | Any sequence of table, create and delete requests from a valid store ends in a valid store, with list order still equal to id order. |
| `ItemStore.ReplayNeverReusesIds` | internal/handlers/htmx.go:61-102 | Over any sequence of requests the counter never decreases. Any item whose id is below the starting counter was already in the starting list, so a deleted id never returns. |
| `ItemStore.AssignedIdsIncrease` | internal/handlers/htmx.go:61-68 | The ids carried by the items that the successful creates in a request sequence appended are strictly increasing. Each lies between the starting counter and the final one. |
| `Htmx.ExampleHandlers.constructor` | internal/handlers/htmx.go:12-17 | The process-wide store starts as the seed state and satisfies the invariant. |
| `Htmx.ExampleHandlers.HandleExampleTable` | internal/handlers/htmx.go:21-35 | Renders the `example_table` fragment with the full current list. |
| `Htmx.ExampleHandlers.HandleExampleItemCreate` | internal/handlers/htmx.go:39-76 | The new fields and the response are those of `Create` applied to the old fields, and the invariant is preserved. |
| `Htmx.ExampleHandlers.HandleExampleItemDelete` | internal/handlers/htmx.go:80-110 | The find-then-splice loop leaves the fields and response that `Delete` gives for the old fields, and the invariant is preserved. |
| `Htmx.WidgetScenario` | internal/handlers/htmx.go:39-110 | On a fresh store, creating "Widget" with an empty description renders a table containing item 4. The table handler then renders the same list. Deleting id 4 renders the seed list again, and no row has id 4. |
| `Middleware.Chain` | internal/middleware/middleware.go:14-19 | The counting-down loop returns the first-listed middleware outermost: `m0(m1(...mn(h)))`. With no middlewares it returns the handler unchanged. |
| `Middleware.NestAppend` | internal/middleware/middleware.go:14-19 | Chaining with a concatenated list is chaining with the second list first, then with the first list around it. |
| `Middleware.ServerHandler` | cmd/web/main.go:57-61 | Chaining the mux with Logger, then Recover, yields `Logger(Recover(mux))`. |
| `Middleware.StatusWriter.constructor` | internal/middleware/middleware.go:27 | The wrapper starts at status 200 around the given writer. |
| `Middleware.StatusWriter.WriteHeader` | internal/middleware/middleware.go:60-63 | Records the code and forwards it, unchanged, to the inner writer. |
| `Middleware.StatusWriter.Write` | internal/middleware/middleware.go:55-57 | The embedded writer's Write passes through to the inner writer and leaves the recorded status alone. |
| `Middleware.Perform` | internal/middleware/middleware.go:29 | After the inner handler's calls go through the wrapper, the inner writer has received exactly those calls in order. The wrapper's status is what the status function gives for them. |
| `Middleware.StatusAfterAppend` | internal/middleware/middleware.go:60-63 | The status after two runs of calls is the status after the second run, started from the status after the first. |
| `Middleware.StatusIsLastCode` | internal/middleware/middleware.go:27-63 | The recorded status is the starting 200 when no WriteHeader came. Otherwise it is the code of the last WriteHeader call. |
| `Middleware.LoggerServeHTTP` | internal/middleware/middleware.go:22-39 | Logger passes every call of the inner handler to the client's writer unchanged and logs one line. The line holds the method, the path and the last status written, or 200. A panicking inner handler gets no line. |
| `Middleware.LoggerStep` | internal/middleware/middleware.go:22-39 | Logger leaves the inner writer calls and outcome as they are. It appends one access line with the recorded status when the inner handler returned, and nothing when it panicked. |
| `Middleware.RecoverStep` | internal/middleware/middleware.go:42-52 | The outcome after Recover is always a normal return. A non-panicking result passes through unchanged. A panic adds a panic report to the log and a 500 "Internal Server Error" error response. |
| `Middleware.RecoverIdempotent` | internal/middleware/middleware.go:42-52 | Wrapping Recover around Recover behaves like a single Recover. |
| `Middleware.ServerLogsEveryRequest` | cmd/web/main.go:57-61 | Through `Logger(Recover(mux))` every request returns normally and its last log entry is an access line. That line shows 500 when the mux panicked and the mux's recorded status otherwise. |
| `Middleware.ServerLogsErrorStatus` | internal/middleware/middleware.go:22-63 | Through `Logger(Recover(mux))`, a handler's bad-request or not-found answer (`http.Error` with 400, `http.NotFound` with 404) reaches the client's writer unchanged, and its only log line is an access line with 400 or 404. |
| `Middleware.ReverseOrderLosesPanicLog` | internal/middleware/middleware.go:22-52 | Through `Recover(Logger(mux))` a panicking request still returns normally, but its log holds only the panic report. |
| `Pages.HandleIndex` | internal/handlers/pages.go:8-21 | The result is Not Found exactly when the path is not `/`. For `/` it renders page `index` with Title "Home" and Message "Welcome to Your Application", and no other data. |
| `Pages.HandleExamplePage` | internal/handlers/pages.go:24-31 | Whatever the request, it renders page `example` with Title "Example Page" and Description "This page demonstrates HTMX integration", and no other data. |

## Left out

- Concurrency: the store is shared by concurrent requests without a lock, so concurrent creates and deletes can race. The model runs requests one at a time and does not capture that hazard.
- Timestamps: `CreatedAt` and `UpdatedAt` come from the wall clock and are dropped from `Item`. So are the durations that Logger prints.
- Htmx.ExampleHandlers.HandleExampleItemCreate: the counter is a Go `int` (64 bits on 64-bit targets, 32 on 32-bit ones) and is modelled as an unbounded integer. Wrap-around would take 2^63 - 4 (or 2^31 - 4) successful creates in one process.
- Template parsing and execution (`internal/handlers/handlers.go`) happen in the foreign `html/template` library. `render` and `renderPartial` appear only as their `Page` and `Fragment` outcomes. Their failure path (a logged error and a 500 response) is not modelled.
- Form parsing, `PathValue` and `strconv.Atoi` are foreign. They appear only through their parsed results: an optional form, and an optional integer id.
- `http.Error` is modelled by the two writer calls it makes: the status, then the message with a newline. Its header changes are not modelled, and neither is `http.Error`'s body format beyond that.
- Request routing (Go's `ServeMux` patterns), static file serving and `StripPrefix` in `cmd/web/main.go` are foreign library behaviour. So are the port and environment handling and `ListenAndServe`. Only the `Chain` call in `cmd/web/main.go` is modelled.
- Middleware.Perform: the inner handler is abstract. It is given as the sequence of writer calls it makes and then either a return or a panic. Headers, `Header()` and any other writer methods are not modelled.
- The stack trace from `debug.Stack` and the exact text of the log lines are not modelled. A panic report carries only the panic value.
- `internal/db/db.go` (the optional Postgres connection) is all I/O and is never queried, so it is not modelled. The browser scripts under `web/` and `tailwind.config.js` are not part of this model.
