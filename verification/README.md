# aiohttp_runserver: a Dafny model of its reload machinery

aiohttp_runserver is a development server for aiohttp applications. It runs
the application in a child process and restarts that process when a Python
file changes. It also runs an auxiliary server for the livereload.js
protocol, which tells connected browsers to reload when a static asset changes.
This project models the sequential logic behind that and proves properties of it:

- **File-watch handlers** (`aiohttp_runserver/watch.py`), in `Watch.dfy`.
  - `EventFilter` is the state `_BaseEventHandler` keeps: `_change_dt` and
    `_since_change`. Its `Dispatch` drops file moves from or to a JetBrains
    backup file, then applies the one-second debounce. `Admits` is the
    watcher's own filter that runs afterwards: it ignores directories, and it
    needs one of the event's paths to pass the patterns and the backup-glob
    ignore pattern. That filter ignores case. The debounce's own backup check
    does not. The clock is an integer
    number of microseconds supplied by the caller.
  - `CodeFileEventHandler` owns an abstract process slot. The slot records
    whether the process is alive, how many processes were spawned, how many
    were replaced while still running, and the log of spawn, interrupt, join
    and "already dead" actions. The pure functions `Start`, `Stop` and
    `Restart` specify the slot.
  - `StaticFileEventHandler` passes the changed path on to the auxiliary app.
  - The traces lemmas run the debounce (`Step`) over a sequence of timed
    events (`Run`).
- **Auxiliary live-reload server** (`aiohttp_runserver/serve.py`), in `Serve.dfy`.
  - `AuxiliaryApp` holds the session registry (`app[WS]`), the cached
    livereload.js bytes and `wire`, the ordered record of every send and
    close on a session transport.
  - `StaticReload`, `ReceiveFrame` and `RunSession` are specified by the pure
    functions `StaticReloadEffect`, `HandleFrame` and `RunFrames`.
  - `Connect`, `Disconnect` and `ServeScript` state their new registry and
    cache directly; `Disconnect` does so through `RemoveFirst` (`list.remove`).
  - Pure parts: the handshake and reload messages, the snippet injected by
    `on_prepare`, the directory-to-`index.html` rewrite and log-status
    choice of `CustomStaticRoute.handle`, and `_fmt_size`.
- **`import_string`** (`aiohttp_runserver/common.py`), in `Common.dfy`. It
  splits at the last dot, looks the module up in a given table, fetches the
  attribute, and returns the parent directory of the module's absolute file
  path.
- **Supporting modules** model the parts of Python's standard library that
  watch.py, serve.py and common.py rely on:
  - `Glob.dfy`: `fnmatch` for `*` and `?`.
  - `Paths.dfy`: the POSIX `pathlib` operations `Path(s)`, `str`,
    `joinpath`, `relative_to`, `parent` and `absolute`.
  - `Json.dfy`: decoded JSON, plus dict subscripting and `in` with the
    exceptions they raise.
  - `Text.dfy`: substring tests, `rfind`, `%d` formatting and ASCII
    `lower`.
  - `Wrappers.dfy`: `Option` and `Result`.

Behaviour of the code worth knowing:

- **No change counter.** The debounce keeps no change counter, and it does
  not single out a "startup" event.
- **The window starts at construction.** `_change_dt` is set when the
  handler is constructed. So every event within one second of construction
  is suppressed.
- **Reload paths have no URL prefix.** A reload message carries `str()` of
  the path relative to the static root. There is no leading slash and no
  URL prefix: `css/style.css`, not `/static/css/style.css`.
- **Fan-out stops at the first failure.** `static_reload` does not catch
  errors. Every session before the first failing transport is sent its
  message (`ReloadReachesSessionsBeforeBroken`). The send that raises ends
  the fan-out, so the sessions after it get nothing
  (`ReloadStopsAtBrokenSession`).
- **Disconnect is not idempotent.** `list.remove` raises `ValueError` when
  the session is not registered (`Disconnect`). A frame that raises inside
  the loop skips the removal, so the session stays registered (`RunSession`).
- **No serialisation or escalation around restarts.** Restarts are not
  serialised and there is no forced kill. A process that outlives the
  5-second join stays running after its replacement starts; the model counts
  these as `stale`.
- **Only file moves are dropped early.** The backup-move check applies to
  `FileMovedEvent` only. A directory move, whatever its names, is timed like
  any other event, and only then discarded as a directory.
- **Backup files still restart the window.** A created, modified or deleted
  backup file passes the debounce, and resets `_change_dt` when forwarded.
  Only the ignore pattern then keeps it away from `on_any_event`.
- **Two backup checks, two case rules.** `dispatch` tests moves with
  `fnmatch`, which on POSIX is case-sensitive. The watcher's ignore
  patterns are matched against the lower-cased path, because the handler
  does not pass `case_sensitive` and watchdog defaults to ignoring case.
  A file move between `...___JB_TMP___`
  names is therefore timed and restarts the window. It still never
  reaches `on_any_event` (`UpperCaseBackupMoveTimedNotDispatched`).
- **A protocol mismatch does not end the loop.** `ws.close()` is recorded
  as a `Close` on the wire, and the frame loop carries on: the code does not
  break out of it.

## Model

| member | source | states |
|---|---|---|
| `Glob.JbBackupSuffix` | aiohttp_runserver/watch.py:14 | a path matches `*___jb_???___` exactly when it ends in `___jb_`, three arbitrary characters and `___`; what precedes (directories included) is irrelevant |
| `Watch.EventFilter.constructor` | aiohttp_runserver/watch.py:29-34 | a new handler's `_change_dt` is its construction time and `_since_change` is unset |
| `Watch.EventFilter.Dispatch` | aiohttp_runserver/watch.py:36-46 | the new `_change_dt`/`_since_change` and the forwarding decision are those of one debounce step |
| `Watch.IsBackupMove` | aiohttp_runserver/watch.py:37-38 | the early drop applies exactly to a file move (not a directory move) whose source or destination ends in `___jb_`, three characters and `___`, matched case-sensitively; partners `BackupMoveIgnored`, `DirectoryMoveTimed`, `UpperCaseBackupMoveTimedNotDispatched` |
| `Watch.PathPasses` | aiohttp_runserver/watch.py:17-27 | a path passes exactly when the include and other ignore patterns accept it and its last twelve characters, lower-cased, are not `___jb_`, three characters and `___`; partners `BackupFileChangeTimedNotDispatched`, `UpperCaseBackupMoveTimedNotDispatched` |
| `Watch.Admits` | aiohttp_runserver/watch.py:17-27 | a directory event is never admitted; a file event is admitted exactly when one of its paths (a move's destination, then its source) passes; partners `DirectoryMoveTimed`, `BackupFileChangeTimedNotDispatched`, `UpperCaseBackupMoveTimedNotDispatched` |
| `Watch.Step` | aiohttp_runserver/watch.py:36-46 | `_change_dt` moves only to the time of a forwarded event, and a backup file move is never forwarded; partners `BackupMoveIgnored`, `WithinWindowSuppressed`, `PastWindowForwarded` |
| `Watch.Run` | aiohttp_runserver/watch.py:36-46 | a sequence of events forwards at most as many events as it holds; partners `ForwardedSpacing`, `FinalChangeTime`, `ForwardedAreFromTrace` |
| `Watch.BackupMoveIgnored` | aiohttp_runserver/watch.py:37-39 | a file move from or to a backup file is dropped before any timing: neither `_change_dt` nor `_since_change` changes |
| `Watch.DirectoryMoveTimed` | aiohttp_runserver/watch.py:37-46 | a directory move is never dropped as a backup move: it sets `_since_change` and is forwarded exactly when past the window, and the watcher's filter then discards it |
| `Watch.BackupFileChangeTimedNotDispatched` | aiohttp_runserver/watch.py:26-46 | a created, modified or deleted backup file goes through the debounce (setting `_since_change`), but the backup ignore pattern keeps it from `on_any_event` |
| `Watch.UpperCaseBackupMoveTimedNotDispatched` | aiohttp_runserver/watch.py:17-46 | a file move between backup names spelled in upper case passes the case-sensitive early check, so it sets `_since_change` and is forwarded exactly past the window; the case-insensitive ignore pattern still rejects it |
| `Watch.WithinWindowSuppressed` | aiohttp_runserver/watch.py:40-44 | an event at most 1 s after `_change_dt` is not forwarded; `_change_dt` stays, `_since_change` becomes the elapsed time |
| `Watch.PastWindowForwarded` | aiohttp_runserver/watch.py:45-46 | an event more than 1 s after `_change_dt` is forwarded and `_change_dt` becomes its time |
| `Watch.ForwardedSpacing` | aiohttp_runserver/watch.py:40-46 | over any sequence of events, every forwarded event is more than 1 s after the initial `_change_dt` (construction time), and any two forwarded events are more than 1 s apart, whatever the clock does |
| `Watch.FinalChangeTime` | aiohttp_runserver/watch.py:45 | after a sequence of events `_change_dt` is the time of the last forwarded event, or its initial value if none was forwarded |
| `Watch.ForwardedAreFromTrace` | aiohttp_runserver/watch.py:36-46 | only events of the sequence are forwarded, and never a file move from or to a backup file (directory moves can be) |
| `Watch.BackupMovesInvisible` | aiohttp_runserver/watch.py:37-39 | deleting all file moves from or to backup files from a sequence of events changes neither the forwarded events nor the final state |
| `Watch.SaveBurst` | aiohttp_runserver/watch.py:40-46 | writes 2.0, 2.1, 2.2, 2.3 and 3.5 s after construction forward exactly the first and the last |
| `Watch.Start` | aiohttp_runserver/watch.py:61-63 | starting spawns one live process and logs a spawn |
| `Watch.Stop` | aiohttp_runserver/watch.py:65-70 | a live process gets SIGINT and a 5 s join; a dead one is only reported, never signalled; spawn counts are untouched |
| `Watch.Restart` | aiohttp_runserver/watch.py:56-59 | a restart leaves a live process, one more spawn, the old log extended and ending in a spawn, and never fewer stale processes; partners `RestartLive`, `RestartDead` |
| `Watch.RestartLive` | aiohttp_runserver/watch.py:56-70 | restarting a live process logs interrupt, join, spawn; it adds one spawn, and one stale process exactly when the join timed out |
| `Watch.RestartDead` | aiohttp_runserver/watch.py:56-70 | restarting a dead process sends no signal: it reports the dead process and spawns one |
| `Watch.SupervisorCounts` | aiohttp_runserver/watch.py:52-63 | each restart raises the spawn count by exactly one; stale processes come only from joins that timed out |
| `Watch.NoStaleWhenJoinsSucceed` | aiohttp_runserver/watch.py:56-70 | over any events in which every restart of a live process sees it exit within the join, the count of processes left running does not grow |
| `Watch.OneProcessWhenJoinsSucceed` | aiohttp_runserver/watch.py:52-70 | from construction (one spawn), if every restart of a live process sees it exit within the join (restarting a dead process needs no join), no process is ever left running beside the current one and spawns are 1 + restarts |
| `Watch.CodeFileEventHandler.constructor` | aiohttp_runserver/watch.py:52-54 | construction sets the debounce clock and starts exactly one process |
| `Watch.CodeFileEventHandler.StartProcess` | aiohttp_runserver/watch.py:61-63 | the slot becomes `Start` of the old slot |
| `Watch.CodeFileEventHandler.StopProcess` | aiohttp_runserver/watch.py:65-70 | the slot becomes `Stop` of the old slot |
| `Watch.CodeFileEventHandler.OnAnyEvent` | aiohttp_runserver/watch.py:56-59 | the slot becomes `Restart` (stop then start) of the old slot |
| `Watch.CodeFileEventHandler.ProcessEnded` | aiohttp_runserver/watch.py:66 | the process dying on its own only clears the alive flag that `is_alive` reports |
| `Watch.CodeFileEventHandler.Dispatch` | aiohttp_runserver/watch.py:36-59 | the debounce advances (through `Step`, so directory moves and backup-file changes are timed) even when the watcher's filter then rejects the event; the process restarts exactly when the event is forwarded and `Admits` accepts it |
| `Watch.StaticFileEventHandler.constructor` | aiohttp_runserver/watch.py:29-34 | a new static handler's debounce clock is its construction time |
| `Watch.StaticFileEventHandler.Dispatch` | aiohttp_runserver/watch.py:73-75 | a forwarded, accepted event calls `static_reload` with its source path, whose outcome and messages are returned and sent; otherwise nothing is sent |
| `Serve.ReloadFanout` | aiohttp_runserver/serve.py:99-106 | one reload message per session, in registry order, each with `liveCSS` and `liveImg` true |
| `Serve.StaticReloadEffect` | aiohttp_runserver/serve.py:91-106 | success exactly when the path is under the static root and no registered transport fails; for a path under the root, exactly the sessions before the first failing transport (`FirstBroken`) are sent the reload message for the root-relative path, in registry order, and a failure names the first session not sent to |
| `Serve.ReloadOutsideRoot` | aiohttp_runserver/serve.py:93-97 | a path outside the static root fails even when no client is connected, and nothing is sent |
| `Serve.ReloadNoSessions` | aiohttp_runserver/serve.py:95-97 | with an empty registry nothing is sent |
| `Serve.ReloadReachesSessionsBeforeBroken` | aiohttp_runserver/serve.py:99-106 | when the session at position j is the first whose send raises, the call fails naming it, and each of the j sessions before it has received its reload message, in registry order |
| `Serve.ReloadReachesEverySession` | aiohttp_runserver/serve.py:99-106 | when no send fails, each of the N sessions receives exactly one reload message for the root-relative path, in registry order |
| `Serve.ReloadStopsAtBrokenSession` | aiohttp_runserver/serve.py:99-106 | a send that raises ends the call with an error; sessions after it receive nothing |
| `Serve.AuxiliaryApp.constructor` | aiohttp_runserver/serve.py:109-113 | the registry starts empty, nothing is cached or sent |
| `Serve.AuxiliaryApp.StaticReload` | aiohttp_runserver/serve.py:91-106 | the result and the messages appended to the wire are exactly those of `StaticReloadEffect` |
| `Serve.AuxiliaryApp.Connect` | aiohttp_runserver/serve.py:134 | the session is appended to the registry |
| `Serve.AuxiliaryApp.Disconnect` | aiohttp_runserver/serve.py:171 | the first occurrence of the session is removed; an unregistered session raises ValueError and changes nothing |
| `Serve.AuxiliaryApp.ReceiveFrame` | aiohttp_runserver/serve.py:138-167 | the wire gains the frame's reply or close, and an exception is reported |
| `Serve.AuxiliaryApp.RunSession` | aiohttp_runserver/serve.py:131-173 | the session is registered, its frames handled in order until one raises; after a normal end the registry has the session removed again, after an exception it stays |
| `Serve.AuxiliaryApp.ServeScript` | aiohttp_runserver/serve.py:120-128 | the script is read only when not cached; a successful read is cached and served, later calls serve the cached bytes unchanged; a failed read caches nothing |
| `Serve.HandleCommand` | aiohttp_runserver/serve.py:145-163 | a non-dict raises TypeError; the only reply is the handshake, and replies and closes need `command` to be `hello`; the exceptions are TypeError or KeyError for `command`, `protocols`, `url` or `plugins` |
| `Serve.HandleFrame` | aiohttp_runserver/serve.py:138-167 | only a decoded text frame can reply, close or raise; the only reply is the handshake, and replies and closes answer `hello` commands |
| `Serve.HelloNegotiation` | aiohttp_runserver/serve.py:146-158 | a `hello` whose protocol list contains official-7 gets exactly the fixed handshake (that single protocol, server name `livereload-aiohttp`); otherwise the session is closed and nothing is sent |
| `Serve.MissingCommandRaises` | aiohttp_runserver/serve.py:145 | a decoded dict without `command` raises KeyError |
| `Serve.SilentFrames` | aiohttp_runserver/serve.py:140-167 | `info` with `url` and `plugins`, unknown commands, undecodable text, error and other frames get no reply and no close |
| `Serve.SessionOnlyHandshakes` | aiohttp_runserver/serve.py:138-167 | over a whole session, the transport carries only handshakes and close requests for that session |
| `Serve.RunFrames` | aiohttp_runserver/serve.py:138-167 | the frames are handled in order until one raises; each puts at most one item on the transport, and the exception that ends a run is one a frame raised; partners `SessionEndsNormally`, `RunFramesStops`, `SessionOnlyHandshakes` |
| `Serve.SessionEndsNormally` | aiohttp_runserver/serve.py:138-171 | the frame loop ends normally (and reaches the removal) exactly when no frame raises |
| `Serve.RunFramesStops` | aiohttp_runserver/serve.py:138-145 | frames after one that raised have no effect |
| `Serve.FirstIndex` | aiohttp_runserver/serve.py:171 | the position of the session's first occurrence: it holds the session and nothing before it does |
| `Serve.RemoveFirst` | aiohttp_runserver/serve.py:171 | `list.remove` drops the first occurrence and keeps every other session in order; the multiset loses exactly that session |
| `Serve.RemoveLastAdded` | aiohttp_runserver/serve.py:134-171 | appending a session that was not registered and removing it restores the registry |
| `Serve.LiveReloadSnippet` | aiohttp_runserver/serve.py:47-56 | the snippet is the fixed script-tag head and tail with the port between them; partner `SnippetNamesPort` |
| `Serve.SnippetNamesPort` | aiohttp_runserver/serve.py:47-56 | the snippet is the fixed script tag whose URL names the auxiliary port, in decimal |
| `Serve.OnPrepare` | aiohttp_runserver/serve.py:56-60 | a response whose content type contains `text/html` gets the snippet for the configured auxiliary port, `LiveReloadSnippet(auxPort)`, appended to its body; any other is unchanged |
| `Serve.IndexRewrite` | aiohttp_runserver/serve.py:182-189 | a name that does not resolve to a directory is passed on unchanged; the only failure is a directory whose `index.html` is outside the root; partner `DirectoryServesIndex` |
| `Serve.DirectoryServesIndex` | aiohttp_runserver/serve.py:187-189 | a request resolving to a directory under the root is served as that directory's `index.html`, relative to the root |
| `Serve.LogLine` | aiohttp_runserver/serve.py:190-204 | the access line keeps the status, is at info level exactly for 200 and 304 (a warning for any other code and for `unknown`), and has an empty size exactly when the length is blank; partner `HandleStatic` |
| `Serve.HandleStatic` | aiohttp_runserver/serve.py:181-205 | the generic handler gets the rewritten name. A served file is returned and logged with its status and size. A 304 is re-raised after an info line with `304 0B`. A 404 becomes a 16-byte 404 response, with a warning `404 16B`. Any other HTTP error is re-raised after a warning with `unknown` and no size. Logs are warnings exactly when the status is neither 200 nor 304. A directory index outside the root raises before anything is logged |
| `Serve.KilobyteTenths` | aiohttp_runserver/serve.py:221 | the tenths of a kilobyte shown are within half a tenth of the size |
| `Serve.FmtSize` | aiohttp_runserver/serve.py:215-221 | a blank size renders as `''`, any number ends in `B`; partners `FmtSizeBytes`, `FmtSizeKilobytes` |
| `Serve.FmtSizeBytes` | aiohttp_runserver/serve.py:215-219 | only `''` renders as `''`; a size below 1024 renders as its decimal byte count followed by `B` |
| `Serve.FmtSizeKilobytes` | aiohttp_runserver/serve.py:220-221 | from 1024 on the label is `<whole>.<tenth>KB`, within half a tenth of the exact size |
| `Json.Index` | aiohttp_runserver/serve.py:145 | `data[key]` succeeds exactly on a dict holding the key, with the value `Lookup` gives; a dict without it raises KeyError, anything else TypeError |
| `Json.Lookup` | aiohttp_runserver/serve.py:145 | a decoded dict's value for a key: none exactly when the key is absent, otherwise the value of its last binding |
| `Json.In` | aiohttp_runserver/serve.py:147 | `x in data` is list membership, substring or key test by container type, and raises TypeError on null, booleans and numbers |
| `Paths.RelativeTo` | aiohttp_runserver/serve.py:94 | `relative_to` succeeds exactly when the root's parts are a prefix (same anchoring); the result is relative and joined back onto the root gives the path |
| `Paths.Parse` | aiohttp_runserver/serve.py:94 | `Path(s)` keeps only real components and is absolute exactly when `s` starts with `/`; partner `ParseRender` |
| `Paths.Render` | aiohttp_runserver/serve.py:102 | `str` of an absolute path starts with `/`, the empty relative path is `.`; partner `ParseRender` |
| `Paths.Joinpath` | aiohttp_runserver/serve.py:189 | joining well-formed paths gives a well-formed path; partner `RelativeTo` |
| `Paths.Parent` | aiohttp_runserver/common.py:27 | `.parent` with the last component joined back gives the path; the root is its own parent |
| `Paths.Absolute` | aiohttp_runserver/common.py:27 | an absolute path stays; a relative one is put under the working directory |
| `Paths.ParseRender` | aiohttp_runserver/serve.py:102 | `str` of a path parses back to the same path, so the reload message identifies the file |
| `Text.Decimal` | aiohttp_runserver/serve.py:56 | `%d` renders an integer as its decimal digits without leading zeros (`0` for zero), with a leading `-` for negatives |
| `Text.Contains` | aiohttp_runserver/serve.py:59 | `sub in s` holds exactly when `sub` occurs in `s` at some index |
| `Text.LastIndexOf` | aiohttp_runserver/common.py:16 | `rfind`: none exactly when the character is absent, otherwise an index holding it with none after it |
| `Glob.JbBackupAnyCase` | aiohttp_runserver/watch.py:14-27 | the lower-cased path matches the backup glob exactly when its last twelve characters, lower-cased, are `___jb_`, three arbitrary characters and `___` |
| `Glob.LowerKeepsBackup` | aiohttp_runserver/watch.py:14-27 | every path the case-sensitive backup test catches is also caught once lower-cased |
| `Glob.UpperCaseBackup` | aiohttp_runserver/watch.py:14-38 | a path ending in `___JB_` + three characters + `___` fails the case-sensitive `fnmatch` but matches once lower-cased |
| `Glob.LeadingStar` | aiohttp_runserver/watch.py:38 | a leading `*` in an fnmatch pattern matches exactly when the rest matches some suffix |
| `Glob.StarFreeMatches` | aiohttp_runserver/watch.py:38 | a pattern without `*` matches exactly the names of its length whose characters it accepts one by one (`?` any) |
| `Common.SplitDotted` | aiohttp_runserver/common.py:15-18 | no `.` gives the failure; otherwise the class name has no `.` and module path + `.` + class name is the input |
| `Common.SplitJoin` | aiohttp_runserver/common.py:16 | splitting `m + "." + c`, with no `.` in `c`, gives back `m` and `c`: the split is at the last dot |
| `Common.ImportString` | aiohttp_runserver/common.py:15-28 | no dot fails with `NotAModulePath` (the "doesn't look like a module path" ImportError); otherwise the module is imported, a missing attribute fails with ImportError, and success returns the attribute and the parent of the module's absolute file path |
| `Common.Message` | aiohttp_runserver/common.py:17-25 | the "doesn't look like a module path" message starts with the rejected path; the missing-attribute message quotes the module path and, after it, the missing name |
| `Common.FailureMessageNamesInput` | aiohttp_runserver/common.py:15-25 | when `import_string` raises one of its own ImportErrors, the message names the dotted path, or quotes both of its halves |
| `Common.DirectoryHoldsModuleFile` | aiohttp_runserver/common.py:27 | the returned directory joined with the file's name is the module's absolute file path |

## Left out

- Wall-clock time: `datetime.now()` becomes a caller-supplied count of microseconds. That matches the clock's resolution, and `<= 1` second is `<= 1_000_000`.
- The watchdog observer thread and its scheduling are not modelled. `PatternMatchingEventHandler`'s include and ignore patterns, apart from the backup glob, are an abstract per-path verdict (`EventFilter.patterns`). The backup glob, `ignore_directories` and "any path passes" are concrete (`Admits`).
- The process itself: `multiprocessing.Process`, `os.kill` and `join`. They become an alive flag that the environment can clear (`ProcessEnded`) and a caller-supplied answer to "did it exit within the join". A failure to spawn is not modelled.
- The aiohttp transport: websocket preparation, and whether `ws.close()` actually closes. Frames arrive already classified, with `json.loads` as parsed-or-failed. Whether a send raises is a caller-supplied set of broken sessions.
- Concurrency: handlers run one at a time. `RunSession` covers a session with no other activity interleaved. `Connect`, `ReceiveFrame`, `Disconnect` and `StaticReload` can be interleaved by a caller.
- JSON numbers are abstract integers. Outgoing messages are JSON values, not their `json.dumps` text.
- Logging (`DevLogHandler`, `logger` calls) is not modelled, with two exceptions. The static route's access log keeps its level, status and size. The "process already dead" message of `stop_process` is kept as the `ReportDead` action.
- Bytes of HTTP bodies are modelled as characters.
- `serve_main_app`, `modify_main_app`'s route registration and `main.py`: these are server start-up and command-line wiring.
- `setup.py`: downloading livereload.js is packaging.
- `_get_asset_content`: `_asset_path` is always `None` in the code, so the 404 body is always the fixed 16-byte text.
- `Serve.FmtSizeKilobytes`: exact only for sizes below 2^53 bytes. Beyond that, Python's float division rounds before formatting.
- `Glob.JbBackupSuffix`: `fnmatch` character classes (`[...]`) are not modelled, because no pattern in watch.py uses them. On POSIX, `fnmatch` does no case folding; that holds for `dispatch`'s own check (watch.py:38), not for the watcher's ignore patterns (see `Watch.PathPasses`).
- Case folding beyond ASCII: only ASCII letters are lower-cased (`Text.Lower`). Python's `str.lower` also maps other letters, some to two characters; names in the model are taken to be ASCII where their case matters.
- `Paths.Parse`: the POSIX special case of a path starting with exactly two slashes is not modelled. `resolve()` and the file system are caller-supplied (`Resolved`).
- `Common.ImportString`: the import is a lookup in a given module table. Which exception a failed `import_module` raises, and its message, are not modelled.
