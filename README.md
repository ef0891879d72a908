# badserv, modelled in Dafny

badserv is a deliberately misbehaving HTTP server for testing HTTP clients. A client
chooses the misbehaviour with the `action` query parameter:

- empty or absent: serve a fixed limerick;
- `hang`: wait until the client goes away;
- `close`: drop the connection without a response;
- `slow-write`: send a hand-written HTTP/1.1 response one byte at a time, 100 ms per byte.

Anything else gets 400. Each request takes an id from a per-service counter and each
accepted connection takes one from a second counter. A log decorator stamps both ids
on every log record made in that context.

This project models the handler (`main.go`) and the log decorator (`log.go`):

- `BadServ` (badserv.dfy): the dispatcher `service.ServeHTTP`, `slowWrite` with its
  write loop, `writeStrs`, `closeConn` and the `ConnContext` hook.
- `Slog` (slog.dfy): `slogMeta.Handle`, plus the record and handler it acts on.
- `Atomic` (atomic.dfy): Go's `int64` with two's-complement wrap-around, and the
  `atomic.Int64` counter, taken one call at a time.
- `Context` (context.dfy): `context.WithValue` chains, and the comma-ok lookup
  `ctx.Value(k).(int64)`.
- `NetHttp` (nethttp.dfy): the collaborators from net/http, seen only through their
  effects.
  - The client connection keeps a log of events: sleeps, bytes put into the buffered
    writer or refused by it, socket writes that succeed or fail, and the close. Its socket
    writes fail from some index on, as when the client goes away.
  - The buffered writer that `Hijack` returns (`bufio.Writer`) holds written bytes until
    a flush sends them. After a failed flush it keeps the error and refuses every later
    write and flush.
  - The ResponseWriter records its replies (`http.Error`, `http.ServeContent`) and
    supports `Hijack`.
- `Http1` (http1.dfy) and `Decimal` (decimal.dfy): a client-side reader for HTTP/1.1
  responses and `strconv.Itoa` with its inverse. The slow-write bytes are checked
  against these:
  - framing per section 2.1 of RFC 9112;
  - status line per section 4 of RFC 9112;
  - field lines per section 5 of RFC 9112;
  - `Content-Length` per section 8.6 of RFC 9110.

`ServeHTTP` is proved against the pure function `Serve`, whose contract is the
decision table. The slow-write method is proved against
`SlowWriteEvents(SlowResponse(host), budget)`, an event function.
`SlowResponse(host)` is the byte string written to the buffer: the eight `writeStrs`
pieces, then the limerick.

Behaviours of the code worth noting:

- `slowWrite` sleeps before every byte, the first one included.
- `slowWrite` ignores the result of each flush, so it sees a lost byte one round late.
  When the socket refuses byte j, the next write returns the stored error, and the
  reported error is at byte j+1. The client has exactly the bytes before j. When only the
  last byte's socket write fails, `slowWrite` reports success with that byte undelivered.
- `slogMeta.Handle` appends `request_id` before `conn_id`.
- `slowWrite` logs with `req.Context()` (main.go:139, 142, 151), not with the context
  `ServeHTTP` built. Its log records carry `conn_id` but no `request_id`.
- If a write fails mid-stream in slow-write, `ServeHTTP` calls `http.Error` on a writer
  that is already hijacked. net/http refuses that write, so the client receives the
  prefix already sent and no 500 reply. A hijack failure does produce a 500 reply.

## Model

| member | source | states |
|---|---|---|
| Atomic.WrapAdd | main.go:94 | int64 addition: the true sum when it fits, otherwise congruent to it modulo 2^64 and in range |
| Atomic.AtomicInt64.constructor | main.go:89-91 | a counter starts at its zero value 0 |
| Atomic.AtomicInt64.Add | main.go:94 | `Add(d)` stores the wrapped sum and returns the new value |
| Atomic.IssuedCounts | main.go:94 | the n-th `Add(1)` on a fresh counter returns n, for every n up to 2^63-1 |
| Atomic.IssuedIncreasing | main.go:68 | ids issued by one counter strictly increase within the int64 range, so none repeats |
| Atomic.IssuedWraps | main.go:94 | the id after 2^63-1 wraps to -2^63 |
| Context.Value | log.go:17 | `ctx.Value(k)` is nil exactly when no layer binds k. The outermost layer's value is the answer when that layer binds k; otherwise the lookup goes on in its parent |
| Context.ValueThroughLayers | log.go:17 | layers that do not bind k leave the value of k what it is underneath them |
| Context.Int64At | log.go:17-22 | the comma-ok int64 assertion succeeds exactly when the bound value has dynamic type int64, and yields that value |
| Decimal.Itoa | main.go:157 | `strconv.Itoa` of a non-negative int: non-empty digits, no leading zero |
| Decimal.ParseItoa | main.go:157 | a client parsing the `Itoa` spelling gets the number back |
| Decimal.ItoaParse | main.go:157 | every canonical digit string is the `Itoa` spelling of its value |
| Http1.ParseFieldsRoundTrip | main.go:155-158 | well-formed fields written as `name: value` CRLF lines are read back in order |
| Http1.ParseStatusLineRoundTrip | main.go:155 | a well-formed status line is read back as its version, code and reason |
| Http1.ParseResponseRoundTrip | main.go:153-160 | status line, field lines, empty line and body are read back as that message, with the body intact |
| NetHttp.SentAppend | main.go:162-169 | what the client receives from two logs in sequence is the two deliveries concatenated |
| NetHttp.SentNoWrites | main.go:149 | a log with no successful socket write delivers nothing |
| NetHttp.Conn.constructor | main.go:144 | a connection starts with no socket writes and an empty event log |
| NetHttp.Conn.Budget | main.go:168 | the remaining budget is None exactly when no socket write will fail; otherwise it is how many socket writes are still accepted |
| NetHttp.Conn.Write | main.go:168 | a socket write succeeds as the failure index allows, counts as one more write, and logs its bytes as transmitted or failed |
| NetHttp.Conn.Close | main.go:149 | closing is logged |
| NetHttp.Conn.Sleep | main.go:163 | each `time.Sleep` is logged with its duration |
| NetHttp.BufWriter.constructor | main.go:144 | the writer over the hijacked connection starts empty and without an error |
| NetHttp.BufWriter.Write | main.go:164-167 | a write buffers its byte and succeeds, unless an earlier flush failed: then it returns that error and buffers nothing |
| NetHttp.BufWriter.Flush | main.go:168 | a flush returns the stored error if there is one, succeeds at once on an empty buffer, and otherwise makes one socket write of the whole buffer. On success the buffer is emptied; on failure it is kept and the error stored |
| NetHttp.HijackResult | main.go:144-147 | Hijack fails on an already hijacked writer; otherwise it fails exactly when the writer cannot be hijacked |
| NetHttp.ResponseWriter.constructor | main.go:93 | net/http hands the handler a writer with no replies that is not hijacked |
| NetHttp.ResponseWriter.Hijack | main.go:144-147 | returns the hijack outcome. On success the writer is hijacked and the handler gets a new, empty buffered writer over the connection; on failure it gets none |
| NetHttp.ResponseWriter.Error | main.go:99 | `http.Error` adds a status and message reply, and nothing once the writer is hijacked |
| NetHttp.ResponseWriter.ServeContent | main.go:118 | `http.ServeContent` adds the named document, and nothing once the writer is hijacked |
| NetHttp.StringBuffer.constructor | main.go:153 | a new buffer is empty |
| NetHttp.StringBuffer.WriteString | main.go:160 | `WriteString` appends its argument |
| BadServ.ConcatAppend | main.go:174-178 | joining two lists of strings is joining their joins |
| BadServ.WriteStrs | main.go:174-178 | `writeStrs` appends its arguments in order: the buffer ends as its old contents plus their concatenation |
| BadServ.BuildSlowResponse | main.go:153-160 | the buffer `slowWrite` fills holds exactly `SlowResponse(host)`: the eight header pieces, then the limerick |
| BadServ.LimerickLength | main.go:21-26 | the document is 152 bytes, so Content-Length reads "152" |
| BadServ.HeaderBlockText | main.go:154-159 | the header block is exactly `HTTP/1.1 200 OK` CRLF, `Host: ` host CRLF, `Content-Length: 152` CRLF, `Content-Type: text/plain` CRLF CRLF |
| BadServ.SlowResponseFraming | main.go:153-160 | the response is the status line, CRLF, three field lines (Host, Content-Length, Content-Type), an empty line, then the limerick |
| BadServ.StatusLineText | main.go:155 | `HTTP/1.1 200 OK` is a well-formed status line |
| BadServ.SlowFieldsWellFormed | main.go:156-158 | for any host without control bytes, spaces or DEL, each of the three fields fits on a field line |
| BadServ.SlowResponseParses | main.go:153-160 | for any host without control bytes, spaces or DEL, a client reads status 200 OK, the three fields in order, and the limerick as body |
| BadServ.NonAsciiHostParses | main.go:156 | a Host with bytes of 0x80 and above, such as UTF-8 `ä`, still yields a parseable slow response |
| BadServ.DeclaredLengthIsBodyLength | main.go:157 | the declared Content-Length equals the length of the body after the header block |
| BadServ.Paced | main.go:162-169 | three events per byte when no flush fails |
| BadServ.PacedShape | main.go:162-169 | byte i is buffered in round i, after its 100 ms sleep, and that round's flush sends exactly byte i |
| BadServ.SentRound | main.go:162-169 | a round whose flush succeeds delivers exactly its byte |
| BadServ.SentPaced | main.go:162-169 | when no flush fails, the client receives the bytes in order, each exactly once |
| BadServ.Accepted | main.go:168 | the socket accepts fewer flushes than the response has bytes exactly when the budget is below the response length, and then as many as the budget |
| BadServ.LoopError | main.go:164-167 | a reported error index is never the first byte and always within the response |
| BadServ.SlowWriteDelivers | main.go:162-171 | the client receives the response up to the first byte whose flush failed, and all of it when no socket write fails |
| BadServ.SlowWriteReports | main.go:162-171 | an error reported at byte i means the client holds exactly the bytes before i-1. No error means the client holds a prefix of the response that lacks at most the last byte, and the converse |
| BadServ.LastByteLostSilently | main.go:162-171 | when only the last socket write fails, `slowWrite` reports no error and the client misses the last byte |
| BadServ.PaceByte | main.go:163-168 | one round: with a stored error, a sleep and the refused write; otherwise a sleep, the buffered byte and one socket write of the buffer, which succeeds as the connection allows |
| BadServ.PaceOut | main.go:162-169 | the loop logs the paced rounds up to the first failed flush, that round, and then the next byte's sleep and refused write. It makes one socket write per flushed byte, and returns the refused write's index, or None when no write is refused. The writer ends with the error stored and the unsent byte buffered exactly when a flush failed |
| BadServ.SlowWrite | main.go:138-172 | on a hijack failure: the error, with nothing slept, written or closed. Otherwise: the connection is hijacked, the write loop over `SlowResponse(host)` runs, the deferred close follows, and a refused write gives an error carrying its index |
| BadServ.CloseConn | main.go:180-190 | on a hijack failure: the error, with the connection untouched. Otherwise: nil, and the hijacked connection is closed with no socket write |
| BadServ.DefaultServing | main.go:113-118 | without a dump failure, the limerick is served exactly when `action` is absent, has no value, or its first value is empty |
| BadServ.FirstActionCounts | main.go:113 | only the first `action` value selects the branch |
| BadServ.Route | main.go:96-135 | a dump failure overrides the action. Otherwise "", hang, close and slow-write each select their branch, and any other value is unknown (each as an if-and-only-if) |
| BadServ.Serve | main.go:93-136 | the decision table. Dump failure: 400 `bad request: ` plus the cause, no hijack. "": the limerick. hang: nothing written. close: closed with nothing sent, or 500 when the hijack fails. slow-write: a prefix of the slow response on the wire, with the loop's socket writes, or 500 when the hijack fails. Other values: 400 `unknown action`. The writer is hijacked exactly for a close or slow-write whose hijack succeeds, and then no reply goes through it |
| BadServ.Service.constructor | main.go:89-91 | a new service's request counter is 0 |
| BadServ.Service.ServeHTTP | main.go:93-136 | the counter is incremented once, and the returned context binds the new request id over the request's context. The writer's replies, hijack state, connection log and socket-write count change exactly as `Serve` says |
| BadServ.ConnContextHook.constructor | main.go:61 | the connection counter starts at 0 |
| BadServ.ConnContextHook.ConnContext | main.go:67-71 | the counter is incremented once, and the connection's context binds the new connection id over its parent |
| BadServ.ServeAll | main.go:89-94 | one service serving requests in turn binds the i-th request's context to id `Issued(i+1)`, which is i+1 within the int64 range |
| BadServ.AcceptAll | main.go:61-71 | the hook run once per accepted connection binds the i-th connection's context to id `Issued(i+1)`, which is i+1 within the int64 range |
| Slog.WithIds | log.go:16-25 | message and level unchanged; the original attributes kept as a prefix; at most two attributes added: `request_id` when the context holds an int64 request id, with that value, then `conn_id` likewise |
| Slog.WithIdsAppends | log.go:17-25 | decorating appends exactly the id attributes the context supplies, after the record's own |
| Slog.IdsFound | log.go:17-25 | for a record without such keys, `request_id` (resp. `conn_id`) is present after `Handle` exactly when the context holds an int64 under its key, and carries that value. A value of another type adds nothing |
| Slog.RequestRecordIds | log.go:17-25 | in a request's context (the connection id, then any layers that do not bind the connection-id key, then the request id on top), a record ends with `request_id` then `conn_id`, carrying both ids |
| Slog.Handler.Handle | log.go:27 | the wrapped handler receives the context and record and returns its own answer for them |
| Slog.SlogMeta.Handle | log.go:16-28 | forwards the record extended by `WithIds`, with the same context, to the wrapped handler exactly once, and returns the wrapped handler's answer for that context and extended record |

The two counters are separate objects: `ServeHTTP` may modify only the request counter,
and `ConnContext` only the connection counter, so neither sequence affects the other. On a
fresh counter, `Issued(n)` is the value after n sequential calls, because each call applies
`WrapAdd(_, 1)`. `ServeAll` and `AcceptAll` drive each counter through a sequence of
requests or connections and carry that fact as a loop invariant.

## Left out

- `main`: flag parsing, logger setup, `ListenAndServe` and shutdown-error handling (main.go:28-87). This is process plumbing.
- The `hang` branch's wait on `ctx.Done()`: it is a cancellation wait. The model states only that the branch writes nothing.
- Logging calls inside `ServeHTTP`, `slowWrite` and `closeConn`, and slog's text formatting: output side effects with no logic.
- The request-dump printout (`writeStrs` into a `strings.Builder`, then `fmt.Println`): output only. `WriteStrs` itself is modelled. `httputil.DumpRequest` appears only as its outcome, an optional error message.
- Library internals: `http.ServeContent` (conditional requests, ranges, headers, and the `time.Now()` modification time), `http.Error`'s headers, and `ResponseController.Hijack`. Each is an opaque outcome: a reply, or a hijack success or failure with a cause.
- Wall-clock timing: each `time.Sleep(100ms)` is a logged `Slept(100)` event, not elapsed time.
- Buffered writing: the 4096-byte capacity of the hijacked `bufio.Writer` is not modelled, so a `Write` never flushes on its own. The write loop never holds more than one byte. A socket write that fails after delivering part of its bytes is taken to deliver none; for the one-byte writes of the loop the two are the same. The read half of the `bufio.ReadWriter` is unused.
- Bytes as characters: a Dafny `char` stands for one byte, so a Host byte of 0x80 or above is the `char` with that code. The limerick and the header pieces are ASCII, and `len` counts bytes, so `Content-Length` agrees with the model's lengths.
- Concurrency: the atomicity of `atomic.Int64`, and requests served in parallel. The counters are modelled one call at a time.
- The wrapped slog handler's other methods (`Enabled`, `WithAttrs`, `WithGroup`), which `slogMeta` inherits unchanged by embedding.
- Record time, level semantics and source position, and `Record.Add` with key/value pairs other than one string key and an int64 value: `Handle` uses only that form.
- BadServ.SlowResponseParses: states the parse for a Host with no control byte, no space and no DEL (`ValidHost`), which is what the handler can receive. net/http's Host header check and its parsing of absolute-form request targets, which guarantee this, are not part of this model.
- Http1: header names are matched case-insensitively for `Content-Length`, by ASCII lower-casing. Obsolete line folding, and reading the body by length, are not modelled; the body is the rest of the bytes.
- Atomic.IssuedCounts: states the 1, 2, 3, ... sequence only up to 2^63-1 ids. The wrap-around after that is stated separately by `IssuedWraps`.
