# shitenno handler: the protocol adapters, modelled in Dafny

shitenno answers lookups from mail-infrastructure daemons by asking one HTTP
backend (`HTTPDB`). `src/handler.go` turns each client request into a backend
`Query` and turns the backend's answer into a reply. It does so for three wire
protocols:

- **Socketmap** (`postfix`). Each frame is `<verb> <object>`. The replies are
  `OK <data>`, `NOTFOUND ` and `TIMEOUT error in backend`. The last one ends
  the session.
- **Auth-lookup** (`dovecot`). `H` frames are skipped. A frame that starts
  with another byte than `H` or `L` gets `F`. `L<context>/<verb>/<object>`
  becomes a query. The replies are `O<json>`, `N` and `F`, and `F` after a
  query ends the session.
- **HTTP auth** (`ServeHTTP`). Five request headers become the object of one
  `nginx` query. The answer becomes status 200 with `Auth-*` headers, or 500.

The stream sessions run inside `cope_with`. It closes the connection on a
normal return and after a recovered panic alike.

## How the model is built

- `wire.dfy` (module `Wire`) holds the values exchanged.
  - Go strings and byte slices are both Dafny `string`s, one character per
    byte.
  - The backend is a class `Backend`. Its `answer(n, q)` is the outcome of the
    n-th call for query `q`, and `asked` logs the queries put to it.
  - A stream connection is a class `Conn` whose `trace` records, in order,
    each idle-deadline refresh, each reply written and the close.
- `split.dfy` (module `Split`) is `bytes.SplitN` for a one-byte separator. It
  comes with its inverse `Join`, and with lemmas saying that the split loses
  nothing and is unique.
- `codec.dfy` (module `Codec`) holds the pure decision tables:
  - frame to query (`SocketmapQuery`, `ClassifyAuthLine`);
  - outcome to reply (`SocketmapReply`, `AuthReply`).
  Each table is tied to what the reply means (`Answer`) and to how a client
  reads it back.
- `session.dfy` (module `Session`) holds the shape both stream loops share.
  - A `Step` is what one loop iteration does: its connection events, its
    backend queries, and whether it panics.
  - `SessionRun` strings the steps of all frames together. After the last
    frame it applies the scanner's end-of-stream rule (`EndOf`).
  - Its lemmas hold for any step function with the stated properties.
- `handlers.dfy` (module `Handlers`) instantiates that shape with the two
  codecs (`LineStep`).
  - `Postfix` and `Dovecot` are the loops themselves. They are methods that
    refresh, query, write and abort exactly as the code does, each proved
    equal to `SessionRun`.
  - `CopeWith` adds the close.
  - The lemmas state, for each codec, what a session promises.
- `http.dfy` (module `Http`):
  - `ServeHTTP` is a method over a `ResponseWriter` class, with the
    header-collecting loop (`CollectFields`) and the header-setting loops
    (`SetAll`).
  - It is proved against the specification function `Render`, whose meaning
    is stated by the `Render*` lemmas.

A Go panic is either an explicit `panic` or an index out of range: `msg[1]` on
a socketmap frame without a space, `data[0]` on an empty auth-lookup frame, or
`msg[1]`/`msg[2]` on an `L` frame with fewer than two `/`. In every case the
stream loop ends with `Aborted`. `cope_with`'s deferred `recover` turns it
into the same close as a normal return.

Places where the code behaves differently from what one would expect of
these protocols; the model follows the code:

- **End of stream.** One would expect an idle timeout to end a session
  quietly and any other read error to be fatal. The code does the opposite
  (src/handler.go:213-222 and 276-285):
  - a read error that is not a `net.Error` timeout returns quietly (`Clean`);
  - a timeout panics (`Aborted`).
  Either way the connection is closed once and no reply is written.
- **Socketmap frame without a space.** The code indexes `msg[1]` before
  calling the backend. The model therefore aborts the session on such a
  frame, with no query and no reply.
- **Empty verb.** Nothing checks that the verb is non-empty:
  - the socketmap frame `" x"` is the query of verb `""` for `x`
    (src/handler.go:179-182, `Codec.SocketmapEmptyVerb`);
  - the auth-lookup frame `L<a>//<c>` is the lookup of verb `""`
    (src/handler.go:240-243, `Codec.AuthEmptyVerb`).
- **No refresh before the first read.** `set_expire` runs only once `Scan`
  has returned a frame (src/handler.go:177-178 and 228-229). A session that
  reads no frame records no refresh (`Handlers.NoFrameNoRefresh`).
- **No trailing refresh for `H` and rejected auth-lookup frames.** Their
  `continue` skips the `set_expire` at src/handler.go:273
  (`Handlers.AuthHandshakeSkipped`, `Handlers.AuthRejectedContinues`).

## Model

| member | source | states |
|---|---|---|
| Split.SplitN | src/handler.go:179 | `bytes.SplitN` for a one-byte separator: at most `n` pieces, cut at the first `n - 1` separators (meaning stated by `SplitNJoin`, `SplitNWellCut`, `JoinSplitN`) |
| Split.Find | src/handler.go:179 | the position returned is that of the first separator, or the length when there is none |
| Split.SplitNJoin | src/handler.go:179 | joining the pieces of `SplitN` with the separator gives the frame back |
| Split.SplitNWellCut | src/handler.go:240 | at most `n` pieces; no piece but the last holds the separator, and the last holds none unless all `n` pieces were used |
| Split.JoinSplitN | src/handler.go:240 | well-cut pieces are exactly what `SplitN` returns for their join, so the split is unique |
| Codec.SocketmapQuery | src/handler.go:179-184 | the query built from a socketmap frame, `None` where `msg[1]` panics (meaning stated by `SocketmapQueryParses`, `SocketmapQueryOf`) |
| Codec.SocketmapReply | src/handler.go:186-208 | the reply written for an outcome and whether the panic follows (meaning stated by `SocketmapReplyMeaning`) |
| Codec.SocketmapQueryParses | src/handler.go:179-184 | a frame yields a query exactly when it holds a space; the verb is the bytes before the first space, the object is all the rest, further spaces included |
| Codec.SocketmapQueryOf | src/handler.go:179-184 | every spaceless verb and every object come back out of `verb + " " + object` unchanged |
| Codec.SocketmapEmptyVerb | src/handler.go:179-182 | a frame starting with a space is the query of the empty verb for the rest |
| Codec.SocketmapReplyMeaning | src/handler.go:186-208 | `OK` with string `d` gives `"OK " + d`, `KO` gives `"NOTFOUND "`, and everything else gives `"TIMEOUT error in backend"`; the reply is fatal exactly in that last case |
| Codec.SocketmapWireRoundTrip | src/handler.go:186-208 | a client reading the reply recovers the value found, the negative lookup or the failure |
| Codec.AuthQuery | src/handler.go:240-248 | the query built from the text after `L`, `None` where `msg[1]` or `msg[2]` panics (meaning stated by `AuthQueryParses`) |
| Codec.ClassifyAuthLine | src/handler.go:230-248 | handshake, rejected, lookup or panic for one auth-lookup frame (meaning stated by `AuthQueryOf` and the `Auth*` session lemmas) |
| Codec.AuthReply | src/handler.go:250-271 | the reply written for an outcome and whether the panic follows (meaning stated by `AuthReplyMeaning`) |
| Codec.AuthQueryParses | src/handler.go:240-248 | the text after `L` yields a query exactly when it holds two `/`; the verb is the middle field and the object is `{context: first, object: rest}`, the rest keeping any further `/` |
| Codec.AuthQueryOf | src/handler.go:232-248 | `L a/b/c`, with no `/` in `a` or `b`, is the lookup of verb `b` with object `{context: a, object: c}` |
| Codec.AuthEmptyVerb | src/handler.go:240-243 | `L<a>//<c>` is the lookup of the empty verb |
| Codec.AuthReplyMeaning | src/handler.go:250-271 | `OK` serialised as `js` gives `"O" + js`, `KO` gives `"N"`, and everything else gives `"F"`; the reply is fatal exactly in that last case |
| Codec.AuthWireRoundTrip | src/handler.go:250-271 | a client reading the reply recovers the value found, the negative lookup or the failure |
| Handlers.LineStep | src/handler.go:178-273 | what one loop iteration does with a frame: its events, its query and whether it panics (meaning stated by `StepFacts`) |
| Handlers.StepFacts | src/handler.go:228-273 | one iteration puts the frame's query, if any, and never closes; it panics exactly when the frame does not parse or the reply is fatal; a query gets exactly the codec's reply |
| Handlers.HandlerFacts | src/handler.go:177-210 | both codecs' iterations meet the hypotheses of the generic session lemmas |
| Handlers.PostfixIteration | src/handler.go:178-210 | one socketmap iteration appends to the connection and the backend log exactly what `LineStep` says, and reports the panic |
| Handlers.DovecotIteration | src/handler.go:229-273 | one auth-lookup iteration appends to the connection and the backend log exactly what `LineStep` says, and reports the panic |
| Handlers.Postfix | src/handler.go:176-223 | the socketmap loop leaves the connection trace, the backend log and its ending exactly as `SessionRun` describes |
| Handlers.Dovecot | src/handler.go:227-286 | the auth-lookup loop leaves the connection trace, the backend log and its ending exactly as `SessionRun` describes |
| Handlers.CopeWith | src/handler.go:157-173 | the session runs, then the connection is closed, whether it ended cleanly or aborted; the close happens exactly once and last |
| Handlers.ClosedOnce | src/handler.go:157-163 | the connection is closed exactly once, and the close is the last thing done to it |
| Handlers.SessionQueries | src/handler.go:177-184 | a session reads a prefix of the frames; its queries are exactly those of the frames it read, in order; a clean end means it read them all |
| Handlers.SessionFatalIsLast | src/handler.go:186-208 | a fatal reply answers the last query of the session, and the session aborted |
| Handlers.SessionUnparsedIsLast | src/handler.go:179-183 | a frame that does not parse is the last one read, and the session aborted |
| Handlers.SessionStopsEarly | src/handler.go:177-211 | a session that leaves frames unread aborted, on a frame that did not parse or on a fatal reply to its last query |
| Handlers.SessionCleanIff | src/handler.go:176-223 | a session ends cleanly exactly when every frame parsed, no reply was fatal, and the scanner stopped at end of stream or on a read error other than a timeout |
| Handlers.SocketmapRepliesInOrder | src/handler.go:177-210 | a socketmap session writes one reply per query, in order; the k-th reply is the codec's reply to the k-th answer, and the k-th query comes from the k-th frame |
| Handlers.NoFrameNoRefresh | src/handler.go:177-178 | a session that reads no frame does nothing to the connection and ends by the scanner's rule |
| Handlers.SocketmapLineExchange | src/handler.go:177-210 | `verb obj` refreshes, asks for `obj` under `verb`, writes the reply, and either refreshes and goes on or aborts on a fatal reply |
| Handlers.SocketmapSpacelessAborts | src/handler.go:179-184 | a frame without a space aborts the session after the refresh, with no query and no reply |
| Handlers.AuthLookupStep | src/handler.go:240-273 | an iteration over `L ctx/verb/obj` asks the lookup and writes the codec's reply |
| Handlers.AuthLineExchange | src/handler.go:240-273 | `L ctx/verb/obj` asks the backend, writes the reply, and either goes on or aborts on a fatal reply |
| Handlers.AuthHandshakeSkipped | src/handler.go:232-234 | an `H` frame gets no reply and no query, and the session goes on |
| Handlers.AuthRejectedContinues | src/handler.go:235-238 | a frame starting with another byte than `H` or `L` gets exactly `F`, no query is put, and the session goes on |
| Handlers.AuthShortLineAborts | src/handler.go:230-248 | an empty frame, or an `L` frame with fewer than two `/`, aborts the session with no query and no reply |
| Session.SessionRun | src/handler.go:176-223 | the whole session: the steps of the frames read, up to the first panic, then the end-of-stream rule (meaning stated by the `Run*` lemmas) |
| Session.EndOf | src/handler.go:213-222 | after the last frame a timeout panics and anything else returns (meaning stated by `RunCleanIff`) |
| Session.RunNeverCloses | src/handler.go:176-211 | a session whose iterations never close the connection never closes it |
| Session.RunQueries | src/handler.go:177-184 | for any step function, the queries of a session are those of the frames it read |
| Session.RunFatalIsLast | src/handler.go:186-208 | for any step function that panics on a fatal reply, a fatal reply answers the session's last query |
| Session.RunUnparsedIsLast | src/handler.go:179-183 | for any step function that panics on an unparsable frame, that frame is the last one read |
| Session.RunStopsEarly | src/handler.go:177-211 | a session that stops before the last frame aborted, for one of those two reasons |
| Session.RunCleanIff | src/handler.go:176-223 | a clean end happens exactly when every frame parsed, no reply was fatal and the scanner's end is not a timeout |
| Session.RunRepliesInOrder | src/handler.go:186-208 | when each frame either stops the session or gets exactly one reply to its query, replies follow queries one to one and in order |
| Wire.Backend.Request | src/handler.go:181-184 | one backend call appends the query to the log and returns the outcome for that call |
| Wire.Conn.Write | src/handler.go:168-170 | the encoder appends one reply to the connection |
| Wire.Conn.SetExpire | src/handler.go:170-172 | `set_expire` appends one deadline refresh |
| Wire.Conn.Close | src/handler.go:158-159 | the close is appended to the connection |
| Http.Get | src/handler.go:60 | `Header.Get`: the first value of a header, or "" |
| Http.NginxFields | src/handler.go:50-61 | the object of the `nginx` query (meaning stated by `NginxFieldsMeaning`) |
| Http.NginxFieldsMeaning | src/handler.go:50-61 | the query object has exactly the keys user, pass, protocol, attempt and client, each the first value of its request header, or "" |
| Http.CollectedForwarded | src/handler.go:59-61 | reading the five headers in order collects exactly those fields, none overwriting another |
| Http.CollectFields | src/handler.go:57-61 | the header loop returns exactly the query's fields |
| Http.ResponseWriter.Set | src/handler.go:84-86 | setting a header replaces its value and sends nothing |
| Http.ResponseWriter.WriteHeader | src/handler.go:88 | the first call sends the status with the headers set so far; a later call changes nothing |
| Http.SetAll | src/handler.go:84-86 | whatever order Go visits the map in, the writer ends with every pair set, and nothing is sent |
| Http.Render | src/handler.go:68-117 | the response sent for an outcome, `None` where the `host`/`port` type assertion panics (meaning stated by the `Render*` lemmas) |
| Http.Respond | src/handler.go:68-117 | the response sent is `Render` of the outcome, the writer keeps exactly the headers sent (its old ones when nothing is sent), and the handler panics exactly when no 200 was sent |
| Http.ServeHTTP | src/handler.go:43-119 | exactly one `nginx` query is put, carrying the forwarded headers, the response is `Render` of its outcome, and the writer keeps exactly the headers sent |
| Http.RenderGrants | src/handler.go:74-88 | status 200 with `Auth-Status: OK` happens exactly for `OK` with an object holding string `host` and `port`, which come back as `Auth-Server` and `Auth-Port` |
| Http.RenderRefuses | src/handler.go:95-107 | status 200 with `Auth-Status: Invalid login or password` happens exactly for `KO` with an object, and then `Auth-Wait` is 5 |
| Http.RenderFails | src/handler.go:68-117 | status 500 with no header added happens exactly for a failed call, a status other than `OK` or `KO`, or data that is not an object |
| Http.RenderSilent | src/handler.go:77-80 | nothing is sent exactly when an `OK` object lacks a string `host` or `port`; otherwise the status is 200 or 500 |

## Left out

- `BuffHandler.Serve` (src/handler.go:135-155) is left out: the accept loop, the listener deadline, the `End` channel and the goroutine per connection are I/O and concurrency.
- `HttpHandler.Serve`, both `Inject` methods and the `http.Server` wiring are left out: they only connect the handlers to the listener.
- `set_expire` and the deadlines are recorded as a `Refresh` event. The clock and `CONN_EXPIRE` are not modelled.
- `Transport.Decode`/`Encode` and `bufio.Scanner` are not part of this model:
  - frames arrive already split, followed by how the scanner stopped (`StreamEnd`);
  - a written reply is the payload before `Encode` frames it.
- `json.Marshal` is the parameter `marshal : Data -> Option<Bytes>`, where `None` stands for its error.
- `HTTPDB.Request` is the oracle `answer(n, q)`, so the model covers every backend behaviour.
- The classification of the scanner's error is reduced to whether it is a `net.Error` timeout.
- Logging (`fmt.Printf`) and the panic messages are left out. Only the fact that a panic happened is kept.
- `Header.Get` and `Header.Set` match header names as written. Go's canonicalisation of header names is not modelled.
- What `net/http` sends when `ServeHTTP` writes nothing is not modelled: `Render` is `None`, the case of an `OK` object without a string `host` or `port`.
- HTTP response bodies are left out, because `ServeHTTP` writes none.
- Handlers.SocketmapRepliesInOrder has no auth-lookup counterpart. There the `F` written to rejected frames also counts as a reply, so replies and queries are not one to one. What each auth-lookup frame writes is stated frame by frame instead (`AuthLineExchange`, `AuthRejectedContinues`, `AuthHandshakeSkipped`).
