# whatsapp-poc core, modelled in Dafny

The program is a small HTTP server that sits beside one WhatsApp Web session.
`/login` starts a session and answers with its QR code. `/read_all` returns every
text message received since the last login. `/read` asks the session for a chat's
recent history, and `/send` sends a text to a phone number. Every message the
session receives is pushed to all connected websocket clients.

The model covers the two pieces of `main.go` that hold logic:

- **Request decisions** (`handlers.dfy`, module `Handlers`, pure). `ReadRequest` and
  `SendRequest` take "is a session present" and the query strings. They return
  `Unauthorized`, `BadRequest`, `LoadHistory(jid, count)` or `Send(body)`.
  `CountFor` is the `count` default-and-override rule. It rests on a model of
  Go's `strconv.Atoi` (`strconv.dfy`, module `Strconv`), proved against its
  inverse `Itoa` in both directions.
- **Process state** (`app.dfy`, module `App`, imperative). Class `State` holds
  - the session (`wac`) as `Option<Handle>`;
  - the history (`textMessageList`) as `seq<TextMessage>`;
  - one payload queue per registered client (`hub.Clients[c].Send`) as a `map`.

  `StartLogin`, `HandleTextMessage`, `HandleJsonMessage`, `HandleImageMessage`,
  `HandleVideoMessage`, `HandleError` and `ReadAll` are its methods. The
  `for client := range hub.Clients` loop is the method `Broadcast`. It is proved
  to give the same result in every iteration order: one function, `Delivered`,
  of the old queues.
  A ghost trace `calls` records the `NewConn` and `Logout` calls in order.
  `Valid()` says two things: the session is the last `NewConn` result, and
  every installed session is logged out before the next `NewConn`. So at most
  one session exists at a time.

Modelling choices:

- The session library, the hub and JSON encoding are outside the model.
  - `NewConn`'s two results are parameters of `StartLogin`. `main.go:63`
    assigns `wac` even when `NewConn` reports an error, so the session becomes
    whatever `NewConn` returned.
  - The set of registered clients is a constructor parameter.
  - The two encoders are uninterpreted function values, also given to the
    constructor.
- Go's `int` is taken to be 64 bits, and `main.go:124` drops `Atoi`'s error.
  Go's parser reads the text left to right. It reports a range error at the
  first digit that takes the value past 2^64 - 1, even when a bad character
  comes later, and then returns the 64-bit bound on the side of the sign.
  Otherwise a syntax error returns 0, and a well-formed numeral's value is
  clamped to the 64-bit range. `Overflows` and `Saturated` state this order.
- Query parameters are strings. An absent parameter is the empty string, as
  `Query().Get` returns it.
- The model follows what the code does:
  - history is cleared only when a session already exists (`main.go:56-60`),
    not on every login;
  - a second login logs the old handle out and replaces it;
  - image and video messages are only logged.
- What the code does and the model leaves out (see "## Left out"):
  - nothing stops two logins from running at once;
  - a send into a blocked client channel blocks the handler.
- `CountFor` passes negative numbers through unchanged: `count=-5` asks for
  `-5` messages. The code does this as written. Nothing in it shows whether
  the authors meant to, so this is not listed as a finding.

## Model

| member | source | states |
|---|---|---|
| `Strconv.Atoi` | main.go:124 | the integer `strconv.Atoi` yields with its error dropped: always a 64-bit value; the bound on the sign's side when the leading digits pass 2^64 - 1, even if a bad character follows; otherwise 0 for any text that is not an optional sign followed by digits (the empty text included), and the clamped value of a numeral |
| `Strconv.DigitPrefix` | main.go:124 | the longest run of digits at the front of a text: a prefix of it, all digits, and followed by a non-digit or the end |
| `Strconv.Saturated` | main.go:124 | the bound a range error returns: the 64-bit minimum after a '-', else the maximum |
| `Strconv.OverflowBeforeJunk` | main.go:124 | twenty or more digits led by 2 to 9, then a non-digit or nothing, parse to the 64-bit maximum, and to the minimum after a '-': the range error wins over the syntax error |
| `Strconv.TwentyNinesThenLetter` | main.go:124 | "99999999999999999999x" parses to the 64-bit maximum, not 0 |
| `Strconv.Clamp64` | main.go:124 | an out-of-range parse result becomes the nearest 64-bit bound; in-range values are kept |
| `Strconv.AtoiOfItoa` | main.go:124 | every 64-bit integer, formatted as Go formats it, parses back to itself |
| `Strconv.ItoaOfAtoi` | main.go:124 | every canonical numeral (no '+', no leading zeros, no "-0", in range) parses to a value that formats back to the same text |
| `Strconv.DigitsValueOfFormatNat` | main.go:124 | the digit accumulation `n = n*10 + d` of a formatted natural number gives that number back |
| `Strconv.FormatNatOfDigitsValue` | main.go:124 | a digit run without leading zeros is the formatting of its own value |
| `Handlers.PhoneOf` | main.go:130 | recovers the phone number from a personal chat id by removing the "@s.whatsapp.net" suffix; its length is the id's length less the suffix's |
| `Handlers.Jid` | main.go:130 | the chat id built as `phone + "@s.whatsapp.net"` is a personal chat id whose phone number is `phone` again |
| `Handlers.JidOfPhoneOf` | main.go:160 | every personal chat id is the chat id of the phone number recovered from it |
| `Handlers.JidInjective` | main.go:160 | distinct phone numbers give distinct chat ids |
| `Handlers.CountFor` | main.go:121-128 | the count is never 0 and is a 64-bit value; when the leading digits overflow it is the bound on the sign's side; otherwise it is the clamped value exactly when the parameter is a numeral of nonzero value, and 10 in every other case (so the empty-parameter check is subsumed by the parse failing) |
| `Handlers.CountWhenAbsent` | main.go:121-123 | an absent or empty `count` gives 10 |
| `Handlers.CountWhenUnparsable` | main.go:124-125 | a `count` that Atoi rejects with a syntax error, with no digit overflowing before it, gives 10 |
| `Handlers.CountWhenOverflows` | main.go:124-127 | a `count` whose leading digits pass 2^64 - 1, whatever follows them, gives the 64-bit bound on the sign's side: the minimum after a '-', else the maximum |
| `Handlers.CountWhenOverflowBeforeJunk` | main.go:124-127 | the `count` "99999999999999999999x" gives the 64-bit maximum, not 10 |
| `Handlers.CountWhenZero` | main.go:125-127 | a `count` that parses to zero ("0", "-0", "+00") gives 10 |
| `Handlers.CountOverride` | main.go:124-127 | every nonzero 64-bit number written in decimal replaces the default |
| `Handlers.ReadRequest` | main.go:108-130 | no session gives Unauthorized whatever the parameters; a session with an empty phone gives BadRequest; a history load is requested exactly when there is a session and a phone, for the chat of that phone and with `CountFor(count)`; never a send |
| `Handlers.SendRequest` | main.go:144-163 | no session gives Unauthorized; a session with an empty text or phone gives BadRequest; a message goes out exactly when there is a session, a phone and a text, addressed to that phone's chat and carrying that text; never a history load |
| `Handlers.SendAfterLogin` | main.go:144-163 | a send refused without a session goes out once one is present, and sends to distinct phones go to distinct chats |
| `App.Current` | main.go:56-63 | the session a sequence of NewConn/Logout calls leaves installed: the result of the last call if it is a NewConn, and none if there is no call or the last is a Logout |
| `App.NewConnOnlyWhenAbsent` | main.go:56-63 | in a trace with one session at a time (the invariant `State.Valid` keeps), NewConn runs only when no session is installed |
| `App.LogoutTearsDownCurrent` | main.go:56-60 | in a trace with one session at a time, each Logout tears down exactly the session installed at that point |
| `App.Delivered` | main.go:187-189 | one push of a payload to every client neither adds nor removes clients |
| `App.DeliveredOnce` | main.go:187-189 | each client's queue grows by exactly one entry, holding the payload once more than before, as its newest entry, with its earlier entries untouched |
| `App.DeliveredAll` | main.go:182-206 | a sequence of pushes to every client neither adds nor removes clients |
| `App.DeliveredAllInOrder` | main.go:182-206 | after a sequence of pushes every client's queue is its old queue followed by the payloads in publication order |
| `App.State.constructor` | main.go:19-23 | the process starts with no session, an empty history and an empty queue for each registered client |
| `App.State.StartLogin` | main.go:56-66 | with a session present, the history is emptied and that session is logged out before NewConn runs; without one, history is kept and only NewConn runs; the session is then NewConn's result; at most one session exists at a time; queues are unchanged |
| `App.State.Broadcast` | main.go:187-189 | every registered client's queue gains the payload once, whatever the iteration order; the clients, session and history are unchanged |
| `App.State.HandleTextMessage` | main.go:182-190 | the history becomes the old history followed by exactly that message, and the message's encoding is pushed once to every client; the session is unchanged |
| `App.State.HandleJsonMessage` | main.go:200-207 | the message's encoding is pushed once to every client; history and session are unchanged |
| `App.State.HandleImageMessage` | main.go:192-194 | changes no state |
| `App.State.HandleVideoMessage` | main.go:196-198 | changes no state |
| `App.State.HandleError` | main.go:178-180 | changes no state |
| `App.State.ReadAll` | main.go:93-104 | Unauthorized exactly when no session is present; otherwise the whole history in insertion order |

## Left out

- HTTP serving, routing, CORS headers and response writing (main.go:29-53, 88-90). These are I/O. The model gives outcome kinds, not status codes. `w.Write` runs before `w.WriteHeader`, so the codes written are not the ones sent.
- The login goroutine, the `qrChan` handoff, `Login`, and installing the event handler after login (main.go:68-80). These are concurrency and calls into go-whatsapp. `StartLogin` returns only whether the handler gets that far.
- QR PNG rendering (main.go:81-90). go-qrcode is a foreign library.
- The results of `LoadMessages` and `Send` and their error replies (main.go:130-138, 165-173). They are foreign calls. The model stops at the request it hands to the session.
- JSON encoding (main.go:103, 186, 203). The encoders are uninterpreted. Go encodes a nil history as `null` and an empty one as `[]`; the model does not tell these apart.
- The ws package (`NewHub`, `Run`, `ServeWs`, client registration and unregistration). It is not part of this model; the constructor takes the registered clients as given.
- Channel blocking and the concurrent, unlocked iteration over `hub.Clients`. Each queue is a sequence that can always be appended to.
- Logging through `fmt.Println` and `fmt.Fprintf`. It is output only.
- The fields of go-whatsapp's messages other than `RemoteJid` and `Text`. The library type is not visible here.
