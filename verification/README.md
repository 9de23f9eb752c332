# officepop POP3 session core, modelled in Dafny

officepop is a gateway that speaks POP3 (RFC 1939, with the CAPA extension
of RFC 2449) to mail clients and serves each connection from an Office 365
mailbox. This project models the per-connection logic of `main.py`:

- how a received line becomes a command and its parameters,
- the CRLF rules of the two writers `_rwrite` and `_write`,
- the session state (recorded username, optional `o365` handle) and the
  command dispatch, including the gate that silently skips STAT, RETR and
  DELE until a PASS has succeeded,
- the lazily cached unread list `inbox_all` that turns 1-based message
  numbers into items,
- the DELE policy for meeting requests,
- the helper `assurelist`.

The whole connection is a pure function. `Pop3.Step` takes a session, one
received line and a `Backend`, and returns the new session, the strings
written, the store calls made (`Action`s) and whether the loop goes on
(`Running`), ended (`Closed`, by QUIT or end of input) or died on an uncaught
Python exception (`Crashed(fault)`). `Pop3.Steps` and `Pop3.Serve` run a
whole list of lines. A `Backend` is the remote store's answers at the moment
of one line:

- whether a username/password pair opens an account,
- the live unread count,
- the unread list, newest first,
- the library's rendering of an item as message text.

Python built-ins the code depends on are modelled in module `Py`:
`str.isspace`, `rstrip`, `split(' ')`, `join`, `str(int)`, base-10
`int(str)` and list subscripts with negative indices. `int(str)` accepts one
optional sign and a run of ASCII digits with single underscores between
digits. Around that it skips the ASCII whitespace tab, line feed, vertical
tab, form feed, carriage return and space, and every non-ASCII `str.isspace`
character. It does not skip U+001C..U+001F, although `str.isspace` counts
them, so `DELE \x1c1` fails where `rstrip` would have removed a trailing
`\x1c`. The digit run may hold at most 4300 digits; underscores do not count
and leading zeros do. This is CPython's default `int_max_str_digits`, in force
from 3.7.14, 3.8.14 and 3.9.14 on; the server passes `loop=` to
`asyncio.start_server`, so it runs on 3.9 or older. With more digits `int()`
raises `ValueError`, so `DELE` followed by 4301 zeros and `1` ends the loop
with no reply.

The model follows `main.py` as written, including where it departs from
RFC 1939:

- RETR sends the rendered message as is, with no dot-stuffing (RFC 1939 section 3).
- DELE marks the item read at once. There is no deferred UPDATE state (RFC 1939 section 6).
- No exception is caught around STAT, RETR or DELE, nor around `params[0]`
  in USER. Such a fault ends the command loop without reaching
  `writer.close()`, rather than producing `-ERR`.
- Only `text_body` is read. A missing body makes RETR fail; there is no
  fallback to another body field.
- The DELE reply is `+OK message {n} deleted`, where `{n}` is `int(param)`
  printed back (`+1` and `01` both give `1`).
- USER keeps an existing handle. A failed PASS keeps the username and any
  handle an earlier PASS opened. A successful PASS opens a fresh handle whose
  cache is empty.
- The number `n` selects `inbox_all[n - 1]` with Python's indexing, so
  `DELE 0` and `RETR 0` reach the last item of the list.
- STAT's count comes from the store, not from the cached list.
- CAPA advertises UIDL and TOP, but neither is implemented. With or without
  a handle, they and every other unknown command get no reply at all.
- A username recorded as the empty string (from `USER  x`) is falsy in
  Python, so a following PASS answers `-ERR Who are you?`.

## Model

| member | source | states |
|---|---|---|
| Py.RStrip | main.py:78 | `rstrip()` yields the prefix that drops exactly the trailing run of Python whitespace |
| Py.Split | main.py:78 | `split(' ')` always yields at least one field, no field contains the separator, and joining the fields with it gives the input back |
| Py.SplitJoin | main.py:78-83 | splitting a join of separator-free fields returns those fields (the inverse direction of `Split`) |
| Wire.Parse | main.py:78-83 | the command and parameters, re-joined with single spaces, are the line with trailing whitespace removed; neither contains a space |
| Wire.ParseFormat | main.py:78-83 | any command with parameters, followed by any whitespace trailer, parses back to that command and those parameters |
| Wire.RWrite | main.py:56-60 | `_rwrite` output ends with CRLF; it is the message itself exactly when the message already ends with CRLF, and otherwise the message followed by exactly one CRLF |
| Wire.Write | main.py:62-64 | `_write` output is the text followed by exactly one CRLF |
| Py.ParseInt | main.py:147 | `int()` accepts only text made of its whitespace, signs, digits and underscores; text of whitespace alone fails; a bare digit run reads as its decimal value when it has at most 4300 digits and fails otherwise |
| Py.ParseIntExactlyLiterals | main.py:147 | `int()` succeeds exactly on text that is `int()` whitespace, an optional sign, a digit run of at most 4300 digits and `int()` whitespace; anything else, such as `1-2`, `--1`, `1__0`, `_1`, `1 2` or a longer run, is a `ValueError` |
| Py.ParseIntSkipsSpace | main.py:147 | `int()` whitespace before and after an optionally signed digit run is ignored and the sign applies; a run of more than 4300 digits fails whatever surrounds it |
| Py.ParseIntRejectsSeparator | main.py:147 | a character in U+001C..U+001F is `str.isspace` whitespace, yet `int()` fails on any text containing one |
| Py.NatToString | main.py:117 | STAT's `str(count)` is non-empty decimal digits with no leading zero except for `"0"` itself |
| Py.IntToString | main.py:157 | `str(i)` is non-empty, starts with `-` exactly for a negative `i`, is digits after that, and has no leading zero: `"0"` is the only result starting with `0`, and a minus sign is never followed by `0` |
| Wire.RWriteIdempotent | main.py:56-58 | writing `_rwrite`'s output through `_rwrite` again adds nothing |
| Py.ParseIntPrintable | main.py:147-157 | a number `int()` accepts has at most 4300 digits, so the DELE reply's `str(oid)` stays within the limit `str` itself enforces |
| Py.ParseIntToString | main.py:147-157 | `int(str(i)) == i` for every integer of at most 4300 digits, the ones `str` prints, so the number echoed by DELE and printed by STAT reads back as the value |
| Py.Index | main.py:119 | a list subscript succeeds exactly for `-len <= i < len`, and a negative index counts from the end |
| Mailbox.Resolve | main.py:119 | sequence number `n` picks `inbox_all[n - 1]`: item `n` for `1 <= n <= len`, item `len + n - 1` (counting from the end) for `1 - len <= n <= 0`, so the last item for `0`, a failure outside `1 - len .. len`, and always an item of the list |
| Mailbox.Open | main.py:32 | a freshly authenticated handle belongs to the login's account and caches nothing |
| Mailbox.InboxAll | main.py:38-42 | a non-empty cached list is returned without a query; an empty cache is replaced by the query's result, and a failing query is a failure |
| Mailbox.InboxAllSticky | main.py:40-42 | after a query returns a non-empty list, every later access returns that list whatever the store holds |
| Mailbox.InboxAllRequeriesEmpty | main.py:40-41 | an empty result is not kept: the next access queries again as a fresh handle would |
| Mailbox.DeleteActions | main.py:149-156 | a non-informational meeting request is accepted when it has conflicts and otherwise tentatively accepted with "Meeting conflict, will review"; every item then gets mark-read and save, last; other items get no calendar call |
| Mailbox.AssureList | main.py:10-14 | `assurelist(None)` is the empty list and any other list is returned unchanged |
| Mailbox.AbsentRecipientsAreEmpty | main.py:123-125 | an absent recipient list and an empty one render the same, empty header value |
| Pop3.Pass | main.py:96-104 | without a username: "-ERR Who are you?" and no login; with a username but no password: a bounce and no login; otherwise exactly one login call, "+OK" with a fresh handle iff the store accepts, else "-ERR o365 bounced us" with the session unchanged |
| Pop3.Greet | main.py:85-110 | QUIT alone closes the loop with "+OK"; CAPA writes the fixed capability list; NOOP answers "+OK" and changes nothing; commands outside CAPA/USER/PASS/NOOP/QUIT are silent no-ops; only PASS can change the handle or call the store |
| Pop3.Stat | main.py:116-117 | STAT writes "+OK " and the live unread count of the handle's account, leaves the session alone, and fails exactly when the count query fails |
| Pop3.Retr | main.py:118-145 | RETR consults `inbox_all` before reading its argument: a failing query is the first fault, then a missing argument, then a non-numeric one; a faulting RETR writes nothing; it never closes the loop, calls nothing on the store, keeps the username, and with a filled cache keeps the handle |
| Pop3.Dele | main.py:146-157 | DELE reads its argument before `inbox_all`: a missing or non-numeric argument faults first; a faulting DELE writes nothing and calls nothing on the store; it never closes the loop, keeps the username, and with a filled cache keeps the handle |
| Pop3.Transact | main.py:112-157 | with no handle, or for any command other than STAT, RETR and DELE, the second dispatch chain writes nothing and changes nothing; with a handle those three go to their branches; a filled cache survives it |
| Pop3.Step | main.py:69-159 | every reply ends with CRLF; an empty read closes silently; the loop closes exactly on end of input or QUIT; CAPA's reply is the fixed list; without a handle every command outside CAPA/USER/PASS/NOOP/QUIT writes nothing, calls nothing and leaves the session as it was |
| Pop3.Steps | main.py:69-159 | every string the loop writes ends with CRLF |
| Pop3.Serve | main.py:66-73 | the greeting "+OK POP3 server ready" comes first, every string written ends with CRLF, and a connection always ends closed or crashed |
| Pop3Properties.StepsStopAtEnd | main.py:72-73 | once the loop has closed or crashed, no later line changes the transcript |
| Pop3Properties.QuitEndsSession | main.py:107-110 | QUIT writes "+OK" and nothing after it is read or answered |
| Pop3Properties.UserKeepsHandle | main.py:93-95 | USER records the name, answers "+OK", and keeps any existing handle |
| Pop3Properties.UserWithoutNameCrashes | main.py:93-94 | USER with no argument raises IndexError, outside any handler |
| Pop3Properties.StepPass | main.py:96-104 | a PASS line does exactly what `Pass` states, with the second chain contributing nothing |
| Pop3Properties.BouncedPassRetries | main.py:96-102 | after a bounced PASS a second PASS with good credentials succeeds without a new USER |
| Pop3Properties.NoopAnswersOk | main.py:105-106 | a NOOP line answers "+OK", with or without a handle, and changes nothing |
| Pop3Properties.StepIgnoresOthers | main.py:112-157 | with a handle, a command outside CAPA/USER/PASS/NOOP/QUIT and STAT/RETR/DELE writes nothing, calls nothing and changes nothing |
| Pop3Properties.AdvertisedButUnanswered | main.py:85-92 | UIDL and TOP, although listed by CAPA, get no reply even with a handle |
| Pop3Properties.StepIsTransact | main.py:112-114 | a command outside the always-allowed group goes straight to the authenticated dispatch |
| Pop3Properties.RetrSends | main.py:118-145 | RETR n goes on exactly when the list resolves `n` to an item with a text body and well-formed attachment types; it then sends "+OK message follows", the item's rendering unaltered (no dot-stuffing) through `_rwrite`, and ".", and keeps the non-empty list as the cache |
| Pop3Properties.RetrFillsSnapshot | main.py:118-145 | the same, for a whole RETR line in a session with a handle |
| Pop3Properties.DeleSends | main.py:146-157 | DELE n goes on exactly when the list resolves `n`; it then makes the policy's calls for that item, answers "+OK message n deleted" with `str(int(n))`, and keeps the list as the cache |
| Pop3Properties.StepKeepsSnapshot | main.py:40-42 | with a filled cache, any line but PASS leaves the handle and its list unchanged |
| Pop3Properties.StepsKeepSnapshot | main.py:69-159 | a filled cache survives any run of lines containing no PASS |
| Pop3Properties.DeleOnSnapshot | main.py:146-157 | with a filled cache, DELE n answers "+OK message n deleted" and makes the policy's calls for `inbox_all[n-1]` |
| Pop3Properties.DeleZeroTargetsLast | main.py:147-148 | DELE 0 applies the policy to the last cached item |
| Pop3Properties.RetrThenDeleSameItem | main.py:117-157 | RETR n followed, with no PASS between, by DELE n acts on the item whose rendering RETR sent, however the store has changed |
| Pop3Properties.StatReportsLiveCount | main.py:116-117 | STAT reports the store's current count, not the cached list, and does not touch the cache |
| Pop3Properties.DeleReplyEchoesNumber | main.py:147-157 | the number in the DELE reply parses to the same value as the client's argument |
| Pop3Properties.NoStoreCallsBeforePass | main.py:112-114 | until a PASS line arrives, a session without a handle calls nothing on the store and gains no handle |

## Left out

- TLS context, certificate loading and the asyncio server (main.py:165-174). These are transport and bootstrap.
- `reader.readline`, `writer.write`, `drain` and `close`. The input is a list of text lines; the output is the list of strings passed to `writer.write`.
- `bline.decode()`. Lines are already text, so the UnicodeDecodeError a non-UTF-8 line would raise is not modelled. The UTF-8 encoding of replies is not modelled either.
- The `print` diagnostics, including the test that keeps PASS lines out of the log (main.py:59, 75-76). They only log.
- The exchangelib account setup (main.py:18-31). It becomes the `authenticates` oracle of `Backend`.
- `filter(is_read=False).order_by('-datetime_received')` and `unread_count`. They become the `unreadItems` and `unreadCount` oracles. Whether exchangelib itself caches the count is not visible here.
- `accept`, `tentatively_accept` and `save`. They are recorded as `Action`s and assumed not to raise. If one raised, DELE would die part-way through; the model does not show that.
- The RETR message rebuild (main.py:121-141): `EmailMessage`, `formataddr`, `formatdate`, attachments and the SHA-256 message-id. The rendering is the uninterpreted `render` oracle. Only two of its failures are modelled, a missing `text_body` and an attachment type without `/`. Other failures are not, for example a missing sender.
- The digit limit as configured at run time (`PYTHONINTMAXSTRDIGITS`, `-X int_max_str_digits`, `sys.set_int_max_str_digits`) and the older interpreters without it. The model fixes CPython's default of 4300.
- Py.NatToString: `str()` on an integer of more than 4300 digits raises `ValueError`; the model's `str` is total. STAT's count would have to exceed 10^4300 to reach it, and DELE's echoed number cannot (Py.ParseIntPrintable).
- `int()` on non-ASCII Unicode decimal digits. Python maps them to ASCII digits; the model accepts only ASCII digits.
- `unread_count` being None. STAT would then answer `+OK None`; the count is modelled as a natural number.
- `conflicting_meeting_count` being None. In Python 3 that would raise on the comparison; the count is modelled as an integer.
- The `isinstance(msg, MeetingRequest)` test. It is modelled as the `ItemKind` tag.
- What asyncio does with a connection after an uncaught exception. The model stops at `Crashed(fault)`.
- Concurrency between connections. They share no state.
- Pop3.Retr: its own contract states the fault order, that a fault writes nothing, and the effect on the session. What a successful RETR sends is stated by Pop3Properties.RetrSends.
- Pop3.Dele: its own contract states the fault order, that a fault writes and calls nothing, and the effect on the session. The reply and store calls of a successful DELE are stated by Pop3Properties.DeleSends.
