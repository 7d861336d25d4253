# homework_bot, modelled in Dafny

`homework.py` is a Telegram bot. It polls the Practicum homework-status API
and forwards a chat message whenever a review status changes. This project
models the bot's decision logic over decoded JSON values and proves what it
does:

- `Json` (json.dfy): the JSON values `response.json()` yields. This includes
  Python booleans, which count as ints for `isinstance(_, int)`. It also has
  the Python operations the bot applies to them: `dict.get`, truthiness,
  hashability and `str()`.
- `Errors` (errors.dfy): one error per raising site of the pipeline.
- `Catalog` (catalog.dfy): `HOMEWORK_STATUSES` and `parse_status`. It also has
  a decoder that reads a notification back into its name and status.
- `Response` (response.dfy): `check_response`.
- `Tokens` (tokens.dfy): `check_tokens`, with Python's `and` on objects.
- `Poll` (poll.dfy): the body of `main`'s `while True` loop as a pure function
  `Cycle`, the same body run step by step (`PollOnce`, whose inner loop is
  `SendHomeworks`), and `main` itself (`Run`). `Run` carries the cursor and
  the outbox through one iteration per fetch outcome.

The model follows the code as written, including where the code does not do
what its authors evidently meant:

- `check_response`'s test `[0][0] in response` only writes a log line.
- `parse_status`'s test `type(homework_name) is None` never holds, and the
  `TypeError` it builds is never raised. A missing `homework_name` is
  therefore printed as `None` (`Catalog.MissingNameReadsNone`).
- An unknown status is logged, then the lookup `HOMEWORK_STATUSES[status]`
  raises `KeyError`. A list or dict status already raises `TypeError` in the
  membership test. Either way, the whole cycle fails; the entry is not skipped.
- `raise logging.error(...)` raises `TypeError`, because raising `None` is an
  error. It therefore counts as a failure, in `check_response`, in the
  `current_date` check and at start-up.
- `check_tokens` computes `P and C and (T is not None)`. The API token and
  the chat id must be non-empty, but the bot token only has to be set. Its
  `else` loop returns `False` on its first iteration, so it never returns
  `None`.
- A boolean `current_date` passes `isinstance(_, int)` and becomes the cursor.
- The cursor takes any int `current_date` the server sends. A smaller value
  moves it back (`Poll.CursorCanMoveBack`).
- Texts sent before a failure in the same cycle stay sent. The failure is
  then reported to the chat.

## Model

| member | source | states |
|---|---|---|
| Catalog.ParseStatus | homework.py:87-97 | An entry that is not a dict fails, because it has no `.get`. A list or dict status fails as unhashable. Any other status outside the three catalog keys fails with that status as the unknown key. Otherwise the result is exactly `Изменился статус проверки работы "<Render(name)>". <verdict>`, where the name is read with `.get` (absent reads as None). `Json.Render` is `str()` for every name but a list or a dict (see "## Left out"). |
| Catalog.VerdictEndingUnique | homework.py:26-30 | No two of the three verdicts can both end the same text. |
| Catalog.DecodeMessageInvertsMessage | homework.py:26-30 | Decoding the notification built from any name and any catalog status returns exactly that name and status. |
| Catalog.DecodeMessageOnlyMessages | homework.py:97 | Any text the decoder accepts is exactly the notification of the name and status it returns. |
| Catalog.MessagesDistinguishStatuses | homework.py:26-30 | For one name, two different catalog statuses give two different notifications. |
| Catalog.MissingNameReadsNone | homework.py:89-97 | An entry with a known status and no `homework_name` still gives a notification, naming `None`. |
| Json.IntTextRoundTrip | homework.py:97 | The text printed for an int name reads back to that int, negative numbers included. |
| Response.CheckResponse | homework.py:76-84 | Succeeds exactly when the answer is a dict with a list under `homeworks`, and returns that list unchanged. A non-dict fails with a TypeError. A missing key fails with a KeyError. A non-list value fails with a TypeError. |
| Response.CheckResponseReturnsStoredList | homework.py:82-84 | Whatever other keys the dict has, the list stored under `homeworks` comes back unchanged, in content and order. |
| Response.CheckResponseAcceptsOnlyStoredList | homework.py:78-84 | Any accepted answer is exactly a dict with the returned list stored under `homeworks`. |
| Tokens.CheckTokens | homework.py:100-110 | The result is always True or False, never None. It is True exactly when the API token and the chat id are set and non-empty and the bot token is set. |
| Tokens.EmptyBotTokenAccepted | homework.py:102 | A bot token that is set but empty passes the check. |
| Poll.FormatHomeworksSendsPrefix | homework.py:127-129 | The inner loop sends, in list order, the texts of the longest leading run of entries that format. Its error is the error of the first entry that fails. Without an error, it sends one text per entry. |
| Poll.Cycle | homework.py:124-134 | A failed cycle keeps the cursor. The cursor changes only to an int `current_date` of this answer. A successful cycle had an accepted answer and sent one text per homework. |
| Poll.CycleRejectsBadAnswer | homework.py:124-125 | A failed fetch, or an answer that `check_response` rejects, sends nothing, keeps the cursor and fails with that error. |
| Poll.CycleSendsEveryHomeworkInOrder | homework.py:126-129 | When every entry formats, the i-th text sent is the notification of the i-th entry, one per entry. |
| Poll.CycleEmptyListSendsNothing | homework.py:126 | An empty `homeworks` list sends nothing. |
| Poll.CycleStopsAtFailingHomework | homework.py:127-129 | The first entry that fails ends the cycle with its error and keeps the cursor. The texts of the entries before it were sent; nothing for it or after it is. |
| Poll.CycleAdoptsCurrentDate | homework.py:130-134 | After all entries format: an absent `current_date` keeps the cursor; an int (or bool) is adopted; any other value fails with the cursor kept. |
| Poll.CycleSendsIndependentOfCursor | homework.py:124-134 | What a cycle sends, and whether it fails, do not depend on the cursor. |
| Poll.RepeatedAnswerKeepsCursor | homework.py:130-134 | Handling the same answer twice leaves the cursor where the first pass put it. |
| Poll.CursorCanMoveBack | homework.py:130-134 | A smaller `current_date` moves the cursor back: from 1000 to 5. |
| Poll.ApprovedHomeworkScenario | homework.py:124-134 | One approved `hw1` with `current_date` 1000 sends exactly the approved notification for `hw1`, and the cursor becomes 1000. |
| Poll.UnknownStatusScenario | homework.py:124-143 | A homework with an unknown status sends no text, only the error report, and keeps the cursor. |
| Poll.StepsHandleEveryAnswer | homework.py:122-143 | A failing cycle never ends the loop: every fetch outcome is handled, one fetch per outcome. Earlier messages and fetches stay as they were. |
| Poll.StepsQueryLatestCursor | homework.py:124-134 | The k-th fetch uses the cursor left by the k iterations before it. |
| Poll.StepsCursorFromServer | homework.py:117-134 | The cursor stays an int. It is either its start value or a `current_date` that some answer carried. |
| Poll.SendHomeworks | homework.py:126-129 | The step-by-step inner loop sends what `FormatHomeworks` describes, and stops with the same error. |
| Poll.PollOnce | homework.py:123-143 | The step-by-step loop body yields `Cycle`'s cursor. It sends `Cycle`'s texts, then an error report when the cycle failed. |
| Poll.Run | homework.py:113-143 | When `check_tokens` fails, `main` fails before sending anything. Otherwise it sends the start text, starts the cursor at the start time, and performs one iteration per fetch outcome, as `Steps` describes. |

## Left out

- `get_api_answer` (homework.py:51-73) is not modelled. Its HTTP request, JSON decoding and status-code checks go through `requests`. Each cycle's fetch is an input instead: a decoded JSON value, or a failure that becomes `FetchFailed`.
- The Telegram calls in `send_message`, `start_message` and the `except` clause are not modelled. A sent message is an entry appended to the outbox.
- Poll.Run: constructing the bot, `telegram.Bot(token=TELEGRAM_TOKEN)` (homework.py:116), is not modelled. `Run` assumes it succeeds. The library rejects an empty or malformed token there, so for such a token (one `check_tokens` accepts, see `Tokens.EmptyBotTokenAccepted`) `main` ends at line 116 and never sends the start text that `Run` promises.
- Delivery failures are not modelled. `send_message` logs and swallows them while `logging.error` is still the logging function (see the next line). A failing `start_message` or error-report send would escape and end `main`.
- Catalog.ParseStatus, Poll.Cycle: the rebinding of `logging.error` is not modelled. When `requests.get` raises a `RequestException` or `ValueError`, `get_api_answer` assigns a string to `logging.error` (homework.py:57, :59) for the rest of the process; the fetch then fails (`FetchFailed`). From then on every call `logging.error(...)` raises a TypeError. Two lasting effects follow that the model does not capture. First, an unknown status fails at line 94 with that TypeError instead of the KeyError at line 95, so the report names a different error than `UnknownStatus`. Second, a delivery failure in `send_message` is no longer swallowed at line 42: it fails the cycle.
- The wording of the error report is not modelled (homework.py:138). Python builds it from the exception's message; the model keeps only which error it reports.
- `time.sleep` and `RETRY_TIME` are not modelled: they are timing only. The infinite `while True` is modelled as one iteration per given fetch outcome.
- Loading the environment, configuring logging, and the log lines are not modelled. Apart from the rebinding of `logging.error` above, writing a log line does not change the result.
- The environment values and `TIME_START` are inputs to the model.
- Json.Render: a `homework_name` that is a list or a dict is printed by Python with `repr()`, in key insertion order. The model prints the placeholders `[...]` and `{...}` instead. A float name is kept as the text Python prints for it.
