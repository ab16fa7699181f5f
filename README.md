# homework_bot: the poll-validate-compose-dedup step

`homework.py` is a Telegram bot that polls the Practicum homework-status API
every ten minutes and tells one chat when the review status of the latest
homework changes. This project models, in Dafny, the part of it that decides
what the bot says:

- `check_tokens`: the bot refuses to start unless `PRACTICUM_TOKEN`,
  `TELEGRAM_TOKEN` and `TELEGRAM_CHAT_ID` are all set and non-empty
  (`Relay.CheckTokens`, which also yields the names it reports, in order).
- `get_api_answer`, reduced to how it classifies the answer
  (`Homework.GetApiAnswer`): HTTP 204 raises
  `Ошибка при запросе к API, статус: 204`; a status that `raise_for_status`
  rejects (400 to 599) or a transport failure is logged and gives `None`;
  anything else gives the decoded body.
- `check_response` (`Homework.CheckResponse`): the body must be a dict whose
  `homeworks` member is a list.
- `parse_status` (`Homework.ComposeStatus`, `Relay.Bot.ParseStatus`): the
  text `Изменился статус проверки работы "<name>".` followed by a newline and
  the verdict from `HOMEWORK_VERDICTS`; the status is recorded in
  `previous_status`.
- `send_message` (`Notifier.Notify`, `Relay.Bot.SendMessage`): the bot is
  called only with a text different from `last_msg`, and `last_msg` moves to
  the text only when the call returns normally.
- one pass of `main`'s loop body (`Relay.Bot.Iterate`), a bounded run of
  passes (`Relay.Bot.Run`) and `main` itself up to that bound
  (`Relay.RunBot`).

The two module globals `last_msg` and `previous_status` are the fields of
the class `Relay.Bot`. The outside world is reduced to values: a
`FetchOutcome` (a response with status code and decoded JSON body, or a
transport failure) stands for `requests.get`, a `delivered` flag for whether
`bot.send_message` returns normally, and `PyMessages` for the texts the
Python interpreter gives to the exceptions it raises itself.

Two handlers in the code never run. `except KeyError('homeworks')`
(homework.py:93) and `except KeyError('homework_name')` (homework.py:110)
name an exception instance, not a class. When an exception reaches such a
clause, Python raises `TypeError` while evaluating it. So a missing
`homeworks` key, a `homeworks` value that is not a list, a homework that is
not a dict, a missing `homework_name` or `status`, and a status outside the
table all end the iteration with that `TypeError`
(`Failure.ExceptClause`). None of them logs and returns the intended text.

Where the intended behaviour and the code differ, the model follows the
code:

- Duplicates are suppressed by comparing texts (`last_msg`), not submission
  records. `previous_status` is read only in one comparison
  (homework.py:105), and both branches of that comparison return the same
  text. So it never affects what is sent.
- An HTTP error other than 204 is not reported with its status code.
  `get_api_answer` returns `None`, and the chat is told
  `Сбой в работе программы: Тип ответа от API не словарь..`
  (`Relay.ServerErrorReported`).
- HTTP 204 is a failure, while other non-error codes (for example 3xx
  answers that `requests` does not follow) are read as a body.
- Error texts go through the same deduplication as status texts. A
  repeated failure is therefore reported once.

## Model

| member | source | states |
|---|---|---|
| `Relay.CheckTokens` | homework.py:38-52 | the bot terminates iff some token is `None` or `''`; when it terminates it reports exactly the absent token names in dict order, and otherwise it reports nothing |
| `Homework.MissingNames` | homework.py:46-51 | the names `check_tokens` reports number at most the tokens, and an absent last token is reported last |
| `Homework.MissingNamesExact` | homework.py:46-51 | a name is reported iff some token with that name is unset or empty |
| `Homework.MissingNamesOfCredentials` | homework.py:40-52 | for the three credentials the report is the absent names in the order PRACTICUM_TOKEN, TELEGRAM_TOKEN, TELEGRAM_CHAT_ID, and it is non-empty iff the bot refuses to start |
| `Relay.RunBot` | homework.py:116-132 | with a missing credential `main` ends before any fetch or bot call; otherwise the bot calls are those of the loop started from `last_msg == ''` |
| `Relay.Bot.constructor` | homework.py:34-35 | `last_msg` and `previous_status` both start as the empty string |
| `Notifier.Notify` | homework.py:55-64 | the rule `send_message` applies: the bot can only be called with the given text, and `last_msg` afterwards is either its old value or that text |
| `Relay.Bot.SendMessage` | homework.py:55-64 | the bot is called with the text iff it differs from `last_msg`; `last_msg` becomes the text iff the call returned normally; `previous_status` is untouched |
| `Notifier.NotifyCallsOnChange` | homework.py:58-60 | the bot is called iff the text differs from the last delivered one, and only with that text |
| `Notifier.NotifyAdvancesOnDelivery` | homework.py:59-64 | `last_msg` changes iff the bot was called and the call returned normally, and it can only become the text just sent |
| `Notifier.NotifyIdempotent` | homework.py:58-61 | after a delivered text, sending the same text again makes no call and changes nothing |
| `Notifier.NotifyRetriesAfterFailure` | homework.py:59-64 | a failed send leaves `last_msg` unchanged, so the next call with the same text calls the bot again |
| `Notifier.DeliveriesWithinChanges` | homework.py:58-61 | over any sequence of texts, successful deliveries are at most the number of runs of equal texts, plus one for a text left pending by a failed send |
| `Notifier.AtMostOneDeliveryPerRun` | homework.py:58-61 | starting from the last delivered text, each run of equal texts is delivered at most once |
| `Notifier.CallsAreDeliveries` | homework.py:59-61 | while every send succeeds, the number of bot calls equals the number of deliveries |
| `Notifier.RepeatedTextCallsOnce` | homework.py:58-61 | while every send succeeds, a run of one repeated text calls the bot at most once |
| `Homework.GetApiAnswer` | homework.py:67-79 | the answer fails iff the status is 204; a 400–599 status or a transport failure gives `None`; every other status gives the response body |
| `Homework.IterationNoContent` | homework.py:69-75 | a 204 answer makes the iteration send `Сбой в работе программы: Ошибка при запросе к API, статус: 204.` |
| `Json.DigitsValue` | homework.py:69-75 | the decimal numeral put into the API error text reads back as the number |
| `Homework.IterationHttpError` | homework.py:76-86 | an HTTP error status or a transport failure gives `None`, which the validator rejects as not a dict, and that text is sent |
| `Relay.ServerErrorReported` | homework.py:76-86 | from a fresh start, an HTTP 500 answer makes one bot call with the not-a-dict failure text, which does not contain the status code |
| `Homework.CheckResponse` | homework.py:82-94 | an accepted body is a dict holding the returned list under `homeworks`; a non-dict fails with the not-a-dict error |
| `Homework.CheckResponseExact` | homework.py:84-92 | a dict is accepted with list `hs` iff its `homeworks` member is the list `hs` |
| `Homework.CheckResponseFailures` | homework.py:84-93 | a non-dict, a dict without `homeworks`, and a non-list `homeworks` each make the step fail |
| `Json.Get` | homework.py:89 | a dict lookup fails iff no member has the key, and otherwise gives a value stored under the key |
| `Homework.ComposeStatus` | homework.py:97-113 | on success the recorded status is a key of the verdict table found under `status` in the homework dict; every failure is the broken-handler `TypeError` |
| `Homework.ComposeStatusText` | homework.py:101-104 | for name `n` and status `s` in the table the text is exactly `Изменился статус проверки работы "` + n + `".` + newline + the verdict for `s`, and the recorded status is `s` |
| `Homework.ComposeStatusFailures` | homework.py:100-113 | a missing `homework_name`, a missing `status`, or a status outside the table makes the composer fail |
| `Homework.StatusMessage` | homework.py:103-104 | the text is the fixed status-change prefix, then the name, then `".` and a newline, then the verdict, with exactly that length |
| `Homework.NameInStatusMessage` | homework.py:103-104 | the homework name can be read back from the notification text |
| `Homework.StatusMessageInjective` | homework.py:103-104 | different homework names with the same verdict give different texts |
| `Relay.VerdictTextsDiffer` | homework.py:21-25 | being taken for review and being approved are announced with different texts |
| `Json.Decimal` | homework.py:69-75 | `str()` of an integer: a non-empty numeral that starts with `-` exactly for negative numbers |
| `Json.Repr` | homework.py:103-104 | `str()` of a list or dict used as `homework_name` is bracketed by `[` `]` or `{` `}` and is never empty |
| `Json.PyStr` | homework.py:103-104 | a string-valued `homework_name` is inserted into the text as it is |
| `Relay.Bot.ParseStatus` | homework.py:97-113 | the returned text depends only on the homework, not on `previous_status`; after a success `previous_status` is the homework's status, and after a failure it is unchanged |
| `Relay.Bot.Iterate` | homework.py:122-131 | one pass makes exactly one `send_message`, of the status text or of the failure text, under the dedup rule; `previous_status` changes only when a status text was composed |
| `Homework.Attempt` | homework.py:123-127 | the body of `main`'s `try`: a composed status is always a key of the verdict table; a transport failure ends in the not-a-dict error and a 204 answer in the API error |
| `Homework.ErrorText` | homework.py:73-75 | `str(error)` for the failure that ended the pass: the API error text with status `204`, and the interpreter's text for the broken `except` clauses |
| `Homework.FailureMessage` | homework.py:129 | the failure text starts with `Сбой в работе программы: ` and ends with `.` after the error text |
| `Homework.IterationMessage` | homework.py:122-131 | the one text a pass hands to `send_message`: the composed status text when the attempt succeeds, otherwise a text with the failure prefix |
| `Homework.IterationNoHomeworks` | homework.py:126 | an empty `homeworks` list fails at `[0]` and the index-error text is sent |
| `Homework.IterationFailureText` | homework.py:128-131 | every failed iteration sends `Сбой в работе программы: ` + the error text + `.` |
| `Homework.IterationSuccess` | homework.py:123-127 | a non-error answer, with any other members, whose `homeworks` list starts with a homework that has name `n` and a known status sends that homework's status text and records the status |
| `Relay.AnswerMessage` | homework.py:123-127 | an answer listing one homework with a known status is announced with that homework's status text |
| `Relay.Bot.Run` | homework.py:121-132 | a bounded run of passes calls the bot exactly as the dedup trace of the per-pass texts says, leaves `last_msg` where that trace ends, and leaves `previous_status` at the status of the last pass whose `parse_status` succeeded |
| `Homework.LastStatus` | homework.py:105-106 | `previous_status` after a run of passes is either its value before the run or a status from the verdict table |
| `Homework.LastStatusOfLastSuccess` | homework.py:105-106 | `previous_status` after a run is the status recorded by the last pass whose `parse_status` succeeded |
| `Homework.LastStatusWithoutSuccess` | homework.py:100-110 | passes whose `parse_status` all fail leave `previous_status` as it was |
| `Relay.RepeatedOutcomeCallsOnce` | homework.py:121-131 | the same answer on consecutive passes calls the bot at most once while sends succeed, whether it ends in a status text or a failure text |
| `Relay.ReviewThenApprove` | homework.py:121-131 | "reviewing", the same answer again, then "approved": the bot is called with the reviewing text, not called, then called with the approved text |

## Left out

- HTTP through `requests`, the Telegram `bot` object and `load_dotenv`/`os.getenv` are external I/O. They become the `FetchOutcome` value, the `delivered` flag and the `Credentials` value.
- The request itself is not modelled: the endpoint, the `Authorization` header and the `from_date` cursor taken from `time.time()`. Only the outcome of the request is.
- Logging (homework.py:27-32 and every `logging` call) is output only. `Relay.CheckTokens` returns the names it would log instead.
- The `while True` loop and `time.sleep(RETRY_PERIOD)` are not modelled as such. `Relay.Bot.Run` covers any finite number of passes.
- `sys.exit()` becomes the `terminate` result, not a process exit.
- JSON decoding is not modelled: `response.json()` is assumed to give a `Json` value. A body that does not decode, and JSON floating-point numbers, are left out.
- The interpreter's own exception texts are not modelled. These are the `TypeError` raised by the broken `except` clauses and the `IndexError` of `[0]`. They are the opaque `PyMessages` parameter.
- Json.PyStr: a `homework_name` that is a list or a dict is rendered with single quotes around its strings. Python's choice of quote and its escaping are not modelled.
- Json.Get: an object is a sequence of members, and a lookup returns the first member with the key. Objects are assumed to have distinct keys, as decoding produces them.
