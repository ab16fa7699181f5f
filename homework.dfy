/** The pure parts of the bot's poll step: the credential check, the
    classification of the status API's answer, the shape check on the decoded
    body, the composition of the notification text, and the chaining of these
    into the text one loop iteration sends. */
module Homework {
  import opened Wrappers
  import opened Json

  // ---------------------------------------------------------------------
  // Credentials

  /** The three secrets read from the environment; `None` is an unset
      variable. */
  datatype Credentials = Credentials(
    practicumToken: Option<string>,
    telegramToken: Option<string>,
    telegramChatId: Option<string>)

  /** The token dict `check_tokens` builds, in its insertion order. */
  function Tokens(c: Credentials): seq<(string, Option<string>)> {
    [("PRACTICUM_TOKEN", c.practicumToken),
     ("TELEGRAM_TOKEN", c.telegramToken),
     ("TELEGRAM_CHAT_ID", c.telegramChatId)]
  }

  /** A token that is unset or empty. */
  predicate Absent(value: Option<string>) {
    value.None? || value.value == ""
  }

  /** Some credential is unset or empty: the bot refuses to start. */
  predicate MissingAny(c: Credentials) {
    Absent(c.practicumToken) || Absent(c.telegramToken) || Absent(c.telegramChatId)
  }

  /** The names, in order, of the absent tokens among `tokens`; recursion on
      the last entry so that a left-to-right loop can follow it. */
  function MissingNames(tokens: seq<(string, Option<string>)>): (r: seq<string>)
    ensures |r| <= |tokens|
    ensures tokens != [] && Absent(tokens[|tokens| - 1].1) ==> r != [] && r[|r| - 1] == tokens[|tokens| - 1].0
  {
    if tokens == [] then []
    else
      var last := tokens[|tokens| - 1];
      MissingNames(tokens[..|tokens| - 1]) + (if Absent(last.1) then [last.0] else [])
  }

  /** A name is reported exactly when some entry with that name is absent. */
  lemma {:induction false} MissingNamesExact(tokens: seq<(string, Option<string>)>, name: string)
    ensures name in MissingNames(tokens) <==>
            exists i :: 0 <= i < |tokens| && tokens[i].0 == name && Absent(tokens[i].1)
  {
    if tokens != [] {
      var init, last := tokens[..|tokens| - 1], tokens[|tokens| - 1];
      MissingNamesExact(init, name);
      assert name in MissingNames(tokens) <==>
             name in MissingNames(init) || (Absent(last.1) && last.0 == name);
      if i :| 0 <= i < |init| && init[i].0 == name && Absent(init[i].1) {
        assert tokens[i] == init[i];
      }
      if i :| 0 <= i < |tokens| && tokens[i].0 == name && Absent(tokens[i].1) {
        if i < |init| {
          assert init[i] == tokens[i];
        }
      }
    }
  }

  /** For the three credentials, the names reported are those of the absent
      tokens in dict order; so some name is reported exactly when the bot
      refuses to start. */
  lemma MissingNamesOfCredentials(c: Credentials)
    ensures MissingNames(Tokens(c)) ==
            (if Absent(c.practicumToken) then ["PRACTICUM_TOKEN"] else []) +
            (if Absent(c.telegramToken) then ["TELEGRAM_TOKEN"] else []) +
            (if Absent(c.telegramChatId) then ["TELEGRAM_CHAT_ID"] else [])
    ensures MissingNames(Tokens(c)) != [] <==> MissingAny(c)
  {
    var t := Tokens(c);
    assert t[..|t| - 1] == t[..2];
    assert t[..2][..1] == [t[0]];
    assert [t[0]][..0] == [];
    assert MissingNames([t[0]]) == (if Absent(t[0].1) then [t[0].0] else []);
    assert MissingNames(t[..2]) == MissingNames([t[0]]) + (if Absent(t[1].1) then [t[1].0] else []);
  }

  // ---------------------------------------------------------------------
  // Status API client

  /** What one `requests.get` to the status endpoint comes back with: a
      response with its status code and decoded body, or a transport
      failure (`requests.RequestException`). */
  datatype FetchOutcome =
    | Response(statusCode: int, body: Json)
    | TransportError

  const NoContentStatus := 204

  /** Why one iteration of the loop stopped short of a status message. */
  datatype Failure =
      /** `get_api_answer` raised on an HTTP 204 answer. */
    | NoContent
      /** `check_response` raised `TypeError` on a body that is not a dict. */
    | NotADict
      /** An exception inside a `try` whose `except KeyError('...')` clause
          names an instance: the interpreter replaces it with a `TypeError`
          while evaluating the clause, so the handler never runs. */
    | ExceptClause(cause: Cause)
      /** `response['homeworks'][0]` raised `IndexError`. */
    | NoFirstHomework

  /** The exception the broken handler was meant to catch (kept for the
      lemmas; the text sent does not depend on it). */
  datatype Cause =
    | MissingKey(key: string)
    | HomeworksNotAList
    | HomeworkNotADict
    | UnknownStatus(status: Json)

  /** The texts the Python interpreter gives to the exceptions it raises
      itself; the model treats them as given. */
  datatype PyMessages = PyMessages(exceptClauseError: string, indexError: string)

  /** `get_api_answer`: 204 raises; an HTTP error status (what
      `raise_for_status` rejects) or a transport failure is logged and gives
      `None`; any other answer gives its decoded body. */
  function GetApiAnswer(outcome: FetchOutcome): (r: Result<Json, Failure>)
    ensures r.Failure? <==> outcome.Response? && outcome.statusCode == NoContentStatus
    ensures r.Failure? ==> r.error == NoContent
    ensures outcome.TransportError? || 400 <= outcome.statusCode < 600 ==> r == Success(JNull)
    ensures (outcome.Response? && outcome.statusCode != NoContentStatus &&
             !(400 <= outcome.statusCode < 600)) ==> r == Success(outcome.body)
  {
    match outcome
    case TransportError => Success(JNull)
    case Response(code, body) =>
      if code == NoContentStatus then Failure(NoContent)
      else if 400 <= code < 600 then Success(JNull)
      else Success(body)
  }

  // ---------------------------------------------------------------------
  // Response validator

  /** `check_response` together with `main`'s `response['homeworks']`: the
      validated list of homeworks, or the failure that ends the step. */
  function CheckResponse(response: Json): (r: Result<seq<Json>, Failure>)
    ensures r.Success? ==> response.JObj? && ("homeworks", JArr(r.value)) in response.fields
    ensures !response.JObj? ==> r == Failure(NotADict)
  {
    if !response.JObj? then Failure(NotADict)
    else match Get(response.fields, "homeworks")
      case None => Failure(ExceptClause(MissingKey("homeworks")))
      case Some(JArr(homeworks)) => Success(homeworks)
      case Some(_) => Failure(ExceptClause(HomeworksNotAList))
  }

  /** The validator accepts exactly the dicts whose `homeworks` member is a
      list, hands that list on unchanged, and fails on everything else. */
  lemma CheckResponseExact(fields: seq<(string, Json)>, homeworks: seq<Json>)
    requires DistinctKeys(fields)
    ensures CheckResponse(JObj(fields)) == Success(homeworks) <==>
            ("homeworks", JArr(homeworks)) in fields
  {
    if ("homeworks", JArr(homeworks)) in fields {
      GetMember(fields, "homeworks", JArr(homeworks));
    }
  }

  /** The three ways the validator fails, each ending the step. */
  lemma {:induction false} CheckResponseFailures(response: Json)
    ensures !response.JObj? ==> CheckResponse(response) == Failure(NotADict)
    ensures response.JObj? && (forall p :: p in response.fields ==> p.0 != "homeworks") ==>
            CheckResponse(response) == Failure(ExceptClause(MissingKey("homeworks")))
    ensures response.JObj? && DistinctKeys(response.fields) ==>
            forall v :: ("homeworks", v) in response.fields && !v.JArr? ==>
              CheckResponse(response) == Failure(ExceptClause(HomeworksNotAList))
  {
    if response.JObj? && DistinctKeys(response.fields) {
      forall v | ("homeworks", v) in response.fields && !v.JArr?
        ensures CheckResponse(response) == Failure(ExceptClause(HomeworksNotAList))
      {
        GetMember(response.fields, "homeworks", v);
      }
    }
  }

  // ---------------------------------------------------------------------
  // Message composer

  /** `HOMEWORK_VERDICTS`: the verdict text for each known status. */
  const HomeworkVerdicts: map<string, string> := map[
    "approved" := "Работа проверена: ревьюеру всё понравилось. Ура!",
    "reviewing" := "Работа взята на проверку ревьюером.",
    "rejected" := "Работа проверена: у ревьюера есть замечания."
  ]

  const StatusPrefix := "Изменился статус проверки работы \""
  const StatusInfix := "\".\n"

  /** The notification text for a homework name and a verdict. */
  function StatusMessage(name: string, verdict: string): (r: string)
    ensures |r| == |StatusPrefix| + |name| + |StatusInfix| + |verdict|
    ensures r[..|StatusPrefix|] == StatusPrefix
    ensures r[|StatusPrefix|..|StatusPrefix| + |name|] == name
    ensures r[|r| - |verdict|..] == verdict
  {
    StatusPrefix + name + StatusInfix + verdict
  }

  /** Reads the homework name back out of a notification text. */
  function NameIn(text: string, verdict: string): string
    requires |text| >= |StatusPrefix| + |StatusInfix| + |verdict|
  {
    text[|StatusPrefix| .. |text| - |StatusInfix| - |verdict|]
  }

  /** The text names the homework: the name can be read back from it. */
  lemma NameInStatusMessage(name: string, verdict: string)
    ensures |StatusMessage(name, verdict)| >= |StatusPrefix| + |StatusInfix| + |verdict|
    ensures NameIn(StatusMessage(name, verdict), verdict) == name
  {
    var text := StatusMessage(name, verdict);
    assert text == StatusPrefix + (name + (StatusInfix + verdict));
  }

  /** Distinct homework names give distinct texts for the same verdict. */
  lemma StatusMessageInjective(a: string, b: string, verdict: string)
    requires StatusMessage(a, verdict) == StatusMessage(b, verdict)
    ensures a == b
  {
    NameInStatusMessage(a, verdict);
    NameInStatusMessage(b, verdict);
  }

  /** The body of `parse_status`: the notification text and the status it
      records, or the failure that ends the step. It takes nothing but the
      homework, so the text cannot depend on the recorded status. */
  function ComposeStatus(homework: Json): (r: Result<(string, string), Failure>)
    ensures r.Success? ==> r.value.1 in HomeworkVerdicts
    ensures r.Success? ==> homework.JObj? && ("status", JStr(r.value.1)) in homework.fields
    ensures r.Failure? ==> r.error.ExceptClause?
  {
    if !homework.JObj? then Failure(ExceptClause(HomeworkNotADict))
    else match (Get(homework.fields, "homework_name"), Get(homework.fields, "status"))
      case (None, _) => Failure(ExceptClause(MissingKey("homework_name")))
      case (_, None) => Failure(ExceptClause(MissingKey("status")))
      case (Some(name), Some(status)) =>
        if status.JStr? && status.s in HomeworkVerdicts then
          Success((StatusMessage(PyStr(name), HomeworkVerdicts[status.s]), status.s))
        else Failure(ExceptClause(UnknownStatus(status)))
  }

  /** For a homework with name `name` and a known status, the text is exactly
      the status-change line followed by the verdict for that status. */
  lemma ComposeStatusText(fields: seq<(string, Json)>, name: string, status: string)
    requires DistinctKeys(fields)
    requires ("homework_name", JStr(name)) in fields && ("status", JStr(status)) in fields
    requires status in HomeworkVerdicts
    ensures ComposeStatus(JObj(fields)) ==
            Success(("Изменился статус проверки работы \"" + name + "\".\n" + HomeworkVerdicts[status], status))
  {
    GetMember(fields, "homework_name", JStr(name));
    GetMember(fields, "status", JStr(status));
  }

  /** A missing name, a missing status or a status outside the table makes
      the composer fail. */
  lemma ComposeStatusFailures(fields: seq<(string, Json)>)
    ensures (forall p :: p in fields ==> p.0 != "homework_name") ==>
            ComposeStatus(JObj(fields)) == Failure(ExceptClause(MissingKey("homework_name")))
    ensures (forall p :: p in fields ==> p.0 != "status") ==>
            ComposeStatus(JObj(fields)).Failure?
    ensures DistinctKeys(fields) ==>
            forall s :: ("status", s) in fields && !(s.JStr? && s.s in HomeworkVerdicts) ==>
              ComposeStatus(JObj(fields)).Failure?
  {
    if DistinctKeys(fields) {
      forall s | ("status", s) in fields && !(s.JStr? && s.s in HomeworkVerdicts)
        ensures ComposeStatus(JObj(fields)).Failure?
      {
        GetMember(fields, "status", s);
      }
    }
  }

  // ---------------------------------------------------------------------
  // One iteration of the loop body

  /** The body of `main`'s `try`: fetch, validate, take the first homework,
      compose. The result is the text to send and the status `parse_status`
      records, or the failure the `except Exception` catches. */
  function Attempt(outcome: FetchOutcome): (r: Result<(string, string), Failure>)
    ensures r.Success? ==> r.value.1 in HomeworkVerdicts
    ensures outcome.TransportError? ==> r == Failure(NotADict)
    ensures outcome.Response? && outcome.statusCode == NoContentStatus ==> r == Failure(NoContent)
  {
    match GetApiAnswer(outcome)
    case Failure(e) => Failure(e)
    case Success(response) =>
      match CheckResponse(response)
      case Failure(e) => Failure(e)
      case Success(homeworks) =>
        if homeworks == [] then Failure(NoFirstHomework)
        else ComposeStatus(homeworks[0])
  }

  const ApiErrorPrefix := "Ошибка при запросе к API, статус: "
  const NotADictText := "Тип ответа от API не словарь."
  const FailurePrefix := "Сбой в работе программы: "

  /** `str(error)` for the exception that ended the iteration. */
  function ErrorText(failure: Failure, py: PyMessages): (r: string)
    ensures failure.NoContent? ==> r == ApiErrorPrefix + "204"
    ensures failure.ExceptClause? ==> r == py.exceptClauseError
  {
    match failure
    case NoContent =>
      NoContentDecimal();
      ApiErrorPrefix + Decimal(NoContentStatus)
    case NotADict => NotADictText
    case ExceptClause(_) => py.exceptClauseError
    case NoFirstHomework => py.indexError
  }

  /** The text the `except Exception` branch sends. */
  function FailureMessage(failure: Failure, py: PyMessages): (r: string)
    ensures |r| == |FailurePrefix| + |ErrorText(failure, py)| + 1
    ensures r[..|FailurePrefix|] == FailurePrefix && r[|r| - 1] == '.'
  {
    FailurePrefix + ErrorText(failure, py) + "."
  }

  /** The one text an iteration hands to `send_message`. */
  function IterationMessage(outcome: FetchOutcome, py: PyMessages): (r: string)
    ensures Attempt(outcome).Success? ==> r == Attempt(outcome).value.0
    ensures Attempt(outcome).Failure? ==> |r| > |FailurePrefix| && r[..|FailurePrefix|] == FailurePrefix
  {
    match Attempt(outcome)
    case Success((text, _)) => text
    case Failure(e) => FailureMessage(e, py)
  }

  /** The texts successive iterations hand to `send_message`. */
  function Messages(outcomes: seq<FetchOutcome>, py: PyMessages): (r: seq<string>)
    ensures |r| == |outcomes|
    ensures forall i :: 0 <= i < |outcomes| ==> r[i] == IterationMessage(outcomes[i], py)
  {
    seq(|outcomes|, i requires 0 <= i < |outcomes| => IterationMessage(outcomes[i], py))
  }

  /** `previous_status` after successive iterations: the status of the last
      one whose `parse_status` succeeded, or `prev` when none did. */
  function LastStatus(prev: string, outcomes: seq<FetchOutcome>): (r: string)
    ensures r == prev || r in HomeworkVerdicts
    decreases |outcomes|
  {
    if outcomes == [] then prev
    else
      var next := if Attempt(outcomes[0]).Success? then Attempt(outcomes[0]).value.1 else prev;
      LastStatus(next, outcomes[1..])
  }

  /** The recorded status is that of the last successful pass. */
  lemma {:induction false} LastStatusOfLastSuccess(prev: string, outcomes: seq<FetchOutcome>, k: nat)
    requires k < |outcomes| && Attempt(outcomes[k]).Success?
    requires forall j :: k < j < |outcomes| ==> Attempt(outcomes[j]).Failure?
    ensures LastStatus(prev, outcomes) == Attempt(outcomes[k]).value.1
    decreases |outcomes|
  {
    var next := if Attempt(outcomes[0]).Success? then Attempt(outcomes[0]).value.1 else prev;
    var tail := outcomes[1..];
    assert LastStatus(prev, outcomes) == LastStatus(next, tail);
    if k == 0 {
      assert forall j :: 0 <= j < |tail| ==> tail[j] == outcomes[j + 1];
      LastStatusWithoutSuccess(next, tail);
    } else {
      assert tail[k - 1] == outcomes[k];
      assert forall j :: k - 1 < j < |tail| ==> tail[j] == outcomes[j + 1];
      LastStatusOfLastSuccess(next, tail, k - 1);
    }
  }

  /** Passes that all fail leave the recorded status as it was. */
  lemma {:induction false} LastStatusWithoutSuccess(prev: string, outcomes: seq<FetchOutcome>)
    requires forall j :: 0 <= j < |outcomes| ==> Attempt(outcomes[j]).Failure?
    ensures LastStatus(prev, outcomes) == prev
    decreases |outcomes|
  {
    if outcomes != [] {
      LastStatusWithoutSuccess(prev, outcomes[1..]);
    }
  }

  /** One pass taken off the front of the suffix of a run at `i`. */
  lemma LastStatusStep(start: string, outcomes: seq<FetchOutcome>, i: nat, prev: string, next: string)
    requires i < |outcomes|
    requires LastStatus(prev, outcomes[i..]) == LastStatus(start, outcomes)
    requires next == (if Attempt(outcomes[i]).Success? then Attempt(outcomes[i]).value.1 else prev)
    ensures LastStatus(next, outcomes[i + 1..]) == LastStatus(start, outcomes)
  {
    assert outcomes[i..][1..] == outcomes[i + 1..];
  }

  /** `str(204)`. */
  lemma NoContentDecimal()
    ensures Decimal(NoContentStatus) == "204"
  {
    assert Digits(204) == Digits(20) + ['4'];
    assert Digits(20) == Digits(2) + ['0'];
  }

  /** A 204 answer ends the iteration with the API-request error text. */
  lemma IterationNoContent(body: Json, py: PyMessages)
    ensures IterationMessage(Response(204, body), py) == FailurePrefix + ApiErrorPrefix + "204" + "."
  {
    NoContentDecimal();
  }

  /** Any other HTTP error status, or a transport failure, makes
      `get_api_answer` give `None`, which the validator rejects as not a
      dict; the text sent does not mention the status code. */
  lemma IterationHttpError(outcome: FetchOutcome, py: PyMessages)
    requires outcome.TransportError? || 400 <= outcome.statusCode < 600
    ensures GetApiAnswer(outcome) == Success(JNull)
    ensures Attempt(outcome) == Failure(NotADict)
    ensures IterationMessage(outcome, py) == FailurePrefix + NotADictText + "."
  {
  }

  /** An empty `homeworks` list ends the iteration at `[0]`. */
  lemma IterationNoHomeworks(code: int, fields: seq<(string, Json)>, py: PyMessages)
    requires code != 204 && !(400 <= code < 600)
    requires DistinctKeys(fields) && ("homeworks", JArr([])) in fields
    ensures Attempt(Response(code, JObj(fields))) == Failure(NoFirstHomework)
    ensures IterationMessage(Response(code, JObj(fields)), py) ==
            FailurePrefix + py.indexError + "."
  {
    GetMember(fields, "homeworks", JArr([]));
  }

  /** Every failure is reported through the same text template. */
  lemma IterationFailureText(outcome: FetchOutcome, py: PyMessages)
    requires Attempt(outcome).Failure?
    ensures IterationMessage(outcome, py) ==
            FailurePrefix + ErrorText(Attempt(outcome).error, py) + "."
  {
  }

  /** A non-error answer whose `homeworks` list starts with a homework named
      `name` with a known status makes the iteration send that homework's
      status text and record its status, whatever other members the answer
      and the homework carry. */
  lemma IterationSuccess(code: int, top: seq<(string, Json)>, fields: seq<(string, Json)>,
                         rest: seq<Json>, name: string, status: string, py: PyMessages)
    requires code != 204 && !(400 <= code < 600)
    requires DistinctKeys(top) && ("homeworks", JArr([JObj(fields)] + rest)) in top
    requires DistinctKeys(fields)
    requires ("homework_name", JStr(name)) in fields && ("status", JStr(status)) in fields
    requires status in HomeworkVerdicts
    ensures Attempt(Response(code, JObj(top))) ==
            Success((StatusMessage(name, HomeworkVerdicts[status]), status))
    ensures IterationMessage(Response(code, JObj(top)), py) ==
            StatusMessage(name, HomeworkVerdicts[status])
  {
    GetMember(top, "homeworks", JArr([JObj(fields)] + rest));
    ComposeStatusText(fields, name, status);
  }
}
