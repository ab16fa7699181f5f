/** The bot's mutable state and the steps that update it: the credential
    check run before the loop, `send_message`, `parse_status`, one pass of
    `main`'s loop body, and a bounded run of passes. */
module Relay {
  import opened Wrappers
  import opened Json
  import opened Homework
  import opened Notifier

  /** `check_tokens`: whether the bot must exit, and the names of the tokens
      it reports as missing, in the order it reports them. */
  method CheckTokens(c: Credentials) returns (terminate: bool, logged: seq<string>)
    ensures terminate <==> MissingAny(c)
    ensures logged == (if terminate then MissingNames(Tokens(c)) else [])
  {
    var tokens := Tokens(c);
    var values := [c.practicumToken, c.telegramToken, c.telegramChatId];
    terminate := None in values || Some("") in values;
    assert (None in values) <==> values[0].None? || values[1].None? || values[2].None?;
    assert (Some("") in values) <==> values[0] == Some("") || values[1] == Some("") || values[2] == Some("");
    logged := [];
    if terminate {
      var i := 0;
      while i < |tokens|
        invariant 0 <= i <= |tokens|
        invariant logged == MissingNames(tokens[..i])
      {
        var (token, value) := tokens[i];
        assert tokens[..i + 1][..i] == tokens[..i];
        if value.None? || value.value == "" {
          logged := logged + [token];
        }
        i := i + 1;
      }
      assert tokens[..|tokens|] == tokens;
    }
  }

  /** The two module globals `last_msg` and `previous_status`. */
  class Bot {
    var lastMsg: string
    var previousStatus: string

    constructor ()
      ensures lastMsg == "" && previousStatus == ""
    {
      lastMsg := "";
      previousStatus := "";
    }

    /** `send_message`: `delivered` says whether `bot.send_message` returns
        normally; `call` is the text handed to the bot, if any. */
    method SendMessage(message: string, delivered: bool) returns (call: Option<string>)
      modifies this`lastMsg
      ensures Sent(call, lastMsg) == Notify(old(lastMsg), message, delivered)
    {
      call := None;
      if lastMsg != message {
        call := Some(message);
        if delivered {
          lastMsg := message;
        }
      }
    }

    /** `parse_status`: the text it returns does not depend on the recorded
        status, and the status is recorded only when the text was built. */
    method ParseStatus(homework: Json) returns (r: Result<string, Failure>)
      modifies this`previousStatus
      ensures r.Success? <==> ComposeStatus(homework).Success?
      ensures r.Success? ==> r.value == ComposeStatus(homework).value.0 &&
                             previousStatus == ComposeStatus(homework).value.1
      ensures r.Failure? ==> r.error == ComposeStatus(homework).error &&
                             previousStatus == old(previousStatus)
    {
      var composed := ComposeStatus(homework);
      if composed.Failure? {
        return Failure(composed.error);
      }
      var (message, status) := composed.value;
      if previousStatus != status {
        previousStatus := status;
      }
      return Success(message);
    }

    /** One pass of `main`'s loop body: exactly one `send_message`, of the
        status text or of the failure text. */
    method Iterate(outcome: FetchOutcome, py: PyMessages, delivered: bool) returns (call: Option<string>)
      modifies this
      ensures Sent(call, lastMsg) == Notify(old(lastMsg), IterationMessage(outcome, py), delivered)
      ensures previousStatus ==
              (if Attempt(outcome).Success? then Attempt(outcome).value.1 else old(previousStatus))
    {
      var failure: Failure;
      var answer := GetApiAnswer(outcome);
      if answer.Failure? {
        failure := answer.error;
      } else {
        var checked := CheckResponse(answer.value);
        if checked.Failure? {
          failure := checked.error;
        } else if checked.value == [] {
          failure := NoFirstHomework;
        } else {
          var parsed := ParseStatus(checked.value[0]);
          if parsed.Success? {
            call := SendMessage(parsed.value, delivered);
            return;
          }
          failure := parsed.error;
        }
      }
      call := SendMessage(FailureMessage(failure, py), delivered);
    }

    /** A bounded run of the loop: one pass per fetch outcome, the i-th send
        succeeding as `delivered[i]` says. */
    method Run(outcomes: seq<FetchOutcome>, py: PyMessages, delivered: seq<bool>)
      returns (calls: seq<Option<string>>)
      requires |delivered| == |outcomes|
      modifies this
      ensures calls == Calls(old(lastMsg), Messages(outcomes, py), delivered)
      ensures lastMsg == LastAfter(old(lastMsg), Messages(outcomes, py), delivered)
      ensures previousStatus == LastStatus(old(previousStatus), outcomes)
    {
      ghost var texts := Messages(outcomes, py);
      calls := [];
      var i := 0;
      while i < |outcomes|
        invariant 0 <= i <= |outcomes|
        invariant calls + Calls(lastMsg, texts[i..], delivered[i..]) ==
                  Calls(old(lastMsg), texts, delivered)
        invariant LastAfter(lastMsg, texts[i..], delivered[i..]) ==
                  LastAfter(old(lastMsg), texts, delivered)
        invariant LastStatus(previousStatus, outcomes[i..]) == LastStatus(old(previousStatus), outcomes)
      {
        ghost var before, status := lastMsg, previousStatus;
        var call := Iterate(outcomes[i], py, delivered[i]);
        TraceStep(old(lastMsg), texts, delivered, i, calls, before, call, lastMsg);
        LastStatusStep(old(previousStatus), outcomes, i, status, previousStatus);
        calls := calls + [call];
        i := i + 1;
      }
      assert outcomes[|outcomes|..] == [];
    }
  }

  /** `main`: the credential check, then the loop from the initial state. A
      missing credential ends the program before any fetch or send. */
  method RunBot(c: Credentials, outcomes: seq<FetchOutcome>, py: PyMessages, delivered: seq<bool>)
    returns (terminated: bool, calls: seq<Option<string>>)
    requires |delivered| == |outcomes|
    ensures terminated <==> MissingAny(c)
    ensures terminated ==> calls == []
    ensures !terminated ==> calls == Calls("", Messages(outcomes, py), delivered)
  {
    var logged;
    terminated, logged := CheckTokens(c);
    if terminated {
      calls := [];
      return;
    }
    var bot := new Bot();
    calls := bot.Run(outcomes, py, delivered);
  }

  // ---------------------------------------------------------------------
  // Properties of runs

  /** The same answer on consecutive passes calls the bot at most once while
      sends succeed, whether it ends in a status text or a failure text. */
  lemma RepeatedOutcomeCallsOnce(last: string, outcome: FetchOutcome, n: nat, py: PyMessages)
    ensures CallCount(Calls(last, Messages(seq(n, _ => outcome), py), seq(n, _ => true))) <= 1
  {
    var texts := Messages(seq(n, _ => outcome), py);
    RepeatedTextCallsOnce(last, IterationMessage(outcome, py), texts, seq(n, _ => true));
  }

  /** A homework record as the status API returns it. */
  function Submission(name: string, status: string): Json {
    JObj([("homework_name", JStr(name)), ("status", JStr(status))])
  }

  /** A successful answer listing one homework. */
  function Answer(name: string, status: string): FetchOutcome {
    Response(200, JObj([("homeworks", JArr([Submission(name, status)]))]))
  }

  /** A successful answer listing one homework with a known status is
      announced with that homework's status text. */
  lemma AnswerMessage(name: string, status: string, py: PyMessages)
    requires status in HomeworkVerdicts
    ensures IterationMessage(Answer(name, status), py) == StatusMessage(name, HomeworkVerdicts[status])
  {
    var top := [("homeworks", JArr([Submission(name, status)]))];
    assert [Submission(name, status)] + [] == [Submission(name, status)];
    IterationSuccess(200, top, Submission(name, status).fields, [], name, status, py);
  }

  /** Being taken for review and being approved are announced differently. */
  lemma VerdictTextsDiffer(name: string)
    ensures StatusMessage(name, HomeworkVerdicts["reviewing"]) !=
            StatusMessage(name, HomeworkVerdicts["approved"])
  {
    var reviewing := StatusMessage(name, HomeworkVerdicts["reviewing"]);
    var approved := StatusMessage(name, HomeworkVerdicts["approved"]);
    assert reviewing[|reviewing| - 1] == '.' && approved[|approved| - 1] == '!';
  }

  /** The texts of three passes, one per answer. */
  lemma MessagesOfThree(a: FetchOutcome, b: FetchOutcome, c: FetchOutcome, py: PyMessages)
    ensures Messages([a, b, c], py) ==
            [IterationMessage(a, py), IterationMessage(b, py), IterationMessage(c, py)]
  {
  }

  /** The texts of three passes: reviewing, reviewing again, approved. */
  lemma ReviewThenApproveTexts(py: PyMessages)
    ensures Messages([Answer("Proj1", "reviewing"), Answer("Proj1", "reviewing"),
                      Answer("Proj1", "approved")], py) ==
            [StatusMessage("Proj1", HomeworkVerdicts["reviewing"]),
             StatusMessage("Proj1", HomeworkVerdicts["reviewing"]),
             StatusMessage("Proj1", HomeworkVerdicts["approved"])]
  {
    var first, last := Answer("Proj1", "reviewing"), Answer("Proj1", "approved");
    MessagesOfThree(first, first, last, py);
    AnswerMessage("Proj1", "reviewing", py);
    AnswerMessage("Proj1", "approved", py);
  }

  /** Three passes: the homework is taken for review, the same answer comes
      again, then it is approved. The bot is told twice: once per status. */
  lemma ReviewThenApprove(py: PyMessages)
    ensures Calls("", Messages([Answer("Proj1", "reviewing"), Answer("Proj1", "reviewing"),
                                Answer("Proj1", "approved")], py), [true, true, true]) ==
            [Some(StatusMessage("Proj1", HomeworkVerdicts["reviewing"])),
             None,
             Some(StatusMessage("Proj1", HomeworkVerdicts["approved"]))]
  {
    ReviewThenApproveTexts(py);
    VerdictTextsDiffer("Proj1");
    RepeatThenChange("", StatusMessage("Proj1", HomeworkVerdicts["reviewing"]),
                     StatusMessage("Proj1", HomeworkVerdicts["approved"]));
  }

  /** An HTTP 500 answer from a fresh start: the bot is told that the answer
      is not a dict; the status code is not in the text. */
  lemma ServerErrorReported(body: Json, py: PyMessages, delivered: bool)
    ensures Calls("", Messages([Response(500, body)], py), [delivered]) ==
            [Some(FailurePrefix + NotADictText + ".")]
  {
    IterationHttpError(Response(500, body), py);
  }
}
