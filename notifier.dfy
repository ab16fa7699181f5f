/** `send_message`'s deduplication rule, as a function of the last delivered
    text, and the trace it produces over a sequence of texts. */
module Notifier {
  import opened Wrappers

  /** The effect of one `send_message` call: the text handed to the bot, if
      any, and the new value of `last_msg`. */
  datatype Sent = Sent(call: Option<string>, last: string)

  /** `send_message(bot, message)` with `last_msg == last`, where `delivered`
      says whether `bot.send_message` would return normally. */
  function Notify(last: string, message: string, delivered: bool): (r: Sent)
    ensures r.call.Some? ==> r.call.value == message
    ensures r.last in {last, message}
  {
    if last != message then
      Sent(Some(message), if delivered then message else last)
    else
      Sent(None, last)
  }

  /** The bot is called exactly when the text differs from the last
      delivered one, and is called with that text. */
  lemma NotifyCallsOnChange(last: string, message: string, delivered: bool)
    ensures Notify(last, message, delivered).call.Some? <==> message != last
    ensures Notify(last, message, delivered).call.Some? ==>
            Notify(last, message, delivered).call.value == message
  {
  }

  /** `last_msg` moves only when the bot was called and the call returned
      normally, and then it moves to the text just sent. */
  lemma NotifyAdvancesOnDelivery(last: string, message: string, delivered: bool)
    ensures Notify(last, message, delivered).last != last <==>
            Notify(last, message, delivered).call.Some? && delivered
    ensures Notify(last, message, delivered).last in {last, message}
  {
  }

  /** After a delivered text, sending the same text again calls nothing and
      changes nothing. */
  lemma NotifyIdempotent(last: string, message: string, delivered: bool)
    ensures var first := Notify(last, message, true);
            Notify(first.last, message, delivered) == Sent(None, first.last)
  {
  }

  /** A failed send leaves `last_msg` as it was, so the same text is tried
      again on the next call. */
  lemma NotifyRetriesAfterFailure(last: string, message: string, delivered: bool)
    requires last != message
    ensures Notify(last, message, false) == Sent(Some(message), last)
    ensures Notify(Notify(last, message, false).last, message, delivered).call == Some(message)
  {
  }

  // ---------------------------------------------------------------------
  // Traces over several calls

  /** The bot calls made by successive `send_message(texts[i])` calls whose
      sends would succeed as `delivered[i]` says, starting from `last`. */
  function Calls(last: string, texts: seq<string>, delivered: seq<bool>): (r: seq<Option<string>>)
    requires |delivered| == |texts|
    ensures |r| == |texts|
    decreases |texts|
  {
    if texts == [] then []
    else
      var step := Notify(last, texts[0], delivered[0]);
      [step.call] + Calls(step.last, texts[1..], delivered[1..])
  }

  /** `last_msg` after those calls. */
  function LastAfter(last: string, texts: seq<string>, delivered: seq<bool>): string
    requires |delivered| == |texts|
    decreases |texts|
  {
    if texts == [] then last
    else LastAfter(Notify(last, texts[0], delivered[0]).last, texts[1..], delivered[1..])
  }

  /** One more call extends a trace prefix: if `calls` followed by the calls
      from `last` over the suffix at `i` make up the whole trace, then the
      same holds at `i + 1` after the call made at `i`. */
  lemma TraceStep(start: string, texts: seq<string>, delivered: seq<bool>, i: nat,
                  calls: seq<Option<string>>, last: string, call: Option<string>, next: string)
    requires |delivered| == |texts| && i < |texts|
    requires calls + Calls(last, texts[i..], delivered[i..]) == Calls(start, texts, delivered)
    requires LastAfter(last, texts[i..], delivered[i..]) == LastAfter(start, texts, delivered)
    requires Sent(call, next) == Notify(last, texts[i], delivered[i])
    ensures (calls + [call]) + Calls(next, texts[i + 1..], delivered[i + 1..]) ==
            Calls(start, texts, delivered)
    ensures LastAfter(next, texts[i + 1..], delivered[i + 1..]) == LastAfter(start, texts, delivered)
  {
    assert texts[i..][1..] == texts[i + 1..] && delivered[i..][1..] == delivered[i + 1..];
    assert Calls(last, texts[i..], delivered[i..]) ==
           [call] + Calls(next, texts[i + 1..], delivered[i + 1..]);
  }

  /** A new text, the same text again, then another new text, all sends
      succeeding: the bot is called for the first and the third. */
  lemma RepeatThenChange(last: string, first: string, second: string)
    requires last != first && first != second
    ensures Calls(last, [first, first, second], [true, true, true]) == [Some(first), None, Some(second)]
  {
    var texts, delivered := [first, first, second], [true, true, true];
    assert texts[1..] == [first, second] && delivered[1..] == [true, true];
    assert [first, second][1..] == [second] && [true, true][1..] == [true];
    assert Calls(first, [second], [true]) == [Some(second)];
    assert Calls(first, [first, second], [true, true]) == [None, Some(second)];
  }

  /** The number of texts handed to the bot. */
  function CallCount(calls: seq<Option<string>>): nat {
    if calls == [] then 0
    else (if calls[0].Some? then 1 else 0) + CallCount(calls[1..])
  }

  /** The number of bot calls that returned normally. */
  function Deliveries(last: string, texts: seq<string>, delivered: seq<bool>): nat
    requires |delivered| == |texts|
    decreases |texts|
  {
    if texts == [] then 0
    else
      var step := Notify(last, texts[0], delivered[0]);
      (if step.call.Some? && delivered[0] then 1 else 0) +
      Deliveries(step.last, texts[1..], delivered[1..])
  }

  /** The number of runs of equal texts: positions whose text differs from
      the one before it (`prev` before the first). */
  function Changes(prev: string, texts: seq<string>): nat
    decreases |texts|
  {
    if texts == [] then 0
    else (if texts[0] != prev then 1 else 0) + Changes(texts[0], texts[1..])
  }

  /** Each run of equal texts is delivered at most once; a text already
      pending after a failed send (`last != prev`) may add one delivery. */
  lemma {:induction false} DeliveriesWithinChanges(last: string, prev: string,
                                                   texts: seq<string>, delivered: seq<bool>)
    requires |delivered| == |texts|
    ensures Deliveries(last, texts, delivered) <= Changes(prev, texts) + (if last == prev then 0 else 1)
    decreases |texts|
  {
    if texts != [] {
      var step := Notify(last, texts[0], delivered[0]);
      DeliveriesWithinChanges(step.last, texts[0], texts[1..], delivered[1..]);
    }
  }

  /** Starting from the last delivered text, the bot delivers no more often
      than the texts change: in all, at most one delivery per run of equal
      texts. */
  lemma AtMostOneDeliveryPerRun(last: string, texts: seq<string>, delivered: seq<bool>)
    requires |delivered| == |texts|
    ensures Deliveries(last, texts, delivered) <= Changes(last, texts)
  {
    DeliveriesWithinChanges(last, last, texts, delivered);
  }

  /** When every send succeeds, every call is a delivery. */
  lemma {:induction false} CallsAreDeliveries(last: string, texts: seq<string>, delivered: seq<bool>)
    requires |delivered| == |texts|
    requires forall i :: 0 <= i < |delivered| ==> delivered[i]
    ensures CallCount(Calls(last, texts, delivered)) == Deliveries(last, texts, delivered)
    decreases |texts|
  {
    if texts != [] {
      var step := Notify(last, texts[0], delivered[0]);
      CallsAreDeliveries(step.last, texts[1..], delivered[1..]);
    }
  }

  /** A run of one repeated text counts as a single change. */
  lemma {:induction false} ChangesOfRepeat(prev: string, text: string, texts: seq<string>)
    requires forall i :: 0 <= i < |texts| ==> texts[i] == text
    ensures Changes(prev, texts) <= 1
    ensures Changes(text, texts) == 0
    decreases |texts|
  {
    if texts != [] {
      ChangesOfRepeat(text, text, texts[1..]);
    }
  }

  /** While every send succeeds, consecutive identical texts call the bot at
      most once in all. */
  lemma RepeatedTextCallsOnce(last: string, text: string, texts: seq<string>, delivered: seq<bool>)
    requires |delivered| == |texts|
    requires forall i :: 0 <= i < |texts| ==> texts[i] == text
    requires forall i :: 0 <= i < |delivered| ==> delivered[i]
    ensures CallCount(Calls(last, texts, delivered)) <= 1
  {
    CallsAreDeliveries(last, texts, delivered);
    AtMostOneDeliveryPerRun(last, texts, delivered);
    ChangesOfRepeat(last, text, texts);
  }
}
