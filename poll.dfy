/** main: the start-up check and the polling loop. The HTTP request is replaced
    by an input, the outcome of each cycle's fetch, and the chat by an output,
    the outbox of everything the bot sends, in order. */
module Poll {
  import opened Json
  import opened Errors
  import Response
  import Catalog
  import Tokens

  /** The text start_message sends before the loop. */
  const StartText: string := "Бот запущен"

  /** One message to the chat: a text, or the report main's except clause sends
      for an error (its wording is not modelled, only which error it reports). */
  datatype Outgoing = Text(text: string) | ErrorReport(error: Error)

  /** What the inner loop sent, and the error that stopped it, if any. */
  datatype Formatted = Formatted(sent: seq<string>, failure: Option<Error>)

  /** The inner `for hw in ...` loop: the entries are formatted and sent in
      list order until one of them fails. */
  function FormatHomeworks(homeworks: seq<Value>): Formatted
    decreases |homeworks|
  {
    if homeworks == [] then Formatted([], None)
    else match Catalog.ParseStatus(homeworks[0])
      case Err(e) => Formatted([], Some(e))
      case Ok(m) =>
        var rest := FormatHomeworks(homeworks[1..]);
        Formatted([m] + rest.sent, rest.failure)
  }

  /** The texts sent are those of the longest run of entries, from the front,
      that format; the error is that of the first entry that does not. */
  lemma {:induction false} FormatHomeworksSendsPrefix(homeworks: seq<Value>)
    ensures |FormatHomeworks(homeworks).sent| <= |homeworks|
    ensures forall k :: 0 <= k < |FormatHomeworks(homeworks).sent| ==>
      Catalog.ParseStatus(homeworks[k]) == Ok(FormatHomeworks(homeworks).sent[k])
    ensures FormatHomeworks(homeworks).failure.None? ==> |FormatHomeworks(homeworks).sent| == |homeworks|
    ensures FormatHomeworks(homeworks).failure.Some? ==>
      |FormatHomeworks(homeworks).sent| < |homeworks|
      && Catalog.ParseStatus(homeworks[|FormatHomeworks(homeworks).sent|])
         == Err(FormatHomeworks(homeworks).failure.value)
    decreases |homeworks|
  {
    if homeworks != [] && Catalog.ParseStatus(homeworks[0]).Ok? {
      var tail := homeworks[1..];
      FormatHomeworksSendsPrefix(tail);
      var f := FormatHomeworks(homeworks);
      forall k | 0 <= k < |f.sent|
        ensures Catalog.ParseStatus(homeworks[k]) == Ok(f.sent[k])
      {
        if k > 0 {
          assert homeworks[k] == tail[k - 1];
        }
      }
      if f.failure.Some? {
        assert homeworks[|f.sent|] == tail[|f.sent| - 1];
      }
    }
  }

  /** The current_date step on an accepted answer. */
  function NextCursor(fields: map<string, Value>, cursor: Value): Result<Value>
  {
    if "current_date" !in fields then Ok(cursor)
    else if IsInt(fields["current_date"]) then Ok(fields["current_date"])
    else Err(BadCurrentDate)
  }

  /** The answer carries `date` as its current_date. */
  predicate Serves(fetched: Option<Value>, date: Value)
  {
    fetched.Some? && fetched.value.Dict? && "current_date" in fetched.value.fields
    && fetched.value.fields["current_date"] == date
  }

  /** The result of one pass through the body of main's loop: the texts sent,
      the cursor afterwards, and the error that ended the pass, if any. */
  datatype CycleResult = CycleResult(sent: seq<string>, cursor: Value, failure: Option<Error>)

  /** One pass through the body of main's loop (the try block). */
  function Cycle(cursor: Value, fetched: Option<Value>): (o: CycleResult)
    ensures o.failure.Some? ==> o.cursor == cursor
    ensures o.cursor != cursor ==> Serves(fetched, o.cursor) && IsInt(o.cursor)
    ensures o.failure.None? ==>
      fetched.Some? && Response.CheckResponse(fetched.value).Ok?
      && |o.sent| == |Response.CheckResponse(fetched.value).value|
  {
    match fetched
    case None => CycleResult([], cursor, Some(FetchFailed))
    case Some(response) =>
      match Response.CheckResponse(response)
      case Err(e) => CycleResult([], cursor, Some(e))
      case Ok(homeworks) =>
        var f := FormatHomeworks(homeworks);
        FormatHomeworksSendsPrefix(homeworks);
        if f.failure.Some? then CycleResult(f.sent, cursor, f.failure)
        else match NextCursor(response.fields, cursor)
          case Err(e) => CycleResult(f.sent, cursor, Some(e))
          case Ok(next) => CycleResult(f.sent, next, None)
  }

  /** A failed fetch or a rejected answer sends nothing and keeps the cursor. */
  lemma CycleRejectsBadAnswer(cursor: Value, fetched: Option<Value>)
    requires fetched.None? || Response.CheckResponse(fetched.value).Err?
    ensures Cycle(cursor, fetched) ==
      CycleResult([], cursor, Some(if fetched.None? then FetchFailed else Response.CheckResponse(fetched.value).error))
  {
  }

  /** When every entry formats, one text per entry is sent, in list order. */
  lemma CycleSendsEveryHomeworkInOrder(cursor: Value, response: Value, homeworks: seq<Value>)
    requires Response.CheckResponse(response) == Ok(homeworks)
    requires forall k :: 0 <= k < |homeworks| ==> Catalog.ParseStatus(homeworks[k]).Ok?
    ensures |Cycle(cursor, Some(response)).sent| == |homeworks|
    ensures forall k :: 0 <= k < |homeworks| ==>
      Cycle(cursor, Some(response)).sent[k] == Catalog.ParseStatus(homeworks[k]).value
  {
    FormatHomeworksSendsPrefix(homeworks);
    var f := FormatHomeworks(homeworks);
    assert f.failure.None?;
  }

  /** An empty homework list sends nothing. */
  lemma CycleEmptyListSendsNothing(cursor: Value, response: Value)
    requires Response.CheckResponse(response) == Ok([])
    ensures Cycle(cursor, Some(response)).sent == []
  {
  }

  /** The first entry that fails to format ends the pass with its error: the
      texts of the entries before it have been sent, nothing after it is, and
      the cursor stays. */
  lemma CycleStopsAtFailingHomework(cursor: Value, response: Value, homeworks: seq<Value>, k: nat)
    requires Response.CheckResponse(response) == Ok(homeworks)
    requires k < |homeworks| && Catalog.ParseStatus(homeworks[k]).Err?
    requires forall j :: 0 <= j < k ==> Catalog.ParseStatus(homeworks[j]).Ok?
    ensures Cycle(cursor, Some(response)).failure == Some(Catalog.ParseStatus(homeworks[k]).error)
    ensures Cycle(cursor, Some(response)).cursor == cursor
    ensures |Cycle(cursor, Some(response)).sent| == k
    ensures forall j :: 0 <= j < k ==>
      Cycle(cursor, Some(response)).sent[j] == Catalog.ParseStatus(homeworks[j]).value
  {
    FormatHomeworksSendsPrefix(homeworks);
    var f := FormatHomeworks(homeworks);
    assert |f.sent| <= k;
    assert f.failure.Some? && |f.sent| == k;
  }

  /** After all entries are sent, current_date decides the cursor: absent, it
      stays; an int (a bool included), it is adopted; anything else is an error
      that leaves the cursor as it was. */
  lemma CycleAdoptsCurrentDate(cursor: Value, response: Value, homeworks: seq<Value>)
    requires Response.CheckResponse(response) == Ok(homeworks)
    requires forall k :: 0 <= k < |homeworks| ==> Catalog.ParseStatus(homeworks[k]).Ok?
    ensures "current_date" !in response.fields ==>
      Cycle(cursor, Some(response)).failure.None? && Cycle(cursor, Some(response)).cursor == cursor
    ensures "current_date" in response.fields && IsInt(response.fields["current_date"]) ==>
      Cycle(cursor, Some(response)).failure.None?
      && Cycle(cursor, Some(response)).cursor == response.fields["current_date"]
    ensures "current_date" in response.fields && !IsInt(response.fields["current_date"]) ==>
      Cycle(cursor, Some(response)).failure == Some(BadCurrentDate)
      && Cycle(cursor, Some(response)).cursor == cursor
  {
    FormatHomeworksSendsPrefix(homeworks);
    var f := FormatHomeworks(homeworks);
    assert f.failure.None?;
  }

  /** What a pass sends does not depend on the cursor it starts from. */
  lemma CycleSendsIndependentOfCursor(c1: Value, c2: Value, fetched: Option<Value>)
    ensures Cycle(c1, fetched).sent == Cycle(c2, fetched).sent
    ensures Cycle(c1, fetched).failure == Cycle(c2, fetched).failure
  {
  }

  /** Feeding the same answer twice leaves the cursor where the first pass put it. */
  lemma RepeatedAnswerKeepsCursor(cursor: Value, fetched: Option<Value>)
    ensures Cycle(Cycle(cursor, fetched).cursor, fetched).cursor == Cycle(cursor, fetched).cursor
  {
  }

  /** The cursor follows the server, backwards too: nothing keeps it monotonic. */
  lemma CursorCanMoveBack()
    ensures Cycle(Int(1000), Some(Dict(map["homeworks" := List([]), "current_date" := Int(5)]))).cursor == Int(5)
  {
  }

  /** The state main's loop carries: the cursor, what was sent so far, and the
      from_date each fetch was made with. */
  datatype Session = Session(cursor: Value, outbox: seq<Outgoing>, queried: seq<Value>)

  function Texts(messages: seq<string>): seq<Outgoing>
  {
    seq(|messages|, k requires 0 <= k < |messages| => Text(messages[k]))
  }

  /** What a pass sends: its texts, then the error report when it failed. */
  function Deliveries(o: CycleResult): seq<Outgoing>
  {
    Texts(o.sent) + (if o.failure.Some? then [ErrorReport(o.failure.value)] else [])
  }

  /** One iteration of main's loop: fetch with the cursor, run the pass, send. */
  function Step(s: Session, fetched: Option<Value>): Session
  {
    var o := Cycle(s.cursor, fetched);
    Session(o.cursor, s.outbox + Deliveries(o), s.queried + [s.cursor])
  }

  /** The iterations of main's loop over a run of fetch outcomes. */
  function Steps(s: Session, answers: seq<Option<Value>>): Session
    decreases |answers|
  {
    if answers == [] then s else Step(Steps(s, answers[..|answers| - 1]), answers[|answers| - 1])
  }

  /** A failing pass never ends the loop: every answer is fetched and handled,
      and what was sent before stays sent. */
  lemma {:induction false} StepsHandleEveryAnswer(s: Session, answers: seq<Option<Value>>)
    ensures |Steps(s, answers).queried| == |s.queried| + |answers|
    ensures Steps(s, answers).queried[..|s.queried|] == s.queried
    ensures |s.outbox| <= |Steps(s, answers).outbox|
    ensures Steps(s, answers).outbox[..|s.outbox|] == s.outbox
    decreases |answers|
  {
    if answers != [] {
      var before := Steps(s, answers[..|answers| - 1]);
      StepsHandleEveryAnswer(s, answers[..|answers| - 1]);
      var after := Step(before, answers[|answers| - 1]);
      assert after.queried[..|before.queried|] == before.queried;
      assert after.outbox[..|before.outbox|] == before.outbox;
      assert after.queried[..|s.queried|] == before.queried[..|s.queried|];
      assert after.outbox[..|s.outbox|] == before.outbox[..|s.outbox|];
    }
  }

  /** Each fetch is made with the cursor the earlier iterations left. */
  lemma {:induction false} StepsQueryLatestCursor(s: Session, answers: seq<Option<Value>>, k: nat)
    requires k < |answers|
    ensures |s.queried| + k < |Steps(s, answers).queried|
    ensures Steps(s, answers).queried[|s.queried| + k] == Steps(s, answers[..k]).cursor
    decreases |answers|
  {
    var prefix := answers[..|answers| - 1];
    StepsHandleEveryAnswer(s, prefix);
    if k < |answers| - 1 {
      StepsQueryLatestCursor(s, prefix, k);
      assert prefix[..k] == answers[..k];
    } else {
      assert prefix == answers[..k];
    }
  }

  /** The cursor stays an int, and it only ever takes a current_date value the
      server sent. */
  lemma {:induction false} StepsCursorFromServer(s: Session, answers: seq<Option<Value>>)
    requires IsInt(s.cursor)
    ensures IsInt(Steps(s, answers).cursor)
    ensures Steps(s, answers).cursor == s.cursor
         || exists k :: 0 <= k < |answers| && Serves(answers[k], Steps(s, answers).cursor)
    decreases |answers|
  {
    if answers != [] {
      var prefix := answers[..|answers| - 1];
      StepsCursorFromServer(s, prefix);
      var before := Steps(s, prefix);
      var last := |answers| - 1;
      if Steps(s, answers).cursor != before.cursor {
        assert Serves(answers[last], Steps(s, answers).cursor);
      } else if before.cursor != s.cursor {
        var k :| 0 <= k < |prefix| && Serves(prefix[k], before.cursor);
        assert answers[k] == prefix[k];
      }
    }
  }

  /** FormatHomeworks on the entries from index i on, one entry unfolded. */
  lemma FormatHomeworksFrom(homeworks: seq<Value>, i: nat)
    requires i < |homeworks|
    ensures Catalog.ParseStatus(homeworks[i]).Err? ==>
      FormatHomeworks(homeworks[i..]) == Formatted([], Some(Catalog.ParseStatus(homeworks[i]).error))
    ensures Catalog.ParseStatus(homeworks[i]).Ok? ==>
      FormatHomeworks(homeworks[i..]) ==
        Formatted([Catalog.ParseStatus(homeworks[i]).value] + FormatHomeworks(homeworks[i + 1..]).sent,
                  FormatHomeworks(homeworks[i + 1..]).failure)
  {
  }

  /** The inner `for hw in ...` loop as the code runs it: format and send each
      entry in turn; the first failure stops it and is returned. */
  method SendHomeworks(homeworks: seq<Value>) returns (deliveries: seq<Outgoing>, failure: Option<Error>)
    ensures deliveries == Texts(FormatHomeworks(homeworks).sent)
    ensures failure == FormatHomeworks(homeworks).failure
  {
    deliveries, failure := [], None;
    ghost var sent: seq<string> := [];
    for i := 0 to |homeworks|
      invariant FormatHomeworks(homeworks).sent == sent + FormatHomeworks(homeworks[i..]).sent
      invariant FormatHomeworks(homeworks).failure == FormatHomeworks(homeworks[i..]).failure
      invariant |deliveries| == |sent|
      invariant forall k :: 0 <= k < |sent| ==> deliveries[k] == Text(sent[k])
    {
      var result := Catalog.ParseStatus(homeworks[i]);
      FormatHomeworksFrom(homeworks, i);
      if result.Err? {
        assert sent + [] == sent;
        failure := Some(result.error);
        return;
      }
      sent := sent + [result.value];
      deliveries := deliveries + [Text(result.value)];
    }
    assert homeworks[|homeworks|..] == [];
  }

  /** An approved homework and a current_date of 1000: one text naming hw1 with
      the approved verdict, and the cursor moves to 1000. */
  lemma ApprovedHomeworkScenario(s: Session)
    ensures Step(s, Some(Dict(map[
              "homeworks" := List([Dict(map["homework_name" := Str("hw1"), "status" := Str("approved")])]),
              "current_date" := Int(1000)])))
         == Session(Int(1000),
                    s.outbox + [Text(Catalog.Message("hw1", Catalog.Statuses["approved"]))],
                    s.queried + [s.cursor])
  {
  }

  /** A homework with an unknown status: no text for it, one error report, and
      the cursor stays. */
  lemma UnknownStatusScenario(s: Session)
    ensures Step(s, Some(Dict(map[
              "homeworks" := List([Dict(map["homework_name" := Str("hw2"), "status" := Str("unknown_status")])])])))
         == Session(s.cursor,
                    s.outbox + [ErrorReport(UnknownStatus(Str("unknown_status")))],
                    s.queried + [s.cursor])
  {
  }

  /** One pass through main's loop body, as the code runs it: check the answer,
      send a text per entry, then take current_date; the first error stops the
      pass and is reported. */
  method PollOnce(cursor: Value, fetched: Option<Value>) returns (next: Value, deliveries: seq<Outgoing>)
    ensures next == Cycle(cursor, fetched).cursor
    ensures deliveries == Deliveries(Cycle(cursor, fetched))
  {
    next, deliveries := cursor, [];
    if fetched.None? {
      deliveries := [ErrorReport(FetchFailed)];
      return;
    }
    var response := fetched.value;
    var checked := Response.CheckResponse(response);
    if checked.Err? {
      deliveries := [ErrorReport(checked.error)];
      return;
    }
    var failure;
    deliveries, failure := SendHomeworks(checked.value);
    if failure.Some? {
      deliveries := deliveries + [ErrorReport(failure.value)];
      return;
    }
    var fields := response.fields;
    if "current_date" in fields {
      var date := fields["current_date"];
      if !IsInt(date) {
        deliveries := deliveries + [ErrorReport(BadCurrentDate)];
        return;
      }
      next := date;
    }
  }

  /** main: stop at start-up when check_tokens fails (the `raise` of a logging
      call's None is a TypeError); otherwise send the start text and run one
      iteration per fetch outcome, starting from the start time. */
  method Run(env: Tokens.Env, timeStart: int, answers: seq<Option<Value>>) returns (r: Result<Session>)
    ensures Tokens.CheckTokens(env) != Some(true) ==> r == Err(TokensMissing)
    ensures Tokens.CheckTokens(env) == Some(true) ==>
      r == Ok(Steps(Session(Int(timeStart), [Text(StartText)], []), answers))
  {
    if Tokens.CheckTokens(env) != Some(true) {
      return Err(TokensMissing);
    }
    ghost var start := Session(Int(timeStart), [Text(StartText)], []);
    var cursor := Int(timeStart);
    var outbox := [Text(StartText)];
    var queried := [];
    for i := 0 to |answers|
      invariant Session(cursor, outbox, queried) == Steps(start, answers[..i])
    {
      assert answers[..i + 1][..i] == answers[..i];
      queried := queried + [cursor];
      var next, deliveries := PollOnce(cursor, answers[i]);
      outbox := outbox + deliveries;
      cursor := next;
    }
    assert answers[..|answers|] == answers;
    return Ok(Session(cursor, outbox, queried));
  }
}
