/**
 * The teacher's live-game screen: picking question text and options out of
 * loosely shaped JSON, finding the teacher ID, deciding between resuming,
 * starting and reviewing a game, handling the reply to "next question",
 * the per-question countdown and the progress label. Every `fetch` and
 * storage read is an input: the reply or the stored value it produced.
 */
module HostQuiz {
  import opened Wrappers
  import opened Js

  const QuestionKeys: seq<string> := ["question", "Question", "prompt", "text", "title"]
  const OptionKeys: seq<string> := ["options", "Options", "choices", "Choices"]
  const TidKeys: seq<string> := ["TID", "teacherId", "ID", "id"]

  /** The position of the first key whose property is neither null nor
      undefined: the operand a chain `src.k0 ?? src.k1 ?? ...` yields. */
  function FirstPresent(src: Value, keys: seq<string>): (k: Option<nat>)
    ensures k.Some? ==> k.value < |keys| && !Nullish(Get(src, keys[k.value]))
    ensures k.Some? ==> forall j :: 0 <= j < k.value ==> Nullish(Get(src, keys[j]))
    ensures k.None? ==> forall j :: 0 <= j < |keys| ==> Nullish(Get(src, keys[j]))
  {
    if keys == [] then None
    else if !Nullish(Get(src, keys[0])) then Some(0)
    else match FirstPresent(src, keys[1..])
      case None => None
      case Some(k) => Some(k + 1)
  }

  /** The chain `src.k0 ?? src.k1 ?? ... ?? src.kn`. */
  function Chain(src: Value, keys: seq<string>): Value
    requires keys != []
  {
    if |keys| == 1 then Get(src, keys[0]) else Coalesce(Get(src, keys[0]), Chain(src, keys[1..]))
  }

  /** A chain yields the property at the first present key, or a nullish
      value when every key is absent. */
  lemma {:induction false} ChainIsFirstPresent(src: Value, keys: seq<string>)
    requires keys != []
    ensures FirstPresent(src, keys).Some? ==> Chain(src, keys) == Get(src, keys[FirstPresent(src, keys).value])
    ensures FirstPresent(src, keys).None? ==> Nullish(Chain(src, keys))
  {
    if |keys| > 1 && Nullish(Get(src, keys[0])) {
      ChainIsFirstPresent(src, keys[1..]);
    }
  }

  /** `pickQuestionText`: the first present one of question, Question,
      prompt, text, title, if it is a string; "" otherwise. */
  function PickQuestionText(src: Value): (r: string)
    ensures !Truthy(src) ==> r == ""
    ensures Truthy(src) && FirstPresent(src, QuestionKeys).None? ==> r == ""
    ensures Truthy(src) && FirstPresent(src, QuestionKeys).Some? ==>
      var v := Get(src, QuestionKeys[FirstPresent(src, QuestionKeys).value]);
      r == if v.Str? then v.s else ""
  {
    if !Truthy(src) then ""
    else
      var cand := Chain(src, QuestionKeys);
      ChainIsFirstPresent(src, QuestionKeys);
      if cand.Str? then cand.s else ""
  }

  /** `pickOptions`: the first present one of options, Options, choices,
      Choices, if it is an array; [] otherwise. */
  function PickOptions(src: Value): (r: seq<Value>)
    ensures !Truthy(src) ==> r == []
    ensures Truthy(src) && FirstPresent(src, OptionKeys).None? ==> r == []
    ensures Truthy(src) && FirstPresent(src, OptionKeys).Some? ==>
      var v := Get(src, OptionKeys[FirstPresent(src, OptionKeys).value]);
      r == if v.Arr? then v.items else []
  {
    if !Truthy(src) then []
    else
      var cand := Chain(src, OptionKeys);
      ChainIsFirstPresent(src, OptionKeys);
      if cand.Arr? then cand.items else []
  }

  /** A stored entry that can serve as the teacher ID: present, non-empty
      and not NaN once converted. */
  predicate UsableEntry(storage: map<string, string>, key: string) {
    key in storage && storage[key] != "" && StringToNumber(storage[key]) != NaN
  }

  /** The position of the first usable stored entry among `keys`. */
  function FirstUsable(storage: map<string, string>, keys: seq<string>): (k: Option<nat>)
    ensures k.Some? ==> k.value < |keys| && UsableEntry(storage, keys[k.value])
    ensures k.Some? ==> forall j :: 0 <= j < k.value ==> !UsableEntry(storage, keys[j])
    ensures k.None? ==> forall j :: 0 <= j < |keys| ==> !UsableEntry(storage, keys[j])
  {
    if keys == [] then None
    else if UsableEntry(storage, keys[0]) then Some(0)
    else
      var rest := FirstUsable(storage, keys[1..]);
      assert forall j :: 1 <= j < |keys| ==> keys[j] == keys[1..][j - 1];
      if rest.None? then None else Some(rest.value + 1)
  }

  /**
   * `getTIDRobust`. `stateTid` is the ID handed over by the previous page,
   * `storage` the local storage, `tokenTid` what the token's claim converts
   * to (None when there is no token, no claim, or it cannot be decoded).
   * A number from the page wins unless it is NaN; then the first usable
   * stored entry in the order TID, teacherId, ID, id; then the token.
   */
  function GetTidRobust(stateTid: Option<Number>, storage: map<string, string>, tokenTid: Option<Number>): (r: Option<Number>)
    ensures r.Some? ==> r.value != NaN
    ensures stateTid.Some? && stateTid.value != NaN ==> r == stateTid
    ensures (stateTid.None? || stateTid.value == NaN) && FirstUsable(storage, TidKeys).Some? ==>
      r == Some(StringToNumber(storage[TidKeys[FirstUsable(storage, TidKeys).value]]))
    ensures r.None? ==> forall j :: 0 <= j < |TidKeys| ==> !UsableEntry(storage, TidKeys[j])
  {
    if stateTid.Some? && stateTid.value != NaN then stateTid
    else match FirstUsable(storage, TidKeys)
      case Some(k) => Some(StringToNumber(storage[TidKeys[k]]))
      case None => if tokenTid.Some? && tokenTid.value != NaN then tokenTid else None
  }

  // ---------------------------------------------------------------------------
  // Start or resume

  /** What a `fetch` ended with: an exception, a non-2xx reply with its body
      text, or a 2xx reply with its parsed JSON body. */
  datatype HttpReply = Thrown(message: string) | NotOk(status: int, body: string) | Ok(json: Value)

  /** The question on screen, as handed to `setQ`. */
  datatype Display = Display(question: Value, options: Value)

  datatype HostError =
    | MissingTid
    | PreflightFailed(status: int, body: string)
    | StartFailed(status: int, body: string)
    | NoUsableQuestion
    | AdvanceFailed(status: int, body: string)
    | BadIndex
    | ReadTestFailed(status: int, body: string)
    | QuestionNotFound(index: Number)
    | Exception(message: string)

  datatype Action =
    | Failed(error: HostError)
    | Resumed(index: nat, display: Display)  // a question other than the first start, at `index`
    | Started(display: Display)              // the game was started; question 1 is shown
    | ToReview                               // navigate to the review page

  /** `total` is what the preflight sets as the number of questions;
      `startCalled` says whether the start request is sent. */
  datatype StartOrResumeResult = StartOrResumeResult(total: Option<nat>, action: Action, startCalled: bool)

  /** What the preflight read of the test yields. */
  datatype Preflight = Preflight(questions: seq<Value>, isLive: bool, currentIdx: Number)

  function ReadPreflight(preJson: Value): Preflight {
    Preflight(
      ItemsOrEmpty(Get(preJson, "questions")),
      Truthy(Coalesce(Get(preJson, "isLive"), Coalesce(Get(preJson, "live"), Get(preJson, "started")))),
      ToNumber(Coalesce(Get(preJson, "currentQuestion"), Coalesce(Get(preJson, "currentIndex"), Num(0.0)))))
  }

  /** The in-range check before resuming: finite, below the count, and a
      (truthy) question stored there. */
  predicate CanShow(questions: seq<Value>, idx: Number) {
    idx.Finite? && idx.x < |questions| as real && Truthy(Index(questions, idx))
  }

  function DisplayOf(q: Value): Display {
    Display(Str(PickQuestionText(q)), Arr(PickOptions(q)))
  }

  function ResumeAt(questions: seq<Value>, idx: Number): (a: Action)
    requires CanShow(questions, idx)
    ensures a.Resumed? && a.index < |questions| && idx == Finite(a.index as real)
    ensures a.display == DisplayOf(questions[a.index])
  {
    Resumed(idx.x.Floor, DisplayOf(questions[idx.x.Floor]))
  }

  function ExceptionMessage(message: string, fallback: string): string {
    if message != "" then message else fallback
  }

  /** The reply to the start request says the game is already live. */
  predicate AlreadyLive(status: int, body: string) {
    status == 400 && Contains(Lower(body), "already live")
  }

  /** The teacher ID found is usable: present, not NaN and not 0. */
  predicate TidUsable(stateTid: Option<Number>, storage: map<string, string>, tokenTid: Option<Number>) {
    TruthyNumber(GetTidRobust(stateTid, storage, tokenTid).GetOr(NaN))
  }

  /** The text picked after a successful start: the start reply's, else the
      first stored question's. */
  function StartText(startJson: Value, questions: seq<Value>): string {
    if PickQuestionText(startJson) != "" then PickQuestionText(startJson)
    else PickQuestionText(Index(questions, Finite(0.0)))
  }

  /** The options picked after a successful start, in the same way. */
  function StartOptions(startJson: Value, questions: seq<Value>): seq<Value> {
    if |PickOptions(startJson)| > 0 then PickOptions(startJson)
    else PickOptions(Index(questions, Finite(0.0)))
  }

  /**
   * `startOrResume`, with the question shown after a successful start
   * being the one the handler picked (text and options of the start reply,
   * else of the first stored question).
   */
  function StartOrResume(stateTid: Option<Number>, storage: map<string, string>, tokenTid: Option<Number>,
                         pre: HttpReply, start: HttpReply): (r: StartOrResumeResult)
    ensures var tid := GetTidRobust(stateTid, storage, tokenTid);
      tid.None? || !TruthyNumber(tid.value) ==> r == StartOrResumeResult(None, Failed(MissingTid), false)
    ensures r.startCalled <==> (TruthyNumber(GetTidRobust(stateTid, storage, tokenTid).GetOr(NaN))
                                && pre.Ok? && !ReadPreflight(pre.json).isLive)
    ensures pre.Ok? && r.total.Some? ==> r.total.value == |ReadPreflight(pre.json).questions|
    ensures r.action.Resumed? ==> pre.Ok?
    ensures r.action.Resumed? ==>
      var p := ReadPreflight(pre.json);
      && CanShow(p.questions, p.currentIdx) && r.action == ResumeAt(p.questions, p.currentIdx)
      && (p.isLive || (start.NotOk? && AlreadyLive(start.status, start.body)))
    ensures r.action.ToReview? <==> (pre.Ok? && r.total.Some? && ReadPreflight(pre.json).isLive
                                     && !CanShow(ReadPreflight(pre.json).questions, ReadPreflight(pre.json).currentIdx))
    ensures r.action.Started? ==> r.startCalled && start.Ok?
    ensures r.action.Started? ==>
      && r.action.display.question.Str? && r.action.display.question.s != ""
      && r.action.display.options.Arr? && r.action.display.options.items != []
    ensures TidUsable(stateTid, storage, tokenTid) && pre.Thrown? ==>
      r == StartOrResumeResult(None, Failed(Exception(ExceptionMessage(pre.message, "Failed to start/resume test."))), false)
    ensures TidUsable(stateTid, storage, tokenTid) && pre.NotOk? ==>
      r == StartOrResumeResult(None, Failed(PreflightFailed(pre.status, pre.body)), false)
    ensures TidUsable(stateTid, storage, tokenTid) && pre.Ok? ==>
      var p := ReadPreflight(pre.json);
      && r.total == Some(|p.questions|)
      && (p.isLive && CanShow(p.questions, p.currentIdx) ==> r.action == ResumeAt(p.questions, p.currentIdx))
      && (!p.isLive && start.NotOk? && AlreadyLive(start.status, start.body) && CanShow(p.questions, p.currentIdx) ==>
            r.action == ResumeAt(p.questions, p.currentIdx))
      && (!p.isLive && start.NotOk? && !(AlreadyLive(start.status, start.body) && CanShow(p.questions, p.currentIdx)) ==>
            r.action == Failed(StartFailed(start.status, start.body)))
      && (!p.isLive && start.Thrown? ==>
            r.action == Failed(Exception(ExceptionMessage(start.message, "Failed to start/resume test."))))
      && (!p.isLive && start.Ok? && (StartText(start.json, p.questions) == "" || StartOptions(start.json, p.questions) == []) ==>
            r.action == Failed(NoUsableQuestion))
      && (!p.isLive && start.Ok? && StartText(start.json, p.questions) != "" && StartOptions(start.json, p.questions) != [] ==>
            r.action == Started(Display(Str(StartText(start.json, p.questions)), Arr(StartOptions(start.json, p.questions)))))
  {
    var tid := GetTidRobust(stateTid, storage, tokenTid);
    if tid.None? || !TruthyNumber(tid.value) then StartOrResumeResult(None, Failed(MissingTid), false)
    else match pre
      case Thrown(m) => StartOrResumeResult(None, Failed(Exception(ExceptionMessage(m, "Failed to start/resume test."))), false)
      case NotOk(status, body) => StartOrResumeResult(None, Failed(PreflightFailed(status, body)), false)
      case Ok(preJson) =>
        var p := ReadPreflight(preJson);
        var total := Some(|p.questions|);
        if p.isLive then
          if CanShow(p.questions, p.currentIdx) then StartOrResumeResult(total, ResumeAt(p.questions, p.currentIdx), false)
          else StartOrResumeResult(total, ToReview, false)
        else match start
          case Thrown(m) =>
            StartOrResumeResult(total, Failed(Exception(ExceptionMessage(m, "Failed to start/resume test."))), true)
          case NotOk(status, body) =>
            if AlreadyLive(status, body) && CanShow(p.questions, p.currentIdx) then
              StartOrResumeResult(total, ResumeAt(p.questions, p.currentIdx), true)
            else StartOrResumeResult(total, Failed(StartFailed(status, body)), true)
          case Ok(startJson) =>
            var text := StartText(startJson, p.questions);
            var opts := StartOptions(startJson, p.questions);
            if text == "" || |opts| == 0 then StartOrResumeResult(total, Failed(NoUsableQuestion), true)
            else StartOrResumeResult(total, Started(Display(Str(text), Arr(opts))), true)
  }

  /** A live game is never started again: the start request is not sent. */
  lemma LiveGameNeverRestarted(stateTid: Option<Number>, storage: map<string, string>, tokenTid: Option<Number>,
                               preJson: Value, start: HttpReply)
    requires ReadPreflight(preJson).isLive
    ensures !StartOrResume(stateTid, storage, tokenTid, Ok(preJson), start).startCalled
    ensures StartOrResume(stateTid, storage, tokenTid, Ok(preJson), start).action.Resumed?
         || StartOrResume(stateTid, storage, tokenTid, Ok(preJson), start).action.ToReview?
         || StartOrResume(stateTid, storage, tokenTid, Ok(preJson), start).action == Failed(MissingTid)
  {
  }

  /** The `TypeError` message for reading a property of `null`, in the
      wording of the V8 engine. */
  const NullQuestionMessage: string := "Cannot read properties of null (reading 'question')"

  /**
   * `startOrResume` as written: after a successful start the picked question
   * is replaced by the start reply's raw `question` and `options` fields.
   * A `null` reply survives the picks (they fall back to the first stored
   * question) but reading `question` of it throws, and the handler reports
   * the exception instead of starting.
   */
  function StartOrResumeAsWritten(stateTid: Option<Number>, storage: map<string, string>, tokenTid: Option<Number>,
                                  pre: HttpReply, start: HttpReply): (r: StartOrResumeResult)
    ensures var c := StartOrResume(stateTid, storage, tokenTid, pre, start);
      !c.action.Started? ==> r == c
    ensures var c := StartOrResume(stateTid, storage, tokenTid, pre, start);
      c.action.Started? && start.Ok? && start.json.Null? ==>
        r == c.(action := Failed(Exception(NullQuestionMessage)))
    ensures r.action.Started? ==> start.Ok? && !start.json.Null?
    ensures r.action.Started? ==>
      r.action.display == Display(Get(start.json, "question"), Get(start.json, "options"))
  {
    var r := StartOrResume(stateTid, storage, tokenTid, pre, start);
    if r.action.Started? && start.Ok? then
      if start.json.Null? then r.(action := Failed(Exception(ExceptionMessage(NullQuestionMessage, "Failed to start/resume test."))))
      else r.(action := Started(Display(Get(start.json, "question"), Get(start.json, "options"))))
    else r
  }

  /** A `null` start reply with a usable first stored question: the intended
      handler starts the game on that question, the handler as written
      reports an exception. */
  lemma StartOrResumeAsWrittenNullReply(tid: real)
    requires tid != 0.0
    ensures var pre := Ok(Obj(map["questions" := Arr([Obj(map["question" := Str("2+2?"), "options" := Arr([Str("4")])])])]));
      && StartOrResume(Some(Finite(tid)), map[], None, pre, Ok(Null)).action
           == Started(Display(Str("2+2?"), Arr([Str("4")])))
      && StartOrResumeAsWritten(Some(Finite(tid)), map[], None, pre, Ok(Null)).action
           == Failed(Exception(NullQuestionMessage))
  {
    var q0 := Obj(map["question" := Str("2+2?"), "options" := Arr([Str("4")])]);
    var preJson := Obj(map["questions" := Arr([q0])]);
    assert GetTidRobust(Some(Finite(tid)), map[], None) == Some(Finite(tid));
    var p := ReadPreflight(preJson);
    assert Get(preJson, "isLive") == Undefined && Get(preJson, "live") == Undefined;
    assert !p.isLive;
    assert p.questions == [q0];
    assert Index(p.questions, Finite(0.0)) == q0;
    assert PickQuestionText(Null) == "" && PickOptions(Null) == [];
    assert PickQuestionText(q0) == "2+2?";
    assert PickOptions(q0) == [Str("4")];
    assert StartText(Null, p.questions) == "2+2?";
    assert StartOptions(Null, p.questions) == [Str("4")];
  }

  /** The discrepancy: a start reply that carries its question under `prompt`
      passes the usability check, yet the screen gets no question text. */
  lemma StartOrResumeAsWrittenDropsPrompt(tid: real)
    requires tid != 0.0
    ensures var pre := Ok(Obj(map["questions" := Arr([])]));
      var start := Ok(Obj(map["prompt" := Str("2+2?"), "options" := Arr([Str("3"), Str("4")])]));
      && StartOrResumeAsWritten(Some(Finite(tid)), map[], None, pre, start).action.Started?
      && StartOrResumeAsWritten(Some(Finite(tid)), map[], None, pre, start).action.display.question == Undefined
      && StartOrResume(Some(Finite(tid)), map[], None, pre, start).action.display.question == Str("2+2?")
  {
    var sj := Obj(map["prompt" := Str("2+2?"), "options" := Arr([Str("3"), Str("4")])]);
    assert Get(sj, "question") == Undefined && Get(sj, "Question") == Undefined;
    assert PickQuestionText(sj) == "2+2?";
    assert PickOptions(sj) == [Str("3"), Str("4")];
  }

  // ---------------------------------------------------------------------------
  // Next question

  datatype NextOutcome =
    | NextFailed(error: HostError)
    | Finished                                        // navigate to the review page
    | NextShown(index: nat, display: Display, total: nat)

  /** `Number(json?.currentQuestion ?? NaN)` */
  function ReplyIndex(json: Value): Number {
    var cq := Get(json, "currentQuestion");
    if Nullish(cq) then NaN else ToNumber(cq)
  }

  /**
   * `goNext`: `next` is the reply to the advance request and `test` the
   * reply to the read of the test that follows it.
   */
  function GoNext(stateTid: Option<Number>, storage: map<string, string>, tokenTid: Option<Number>,
                  next: HttpReply, test: HttpReply): (o: NextOutcome)
    ensures o.Finished? <==> (TruthyNumber(GetTidRobust(stateTid, storage, tokenTid).GetOr(NaN))
                              && next.Ok? && Truthy(Get(next.json, "gameFinished")))
    ensures !TidUsable(stateTid, storage, tokenTid) ==> o == NextFailed(MissingTid)
    ensures TidUsable(stateTid, storage, tokenTid) && next.Thrown? ==>
      o == NextFailed(Exception(ExceptionMessage(next.message, "Failed to advance question.")))
    ensures TidUsable(stateTid, storage, tokenTid) && next.NotOk? ==> o == NextFailed(AdvanceFailed(next.status, next.body))
    ensures TidUsable(stateTid, storage, tokenTid) && next.Ok? && !Truthy(Get(next.json, "gameFinished")) ==>
      var idx := ReplyIndex(next.json);
      && (idx == NaN ==> o == NextFailed(BadIndex))
      && (idx != NaN && test.Thrown? ==> o == NextFailed(Exception(ExceptionMessage(test.message, "Failed to advance question."))))
      && (idx != NaN && test.NotOk? ==> o == NextFailed(ReadTestFailed(test.status, test.body)))
      && (idx != NaN && test.Ok? ==>
            var nextQ := Index(ItemsOrEmpty(Get(test.json, "questions")), idx);
            && (Truthy(nextQ) ==> o.NextShown?)
            && (!Truthy(nextQ) ==> o == NextFailed(QuestionNotFound(idx))))
    ensures o.NextShown? ==> next.Ok? && test.Ok? && o.index < o.total
    ensures o.NextShown? ==>
      && ReplyIndex(next.json) == Finite(o.index as real)
      && o.total == |ItemsOrEmpty(Get(test.json, "questions"))|
      && o.display == DisplayOf(ItemsOrEmpty(Get(test.json, "questions"))[o.index])
  {
    var tid := GetTidRobust(stateTid, storage, tokenTid);
    if tid.None? || !TruthyNumber(tid.value) then NextFailed(MissingTid)
    else match next
      case Thrown(m) => NextFailed(Exception(ExceptionMessage(m, "Failed to advance question.")))
      case NotOk(status, body) => NextFailed(AdvanceFailed(status, body))
      case Ok(json) =>
        if Truthy(Get(json, "gameFinished")) then Finished
        else
          var idx := ReplyIndex(json);
          if idx == NaN then NextFailed(BadIndex)
          else match test
            case Thrown(m) => NextFailed(Exception(ExceptionMessage(m, "Failed to advance question.")))
            case NotOk(status, body) => NextFailed(ReadTestFailed(status, body))
            case Ok(testJson) =>
              var arr := ItemsOrEmpty(Get(testJson, "questions"));
              var nextQ := Index(arr, idx);
              if !Truthy(nextQ) then NextFailed(QuestionNotFound(idx))
              else NextShown(idx.x.Floor, DisplayOf(nextQ), |arr|)
  }

  /** An index the test has no question for is an error, whether it is out
      of range, negative, fractional or infinite. */
  lemma GoNextMissingQuestion(tid: real, json: Value, testJson: Value)
    requires tid != 0.0
    requires !Truthy(Get(json, "gameFinished")) && ReplyIndex(json) != NaN
    requires !Truthy(Index(ItemsOrEmpty(Get(testJson, "questions")), ReplyIndex(json)))
    ensures GoNext(Some(Finite(tid)), map[], None, Ok(json), Ok(testJson)) == NextFailed(QuestionNotFound(ReplyIndex(json)))
  {
  }

  // ---------------------------------------------------------------------------
  // Countdown and progress label

  /** One firing of the countdown interval: above 1 it counts down, at 1 or
      below it shows 0, stops and asks for the next question. */
  datatype TickResult = TickResult(timeLeft: int, advance: bool)

  function TickStep(t: int): TickResult {
    if t <= 1 then TickResult(0, true) else TickResult(t - 1, false)
  }

  /** The countdown after `k` firings from `t` while running: the remaining
      time, how many advances were asked for, and whether it still runs. */
  datatype Countdown = Countdown(timeLeft: int, advances: nat, running: bool)

  function RunCountdown(t: int, k: nat): Countdown {
    if k == 0 then Countdown(t, 0, true)
    else
      var s := TickStep(t);
      if s.advance then Countdown(s.timeLeft, 1, false)
      else RunCountdown(s.timeLeft, k - 1)
  }

  /** A countdown from `t` asks for the next question exactly once, on
      firing max(t, 1), and stops there. */
  lemma {:induction false} CountdownAdvancesOnce(t: int, k: nat)
    ensures var c := RunCountdown(t, k);
      var last := if t < 1 then 1 else t;
      && c.advances == (if k >= last then 1 else 0)
      && c.running == (k < last)
      && c.timeLeft == (if k == 0 then t else if k < last then t - k else 0)
  {
    if k > 0 && t > 1 {
      CountdownAdvancesOnce(t - 1, k - 1);
    }
  }

  /** `Question {qIndex+1} of {total}`, with "?" for a total of 0. */
  function ProgressLabel(qIndex: nat, total: nat): (r: string)
    ensures r == "Question " + Decimal(qIndex + 1) + " of " + (if total == 0 then "?" else Decimal(total))
    ensures total == 0 <==> r[|r| - 1] == '?'
  {
    var count := if total == 0 then "?" else Decimal(total);
    var r := "Question " + Decimal(qIndex + 1) + " of " + count;
    assert r[|r| - 1] == count[|count| - 1];
    r
  }

  /** The digit runs of the label: the question number after "Question "
      and the total at its end. */
  lemma ProgressLabelDigits(qIndex: nat, total: nat)
    ensures var r := ProgressLabel(qIndex, total);
      && r[..9] == "Question "
      && DigitPrefix(r[9..]) == Decimal(qIndex + 1)
      && DigitSuffix(r) == (if total == 0 then "" else Decimal(total))
  {
    var r := ProgressLabel(qIndex, total);
    var n := Decimal(qIndex + 1);
    var count := if total == 0 then "?" else Decimal(total);
    var h := "Question ";
    assert |h| == 9;
    assert r == h + (n + (" of " + count));
    assert r[9..] == n + (" of " + count);
    DigitPrefixOf(n, " of " + count);
    var front := "Question " + n + " of ";
    assert r == front + count;
    if total > 0 {
      DigitSuffixOf(front, count);
    } else {
      assert !IsDigit(r[|r| - 1]);
    }
  }

  /** Reading the label back: the number after "Question " converts to the
      question counted from 1, and the number at its end converts to the
      total; a total of 0 leaves no number there. */
  lemma ProgressLabelReadsBack(qIndex: nat, total: nat)
    ensures var r := ProgressLabel(qIndex, total);
      && r[..9] == "Question "
      && StringToNumber(DigitPrefix(r[9..])) == Finite((qIndex + 1) as real)
      && (total > 0 ==> StringToNumber(DigitSuffix(r)) == Finite(total as real))
      && (total == 0 ==> DigitSuffix(r) == "")
  {
    ProgressLabelDigits(qIndex, total);
    DecimalToNumber(qIndex + 1);
    if total > 0 {
      DecimalToNumber(total);
    }
  }

  /** The host screen's state, as the component's setters change it. */
  class HostScreen {
    const timePerQ: int
    var q: Option<Display>
    var qIndex: nat
    var total: nat
    var timeLeft: int
    var timerOn: bool
    var error: Option<HostError>
    var atReview: bool

    constructor (timePerQ0: int)
      ensures timePerQ == timePerQ0 && q.None? && qIndex == 0 && total == 0
      ensures timeLeft == timePerQ0 && !timerOn && error.None? && !atReview
    {
      timePerQ := timePerQ0;
      q, qIndex, total := None, 0, 0;
      timeLeft, timerOn := timePerQ0, false;
      error, atReview := None, false;
    }

    /** `resetTimer`: the countdown starts over from the time per question. */
    method ResetTimer()
      modifies this
      ensures timerOn && timeLeft == timePerQ
      ensures q == old(q) && qIndex == old(qIndex) && total == old(total)
      ensures error == old(error) && atReview == old(atReview)
    {
      timerOn, timeLeft := true, timePerQ;
    }

    /** One firing of the interval; `advance` says `goNext` is called. */
    method Tick() returns (advance: bool)
      requires timerOn
      modifies this
      ensures TickResult(timeLeft, advance) == TickStep(old(timeLeft))
      ensures timerOn == !advance
      ensures q == old(q) && qIndex == old(qIndex) && total == old(total)
      ensures error == old(error) && atReview == old(atReview)
    {
      if timeLeft <= 1 {
        timerOn := false;
        timeLeft, advance := 0, true;
      } else {
        timeLeft, advance := timeLeft - 1, false;
      }
    }

    /** The state changes `startOrResume` makes for its result. */
    method ApplyStartOrResume(r: StartOrResumeResult)
      modifies this
      ensures total == (if r.total.Some? then r.total.value else old(total))
      ensures r.action.Failed? ==> error == Some(r.action.error) && q == old(q) && qIndex == old(qIndex)
      ensures !r.action.Failed? ==> error.None?
      ensures r.action.Resumed? ==> q == Some(r.action.display) && qIndex == r.action.index
                                    && timerOn && timeLeft == timePerQ
      ensures r.action.Started? ==> q == Some(r.action.display) && qIndex == 0 && timerOn && timeLeft == timePerQ
      ensures r.action.Failed? || r.action.ToReview? ==>
        q == old(q) && qIndex == old(qIndex) && timerOn == old(timerOn) && timeLeft == old(timeLeft)
      ensures atReview == (old(atReview) || r.action.ToReview?)
    {
      error := None;
      if r.total.Some? {
        total := r.total.value;
      }
      match r.action
      case Failed(e) =>
        error := Some(e);
      case Resumed(i, d) =>
        q, qIndex := Some(d), i;
        ResetTimer();
      case Started(d) =>
        q, qIndex := Some(d), 0;
        ResetTimer();
      case ToReview =>
        atReview := true;
    }

    /** The state changes `goNext` makes for its outcome: on any failure the
        question, its index and the total stay as they were. */
    method ApplyNext(o: NextOutcome)
      modifies this
      ensures o.NextFailed? ==> error == Some(o.error) && q == old(q) && qIndex == old(qIndex) && total == old(total)
      ensures o.Finished? ==> atReview && error.None? && q == old(q) && qIndex == old(qIndex) && total == old(total)
      ensures !o.NextShown? ==> timerOn == old(timerOn) && timeLeft == old(timeLeft)
      ensures o.NextShown? ==> q == Some(o.display) && qIndex == o.index && total == o.total
                               && error.None? && timerOn && timeLeft == timePerQ
      ensures atReview == (old(atReview) || o.Finished?)
    {
      error := None;
      match o
      case NextFailed(e) =>
        error := Some(e);
      case Finished =>
        atReview := true;
      case NextShown(i, d, n) =>
        q, qIndex, total := Some(d), i, n;
        ResetTimer();
    }

    /** The label under the countdown. */
    function Label(): (r: string)
      reads this
      ensures r == "Question " + Decimal(qIndex + 1) + " of " + (if total == 0 then "?" else Decimal(total))
      ensures StringToNumber(DigitPrefix(r[9..])) == Finite((qIndex + 1) as real)
      ensures total > 0 ==> StringToNumber(DigitSuffix(r)) == Finite(total as real)
    {
      ProgressLabelReadsBack(qIndex, total);
      ProgressLabel(qIndex, total)
    }
  }
}
