/**
 * The quiz-authoring page: the list of draft questions and the editors
 * that change one question (or one option of one question) at a time,
 * the validator with its first-failure report, and the save payload.
 * A text or image field that the page leaves absent is modelled as "",
 * which every operation here treats the same way.
 */
module CreateQuiz {
  import opened Wrappers
  import opened Js
  import Lists

  /** An answer option: text or an image (a data URL). */
  datatype Choice = Choice(text: string, imageUrl: string)

  datatype Question = Question(question: string, imageUrl: string, options: seq<Choice>, answer: int)

  datatype QuestionField = QuestionText | QuestionImage
  datatype ChoiceField = ChoiceText | ChoiceImage

  const EmptyChoice := Choice("", "")

  /** The question `addQuestion` appends and the page starts with. */
  const BlankQuestion := Question("", "", [EmptyChoice, EmptyChoice], 0)

  /** Text and image are never both set. */
  predicate Exclusive(text: string, imageUrl: string) {
    !(text != "" && imageUrl != "")
  }

  /** Every question and every option has text or image but not both set. */
  predicate AllExclusive(qs: seq<Question>) {
    forall i :: 0 <= i < |qs| ==>
      && Exclusive(qs[i].question, qs[i].imageUrl)
      && forall j :: 0 <= j < |qs[i].options| ==> Exclusive(qs[i].options[j].text, qs[i].options[j].imageUrl)
  }

  // ---------------------------------------------------------------------------
  // Editors

  function SetField(q: Question, field: QuestionField, value: string): Question {
    match field
    case QuestionText => if value != "" then q.(question := value, imageUrl := "") else q.(question := value)
    case QuestionImage => if value != "" then q.(imageUrl := value, question := "") else q.(imageUrl := value)
  }

  /**
   * `setQuestionField`: question `qIdx` gets `value` in `field`; a non-empty
   * value clears the other field, an empty one leaves it. Options, answer
   * and every other question stay as they were.
   */
  function SetQuestionField(qs: seq<Question>, qIdx: int, field: QuestionField, value: string): (r: seq<Question>)
    ensures |r| == |qs|
    ensures forall i :: 0 <= i < |qs| && i != qIdx ==> r[i] == qs[i]
    ensures 0 <= qIdx < |qs| ==> r[qIdx].options == qs[qIdx].options && r[qIdx].answer == qs[qIdx].answer
    ensures 0 <= qIdx < |qs| && field == QuestionText ==>
      r[qIdx].question == value && r[qIdx].imageUrl == (if value != "" then "" else qs[qIdx].imageUrl)
    ensures 0 <= qIdx < |qs| && field == QuestionImage ==>
      r[qIdx].imageUrl == value && r[qIdx].question == (if value != "" then "" else qs[qIdx].question)
  {
    if 0 <= qIdx < |qs| then qs[qIdx := SetField(qs[qIdx], field, value)] else qs
  }

  function SetChoice(o: Choice, field: ChoiceField, value: string): Choice {
    match field
    case ChoiceText => if value != "" then Choice(value, "") else o.(text := value)
    case ChoiceImage => if value != "" then Choice("", value) else o.(imageUrl := value)
  }

  /**
   * `setOptionField`: option `oIdx` of question `qIdx` gets `value` in
   * `field` with the same exclusivity; nothing else changes.
   */
  function SetOptionField(qs: seq<Question>, qIdx: int, oIdx: int, field: ChoiceField, value: string): (r: seq<Question>)
    ensures |r| == |qs|
    ensures forall i :: 0 <= i < |qs| && i != qIdx ==> r[i] == qs[i]
    ensures 0 <= qIdx < |qs| ==>
      && r[qIdx].question == qs[qIdx].question && r[qIdx].imageUrl == qs[qIdx].imageUrl
      && r[qIdx].answer == qs[qIdx].answer && |r[qIdx].options| == |qs[qIdx].options|
      && (forall j :: 0 <= j < |qs[qIdx].options| && j != oIdx ==> r[qIdx].options[j] == qs[qIdx].options[j])
    ensures 0 <= qIdx < |qs| && 0 <= oIdx < |qs[qIdx].options| && field == ChoiceText ==>
      var o := qs[qIdx].options[oIdx];
      r[qIdx].options[oIdx] == Choice(value, if value != "" then "" else o.imageUrl)
    ensures 0 <= qIdx < |qs| && 0 <= oIdx < |qs[qIdx].options| && field == ChoiceImage ==>
      var o := qs[qIdx].options[oIdx];
      r[qIdx].options[oIdx] == Choice(if value != "" then "" else o.text, value)
  {
    if 0 <= qIdx < |qs| then
      var q := qs[qIdx];
      var options := if 0 <= oIdx < |q.options| then q.options[oIdx := SetChoice(q.options[oIdx], field, value)] else q.options;
      qs[qIdx := q.(options := options)]
    else qs
  }

  /** The editors never produce a question or option with both text and image. */
  lemma EditorsKeepExclusive(qs: seq<Question>, qIdx: int, oIdx: int, qf: QuestionField, cf: ChoiceField, value: string)
    requires AllExclusive(qs)
    ensures AllExclusive(SetQuestionField(qs, qIdx, qf, value))
    ensures AllExclusive(SetOptionField(qs, qIdx, oIdx, cf, value))
  {
    var r := SetOptionField(qs, qIdx, oIdx, cf, value);
    forall i | 0 <= i < |r|
      ensures Exclusive(r[i].question, r[i].imageUrl)
      ensures forall j :: 0 <= j < |r[i].options| ==> Exclusive(r[i].options[j].text, r[i].options[j].imageUrl)
    {
      if i == qIdx {
        forall j | 0 <= j < |r[i].options|
          ensures Exclusive(r[i].options[j].text, r[i].options[j].imageUrl)
        {
          if j != oIdx {
            assert r[i].options[j] == qs[i].options[j];
          }
        }
      }
    }
  }

  /** `setAnswer`: question `qIdx` gets answer `aIdx`, unchecked. */
  function SetAnswer(qs: seq<Question>, qIdx: int, aIdx: int): (r: seq<Question>)
    ensures |r| == |qs|
    ensures forall i :: 0 <= i < |qs| && i != qIdx ==> r[i] == qs[i]
    ensures 0 <= qIdx < |qs| ==> r[qIdx].answer == aIdx && r[qIdx] == qs[qIdx].(answer := aIdx)
  {
    if 0 <= qIdx < |qs| then qs[qIdx := qs[qIdx].(answer := aIdx)] else qs
  }

  /**
   * The option list of `toggleOptionCount`: the first `count` options,
   * padded with empty options up to `count`.
   */
  method ResizedOptions(options: seq<Choice>, count: nat) returns (next: seq<Choice>)
    ensures |next| == count
    ensures forall j :: 0 <= j < count && j < |options| ==> next[j] == options[j]
    ensures forall j :: |options| <= j < count ==> next[j] == EmptyChoice
  {
    next := if count <= |options| then options[..count] else options;
    while |next| < count
      invariant |next| <= count
      invariant |next| >= |options| || |next| == count
      invariant forall j :: 0 <= j < |next| && j < |options| ==> next[j] == options[j]
      invariant forall j :: |options| <= j < |next| ==> next[j] == EmptyChoice
      decreases count - |next|
    {
      next := next + [EmptyChoice];
    }
  }

  /**
   * `toggleOptionCount`: question `qIdx` gets exactly `count` options, its
   * existing ones first, and its answer is pulled down to at most count - 1.
   */
  method ToggleOptionCount(qs: seq<Question>, qIdx: int, count: int) returns (r: seq<Question>)
    requires count == 2 || count == 4
    ensures |r| == |qs|
    ensures forall i :: 0 <= i < |qs| && i != qIdx ==> r[i] == qs[i]
    ensures 0 <= qIdx < |qs| ==>
      var q := qs[qIdx];
      && r[qIdx].question == q.question && r[qIdx].imageUrl == q.imageUrl
      && |r[qIdx].options| == count
      && (forall j :: 0 <= j < count && j < |q.options| ==> r[qIdx].options[j] == q.options[j])
      && (forall j :: |q.options| <= j < count ==> r[qIdx].options[j] == EmptyChoice)
      && r[qIdx].answer == (if q.answer < count - 1 then q.answer else count - 1)
    ensures 0 <= qIdx < |qs| && qs[qIdx].answer >= 0 ==> 0 <= r[qIdx].answer < |r[qIdx].options|
  {
    r := qs;
    if 0 <= qIdx < |qs| {
      var q := qs[qIdx];
      var next := ResizedOptions(q.options, count);
      var nextAnswer := if q.answer < count - 1 then q.answer else count - 1;
      r := qs[qIdx := q.(options := next, answer := nextAnswer)];
    }
  }

  /** `addQuestion`: one blank question appended. */
  function AddQuestion(qs: seq<Question>): (r: seq<Question>)
    ensures |r| == |qs| + 1 && r[..|qs|] == qs
    ensures r[|qs|].question == "" && r[|qs|].imageUrl == "" && r[|qs|].answer == 0
    ensures r[|qs|].options == [EmptyChoice, EmptyChoice]
  {
    qs + [BlankQuestion]
  }

  /** `removeQuestion`: the last remaining question is never removed. */
  function RemoveQuestion(qs: seq<Question>, idx: int): (r: seq<Question>)
    ensures |qs| <= 1 ==> r == qs
    ensures |qs| > 1 && 0 <= idx < |qs| ==> r == qs[..idx] + qs[idx + 1..]
    ensures |qs| > 1 && !(0 <= idx < |qs|) ==> r == qs
    ensures qs != [] ==> r != []
  {
    if |qs| > 1 then Lists.Without(qs, idx) else qs
  }

  // ---------------------------------------------------------------------------
  // Validation

  datatype ValidationError =
    | MissingTestId
    | QuestionEmpty(i: nat)
    | QuestionBoth(i: nat)
    | TooFewOptions(i: nat)
    | OptionEmpty(i: nat, j: nat)
    | OptionBoth(i: nat, j: nat)
    | NoAnswer(i: nat)

  /** The closing phrase of each message. */
  function Phrase(e: ValidationError): (r: string)
    requires !e.MissingTestId?
    ensures |r| > 2 && r[0] == ':'
  {
    match e
    case QuestionEmpty(_) => ": enter text or choose an image."
    case QuestionBoth(_) => ": choose text OR image (not both)."
    case TooFewOptions(_) => ": must have 2 or 4 options."
    case OptionEmpty(_, _) => ": enter text or choose an image."
    case OptionBoth(_, _) => ": choose text OR image (not both)."
    case NoAnswer(_) => ": pick a correct option."
  }

  /** What follows "Question {i+1}" in the message of an error about
      question i. */
  function Tail(e: ValidationError): (t: string)
    requires !e.MissingTestId?
    ensures |t| > 2 && !IsDigit(t[0])
  {
    if e.OptionEmpty? || e.OptionBoth? then ", option " + (Decimal(e.j + 1) + Phrase(e)) else Phrase(e)
  }

  /** The message the page shows; questions and options are counted from 1. */
  function Message(e: ValidationError): (m: string)
    ensures m != ""
    ensures e.MissingTestId? <==> m == "Please enter a Quiz/Test ID."
  {
    if e.MissingTestId? then "Please enter a Quiz/Test ID."
    else
      var m := "Question " + (Decimal(e.i + 1) + Tail(e));
      assert m[0] == 'Q';
      m
  }

  /** The message names the failing question, counted from 1. */
  lemma MessageNamesQuestion(e: ValidationError)
    requires !e.MissingTestId?
    ensures var m := Message(e);
      m[..9] == "Question " && DigitPrefix(m[9..]) == Decimal(e.i + 1) && DigitsValue(DigitPrefix(m[9..])) == e.i + 1
  {
    var d, t := Decimal(e.i + 1), Tail(e);
    var h := "Question ";
    assert |h| == 9;
    var m := Message(e);
    assert m == h + (d + t);
    assert m[9..] == d + t;
    DigitPrefixOf(d, t);
    DecimalRoundTrip(e.i + 1);
  }

  /** The closing phrases tell the checks apart. */
  lemma PhraseTellsCheck(e1: ValidationError, e2: ValidationError)
    requires !e1.MissingTestId? && !e2.MissingTestId?
    requires (e1.OptionEmpty? || e1.OptionBoth?) == (e2.OptionEmpty? || e2.OptionBoth?)
    requires Phrase(e1) == Phrase(e2)
    ensures e1.QuestionEmpty? == e2.QuestionEmpty? && e1.QuestionBoth? == e2.QuestionBoth?
    ensures e1.TooFewOptions? == e2.TooFewOptions? && e1.NoAnswer? == e2.NoAnswer?
    ensures e1.OptionEmpty? == e2.OptionEmpty? && e1.OptionBoth? == e2.OptionBoth?
  {
    assert Phrase(e1)[2] == Phrase(e2)[2];
  }

  /** Different errors about the same question have different tails. */
  lemma TailInjective(e1: ValidationError, e2: ValidationError)
    requires !e1.MissingTestId? && !e2.MissingTestId? && e1.i == e2.i
    requires Tail(e1) == Tail(e2)
    ensures e1 == e2
  {
    var opt1, opt2 := e1.OptionEmpty? || e1.OptionBoth?, e2.OptionEmpty? || e2.OptionBoth?;
    assert opt1 == opt2 by {
      assert Tail(e1)[0] == Tail(e2)[0];
    }
    if opt1 {
      var sep := ", option ";
      var x1, x2 := Decimal(e1.j + 1) + Phrase(e1), Decimal(e2.j + 1) + Phrase(e2);
      assert x1 == (sep + x1)[|sep|..] == (sep + x2)[|sep|..] == x2;
      DigitsThenRest(Decimal(e1.j + 1), Phrase(e1), Decimal(e2.j + 1), Phrase(e2));
      DecimalInjective(e1.j + 1, e2.j + 1);
    }
    PhraseTellsCheck(e1, e2);
  }

  /** No two errors share a message, so the message says which check failed
      and where. */
  lemma MessageInjective(e1: ValidationError, e2: ValidationError)
    requires Message(e1) == Message(e2)
    ensures e1 == e2
  {
    if !e1.MissingTestId? && !e2.MissingTestId? {
      var h := "Question ";
      var x1, x2 := Decimal(e1.i + 1) + Tail(e1), Decimal(e2.i + 1) + Tail(e2);
      assert x1 == (h + x1)[|h|..] == (h + x2)[|h|..] == x2;
      DigitsThenRest(Decimal(e1.i + 1), Tail(e1), Decimal(e2.i + 1), Tail(e2));
      DecimalInjective(e1.i + 1, e2.i + 1);
      TailInjective(e1, e2);
    }
  }

  /** `s.trim() === ""`: nothing but white space (see BlankIsTrimmedAway). */
  predicate Blank(s: string) {
    s == [] || (IsSpace(s[0]) && Blank(s[1..]))
  }

  lemma {:induction false} BlankIsTrimmedAway(s: string)
    ensures Blank(s) <==> Trim(s) == ""
  {
    if s != [] {
      BlankIsTrimmedAway(s[1..]);
      assert AllSpace(s) <==> IsSpace(s[0]) && AllSpace(s[1..]) by {
        BlankSplit(s, 1);
        assert s[..1] == [s[0]];
      }
    }
  }

  /** Text or image is there once blanks are trimmed away. */
  predicate HasContent(text: string, imageUrl: string) {
    !Blank(text) || !Blank(imageUrl)
  }

  predicate ChoiceValid(o: Choice) {
    HasContent(o.text, o.imageUrl) && Exclusive(o.text, o.imageUrl)
  }

  predicate QuestionValid(q: Question) {
    && HasContent(q.question, q.imageUrl)
    && Exclusive(q.question, q.imageUrl)
    && |q.options| >= 2
    && (forall j :: 0 <= j < |q.options| ==> ChoiceValid(q.options[j]))
    && 0 <= q.answer < |q.options|
  }

  /** What the validator accepts, stated without its order of checks. */
  predicate QuizValid(testId: string, qs: seq<Question>) {
    !Blank(testId) && forall i :: 0 <= i < |qs| ==> QuestionValid(qs[i])
  }

  /** The first failing option of question `i` from option `j` on. */
  function ChoicesFault(opts: seq<Choice>, i: nat, j: nat): (e: Option<ValidationError>)
    ensures e.Some? ==> (e.value.OptionEmpty? || e.value.OptionBoth?) && e.value.i == i && j <= e.value.j < |opts|
    decreases |opts| - j
  {
    if j >= |opts| then None
    else if !HasContent(opts[j].text, opts[j].imageUrl) then Some(OptionEmpty(i, j))
    else if !Exclusive(opts[j].text, opts[j].imageUrl) then Some(OptionBoth(i, j))
    else ChoicesFault(opts, i, j + 1)
  }

  /** No report exactly when every option from `j` on is valid; a report
      names the first option that is not. */
  lemma {:induction false} ChoicesFaultSpec(opts: seq<Choice>, i: nat, j: nat)
    ensures var e := ChoicesFault(opts, i, j);
      && (e.None? <==> forall k :: j <= k < |opts| ==> ChoiceValid(opts[k]))
      && (e.Some? ==> !ChoiceValid(opts[e.value.j]) && forall k :: j <= k < e.value.j ==> ChoiceValid(opts[k]))
    decreases |opts| - j
  {
    if j < |opts| && ChoiceValid(opts[j]) {
      ChoicesFaultSpec(opts, i, j + 1);
    }
  }

  /** The first failing check of question `q`, numbered `i`. */
  function QuestionFault(q: Question, i: nat): (e: Option<ValidationError>)
    ensures e.Some? ==> !e.value.MissingTestId? && e.value.i == i
  {
    if !HasContent(q.question, q.imageUrl) then Some(QuestionEmpty(i))
    else if !Exclusive(q.question, q.imageUrl) then Some(QuestionBoth(i))
    else if |q.options| < 2 then Some(TooFewOptions(i))
    else match ChoicesFault(q.options, i, 0)
      case Some(e) => Some(e)
      case None => if q.answer < 0 || q.answer >= |q.options| then Some(NoAnswer(i)) else None
  }

  lemma QuestionFaultSpec(q: Question, i: nat)
    ensures QuestionFault(q, i).None? <==> QuestionValid(q)
  {
    ChoicesFaultSpec(q.options, i, 0);
  }

  /** The first failing question from question `i` on. */
  function QuestionsFault(qs: seq<Question>, i: nat): (e: Option<ValidationError>)
    ensures e.Some? ==> !e.value.MissingTestId? && i <= e.value.i < |qs| && QuestionFault(qs[e.value.i], e.value.i) == e
    decreases |qs| - i
  {
    if i >= |qs| then None
    else match QuestionFault(qs[i], i)
      case Some(e) => Some(e)
      case None => QuestionsFault(qs, i + 1)
  }

  lemma {:induction false} QuestionsFaultSpec(qs: seq<Question>, i: nat)
    ensures var e := QuestionsFault(qs, i);
      && (e.None? <==> forall k :: i <= k < |qs| ==> QuestionValid(qs[k]))
      && (e.Some? ==> !QuestionValid(qs[e.value.i]) && forall k :: i <= k < e.value.i ==> QuestionValid(qs[k]))
    decreases |qs| - i
  {
    if i < |qs| {
      QuestionFaultSpec(qs[i], i);
      if QuestionValid(qs[i]) {
        QuestionsFaultSpec(qs, i + 1);
      }
    }
  }

  /**
   * The report of `validate`: a blank test ID first, then the first failing
   * question in order, and within it the first failing check, options in order.
   */
  function FirstFault(testId: string, qs: seq<Question>): (e: Option<ValidationError>)
    ensures e.Some? ==> (e.value.MissingTestId? <==> Blank(testId))
    ensures e.Some? && !e.value.MissingTestId? ==> e.value.i < |qs|
  {
    if Blank(testId) then Some(MissingTestId) else QuestionsFault(qs, 0)
  }

  /** The validator accepts exactly the valid quizzes, and a report names
      the first question that is not valid. */
  lemma FirstFaultSpec(testId: string, qs: seq<Question>)
    ensures FirstFault(testId, qs).None? <==> QuizValid(testId, qs)
    ensures var e := FirstFault(testId, qs);
      e.Some? && !e.value.MissingTestId? ==>
        !QuestionValid(qs[e.value.i]) && forall k :: 0 <= k < e.value.i ==> QuestionValid(qs[k])
  {
    QuestionsFaultSpec(qs, 0);
  }

  /** Three options are accepted: only fewer than two are refused. */
  lemma ThreeOptionsAccepted(testId: string)
    requires !Blank(testId)
    ensures FirstFault(testId, [Question("Q", "", [Choice("a", ""), Choice("b", ""), Choice("c", "")], 2)]).None?
  {
    var q := Question("Q", "", [Choice("a", ""), Choice("b", ""), Choice("c", "")], 2);
    assert forall j :: 0 <= j < |q.options| ==> ChoiceValid(q.options[j]);
    assert QuestionValid(q);
  }

  /** `validate`: the message of the first failing check, or none. A
      message is never empty, so the save stops exactly on an invalid quiz. */
  method Validate(testId: string, qs: seq<Question>) returns (message: Option<string>)
    ensures FirstFault(testId, qs).None? ==> message.None?
    ensures FirstFault(testId, qs).Some? ==> message == Some(Message(FirstFault(testId, qs).value))
    ensures message.None? <==> QuizValid(testId, qs)
    ensures message.Some? ==> message.value != ""
  {
    var err := FindFault(testId, qs);
    message := if err.Some? then Some(Message(err.value)) else None;
  }

  /** The loops of `validate`: over the questions, and over each question's
      options, returning at the first failing check. */
  method FindFault(testId: string, qs: seq<Question>) returns (err: Option<ValidationError>)
    ensures err == FirstFault(testId, qs)
    ensures err.None? <==> QuizValid(testId, qs)
  {
    FirstFaultSpec(testId, qs);
    if Blank(testId) {
      return Some(MissingTestId);
    }
    var i := 0;
    while i < |qs|
      invariant 0 <= i <= |qs|
      invariant QuestionsFault(qs, 0) == QuestionsFault(qs, i)
    {
      var q := qs[i];
      assert QuestionsFault(qs, i) == if QuestionFault(q, i).Some? then QuestionFault(q, i) else QuestionsFault(qs, i + 1);
      var hasQ := !Blank(q.question) || !Blank(q.imageUrl);
      if !hasQ {
        return Some(QuestionEmpty(i));
      }
      if q.question != "" && q.imageUrl != "" {
        return Some(QuestionBoth(i));
      }
      if |q.options| < 2 {
        return Some(TooFewOptions(i));
      }
      var j := 0;
      while j < |q.options|
        invariant 0 <= j <= |q.options|
        invariant ChoicesFault(q.options, i, 0) == ChoicesFault(q.options, i, j)
      {
        var o := q.options[j];
        var hasO := !Blank(o.text) || !Blank(o.imageUrl);
        if !hasO {
          return Some(OptionEmpty(i, j));
        }
        if o.text != "" && o.imageUrl != "" {
          return Some(OptionBoth(i, j));
        }
        j := j + 1;
      }
      if q.answer < 0 || q.answer >= |q.options| {
        return Some(NoAnswer(i));
      }
      i := i + 1;
    }
    return None;
  }

  // ---------------------------------------------------------------------------
  // Save payload

  datatype ChoicePayload = ChoicePayload(text: Option<string>, imageUrl: Option<string>)
  datatype QuestionPayload = QuestionPayload(question: Option<string>, imageUrl: Option<string>,
                                             options: seq<ChoicePayload>, answer: int)
  datatype QuizPayload = QuizPayload(tid: Number, id: string, questions: seq<QuestionPayload>)

  /** `s?.trim() || undefined` */
  function TrimOrUndefined(s: string): (r: Option<string>)
    ensures r.None? <==> AllSpace(s)
    ensures r.Some? ==> r.value == Trim(s) && r.value != "" && Trimmed(r.value)
  {
    if Trim(s) == "" then None else Some(Trim(s))
  }

  /** The teacher ID the page reads once from the stored user record
      (`None` when there is none or it does not parse): `id ?? TID ?? 0`. */
  function TeacherId(userData: Option<Value>): (r: Value)
    ensures userData.None? ==> r == Num(0.0)
    ensures userData.Some? && !Nullish(Get(userData.value, "id")) ==> r == Get(userData.value, "id")
    ensures userData.Some? && Nullish(Get(userData.value, "id")) ==> r == Coalesce(Get(userData.value, "TID"), Num(0.0))
    ensures !Nullish(r)
  {
    match userData
    case None => Num(0.0)
    case Some(u) => Coalesce(Get(u, "id"), Coalesce(Get(u, "TID"), Num(0.0)))
  }

  /** `Number(teacherId) || 0`: 0 whenever the ID converts to NaN or 0. */
  function PayloadTid(teacherId: Value): (r: Number)
    ensures r != NaN
    ensures TruthyNumber(ToNumber(teacherId)) ==> r == ToNumber(teacherId)
    ensures !TruthyNumber(ToNumber(teacherId)) ==> r == Finite(0.0)
  {
    var n := ToNumber(teacherId);
    if TruthyNumber(n) then n else Finite(0.0)
  }

  function ChoiceToPayload(o: Choice): ChoicePayload {
    ChoicePayload(TrimOrUndefined(o.text), TrimOrUndefined(o.imageUrl))
  }

  function QuestionToPayload(q: Question): (p: QuestionPayload)
    ensures |p.options| == |q.options|
    ensures forall j :: 0 <= j < |q.options| ==> p.options[j] == ChoiceToPayload(q.options[j])
  {
    QuestionPayload(TrimOrUndefined(q.question), TrimOrUndefined(q.imageUrl),
                    seq(|q.options|, j requires 0 <= j < |q.options| => ChoiceToPayload(q.options[j])), q.answer)
  }

  /** The body `saveQuiz` posts: every string trimmed, blanks left out, the
      questions and options in the same order, answers as they are. */
  function SavePayload(teacherId: Value, testId: string, qs: seq<Question>): (p: QuizPayload)
    ensures p.tid == PayloadTid(teacherId) && p.id == Trim(testId)
    ensures |p.questions| == |qs|
    ensures forall i :: 0 <= i < |qs| ==> p.questions[i] == QuestionToPayload(qs[i])
  {
    QuizPayload(PayloadTid(teacherId), Trim(testId),
                seq(|qs|, i requires 0 <= i < |qs| => QuestionToPayload(qs[i])))
  }

  /** A quiz the validator accepts is saved with exactly one of text and
      image on every question and every option. */
  lemma ValidQuizSavesOneOfEach(teacherId: Value, testId: string, qs: seq<Question>, i: nat, j: nat)
    requires QuizValid(testId, qs)
    requires i < |qs| && j < |qs[i].options|
    ensures var p := SavePayload(teacherId, testId, qs).questions[i];
      && (p.question.Some? != p.imageUrl.Some?)
      && (p.options[j].text.Some? != p.options[j].imageUrl.Some?)
  {
    var q := qs[i];
    assert QuestionValid(q);
    assert ChoiceValid(q.options[j]);
    ExclusiveTrimmed(q.question, q.imageUrl);
    ExclusiveTrimmed(q.options[j].text, q.options[j].imageUrl);
  }

  /** Text-or-image (after trimming) and not-both (before trimming) leave
      exactly one of the two non-blank. */
  lemma ExclusiveTrimmed(text: string, imageUrl: string)
    requires HasContent(text, imageUrl) && Exclusive(text, imageUrl)
    ensures TrimOrUndefined(text).Some? != TrimOrUndefined(imageUrl).Some?
  {
    BlankIsTrimmedAway(text);
    BlankIsTrimmedAway(imageUrl);
    if text == "" {
      assert AllSpace(text);
    } else {
      assert AllSpace(imageUrl);
    }
  }
}
