/**
 * The quiz editor for a stored test: the mapping of the loaded test into
 * the editor's questions, the four list updaters and the payload of the
 * update request.
 */
module EditQuiz {
  import opened Wrappers
  import opened Js
  import Lists

  /** A question as the editor holds it. */
  datatype Question = Question(text: string, options: seq<string>, correctIndex: real)

  /** A question as the stored test returns it: `text` and `options` may be
      absent, `correctIndex` may be anything. */
  datatype StoredQuestion = StoredQuestion(text: Option<string>, options: Option<seq<string>>, correctIndex: Value)

  /** What the editor shows: the test ID as its title, the PIN, the questions.
      Title and PIN hold whatever the stored test carried (a stored test may
      have a numeric ID) until they are typed into. */
  datatype Editor = Editor(title: Value, pin: Value, questions: seq<Question>)

  const EmptyOptions: seq<string> := ["", "", "", ""]

  /** `s || ""` */
  function OrEmpty(s: Option<string>): (r: string)
    ensures s.Some? ==> r == s.value
    ensures s.None? ==> r == ""
  {
    if s.Some? && s.value != "" then s.value else ""
  }

  /** The load mapping of one question: missing text becomes "", missing
      options become four empty ones (an empty list stays empty), and a
      correct index that is not a number becomes 0. */
  function LoadQuestion(q: StoredQuestion): (r: Question)
    ensures r.text == OrEmpty(q.text)
    ensures q.options.Some? ==> r.options == q.options.value
    ensures q.options.None? ==> r.options == EmptyOptions
    ensures q.correctIndex.Num? ==> r.correctIndex == q.correctIndex.x
    ensures !q.correctIndex.Num? ==> r.correctIndex == 0.0
  {
    Question(OrEmpty(q.text),
             if q.options.Some? then q.options.value else EmptyOptions,
             if q.correctIndex.Num? then q.correctIndex.x else 0.0)
  }

  /** `v || ""` */
  function OrEmptyValue(v: Value): (r: Value)
    ensures Truthy(v) ==> r == v
    ensures !Truthy(v) ==> r == Str("")
    ensures Truthy(r) || r == Str("")
  {
    if Truthy(v) then v else Str("")
  }

  /** The loaded test: `ID || ""`, `PIN || ""`, and `questions || []` mapped;
      `id` and `pin` are `undefined` when the test lacks them. */
  function Load(id: Value, pin: Value, questions: Option<seq<StoredQuestion>>): (e: Editor)
    ensures e.title == OrEmptyValue(id) && e.pin == OrEmptyValue(pin)
    ensures questions.None? ==> e.questions == []
    ensures questions.Some? ==> |e.questions| == |questions.value|
    ensures questions.Some? ==> forall i :: 0 <= i < |questions.value| ==> e.questions[i] == LoadQuestion(questions.value[i])
  {
    var qs := if questions.Some? then questions.value else [];
    Editor(OrEmptyValue(id), OrEmptyValue(pin), seq(|qs|, i requires 0 <= i < |qs| => LoadQuestion(qs[i])))
  }

  /** A `Partial<Question>`: the fields the patch carries. */
  datatype Patch = Patch(text: Option<string>, options: Option<seq<string>>, correctIndex: Option<real>)

  function Merge(q: Question, patch: Patch): Question {
    Question(if patch.text.Some? then patch.text.value else q.text,
             if patch.options.Some? then patch.options.value else q.options,
             if patch.correctIndex.Some? then patch.correctIndex.value else q.correctIndex)
  }

  /** `updateQuestion`: question `idx` takes the fields the patch carries and
      keeps the others; every other question is unchanged. */
  function UpdateQuestion(qs: seq<Question>, idx: int, patch: Patch): (r: seq<Question>)
    ensures |r| == |qs|
    ensures forall i :: 0 <= i < |qs| && i != idx ==> r[i] == qs[i]
    ensures 0 <= idx < |qs| ==>
      && r[idx].text == (if patch.text.Some? then patch.text.value else qs[idx].text)
      && r[idx].options == (if patch.options.Some? then patch.options.value else qs[idx].options)
      && r[idx].correctIndex == (if patch.correctIndex.Some? then patch.correctIndex.value else qs[idx].correctIndex)
  {
    if 0 <= idx < |qs| then qs[idx := Merge(qs[idx], patch)] else qs
  }

  /** `updateOption`: option `optIdx` of question `qIdx` becomes `value`;
      nothing else changes, and no option list grows or shrinks. */
  function UpdateOption(qs: seq<Question>, qIdx: int, optIdx: int, value: string): (r: seq<Question>)
    ensures |r| == |qs|
    ensures forall i :: 0 <= i < |qs| && i != qIdx ==> r[i] == qs[i]
    ensures forall i :: 0 <= i < |qs| ==> |r[i].options| == |qs[i].options|
    ensures 0 <= qIdx < |qs| ==>
      && r[qIdx].text == qs[qIdx].text && r[qIdx].correctIndex == qs[qIdx].correctIndex
      && (forall j :: 0 <= j < |qs[qIdx].options| && j != optIdx ==> r[qIdx].options[j] == qs[qIdx].options[j])
      && (0 <= optIdx < |qs[qIdx].options| ==> r[qIdx].options[optIdx] == value)
  {
    if 0 <= qIdx < |qs| then
      var q := qs[qIdx];
      var options := if 0 <= optIdx < |q.options| then q.options[optIdx := value] else q.options;
      qs[qIdx := q.(options := options)]
    else qs
  }

  /** `addQuestion`: one question with empty text, four empty options and
      correct index 0 appended. */
  function AddQuestion(qs: seq<Question>): (r: seq<Question>)
    ensures |r| == |qs| + 1 && r[..|qs|] == qs
    ensures r[|qs|] == Question("", EmptyOptions, 0.0)
  {
    qs + [Question("", ["", "", "", ""], 0.0)]
  }

  /** `removeQuestion`: question `idx` removed, the others kept in order; the
      list may become empty, and an index outside it removes nothing. */
  function RemoveQuestion(qs: seq<Question>, idx: int): (r: seq<Question>)
    ensures 0 <= idx < |qs| ==> |r| == |qs| - 1 && r == qs[..idx] + qs[idx + 1..]
    ensures !(0 <= idx < |qs|) ==> r == qs
  {
    Lists.Without(qs, idx)
  }

  /** Removing the question just added gives back the list before. */
  lemma RemoveUndoesAdd(qs: seq<Question>)
    ensures RemoveQuestion(AddQuestion(qs), |qs|) == qs
  {
    assert AddQuestion(qs)[..|qs|] == qs;
  }

  /** The body of the update request. */
  datatype Payload = Payload(tid: int, id: string, pin: string, questions: seq<Question>)

  /** The payload: TID fixed at 1, ID and PIN trimmed, and every question's
      text, options and correct index as edited, in order. `trim` exists on
      strings only: a title or PIN that is still a number or any other
      non-string makes the save throw, and nothing is sent. */
  function SavePayload(e: Editor): (p: Option<Payload>)
    ensures p.Some? <==> e.title.Str? && e.pin.Str?
    ensures p.Some? ==> p.value.tid == 1 && p.value.id == Trim(e.title.s) && p.value.pin == Trim(e.pin.s)
    ensures p.Some? ==> |p.value.questions| == |e.questions|
    ensures p.Some? ==> forall i :: 0 <= i < |e.questions| ==> p.value.questions[i] == e.questions[i]
  {
    if e.title.Str? && e.pin.Str? then
      Some(Payload(1, Trim(e.title.s), Trim(e.pin.s),
                   seq(|e.questions|, i requires 0 <= i < |e.questions| =>
                     Question(e.questions[i].text, e.questions[i].options, e.questions[i].correctIndex))))
    else None
  }

  /** A test stored with a numeric ID opens in the editor, but saving it
      fails until the title is typed into. */
  lemma NumericIdCannotBeSaved(n: real, pin: Value, questions: Option<seq<StoredQuestion>>)
    requires n != 0.0
    ensures Load(Num(n), pin, questions).title == Num(n)
    ensures SavePayload(Load(Num(n), pin, questions)).None?
  {
  }

  /** A saved question as the store hands it back. */
  function Stored(q: Question): StoredQuestion {
    StoredQuestion(Some(q.text), Some(q.options), Num(q.correctIndex))
  }

  /** The stored form of every question, in order. */
  function StoredAll(qs: seq<Question>): (r: seq<StoredQuestion>)
    ensures |r| == |qs| && forall i :: 0 <= i < |qs| ==> r[i] == Stored(qs[i])
  {
    seq(|qs|, i requires 0 <= i < |qs| => Stored(qs[i]))
  }

  /** Loading stored questions gives them back unchanged. */
  lemma LoadStored(id: Value, pin: Value, qs: seq<Question>)
    ensures Load(id, pin, Some(StoredAll(qs))) == Editor(OrEmptyValue(id), OrEmptyValue(pin), qs)
  {
    var loaded := Load(id, pin, Some(StoredAll(qs)));
    forall i | 0 <= i < |qs| ensures loaded.questions[i] == qs[i] {
      assert StoredAll(qs)[i] == Stored(qs[i]);
    }
    assert loaded.questions == qs;
  }

  /** Saving an editor with a string title and PIN. */
  lemma SaveStrings(title: string, pin: string, qs: seq<Question>)
    ensures SavePayload(Editor(Str(title), Str(pin), qs)) == Some(Payload(1, Trim(title), Trim(pin), qs))
  {
    var p := SavePayload(Editor(Str(title), Str(pin), qs));
    assert p.value.questions == qs;
  }

  /** Saving and loading again gives the same questions, and the ID and PIN
      as trimmed. */
  lemma LoadAfterSave(e: Editor)
    ensures var p := SavePayload(e);
      p.Some? ==>
        Load(Str(p.value.id), Str(p.value.pin), Some(StoredAll(p.value.questions)))
          == Editor(Str(p.value.id), Str(p.value.pin), e.questions)
  {
    var p := SavePayload(e);
    if p.Some? {
      SaveStrings(e.title.s, e.pin.s, e.questions);
      var id, pin := p.value.id, p.value.pin;
      LoadStored(Str(id), Str(pin), e.questions);
      assert OrEmptyValue(Str(id)) == Str(id);
      assert OrEmptyValue(Str(pin)) == Str(pin);
    }
  }

  /** A saved test that is loaded and saved again is saved unchanged. */
  lemma SaveIsStable(e: Editor)
    ensures var p := SavePayload(e);
      p.Some? ==> SavePayload(Load(Str(p.value.id), Str(p.value.pin), Some(StoredAll(p.value.questions)))) == p
  {
    var p := SavePayload(e);
    if p.Some? {
      LoadAfterSave(e);
      SaveStrings(e.title.s, e.pin.s, e.questions);
      SaveStrings(p.value.id, p.value.pin, e.questions);
      TrimIdempotent(e.title.s);
      TrimIdempotent(e.pin.s);
    }
  }
}
