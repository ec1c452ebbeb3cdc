/**
 * A live game seen from the Scores collection: a run of answer submissions
 * and teacher moves to the next question for one test, replayed in order.
 * The point of the catch-up rule is that the number of moves alone then
 * says how many questions every participating student has an outcome for.
 */
module LiveProtocol {
  import opened Wrappers
  import opened Scores

  datatype Event =
    | Answer(sid: Key, isCorrect: bool)  // a student's submission for the question on screen
    | Advance                            // the teacher moves on; the catch-up runs

  /** `question` is the question on screen, counted from 1; `answered` holds
      the students who submitted for it. */
  datatype Session = Session(question: nat, answered: set<Key>, records: seq<ScoreRecord>)

  function Step(s: Session, testID: Key, e: Event): Session {
    match e
    case Answer(sid, ok) => Session(s.question, s.answered + {sid}, Submitted(s.records, sid, testID, ok))
    case Advance => Session(s.question + 1, {}, CatchUp(s.records, testID, s.question + 1))
  }

  function Run(s: Session, testID: Key, events: seq<Event>): Session
    decreases |events|
  {
    if events == [] then s else Run(Step(s, testID, events[0]), testID, events[1..])
  }

  function Advances(events: seq<Event>): nat {
    if events == [] then 0 else (if events[0].Advance? then 1 else 0) + Advances(events[1..])
  }

  /** Nobody submits twice for the same question. */
  ghost predicate OncePerQuestion(answered: set<Key>, events: seq<Event>)
    decreases |events|
  {
    events == [] ||
    match events[0]
    case Answer(sid, _) => sid !in answered && OncePerQuestion(answered + {sid}, events[1..])
    case Advance => OncePerQuestion({}, events[1..])
  }

  /** Every document of the test has an outcome for each earlier question,
      plus one for the current question when its student has answered it. */
  ghost predicate InStep(s: Session, testID: Key) {
    && s.question >= 1
    && KeysUnique(s.records)
    && forall i :: 0 <= i < |s.records| && s.records[i].testID == testID ==>
         Answered(s.records[i]) == s.question - 1 + (if s.records[i].sid in s.answered then 1 else 0)
  }

  lemma StepKeepsInStep(s: Session, testID: Key, e: Event)
    requires InStep(s, testID)
    requires e.Answer? ==> e.sid !in s.answered
    ensures InStep(Step(s, testID, e), testID)
  {
    var s' := Step(s, testID, e);
    SameKeysKeepUnique(s.records, s'.records);
    match e
    case Answer(sid, ok) =>
      forall i | 0 <= i < |s.records| && s'.records[i].testID == testID
        ensures Answered(s'.records[i]) == s'.question - 1 + (if s'.records[i].sid in s'.answered then 1 else 0)
      {
        if Matches(s.records[i], sid, testID) {
          SubmitOnlyOwnRecord(s.records, sid, testID, ok, i);
          assert FirstMatch(s.records, sid, testID) == Some(i);
        }
      }
    case Advance =>
      CatchUpSynchronises(s.records, testID, s.question + 1);
  }

  /** Replaying any run that respects one submission per question keeps the
      tallies in step with the teacher's position. */
  lemma {:induction false} RunKeepsInStep(s: Session, testID: Key, events: seq<Event>)
    requires InStep(s, testID) && OncePerQuestion(s.answered, events)
    ensures InStep(Run(s, testID, events), testID)
    ensures Run(s, testID, events).question == s.question + Advances(events)
    decreases |events|
  {
    if events != [] {
      StepKeepsInStep(s, testID, events[0]);
      RunKeepsInStep(Step(s, testID, events[0]), testID, events[1..]);
    }
  }

  /**
   * The number of moves is the source of truth: starting on question 1 with
   * every document of the test at (0,0), after a run that ends with a move
   * every document of the test has an outcome for exactly as many questions
   * as the teacher has moved past.
   */
  lemma AdvanceCountIsTruth(rs: seq<ScoreRecord>, testID: Key, events: seq<Event>)
    requires KeysUnique(rs)
    requires forall i :: 0 <= i < |rs| && rs[i].testID == testID ==> Answered(rs[i]) == 0
    requires OncePerQuestion({}, events)
    requires events != [] && events[|events| - 1].Advance?
    ensures var end := Run(Session(1, {}, rs), testID, events);
      && end.question == 1 + Advances(events)
      && forall i :: 0 <= i < |end.records| && end.records[i].testID == testID ==>
           Answered(end.records[i]) == Advances(events)
  {
    var start := Session(1, {}, rs);
    RunKeepsInStep(start, testID, events);
    var last := |events| - 1;
    RunSplit(start, testID, events[..last], events[last]);
    assert events[..last] + [events[last]] == events;
  }

  lemma {:induction false} RunSplit(s: Session, testID: Key, prefix: seq<Event>, e: Event)
    ensures Run(s, testID, prefix + [e]) == Step(Run(s, testID, prefix), testID, e)
    decreases |prefix|
  {
    if prefix != [] {
      assert (prefix + [e])[1..] == prefix[1..] + [e];
      RunSplit(Step(s, testID, prefix[0]), testID, prefix[1..], e);
    }
  }
}
