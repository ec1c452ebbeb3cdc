/**
 * The Scores collection: one document per (student, test) holding the
 * student's running tally of right and wrong answers, the single-counter
 * update made when a student submits an answer, and the catch-up rule the
 * server applies when the teacher moves on to the next question.
 */
module Scores {
  import opened Wrappers

  /** A value stored in the `SID` or `testID` field of a score document.
      A query matches a number only against a number and a string only
      against a string: `IntKey(123)` and `StrKey("123")` never match. */
  datatype Key = IntKey(n: int) | StrKey(s: string)

  /** A score document; `correct` and `incorrect` are the two counters. */
  datatype ScoreRecord = ScoreRecord(sid: Key, testID: Key, correct: nat, incorrect: nat)

  /** How many questions the record has an outcome for. */
  function Answered(r: ScoreRecord): nat {
    r.correct + r.incorrect
  }

  /** The filter `{SID: sid, testID: testID}`. */
  predicate Matches(r: ScoreRecord, sid: Key, testID: Key) {
    r.sid == sid && r.testID == testID
  }

  /** Every (student, test) pair has at most one document. */
  predicate KeysUnique(rs: seq<ScoreRecord>) {
    forall i, j :: 0 <= i < j < |rs| ==> !Matches(rs[j], rs[i].sid, rs[i].testID)
  }

  /** Both tables hold the same (student, test) pairs at the same positions. */
  predicate SameKeys(rs: seq<ScoreRecord>, rs': seq<ScoreRecord>) {
    |rs'| == |rs| && forall i :: 0 <= i < |rs| ==> rs'[i].sid == rs[i].sid && rs'[i].testID == rs[i].testID
  }

  lemma SameKeysKeepUnique(rs: seq<ScoreRecord>, rs': seq<ScoreRecord>)
    requires SameKeys(rs, rs') && KeysUnique(rs)
    ensures KeysUnique(rs')
  {
  }

  /** The position of the document `updateOne` selects: the first match. */
  function FirstMatch(rs: seq<ScoreRecord>, sid: Key, testID: Key): (k: Option<nat>)
    ensures k.Some? ==> k.value < |rs| && Matches(rs[k.value], sid, testID)
    ensures k.Some? ==> forall j :: 0 <= j < k.value ==> !Matches(rs[j], sid, testID)
    ensures k.None? ==> forall j :: 0 <= j < |rs| ==> !Matches(rs[j], sid, testID)
  {
    if rs == [] then None
    else if Matches(rs[0], sid, testID) then Some(0)
    else match FirstMatch(rs[1..], sid, testID)
      case None => None
      case Some(k) => Some(k + 1)
  }

  /** The `$inc` of one counter. */
  function Bump(r: ScoreRecord, isCorrect: bool): ScoreRecord {
    if isCorrect then r.(correct := r.correct + 1) else r.(incorrect := r.incorrect + 1)
  }

  /**
   * The table after a student's answer is recorded: the first document for
   * (sid, testID) gets one more right or wrong answer; without such a document
   * nothing changes, since the update does not insert.
   */
  function Submitted(rs: seq<ScoreRecord>, sid: Key, testID: Key, isCorrect: bool): (rs': seq<ScoreRecord>)
    ensures SameKeys(rs, rs')
    ensures FirstMatch(rs, sid, testID).None? ==> rs' == rs
    ensures forall i :: 0 <= i < |rs| && FirstMatch(rs, sid, testID) != Some(i) ==> rs'[i] == rs[i]
    ensures FirstMatch(rs, sid, testID).Some? ==>
      var k := FirstMatch(rs, sid, testID).value;
      && rs'[k].correct == rs[k].correct + (if isCorrect then 1 else 0)
      && rs'[k].incorrect == rs[k].incorrect + (if isCorrect then 0 else 1)
      && Answered(rs'[k]) == Answered(rs[k]) + 1
  {
    match FirstMatch(rs, sid, testID)
    case None => rs
    case Some(k) => rs[k := Bump(rs[k], isCorrect)]
  }

  /** With one document per pair, exactly the student's own document changes. */
  lemma SubmitOnlyOwnRecord(rs: seq<ScoreRecord>, sid: Key, testID: Key, isCorrect: bool, i: nat)
    requires i < |rs| && KeysUnique(rs)
    ensures Submitted(rs, sid, testID, isCorrect)[i] != rs[i] <==> Matches(rs[i], sid, testID)
  {
    var k := FirstMatch(rs, sid, testID);
    if Matches(rs[i], sid, testID) {
      assert k.Some? && k.value <= i;
    }
  }

  /**
   * The catch-up rule for one document when the teacher moves to question
   * `n` (counted from 1): a document of this test whose answers add up to
   * less than n - 1 is given one more wrong answer.
   */
  function CaughtUp(r: ScoreRecord, testID: Key, n: int): ScoreRecord {
    if r.testID == testID && Answered(r) < n - 1 then r.(incorrect := r.incorrect + 1) else r
  }

  /**
   * The catch-up applied to every document: no document is added or removed,
   * `correct` never changes, and a document's `incorrect` grows by one
   * exactly when it belongs to the test and is behind question n - 1.
   */
  function CatchUp(rs: seq<ScoreRecord>, testID: Key, n: int): (rs': seq<ScoreRecord>)
    ensures SameKeys(rs, rs')
    ensures forall i :: 0 <= i < |rs| ==> rs'[i].correct == rs[i].correct
    ensures forall i :: 0 <= i < |rs| ==>
      rs'[i].incorrect == rs[i].incorrect + (if rs[i].testID == testID && Answered(rs[i]) < n - 1 then 1 else 0)
  {
    if rs == [] then [] else [CaughtUp(rs[0], testID, n)] + CatchUp(rs[1..], testID, n)
  }

  /** The catch-up acts on each document on its own. */
  lemma {:induction false} CatchUpPointwise(rs: seq<ScoreRecord>, testID: Key, n: int)
    ensures |CatchUp(rs, testID, n)| == |rs|
    ensures forall k :: 0 <= k < |rs| ==> CatchUp(rs, testID, n)[k] == CaughtUp(rs[k], testID, n)
  {
    if rs != [] {
      CatchUpPointwise(rs[1..], testID, n);
    }
  }

  /** The worked example: moving to question 2, (1,0) and (0,1) stay and (0,0) becomes (0,1). */
  lemma CatchUpWorkedExample(a: Key, b: Key, c: Key, t: Key)
    ensures CatchUp([ScoreRecord(a, t, 1, 0), ScoreRecord(b, t, 0, 1), ScoreRecord(c, t, 0, 0)], t, 2)
         == [ScoreRecord(a, t, 1, 0), ScoreRecord(b, t, 0, 1), ScoreRecord(c, t, 0, 1)]
  {
    var rs := [ScoreRecord(a, t, 1, 0), ScoreRecord(b, t, 0, 1), ScoreRecord(c, t, 0, 0)];
    var rs' := CatchUp(rs, t, 2);
    assert rs'[0].incorrect == 0 && rs'[1].incorrect == 1 && rs'[2].incorrect == 1;
  }

  /**
   * The claim of the rule: if before the move to question n every document of
   * the test has an outcome for at least n - 2 questions (at most the one
   * just shown is missing), afterwards every one has at least n - 1, and
   * exactly n - 1 when nobody answered more than once per question.
   */
  lemma {:induction false} CatchUpSynchronises(rs: seq<ScoreRecord>, testID: Key, n: int)
    requires forall i :: 0 <= i < |rs| && rs[i].testID == testID ==> n - 2 <= Answered(rs[i])
    ensures forall i :: 0 <= i < |rs| && rs[i].testID == testID ==> n - 1 <= Answered(CatchUp(rs, testID, n)[i])
    ensures forall i :: 0 <= i < |rs| && rs[i].testID == testID && Answered(rs[i]) <= n - 1 ==>
      Answered(CatchUp(rs, testID, n)[i]) == n - 1
  {
    var rs' := CatchUp(rs, testID, n);
    forall i | 0 <= i < |rs| && rs[i].testID == testID
      ensures n - 1 <= Answered(rs'[i])
      ensures Answered(rs[i]) <= n - 1 ==> Answered(rs'[i]) == n - 1
    {
      assert Answered(rs'[i]) == Answered(rs[i]) + (if Answered(rs[i]) < n - 1 then 1 else 0);
    }
  }

  /** A retried move to the same question changes nothing more, as long as
      every document was at most one question behind before the first. */
  lemma CatchUpRetry(rs: seq<ScoreRecord>, testID: Key, n: int)
    requires forall i :: 0 <= i < |rs| && rs[i].testID == testID ==> n - 2 <= Answered(rs[i])
    ensures CatchUp(CatchUp(rs, testID, n), testID, n) == CatchUp(rs, testID, n)
  {
    CatchUpSynchronises(rs, testID, n);
    var once := CatchUp(rs, testID, n);
    var twice := CatchUp(once, testID, n);
    assert forall i :: 0 <= i < |rs| ==> twice[i] == once[i];
  }

  /** The rule adds one wrong answer per move, not the whole deficit: a
      document two questions behind is still behind afterwards. */
  lemma CatchUpClosesOneQuestion(s: Key, t: Key)
    ensures CatchUp([ScoreRecord(s, t, 0, 0)], t, 3) == [ScoreRecord(s, t, 0, 1)]
    ensures Answered(CatchUp([ScoreRecord(s, t, 0, 0)], t, 3)[0]) < 3 - 1
  {
    var rs' := CatchUp([ScoreRecord(s, t, 0, 0)], t, 3);
    assert rs'[0].incorrect == 1;
  }

  /** The Scores collection as the server's handlers change it. */
  class ScoreTable {
    var records: seq<ScoreRecord>

    constructor (initial: seq<ScoreRecord>)
      ensures records == initial
    {
      records := initial;
    }

    /**
     * `handleSubmitQuestion`: `isCorrect` is the value of the request's
     * `isCorrect == true`. The reply does not depend on the update.
     */
    method SubmitQuestion(id: Key, testID: Key, isCorrect: bool) returns (status: int, message: string)
      modifies this
      ensures records == Submitted(old(records), id, testID, isCorrect)
      ensures status == 200 && message == "question submitted"
    {
      records := Submitted(records, id, testID, isCorrect);
      status, message := 200, "question submitted";
    }

    /**
     * The catch-up that `/api/nextquestion` is documented to perform when
     * the teacher moves to question `n` of `testID`, one document at a time.
     */
    method NextQuestion(testID: Key, n: int)
      modifies this
      ensures records == CatchUp(old(records), testID, n)
    {
      ghost var before := records;
      var i := 0;
      while i < |records|
        invariant 0 <= i <= |records| == |before|
        invariant forall k :: 0 <= k < i ==> records[k] == CaughtUp(before[k], testID, n)
        invariant forall k :: i <= k < |records| ==> records[k] == before[k]
      {
        records := records[i := CaughtUp(records[i], testID, n)];
        i := i + 1;
      }
      CatchUpPointwise(before, testID, n);
    }
  }
}
