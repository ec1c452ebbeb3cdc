/**
 * `GET` of all score documents of one test (`handleSearchScoresByTest`):
 * a filter of the Scores collection by the `testId` path parameter.
 */
module ScoreSearch {
  import opened Wrappers
  import opened Scores

  datatype SearchBody = ScoreList(list: seq<ScoreRecord>) | Error(message: string)

  datatype SearchReply = SearchReply(status: int, body: SearchBody)

  /** The documents whose `testID` equals `key`, in table order. */
  function OfTest(rs: seq<ScoreRecord>, key: Key): (r: seq<ScoreRecord>)
    ensures |r| <= |rs|
    ensures forall x :: x in r <==> x in rs && x.testID == key
    ensures forall x :: multiset(r)[x] == if x.testID == key then multiset(rs)[x] else 0
  {
    if rs == [] then []
    else
      assert rs == [rs[0]] + rs[1..];
      (if rs[0].testID == key then [rs[0]] else []) + OfTest(rs[1..], key)
  }

  /**
   * `testIdParam` is the path parameter (`None` when absent); `storeFails`
   * says whether the query throws. The parameter is compared as a string:
   * a document whose `testID` is the number 123 is not found by "123".
   */
  function SearchScoresByTest(rs: seq<ScoreRecord>, testIdParam: Option<string>, storeFails: bool): (reply: SearchReply)
    ensures reply.status == 400 <==> testIdParam.None? || testIdParam.value == ""
    ensures reply.status == 400 ==> reply.body == Error("Test ID is required in the URL path.")
    ensures reply.status == 500 <==> testIdParam.Some? && testIdParam.value != "" && storeFails
    ensures reply.status == 500 ==> reply.body.Error?
    ensures reply.status == 200 || reply.status == 400 || reply.status == 500
    ensures reply.status == 200 ==> reply.body.ScoreList?
    ensures reply.status == 200 ==>
      forall x :: x in reply.body.list <==> x in rs && x.testID == StrKey(testIdParam.value)
    ensures reply.status == 200 ==>
      forall x :: multiset(reply.body.list)[x] == if x.testID == StrKey(testIdParam.value) then multiset(rs)[x] else 0
    ensures reply.status == 200 ==> forall x :: x in reply.body.list ==> !x.testID.IntKey?
  {
    match testIdParam
    case None => SearchReply(400, Error("Test ID is required in the URL path."))
    case Some(p) =>
      if p == "" then SearchReply(400, Error("Test ID is required in the URL path."))
      else if storeFails then
        SearchReply(500, Error("An internal server error occurred while fetching scores."))
      else
        var scores := OfTest(rs, StrKey(p));
        if |scores| == 0 then SearchReply(200, ScoreList([])) else SearchReply(200, ScoreList(scores))
  }

  /** A test nobody has a document for gives 200 and an empty list. */
  lemma NoScoresIsEmptyList(rs: seq<ScoreRecord>, p: string)
    requires p != ""
    requires forall i :: 0 <= i < |rs| ==> rs[i].testID != StrKey(p)
    ensures SearchScoresByTest(rs, Some(p), false) == SearchReply(200, ScoreList([]))
  {
    OfTestNone(rs, StrKey(p));
  }

  /** No document of the test: the filter finds nothing. */
  lemma {:induction false} OfTestNone(rs: seq<ScoreRecord>, key: Key)
    requires forall i :: 0 <= i < |rs| ==> rs[i].testID != key
    ensures OfTest(rs, key) == []
  {
    if rs != [] {
      OfTestNone(rs[1..], key);
    }
  }
}
