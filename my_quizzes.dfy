/**
 * The teacher's quiz list: the quizzes shown for a search query and a sort
 * choice. Creation times are integer timestamps; titles are ordered by an
 * abstract total order standing for `localeCompare`.
 */
module MyQuizzes {
  import opened Js

  datatype Quiz = Quiz(id: string, title: string, questions: int, createdAt: int)

  /** A total preorder: every two elements compare, and the order chains. */
  ghost predicate TotalPreorder<T(!new)>(le: (T, T) -> bool) {
    && (forall a, b :: le(a, b) || le(b, a))
    && (forall a, b, c :: le(a, b) && le(b, c) ==> le(a, c))
  }

  /** Every earlier element may come before every later one. */
  predicate Sorted<T>(s: seq<T>, le: (T, T) -> bool) {
    forall i, j :: 0 <= i < j < |s| ==> le(s[i], s[j])
  }

  /** `x` placed in front of the first element it may come before. */
  function Insert<T>(x: T, s: seq<T>, le: (T, T) -> bool): (r: seq<T>)
    ensures |r| == |s| + 1 && multiset(r) == multiset(s) + multiset{x}
  {
    if s == [] then [x]
    else if le(x, s[0]) then [x] + s
    else
      assert s == [s[0]] + s[1..];
      [s[0]] + Insert(x, s[1..], le)
  }

  /** The comparator sort: a permutation of its input. */
  function Sort<T>(s: seq<T>, le: (T, T) -> bool): (r: seq<T>)
    ensures |r| == |s| && multiset(r) == multiset(s)
  {
    if s == [] then []
    else
      assert s == [s[0]] + s[1..];
      Insert(s[0], Sort(s[1..], le), le)
  }

  lemma {:induction false} InsertSorted<T(!new)>(x: T, s: seq<T>, le: (T, T) -> bool)
    requires TotalPreorder(le) && Sorted(s, le)
    ensures Sorted(Insert(x, s, le), le)
  {
    if s != [] && !le(x, s[0]) {
      InsertSorted(x, s[1..], le);
      var rest := Insert(x, s[1..], le);
      assert le(s[0], x);
      forall k | 0 <= k < |rest| ensures le(s[0], rest[k]) {
        assert rest[k] in multiset(s[1..]) + multiset{x} by {
          assert rest[k] in multiset(rest);
        }
        if rest[k] != x {
          assert rest[k] in s[1..];
        }
      }
    }
  }

  /** Under a total preorder the result is in order. */
  lemma {:induction false} SortSorted<T(!new)>(s: seq<T>, le: (T, T) -> bool)
    requires TotalPreorder(le)
    ensures Sorted(Sort(s, le), le)
  {
    if s != [] {
      SortSorted(s[1..], le);
      InsertSorted(s[0], Sort(s[1..], le), le);
    }
  }

  /**
   * The comparator of the `shown` list, as "a may come before b" (the
   * comparator is at most 0): "new" puts later creation times first, "old"
   * earlier ones, "a" titles in ascending order, and "z" or anything else
   * titles in descending order.
   */
  function Before(sort: string, titleLe: (string, string) -> bool): (le: (Quiz, Quiz) -> bool) {
    if sort == "new" then (a: Quiz, b: Quiz) => b.createdAt - a.createdAt <= 0
    else if sort == "old" then (a: Quiz, b: Quiz) => a.createdAt - b.createdAt <= 0
    else if sort == "a" then (a: Quiz, b: Quiz) => titleLe(a.title, b.title)
    else (a: Quiz, b: Quiz) => titleLe(b.title, a.title)
  }

  lemma BeforeIsTotalPreorder(sort: string, titleLe: (string, string) -> bool)
    requires TotalPreorder(titleLe)
    ensures TotalPreorder(Before(sort, titleLe))
  {
    var le := Before(sort, titleLe);
    var byTitle := sort != "new" && sort != "old";
    forall a: Quiz, b: Quiz ensures le(a, b) || le(b, a) {
      if byTitle {
        assert titleLe(a.title, b.title) || titleLe(b.title, a.title);
      }
    }
    forall a: Quiz, b: Quiz, c: Quiz | le(a, b) && le(b, c) ensures le(a, c) {
      if sort == "a" {
        assert titleLe(a.title, b.title) && titleLe(b.title, c.title);
      } else if byTitle {
        assert titleLe(c.title, b.title) && titleLe(b.title, a.title);
      }
    }
  }

  /** The quizzes whose lower-cased title contains `q`, in list order. */
  function TitleMatches(quizzes: seq<Quiz>, q: string): (r: seq<Quiz>)
    ensures |r| <= |quizzes|
    ensures forall x :: x in r <==> x in quizzes && Contains(Lower(x.title), q)
    ensures forall x :: multiset(r)[x] == if Contains(Lower(x.title), q) then multiset(quizzes)[x] else 0
    ensures multiset(r) <= multiset(quizzes)
  {
    if quizzes == [] then []
    else
      assert quizzes == [quizzes[0]] + quizzes[1..];
      (if Contains(Lower(quizzes[0].title), q) then [quizzes[0]] else []) + TitleMatches(quizzes[1..], q)
  }

  /** The search query as it is matched: trimmed and lower-cased. */
  function Needle(query: string): string {
    Lower(Trim(query))
  }

  /** The filtered list: a copy of everything for a blank query. */
  function Filtered(quizzes: seq<Quiz>, query: string): (r: seq<Quiz>)
    ensures Needle(query) == "" ==> r == quizzes
    ensures Needle(query) != "" ==> forall x :: x in r <==> x in quizzes && Contains(Lower(x.title), Needle(query))
    ensures Needle(query) != "" ==>
      forall x :: multiset(r)[x] == if Contains(Lower(x.title), Needle(query)) then multiset(quizzes)[x] else 0
    ensures multiset(r) <= multiset(quizzes)
  {
    var q := Needle(query);
    if q != "" then TitleMatches(quizzes, q) else quizzes
  }

  /** The `shown` list: the filtered quizzes in the chosen order, with
      nothing added, dropped or repeated. */
  function Shown(quizzes: seq<Quiz>, query: string, sort: string, titleLe: (string, string) -> bool): (r: seq<Quiz>)
    ensures multiset(r) == multiset(Filtered(quizzes, query))
    ensures multiset(r) <= multiset(quizzes)
    ensures Trim(query) == "" ==> multiset(r) == multiset(quizzes)
  {
    Sort(Filtered(quizzes, query), Before(sort, titleLe))
  }

  /** A quiz is shown exactly when its lower-cased title contains the
      trimmed, lower-cased query, or the query is blank. */
  lemma ShownMembers(quizzes: seq<Quiz>, query: string, sort: string, titleLe: (string, string) -> bool, x: Quiz)
    ensures x in Shown(quizzes, query, sort, titleLe) <==>
      x in quizzes && (Needle(query) == "" || Contains(Lower(x.title), Needle(query)))
  {
    var r := Shown(quizzes, query, sort, titleLe);
    assert x in r <==> x in multiset(r);
    assert x in Filtered(quizzes, query) <==> x in multiset(Filtered(quizzes, query));
  }

  /** The shown list is in the chosen order. */
  lemma ShownOrdered(quizzes: seq<Quiz>, query: string, sort: string, titleLe: (string, string) -> bool)
    requires TotalPreorder(titleLe)
    ensures var r := Shown(quizzes, query, sort, titleLe);
      && (sort == "new" ==> forall i, j :: 0 <= i < j < |r| ==> r[i].createdAt >= r[j].createdAt)
      && (sort == "old" ==> forall i, j :: 0 <= i < j < |r| ==> r[i].createdAt <= r[j].createdAt)
      && (sort == "a" ==> forall i, j :: 0 <= i < j < |r| ==> titleLe(r[i].title, r[j].title))
      && (sort != "new" && sort != "old" && sort != "a" ==>
            forall i, j :: 0 <= i < j < |r| ==> titleLe(r[j].title, r[i].title))
  {
    BeforeIsTotalPreorder(sort, titleLe);
    SortSorted(Filtered(quizzes, query), Before(sort, titleLe));
  }
}
