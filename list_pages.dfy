/**
 * What the three list pages (app/admin/attempts/page.tsx, app/candidate/dashboard/page.tsx and
 * app/admin/tests/page.tsx) share, each page holding its own copy in the source.
 *
 * How a test is named: "Test {day} #{n}", where n is the test's place among the tests of the same
 * day in creation order (the `formatTestDisplayName` copies, which agree).  `created_at` is
 * abstracted as a day key (the `YYYY-MM-DD` of its ISO form) and a timestamp (its `getTime()`).
 * The sort is JavaScript's stable `Array.prototype.sort`; `SortStable` proves the model's sort stable too.
 *
 * Also the colour of a score badge and the answer to a DELETE request.
 */
module ListPages {

  import opened Wrappers
  import opened Strings
  import Seqs

  /** A test as the pages receive it. */
  datatype Test = Test(id: string, day: string, time: int, sourceQuestion: string, sourceAnswer: string)

  // ---------------------------------------------------------------------------
  // Stable sort by creation time

  predicate SortedByTime(s: seq<Test>) {
    forall i, j :: 0 <= i < j < |s| ==> s[i].time <= s[j].time
  }

  /** Places `t` after every element created no later than it. */
  function InsertByTime(t: Test, s: seq<Test>): (r: seq<Test>)
    ensures |r| == |s| + 1
    decreases |s|
  {
    if s == [] then [t]
    else if t.time < s[0].time then [t] + s
    else [s[0]] + InsertByTime(t, s[1..])
  }

  /** `.sort((a, b) => time(a) - time(b))`: each element is inserted after the earlier ones it ties with. */
  function SortByTime(s: seq<Test>): (r: seq<Test>)
    ensures |r| == |s|
    decreases |s|
  {
    if s == [] then [] else InsertByTime(s[|s| - 1], SortByTime(s[..|s| - 1]))
  }

  lemma {:induction false} InsertKeepsElements(t: Test, s: seq<Test>)
    ensures multiset(InsertByTime(t, s)) == multiset(s) + multiset{t}
    decreases |s|
  {
    if s != [] && t.time >= s[0].time {
      InsertKeepsElements(t, s[1..]);
      assert s == [s[0]] + s[1..];
    }
  }

  /** The head of an insertion is the inserted element or the old head. */
  lemma InsertHead(t: Test, s: seq<Test>)
    ensures InsertByTime(t, s)[0] == t || (s != [] && InsertByTime(t, s)[0] == s[0])
  {
  }

  /** A sorted list with a head no later than its second element stays sorted. */
  lemma ConsSorted(x: Test, s: seq<Test>)
    requires SortedByTime(s) && (s != [] ==> x.time <= s[0].time)
    ensures SortedByTime([x] + s)
  {
    var r := [x] + s;
    forall i, j | 0 <= i < j < |r| ensures r[i].time <= r[j].time {
      assert r[j] == s[j - 1];
      if i > 0 {
        assert r[i] == s[i - 1];
      }
    }
  }

  lemma {:induction false} InsertKeepsOrder(t: Test, s: seq<Test>)
    requires SortedByTime(s)
    ensures SortedByTime(InsertByTime(t, s))
    decreases |s|
  {
    if s == [] {
    } else if t.time < s[0].time {
      ConsSorted(t, s);
    } else {
      var rest := InsertByTime(t, s[1..]);
      InsertKeepsOrder(t, s[1..]);
      InsertHead(t, s[1..]);
      ConsSorted(s[0], rest);
    }
  }

  /** The sorted list is a rearrangement of its input. */
  lemma {:induction false} SortKeepsElements(s: seq<Test>)
    ensures multiset(SortByTime(s)) == multiset(s)
    decreases |s|
  {
    if s != [] {
      var init := s[..|s| - 1];
      SortKeepsElements(init);
      InsertKeepsElements(s[|s| - 1], SortByTime(init));
      assert s == init + [s[|s| - 1]];
    }
  }

  /** The sorted list is in time order. */
  lemma {:induction false} SortKeepsOrder(s: seq<Test>)
    ensures SortedByTime(SortByTime(s))
    decreases |s|
  {
    if s != [] {
      var init := s[..|s| - 1];
      SortKeepsOrder(init);
      InsertKeepsOrder(s[|s| - 1], SortByTime(init));
    }
  }

  /** The sorted list is a rearrangement of its input, in time order. */
  lemma SortShape(s: seq<Test>)
    ensures multiset(SortByTime(s)) == multiset(s)
    ensures SortedByTime(SortByTime(s))
  {
    SortKeepsElements(s);
    SortKeepsOrder(s);
  }

  predicate CreatedAt(time: int, t: Test) {
    t.time == time
  }

  function AtTime(time: int): Test -> bool {
    t => CreatedAt(time, t)
  }

  /** Inserting into a sorted list puts `t` after every element that ties with it. */
  lemma {:induction false} InsertAfterTies(t: Test, s: seq<Test>, time: int)
    requires SortedByTime(s)
    ensures Seqs.Filter(AtTime(time), InsertByTime(t, s)) == Seqs.Filter(AtTime(time), s) + Seqs.Filter(AtTime(time), [t])
    decreases |s|
  {
    var p := AtTime(time);
    if s == [] {
    } else if t.time < s[0].time {
      Seqs.FilterAppend(p, [t], s);
      if t.time == time {
        Seqs.FilterNonePass(p, s);
      }
    } else {
      InsertAfterTies(t, s[1..], time);
      Seqs.FilterAppend(p, [s[0]], InsertByTime(t, s[1..]));
      Seqs.FilterAppend(p, [s[0]], s[1..]);
      assert s == [s[0]] + s[1..];
    }
  }

  /** The sort is stable: tests created at the same time keep their input order. */
  lemma {:induction false} SortStable(s: seq<Test>, time: int)
    ensures Seqs.Filter(AtTime(time), SortByTime(s)) == Seqs.Filter(AtTime(time), s)
    decreases |s|
  {
    if s != [] {
      var init := s[..|s| - 1];
      SortStable(init, time);
      SortKeepsOrder(init);
      InsertAfterTies(s[|s| - 1], SortByTime(init), time);
      Seqs.FilterAppend(AtTime(time), init, [s[|s| - 1]]);
      assert s == init + [s[|s| - 1]];
    }
  }

  // ---------------------------------------------------------------------------
  // The label

  predicate CreatedOn(day: string, t: Test) {
    t.day == day
  }

  function OnDay(day: string): Test -> bool {
    t => CreatedOn(day, t)
  }

  predicate HasId(id: string, t: Test) {
    t.id == id
  }

  /** The tests of `day`, sorted by creation time. */
  function SameDay(tests: seq<Test>, day: string): seq<Test> {
    SortByTime(Seqs.Filter(OnDay(day), tests))
  }

  /** `sameDateTests.findIndex(t => t.id === test.id) + 1`. */
  function Rank(tests: seq<Test>, test: Test): nat {
    Seqs.FindIndex(t => HasId(test.id, t), SameDay(tests, test.day)) + 1
  }

  /** `Test ${dateStr} #${testNumber}`. */
  function Label(day: string, n: nat): string {
    "Test " + day + " #" + NatToString(n)
  }

  /** The label of a test from the list (the candidate and test pages; their `index` argument is unused). */
  function DisplayName(tests: seq<Test>, test: Test): string {
    Label(test.day, Rank(tests, test))
  }

  /** The label for a test id (the attempts page and the history table): unknown ids show their first eight characters. */
  function DisplayNameForId(tests: seq<Test>, testId: string): string {
    match Seqs.Find(t => HasId(testId, t), tests)
    case None => Take(testId, 8) + "..."
    case Some(test) => DisplayName(tests, test)
  }

  // ---------------------------------------------------------------------------
  // Properties

  /** Ids are unique, as primary keys are. */
  predicate UniqueIds(tests: seq<Test>) {
    forall i, j :: 0 <= i < j < |tests| ==> tests[i].id != tests[j].id
  }

  /** A listed test gets a number between 1 and the number of tests created that day. */
  lemma RankBounds(tests: seq<Test>, test: Test)
    requires test in tests
    ensures 1 <= Rank(tests, test) <= |Seqs.Filter(OnDay(test.day), tests)|
  {
    var sorted := SameDay(tests, test.day);
    var day := Seqs.Filter(OnDay(test.day), tests);
    SortShape(day);
    assert test in day;
    assert test in multiset(sorted);
    var k :| 0 <= k < |sorted| && sorted[k] == test;
    assert HasId(test.id, sorted[k]);
  }

  /** The test at a test's place in its day's list carries its id. */
  lemma RankPlace(tests: seq<Test>, test: Test) returns (k: nat)
    requires test in tests
    ensures k < |SameDay(tests, test.day)| && Rank(tests, test) == k + 1
    ensures SameDay(tests, test.day)[k].id == test.id
  {
    RankBounds(tests, test);
    k := Rank(tests, test) - 1;
  }

  /** Two different tests of one day never share a number. */
  lemma RanksDistinct(tests: seq<Test>, a: Test, b: Test)
    requires a in tests && b in tests && a.day == b.day && a.id != b.id
    ensures Rank(tests, a) != Rank(tests, b)
  {
    var ka := RankPlace(tests, a);
    var kb := RankPlace(tests, b);
  }

  /** Of two tests of one day, the one created earlier gets the smaller number. */
  lemma EarlierRanksFirst(tests: seq<Test>, a: Test, b: Test)
    requires UniqueIds(tests)
    requires a in tests && b in tests && a.day == b.day && a.time < b.time
    ensures Rank(tests, a) < Rank(tests, b)
  {
    var sorted := SameDay(tests, a.day);
    var day := Seqs.Filter(OnDay(a.day), tests);
    SortShape(day);
    var ka := RankPlace(tests, a);
    var kb := RankPlace(tests, b);
    SameIdSameTest(tests, sorted[ka], a);
    SameIdSameTest(tests, sorted[kb], b);
  }

  lemma SameIdSameTest(tests: seq<Test>, x: Test, y: Test)
    requires UniqueIds(tests)
    requires x in multiset(SortByTime(Seqs.Filter(OnDay(y.day), tests)))
    requires y in tests && x.id == y.id
    ensures x == y
  {
    var day := Seqs.Filter(OnDay(y.day), tests);
    SortShape(day);
    assert x in day;
    var i :| 0 <= i < |tests| && tests[i] == x;
    var j :| 0 <= j < |tests| && tests[j] == y;
    assert i == j;
  }

  /** Tests of other days, wherever they sit in the list, never change a test's number. */
  lemma OtherDaysIgnored(xs: seq<Test>, ys: seq<Test>, zs: seq<Test>, test: Test)
    requires forall i :: 0 <= i < |ys| ==> ys[i].day != test.day
    ensures Rank(xs + ys + zs, test) == Rank(xs + zs, test)
  {
    SameDayIgnoresOthers(xs, ys, zs, test.day);
  }

  lemma SameDayIgnoresOthers(xs: seq<Test>, ys: seq<Test>, zs: seq<Test>, day: string)
    requires forall i :: 0 <= i < |ys| ==> ys[i].day != day
    ensures Seqs.Filter(OnDay(day), xs + ys + zs) == Seqs.Filter(OnDay(day), xs + zs)
  {
    var p := OnDay(day);
    Seqs.FilterAppend(p, xs + ys, zs);
    Seqs.FilterAppend(p, xs, ys);
    Seqs.FilterAppend(p, xs, zs);
    assert forall i :: 0 <= i < |ys| ==> !p(ys[i]);
    Seqs.FilterNonePass(p, ys);
    assert Seqs.Filter(p, xs) + [] == Seqs.Filter(p, xs);
  }

  /** Two different tests of one day are labelled differently. */
  lemma LabelsDistinct(tests: seq<Test>, a: Test, b: Test)
    requires a in tests && b in tests && a.day == b.day && a.id != b.id
    ensures DisplayName(tests, a) != DisplayName(tests, b)
  {
    RanksDistinct(tests, a, b);
    if DisplayName(tests, a) == DisplayName(tests, b) {
      LabelInjective(a.day, Rank(tests, a), Rank(tests, b));
    }
  }

  /** A label determines its number. */
  lemma LabelInjective(day: string, m: nat, n: nat)
    requires Label(day, m) == Label(day, n)
    ensures m == n
  {
    var head := "Test " + day + " #";
    assert Label(day, m) == head + NatToString(m);
    assert Label(day, n) == head + NatToString(n);
    assert NatToString(m) == Label(day, m)[|head|..];
    assert NatToString(n) == Label(day, n)[|head|..];
    NatToStringInjective(m, n);
  }

  /** An id no test has is shown as its first eight characters and an ellipsis. */
  lemma UnknownIdShortened(tests: seq<Test>, testId: string)
    requires forall i :: 0 <= i < |tests| ==> tests[i].id != testId
    ensures DisplayNameForId(tests, testId) == Take(testId, 8) + "..."
    ensures |testId| >= 8 ==> DisplayNameForId(tests, testId) == testId[..8] + "..."
  {
  }

  /** A known id is labelled like its test. */
  lemma KnownIdLabelled(tests: seq<Test>, test: Test)
    requires UniqueIds(tests) && test in tests
    ensures DisplayNameForId(tests, test.id) == DisplayName(tests, test)
  {
    var f := Seqs.Find(t => HasId(test.id, t), tests);
    var j :| 0 <= j < |tests| && tests[j] == test;
    assert HasId(test.id, tests[j]);
    var i :| 0 <= i < |tests| && tests[i] == f.value;
    assert i == j;
  }

  // ---------------------------------------------------------------------------
  // Score badges

  /** The badge colours, from worst to best. */
  datatype Tone = Red | Yellow | Green

  function Level(t: Tone): nat {
    match t
    case Red => 0
    case Yellow => 1
    case Green => 2
  }

  /** A threshold chain: `score >= good` is green, `score >= fair` yellow, anything else red. */
  function Badge(score: int, good: int, fair: int): (t: Tone)
    requires fair <= good
    ensures t == Green <==> score >= good
    ensures t == Yellow <==> fair <= score < good
    ensures t == Red <==> score < fair
  {
    if score >= good then Green else if score >= fair then Yellow else Red
  }

  /** A higher score never gets a worse colour. */
  lemma BadgeMonotone(a: int, b: int, good: int, fair: int)
    requires fair <= good && a <= b
    ensures Level(Badge(a, good, fair)) <= Level(Badge(b, good, fair))
  {
  }

  // ---------------------------------------------------------------------------
  // DELETE requests

  /** How a DELETE request ended: a parsed response (its `ok` and its body's `error`, "" when
    * absent), or an exception from `fetch` or `response.json()` with its message ("" when none). */
  datatype DeleteReply = Answered(ok: bool, error: string) | Failed(message: string)

  predicate Succeeded(reply: DeleteReply) {
    reply.Answered? && reply.ok
  }

  /** `err?.message || fallback`, where a refused request threw `new Error(data.error || fallback)`. */
  function FailureMessage(reply: DeleteReply, fallback: string): (m: string)
    requires !Succeeded(reply) && fallback != ""
    ensures m != ""
    ensures reply.Answered? && reply.error != "" ==> m == reply.error
    ensures reply.Failed? && reply.message != "" ==> m == reply.message
    ensures (reply.Answered? && reply.error == "") || (reply.Failed? && reply.message == "") ==> m == fallback
  {
    var thrown := if reply.Answered? then (if reply.error != "" then reply.error else fallback) else reply.message;
    if thrown != "" then thrown else fallback
  }

  /** `xs.filter(x => x.id !== id)` over anything with an id. */
  function WithoutId<T(!new)>(idOf: T -> string, xs: seq<T>, id: string): (r: seq<T>)
    ensures forall x :: x in r <==> x in xs && idOf(x) != id
  {
    Seqs.Filter(x => idOf(x) != id, xs)
  }

  /** Removing an id works piecewise, so the kept entries stay in their order. */
  lemma WithoutIdAppend<T(!new)>(idOf: T -> string, xs: seq<T>, ys: seq<T>, id: string)
    ensures WithoutId(idOf, xs + ys, id) == WithoutId(idOf, xs, id) + WithoutId(idOf, ys, id)
  {
    Seqs.FilterAppend(x => idOf(x) != id, xs, ys);
  }

  /** Removing an id nobody has changes nothing; removing the id of a listed entry shortens the list. */
  lemma WithoutIdLength<T(!new)>(idOf: T -> string, xs: seq<T>, id: string)
    ensures (forall i :: 0 <= i < |xs| ==> idOf(xs[i]) != id) ==> WithoutId(idOf, xs, id) == xs
    ensures (exists i :: 0 <= i < |xs| && idOf(xs[i]) == id) ==> |WithoutId(idOf, xs, id)| < |xs|
  {
    var p := x => idOf(x) != id;
    if forall i :: 0 <= i < |xs| ==> idOf(xs[i]) != id {
      Seqs.FilterAllPass(p, xs);
    }
    if exists i :: 0 <= i < |xs| && idOf(xs[i]) == id {
      var i :| 0 <= i < |xs| && idOf(xs[i]) == id;
      Seqs.FilterDropsFailing(p, xs, i);
    }
  }

  /** Removing the id that only `x` holds leaves everything around `x`. */
  lemma WithoutSoleHolder<T(!new)>(idOf: T -> string, xs: seq<T>, x: T, ys: seq<T>, id: string)
    requires idOf(x) == id
    requires forall i :: 0 <= i < |xs| ==> idOf(xs[i]) != id
    requires forall i :: 0 <= i < |ys| ==> idOf(ys[i]) != id
    ensures WithoutId(idOf, xs + [x] + ys, id) == xs + ys
  {
    WithoutIdAppend(idOf, xs + [x], ys, id);
    WithoutIdAppend(idOf, xs, [x], id);
    WithoutIdLength(idOf, xs, id);
    WithoutIdLength(idOf, ys, id);
    WithoutIdLength(idOf, [x], id);
    assert WithoutId(idOf, [x], id) == [];
  }
}
