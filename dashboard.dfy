/** The statistics of `app/dashboard/page.jsx` (`loadDashboardData`): totals and the mean
    score over the fetched sessions, the first ten scores, the grouping of scores by subject,
    the per-subject means ranked by a stable descending sort, and the three strongest and
    three weakest subjects; on failure every statistic is reset. */
module Dashboard {
  import opened Util
  import opened Types
  import opened StableSort

  /** `session.quiz?.subject || 'Unknown'`. */
  function SubjectOf(session: QuizSession): (subject: string)
    ensures subject != ""
    ensures session.quiz.Some? && session.quiz.value.subject != "" ==> subject == session.quiz.value.subject
    ensures session.quiz.None? || session.quiz.value.subject == "" ==> subject == "Unknown"
  {
    if session.quiz.Some? && session.quiz.value.subject != "" then session.quiz.value.subject
    else "Unknown"
  }

  function Scores(sessions: seq<QuizSession>): (r: seq<int>)
    ensures |r| == |sessions| && forall i | 0 <= i < |r| :: r[i] == sessions[i].score
  {
    seq(|sessions|, i requires 0 <= i < |sessions| => sessions[i].score)
  }

  function Times(sessions: seq<QuizSession>): (r: seq<int>)
    ensures |r| == |sessions| && forall i | 0 <= i < |r| :: r[i] == sessions[i].timeSpent
  {
    seq(|sessions|, i requires 0 <= i < |sessions| => sessions[i].timeSpent)
  }

  /** `xs.reduce((sum, x) => sum + x, 0) / xs.length`, and 0 for an empty list (the only way
      the page calls it on the empty list is through the `sessions.length > 0` guard). */
  function Mean(xs: seq<int>): (m: real)
    ensures |xs| == 0 ==> m == 0.0
    ensures |xs| > 0 ==> m * (|xs| as real) == Sum(xs) as real
  {
    if |xs| == 0 then 0.0 else (Sum(xs) as real) / (|xs| as real)
  }

  lemma {:induction false} SumBounds(xs: seq<int>, lo: int, hi: int)
    requires forall i | 0 <= i < |xs| :: lo <= xs[i] <= hi
    ensures (|xs| as real) * (lo as real) <= Sum(xs) as real <= (|xs| as real) * (hi as real)
    decreases |xs|
  {
    if xs != [] {
      var p := xs[..|xs| - 1];
      SumBounds(p, lo, hi);
      var n := |p| as real;
      assert (n + 1.0) * (lo as real) == n * (lo as real) + lo as real;
      assert (n + 1.0) * (hi as real) == n * (hi as real) + hi as real;
    }
  }

  lemma RealMulStrict(n: real, x: real, y: real)
    requires n > 0.0 && x < y
    ensures n * x < n * y
  {
  }

  /** A mean lies between the smallest and the largest score: with scores in `0..100` the
      average score is in `0..100`. */
  lemma MeanBounds(xs: seq<int>, lo: int, hi: int)
    requires |xs| > 0
    requires forall i | 0 <= i < |xs| :: lo <= xs[i] <= hi
    ensures lo as real <= Mean(xs) <= hi as real
  {
    SumBounds(xs, lo, hi);
    var n := |xs| as real;
    var m := Mean(xs);
    if m < lo as real {
      RealMulStrict(n, m, lo as real);
    }
    if m > hi as real {
      RealMulStrict(n, hi as real, m);
    }
  }

  lemma ScoresConcat(a: seq<QuizSession>, b: seq<QuizSession>)
    ensures Scores(a + b) == Scores(a) + Scores(b)
  {
  }

  lemma TimesConcat(a: seq<QuizSession>, b: seq<QuizSession>)
    ensures Times(a + b) == Times(a) + Times(b)
  {
  }

  /** Removing the last element of `xs` and an equal element of `ys` keeps the two
      permutations of each other. */
  lemma RemoveMatching<T>(xs: seq<T>, ys: seq<T>, j: nat)
    requires multiset(xs) == multiset(ys) && xs != [] && j < |ys| && ys[j] == xs[|xs| - 1]
    ensures ys == ys[..j] + [ys[j]] + ys[j + 1..]
    ensures multiset(xs[..|xs| - 1]) == multiset(ys[..j] + ys[j + 1..])
  {
    var x := xs[|xs| - 1];
    assert xs == xs[..|xs| - 1] + [x];
    assert ys == ys[..j] + [x] + ys[j + 1..];
    var xs', ys' := xs[..|xs| - 1], ys[..j] + ys[j + 1..];
    assert multiset(ys) == multiset(ys') + multiset{x};
    assert multiset(xs) == multiset(xs') + multiset{x};
    assert multiset(xs') == multiset(xs) - multiset{x};
    assert multiset(ys') == multiset(ys) - multiset{x};
  }

  /** Taking entry `j` out of a list takes one `s[j]` out of its multiset. */
  lemma MultisetRemove<T>(s: seq<T>, j: nat)
    requires j < |s|
    ensures multiset(s) == multiset(s[..j] + s[j + 1..]) + multiset{s[j]}
  {
    assert s == s[..j] + [s[j]] + s[j + 1..];
  }

  /** Taking entry `j` out of the sessions takes its score out of the scores. */
  lemma ScoresRemove(ys: seq<QuizSession>, j: nat)
    requires j < |ys|
    ensures multiset(Scores(ys)) == multiset(Scores(ys[..j] + ys[j + 1..])) + multiset{ys[j].score}
  {
    var r := Scores(ys);
    assert Scores(ys[..j] + ys[j + 1..]) == r[..j] + r[j + 1..];
    MultisetRemove(r, j);
  }

  lemma TimesRemove(ys: seq<QuizSession>, j: nat)
    requires j < |ys|
    ensures multiset(Times(ys)) == multiset(Times(ys[..j] + ys[j + 1..])) + multiset{ys[j].timeSpent}
  {
    var r := Times(ys);
    assert Times(ys[..j] + ys[j + 1..]) == r[..j] + r[j + 1..];
    MultisetRemove(r, j);
  }

  /** One step of the induction: appending `ys[j]` to a list whose scores match `ys` without
      entry `j` gives the scores of `ys`. */
  lemma ScoresStep(xs: seq<QuizSession>, ys: seq<QuizSession>, j: nat)
    requires j < |ys| && multiset(Scores(xs)) == multiset(Scores(ys[..j] + ys[j + 1..]))
    ensures multiset(Scores(xs + [ys[j]])) == multiset(Scores(ys))
  {
    ScoresConcat(xs, [ys[j]]);
    assert Scores([ys[j]]) == [ys[j].score];
    ScoresRemove(ys, j);
  }

  /** Reordering the sessions reorders their scores. */
  lemma {:induction false} ScoresPermute(xs: seq<QuizSession>, ys: seq<QuizSession>)
    requires multiset(xs) == multiset(ys)
    ensures multiset(Scores(xs)) == multiset(Scores(ys))
    decreases |xs|
  {
    if xs == [] {
      assert |ys| == |multiset(ys)| == 0;
    } else {
      var xs', x := xs[..|xs| - 1], xs[|xs| - 1];
      assert x in multiset(ys);
      var j :| 0 <= j < |ys| && ys[j] == x;
      RemoveMatching(xs, ys, j);
      ScoresPermute(xs', ys[..j] + ys[j + 1..]);
      assert xs == xs' + [x];
      ScoresStep(xs', ys, j);
    }
  }

  /** One step of the induction: appending `ys[j]` to a list whose timeSpents match `ys` without
      entry `j` gives the timeSpents of `ys`. */
  lemma TimesStep(xs: seq<QuizSession>, ys: seq<QuizSession>, j: nat)
    requires j < |ys| && multiset(Times(xs)) == multiset(Times(ys[..j] + ys[j + 1..]))
    ensures multiset(Times(xs + [ys[j]])) == multiset(Times(ys))
  {
    TimesConcat(xs, [ys[j]]);
    assert Times([ys[j]]) == [ys[j].timeSpent];
    TimesRemove(ys, j);
  }

  /** Reordering the sessions reorders their times. */
  lemma {:induction false} TimesPermute(xs: seq<QuizSession>, ys: seq<QuizSession>)
    requires multiset(xs) == multiset(ys)
    ensures multiset(Times(xs)) == multiset(Times(ys))
    decreases |xs|
  {
    if xs == [] {
      assert |ys| == |multiset(ys)| == 0;
    } else {
      var xs', x := xs[..|xs| - 1], xs[|xs| - 1];
      assert x in multiset(ys);
      var j :| 0 <= j < |ys| && ys[j] == x;
      RemoveMatching(xs, ys, j);
      TimesPermute(xs', ys[..j] + ys[j + 1..]);
      assert xs == xs' + [x];
      TimesStep(xs', ys, j);
    }
  }

  /** The count, the mean score and the total time do not depend on the order of the
      sessions. */
  lemma TotalsIgnoreOrder(xs: seq<QuizSession>, ys: seq<QuizSession>)
    requires multiset(xs) == multiset(ys)
    ensures |xs| == |ys|
    ensures Mean(Scores(xs)) == Mean(Scores(ys))
    ensures Sum(Times(xs)) == Sum(Times(ys))
  {
    assert |xs| == |multiset(xs)| == |multiset(ys)| == |ys|;
    ScoresPermute(xs, ys);
    TimesPermute(xs, ys);
    SumPermutation(Scores(xs), Scores(ys));
    SumPermutation(Times(xs), Times(ys));
  }

  // ---------------------------------------------------------------------------------------
  // Grouping by subject: the specification

  /** The keys of `subjectScores` in the order `Object.entries` lists them: each subject once,
      where it first occurs. */
  function Subjects(sessions: seq<QuizSession>): seq<string> {
    if sessions == [] then []
    else
      var keys := Subjects(sessions[..|sessions| - 1]);
      var k := SubjectOf(sessions[|sessions| - 1]);
      if k in keys then keys else keys + [k]
  }

  /** `subjectScores[subject]`: the scores of the sessions of that subject, in session order. */
  function ScoresOf(sessions: seq<QuizSession>, subject: string): seq<int> {
    if sessions == [] then []
    else
      var last := sessions[|sessions| - 1];
      ScoresOf(sessions[..|sessions| - 1], subject) + (if SubjectOf(last) == subject then [last.score] else [])
  }

  /** No subject is listed twice. */
  lemma {:induction false} SubjectsDistinct(sessions: seq<QuizSession>)
    ensures forall i, j | 0 <= i < j < |Subjects(sessions)| :: Subjects(sessions)[i] != Subjects(sessions)[j]
    decreases |sessions|
  {
    if sessions != [] {
      SubjectsDistinct(sessions[..|sessions| - 1]);
    }
  }

  /** A subject is listed exactly when some session has it, which is exactly when its group
      of scores is non-empty. */
  lemma {:induction false} SubjectsAreGroups(sessions: seq<QuizSession>, subject: string)
    ensures subject in Subjects(sessions) <==> ScoresOf(sessions, subject) != []
    ensures subject in Subjects(sessions) <==> exists i | 0 <= i < |sessions| :: SubjectOf(sessions[i]) == subject
    decreases |sessions|
  {
    if sessions != [] {
      var p := sessions[..|sessions| - 1];
      SubjectsAreGroups(p, subject);
      if subject in Subjects(p) {
        var i :| 0 <= i < |p| && SubjectOf(p[i]) == subject;
        assert SubjectOf(sessions[i]) == subject;
      }
      if exists i | 0 <= i < |sessions| :: SubjectOf(sessions[i]) == subject {
        var i :| 0 <= i < |sessions| && SubjectOf(sessions[i]) == subject;
        if i < |p| {
          assert SubjectOf(p[i]) == subject;
        }
      }
    }
  }

  /** Every session's score is in the group of its own subject. */
  lemma {:induction false} ScoreInOwnGroup(sessions: seq<QuizSession>, i: nat)
    requires i < |sessions|
    ensures sessions[i].score in ScoresOf(sessions, SubjectOf(sessions[i]))
    decreases |sessions|
  {
    if i < |sessions| - 1 {
      ScoreInOwnGroup(sessions[..|sessions| - 1], i);
    }
  }

  /** The total size of the groups listed in `keys`. */
  function GroupSizes(keys: seq<string>, sessions: seq<QuizSession>): nat {
    if keys == [] then 0 else GroupSizes(keys[..|keys| - 1], sessions) + |ScoresOf(sessions, keys[|keys| - 1])|
  }

  function Occurrences(keys: seq<string>, k: string): nat {
    if keys == [] then 0 else Occurrences(keys[..|keys| - 1], k) + (if keys[|keys| - 1] == k then 1 else 0)
  }

  lemma {:induction false} GroupSizesAppend(keys: seq<string>, p: seq<QuizSession>, x: QuizSession)
    ensures GroupSizes(keys, p + [x]) == GroupSizes(keys, p) + Occurrences(keys, SubjectOf(x))
    decreases |keys|
  {
    assert (p + [x])[..|p|] == p;
    if keys != [] {
      GroupSizesAppend(keys[..|keys| - 1], p, x);
    }
  }

  lemma {:induction false} OccurrencesDistinct(keys: seq<string>, k: string)
    requires forall i, j | 0 <= i < j < |keys| :: keys[i] != keys[j]
    ensures Occurrences(keys, k) == if k in keys then 1 else 0
    decreases |keys|
  {
    if keys != [] {
      OccurrencesDistinct(keys[..|keys| - 1], k);
    }
  }

  /** The groups partition the sessions: each session's score lands in exactly one group, so
      the group sizes add up to the number of sessions. */
  lemma {:induction false} GroupsPartition(sessions: seq<QuizSession>)
    ensures GroupSizes(Subjects(sessions), sessions) == |sessions|
    decreases |sessions|
  {
    if sessions != [] {
      var p, x := sessions[..|sessions| - 1], sessions[|sessions| - 1];
      assert sessions == p + [x];
      var keys := Subjects(p);
      GroupsPartition(p);
      GroupSizesAppend(keys, p, x);
      SubjectsDistinct(p);
      OccurrencesDistinct(keys, SubjectOf(x));
      if SubjectOf(x) !in keys {
        SubjectsAreGroups(p, SubjectOf(x));
        assert (keys + [SubjectOf(x)])[..|keys|] == keys;
      }
    }
  }

  // ---------------------------------------------------------------------------------------
  // Grouping by subject: the `forEach` loop filling the dictionary in place

  /** `sessions.forEach(session => { ...; subjectScores[subject].push(session.score) })`, with
      `subjectScores` a dictionary that holds only the keys put into it. */
  method GroupBySubject(sessions: seq<QuizSession>) returns (keys: seq<string>, groups: map<string, seq<int>>)
    ensures keys == Subjects(sessions)
    ensures forall k :: k in groups <==> k in keys
    ensures forall k | k in groups :: groups[k] == ScoresOf(sessions, k)
  {
    keys, groups := [], map[];
    var i := 0;
    while i < |sessions|
      invariant 0 <= i <= |sessions|
      invariant keys == Subjects(sessions[..i])
      invariant forall k :: k in groups <==> k in keys
      invariant forall k | k in groups :: groups[k] == ScoresOf(sessions[..i], k)
    {
      var session := sessions[i];
      var subject := SubjectOf(session);
      assert sessions[..i + 1][..i] == sessions[..i];
      if subject !in groups {
        SubjectsAreGroups(sessions[..i], subject);
        groups := groups[subject := []];
        keys := keys + [subject];
      }
      groups := groups[subject := groups[subject] + [session.score]];
      i := i + 1;
    }
    assert sessions[..i] == sessions;
  }

  // ---------------------------------------------------------------------------------------
  // Grouping as written: `subjectScores` is a plain object literal

  /** The names a plain object `{}` inherits from `Object.prototype`. Looking one of them up
      yields an inherited method (or, for `__proto__`, the prototype itself): truthy, and with
      no `push`. */
  const PrototypeNames: set<string> := {
    "constructor", "__defineGetter__", "__defineSetter__", "hasOwnProperty",
    "__lookupGetter__", "__lookupSetter__", "isPrototypeOf", "propertyIsEnumerable",
    "toString", "valueOf", "__proto__", "toLocaleString" }

  /** One `forEach` step on the plain object: `if (!subjectScores[subject]) subjectScores[subject] = []`,
      then `.push(score)`. `inherited` holds the names the object inherits, here
      `PrototypeNames`. `None` is the `TypeError` that the push throws when the lookup found an
      inherited member instead of an own array. */
  function PushScore(obj: map<string, seq<int>>, subject: string, score: int, inherited: set<string>): Option<map<string, seq<int>>> {
    if subject in obj then Some(obj[subject := obj[subject] + [score]])
    else if subject in inherited then None
    else Some(obj[subject := [score]])
  }

  /** The grouping as the page writes it, on an object inheriting the names `inherited`. */
  function GroupAsWritten(sessions: seq<QuizSession>, inherited: set<string>): Option<map<string, seq<int>>> {
    if sessions == [] then Some(map[])
    else
      var last := sessions[|sessions| - 1];
      match GroupAsWritten(sessions[..|sessions| - 1], inherited)
      case None => None
      case Some(obj) => PushScore(obj, SubjectOf(last), last.score, inherited)
  }

  /** When the plain-object grouping does not throw, it agrees with the dictionary grouping. */
  lemma {:induction false} GroupAsWrittenAgrees(sessions: seq<QuizSession>, inherited: set<string>)
    requires GroupAsWritten(sessions, inherited).Some?
    ensures forall k :: k in GroupAsWritten(sessions, inherited).value <==> k in Subjects(sessions)
    ensures forall k | k in GroupAsWritten(sessions, inherited).value ::
      GroupAsWritten(sessions, inherited).value[k] == ScoresOf(sessions, k)
    decreases |sessions|
  {
    if sessions != [] {
      var p, x := sessions[..|sessions| - 1], sessions[|sessions| - 1];
      GroupAsWrittenAgrees(p, inherited);
      SubjectsAreGroups(p, SubjectOf(x));
    }
  }

  /** The plain-object grouping throws exactly when some session's subject is an inherited
      name. */
  lemma {:induction false} GroupAsWrittenThrows(sessions: seq<QuizSession>, inherited: set<string>)
    ensures GroupAsWritten(sessions, inherited).None? <==>
      exists i | 0 <= i < |sessions| :: SubjectOf(sessions[i]) in inherited
    decreases |sessions|
  {
    if sessions != [] {
      var p, x := sessions[..|sessions| - 1], sessions[|sessions| - 1];
      GroupAsWrittenThrows(p, inherited);
      if exists i | 0 <= i < |p| :: SubjectOf(p[i]) in inherited {
        var i :| 0 <= i < |p| && SubjectOf(p[i]) in inherited;
        assert SubjectOf(sessions[i]) in inherited;
      } else {
        GroupAsWrittenAgrees(p, inherited);
        SubjectsAreGroups(p, SubjectOf(x));
        forall i | 0 <= i < |sessions| && i < |p| ensures SubjectOf(sessions[i]) !in inherited {
          assert sessions[i] == p[i];
        }
      }
    }
  }

  /** The `forEach` loop of the page on the plain object inheriting `inherited`: `thrown`
      when a push met an inherited member, and otherwise the keys in insertion order with
      their groups. */
  method GroupOnPlainObject(sessions: seq<QuizSession>, inherited: set<string>)
    returns (thrown: bool, keys: seq<string>, groups: map<string, seq<int>>)
    ensures thrown <==> GroupAsWritten(sessions, inherited).None?
    ensures !thrown ==> keys == Subjects(sessions)
    ensures !thrown ==> forall k | k in keys :: k in groups && groups[k] == ScoresOf(sessions, k)
  {
    thrown, keys, groups := false, [], map[];
    var i := 0;
    while i < |sessions|
      invariant 0 <= i <= |sessions|
      invariant GroupAsWritten(sessions[..i], inherited) == Some(groups)
      invariant keys == Subjects(sessions[..i])
    {
      var session := sessions[i];
      var subject := SubjectOf(session);
      assert sessions[..i + 1][..i] == sessions[..i];
      assert GroupAsWritten(sessions[..i + 1], inherited) == PushScore(groups, subject, session.score, inherited);
      GroupAsWrittenAgrees(sessions[..i], inherited);
      if subject in groups {
        groups := groups[subject := groups[subject] + [session.score]];
      } else if subject in inherited {
        // the lookup finds the inherited member, which has no `push`
        GroupAsWrittenThrows(sessions[..i + 1], inherited);
        GroupAsWrittenThrows(sessions, inherited);
        var j :| 0 <= j < i + 1 && SubjectOf(sessions[..i + 1][j]) in inherited;
        assert sessions[j] == sessions[..i + 1][j];
        return true, keys, groups;
      } else {
        groups := groups[subject := [session.score]];
        keys := keys + [subject];
      }
      i := i + 1;
    }
    assert sessions[..i] == sessions;
    GroupAsWrittenAgrees(sessions, inherited);
  }

  /** A single session whose quiz has the subject `toString`: the plain-object grouping throws
      (so the page shows the reset statistics), whereas the subject has a group of one score. */
  lemma PrototypeSubjectBreaksDashboard(quiz: Quiz, session: QuizSession)
    requires quiz.subject == "toString" && session.quiz == Some(quiz)
    ensures GroupAsWritten([session], PrototypeNames).None?
    ensures Subjects([session]) == ["toString"] && ScoresOf([session], "toString") == [session.score]
  {
    assert [session][..0] == [];
    assert "toString" in PrototypeNames;
  }

  // ---------------------------------------------------------------------------------------
  // Per-subject means and the ranking

  datatype SubjectAverage = SubjectAverage(subject: string, average: real)

  function AverageKey(a: SubjectAverage): real { a.average }

  /** `Object.entries(subjectScores).map(([subject, scores]) => ({ subject, average }))`. */
  function Averages(sessions: seq<QuizSession>): seq<SubjectAverage> {
    var keys := Subjects(sessions);
    seq(|keys|, i requires 0 <= i < |keys| => SubjectAverage(keys[i], Mean(ScoresOf(sessions, keys[i]))))
  }

  /** `subjectAverages.sort((a, b) => b.average - a.average)`. */
  function Ranked(sessions: seq<QuizSession>): seq<SubjectAverage> {
    SortDesc(Averages(sessions), AverageKey)
  }

  function Names(r: seq<SubjectAverage>): (names: seq<string>)
    ensures |names| == |r| && forall i | 0 <= i < |r| :: names[i] == r[i].subject
  {
    seq(|r|, i requires 0 <= i < |r| => r[i].subject)
  }

  /** `sortedSubjects.slice(0, 3).map(s => s.subject)`. */
  function Strongest(sessions: seq<QuizSession>): seq<string> {
    Names(Take(Ranked(sessions), 3))
  }

  /** `sortedSubjects.slice(-3).reverse().map(s => s.subject)`. */
  function Weakest(sessions: seq<QuizSession>): seq<string> {
    Names(Reverse(TakeLast(Ranked(sessions), 3)))
  }

  /** The ranking is in non-increasing order of mean and is a permutation of the subject
      averages. */
  lemma RankedSorted(sessions: seq<QuizSession>)
    ensures SortedDesc(Ranked(sessions), AverageKey)
    ensures multiset(Ranked(sessions)) == multiset(Averages(sessions))
  {
    SortDescSorted(Averages(sessions), AverageKey);
    SortDescPermutes(Averages(sessions), AverageKey);
  }

  /** The ranking lists every subject of the sessions once, each with the mean of its own
      group. */
  lemma RankedEntries(sessions: seq<QuizSession>)
    ensures |Ranked(sessions)| == |Subjects(sessions)|
    ensures forall a | a in Ranked(sessions) :: a.subject in Subjects(sessions) && a.average == Mean(ScoresOf(sessions, a.subject))
    ensures forall k | k in Subjects(sessions) :: SubjectAverage(k, Mean(ScoresOf(sessions, k))) in Ranked(sessions)
  {
    var r, avgs := Ranked(sessions), Averages(sessions);
    SortDescPermutes(avgs, AverageKey);
    assert |r| == |multiset(r)| == |multiset(avgs)| == |avgs|;
    forall a | a in r ensures a.subject in Subjects(sessions) && a.average == Mean(ScoresOf(sessions, a.subject)) {
      assert a in multiset(avgs);
    }
    forall k | k in Subjects(sessions) ensures SubjectAverage(k, Mean(ScoresOf(sessions, k))) in r {
      var i :| 0 <= i < |Subjects(sessions)| && Subjects(sessions)[i] == k;
      assert avgs[i] == SubjectAverage(k, Mean(ScoresOf(sessions, k)));
      assert avgs[i] in multiset(r);
    }
  }

  /** Position `i` of `xs.slice(-3).reverse()` is position `|xs| - 1 - i` of `xs`. */
  lemma LastThreeReversed<T>(xs: seq<T>, i: nat)
    requires i < Min(3, |xs|)
    ensures |Reverse(TakeLast(xs, 3))| == Min(3, |xs|)
    ensures Reverse(TakeLast(xs, 3))[i] == xs[|xs| - 1 - i]
  {
    var bottom := TakeLast(xs, 3);
    assert bottom[|bottom| - 1 - i] == xs[|xs| - |bottom| + (|bottom| - 1 - i)];
  }

  /** In a ranking, an entry among the first three has an average at least that of an entry
      whose subject is not named among them. */
  lemma TopBeatsRest(r: seq<SubjectAverage>, s: string, t: string)
    requires SortedDesc(r, AverageKey)
    requires s in Names(Take(r, 3)) && t in Names(r) && t !in Names(Take(r, 3))
    ensures exists i, j | 0 <= i < |r| && 0 <= j < |r| :: r[i].subject == s && r[j].subject == t && r[i].average >= r[j].average
  {
    var top := Take(r, 3);
    var i :| 0 <= i < |top| && Names(top)[i] == s;
    var j :| 0 <= j < |r| && Names(r)[j] == t;
    assert j >= |top|;
    assert AverageKey(r[i]) >= AverageKey(r[j]);
  }

  /** In a ranking, an entry among the last three has an average at most that of an entry
      whose subject is not named among them. */
  lemma BottomBelowRest(r: seq<SubjectAverage>, s: string, t: string)
    requires SortedDesc(r, AverageKey)
    requires s in Names(Reverse(TakeLast(r, 3))) && t in Names(r) && t !in Names(Reverse(TakeLast(r, 3)))
    ensures exists i, j | 0 <= i < |r| && 0 <= j < |r| :: r[i].subject == s && r[j].subject == t && r[i].average <= r[j].average
  {
    var w := Reverse(TakeLast(r, 3));
    var i :| 0 <= i < |w| && Names(w)[i] == s;
    LastThreeReversed(r, i);
    var j :| 0 <= j < |r| && Names(r)[j] == t;
    OutsideLastThree(r, j);
    assert AverageKey(r[j]) >= AverageKey(r[|r| - 1 - i]);
  }

  /** An entry whose subject is not named among the last three lies before them. */
  lemma OutsideLastThree(r: seq<SubjectAverage>, j: nat)
    requires j < |r| && r[j].subject !in Names(Reverse(TakeLast(r, 3)))
    ensures j < |r| - Min(3, |r|)
  {
    if j >= |r| - Min(3, |r|) {
      LastThreeReversed(r, |r| - 1 - j);
    }
  }

  /** Every subject of the sessions is named in the ranking. */
  lemma RankedNames(sessions: seq<QuizSession>, t: string)
    requires t in Subjects(sessions)
    ensures t in Names(Ranked(sessions))
  {
    RankedEntries(sessions);
    var r := Ranked(sessions);
    var j :| 0 <= j < |r| && r[j] == SubjectAverage(t, Mean(ScoresOf(sessions, t)));
    assert Names(r)[j] == t;
  }

  /** A subject among the strongest has a mean at least that of any subject left out of
      them. */
  lemma StrongestAreBest(sessions: seq<QuizSession>, s: string, t: string)
    requires s in Strongest(sessions) && t in Subjects(sessions) && t !in Strongest(sessions)
    ensures Mean(ScoresOf(sessions, s)) >= Mean(ScoresOf(sessions, t))
  {
    var r := Ranked(sessions);
    RankedSorted(sessions);
    RankedNames(sessions, t);
    TopBeatsRest(r, s, t);
    var i, j :| 0 <= i < |r| && 0 <= j < |r| && r[i].subject == s && r[j].subject == t && r[i].average >= r[j].average;
    RankedEntries(sessions);
    assert r[i] in r && r[j] in r;
  }

  /** A subject among the weakest has a mean at most that of any subject left out of them. */
  lemma WeakestAreWorst(sessions: seq<QuizSession>, s: string, t: string)
    requires s in Weakest(sessions) && t in Subjects(sessions) && t !in Weakest(sessions)
    ensures Mean(ScoresOf(sessions, s)) <= Mean(ScoresOf(sessions, t))
  {
    var r := Ranked(sessions);
    RankedSorted(sessions);
    RankedNames(sessions, t);
    BottomBelowRest(r, s, t);
    var i, j :| 0 <= i < |r| && 0 <= j < |r| && r[i].subject == s && r[j].subject == t && r[i].average <= r[j].average;
    RankedEntries(sessions);
    assert r[i] in r && r[j] in r;
  }

  /** There are `min(3, k)` strongest and weakest subjects for `k` subjects, and both lists
      are empty exactly when there are no sessions. */
  lemma StrongestWeakestSize(sessions: seq<QuizSession>)
    ensures |Strongest(sessions)| == |Weakest(sessions)| == Min(3, |Subjects(sessions)|)
    ensures Strongest(sessions) == [] <==> sessions == []
  {
    RankedEntries(sessions);
    if sessions != [] {
      SubjectsAreGroups(sessions, SubjectOf(sessions[0]));
    }
  }

  /** The weakest subjects are listed from the lowest mean up. */
  lemma WeakestAscending(sessions: seq<QuizSession>, i: nat, j: nat)
    requires i < j < |Weakest(sessions)|
    ensures Mean(ScoresOf(sessions, Weakest(sessions)[i])) <= Mean(ScoresOf(sessions, Weakest(sessions)[j]))
  {
    var r := Ranked(sessions);
    LastThreeReversed(r, i);
    LastThreeReversed(r, j);
    RankedSorted(sessions);
    RankedEntries(sessions);
    assert r[|r| - 1 - i] in r && r[|r| - 1 - j] in r;
    assert AverageKey(r[|r| - 1 - j]) >= AverageKey(r[|r| - 1 - i]);
  }

  /** With at most three subjects, the weakest are the strongest in reverse order. */
  lemma FewSubjectsMirror(sessions: seq<QuizSession>)
    requires |Subjects(sessions)| <= 3
    ensures Weakest(sessions) == Reverse(Strongest(sessions))
  {
    RankedSize(sessions);
    ShortMirror(Ranked(sessions));
  }

  lemma RankedSize(sessions: seq<QuizSession>)
    ensures |Ranked(sessions)| == |Subjects(sessions)|
  {
    var r, avgs := Ranked(sessions), Averages(sessions);
    SortDescPermutes(avgs, AverageKey);
    assert |r| == |multiset(r)| == |multiset(avgs)| == |avgs|;
  }

  /** For at most three entries, the last three reversed are the first three reversed. */
  lemma ShortMirror(r: seq<SubjectAverage>)
    requires |r| <= 3
    ensures Names(Reverse(TakeLast(r, 3))) == Reverse(Names(Take(r, 3)))
  {
    assert Take(r, 3) == r && TakeLast(r, 3) == r;
    NamesReverse(r);
  }

  lemma NamesReverse(r: seq<SubjectAverage>)
    ensures Names(Reverse(r)) == Reverse(Names(r))
  {
    var a, b := Names(Reverse(r)), Reverse(Names(r));
    forall i | 0 <= i < |r| ensures a[i] == b[i] {
      assert a[i] == Reverse(r)[i].subject == r[|r| - 1 - i].subject;
    }
  }

  // ---------------------------------------------------------------------------------------
  // The page

  /** The statistics shown before loading and after a failure. */
  const EmptyStats := QuizStats(0, 0.0, 0, [], [], [])

  /** The statistics `loadDashboardData` sets for `sessions` when nothing throws. */
  function StatsOf(sessions: seq<QuizSession>): QuizStats {
    QuizStats(
      |sessions|,
      Mean(Scores(sessions)),
      Sum(Times(sessions)),
      Strongest(sessions),
      Weakest(sessions),
      Take(Scores(sessions), 10))
  }

  /** Some session's subject names a member every plain object inherits. */
  predicate HitsPrototype(sessions: seq<QuizSession>) {
    exists i | 0 <= i < |sessions| :: SubjectOf(sessions[i]) in PrototypeNames
  }

  /** The part of the statistics computation after the grouping: the per-subject means, the
      in-place sort and the two slices. */
  method StatsFromGroups(sessions: seq<QuizSession>, keys: seq<string>, groups: map<string, seq<int>>)
    returns (stats: QuizStats)
    requires keys == Subjects(sessions)
    requires forall k | k in keys :: k in groups && groups[k] == ScoresOf(sessions, k)
    ensures stats == StatsOf(sessions)
  {
    var averages := seq(|keys|, i requires 0 <= i < |keys| => SubjectAverage(keys[i], Mean(groups[keys[i]])));
    assert averages == Averages(sessions);
    var sorted := new SubjectAverage[|averages|](i requires 0 <= i < |averages| => averages[i]);
    assert sorted[..] == averages;
    SortInPlace(sorted, AverageKey);
    var ranked := sorted[..];
    stats := QuizStats(
      |sessions|,
      Mean(Scores(sessions)),
      Sum(Times(sessions)),
      Names(Take(ranked, 3)),
      Names(Reverse(TakeLast(ranked, 3))),
      Take(Scores(sessions), 10));
  }

  /** The statistics computation of `loadDashboardData` as written: `None` is the `TypeError`
      of the plain-object grouping, which happens exactly when a subject names an inherited
      member. */
  method ComputeStats(sessions: seq<QuizSession>) returns (stats: Option<QuizStats>)
    ensures stats.None? <==> HitsPrototype(sessions)
    ensures stats.Some? ==> stats.value == StatsOf(sessions)
  {
    GroupAsWrittenThrows(sessions, PrototypeNames);
    var thrown, keys, groups := GroupOnPlainObject(sessions, PrototypeNames);
    if thrown {
      return None;
    }
    var computed := StatsFromGroups(sessions, keys, groups);
    return Some(computed);
  }

  /** The same computation over the dictionary grouping, which never throws. */
  method ComputeStatsCorrected(sessions: seq<QuizSession>) returns (stats: QuizStats)
    ensures stats == StatsOf(sessions)
  {
    var keys, groups := GroupBySubject(sessions);
    stats := StatsFromGroups(sessions, keys, groups);
  }

  /** The state of `DashboardPage` that `loadDashboardData` sets. */
  class DashboardPage {
    var stats: QuizStats
    var recentSessions: seq<QuizSession>
    var isLoading: bool

    constructor ()
      ensures stats == EmptyStats && recentSessions == [] && isLoading
    {
      stats, recentSessions, isLoading := EmptyStats, [], true;
    }

    /** `loadDashboardData()`, with `sessions` what `getUserQuizSessions(user.uid)` resolves
        to; that call turns its own failures into `[]`, so the awaited call never rejects and
        the `catch` is reached only through the grouping. Without a user nothing happens. */
    method LoadDashboardData(user: Option<string>, sessions: seq<QuizSession>)
      modifies this
      ensures user.None? ==> stats == old(stats) && recentSessions == old(recentSessions) && isLoading == old(isLoading)
      ensures user.Some? && HitsPrototype(sessions) ==> stats == EmptyStats && recentSessions == [] && !isLoading
      ensures user.Some? && !HitsPrototype(sessions) ==>
        recentSessions == Take(sessions, 5) && stats == StatsOf(sessions) && !isLoading
    {
      if user.None? {
        return;
      }
      recentSessions := Take(sessions, 5);
      var computed := ComputeStats(sessions);
      match computed {
        case None =>
          stats := EmptyStats;
          recentSessions := [];
        case Some(s) =>
          stats := s;
      }
      isLoading := false;
    }

    /** `loadDashboardData()` with the dictionary grouping: every list of sessions gets its
        statistics. */
    method LoadDashboardDataCorrected(user: Option<string>, sessions: seq<QuizSession>)
      modifies this
      ensures user.None? ==> stats == old(stats) && recentSessions == old(recentSessions) && isLoading == old(isLoading)
      ensures user.Some? ==> recentSessions == Take(sessions, 5) && stats == StatsOf(sessions) && !isLoading
    {
      if user.None? {
        return;
      }
      recentSessions := Take(sessions, 5);
      stats := ComputeStatsCorrected(sessions);
      isLoading := false;
    }
  }

  /** A signed-in user with one finished quiz whose subject is `toString`: the page as written
      ends with the reset statistics and no recent sessions. */
  method PrototypeSubjectResetsPage(quiz: Quiz, session: QuizSession) returns (stats: QuizStats, recent: seq<QuizSession>)
    requires quiz.subject == "toString" && session.quiz == Some(quiz)
    ensures stats == EmptyStats && recent == []
  {
    var page := new DashboardPage();
    assert SubjectOf([session][0]) in PrototypeNames;
    page.LoadDashboardData(Some("user"), [session]);
    stats, recent := page.stats, page.recentSessions;
  }

  /** The same user on the corrected page: the quiz is counted, scored and listed. */
  method PrototypeSubjectCounted(quiz: Quiz, session: QuizSession) returns (stats: QuizStats, recent: seq<QuizSession>)
    requires quiz.subject == "toString" && session.quiz == Some(quiz)
    ensures stats.totalQuizzes == 1 && stats.recentPerformance == [session.score]
    ensures stats.averageScore == session.score as real && recent == [session]
  {
    var page := new DashboardPage();
    page.LoadDashboardDataCorrected(Some("user"), [session]);
    stats, recent := page.stats, page.recentSessions;
    OneSessionStats(session);
  }

  lemma OneSessionStats(session: QuizSession)
    ensures StatsOf([session]).totalQuizzes == 1 && StatsOf([session]).recentPerformance == [session.score]
    ensures StatsOf([session]).averageScore == session.score as real
  {
    var xs := Scores([session]);
    assert xs == [session.score];
    assert Sum(xs) == session.score by {
      assert xs[..0] == [];
    }
  }
}
