/**
 * The achievement threshold engine, as pure definitions: the threshold and
 * the metric category are read from an achievement's display name, and an
 * achievement is granted when it is not yet awarded and the user's metric
 * clears the threshold.
 */
module Achievements {
  import opened Wrappers
  import opened Text

  /** An achievement definition (reference data). */
  datatype Achievement = Achievement(id: int, name: string, description: string, rarity: string)

  /** The user counters the engine compares against thresholds. */
  datatype Metrics = Metrics(streak: int, quizzesCompleted: int, coursesCompleted: int)

  /** The metric category a display name refers to. */
  datatype Category = StreakCategory | QuizzesCategory | CoursesCategory

  /** The threshold: the leading whole number of the name ("50 Day Streak" gives 50), or 0 without one. */
  function GetAchievementThreshold(name: string): (t: nat)
    ensures t != 0 ==> name != [] && IsDigit(name[0])
  {
    var token := FirstToken(name);
    if token != "" && AllDigits(token) then DigitsValue(token) else 0
  }

  /** The text that marks a category in a display name. */
  function Keyword(category: Category): string {
    match category
    case StreakCategory => "Streak"
    case QuizzesCategory => "Quizzes Completed"
    case CoursesCategory => "Courses Completed"
  }

  /** The category, matched by substring in the order Streak, Quizzes Completed, Courses Completed. */
  function CategoryOf(name: string): (r: Option<Category>)
    ensures r.Some? ==> Contains(name, Keyword(r.value))
    ensures r.None? <==> !Contains(name, Keyword(StreakCategory)) && !Contains(name, Keyword(QuizzesCategory))
                         && !Contains(name, Keyword(CoursesCategory))
    ensures r != Some(StreakCategory) ==> !Contains(name, Keyword(StreakCategory))
    ensures r == Some(CoursesCategory) ==> !Contains(name, Keyword(QuizzesCategory))
  {
    if Contains(name, "Streak") then Some(StreakCategory)
    else if Contains(name, "Quizzes Completed") then Some(QuizzesCategory)
    else if Contains(name, "Courses Completed") then Some(CoursesCategory)
    else None
  }

  /** The user counter a category reads. */
  function MetricFor(category: Category, m: Metrics): int {
    match category
    case StreakCategory => m.streak
    case QuizzesCategory => m.quizzesCompleted
    case CoursesCategory => m.coursesCompleted
  }

  /** The one comparison of a metric against a threshold: reaching it is enough. */
  predicate Qualifies(metric: int, threshold: int): (q: bool)
    ensures metric >= threshold ==> q
    ensures metric < threshold ==> !q
  {
    metric >= threshold
  }

  /** The user's metrics earn the achievement: its name has a known category and that metric qualifies. */
  predicate Earns(a: Achievement, m: Metrics): (e: bool)
    ensures e ==> Contains(a.name, Keyword(StreakCategory)) || Contains(a.name, Keyword(QuizzesCategory))
                  || Contains(a.name, Keyword(CoursesCategory))
    ensures Contains(a.name, Keyword(StreakCategory)) ==> (e <==> m.streak >= GetAchievementThreshold(a.name))
    ensures Contains(a.name, Keyword(QuizzesCategory)) && !Contains(a.name, Keyword(StreakCategory)) ==>
              (e <==> m.quizzesCompleted >= GetAchievementThreshold(a.name))
    ensures Contains(a.name, Keyword(CoursesCategory)) && !Contains(a.name, Keyword(StreakCategory))
            && !Contains(a.name, Keyword(QuizzesCategory)) ==>
              (e <==> m.coursesCompleted >= GetAchievementThreshold(a.name))
  {
    CategoryOf(a.name).Some? && Qualifies(MetricFor(CategoryOf(a.name).value, m), GetAchievementThreshold(a.name))
  }

  /** Raising the counters never takes an earned achievement away. */
  lemma EarnsIsMonotone(a: Achievement, m: Metrics, higher: Metrics)
    requires m.streak <= higher.streak && m.quizzesCompleted <= higher.quizzesCompleted
    requires m.coursesCompleted <= higher.coursesCompleted
    requires Earns(a, m)
    ensures Earns(a, higher)
  {
  }

  /** The engine grants `a` in one pass: not among the ids awarded before the pass, and earned. */
  predicate Grantable(a: Achievement, awarded: seq<int>, m: Metrics) {
    a.id !in awarded && Earns(a, m)
  }

  /** The ids one pass over `defs` grants, in definition order. */
  function Grants(defs: seq<Achievement>, awarded: seq<int>, m: Metrics): (granted: seq<int>)
    ensures |granted| <= |defs|
    ensures forall id :: id in granted ==> id !in awarded
  {
    if defs == [] then []
    else
      var last := defs[|defs| - 1];
      Grants(defs[..|defs| - 1], awarded, m) + (if Grantable(last, awarded, m) then [last.id] else [])
  }

  /** Extending the definitions scanned by one adds that definition's id exactly when it is grantable. */
  lemma GrantsStep(defs: seq<Achievement>, awarded: seq<int>, m: Metrics, i: int)
    requires 0 <= i < |defs|
    ensures Grants(defs[..i + 1], awarded, m) ==
            Grants(defs[..i], awarded, m) + (if Grantable(defs[i], awarded, m) then [defs[i].id] else [])
  {
    assert defs[..i + 1][..i] == defs[..i];
  }

  /** Every granted id belongs to a definition that was grantable: not awarded before, and earned. */
  lemma {:induction false} GrantsSound(defs: seq<Achievement>, awarded: seq<int>, m: Metrics, id: int)
    requires id in Grants(defs, awarded, m)
    ensures id !in awarded
    ensures exists i :: 0 <= i < |defs| && defs[i].id == id && Earns(defs[i], m)
  {
    var n := |defs|;
    if id in Grants(defs[..n - 1], awarded, m) {
      GrantsSound(defs[..n - 1], awarded, m, id);
      var i :| 0 <= i < n - 1 && defs[..n - 1][i].id == id && Earns(defs[..n - 1][i], m);
      assert defs[i] == defs[..n - 1][i];
    } else {
      assert defs[n - 1].id == id && Earns(defs[n - 1], m);
    }
  }

  /** Every grantable definition is granted. */
  lemma {:induction false} GrantsComplete(defs: seq<Achievement>, awarded: seq<int>, m: Metrics, i: int)
    requires 0 <= i < |defs| && Grantable(defs[i], awarded, m)
    ensures defs[i].id in Grants(defs, awarded, m)
  {
    var n := |defs|;
    if i < n - 1 {
      assert defs[..n - 1][i] == defs[i];
      GrantsComplete(defs[..n - 1], awarded, m, i);
    }
  }

  /** When no definition is earned, nothing is granted. */
  lemma {:induction false} GrantsNoneWhenNothingEarned(defs: seq<Achievement>, awarded: seq<int>, m: Metrics)
    requires forall i :: 0 <= i < |defs| ==> !Earns(defs[i], m)
    ensures Grants(defs, awarded, m) == []
  {
    if defs != [] {
      GrantsNoneWhenNothingEarned(defs[..|defs| - 1], awarded, m);
    }
  }

  /** The ids of the definitions are pairwise distinct. */
  predicate DistinctIds(defs: seq<Achievement>) {
    forall i, j :: 0 <= i < j < |defs| ==> defs[i].id != defs[j].id
  }

  /** With distinct definition ids, every grantable achievement is granted exactly once. */
  lemma {:induction false} GrantedExactlyOnce(defs: seq<Achievement>, awarded: seq<int>, m: Metrics, i: int)
    requires DistinctIds(defs)
    requires 0 <= i < |defs| && Grantable(defs[i], awarded, m)
    ensures multiset(Grants(defs, awarded, m))[defs[i].id] == 1
  {
    GrantCount(defs, awarded, m, defs[i].id);
    DistinctCount(defs, i);
  }

  /** A grant of `id` happens at most once per definition carrying `id`, and once for each grantable one. */
  lemma {:induction false} GrantCount(defs: seq<Achievement>, awarded: seq<int>, m: Metrics, id: int)
    ensures multiset(Grants(defs, awarded, m))[id] ==
            if id in awarded then 0 else CountEarned(defs, m, id)
  {
    if defs != [] {
      GrantCount(defs[..|defs| - 1], awarded, m, id);
    }
  }

  /** How many definitions carrying `id` are earned. */
  function CountEarned(defs: seq<Achievement>, m: Metrics, id: int): nat {
    if defs == [] then 0
    else
      var last := defs[|defs| - 1];
      CountEarned(defs[..|defs| - 1], m, id) + (if last.id == id && Earns(last, m) then 1 else 0)
  }

  /** With distinct ids, the earned definition at index i is the only earned one carrying its id. */
  lemma {:induction false} DistinctCount(defs: seq<Achievement>, i: int)
    requires DistinctIds(defs)
    requires 0 <= i < |defs|
    ensures forall m :: Earns(defs[i], m) ==> CountEarned(defs, m, defs[i].id) == 1
  {
    var n := |defs|;
    forall m | Earns(defs[i], m)
      ensures CountEarned(defs, m, defs[i].id) == 1
    {
      if i == n - 1 {
        NoOtherCarrier(defs[..n - 1], m, defs[i].id);
      } else {
        assert defs[..n - 1][i] == defs[i];
        DistinctCount(defs[..n - 1], i);
      }
    }
  }

  /** Definitions none of which carries `id` contribute no earned count for it. */
  lemma {:induction false} NoOtherCarrier(defs: seq<Achievement>, m: Metrics, id: int)
    requires forall k :: 0 <= k < |defs| ==> defs[k].id != id
    ensures CountEarned(defs, m, id) == 0
  {
    if defs != [] {
      NoOtherCarrier(defs[..|defs| - 1], m, id);
    }
  }

  /** Once a pass's grants are recorded as awarded, a second pass grants nothing. */
  lemma {:induction false} GrantsIdempotent(defs: seq<Achievement>, awarded: seq<int>, m: Metrics)
    ensures Grants(defs, awarded + Grants(defs, awarded, m), m) == []
  {
    var after := awarded + Grants(defs, awarded, m);
    forall i | 0 <= i < |defs|
      ensures !Grantable(defs[i], after, m)
    {
      if Grantable(defs[i], awarded, m) {
        GrantsComplete(defs, awarded, m, i);
      }
    }
    NothingGrantable(defs, after, m);
  }

  /** When no definition is grantable, nothing is granted. */
  lemma {:induction false} NothingGrantable(defs: seq<Achievement>, awarded: seq<int>, m: Metrics)
    requires forall i :: 0 <= i < |defs| ==> !Grantable(defs[i], awarded, m)
    ensures Grants(defs, awarded, m) == []
  {
    if defs != [] {
      NothingGrantable(defs[..|defs| - 1], awarded, m);
    }
  }

  /** A name made of a number, a space and anything else has that number as its threshold. */
  lemma ThresholdOfNumberedName(n: nat, rest: string)
    ensures GetAchievementThreshold(NatToString(n) + " " + rest) == n
  {
    FirstTokenOfJoin(NatToString(n), rest);
    DigitsValueOfNatToString(n);
  }

  /** A name that does not start with a digit has threshold 0. */
  lemma ThresholdWithoutNumber(name: string)
    requires name == [] || !IsDigit(name[0])
    ensures GetAchievementThreshold(name) == 0
  {
    var token := FirstToken(name);
    if token != "" {
      assert token[0] == name[0];
    }
  }
}
