/**
 What the dashboard picks out for its co-pilot banner (apps/web/components/Dashboard.tsx):
 the skill that keeps being missing from the best matches, and the invitation that runs out first.
 */
module DashboardPicks {
  import opened Wrappers

  // ---------- Array.prototype.sort, as an insertion sort ----------

  /** `x` goes behind the last element that the comparator does not put after it. */
  function Insert<T>(cmp: (T, T) -> int, xs: seq<T>, x: T): (ys: seq<T>)
    ensures |ys| == |xs| + 1 && multiset(ys) == multiset(xs) + multiset{x}
  {
    if xs == [] then [x]
    else
      var front, last := xs[..|xs| - 1], xs[|xs| - 1];
      assert xs == front + [last];
      if cmp(last, x) > 0 then Insert(cmp, front, x) + [last] else xs + [x]
  }

  function Sort<T>(cmp: (T, T) -> int, xs: seq<T>): (ys: seq<T>)
    ensures |ys| == |xs| && multiset(ys) == multiset(xs)
  {
    if xs == [] then []
    else
      assert xs == xs[..|xs| - 1] + [xs[|xs| - 1]];
      Insert(cmp, Sort(cmp, xs[..|xs| - 1]), xs[|xs| - 1])
  }

  // ---------- the recurring gap ----------

  datatype Job = Job(id: string, score: int, missing: seq<string>)

  function ByScore(a: Job, b: Job): int {
    b.score - a.score
  }

  ghost predicate BestFirst(jobs: seq<Job>) {
    forall i, j | 0 <= i < j < |jobs| :: jobs[i].score >= jobs[j].score
  }

  function OfScore(jobs: seq<Job>, score: int): seq<Job> {
    if jobs == [] then []
    else OfScore(jobs[..|jobs| - 1], score) + if jobs[|jobs| - 1].score == score then [jobs[|jobs| - 1]] else []
  }

  lemma OfScoreAppend(jobs: seq<Job>, x: Job, score: int)
    ensures OfScore(jobs + [x], score) == OfScore(jobs, score) + if x.score == score then [x] else []
  {
    assert (jobs + [x])[..|jobs|] == jobs;
  }

  lemma BestFirstAppend(jobs: seq<Job>, x: Job)
    requires BestFirst(jobs) && forall j | j in jobs :: j.score >= x.score
    ensures BestFirst(jobs + [x])
  {}

  lemma {:induction false} InsertKeepsOrder(jobs: seq<Job>, x: Job)
    requires BestFirst(jobs)
    ensures BestFirst(Insert(ByScore, jobs, x))
  {
    hide BestFirst;
    if jobs == [] {
      OneJob(x, 0);
    } else {
      var front, last := jobs[..|jobs| - 1], jobs[|jobs| - 1];
      assert jobs == front + [last];
      FrontIsBetter(front, last);
      if ByScore(last, x) > 0 {
        InsertKeepsOrder(front, x);
        InsertMembers(ByScore, front, x);
        BestFirstAppend(Insert(ByScore, front, x), last);
      } else {
        BestFirstAppend(jobs, x);
      }
    }
  }

  lemma {:induction false} InsertKeepsScore(jobs: seq<Job>, x: Job, score: int)
    ensures OfScore(Insert(ByScore, jobs, x), score) == OfScore(jobs, score) + if x.score == score then [x] else []
  {
    hide OfScore;
    if jobs == [] {
      OneJob(x, score);
    } else {
      var front, last := jobs[..|jobs| - 1], jobs[|jobs| - 1];
      assert jobs == front + [last];
      if ByScore(last, x) > 0 {
        InsertKeepsScore(front, x, score);
        OfScoreAppend(Insert(ByScore, front, x), last, score);
        OfScoreAppend(front, last, score);
      } else {
        OfScoreAppend(jobs, x, score);
      }
    }
  }

  lemma InsertMembers<T>(cmp: (T, T) -> int, xs: seq<T>, x: T)
    ensures forall y | y in Insert(cmp, xs, x) :: y in xs || y == x
  {
    hide Insert;
    forall y | y in Insert(cmp, xs, x) ensures y in xs || y == x { assert y in multiset(Insert(cmp, xs, x)); }
  }

  lemma OneJob(x: Job, score: int)
    ensures BestFirst([x]) && OfScore([x], score) == OfScore([], score) + if x.score == score then [x] else []
  {
    OfScoreAppend([], x, score);
    assert [] + [x] == [x];
  }

  lemma FrontIsBetter(front: seq<Job>, last: Job)
    requires BestFirst(front + [last])
    ensures BestFirst(front) && forall j | j in front + [last] :: j.score >= last.score
  {
    var jobs := front + [last];
    assert forall i | 0 <= i < |front| :: jobs[i] == front[i];
    forall j | j in jobs ensures j.score >= last.score {
      var i :| 0 <= i < |jobs| && jobs[i] == j;
      assert jobs[|front|] == last;
    }
  }

  /** The matches come best first, and equally good ones in the order they were in. */
  lemma {:induction false} SortedByScore(jobs: seq<Job>, score: int)
    ensures BestFirst(Sort(ByScore, jobs)) && OfScore(Sort(ByScore, jobs), score) == OfScore(jobs, score)
  {
    if jobs != [] {
      SortedByScore(jobs[..|jobs| - 1], score);
      InsertKeepsOrder(Sort(ByScore, jobs[..|jobs| - 1]), jobs[|jobs| - 1]);
      InsertKeepsScore(Sort(ByScore, jobs[..|jobs| - 1]), jobs[|jobs| - 1], score);
    }
  }

  /** The skill names missing from the five best matches, in the order the loop meets them. */
  function Missing(jobs: seq<Job>): seq<string> {
    if jobs == [] then [] else Missing(jobs[..|jobs| - 1]) + jobs[|jobs| - 1].missing
  }

  function TopFive(jobs: seq<Job>): seq<Job> {
    if |jobs| < 5 then Sort(ByScore, jobs) else Sort(ByScore, jobs)[..5]
  }

  datatype Gap = Gap(name: string, count: nat)

  const MIN_COUNT := 2

  /** `first` is where `name` stands for the first time. */
  predicate FirstAt(names: seq<string>, name: string, first: nat) {
    first < |names| && names[first] == name && name !in names[..first]
  }

  /** The name that occurs most often, at least twice; of several the one that was met first. */
  ghost predicate IsRecurring(names: seq<string>, gap: Option<Gap>) {
    match gap
    case None => forall n | n in names :: multiset(names)[n] < 2
    case Some(g) =>
      && g.count == multiset(names)[g.name] >= 2
      && (forall n | n in names :: multiset(names)[n] <= g.count)
      && exists first: nat ::
        FirstAt(names, g.name, first) && forall n | n in names[..first] :: multiset(names)[n] < g.count
  }

  /** A Map of counts: the keys in the order of their insertion, each with its count in `names`. */
  ghost predicate Counted(keys: seq<string>, counts: map<string, nat>, names: seq<string>) {
    && keys == Firsts(names)
    && (forall n :: n in counts <==> n in names)
    && (forall n | n in counts :: counts[n] == multiset(names)[n])
  }

  /** The different names, in the order of their first occurrences. */
  function Firsts(names: seq<string>): (keys: seq<string>)
    ensures forall n :: n in keys <==> n in names
  {
    if names == [] then []
    else
      var front, last := names[..|names| - 1], names[|names| - 1];
      assert names == front + [last];
      if last in front then Firsts(front) else Firsts(front) + [last]
  }

  lemma {:induction false} FirstsBefore(names: seq<string>, k: nat) returns (first: nat)
    requires k < |Firsts(names)|
    ensures FirstAt(names, Firsts(names)[k], first)
    ensures forall n | n in names[..first] :: n in Firsts(names)[..k]
  {
    var front, last := names[..|names| - 1], names[|names| - 1];
    if k < |Firsts(front)| {
      first := FirstsBefore(front, k);
      assert names[..first] == front[..first];
      assert Firsts(names)[..k] == Firsts(front)[..k];
    } else {
      first := |front|;
      assert Firsts(names)[..k] == Firsts(front);
    }
  }

  class GapCounter {
    var keys: seq<string>
    var counts: map<string, nat>

    constructor ()
      ensures Counted(keys, counts, [])
    {
      keys, counts := [], map[];
    }

    /** gapCounts.set(name, (gapCounts.get(name) ?? 0) + 1) */
    method Add(name: string, ghost names: seq<string>)
      requires Counted(keys, counts, names)
      modifies this
      ensures Counted(keys, counts, names + [name])
    {
      assert (names + [name])[..|names|] == names;
      if name in counts {
        counts := counts[name := counts[name] + 1];
      } else {
        keys := keys + [name];
        counts := counts[name := 1];
      }
    }

    /** After `k` keys, `gap` is the one at `at`. */
    ghost predicate BestSoFar(gap: Option<Gap>, at: nat, k: nat)
      requires k <= |keys| && forall i | 0 <= i < |keys| :: keys[i] in counts
      reads this
    {
      match gap
      case None => forall i | 0 <= i < k :: counts[keys[i]] < MIN_COUNT
      case Some(g) =>
        && at < k && g == Gap(keys[at], counts[keys[at]]) && g.count >= MIN_COUNT
        && (forall i | 0 <= i < k :: counts[keys[i]] <= g.count)
        && (forall i | 0 <= i < at :: counts[keys[i]] < g.count)
    }

    method Recurring(ghost names: seq<string>) returns (gap: Option<Gap>)
      requires Counted(keys, counts, names)
      ensures IsRecurring(names, gap)
    {
      gap := None;
      ghost var at: nat := 0;
      for k := 0 to |keys|
        invariant BestSoFar(gap, at, k)
      {
        var name, count := keys[k], counts[keys[k]];
        if count >= MIN_COUNT && (gap == None || count > gap.value.count) {
          gap, at := Some(Gap(name, count)), k;
        }
      }
      forall n | n in names ensures exists i :: 0 <= i < |keys| && keys[i] == n { assert n in keys; }
      if gap.Some? {
        var first := FirstsBefore(names, at);
        forall n | n in names[..first] ensures multiset(names)[n] < gap.value.count { assert n in keys[..at]; }
      }
    }
  }

  /** The two loops over the matches, sorted best first. */
  method RecurringGap(jobs: seq<Job>) returns (gap: Option<Gap>)
    ensures IsRecurring(Missing(TopFive(jobs)), gap)
  {
    hide IsRecurring, Counted, Sort;
    var top := TopFive(jobs);
    var gapCounts := new GapCounter();
    for i := 0 to |top|
      invariant Counted(gapCounts.keys, gapCounts.counts, Missing(top[..i]))
      invariant fresh(gapCounts)
    {
      var missing := top[i].missing;
      assert Missing(top[..i]) + missing[..0] == Missing(top[..i]);
      for j := 0 to |missing|
        invariant Counted(gapCounts.keys, gapCounts.counts, Missing(top[..i]) + missing[..j])
        invariant fresh(gapCounts)
      {
        gapCounts.Add(missing[j], Missing(top[..i]) + missing[..j]);
        assert Missing(top[..i]) + missing[..j] + [missing[j]] == Missing(top[..i]) + missing[..j + 1];
      }
      assert top[..i + 1][..i] == top[..i] && missing[..|missing|] == missing;
    }
    assert top[..|top|] == top;
    gap := gapCounts.Recurring(Missing(top));
  }

  /** Of five or more matches the five, of fewer all; and no match outside the five is better than one inside. */
  lemma TopFiveAreBest(jobs: seq<Job>, i: nat, j: nat)
    ensures |TopFive(jobs)| == (if |jobs| < 5 then |jobs| else 5) && TopFive(jobs) <= Sort(ByScore, jobs)
    ensures i < |TopFive(jobs)| <= j < |jobs| ==> Sort(ByScore, jobs)[j].score <= TopFive(jobs)[i].score
  {
    hide Sort;
    SortedByScore(jobs, 0);
  }

  function Sum(jobs: seq<Job>, name: string): nat {
    if jobs == [] then 0 else multiset(jobs[0].missing)[name] + Sum(jobs[1..], name)
  }

  /** The names counted are those missing from the matches, each as often as it is missing. */
  lemma {:induction false} MissingCounts(jobs: seq<Job>, name: string)
    ensures multiset(Missing(jobs))[name] == Sum(jobs, name)
  {
    if jobs != [] {
      var front, last := jobs[..|jobs| - 1], jobs[|jobs| - 1];
      MissingCounts(front, name);
      SumAppends(front, last, name);
      assert jobs == front + [last];
    }
  }

  lemma {:induction false} SumAppends(jobs: seq<Job>, last: Job, name: string)
    ensures Sum(jobs + [last], name) == Sum(jobs, name) + multiset(last.missing)[name]
  {
    if jobs == [] {
      assert [] + [last] == [last];
    } else {
      assert (jobs + [last])[1..] == jobs[1..] + [last];
      SumAppends(jobs[1..], last, name);
    }
  }

  /**
   The skill pointed out is missing from the best five matches, so often in all, at least twice, and none more
   often.
   */
  lemma GapIsMissing(jobs: seq<Job>, gap: Option<Gap>, name: string)
    requires IsRecurring(Missing(TopFive(jobs)), gap)
    ensures gap.Some? ==> gap.value.count == Sum(TopFive(jobs), gap.value.name) >= 2
    ensures gap.Some? ==> Sum(TopFive(jobs), name) <= gap.value.count
    ensures gap == None ==> Sum(TopFive(jobs), name) < 2
  {
    hide TopFive, Sum, Missing;
    MissingCounts(TopFive(jobs), name);
    if gap.Some? { MissingCounts(TopFive(jobs), gap.value.name); }
  }

  // ---------- the invitation that runs out first ----------

  datatype Status = AccruedPendingStart | Started | Completed | ExpiredUnbilled | AlreadyBadged

  datatype Invite = Invite(id: string, status: Status, expiresAt: Option<int>)

  datatype Selected = Selected(invite: Invite, moreCount: nat, expired: bool)

  predicate IsActive(i: Invite) {
    i.status == AccruedPendingStart || i.status == Started
  }

  function Active(invites: seq<Invite>): (active: seq<Invite>)
    ensures forall i :: i in active <==> i in invites && IsActive(i)
  {
    if invites == [] then []
    else
      assert invites == invites[..|invites| - 1] + [invites[|invites| - 1]];
      Active(invites[..|invites| - 1]) + if IsActive(invites[|invites| - 1]) then [invites[|invites| - 1]] else []
  }

  /** Pending and started invitations, each as often as it is there. */
  lemma {:induction false} ActiveAre(invites: seq<Invite>, i: Invite)
    ensures multiset(Active(invites))[i]
      == if i.status == AccruedPendingStart || i.status == Started then multiset(invites)[i] else 0
  {
    if invites != [] {
      ActiveAre(invites[..|invites| - 1], i);
      assert invites == invites[..|invites| - 1] + [invites[|invites| - 1]];
    }
  }

  /** Two invitations without a deadline compare as 1 either way round. */
  function ByDeadline(a: Invite, b: Invite): int {
    if a.expiresAt.None? then 1
    else if b.expiresAt.None? then -1
    else a.expiresAt.value - b.expiresAt.value
  }

  predicate NoLater(a: Invite, b: Invite) {
    b.expiresAt.Some? ==> a.expiresAt.Some? && a.expiresAt.value <= b.expiresAt.value
  }

  ghost predicate SoonestFirst(xs: seq<Invite>) {
    forall i, j | 0 <= i < j < |xs| :: NoLater(xs[i], xs[j])
  }

  lemma SoonestFirstAppend(xs: seq<Invite>, x: Invite)
    requires SoonestFirst(xs) && forall y | y in xs :: NoLater(y, x)
    ensures SoonestFirst(xs + [x])
  {}

  lemma FrontIsSooner(front: seq<Invite>, last: Invite)
    requires SoonestFirst(front + [last])
    ensures SoonestFirst(front) && forall y | y in front + [last] :: NoLater(y, last)
  {
    var xs := front + [last];
    assert forall i | 0 <= i < |front| :: xs[i] == front[i];
    forall y | y in xs ensures NoLater(y, last) {
      var i :| 0 <= i < |xs| && xs[i] == y;
      assert xs[|front|] == last;
    }
  }

  lemma {:induction false} InsertByDeadline(xs: seq<Invite>, x: Invite)
    requires SoonestFirst(xs)
    ensures SoonestFirst(Insert(ByDeadline, xs, x))
  {
    hide SoonestFirst;
    if xs == [] {
      SoonestFirstAppend(xs, x);
      assert xs + [x] == [x];
    } else {
      var front, last := xs[..|xs| - 1], xs[|xs| - 1];
      assert xs == front + [last];
      FrontIsSooner(front, last);
      if ByDeadline(last, x) > 0 {
        InsertByDeadline(front, x);
        InsertMembers(ByDeadline, front, x);
        SoonestFirstAppend(Insert(ByDeadline, front, x), last);
      } else {
        SoonestFirstAppend(xs, x);
      }
    }
  }

  lemma {:induction false} SortedByDeadline(xs: seq<Invite>)
    ensures SoonestFirst(Sort(ByDeadline, xs))
  {
    if xs != [] {
      SortedByDeadline(xs[..|xs| - 1]);
      InsertByDeadline(Sort(ByDeadline, xs[..|xs| - 1]), xs[|xs| - 1]);
    }
  }

  /**
   One of the active invitations none of which runs out sooner, and how many more there are; without any, the
   first expired one.
   */
  ghost predicate IsSelection(invites: seq<Invite>, s: Option<Selected>) {
    match s
    case Some(Selected(invite, more, false)) =>
      && invite in invites && IsActive(invite) && more + 1 == |Active(invites)|
      && forall i | i in Active(invites) :: NoLater(invite, i)
    case Some(Selected(invite, more, true)) =>
      Active(invites) == [] && more == 0 && exists k: nat :: FirstExpired(invites, k) && invites[k] == invite
    case None =>
      Active(invites) == [] && forall i | i in invites :: i.status != ExpiredUnbilled
  }

  predicate FirstExpired(invites: seq<Invite>, k: nat) {
    && k < |invites| && invites[k].status == ExpiredUnbilled
    && forall j | 0 <= j < k :: invites[j].status != ExpiredUnbilled
  }

  method SelectEmployerInvite(invites: seq<Invite>) returns (s: Option<Selected>)
    ensures IsSelection(invites, s)
  {
    var active := Active(invites);
    if |active| > 0 {
      var sorted := Sort(ByDeadline, active);
      SortedByDeadline(active);
      assert sorted[0] in multiset(sorted);
      forall i | i in active ensures NoLater(sorted[0], i) { assert i in multiset(sorted); }
      return Some(Selected(sorted[0], |active| - 1, false));
    }
    for k := 0 to |invites|
      invariant forall j | 0 <= j < k :: invites[j].status != ExpiredUnbilled
    {
      if invites[k].status == ExpiredUnbilled {
        assert FirstExpired(invites, k);
        return Some(Selected(invites[k], 0, true));
      }
    }
    s := None;
  }
}
