/**
 Staffing requests that overlap. The service answers a request in two queries: it looks the submission up and
 grants the request, later it writes, whatever the submission has become in between
 (apps/api/src/modules/staffing/staffing-submissions.service.ts). Look-ups and writes of any
 number of requests interleave freely here.
 */
module StaffingOverlap {
  import opened Staffing
  import opened Wrappers

  /** A granted request, and whether it has been written yet. */
  datatype Granted = Granted(request: Request, written: bool)

  datatype State = State(subs: Store, granted: seq<Granted>)

  datatype Event = LookUp(request: Request) | Write(m: nat, at: int)

  function TimeOf(e: Event): int {
    match e
    case LookUp(r) => r.now
    case Write(_, at) => at
  }

  predicate Enabled(s: State, e: Event) {
    e.Write? ==> e.m < |s.granted| && !s.granted[e.m].written && Writable(s.subs, s.granted[e.m].request)
  }

  function Next(s: State, e: Event): State
    requires Enabled(s, e)
  {
    match e
    case LookUp(r) => if Reply(s.subs, r) == Ok then s.(granted := s.granted + [Granted(r, false)]) else s
    case Write(m, _) =>
      State(Written(s.subs, s.granted[m].request), s.granted[m := s.granted[m].(written := true)])
  }

  predicate Runs(s: State, es: seq<Event>)
    decreases |es|
  {
    es == [] || (Enabled(s, es[0]) && Runs(Next(s, es[0]), es[1..]))
  }

  function End(s: State, es: seq<Event>): State
    requires Runs(s, es)
    decreases |es|
  {
    if es == [] then s else End(Next(s, es[0]), es[1..])
  }

  predicate InOrder(t: int, es: seq<Event>)
    decreases |es|
  {
    es == [] || (t <= TimeOf(es[0]) && InOrder(TimeOf(es[0]), es[1..]))
  }

  /** With nothing in between, a look-up and its write are the request as the service's methods have it. */
  lemma LookedUpAndWrittenAtOnce(s: State, r: Request)
    requires Reply(s.subs, r) == Ok
    ensures var t, w := Next(s, LookUp(r)), Write(|s.granted|, r.now);
      Enabled(t, w) && Next(t, w).subs == After(s.subs, r)
  {}

  // ---------- each on its own ----------

  /** Every request granted is about the requester's own submission. */
  ghost predicate AllOwn(s: State) {
    forall g | g in s.granted && !g.request.Create? :: Own(s.subs, g.request)
  }

  /**
   A submission changes only by a request about it, from the party it belongs to: a company's move, or its candidate's
   approval, refusal or withdrawal. A consent comes from the candidate's approval.
   */
  ghost predicate ByParty(s: State, e: Event, i: nat)
    requires Enabled(s, e) && i < |s.subs|
  {
    var was, now := s.subs[i], Next(s, e).subs;
    i < |now| && SameMatter(was, now[i])
    && (now[i] != was ==> e.Write? && match s.granted[e.m].request
          case Create(_, _, _, _, _, _, _) => false
          case Move(org, id, to, at) =>
            id == i && org == was.org && now[i] == was.(status := to, statusUpdatedAt := at)
          case Approve(candidate, id, _, at) =>
            && id == i && candidate == was.candidate
            && now[i] == was.(status := Submitted, consentedAt := Some(at), statusUpdatedAt := at)
          case Decline(candidate, id, at) =>
            && id == i && candidate == was.candidate
            && now[i] == was.(status := Declined, consentedAt := None, statusUpdatedAt := at)
          case Withdraw(candidate, id, at) =>
            && id == i && candidate == was.candidate
            && now[i] == was.(status := Withdrawn, statusUpdatedAt := at))
  }

  ghost predicate AlwaysByParty(s: State, es: seq<Event>, i: nat)
    requires Runs(s, es) && i < |s.subs|
    decreases |es|
  {
    es == [] || (ByParty(s, es[0], i) && AlwaysByParty(Next(s, es[0]), es[1..], i))
  }

  lemma OwnStays(s: State, e: Event)
    requires AllOwn(s) && Enabled(s, e)
    ensures AllOwn(Next(s, e))
  {
    hide Reply;
    if e.LookUp? && Reply(s.subs, e.request) == Ok && !e.request.Create? { OwnIfGranted(s.subs, e.request); }
  }

  lemma OwnIfGranted(subs: Store, r: Request)
    requires Reply(subs, r) == Ok
    ensures Own(subs, r)
  {}

  /**
   However requests overlap, nobody changes a submission but the company and the candidate it belongs to, each
   in their own way.
   */
  lemma {:induction false} EachPartyItsOwn(s: State, es: seq<Event>, i: nat)
    requires AllOwn(s) && Runs(s, es) && i < |s.subs|
    ensures AlwaysByParty(s, es, i)
    decreases |es|
  {
    hide AllOwn, Enabled, Next, ByParty;
    if es != [] {
      StepByParty(s, es[0], i);
      OwnStays(s, es[0]);
      EachPartyItsOwn(Next(s, es[0]), es[1..], i);
    }
  }

  lemma StepByParty(s: State, e: Event, i: nat)
    requires AllOwn(s) && Enabled(s, e) && i < |s.subs|
    ensures ByParty(s, e, i) && i < |Next(s, e).subs|
  {
    hide Reply;
    if e.Write? { assert s.granted[e.m] in s.granted; }
  }

  // ---------- one company at a time ----------

  predicate Meets(s: State, e: Event)
    requires Enabled(s, e)
  {
    e.Write? && MeetsRival(s.subs, s.granted[e.m].request, e.at)
  }

  ghost predicate AlwaysExclusive(s: State, es: seq<Event>)
    requires Runs(s, es)
    decreases |es|
  {
    es == [] || (Exclusive(Next(s, es[0]).subs, TimeOf(es[0])) && AlwaysExclusive(Next(s, es[0]), es[1..]))
  }

  predicate NeverMeets(s: State, es: seq<Event>)
    requires Runs(s, es)
    decreases |es|
  {
    es == [] || (!Meets(s, es[0]) && NeverMeets(Next(s, es[0]), es[1..]))
  }

  lemma ExclusiveStep(s: State, t: int, e: Event)
    requires Enabled(s, e) && Exclusive(s.subs, t) && t <= TimeOf(e)
    ensures Exclusive(Next(s, e).subs, TimeOf(e)) <==> !Meets(s, e)
  {
    hide Exclusive, MeetsRival, Written, Reply;
    TimeKeepsExclusive(s.subs, t, TimeOf(e));
    if e.Write? { WriteExclusiveIff(s.subs, s.granted[e.m].request, e.at); }
  }

  /**
   However requests overlap, at most one company represents a candidate at a client at all times exactly if no
   write meets a rival.
   */
  lemma {:induction false} AlwaysExclusiveIff(s: State, t: int, es: seq<Event>)
    requires Exclusive(s.subs, t) && Runs(s, es) && InOrder(t, es)
    ensures AlwaysExclusive(s, es) <==> NeverMeets(s, es)
    decreases |es|
  {
    hide Exclusive, Meets, Next, Enabled;
    if es != [] {
      ExclusiveStep(s, t, es[0]);
      if !Meets(s, es[0]) { AlwaysExclusiveIff(Next(s, es[0]), TimeOf(es[0]), es[1..]); }
    }
  }

  // ---------- moves along the table ----------

  /** The status a request needs, by the tables the look-up uses. */
  predicate Allows(status: Status, r: Request) {
    match r
    case Create(_, _, _, _, _, _, _) => true
    case Move(_, _, to, _) => OrgCanMove(status, to)
    case Approve(_, _, _, _) => status == PendingConsent
    case Decline(_, _, _) => status == PendingConsent
    case Withdraw(_, _, _) => CandidateCanWithdraw(status)
  }

  function Goal(r: Request): Status {
    match r
    case Create(_, _, _, _, _, _, _) => PendingConsent
    case Move(_, _, to, _) => to
    case Approve(_, _, _, _) => Submitted
    case Decline(_, _, _) => Declined
    case Withdraw(_, _, _) => Withdrawn
  }

  predicate Reaches(a: Status, b: Status) {
    a == b || match a
      case PendingConsent => true
      case Submitted => b in {Interviewing, Offer, Placed, NotSelected, Withdrawn}
      case Interviewing => b in {Offer, Placed, NotSelected, Withdrawn}
      case Offer => b in {Placed, NotSelected, Withdrawn}
      case _ => false
  }

  lemma ReachesOn(a: Status, b: Status, c: Status)
    requires Reaches(a, b) && Reaches(b, c)
    ensures Reaches(a, c)
  {}

  /** Every allowed request is a step of `Reaches`, and every pair of it is a chain of allowed requests. */
  lemma ReachesIsTheTable(a: Status, b: Status)
    ensures forall r: Request | !r.Create? && Allows(a, r) :: Reaches(a, Goal(r))
    ensures Reaches(a, b) && a != b ==> exists r: Request :: !r.Create? && Allows(a, r) && Reaches(Goal(r), b)
  {
    if Reaches(a, b) && a != b {
      var decline, approve := Decline(0, 0, 0), Approve(0, 0, [], 0);
      var r := if a == PendingConsent then (if b == Declined then decline else approve)
        else if b in {NotSelected, Withdrawn} then Move(0, 0, b, 0)
        else Move(0, 0, if a == Submitted then Interviewing else if a == Interviewing then Offer else Placed, 0);
      assert Allows(a, r) && Reaches(Goal(r), b);
    }
  }

  /** The submission has moved on since the request was granted, to where the request leads no longer. */
  predicate Late(s: State, e: Event)
    requires Enabled(s, e)
  {
    e.Write? && (var r := s.granted[e.m].request;
      !r.Create? && !Allows(s.subs[r.id].status, r) && s.subs[r.id].status != Goal(r))
  }

  ghost predicate Forward(was: Store, now: Store) {
    |was| <= |now| && forall i | 0 <= i < |was| :: Reaches(was[i].status, now[i].status)
  }

  ghost predicate OnceAllowed(r: Request, status: Status) {
    exists f :: Allows(f, r) && Reaches(f, status)
  }

  /** Every request still to be written was allowed at some status its submission has had. */
  ghost predicate GrantKnown(g: Granted, subs: Store) {
    !g.written && !g.request.Create? ==> g.request.id < |subs| && OnceAllowed(g.request, subs[g.request.id].status)
  }

  ghost predicate Known(s: State) {
    forall g | g in s.granted :: GrantKnown(g, s.subs)
  }

  lemma FairIff(r: Request, status: Status)
    requires !r.Create? && OnceAllowed(r, status)
    ensures Reaches(status, Goal(r)) <==> Allows(status, r) || status == Goal(r)
  {}

  lemma WrittenStatus(subs: Store, r: Request)
    requires Writable(subs, r)
    ensures Written(subs, r)[Target(subs, r)].status == Goal(r)
  {}

  lemma ForwardIff(s: State, e: Event)
    requires Known(s) && Enabled(s, e)
    ensures Forward(s.subs, Next(s, e).subs) <==> !Late(s, e)
  {
    hide Written, Reply, Reaches, Allows, OnceAllowed;
    forall x: Status ensures Reaches(x, x) { StatusReachesItself(x); }
    if e.Write? {
      var g := s.granted[e.m];
      assert GrantKnown(g, s.subs);
      OneRowWritten(s.subs, g.request);
      WrittenStatus(s.subs, g.request);
      if !g.request.Create? { FairIff(g.request, s.subs[g.request.id].status); }
    }
  }

  lemma StatusReachesItself(x: Status)
    ensures Reaches(x, x)
  {}

  lemma GrantStaysKnown(g: Granted, was: Store, now: Store)
    requires GrantKnown(g, was) && Forward(was, now)
    ensures GrantKnown(g, now)
  {
    hide Reaches, Allows;
    if !g.written && !g.request.Create? {
      var f :| Allows(f, g.request) && Reaches(f, was[g.request.id].status);
      ReachesOn(f, was[g.request.id].status, now[g.request.id].status);
    }
  }

  lemma GrantedIsKnown(subs: Store, r: Request)
    requires Reply(subs, r) == Ok
    ensures GrantKnown(Granted(r, false), subs)
  {
    if !r.Create? {
      StatusReachesItself(subs[r.id].status);
      assert Allows(subs[r.id].status, r);
    }
  }

  lemma KnownStays(s: State, e: Event)
    requires Known(s) && Enabled(s, e) && !Late(s, e)
    ensures Known(Next(s, e))
  {
    hide GrantKnown, Reply, Written, Late, Forward;
    var t := Next(s, e);
    ForwardIff(s, e);
    forall g | g in t.granted ensures GrantKnown(g, t.subs) {
      if g in s.granted {
        GrantStaysKnown(g, s.subs, t.subs);
      } else if e.LookUp? {
        GrantedIsKnown(s.subs, e.request);
      } else {
        WrittenIsKnown(g, t.subs);
      }
    }
  }

  lemma WrittenIsKnown(g: Granted, subs: Store)
    ensures g.written ==> GrantKnown(g, subs)
  {}

  ghost predicate AlwaysForward(s: State, es: seq<Event>)
    requires Runs(s, es)
    decreases |es|
  {
    es == [] || (Forward(s.subs, Next(s, es[0]).subs) && AlwaysForward(Next(s, es[0]), es[1..]))
  }

  predicate NeverLate(s: State, es: seq<Event>)
    requires Runs(s, es)
    decreases |es|
  {
    es == [] || (!Late(s, es[0]) && NeverLate(Next(s, es[0]), es[1..]))
  }

  /** Submissions only ever move along the table exactly in the runs without a late write. */
  lemma {:induction false} AlwaysForwardIff(s: State, es: seq<Event>)
    requires Known(s) && Runs(s, es)
    ensures AlwaysForward(s, es) <==> NeverLate(s, es)
    decreases |es|
  {
    hide Known, Forward, Late, Next, Enabled;
    if es != [] {
      ForwardIff(s, es[0]);
      if !Late(s, es[0]) {
        KnownStays(s, es[0]);
        AlwaysForwardIff(Next(s, es[0]), es[1..]);
      }
    }
  }

  /** How far a submission has come. */
  function Rank(s: Status): (n: nat)
    ensures n <= 4
  {
    match s
    case PendingConsent => 0
    case Submitted => 1
    case Interviewing => 2
    case Offer => 3
    case _ => 4
  }

  lemma RankGrows(a: Status, b: Status)
    requires Reaches(a, b)
    ensures a == b || Rank(a) < Rank(b)
  {}

  /** How often the status of submission `i` changes. */
  function Changes(s: State, es: seq<Event>, i: nat): nat
    requires Runs(s, es) && i < |s.subs|
    decreases |es|
  {
    if es == [] then 0
    else
      var t := Next(s, es[0]);
      NoneIsLost(s, es[0]);
      (if t.subs[i].status == s.subs[i].status then 0 else 1) + Changes(t, es[1..], i)
  }

  lemma NoneIsLost(s: State, e: Event)
    requires Enabled(s, e)
    ensures |s.subs| <= |Next(s, e).subs|
  {}

  /** At most four times in such a run; and not at all once it is declined, placed, not selected or withdrawn. */
  lemma {:induction false} AtMostFourChanges(s: State, es: seq<Event>, i: nat)
    requires Runs(s, es) && AlwaysForward(s, es) && i < |s.subs|
    ensures Changes(s, es, i) <= 4 - Rank(s.subs[i].status)
    ensures i < |End(s, es).subs| && (Rank(s.subs[i].status) == 4 ==> End(s, es).subs[i].status == s.subs[i].status)
    decreases |es|
  {
    hide Next, Enabled, Reaches, Rank;
    if es != [] {
      var t := Next(s, es[0]);
      RankGrows(s.subs[i].status, t.subs[i].status);
      AtMostFourChanges(t, es[1..], i);
    }
  }

  // ---------- consent ----------

  /**
   Nobody is put forward unasked: every submission past the candidate's decision carries a consent that was
   given in time.
   */
  predicate Consented(s: Submission) {
    && (s.status in {Submitted, Interviewing, Offer, Placed} ==> s.consentedAt.Some?)
    && (s.consentedAt.Some? ==> s.consentedAt.value < s.consentExpiresAt && s.status !in {PendingConsent, Declined})
  }

  ghost predicate AllConsented(subs: Store) {
    forall i | 0 <= i < |subs| :: Consented(subs[i])
  }

  /** A company moves on a submission without a consent. */
  predicate Unconsented(s: State, e: Event)
    requires Enabled(s, e)
  {
    e.Write? && (var r := s.granted[e.m].request;
      r.Move? && r.to in {Interviewing, Offer, Placed} && s.subs[r.id].consentedAt == None)
  }

  /**
   What a granted request has going for it: a move of the table, an approval before the request for consent ran
   out.
   */
  predicate InGoodTime(g: Granted, subs: Store) {
    (g.request.Move? ==> g.request.to !in {PendingConsent, Declined, Submitted})
    && (g.request.Approve? ==> g.request.id < |subs| && g.request.now < subs[g.request.id].consentExpiresAt)
  }

  ghost predicate AllInGoodTime(s: State) {
    forall g | g in s.granted :: InGoodTime(g, s.subs)
  }

  lemma WrittenConsent(subs: Store, r: Request)
    requires Writable(subs, r) && AllConsented(subs) && InGoodTime(Granted(r, false), subs)
    ensures Consented(Written(subs, r)[Target(subs, r)])
      <==> !(r.Move? && r.to in {Interviewing, Offer, Placed} && subs[r.id].consentedAt == None)
  {
    if !r.Create? { assert Consented(subs[r.id]); }
  }

  lemma ConsentStep(s: State, e: Event)
    requires AllConsented(s.subs) && AllInGoodTime(s) && Enabled(s, e)
    ensures AllConsented(Next(s, e).subs) <==> !Unconsented(s, e)
  {
    hide Written, Reply, Consented, InGoodTime;
    if e.Write? {
      var r := s.granted[e.m].request;
      assert s.granted[e.m] in s.granted;
      SameEitherWay(s.granted[e.m], s.subs);
      WrittenConsent(s.subs, r);
      OneRowWritten(s.subs, r);
    }
  }

  lemma SameEitherWay(g: Granted, subs: Store)
    ensures InGoodTime(g, subs) == InGoodTime(Granted(g.request, false), subs)
      == InGoodTime(Granted(g.request, true), subs)
  {}

  lemma GoodTimeStays(s: State, e: Event)
    requires AllInGoodTime(s) && Enabled(s, e)
    ensures AllInGoodTime(Next(s, e))
  {
    hide Reply, Written, InGoodTime;
    var t := Next(s, e);
    forall g | g in t.granted ensures InGoodTime(g, t.subs) {
      if e.LookUp? && g !in s.granted {
        GrantedInTime(s.subs, e.request);
      } else {
        if e.Write? { SameEitherWay(s.granted[e.m], s.subs); SameDeadlines(s, e); }
        if g !in s.granted { assert s.granted[e.m] in s.granted; }
        TimeStays(g, s.subs, t.subs);
      }
    }
  }

  lemma GrantedInTime(subs: Store, r: Request)
    requires Reply(subs, r) == Ok
    ensures InGoodTime(Granted(r, false), subs)
  {}

  lemma SameDeadlines(s: State, e: Event)
    requires Enabled(s, e)
    ensures var now := Next(s, e).subs;
      |s.subs| <= |now| && forall i | 0 <= i < |s.subs| :: now[i].consentExpiresAt == s.subs[i].consentExpiresAt
  {}

  lemma TimeStays(g: Granted, was: Store, now: Store)
    requires |was| <= |now| && forall i | 0 <= i < |was| :: now[i].consentExpiresAt == was[i].consentExpiresAt
    ensures InGoodTime(g, was) ==> InGoodTime(g, now)
  {}

  ghost predicate AlwaysConsented(s: State, es: seq<Event>)
    requires Runs(s, es)
    decreases |es|
  {
    es == [] || (AllConsented(Next(s, es[0]).subs) && AlwaysConsented(Next(s, es[0]), es[1..]))
  }

  predicate NeverUnconsented(s: State, es: seq<Event>)
    requires Runs(s, es)
    decreases |es|
  {
    es == [] || (!Unconsented(s, es[0]) && NeverUnconsented(Next(s, es[0]), es[1..]))
  }

  /**
   Whoever is put forward has consented in time, at all times, exactly if no company moves on a submission
   without a consent.
   */
  lemma {:induction false} AlwaysConsentedIff(s: State, es: seq<Event>)
    requires AllConsented(s.subs) && AllInGoodTime(s) && Runs(s, es)
    ensures AlwaysConsented(s, es) <==> NeverUnconsented(s, es)
    decreases |es|
  {
    hide AllConsented, AllInGoodTime, Unconsented, Next, Enabled;
    if es != [] {
      ConsentStep(s, es[0]);
      GoodTimeStays(s, es[0]);
      if !Unconsented(s, es[0]) { AlwaysConsentedIff(Next(s, es[0]), es[1..]); }
    }
  }

  /** Without late writes there is always consent; requests that do not overlap are never late. */
  lemma {:induction false} TimelyRunsAreConsented(s: State, es: seq<Event>)
    requires Known(s) && AllConsented(s.subs) && AllInGoodTime(s) && Runs(s, es) && NeverLate(s, es)
    ensures AlwaysConsented(s, es)
    decreases |es|
  {
    hide Known, AllConsented, AllInGoodTime, Unconsented, Late, Next, Enabled;
    if es != [] {
      TimelyIsConsented(s, es[0]);
      ConsentStep(s, es[0]);
      GoodTimeStays(s, es[0]);
      KnownStays(s, es[0]);
      TimelyRunsAreConsented(Next(s, es[0]), es[1..]);
    }
  }

  lemma TimelyIsConsented(s: State, e: Event)
    requires AllConsented(s.subs) && Enabled(s, e) && !Late(s, e)
    ensures !Unconsented(s, e)
  {
    if e.Write? && s.granted[e.m].request.Move? { assert Consented(s.subs[s.granted[e.m].request.id]); }
  }

  lemma AtOnceIsTimely(s: State, r: Request)
    requires Reply(s.subs, r) == Ok
    ensures !Late(Next(s, LookUp(r)), Write(|s.granted|, r.now))
  {}

  // ---------- three runs ----------

  lemma EmptyRun(s: State)
    ensures Runs(s, []) && End(s, []) == s
  {}

  lemma Prepend(s: State, e: Event, es: seq<Event>)
    requires Enabled(s, e) && Runs(Next(s, e), es)
    ensures Runs(s, [e] + es) && End(s, [e] + es) == End(Next(s, e), es)
  {
    hide Enabled, Next;
    assert ([e] + es)[1..] == es;
  }

  /** Two requests looked up on the same store, then written one after the other. */
  lemma Overlap(subs: Store, first: Request, second: Request) returns (es: seq<Event>)
    requires Reply(subs, first) == Ok && Reply(subs, second) == Ok && !first.Create? && !second.Create?
    ensures es == [LookUp(first), LookUp(second), Write(0, first.now), Write(1, second.now)]
    ensures Runs(State(subs, []), es)
    ensures Writable(subs, first) && Writable(Written(subs, first), second)
    ensures End(State(subs, []), es).subs == Written(Written(subs, first), second)
  {
    hide Runs, End, Reply, Written;
    var r1, r2, w1, w2 := LookUp(first), LookUp(second), Write(0, first.now), Write(1, second.now);
    GrantedIsWritable(subs, first);
    GrantedIsWritable(subs, second);
    OneRowWritten(subs, first);
    var s0 := State(subs, []);
    var s1 := Next(s0, r1);
    var s2 := Next(s1, r2);
    var s3 := Next(s2, w1);
    assert s2.granted == [Granted(first, false), Granted(second, false)];
    EmptyRun(Next(s3, w2));
    Prepend(s3, w2, []);
    Prepend(s2, w1, [w2] + []);
    Prepend(s1, r2, [w1] + ([w2] + []));
    Prepend(s0, r1, [r2] + ([w1] + ([w2] + [])));
    es := [r1] + ([r2] + ([w1] + ([w2] + [])));
  }

  lemma GrantedIsWritable(subs: Store, r: Request)
    requires Reply(subs, r) == Ok
    ensures Writable(subs, r)
  {}

  /** Two approvals, both granted before either is written: two companies represent the candidate. */
  lemma OverlappingApprovals(key: ClientKey) returns (subs: Store, es: seq<Event>)
    ensures Exclusive(subs, 1) && Runs(State(subs, []), es) && !Exclusive(End(State(subs, []), es).subs, 1)
  {
    hide Runs, End;
    subs := [Pending(1, 7, Asker(1, key), 0), Pending(2, 7, Asker(2, key), 0)];
    var first, second := Approve(7, 0, [], 1), Approve(7, 1, [], 1);
    es := Overlap(subs, first, second);
    var after := Written(Written(subs, first), second);
    assert after[0].status == after[1].status == Submitted && Rivals(after[0], after[1]);
    assert Active(after[0], 1) && Active(after[1], 1);
  }

  /** The candidate withdraws while the company marks the submission as interviewing: it stays in play. */
  lemma WithdrawnIsInterviewing(key: ClientKey) returns (subs: Store, es: seq<Event>)
    ensures Runs(State(subs, []), es) && |subs| == 1 == |End(State(subs, []), es).subs|
    ensures es == [LookUp(Withdraw(7, 0, 2)), LookUp(Move(1, 0, Interviewing, 2)), Write(0, 2), Write(1, 2)]
    ensures Reply(subs, Withdraw(7, 0, 2)) == Ok && Written(subs, Withdraw(7, 0, 2))[0].status == Withdrawn
    ensures End(State(subs, []), es).subs[0].status == Interviewing
  {
    hide Runs, End;
    subs := [Approved(1, key, 0)];
    var first, second := Withdraw(7, 0, 2), Move(1, 0, Interviewing, 2);
    es := Overlap(subs, first, second);
    assert Written(Written(subs, first), second)[0].status == Interviewing;
  }

  function AskedOf(key: ClientKey): Submission {
    Pending(1, 7, Asker(1, key), 0)
  }

  const YES := Approve(7, 0, [], 1)
  const NO := Decline(7, 0, 1)
  const ON := Move(1, 0, Interviewing, 1)

  /** An approval has been written, a refusal is still to be written; the company moves on, then both are written. */
  lemma MovedOnMeanwhile(key: ClientKey) returns (s: State, es: seq<Event>)
    ensures s == State([AskedOf(key).(status := Submitted, consentedAt := Some(1), statusUpdatedAt := 1)],
      [Granted(YES, true), Granted(NO, false)])
    ensures es == [LookUp(ON), Write(1, 1), Write(2, 1)] && Runs(s, es)
    ensures End(s, es).subs == [AskedOf(key).(status := Interviewing, consentedAt := None, statusUpdatedAt := 1)]
  {
    hide Runs, End;
    var subs := [AskedOf(key).(status := Submitted, consentedAt := Some(1), statusUpdatedAt := 1)];
    s := State(subs, [Granted(YES, true), Granted(NO, false)]);
    var t := Next(s, LookUp(ON));
    assert t == State(subs, [Granted(YES, true), Granted(NO, false), Granted(ON, false)]);
    var u := Next(t, Write(1, 1));
    EmptyRun(Next(u, Write(2, 1)));
    Prepend(u, Write(2, 1), []);
    Prepend(t, Write(1, 1), [Write(2, 1)] + []);
    Prepend(s, LookUp(ON), [Write(1, 1)] + ([Write(2, 1)] + []));
    es := [LookUp(ON)] + ([Write(1, 1)] + ([Write(2, 1)] + []));
  }

  /**
   The candidate approves and declines, and the company moves on in between: it represents the candidate without
   a consent.
   */
  lemma InterviewingUnasked(key: ClientKey) returns (s: State, es: seq<Event>)
    ensures AllConsented(s.subs) && AllInGoodTime(s) && Runs(s, es) && !NeverUnconsented(s, es)
    ensures |End(s, es).subs| == 1
    ensures var left := End(s, es).subs[0]; left.status == Interviewing && left.consentedAt == None && Active(left, 1)
  {
    hide Runs, End, NeverUnconsented, AlwaysConsented;
    s := State([AskedOf(key)], []);
    var t := Next(s, LookUp(YES));
    assert t == State([AskedOf(key)], [Granted(YES, false)]);
    var u := Next(t, LookUp(NO));
    assert u == State([AskedOf(key)], [Granted(YES, false), Granted(NO, false)]);
    var v, rest := MovedOnMeanwhile(key);
    assert Next(u, Write(0, 1)) == v;
    Prepend(u, Write(0, 1), rest);
    Prepend(t, LookUp(NO), [Write(0, 1)] + rest);
    Prepend(s, LookUp(YES), [LookUp(NO)] + ([Write(0, 1)] + rest));
    es := [LookUp(YES)] + ([LookUp(NO)] + ([Write(0, 1)] + rest));
    assert !Consented(End(s, es).subs[0]);
    AlwaysConsentedIff(s, es);
    StillConsented(s, es);
  }

  lemma {:induction false} StillConsented(s: State, es: seq<Event>)
    requires AllConsented(s.subs) && Runs(s, es)
    ensures AlwaysConsented(s, es) ==> AllConsented(End(s, es).subs)
    decreases |es|
  {
    hide AllConsented, Next, Enabled;
    if es != [] && AllConsented(Next(s, es[0]).subs) { StillConsented(Next(s, es[0]), es[1..]); }
  }
}
