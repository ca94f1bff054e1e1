/**
 Staffing submissions: several staffing companies may each ask to put a candidate
 forward to a client, and the service promises that at any time only one of them
 represents the candidate there
 (apps/api/src/modules/staffing/staffing-submissions.service.ts and staffing-representation.util.ts).
 The service looks up and then writes, in two queries. `Service` and the histories take the two together, one
 request at a time; module StaffingOverlap lets requests overlap. `now` is the clock reading a request takes.
 */
module Staffing {
  import opened Wrappers

  datatype Status = PendingConsent | Declined | Submitted | Interviewing | Offer | Placed | NotSelected | Withdrawn

  /** How a client is recognised: by normalised name, or by web domain if it has one. */
  datatype ClientKey = ClientKey(nameKey: string, domain: Option<string>)

  datatype Client = Client(id: nat, org: nat, key: ClientKey, archived: bool)

  datatype Submission = Submission(org: nat, client: nat, candidate: nat, key: ClientKey, status: Status,
    consentExpiresAt: int, consentedAt: Option<int>, statusUpdatedAt: int)

  const HOUR := 60 * 60 * 1000
  const DAY := 24 * HOUR
  const REPRESENTATION := 30 * DAY
  const PLACEMENT_PROTECTION := 180 * DAY
  const CONSENT_TTL := 72 * HOUR

  predicate SameClient(a: ClientKey, b: ClientKey) {
    a.nameKey == b.nameKey || (a.domain.Some? && a.domain == b.domain)
  }

  /** A request for consent that has run out; the stored status does not change. */
  predicate Expired(s: Submission, now: int) {
    s.status == PendingConsent && s.consentExpiresAt <= now
  }

  predicate Active(s: Submission, now: int) {
    match s.status
    case Submitted => s.consentedAt.Some? && now - s.consentedAt.value < REPRESENTATION
    case Interviewing | Offer => true
    case Placed => now - s.statusUpdatedAt < PLACEMENT_PROTECTION
    case _ => false
  }

  predicate OrgCanMove(from: Status, to: Status) {
    match from
    case PendingConsent => to == Withdrawn
    case Submitted => to in {Interviewing, NotSelected, Withdrawn}
    case Interviewing => to in {Offer, NotSelected, Withdrawn}
    case Offer => to in {Placed, NotSelected, Withdrawn}
    case _ => false
  }

  predicate CandidateCanWithdraw(status: Status) {
    status in {Submitted, Interviewing, Offer}
  }

  // ---------- the requests ----------

  /** Submissions are never deleted; a submission's id is its position. */
  type Store = seq<Submission>

  /** `direct`: the employers in whose own hiring process the candidate already is. */
  datatype Request =
    | Create(org: nat, candidate: nat, client: Option<Client>, visible: bool, agreed: bool, direct: seq<ClientKey>,
      now: int)
    | Move(org: nat, id: nat, to: Status, now: int)
    | Approve(candidate: nat, id: nat, direct: seq<ClientKey>, now: int)
    | Decline(candidate: nat, id: nat, now: int)
    | Withdraw(candidate: nat, id: nat, now: int)

  datatype Answer = Ok | NotFound | Forbidden | Conflict

  /** Some other company represents this candidate to this client. */
  predicate HasRival(subs: Store, candidate: nat, key: ClientKey, org: nat, now: int) {
    exists i | 0 <= i < |subs| ::
      subs[i].candidate == candidate && subs[i].org != org && Active(subs[i], now) && SameClient(key, subs[i].key)
  }

  predicate HasConflict(subs: Store, candidate: nat, key: ClientKey, org: nat, now: int, direct: seq<ClientKey>) {
    HasRival(subs, candidate, key, org, now) || exists d | d in direct :: SameClient(key, d)
  }

  /** The company has asked already, or represents the candidate there already. */
  predicate AskedAlready(subs: Store, org: nat, candidate: nat, client: nat, now: int) {
    exists i | 0 <= i < |subs| :: subs[i].org == org && subs[i].candidate == candidate && subs[i].client == client
      && ((subs[i].status == PendingConsent && !Expired(subs[i], now)) || Active(subs[i], now))
  }

  function Reply(subs: Store, r: Request): Answer {
    match r
    case Create(org, candidate, client, visible, agreed, direct, now) =>
      if client.None? || client.value.org != org || client.value.archived || !visible then NotFound
      else if !agreed then Forbidden
      else if AskedAlready(subs, org, candidate, client.value.id, now)
           || HasConflict(subs, candidate, client.value.key, org, now, direct) then Conflict
      else Ok
    case Move(org, id, to, now) =>
      if id >= |subs| || subs[id].org != org then NotFound
      else if Expired(subs[id], now) || !OrgCanMove(subs[id].status, to) then Conflict
      else Ok
    case Approve(candidate, id, direct, now) =>
      if id >= |subs| || subs[id].candidate != candidate then NotFound
      else if Expired(subs[id], now) || subs[id].status != PendingConsent
           || HasConflict(subs, candidate, subs[id].key, subs[id].org, now, direct) then Conflict
      else Ok
    case Decline(candidate, id, now) =>
      if id >= |subs| || subs[id].candidate != candidate then NotFound
      else if Expired(subs[id], now) || subs[id].status != PendingConsent then Conflict
      else Ok
    case Withdraw(candidate, id, now) =>
      if id >= |subs| || subs[id].candidate != candidate then NotFound
      else if !CandidateCanWithdraw(subs[id].status) then Conflict
      else Ok
  }

  function Pending(org: nat, candidate: nat, client: Client, now: int): Submission {
    Submission(org, client.id, candidate, client.key, PendingConsent, now + CONSENT_TTL, None, now)
  }

  predicate Writable(subs: Store, r: Request) {
    if r.Create? then r.client.Some? else r.id < |subs|
  }

  /** What a request writes once it is granted. */
  function Written(subs: Store, r: Request): Store
    requires Writable(subs, r)
  {
    match r
    case Create(org, candidate, client, _, _, _, now) => subs + [Pending(org, candidate, client.value, now)]
    case Move(_, id, to, now) => subs[id := subs[id].(status := to, statusUpdatedAt := now)]
    case Approve(_, id, _, now) =>
      subs[id := subs[id].(status := Submitted, consentedAt := Some(now), statusUpdatedAt := now)]
    case Decline(_, id, now) => subs[id := subs[id].(status := Declined, consentedAt := None, statusUpdatedAt := now)]
    case Withdraw(_, id, now) => subs[id := subs[id].(status := Withdrawn, statusUpdatedAt := now)]
  }

  /** A request looked up and written with nothing in between. */
  function After(subs: Store, r: Request): Store {
    if Reply(subs, r) == Ok then Written(subs, r) else subs
  }

  class Service {
    var subs: Store

    method CreateSubmission(org: nat, candidate: nat, client: Option<Client>, visible: bool, agreed: bool,
      direct: seq<ClientKey>, now: int)
      returns (answer: Answer)
      modifies this
      ensures var r := Create(org, candidate, client, visible, agreed, direct, now);
        answer == Reply(old(subs), r) && subs == After(old(subs), r)
    {
      if client.None? || client.value.org != org || client.value.archived { return NotFound; }
      if !visible { return NotFound; }
      if !agreed { return Forbidden; }
      if AskedAlready(subs, org, candidate, client.value.id, now) { return Conflict; }
      var conflict := AssertNoConflict(candidate, client.value.key, org, now, direct);
      if conflict { return Conflict; }
      subs := subs + [Pending(org, candidate, client.value, now)];
      answer := Ok;
    }

    method UpdateStatus(org: nat, id: nat, to: Status, now: int) returns (answer: Answer)
      modifies this
      ensures answer == Reply(old(subs), Move(org, id, to, now)) && subs == After(old(subs), Move(org, id, to, now))
    {
      if id >= |subs| || subs[id].org != org { return NotFound; }
      if Expired(subs[id], now) || !OrgCanMove(subs[id].status, to) { return Conflict; }
      subs := subs[id := subs[id].(status := to, statusUpdatedAt := now)];
      answer := Ok;
    }

    method Decide(candidate: nat, id: nat, approve: bool, direct: seq<ClientKey>, now: int) returns (answer: Answer)
      modifies this
      ensures var r := if approve then Approve(candidate, id, direct, now) else Decline(candidate, id, now);
        answer == Reply(old(subs), r) && subs == After(old(subs), r)
    {
      if id >= |subs| || subs[id].candidate != candidate { return NotFound; }
      if Expired(subs[id], now) { return Conflict; }
      if subs[id].status != PendingConsent { return Conflict; }
      if approve {
        var conflict := AssertNoConflict(candidate, subs[id].key, subs[id].org, now, direct);
        if conflict { return Conflict; }
      }
      var next := if approve then Submitted else Declined;
      var consent := if approve then Some(now) else None;
      subs := subs[id := subs[id].(status := next, consentedAt := consent, statusUpdatedAt := now)];
      answer := Ok;
    }

    method CandidateWithdraw(candidate: nat, id: nat, now: int) returns (answer: Answer)
      modifies this
      ensures answer == Reply(old(subs), Withdraw(candidate, id, now))
        && subs == After(old(subs), Withdraw(candidate, id, now))
    {
      if id >= |subs| || subs[id].candidate != candidate { return NotFound; }
      if !CandidateCanWithdraw(subs[id].status) { return Conflict; }
      subs := subs[id := subs[id].(status := Withdrawn, statusUpdatedAt := now)];
      answer := Ok;
    }

    /** The rows are looked up by name key or by domain, then each is tried. */
    method AssertNoConflict(candidate: nat, key: ClientKey, org: nat, now: int, direct: seq<ClientKey>)
      returns (conflict: bool)
      ensures conflict == HasConflict(subs, candidate, key, org, now, direct)
    {
      for i := 0 to |subs|
        invariant forall j | 0 <= j < i ::
          !(subs[j].candidate == candidate && subs[j].org != org && Active(subs[j], now)
            && SameClient(key, subs[j].key))
      {
        var s := subs[i];
        if s.candidate == candidate && s.org != org && s.status in {Submitted, Interviewing, Offer, Placed}
           && (s.key.nameKey == key.nameKey || (key.domain.Some? && s.key.domain == key.domain)) && Active(s, now) {
          return true;
        }
      }
      return exists d | d in direct :: SameClient(key, d);
    }
  }

  // ---------- one company at a time ----------

  predicate Rivals(a: Submission, b: Submission) {
    a.candidate == b.candidate && a.org != b.org && SameClient(a.key, b.key)
  }

  /** No two companies represent the same candidate to the same client. */
  ghost predicate Exclusive(subs: Store, now: int) {
    forall i, j | 0 <= i < |subs| && 0 <= j < |subs| && Active(subs[i], now) && Active(subs[j], now) ::
      !Rivals(subs[i], subs[j])
  }

  /** Waiting can end a representation but not start one, and a request for consent that has run out stays so. */
  lemma TimeOnlyEnds(s: Submission, t: int, now: int)
    requires t <= now
    ensures Active(s, now) ==> Active(s, t)
    ensures Expired(s, t) ==> Expired(s, now)
  {}

  lemma TimeKeepsExclusive(subs: Store, t: int, now: int)
    requires t <= now && Exclusive(subs, t)
    ensures Exclusive(subs, now)
  {}

  /**
   The hole: a company marks as interviewing a submission whose 30 days have run out
   (nothing is re-checked then), while another company has come to represent the candidate there.
   */
  predicate Revives(subs: Store, r: Request) {
    r.Move? && r.to == Interviewing && Reply(subs, r) == Ok && !Active(subs[r.id], r.now)
    && HasRival(subs, subs[r.id].candidate, subs[r.id].key, subs[r.id].org, r.now)
  }

  /** The row a granted request writes; every other row stays as it is. */
  function Target(subs: Store, r: Request): nat {
    if r.Create? then |subs| else r.id
  }

  lemma OneRowWritten(subs: Store, r: Request)
    requires Writable(subs, r)
    ensures var after, t := Written(subs, r), Target(subs, r);
      t < |after| && |subs| <= |after| && (forall i | 0 <= i < |after| && i != t :: i < |subs| && after[i] == subs[i])
      && (t < |subs| ==> after[t].org == subs[t].org)
  {}

  /** The row as written, at time `at`, represents the candidate where another company does. */
  predicate MeetsRival(subs: Store, r: Request, at: int)
    requires Writable(subs, r)
  {
    OneRowWritten(subs, r);
    var s := Written(subs, r)[Target(subs, r)];
    Active(s, at) && HasRival(subs, s.candidate, s.key, s.org, at)
  }

  /** A write, whatever it was granted on, keeps representation exclusive exactly unless it meets a rival. */
  lemma WriteExclusiveIff(subs: Store, r: Request, at: int)
    requires Writable(subs, r) && Exclusive(subs, at)
    ensures Exclusive(Written(subs, r), at) <==> !MeetsRival(subs, r, at)
  {
    hide Written, Active, SameClient;
    OneRowWritten(subs, r);
    var after, t := Written(subs, r), Target(subs, r);
    if MeetsRival(subs, r, at) {
      var i :| 0 <= i < |subs| && subs[i].candidate == after[t].candidate && subs[i].org != after[t].org
        && Active(subs[i], at) && SameClient(after[t].key, subs[i].key);
      assert after[i] == subs[i] && Rivals(after[t], after[i]);
    } else {
      forall i, j | 0 <= i < |after| && 0 <= j < |after| && Active(after[i], at) && Active(after[j], at)
        ensures !Rivals(after[i], after[j])
      {
        SameClientIsMutual(after[i].key, after[j].key);
        if i != t && j != t { assert !Rivals(subs[i], subs[j]); }
      }
    }
  }

  /**
   Looked up and written at once, a granted request meets a rival only by reviving: consent is
   looked up when it is given, and later moves start from a running representation.
   */
  lemma MeetsRivalIff(subs: Store, r: Request)
    requires Exclusive(subs, r.now) && Reply(subs, r) == Ok
    ensures MeetsRival(subs, r, r.now) <==> Revives(subs, r)
  {}

  lemma SameClientIsMutual(a: ClientKey, b: ClientKey)
    ensures SameClient(a, b) <==> SameClient(b, a)
  {}

  /** Every request but that one keeps representation exclusive, and that one never does. */
  lemma ExclusiveIff(subs: Store, r: Request)
    requires Exclusive(subs, r.now)
    ensures Exclusive(After(subs, r), r.now) <==> !Revives(subs, r)
  {
    hide Written, MeetsRival, Exclusive;
    if Reply(subs, r) == Ok {
      WriteExclusiveIff(subs, r, r.now);
      MeetsRivalIff(subs, r);
    }
  }

  /**
   What a granted request is good for, as long as nothing else happens: 72 hours to decide, 30 days of
   representation from the approval, no end while interviewing or on offer, 180 days from the placement.
   */
  lemma GrantedLasts(subs: Store, r: Request, later: int)
    requires Reply(subs, r) == Ok && r.now <= later
    ensures var s := After(subs, r)[Target(subs, r)];
      && (r.Create? ==> !Active(s, later) && (Expired(s, later) <==> later - r.now >= 259_200_000))
      && (r.Approve? ==> (Active(s, later) <==> later - r.now < 2_592_000_000))
      && (r.Move? && (r.to == Interviewing || r.to == Offer) ==> Active(s, later))
      && (r.Move? && r.to == Placed ==> (Active(s, later) <==> later - r.now < 15_552_000_000))
      && (r.Decline? || r.Withdraw? || (r.Move? && (r.to == NotSelected || r.to == Withdrawn))
        ==> !Active(s, later) && !Expired(s, later))
  {}

  // ---------- who may ask for what ----------

  /** To the millisecond: 30 days from the consent, 180 days from the placement. */
  lemma ActiveIff(s: Submission, now: int)
    ensures Active(s, now) <==>
      || s.status in {Interviewing, Offer}
      || (s.status == Submitted && s.consentedAt.Some? && now < s.consentedAt.value + 2_592_000_000)
      || (s.status == Placed && now < s.statusUpdatedAt + 15_552_000_000)
  {}

  /**
   A conflict: another company represents the candidate at the client, of the same name or domain, or an
   employer is that client.
   */
  lemma ConflictIff(subs: Store, candidate: nat, key: ClientKey, org: nat, now: int, direct: seq<ClientKey>)
    ensures HasConflict(subs, candidate, key, org, now, direct) <==>
      || (exists s | s in subs :: s.candidate == candidate && s.org != org && Active(s, now)
           && (s.key.nameKey == key.nameKey || (s.key.domain.Some? && s.key.domain == key.domain)))
      || (exists d | d in direct :: d.nameKey == key.nameKey || (d.domain.Some? && d.domain == key.domain))
  {
    hide Active;
    forall i | 0 <= i < |subs| ensures subs[i] in subs {}
    forall s | s in subs ensures exists i :: 0 <= i < |subs| && subs[i] == s {}
    forall i | 0 <= i < |subs|
      ensures SameClient(key, subs[i].key)
        <==> subs[i].key.nameKey == key.nameKey || (subs[i].key.domain.Some? && subs[i].key.domain == key.domain)
    {}
    if HasRival(subs, candidate, key, org, now) {
      var i :| 0 <= i < |subs| && subs[i].candidate == candidate && subs[i].org != org && Active(subs[i], now)
        && SameClient(key, subs[i].key);
      assert subs[i] in subs;
    }
  }

  /** The submission is the one who asks to decide about: the company's, or the candidate's own. */
  predicate Own(subs: Store, r: Request) {
    match r
    case Create(org, _, client, _, _, _, _) => client.Some? && client.value.org == org
    case Move(org, id, _, _) => id < |subs| && subs[id].org == org
    case Approve(candidate, id, _, _) => id < |subs| && subs[id].candidate == candidate
    case Decline(candidate, id, _) => id < |subs| && subs[id].candidate == candidate
    case Withdraw(candidate, id, _) => id < |subs| && subs[id].candidate == candidate
  }

  /**
   Whoever asks about what is not theirs is told that it does not exist - as for an archived client or a
   candidate who is not to be seen; a candidate who has not said to be available may not be submitted.
   */
  lemma RefusedBecause(subs: Store, r: Request)
    ensures Reply(subs, r) == NotFound <==> !Own(subs, r) || (r.Create? && (r.client.value.archived || !r.visible))
    ensures Reply(subs, r) == Forbidden
      <==> r.Create? && Own(subs, r) && !r.client.value.archived && r.visible && !r.agreed
    ensures Reply(subs, r) != Ok ==> After(subs, r) == subs
  {}

  /**
   What is granted is one's own, in a state that allows it, in time and without a conflict where that is looked
   up.
   */
  lemma GrantedIff(subs: Store, r: Request)
    requires Own(subs, r)
    ensures Reply(subs, r) == Ok <==> match r
      case Create(org, candidate, client, visible, agreed, direct, now) =>
        && !client.value.archived && visible && agreed
        && !HasConflict(subs, candidate, client.value.key, org, now, direct)
        && forall s | s in subs && s.org == org && s.candidate == candidate && s.client == client.value.id ::
             !Active(s, now) && (s.status == PendingConsent ==> s.consentExpiresAt <= now)
      case Move(_, id, to, now) =>
        (subs[id].status == PendingConsent && now < subs[id].consentExpiresAt && to == Withdrawn)
        || (subs[id].status in {Submitted, Interviewing, Offer} && to in {NotSelected, Withdrawn})
        || (subs[id].status, to) in {(Submitted, Interviewing), (Interviewing, Offer), (Offer, Placed)}
      case Approve(candidate, id, direct, now) =>
        && subs[id].status == PendingConsent && now < subs[id].consentExpiresAt
        && !HasConflict(subs, candidate, subs[id].key, subs[id].org, now, direct)
      case Decline(_, id, now) => subs[id].status == PendingConsent && now < subs[id].consentExpiresAt
      case Withdraw(_, id, now) => subs[id].status in {Submitted, Interviewing, Offer}
  {
    hide Active, HasConflict;
    if r.Create? {
      forall s | s in subs ensures exists i :: 0 <= i < |subs| && subs[i] == s {}
    }
  }

  /**
   A granted request appends one submission, or changes one - never whose it is, for which client or until when
   to decide.
   */
  lemma GrantedChangesOne(subs: Store, r: Request)
    requires Reply(subs, r) == Ok
    ensures var after := After(subs, r);
      && (r.Create? ==> after == subs + [Submission(r.org, r.client.value.id, r.candidate, r.client.value.key,
            PendingConsent, r.now + 259_200_000, None, r.now)])
      && (!r.Create? ==> |after| == |subs| && Own(subs, r) && after[r.id].statusUpdatedAt == r.now)
      && forall i | 0 <= i < |subs| ::
           && (r.Create? || i != r.id ==> after[i] == subs[i])
           && SameMatter(subs[i], after[i])
  {}

  /** The same company, client and candidate, and the same time to decide. */
  predicate SameMatter(a: Submission, b: Submission) {
    && a.org == b.org && a.client == b.client && a.candidate == b.candidate && a.key == b.key
    && a.consentExpiresAt == b.consentExpiresAt
  }

  // ---------- histories of requests that do not overlap ----------

  function History(subs: Store, rs: seq<Request>): Store
    decreases |rs|
  {
    if rs == [] then subs else History(After(subs, rs[0]), rs[1..])
  }

  predicate InOrder(t: int, rs: seq<Request>)
    decreases |rs|
  {
    rs == [] || (t <= rs[0].now && InOrder(rs[0].now, rs[1..]))
  }

  ghost predicate AlwaysExclusive(subs: Store, rs: seq<Request>)
    decreases |rs|
  {
    rs == [] || (Exclusive(After(subs, rs[0]), rs[0].now) && AlwaysExclusive(After(subs, rs[0]), rs[1..]))
  }

  predicate NeverRevives(subs: Store, rs: seq<Request>)
    decreases |rs|
  {
    rs == [] || (!Revives(subs, rs[0]) && NeverRevives(After(subs, rs[0]), rs[1..]))
  }

  /** Representation is exclusive after every request exactly if no request revives a lapsed one. */
  lemma {:induction false} SerialExclusiveIff(subs: Store, t: int, rs: seq<Request>)
    requires Exclusive(subs, t) && InOrder(t, rs)
    ensures AlwaysExclusive(subs, rs) <==> NeverRevives(subs, rs)
    decreases |rs|
  {
    hide Exclusive, Revives, After;
    if rs != [] {
      TimeKeepsExclusive(subs, t, rs[0].now);
      ExclusiveIff(subs, rs[0]);
      if !Revives(subs, rs[0]) { SerialExclusiveIff(After(subs, rs[0]), rs[0].now, rs[1..]); }
    }
  }

  lemma Prepend(subs: Store, t: int, r: Request, rs: seq<Request>)
    requires t <= r.now && InOrder(r.now, rs)
    ensures InOrder(t, [r] + rs)
    ensures NeverRevives(subs, [r] + rs) <==> !Revives(subs, r) && NeverRevives(After(subs, r), rs)
  {
    hide After, Revives;
    assert ([r] + rs)[1..] == rs;
  }

  lemma NothingAhead(subs: Store, t: int)
    ensures InOrder(t, []) && NeverRevives(subs, [])
  {}

  function Asker(org: nat, key: ClientKey): Client {
    Client(org, org, key, false)
  }

  /** A submission asked for at `asked` and approved a millisecond later. */
  function Approved(org: nat, key: ClientKey, asked: int): Submission {
    Pending(org, 7, Asker(org, key), asked).(status := Submitted, consentedAt := Some(asked + 1),
      statusUpdatedAt := asked + 1)
  }

  lemma AskAndApprove(subs: Store, org: nat, key: ClientKey, asked: int)
    requires forall s | s in subs :: s.org != org && !Active(s, asked) && !Active(s, asked + 1)
    ensures var asking := Create(org, 7, Some(Asker(org, key)), true, true, [], asked);
      After(subs, asking) == subs + [Pending(org, 7, Asker(org, key), asked)]
    ensures After(subs + [Pending(org, 7, Asker(org, key), asked)], Approve(7, |subs|, [], asked + 1))
      == subs + [Approved(org, key, asked)]
  {
    hide Active, SameClient;
    Unapproved(org, key, asked);
    var now := subs + [Pending(org, 7, Asker(org, key), asked)];
    assert Written(now, Approve(7, |subs|, [], asked + 1)) == subs + [Approved(org, key, asked)];
  }

  lemma Unapproved(org: nat, key: ClientKey, asked: int)
    ensures var s := Pending(org, 7, Asker(org, key), asked); !Active(s, asked + 1) && !Expired(s, asked + 1)
  {}

  /**
   And such a history exists: company 1 is approved, lets its 30 days pass, company 2 is
   approved, company 1 marks its own submission as interviewing.
   */
  lemma RevivalHappens(key: ClientKey) returns (rs: seq<Request>)
    ensures InOrder(0, rs) && !AlwaysExclusive([], rs)
  {
    hide Active, After, Revives, AlwaysExclusive, NeverRevives, InOrder, Approved, Pending, Exclusive;
    var late := REPRESENTATION + 1;
    var r1 := Create(1, 7, Some(Asker(1, key)), true, true, [], 0);
    var r2 := Approve(7, 0, [], 1);
    var r3 := Create(2, 7, Some(Asker(2, key)), true, true, [], late);
    var r4 := Approve(7, 1, [], late + 1);
    var r5 := Move(1, 0, Interviewing, late + 2);
    AskAndApprove([], 1, key, 0);
    Lapsed(key);
    AskAndApprove([Approved(1, key, 0)], 2, key, late);
    assert [] + [Pending(1, 7, Asker(1, key), 0)] == [Pending(1, 7, Asker(1, key), 0)];
    assert [] + [Approved(1, key, 0)] == [Approved(1, key, 0)];
    assert [Approved(1, key, 0)] + [Approved(2, key, late)] == [Approved(1, key, 0), Approved(2, key, late)];
    var s1, s2 := [Pending(1, 7, Asker(1, key), 0)], [Approved(1, key, 0)];
    var s3, s4 := s2 + [Pending(2, 7, Asker(2, key), late)], [Approved(1, key, 0), Approved(2, key, late)];
    NothingAhead(After(s4, r5), late + 2);
    Prepend(s4, late + 1, r5, []);
    Prepend(s3, late, r4, [r5] + []);
    Prepend(s2, 1, r3, [r4] + ([r5] + []));
    Prepend(s1, 0, r2, [r3] + ([r4] + ([r5] + [])));
    Prepend([], 0, r1, [r2] + ([r3] + ([r4] + ([r5] + []))));
    rs := [r1] + ([r2] + ([r3] + ([r4] + ([r5] + []))));
    NobodyYet(0);
    SerialExclusiveIff([], 0, rs);
  }

  lemma NobodyYet(t: int)
    ensures Exclusive([], t)
  {}

  lemma Lapsed(key: ClientKey)
    ensures var late, s1, s2 := REPRESENTATION + 1, Approved(1, key, 0), Approved(2, key, REPRESENTATION + 1);
      && s1.org == 1 && !Active(s1, late) && !Active(s1, late + 1)
      && Revives([s1, s2], Move(1, 0, Interviewing, late + 2))
  {
    var late, s1, s2 := REPRESENTATION + 1, Approved(1, key, 0), Approved(2, key, REPRESENTATION + 1);
    var subs := [s1, s2];
    assert Active(subs[1], late + 2) && SameClient(s1.key, s2.key);
  }

  // ---------- the two pages that offer the moves ----------

  /** The status a page is told: none stands for "approval expired". */
  function Shown(s: Submission, now: int): Option<Status> {
    if Expired(s, now) then None else Some(s.status)
  }

  /** SUBMISSION_NEXT: the buttons of the staffing company's page. */
  function NextButtons(shown: Option<Status>): set<Status> {
    match shown
    case Some(PendingConsent) => {Withdrawn}
    case Some(Submitted) => {Interviewing, NotSelected, Withdrawn}
    case Some(Interviewing) => {Offer, NotSelected, Withdrawn}
    case Some(Offer) => {Placed, NotSelected, Withdrawn}
    case _ => {}
  }

  datatype Action = Approving | Declining | Withdrawing

  predicate InboxButton(shown: Option<Status>, a: Action) {
    match a
    case Withdrawing => shown in {Some(Submitted), Some(Interviewing), Some(Offer)}
    case _ => shown == Some(PendingConsent)
  }

  function RequestOf(candidate: nat, id: nat, a: Action, direct: seq<ClientKey>, now: int): Request {
    match a
    case Approving => Approve(candidate, id, direct, now)
    case Declining => Decline(candidate, id, now)
    case Withdrawing => Withdraw(candidate, id, now)
  }

  /**
   On an up-to-date page the buttons are exactly the moves the server grants - but for an approval that meets a
   conflict.
   */
  lemma ButtonsMatchServer(subs: Store, i: nat, to: Status, a: Action, direct: seq<ClientKey>, now: int)
    requires i < |subs|
    ensures to in NextButtons(Shown(subs[i], now)) <==> Reply(subs, Move(subs[i].org, i, to, now)) == Ok
    ensures InboxButton(Shown(subs[i], now), a) <==>
      (var reply := Reply(subs, RequestOf(subs[i].candidate, i, a, direct, now));
       reply == Ok || (a == Approving && Shown(subs[i], now) == Some(PendingConsent)
                       && HasConflict(subs, subs[i].candidate, subs[i].key, subs[i].org, now, direct)))
  {}

  /** What a button of the inbox comes to, once it is granted. */
  lemma ButtonsDo(subs: Store, i: nat, a: Action, direct: seq<ClientKey>, now: int)
    requires i < |subs| && Reply(subs, RequestOf(subs[i].candidate, i, a, direct, now)) == Ok
    ensures After(subs, RequestOf(subs[i].candidate, i, a, direct, now)) == subs[i := match a
      case Approving => subs[i].(status := Submitted, consentedAt := Some(now), statusUpdatedAt := now)
      case Declining => subs[i].(status := Declined, consentedAt := None, statusUpdatedAt := now)
      case Withdrawing => subs[i].(status := Withdrawn, statusUpdatedAt := now)]
  {}

  datatype Row = Row(id: nat, shown: Option<Status>)

  const LISTED := 100

  /** The candidate's rows among the first `n`, the newest first. */
  function NewestFirst(subs: Store, candidate: nat, now: int, n: nat): seq<Row>
    requires n <= |subs|
  {
    if n == 0 then []
    else if subs[n - 1].candidate != candidate then NewestFirst(subs, candidate, now, n - 1)
    else [Row(n - 1, Shown(subs[n - 1], now))] + NewestFirst(subs, candidate, now, n - 1)
  }

  /** What the server sends: no more than the newest hundred. */
  function Mine(subs: Store, candidate: nat, now: int): seq<Row> {
    var rows := NewestFirst(subs, candidate, now, |subs|);
    if |rows| <= LISTED then rows else rows[..LISTED]
  }

  /** The candidate's row of position `r.id`, before `n`. */
  predicate IsMine(subs: Store, candidate: nat, now: int, n: nat, r: Row) {
    r.id < n <= |subs| && subs[r.id].candidate == candidate && r.shown == Shown(subs[r.id], now)
  }

  lemma {:induction false} NewestFirstAre(subs: Store, candidate: nat, now: int, n: nat)
    requires n <= |subs|
    ensures forall r :: r in NewestFirst(subs, candidate, now, n) <==> IsMine(subs, candidate, now, n, r)
  {
    if n > 0 {
      NewestFirstAre(subs, candidate, now, n - 1);
      var older, head := NewestFirst(subs, candidate, now, n - 1), Row(n - 1, Shown(subs[n - 1], now));
      var rows := if subs[n - 1].candidate == candidate then [head] + older else older;
      assert NewestFirst(subs, candidate, now, n) == rows;
      forall r ensures r in rows <==> IsMine(subs, candidate, now, n, r) {
        assert r == Row(r.id, r.shown);
        assert r in rows <==> r in older || (r == head && subs[n - 1].candidate == candidate);
        assert IsMine(subs, candidate, now, n, r)
          <==> IsMine(subs, candidate, now, n - 1, r) || (r == head && subs[n - 1].candidate == candidate);
      }
    }
  }

  predicate Falls(rows: seq<Row>) {
    forall j, k | 0 <= j < k < |rows| :: rows[k].id < rows[j].id
  }

  lemma {:induction false} NewestComeFirst(subs: Store, candidate: nat, now: int, n: nat)
    requires n <= |subs|
    ensures Falls(NewestFirst(subs, candidate, now, n))
  {
    if n > 0 {
      NewestComeFirst(subs, candidate, now, n - 1);
      NewestFirstAre(subs, candidate, now, n - 1);
      var older := NewestFirst(subs, candidate, now, n - 1);
      assert forall k | 0 <= k < |older| :: older[k] in older && IsMine(subs, candidate, now, n - 1, older[k]);
      var rows := if subs[n - 1].candidate == candidate then [Row(n - 1, Shown(subs[n - 1], now))] + older else older;
      assert NewestFirst(subs, candidate, now, n) == rows;
      assert rows == older || rows[1..] == older;
      forall j, k | 0 <= j < k < |rows| ensures rows[k].id < rows[j].id {
        if rows != older { assert rows[k] == older[k - 1] && (j > 0 ==> rows[j] == older[j - 1]); }
      }
    }
  }

  /** The page shows the candidate's own submissions as they are; one it leaves out is older than a hundred others. */
  lemma MineAreNewest(subs: Store, candidate: nat, now: int, i: nat)
    requires i < |subs| && subs[i].candidate == candidate
    ensures var rows := Mine(subs, candidate, now);
      && (forall r | r in rows :: IsMine(subs, candidate, now, |subs|, r))
      && Falls(rows)
      && (Row(i, Shown(subs[i], now)) in rows || (|rows| == LISTED && forall r | r in rows :: i < r.id))
  {
    NewestFirstAre(subs, candidate, now, |subs|);
    NewestComeFirst(subs, candidate, now, |subs|);
    var rows, page, row := NewestFirst(subs, candidate, now, |subs|), Mine(subs, candidate, now),
      Row(i, Shown(subs[i], now));
    assert IsMine(subs, candidate, now, |subs|, row);
    var k :| 0 <= k < |rows| && rows[k] == row;
    assert forall j | 0 <= j < |page| ::
      page[j] == rows[j] && rows[j] in rows && IsMine(subs, candidate, now, |subs|, rows[j]);
    if k < |page| { assert page[k] in page; }
  }

  class Inbox {
    const candidate: nat
    /** None before the first answer. */
    var items: Option<seq<Row>>

    constructor (candidate: nat)
      ensures this.candidate == candidate && items == None
    {
      this.candidate, items := candidate, None;
    }

    /** A load that fails empties the list. */
    method Load(service: Service, loads: bool, now: int)
      modifies this
      ensures items == Some(if loads then Mine(service.subs, candidate, now) else [])
    {
      items := Some(if loads then Mine(service.subs, candidate, now) else []);
    }

    /** Post the move; reload if it was granted, keep the page as it is if not. */
    method Act(service: Service, id: nat, a: Action, direct: seq<ClientKey>, now: int, loads: bool, later: int)
      returns (answer: Answer)
      modifies this, service
      ensures answer == Reply(old(service.subs), RequestOf(candidate, id, a, direct, now))
      ensures service.subs == After(old(service.subs), RequestOf(candidate, id, a, direct, now))
      ensures answer != Ok ==> items == old(items)
      ensures answer == Ok ==> items == Some(if loads then Mine(service.subs, candidate, later) else [])
    {
      if a == Withdrawing {
        answer := service.CandidateWithdraw(candidate, id, now);
      } else {
        answer := service.Decide(candidate, id, a == Approving, direct, now);
      }
      if answer == Ok { Load(service, loads, later); }
    }
  }
}
