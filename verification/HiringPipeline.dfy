/**
 The two-party hiring pipeline: an employer's shortlist page, a candidate's
 interviews page, and the server between them
 (apps/web/components/EmployerShortlist.tsx, apps/web/components/CandidateInterviews.tsx,
 apps/api/src/modules/shortlist, apps/api/src/modules/interviews).

 The pages act on cached copies. The server answers a move in two separate
 steps: it reads the entry and checks the move, later it writes, whatever the
 entry has become in between. Requests, checks, writes, replies and reloads of
 any number of requests interleave freely here.
 */
module HiringPipeline {
  import opened Wrappers

  datatype Stage = Shortlisted | Invited | Interviewing | Offer | Hired | Declined | Rejected | Closed

  datatype Response = OfferAccepted | OfferDeclined | Negotiating

  datatype Action = Invite | AcceptInvite | DeclineInvite | ExtendOffer | MarkHired | MarkClosed | Reject
    | RespondOffer(response: Response)

  datatype Entry = Entry(stage: Stage, response: Option<Response>)

  // ---------- the server's table ----------

  predicate Allowed(stage: Stage, a: Action) {
    match a
    case Invite => stage == Shortlisted
    case AcceptInvite => stage == Invited
    case DeclineInvite => stage == Invited
    case ExtendOffer => stage == Interviewing
    case MarkHired => stage == Offer
    case MarkClosed => stage == Offer
    case Reject => stage in {Shortlisted, Invited, Interviewing, Offer}
    case RespondOffer(_) => stage == Offer
  }

  function Written(e: Entry, a: Action): Entry {
    match a
    case Invite => e.(stage := Invited)
    case AcceptInvite => e.(stage := Interviewing)
    case DeclineInvite => e.(stage := Declined)
    case ExtendOffer => e.(stage := Offer)
    case MarkHired => e.(stage := Hired)
    case MarkClosed => e.(stage := Closed)
    case Reject => e.(stage := Rejected)
    case RespondOffer(r) => e.(response := Some(r))
  }

  // ---------- the pages ----------

  datatype Party = Employer | Candidate

  /** The buttons a page renders for an entry. */
  predicate Button(p: Party, e: Entry, a: Action) {
    match p
    case Employer =>
      (a == Invite && e.stage == Shortlisted)
      || (a == ExtendOffer && e.stage == Interviewing)
      || ((a == MarkHired || a == MarkClosed) && e.stage == Offer)
      || (a == Reject && e.stage in {Shortlisted, Invited, Interviewing, Offer})
    case Candidate =>
      ((a == AcceptInvite || a == DeclineInvite) && e.stage == Invited)
      || (a.RespondOffer? && e.stage == Offer && e.response == None)
  }

  predicate Mover(p: Party, a: Action) {
    (p == Candidate) == (a.AcceptInvite? || a.DeclineInvite? || a.RespondOffer?)
  }

  /**
   A button is a move the server would grant if the page were up to date; the only grantable move without a
   button is to answer an offer again.
   */
  lemma ButtonsMatchServer(p: Party, e: Entry, a: Action)
    ensures Button(p, e, a) <==> Mover(p, a) && Allowed(e.stage, a) && (a.RespondOffer? ==> e.response == None)
  {}

  type Board = map<nat, Entry>

  /** What a page makes of a granted move: replaceEntry, replace. */
  function Patched(view: Board, id: nat, a: Action): Board {
    if id in view then view[id := Written(view[id], a)] else view
  }

  /** A page may ask for some entries only. */
  function Selected(entries: Board, filter: set<nat>): Board {
    map id | id in entries && id in filter :: entries[id]
  }

  class Page {
    const party: Party
    var entries: Board

    constructor (party: Party)
      ensures this.party == party && entries == map[]
    {
      this.party, entries := party, map[];
    }

    /** sendInvite, extendOffer, setOutcome, sendReject, respondInvite and respondOffer, once the server has replied. */
    method Settle(id: nat, a: Action, granted: bool)
      modifies this`entries
      ensures entries == if granted then Patched(old(entries), id, a) else old(entries)
    {
      if granted && id in entries {
        match a
        case Invite => entries := entries[id := entries[id].(stage := Invited)];
        case AcceptInvite => entries := entries[id := entries[id].(stage := Interviewing)];
        case DeclineInvite => entries := entries[id := entries[id].(stage := Declined)];
        case ExtendOffer => entries := entries[id := entries[id].(stage := Offer)];
        case MarkHired => entries := entries[id := entries[id].(stage := Hired)];
        case MarkClosed => entries := entries[id := entries[id].(stage := Closed)];
        case Reject => entries := entries[id := entries[id].(stage := Rejected)];
        case RespondOffer(r) => entries := entries[id := entries[id].(response := Some(r))];
      }
    }

    method Load(rows: Board)
      modifies this`entries
      ensures entries == rows
    {
      entries := rows;
    }
  }

  class Server {
    var entries: Board

    /** What assertTransition and the OFFER check make of the entry that was read. */
    method Check(id: nat, a: Action) returns (granted: bool)
      requires id in entries
      ensures granted == Allowed(entries[id].stage, a)
    {
      var stage := entries[id].stage;
      if a.RespondOffer? { return stage == Offer; }
      var from := TransitionSources(a);
      return stage in from;
    }

    /** `update({ where: { id } })`: the entry as it is now, whatever it was when the move was checked. */
    method Write(id: nat, a: Action)
      requires id in entries
      modifies this
      ensures entries == old(entries)[id := Written(old(entries)[id], a)]
    {
      entries := entries[id := Written(entries[id], a)];
    }

    method Read(filter: set<nat>) returns (rows: Board)
      ensures rows == Selected(entries, filter)
    {
      rows := Selected(entries, filter);
    }
  }

  /** PIPELINE_TRANSITIONS */
  function TransitionSources(a: Action): seq<Stage>
    requires !a.RespondOffer?
  {
    match a
    case Invite => [Shortlisted]
    case AcceptInvite => [Invited]
    case DeclineInvite => [Invited]
    case ExtendOffer => [Interviewing]
    case MarkHired => [Offer]
    case MarkClosed => [Offer]
    case Reject => [Shortlisted, Invited, Interviewing, Offer]
  }

  // ---------- everything in motion ----------

  datatype Phase = Sent | Checked | Granted | Refused | Settled

  datatype Message =
    | Move(party: Party, id: nat, action: Action, phase: Phase)
    | Reload(party: Party, rows: Option<Board>, settled: bool)

  datatype State = State(server: Board, employer: Board, candidate: Board, messages: seq<Message>)

  function View(s: State, p: Party): Board {
    if p == Employer then s.employer else s.candidate
  }

  function WithView(s: State, p: Party, view: Board): State {
    if p == Employer then s.(employer := view) else s.(candidate := view)
  }

  datatype Event =
    | Click(party: Party, id: nat, action: Action)
    | AskReload(party: Party)
    | ServerCheck(m: nat)
    | ServerWrite(m: nat)
    | ServerRead(m: nat, filter: set<nat>)
    | Deliver(m: nat)

  predicate Answered(msg: Message) {
    match msg
    case Move(_, _, _, phase) => phase == Granted || phase == Refused
    case Reload(_, rows, settled) => rows.Some? && !settled
  }

  predicate Enabled(s: State, e: Event) {
    match e
    case Click(p, id, a) => id in View(s, p) && Button(p, View(s, p)[id], a)
    case AskReload(_) => true
    case ServerCheck(m) => m < |s.messages| && s.messages[m].Move? && s.messages[m].phase == Sent
      && s.messages[m].id in s.server
    case ServerWrite(m) => m < |s.messages| && s.messages[m].Move? && s.messages[m].phase == Checked
      && s.messages[m].id in s.server
    case ServerRead(m, _) => m < |s.messages| && s.messages[m].Reload? && s.messages[m].rows == None
    case Deliver(m) => m < |s.messages| && Answered(s.messages[m])
  }

  function Next(s: State, e: Event): State
    requires Enabled(s, e)
  {
    match e
    case Click(p, id, a) => s.(messages := s.messages + [Move(p, id, a, Sent)])
    case AskReload(p) => s.(messages := s.messages + [Reload(p, None, false)])
    case ServerCheck(m) =>
      var msg := s.messages[m];
      var phase := if Allowed(s.server[msg.id].stage, msg.action) then Checked else Refused;
      s.(messages := s.messages[m := msg.(phase := phase)])
    case ServerWrite(m) =>
      var msg := s.messages[m];
      s.(server := s.server[msg.id := Written(s.server[msg.id], msg.action)],
        messages := s.messages[m := msg.(phase := Granted)])
    case ServerRead(m, filter) =>
      s.(messages := s.messages[m := s.messages[m].(rows := Some(Selected(s.server, filter)))])
    case Deliver(m) =>
      match s.messages[m]
      case Move(p, id, a, phase) =>
        var done := s.(messages := s.messages[m := s.messages[m].(phase := Settled)]);
        if phase == Granted then WithView(done, p, Patched(View(s, p), id, a)) else done
      case Reload(p, rows, _) =>
        WithView(s.(messages := s.messages[m := s.messages[m].(settled := true)]), p, rows.value)
  }

  /** The server, the two pages and what is under way between them. */
  class Deployment {
    const server: Server
    const employer: Page
    const candidate: Page
    var messages: seq<Message>

    ghost predicate Valid() {
      employer.party == Employer && candidate.party == Candidate && employer != candidate
    }

    ghost function Now(): State
      reads this, server, employer, candidate
    {
      State(server.entries, employer.entries, candidate.entries, messages)
    }

    constructor (server: Server)
      ensures Valid() && this.server == server && fresh(employer) && fresh(candidate)
      ensures Now() == State(server.entries, map[], map[], [])
    {
      this.server := server;
      employer := new Page(Employer);
      candidate := new Page(Candidate);
      messages := [];
    }

    method Arrive(m: nat)
      requires Valid() && Enabled(Now(), Deliver(m))
      modifies this, employer, candidate
      ensures Now() == Next(old(Now()), Deliver(m))
    {
      var msg := messages[m];
      var page := if msg.party == Employer then employer else candidate;
      match msg {
        case Move(_, id, a, phase) =>
          page.Settle(id, a, phase == Granted);
          messages := messages[m := msg.(phase := Settled)];
        case Reload(_, rows, _) =>
          page.Load(rows.value);
          messages := messages[m := msg.(settled := true)];
      }
    }

    /** Whatever happens next, the server and the pages do it as `Next` says. */
    method Happen(e: Event)
      requires Valid() && Enabled(Now(), e)
      modifies this, server, employer, candidate
      ensures Now() == Next(old(Now()), e)
    {
      match e {
        case Click(p, id, a) => messages := messages + [Move(p, id, a, Sent)];
        case AskReload(p) => messages := messages + [Reload(p, None, false)];
        case ServerCheck(m) =>
          var granted := server.Check(messages[m].id, messages[m].action);
          messages := messages[m := messages[m].(phase := if granted then Checked else Refused)];
        case ServerWrite(m) =>
          server.Write(messages[m].id, messages[m].action);
          messages := messages[m := messages[m].(phase := Granted)];
        case ServerRead(m, filter) =>
          var rows := server.Read(filter);
          messages := messages[m := messages[m].(rows := Some(rows))];
        case Deliver(m) => Arrive(m);
      }
    }
  }

  // ---------- forward only ----------

  predicate Edge(a: Stage, b: Stage) {
    match a
    case Shortlisted => b == Invited || b == Rejected
    case Invited => b == Interviewing || b == Declined || b == Rejected
    case Interviewing => b == Offer || b == Rejected
    case Offer => b == Hired || b == Closed || b == Rejected
    case _ => false
  }

  /** An edge is a move of the table. */
  lemma EdgesAreMoves(a: Stage, b: Stage)
    ensures Edge(a, b) <==> exists m: Action ::
      !m.RespondOffer? && Allowed(a, m) && Written(Entry(a, None), m).stage == b
  {
    if Edge(a, b) {
      var m := match b
        case Invited => Invite
        case Interviewing => AcceptInvite
        case Declined => DeclineInvite
        case Offer => ExtendOffer
        case Hired => MarkHired
        case Closed => MarkClosed
        case _ => Reject;
      assert Allowed(a, m) && Written(Entry(a, None), m).stage == b;
    }
  }

  function Rank(a: Stage): nat {
    match a
    case Shortlisted => 0 case Invited => 1 case Interviewing => 2 case Offer => 3 case _ => 4
  }

  predicate Terminal(a: Stage) {
    Rank(a) == 4
  }

  /** `b` can still be reached from `a`. */
  predicate Reaches(a: Stage, b: Stage) {
    a == b || match a
      case Shortlisted => true
      case Invited => b != Shortlisted
      case Interviewing => b in {Offer, Hired, Closed, Rejected}
      case Offer => b in {Hired, Closed, Rejected}
      case _ => false
  }

  predicate Path(p: seq<Stage>) {
    p != [] && forall i | 0 <= i < |p| - 1 :: Edge(p[i], p[i + 1])
  }

  /** Reachable means by a chain of the table's moves. */
  lemma ReachesIff(a: Stage, b: Stage)
    ensures Reaches(a, b) <==> exists p :: Path(p) && p[0] == a && p[|p| - 1] == b
  {
    if Reaches(a, b) {
      var p := SomePath(a, b);
      assert Path(p);
    }
    forall p | Path(p) && p[0] == a && p[|p| - 1] == b ensures Reaches(a, b) {
      PathReaches(p);
    }
  }

  function SomePath(a: Stage, b: Stage): (p: seq<Stage>)
    requires Reaches(a, b)
    ensures Path(p) && p[0] == a && p[|p| - 1] == b
    decreases 4 - Rank(a)
  {
    if a == b then [a]
    else if Edge(a, b) then [a, b]
    else
      var c := if a == Shortlisted then Invited else if a == Invited then Interviewing else Offer;
      [a] + SomePath(c, b)
  }

  lemma {:induction false} PathReaches(p: seq<Stage>)
    requires Path(p)
    ensures Reaches(p[0], p[|p| - 1])
    decreases |p|
  {
    if |p| > 1 {
      PathReaches(p[1..]);
      assert Edge(p[0], p[0 + 1]);
    }
  }

  lemma ReachesOn(a: Stage, b: Stage, c: Stage)
    requires Reaches(a, b) && Reaches(b, c)
    ensures Reaches(a, c) && (Terminal(a) ==> a == c)
  {}

  // ---------- when a write is in time ----------

  /**
   What one step may do to an entry: the stage only moves on, and the answer to an offer only changes while the
   offer stands.
   */
  predicate Fair(was: Entry, now: Entry) {
    Reaches(was.stage, now.stage) && (now.response != was.response ==> was.stage == Offer)
  }

  ghost predicate Forward(was: Board, now: Board) {
    was.Keys == now.Keys && forall id | id in was :: Fair(was[id], now[id])
  }

  /** The move is still allowed when it is written, or has been made already. */
  predicate InTime(e: Entry, a: Action) {
    Allowed(e.stage, a) || Written(e, a) == e
  }

  predicate Timely(s: State, e: Event)
    requires Enabled(s, e)
  {
    e.ServerWrite? ==> InTime(s.server[s.messages[e.m].id], s.messages[e.m].action)
  }

  /** The move was allowed at some stage the entry has been at. */
  ghost predicate OnceAllowed(a: Action, now: Stage) {
    exists f :: Allowed(f, a) && Reaches(f, now)
  }

  ghost predicate BoardKnown(view: Board, server: Board) {
    forall id | id in view :: id in server && Reaches(view[id].stage, server[id].stage)
  }

  ghost predicate MessageKnown(msg: Message, server: Board) {
    match msg
    case Move(_, id, a, phase) =>
      id in server
      && (phase == Checked ==> OnceAllowed(a, server[id].stage))
      && (phase == Granted && !a.RespondOffer? ==> Reaches(Written(server[id], a).stage, server[id].stage))
    case Reload(_, rows, _) => rows.Some? ==> BoardKnown(rows.value, server)
  }

  /**
   Whatever any page shows, any answer carries or any check relied on, is a stage from which the server's stage
   can be reached.
   */
  ghost predicate Known(s: State) {
    BoardKnown(s.employer, s.server) && BoardKnown(s.candidate, s.server)
    && forall msg | msg in s.messages :: MessageKnown(msg, s.server)
  }

  /** A write is fair exactly if it is in time. */
  lemma FairIffInTime(e: Entry, a: Action)
    requires OnceAllowed(a, e.stage)
    ensures Fair(e, Written(e, a)) <==> InTime(e, a)
  {}

  lemma ForwardIffTimely(s: State, e: Event)
    requires Known(s) && Enabled(s, e)
    ensures Forward(s.server, Next(s, e).server) <==> Timely(s, e)
  {
    hide Fair, InTime, Written, OnceAllowed;
    if e.ServerWrite? {
      var msg := s.messages[e.m];
      assert MessageKnown(msg, s.server);
      FairIffInTime(s.server[msg.id], msg.action);
    }
    forall x: Entry ensures Fair(x, x) { FairToItself(x); }
  }

  lemma FairToItself(x: Entry)
    ensures Fair(x, x)
  {}

  lemma BoardStaysKnown(view: Board, was: Board, now: Board)
    requires BoardKnown(view, was) && Forward(was, now)
    ensures BoardKnown(view, now)
  {
    hide Reaches;
    forall id | id in view ensures id in now && Reaches(view[id].stage, now[id].stage) {
      ReachesOn(view[id].stage, was[id].stage, now[id].stage);
    }
  }

  lemma MessageStaysKnown(msg: Message, was: Board, now: Board)
    requires MessageKnown(msg, was) && Forward(was, now)
    ensures MessageKnown(msg, now)
  {
    match msg
    case Reload(_, rows, _) => if rows.Some? { BoardStaysKnown(rows.value, was, now); }
    case Move(_, id, a, phase) =>
  }

  /** Which message a step adds or changes. */
  function Touched(s: State, e: Event): nat {
    match e
    case Click(_, _, _) => |s.messages|
    case AskReload(_) => |s.messages|
    case ServerCheck(m) => m
    case ServerWrite(m) => m
    case ServerRead(m, _) => m
    case Deliver(m) => m
  }

  lemma OthersUntouched(s: State, e: Event)
    requires Enabled(s, e)
    ensures var t, k := Next(s, e), Touched(s, e);
      k < |t.messages| && forall j | 0 <= j < |t.messages| && j != k ::
        j < |s.messages| && t.messages[j] == s.messages[j]
  {
    hide Written, Allowed, Patched;
  }

  lemma TouchedIsKnown(s: State, e: Event)
    requires Known(s) && Enabled(s, e) && Timely(s, e)
    ensures Touched(s, e) < |Next(s, e).messages|
    ensures MessageKnown(Next(s, e).messages[Touched(s, e)], Next(s, e).server)
  {
    hide Allowed, Reaches, Patched, OnceAllowed, InTime;
    forall x: Stage ensures Reaches(x, x) { StageReachesItself(x); }
    match e
    case ServerCheck(m) =>
      var msg := s.messages[m];
      if Allowed(s.server[msg.id].stage, msg.action) { OnceAllowedNow(msg.action, s.server[msg.id].stage); }
    case ServerWrite(m) => WrittenTwice(s.server[s.messages[m].id], s.messages[m].action);
    case Click(p, id, a) => assert BoardKnown(View(s, p), s.server);
    case Deliver(m) => assert MessageKnown(s.messages[m], s.server);
    case _ =>
  }

  lemma WrittenTwice(e: Entry, a: Action)
    ensures Written(Written(e, a), a) == Written(e, a)
  {}

  lemma StageReachesItself(x: Stage)
    ensures Reaches(x, x)
  {}

  lemma OnceAllowedNow(a: Action, x: Stage)
    requires Allowed(x, a)
    ensures OnceAllowed(a, x)
  {
    StageReachesItself(x);
  }

  lemma DeliveredIsKnown(s: State, m: nat)
    requires Known(s) && Enabled(s, Deliver(m))
    ensures BoardKnown(Next(s, Deliver(m)).employer, s.server) && BoardKnown(Next(s, Deliver(m)).candidate, s.server)
  {
    hide Reaches;
    var msg := s.messages[m];
    assert MessageKnown(msg, s.server);
    if msg.Move? { WrittenStage(View(s, msg.party), s.server, msg.id, msg.action); }
  }

  lemma WrittenStage(view: Board, server: Board, id: nat, a: Action)
    ensures id in view && id in server ==>
      Written(view[id], a).stage == if a.RespondOffer? then view[id].stage else Written(server[id], a).stage
  {}

  /** As long as writes are in time, every page, answer and check stays behind the server and never beside it. */
  lemma KnownStays(s: State, e: Event)
    requires Known(s) && Enabled(s, e) && Timely(s, e)
    ensures Known(Next(s, e))
  {
    hide MessageKnown, BoardKnown, Forward, Timely;
    var t := Next(s, e);
    ForwardIffTimely(s, e);
    if e.Deliver? {
      DeliveredIsKnown(s, e.m);
    } else {
      BoardStaysKnown(s.employer, s.server, t.server);
      BoardStaysKnown(s.candidate, s.server, t.server);
    }
    OthersUntouched(s, e);
    TouchedIsKnown(s, e);
    forall msg | msg in t.messages ensures MessageKnown(msg, t.server) {
      var j :| 0 <= j < |t.messages| && t.messages[j] == msg;
      if j != Touched(s, e) { MessageStaysKnown(s.messages[j], s.server, t.server); }
    }
  }

  // ---------- whole runs ----------

  predicate Runs(s: State, es: seq<Event>)
    decreases |es|
  {
    es == [] || (Enabled(s, es[0]) && Runs(Next(s, es[0]), es[1..]))
  }

  function End(s: State, es: seq<Event>): State
    requires Runs(s, es)
    decreases |es|
  {
    if es == [] then s else End(Next(s, es[0]), es[1..])
  }

  ghost predicate AlwaysForward(s: State, es: seq<Event>)
    requires Runs(s, es)
    decreases |es|
  {
    es == [] || (Forward(s.server, Next(s, es[0]).server) && AlwaysForward(Next(s, es[0]), es[1..]))
  }

  predicate AlwaysTimely(s: State, es: seq<Event>)
    requires Runs(s, es)
    decreases |es|
  {
    es == [] || (Timely(s, es[0]) && AlwaysTimely(Next(s, es[0]), es[1..]))
  }

  /** The pipeline only ever moves forward exactly in the runs whose writes are in time. */
  lemma {:induction false} AlwaysForwardIff(s: State, es: seq<Event>)
    requires Known(s) && Runs(s, es)
    ensures AlwaysForward(s, es) <==> AlwaysTimely(s, es)
    ensures AlwaysTimely(s, es) ==> Known(End(s, es))
    decreases |es|
  {
    hide Known, Enabled, Next, Forward, Timely;
    if es != [] {
      ForwardIffTimely(s, es[0]);
      if Timely(s, es[0]) {
        KnownStays(s, es[0]);
        AlwaysForwardIff(Next(s, es[0]), es[1..]);
      }
    }
  }

  /** In such a run, a final stage on anybody's screen is the stage the server has. */
  lemma FinalOnScreenIsFinal(s: State, es: seq<Event>, p: Party, id: nat)
    requires Known(s) && Runs(s, es) && AlwaysTimely(s, es)
    requires id in View(End(s, es), p) && Terminal(View(End(s, es), p)[id].stage)
    ensures id in End(s, es).server && End(s, es).server[id].stage == View(End(s, es), p)[id].stage
  {
    hide Runs, End, AlwaysTimely;
    AlwaysForwardIff(s, es);
    var view, server := View(End(s, es), p), End(s, es).server;
    assert Reaches(view[id].stage, server[id].stage);
  }

  // ---------- how an entry got where it is ----------

  /** The moves that changed the entry's stage, in order. */
  function Trail(s: State, es: seq<Event>, id: nat): seq<Action>
    requires Runs(s, es)
    decreases |es|
  {
    if es == [] then []
    else
      var rest := Trail(Next(s, es[0]), es[1..], id);
      if es[0].ServerWrite? && s.messages[es[0].m].id == id && Next(s, es[0]).server[id].stage != s.server[id].stage
      then [s.messages[es[0].m].action] + rest else rest
  }

  predicate Walks(from: Stage, trail: seq<Action>, to: Stage)
    decreases |trail|
  {
    if trail == [] then from == to
    else
      && !trail[0].RespondOffer? && Allowed(from, trail[0])
      && Walks(Written(Entry(from, None), trail[0]).stage, trail[1..], to)
  }

  lemma {:induction false} TrailWalks(s: State, es: seq<Event>, id: nat)
    requires Runs(s, es) && AlwaysTimely(s, es) && id in s.server
    ensures id in End(s, es).server && Walks(s.server[id].stage, Trail(s, es, id), End(s, es).server[id].stage)
    decreases |es|
  {
    hide Walks, Allowed, Button, Patched, Written, InTime;
    if es == [] {
      NoWalk(s.server[id].stage);
    } else {
      TrailWalks(Next(s, es[0]), es[1..], id);
      if es[0].ServerWrite? && s.messages[es[0].m].id == id {
        var a := s.messages[es[0].m].action;
        OneMore(s.server[id], a, Trail(Next(s, es[0]), es[1..], id), End(s, es).server[id].stage);
      }
    }
  }

  lemma NoWalk(x: Stage)
    ensures Walks(x, [], x)
  {}

  lemma OneMore(e: Entry, a: Action, rest: seq<Action>, to: Stage)
    requires InTime(e, a) && Walks(Written(e, a).stage, rest, to)
    ensures Written(e, a).stage != e.stage ==> Walks(e.stage, [a] + rest, to)
  {
    assert ([a] + rest)[1..] == rest;
  }

  lemma {:induction false} WalkIsShort(from: Stage, trail: seq<Action>, to: Stage)
    requires Walks(from, trail, to)
    ensures Rank(from) + |trail| <= Rank(to)
      && (to == Hired ==> trail == [Invite, AcceptInvite, ExtendOffer, MarkHired][Rank(from)..])
    decreases |trail|
  {
    if trail != [] {
      WalkIsShort(Written(Entry(from, None), trail[0]).stage, trail[1..], to);
      assert trail == [trail[0]] + trail[1..];
    }
  }

  /**
   Whatever is clicked, delayed and reloaded, if no write comes too late an entry changes
   stage at most four times, and a hire is always an invitation, the candidate's
   acceptance, an offer and the employer's final word, in this order and nothing else.
   */
  lemma HiredMeansAcceptedAndOffered(s: State, es: seq<Event>, id: nat)
    requires Known(s) && Runs(s, es) && AlwaysTimely(s, es) && id in s.server
    ensures |Trail(s, es, id)| <= 4
    ensures id in End(s, es).server
    ensures s.server[id].stage == Shortlisted && End(s, es).server[id].stage == Hired ==>
      Trail(s, es, id) == [Invite, AcceptInvite, ExtendOffer, MarkHired]
  {
    hide Runs, AlwaysTimely, Trail, End, Walks;
    TrailWalks(s, es, id);
    WalkIsShort(s.server[id].stage, Trail(s, es, id), End(s, es).server[id].stage);
  }

  /** The answers to an offer that were written, in order. */
  function Answers(s: State, es: seq<Event>, id: nat): seq<Response>
    requires Runs(s, es)
    decreases |es|
  {
    if es == [] then []
    else
      var rest := Answers(Next(s, es[0]), es[1..], id);
      if es[0].ServerWrite? && s.messages[es[0].m].id == id && s.messages[es[0].m].action.RespondOffer?
      then [s.messages[es[0].m].action.response] + rest else rest
  }

  /** The entry holds the candidate's last answer, in time or not, and no move of the employer touches it. */
  lemma {:induction false} LastAnswerStands(s: State, es: seq<Event>, id: nat)
    requires Runs(s, es) && id in s.server
    ensures id in End(s, es).server
    ensures var answers := Answers(s, es, id);
      End(s, es).server[id].response == if answers == [] then s.server[id].response else Some(answers[|answers| - 1])
    decreases |es|
  {
    hide Allowed, Button, Patched;
    if es != [] { LastAnswerStands(Next(s, es[0]), es[1..], id); }
  }

  // ---------- what comes to be shown ----------

  /** An answer on its way stays as it was sent, whatever else happens. */
  lemma {:induction false} AnswerWaits(s: State, es: seq<Event>, m: nat)
    requires Runs(s, es) && m < |s.messages| && Answered(s.messages[m]) && forall e | e in es :: e != Deliver(m)
    ensures m < |End(s, es).messages| && End(s, es).messages[m] == s.messages[m]
    decreases |es|
  {
    hide Next, Written, Allowed, Patched, Button;
    if es != [] {
      assert es[0] in es;
      OthersUntouched(s, es[0]);
      AnswerIsKept(s, es[0], m);
      assert forall e | e in es[1..] :: e in es;
      AnswerWaits(Next(s, es[0]), es[1..], m);
    }
  }

  lemma AnswerIsKept(s: State, e: Event, m: nat)
    requires Enabled(s, e) && m < |s.messages| && Answered(s.messages[m]) && e != Deliver(m)
    ensures m < |Next(s, e).messages| && Next(s, e).messages[m] == s.messages[m]
  {
    hide Written, Allowed, Patched, Button;
  }

  /**
   A move that was written and granted comes to be shown, whatever has happened before its answer arrives: the page
   that asked has the stage - for an answer to an offer, the response - that was written, and nothing else
   changes. If the page was up to date before the write and nothing has been written to the entry since, it is
   up to date again.
   */
  lemma GrantedIsShown(s: State, m: nat, es: seq<Event>)
    requires Enabled(s, ServerWrite(m)) && Runs(Next(s, ServerWrite(m)), es) && forall e | e in es :: e != Deliver(m)
    ensures var wrote, before, id := Next(s, ServerWrite(m)).server, End(Next(s, ServerWrite(m)), es), s.messages[m].id;
      Enabled(before, Deliver(m)) &&
      var p, after := s.messages[m].party, Next(before, Deliver(m));
      && View(after, p).Keys == View(before, p).Keys && after.server == before.server && id in after.server
      && (forall q | q != p :: View(after, q) == View(before, q))
      && (forall other | other in View(after, p) && other != id :: View(after, p)[other] == View(before, p)[other])
      && (id in View(after, p) ==> if s.messages[m].action.RespondOffer?
            then View(after, p)[id] == Entry(View(before, p)[id].stage, wrote[id].response)
            else View(after, p)[id] == Entry(wrote[id].stage, View(before, p)[id].response))
      && (id in View(after, p) && View(before, p)[id] == s.server[id] && after.server[id] == wrote[id] ==>
            View(after, p)[id] == after.server[id])
  {
    hide Runs, End, Allowed, Button;
    AnswerWaits(Next(s, ServerWrite(m)), es, m);
    forall view: Entry ensures WritesOnly(view, s.server[s.messages[m].id], s.messages[m].action) {
      SameWrite(view, s.server[s.messages[m].id], s.messages[m].action);
    }
    StillThere(Next(s, ServerWrite(m)), es, s.messages[m].id);
  }

  /** A move writes to a copy what it writes to the entry. */
  predicate WritesOnly(copy: Entry, e: Entry, a: Action) {
    Written(copy, a) == if a.RespondOffer? then Entry(copy.stage, Written(e, a).response)
      else Entry(Written(e, a).stage, copy.response)
  }

  lemma SameWrite(copy: Entry, e: Entry, a: Action)
    ensures WritesOnly(copy, e, a)
  {}

  lemma {:induction false} StillThere(s: State, es: seq<Event>, id: nat)
    requires Runs(s, es) && id in s.server
    ensures id in End(s, es).server
    decreases |es|
  {
    hide Written, Allowed, Patched, Button;
    if es != [] { StillThere(Next(s, es[0]), es[1..], id); }
  }

  /**
   A reload comes to show exactly the entries asked for, as the server had them when it read them - so as it has
   them, if nothing has been written since.
   */
  lemma ReloadIsShown(s: State, m: nat, filter: set<nat>, es: seq<Event>)
    requires Enabled(s, ServerRead(m, filter)) && Runs(Next(s, ServerRead(m, filter)), es)
    requires !s.messages[m].settled && forall e | e in es :: e != Deliver(m)
    ensures var before, p := End(Next(s, ServerRead(m, filter)), es), s.messages[m].party;
      Enabled(before, Deliver(m)) &&
      var after := Next(before, Deliver(m));
      && after.server == before.server && (forall q | q != p :: View(after, q) == View(before, q))
      && (forall id :: id in View(after, p) <==> id in s.server && id in filter)
      && (forall id | id in View(after, p) :: View(after, p)[id] == s.server[id])
  {
    hide Runs, End, Allowed, Button;
    AnswerWaits(Next(s, ServerRead(m, filter)), es, m);
  }

  /** Only the candidate ever answers an invitation or an offer, only the employer makes any other move. */
  lemma {:induction false} EachPartyItsOwn(s: State, es: seq<Event>)
    requires Runs(s, es) && forall msg | msg in s.messages && msg.Move? :: MovesAsParty(msg.party, msg.action)
    ensures forall msg | msg in End(s, es).messages && msg.Move? :: MovesAsParty(msg.party, msg.action)
    decreases |es|
  {
    hide Next, Enabled, MovesAsParty;
    if es != [] {
      var t := Next(s, es[0]);
      forall msg | msg in t.messages && msg.Move? ensures MovesAsParty(msg.party, msg.action) {
        var j :| 0 <= j < |t.messages| && t.messages[j] == msg;
        SameMover(s, es[0], j);
        if j < |s.messages| { assert s.messages[j] in s.messages; }
      }
      EachPartyItsOwn(t, es[1..]);
    }
  }

  predicate MovesAsParty(p: Party, a: Action) {
    match p
    case Candidate => a.AcceptInvite? || a.DeclineInvite? || a.RespondOffer?
    case Employer => a.Invite? || a.ExtendOffer? || a.MarkHired? || a.MarkClosed? || a.Reject?
  }

  lemma SameMover(s: State, e: Event, j: nat)
    requires Enabled(s, e) && j < |Next(s, e).messages| && Next(s, e).messages[j].Move?
    ensures var msg := Next(s, e).messages[j];
      if j < |s.messages| then s.messages[j].Move? && s.messages[j].party == msg.party
        && s.messages[j].action == msg.action
      else MovesAsParty(msg.party, msg.action)
  {
    hide Written, Allowed, Patched;
  }

  /** A server that checked and wrote in one go would always be in time. */
  lemma CheckedAndWrittenAtOnce(s: State, m: nat)
    requires Enabled(s, ServerCheck(m)) && Allowed(s.server[s.messages[m].id].stage, s.messages[m].action)
    ensures var t := Next(s, ServerCheck(m)); Enabled(t, ServerWrite(m)) && Timely(t, ServerWrite(m))
  {}

  /** An invited candidate; the employer's page has asked to reject, the candidate's to accept. */
  function Racing(reject: Phase, accept: Phase): State {
    var board := map[0 := Entry(Invited, None)];
    State(board, board, board, [Move(Employer, 0, Reject, reject), Move(Candidate, 0, AcceptInvite, accept)])
  }

  /**
   This one need not be. Both checks pass on INVITED, both writes happen, and the
   rejected candidate - rejected on the employer's screen, too - is interviewing.
   */
  lemma LateWriteLeavesFinalStage() returns (es: seq<Event>)
    ensures Known(Racing(Sent, Sent)) && Runs(Racing(Sent, Sent), es) && !AlwaysTimely(Racing(Sent, Sent), es)
    ensures var end := End(Racing(Sent, Sent), es);
      && 0 in end.employer && end.employer[0].stage == Rejected
      && 0 in end.server && end.server[0].stage == Interviewing
  {
    hide Runs, End, AlwaysTimely;
    var late := LateWrites();
    assert Next(Racing(Checked, Sent), ServerCheck(1)).messages == Racing(Checked, Checked).messages;
    assert Next(Racing(Sent, Sent), ServerCheck(0)).messages == Racing(Checked, Sent).messages;
    Prepend(Racing(Checked, Sent), ServerCheck(1), late);
    Prepend(Racing(Sent, Sent), ServerCheck(0), [ServerCheck(1)] + late);
    es := [ServerCheck(0)] + ([ServerCheck(1)] + late);
  }

  lemma LateWrites() returns (es: seq<Event>)
    ensures Runs(Racing(Checked, Checked), es) && !AlwaysTimely(Racing(Checked, Checked), es)
    ensures var end := End(Racing(Checked, Checked), es);
      && 0 in end.employer && end.employer[0].stage == Rejected
      && 0 in end.server && end.server[0].stage == Interviewing
  {
    hide Runs, End, AlwaysTimely;
    var s0 := Racing(Checked, Checked);
    var s1 := Next(s0, ServerWrite(0));
    var s2 := Next(s1, Deliver(0));
    var s3 := Next(s2, ServerWrite(1));
    assert s1.server == map[0 := Entry(Rejected, None)] && s1.messages[1] == s0.messages[1];
    assert s2.server == s1.server && s2.messages[1] == s0.messages[1] && s2.employer[0].stage == Rejected;
    EmptyRun(s3);
    Prepend(s2, ServerWrite(1), []);
    Prepend(s1, Deliver(0), [ServerWrite(1)] + []);
    Prepend(s0, ServerWrite(0), [Deliver(0)] + ([ServerWrite(1)] + []));
    es := [ServerWrite(0)] + ([Deliver(0)] + ([ServerWrite(1)] + []));
  }

  lemma EmptyRun(s: State)
    ensures Runs(s, []) && End(s, []) == s
  {}

  lemma Prepend(s: State, e: Event, es: seq<Event>)
    requires Enabled(s, e) && Runs(Next(s, e), es)
    ensures Runs(s, [e] + es) && End(s, [e] + es) == End(Next(s, e), es)
    ensures AlwaysTimely(s, [e] + es) <==> Timely(s, e) && AlwaysTimely(Next(s, e), es)
  {
    hide Enabled, Next, Timely;
    assert ([e] + es)[1..] == es;
  }
}
