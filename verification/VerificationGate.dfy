/**
 The gate that sends an incomplete candidate to /verify
 (apps/web/lib/candidateVerification.tsx): React effects over a token in storage,
 fetches that answer late, a message bus and a timer, in any order.

 `marks` and `film` are history only: what the provider came to know and did, and
 when it withheld the page.
 */
module VerificationGate {
  import opened Wrappers

  /**
   An access token: whose it is, and which of that candidate's tokens. A refresh brings another token of the
   same owner.
   */
  datatype Token = Token(owner: string, serial: nat)

  datatype Status = Unknown | NotApplicable | Incomplete | Complete

  datatype Mark =
    | NoToken
    | Said(about: Option<Token>, status: Status)
    | Refused(about: Option<Token>)
    | Redirect(token: Token)

  datatype Frame = Frame(at: int, blocking: bool)

  datatype Gate = Gate(token: Option<Token>, path: string, status: Status, redirecting: bool,
    fetchedFor: Option<Token>, redirectedFor: Option<Token>, flight: seq<Option<Token>>, timer: Option<int>, now: int,
    marks: seq<Mark>, film: seq<Frame>)

  const FALLBACK_MS := 4000

  predicate StartsWith(path: string, prefix: string) {
    |prefix| <= |path| && path[..|prefix|] == prefix
  }

  predicate IsExempt(path: string) {
    path == "/profile/account"
    || StartsWith(path, "/employer") || StartsWith(path, "/admin") || StartsWith(path, "/verify")
    || StartsWith(path, "/candidate") || StartsWith(path, "/help") || StartsWith(path, "/account-deletion")
  }

  predicate Blocking(g: Gate) {
    g.redirecting && !IsExempt(g.path) && g.status == Incomplete
  }

  datatype Me = Me(role: string, phone: Option<string>, email: Option<string>)

  function StatusFor(answer: Option<Me>): Status {
    match answer
    case None => NotApplicable
    case Some(me) =>
      if me.role != "CANDIDATE" then NotApplicable
      else if me.phone.Some? && me.email.Some? then Complete
      else Incomplete
  }

  // ---------- the effects ----------

  function Marked(g: Gate, m: Mark): Gate {
    g.(marks := g.marks + [m])
  }

  function Forget(g: Gate): Gate {
    Marked(g, NoToken).(fetchedFor := None, redirectedFor := None, status := NotApplicable)
  }

  function Fetch(g: Gate): Gate {
    g.(flight := g.flight + [g.token])
  }

  /** The fourth effect starts the timer when `redirecting` turns true, and not when it is set again. */
  function Redirecting(g: Gate, t: Token): Gate {
    var h := Marked(g, Redirect(t)).(redirectedFor := Some(t), redirecting := true);
    if g.redirecting then h else h.(timer := Some(g.now + FALLBACK_MS))
  }

  /** The first effect. */
  function Effect(g: Gate): Gate {
    match g.token
    case None => Forget(g)
    case Some(t) =>
      if IsExempt(g.path) then g
      else if g.fetchedFor != g.token then Fetch(g.(fetchedFor := g.token))
      else if g.status == Incomplete && g.redirectedFor != g.token then Redirecting(g, t)
      else g
  }

  /** A new status makes the first effect run again. */
  function WithStatus(g: Gate, m: Mark, status: Status): Gate {
    var h := Marked(g, m).(status := status);
    if status == g.status then h else Effect(h)
  }

  /** The bus carries no token; `about` is the one the refused request was sent with. */
  datatype Event =
    | Mount
    | Navigate(path: string)
    | StorageChanged(token: Option<Token>)
    | TokenChanged(token: Option<Token>)
    | FetchDone(i: nat, answer: Option<Me>)
    | BusIncomplete(about: Option<Token>)
    | Refetch
    | Tick(ms: nat)
    | TimerFires

  /** Time does not run past a timer that is due. */
  predicate Enabled(g: Gate, e: Event) {
    match e
    case FetchDone(i, _) => i < |g.flight|
    case Tick(ms) => g.timer.Some? ==> g.now + ms <= g.timer.value
    case TimerFires => g.timer == Some(g.now)
    case _ => true
  }

  function Handled(g: Gate, e: Event): Gate
    requires Enabled(g, e)
  {
    match e
    case Mount => Effect(g)
    case Navigate(path) => if path == g.path then g else Effect(g.(path := path))
    case StorageChanged(token) => g.(token := token)
    case TokenChanged(token) =>
      var h := g.(token := token);
      if token == None then (if g.status == NotApplicable then Forget(h) else Effect(Forget(h)))
      else if IsExempt(g.path) then h
      else Fetch(h.(fetchedFor := token))
    case FetchDone(i, answer) =>
      WithStatus(g.(flight := g.flight[..i] + g.flight[i + 1..]), Said(g.flight[i], StatusFor(answer)),
        StatusFor(answer))
    case BusIncomplete(about) => WithStatus(g, Refused(about), Incomplete)
    case Refetch => Fetch(g)
    case Tick(ms) => g.(now := g.now + ms)
    case TimerFires => g.(redirecting := false, timer := None)
  }

  function Next(g: Gate, e: Event): Gate
    requires Enabled(g, e)
  {
    var h := Handled(g, e);
    h.(film := h.film + [Frame(h.now, Blocking(h))])
  }

  // ---------- reading the history ----------

  /** What the last thing the provider came to know amounts to. */
  function Verdict(marks: seq<Mark>): Status {
    if marks == [] then Unknown
    else match marks[|marks| - 1]
      case NoToken => NotApplicable
      case Said(_, status) => status
      case Refused(_) => Incomplete
      case Redirect(_) => Verdict(marks[..|marks| - 1])
  }

  /** Whom it was about. */
  function About(marks: seq<Mark>): Option<Token> {
    if marks == [] then None
    else match marks[|marks| - 1]
      case NoToken => None
      case Said(about, _) => about
      case Refused(about) => about
      case Redirect(_) => About(marks[..|marks| - 1])
  }

  /** The token of the last redirect, unless there has been an observation without a token since. */
  function LastRedirect(marks: seq<Mark>): Option<Token> {
    if marks == [] then None
    else match marks[|marks| - 1]
      case NoToken => None
      case Redirect(t) => Some(t)
      case _ => LastRedirect(marks[..|marks| - 1])
  }

  /** Every redirect had its reason: the last thing known was that the candidate is incomplete. */
  ghost predicate Justified(marks: seq<Mark>) {
    forall k | 0 <= k < |marks| && marks[k].Redirect? :: Verdict(marks[..k]) == Incomplete
  }

  /** Between two successive redirects for one token there was no token for a while. */
  ghost predicate Separated(marks: seq<Mark>) {
    forall i, j | 0 <= i < j < |marks| && marks[i].Redirect? && marks[j] == marks[i]
      && (forall k | i < k < j :: !marks[k].Redirect?) ::
      exists k | i < k < j :: marks[k] == NoToken
  }

  /** How long the page has now been withheld without interruption: since when. */
  function Since(film: seq<Frame>): Option<int> {
    if film == [] || !film[|film| - 1].blocking then None
    else
      var before := Since(film[..|film| - 1]);
      if before.Some? then before else Some(film[|film| - 1].at)
  }

  ghost predicate NeverLong(film: seq<Frame>) {
    forall i, j | 0 <= i <= j < |film| && (forall k | i <= k <= j :: film[k].blocking) ::
      film[j].at - film[i].at <= 4000
  }

  // ---------- what holds after every event ----------

  ghost predicate Known(g: Gate) {
    g.status == Verdict(g.marks) && g.redirectedFor == LastRedirect(g.marks) && Justified(g.marks) && Separated(g.marks)
  }

  ghost predicate Timed(g: Gate) {
    && (g.redirecting <==> g.timer.Some?)
    && (g.timer.Some? ==> g.now <= g.timer.value <= g.now + FALLBACK_MS)
    && (Since(g.film).Some? ==> g.timer.Some? && g.timer.value - FALLBACK_MS <= Since(g.film).value)
    && (forall a, b | 0 <= a <= b < |g.film| :: g.film[a].at <= g.film[b].at <= g.now)
    && NeverLong(g.film)
  }

  ghost predicate Sound(g: Gate) {
    Known(g) && Timed(g)
  }

  lemma LastMark(marks: seq<Mark>, m: Mark)
    ensures (marks + [m])[..|marks|] == marks
  {}

  lemma MarkKeeps(marks: seq<Mark>, m: Mark)
    requires Justified(marks) && Separated(marks)
    requires m.Redirect? ==> Verdict(marks) == Incomplete && LastRedirect(marks) != Some(m.token)
    ensures Justified(marks + [m]) && Separated(marks + [m])
  {
    hide Verdict, LastRedirect;
    var more := marks + [m];
    forall k | 0 <= k < |more| && more[k].Redirect? ensures Verdict(more[..k]) == Incomplete {
      assert more[..k] == marks[..k];
      if k == |marks| { assert marks[..k] == marks; } else { assert more[k] == marks[k]; }
    }
    forall i, j | 0 <= i < j < |more| && more[i].Redirect? && more[j] == more[i]
      && (forall k | i < k < j :: !more[k].Redirect?)
      ensures exists k | i < k < j :: more[k] == NoToken
    {
      if j < |marks| {
        assert marks[i] == more[i] && marks[j] == more[j];
        assert forall k | i < k < j :: marks[k] == more[k];
        var k :| i < k < j && marks[k] == NoToken;
        assert more[k] == NoToken;
      } else {
        var k := LastRedirectStands(marks, i);
        assert more[k] == NoToken;
      }
    }
  }

  lemma {:induction false} LastRedirectStands(marks: seq<Mark>, i: nat) returns (k: nat)
    requires i < |marks| && marks[i].Redirect? && LastRedirect(marks) != Some(marks[i].token)
    requires forall j | i < j < |marks| :: !marks[j].Redirect?
    ensures i < k < |marks| && marks[k] == NoToken
  {
    var n := |marks| - 1;
    if marks[n] == NoToken { k := n; }
    else { k := LastRedirectStands(marks[..n], i); }
  }

  lemma EffectKeepsKnown(g: Gate)
    requires Known(g)
    ensures Known(Effect(g))
  {
    hide Justified, Separated, IsExempt;
    MarkKeeps(g.marks, NoToken);
    LastMark(g.marks, NoToken);
    if g.token.Some? {
      LastMark(g.marks, Redirect(g.token.value));
      if g.status == Incomplete && g.redirectedFor != g.token { MarkKeeps(g.marks, Redirect(g.token.value)); }
    }
  }

  lemma WithStatusKeepsKnown(g: Gate, m: Mark, status: Status)
    requires Known(g) && ((m.Said? && m.status == status) || (m.Refused? && status == Incomplete))
    ensures Known(WithStatus(g, m, status))
  {
    hide Justified, Separated, Effect;
    MarkKeeps(g.marks, m);
    LastMark(g.marks, m);
    EffectKeepsKnown(Marked(g, m).(status := status));
  }

  lemma ForgetKeepsKnown(g: Gate)
    requires Known(g)
    ensures Known(Forget(g)) && Known(Effect(Forget(g)))
  {
    hide Justified, Separated, Effect;
    MarkKeeps(g.marks, NoToken);
    LastMark(g.marks, NoToken);
    EffectKeepsKnown(Forget(g));
  }

  lemma NextKeepsKnown(g: Gate, e: Event)
    requires Known(g) && Enabled(g, e)
    ensures Known(Next(g, e))
  {
    hide Justified, Separated, IsExempt, Effect, WithStatus, Verdict, LastRedirect, Forget;
    match e
    case Mount => EffectKeepsKnown(g);
    case Navigate(path) => EffectKeepsKnown(g.(path := path));
    case TokenChanged(token) => ForgetKeepsKnown(g.(token := token));
    case FetchDone(i, answer) =>
      WithStatusKeepsKnown(g.(flight := g.flight[..i] + g.flight[i + 1..]), Said(g.flight[i], StatusFor(answer)),
        StatusFor(answer));
    case BusIncomplete(about) => WithStatusKeepsKnown(g, Refused(about), Incomplete);
    case _ =>
  }

  // ---------- the 4000 ms ----------

  /** The clock and the timer, apart from the film. */
  ghost predicate Clocked(g: Gate) {
    (g.redirecting <==> g.timer.Some?) && (g.timer.Some? ==> g.now <= g.timer.value <= g.now + FALLBACK_MS)
  }

  /** No event but the timer ends a countdown, none restarts one that is running. */
  lemma HandledKeepsClock(g: Gate, e: Event)
    requires Clocked(g) && Enabled(g, e)
    ensures var h := Handled(g, e);
      Clocked(h) && g.now <= h.now && (g.timer.Some? ==> h.timer == g.timer || h.timer == None)
        && (e.Tick? ==> h.timer == g.timer)
    ensures g.timer == None && Handled(g, e).timer.Some?
      ==> Handled(g, e).timer == Some(Handled(g, e).now + FALLBACK_MS)
  {}

  lemma {:induction false} SinceIsFirst(film: seq<Frame>, i: nat)
    requires i < |film| && forall k | i <= k < |film| :: film[k].blocking
    requires forall a, b | 0 <= a <= b < |film| :: film[a].at <= film[b].at
    ensures Since(film).Some? && Since(film).value <= film[i].at
  {
    var n := |film| - 1;
    if i < n { SinceIsFirst(film[..n], i); } else { SinceIsOld(film[..n], film[n].at); }
  }

  lemma {:induction false} SinceIsOld(film: seq<Frame>, t: int)
    requires forall k | 0 <= k < |film| :: film[k].at <= t
    ensures Since(film).Some? ==> Since(film).value <= t
  {
    if film != [] { SinceIsOld(film[..|film| - 1], t); }
  }

  lemma NextKeepsTimed(g: Gate, e: Event)
    requires Timed(g) && Enabled(g, e)
    ensures Timed(Next(g, e))
  {
    hide Handled, Blocking, NeverLong, Since;
    HandledKeepsClock(g, e);
    HandledKeepsFilm(g, e);
    var h := Handled(g, e);
    var f := Frame(h.now, Blocking(h));
    BlockingMeansRedirecting(h);
    NextFrame(g.film, f);
    if f.blocking && !(Since(g.film).Some?) && g.timer.Some? { assert h.timer == g.timer; }
    var film := g.film + [f];
    assert forall a, b | 0 <= a <= b < |film| :: film[a].at <= film[b].at <= h.now;
    StretchIsBounded(g.film, f, h.timer);
  }

  lemma HandledKeepsFilm(g: Gate, e: Event)
    requires Enabled(g, e)
    ensures Handled(g, e).film == g.film
  {}

  lemma BlockingMeansRedirecting(g: Gate)
    ensures Blocking(g) ==> g.redirecting
  {}

  lemma NextFrame(film: seq<Frame>, f: Frame)
    ensures Since(film + [f]) == if !f.blocking then None else if Since(film).Some? then Since(film) else Some(f.at)
  {
    assert (film + [f])[..|film|] == film;
  }

  /** The film never shows the page withheld for longer than the fallback. */
  lemma StretchIsBounded(film: seq<Frame>, f: Frame, timer: Option<int>)
    requires NeverLong(film) && forall a, b | 0 <= a <= b < |film| :: film[a].at <= film[b].at <= f.at
    requires f.blocking ==> timer.Some? && f.at <= timer.value && timer.value - FALLBACK_MS <= Since(film + [f]).value
    requires f.blocking ==> Since(film + [f]).Some?
    ensures NeverLong(film + [f])
  {
    hide Since, NeverLong;
    var more := film + [f];
    forall i | 0 <= i < |more| && (forall k | i <= k < |more| :: more[k].blocking)
      ensures f.at - more[i].at <= FALLBACK_MS {
      assert more[|film|] == f;
      InOrder(film, f);
      SinceIsFirst(more, i);
    }
    LongerFilm(film, f);
  }

  lemma InOrder(film: seq<Frame>, f: Frame)
    requires forall a, b | 0 <= a <= b < |film| :: film[a].at <= film[b].at <= f.at
    ensures forall a, b | 0 <= a <= b < |film + [f]| :: (film + [f])[a].at <= (film + [f])[b].at
  {
    forall a, b | 0 <= a <= b < |film + [f]| ensures (film + [f])[a].at <= (film + [f])[b].at {
      if a < |film| { assert film[a].at <= film[a].at <= f.at; }
    }
  }

  lemma LongerFilm(film: seq<Frame>, f: Frame)
    requires NeverLong(film)
    requires forall i | 0 <= i < |film + [f]| && (forall k | i <= k < |film + [f]| :: (film + [f])[k].blocking) ::
      f.at - (film + [f])[i].at <= FALLBACK_MS
    ensures NeverLong(film + [f])
  {
    var more := film + [f];
    forall i, j | 0 <= i <= j < |more| && (forall k | i <= k <= j :: more[k].blocking)
      ensures more[j].at - more[i].at <= FALLBACK_MS {
      if j < |film| { assert forall k | i <= k <= j :: film[k] == more[k]; }
    }
  }

  // ---------- every order of events ----------

  function Initial(token: Option<Token>, path: string, now: int): Gate {
    Gate(token, path, Unknown, false, None, None, [], None, now, [], [])
  }

  predicate Runs(g: Gate, es: seq<Event>)
    decreases |es|
  {
    es == [] || (Enabled(g, es[0]) && Runs(Next(g, es[0]), es[1..]))
  }

  function End(g: Gate, es: seq<Event>): Gate
    requires Runs(g, es)
    decreases |es|
  {
    if es == [] then g else End(Next(g, es[0]), es[1..])
  }

  lemma {:induction false} SoundFrom(g: Gate, es: seq<Event>)
    requires Sound(g) && Runs(g, es)
    ensures Sound(End(g, es))
    decreases |es|
  {
    hide Known, Timed, Next, Enabled;
    if es != [] {
      NextKeepsKnown(g, es[0]);
      NextKeepsTimed(g, es[0]);
      SoundFrom(Next(g, es[0]), es[1..]);
    }
  }

  /**
   In every order of events: the page is withheld only while the last thing learnt is that a
   candidate is incomplete, never for more than 4000 ms at a stretch, and two redirects in a row
   for one token have a moment without a token between them.
   */
  lemma EveryOrderIsSafe(token: Option<Token>, path: string, now: int, es: seq<Event>)
    requires Runs(Initial(token, path, now), es)
    ensures var g := End(Initial(token, path, now), es);
      && (Blocking(g) ==> Verdict(g.marks) == Incomplete && g.redirecting && !IsExempt(g.path))
      && Justified(g.marks) && Separated(g.marks) && NeverLong(g.film)
  {
    hide Runs, End, Justified, Separated, NeverLong, Verdict, LastRedirect, IsExempt;
    var g := Initial(token, path, now);
    EmptyHistory();
    assert Sound(g);
    SoundFrom(g, es);
  }

  lemma EmptyHistory()
    ensures Verdict([]) == Unknown && LastRedirect([]) == None && Justified([]) && Separated([]) && NeverLong([])
      && Since([]) == None
  {}

  /** An incomplete verdict rests on an answer of /users/me or on a refused request. */
  lemma {:induction false} VerdictHasEvidence(marks: seq<Mark>) returns (k: nat)
    requires Verdict(marks) == Incomplete
    ensures k < |marks| && (marks[k] == Said(About(marks), Incomplete) || marks[k] == Refused(About(marks)))
  {
    var n := |marks| - 1;
    if marks[n].Redirect? { k := VerdictHasEvidence(marks[..n]); } else { k := n; }
  }

  /**
   News that the candidate is incomplete does lead to the redirect and to the withheld page - the first time for
   this token, on a page that is not exempt.
   */
  lemma NewsRedirects(g: Gate, e: Event, t: Token)
    requires Sound(g) && Enabled(g, e) && g.token == Some(t) && g.fetchedFor == Some(t) && !IsExempt(g.path)
    requires g.status != Incomplete && LastRedirect(g.marks) != Some(t)
    requires e.BusIncomplete? || (e.FetchDone? && StatusFor(e.answer) == Incomplete)
    ensures var h := Next(g, e); Blocking(h) && h.marks[|h.marks| - 1] == Redirect(t) && h.timer.Some?
  {
    hide IsExempt, LastRedirect, Verdict, Justified, Separated, NeverLong, Since;
  }

  // ---------- what an answer does, and where ----------

  /** The pages left alone: the account settings, and all that begins with one of six prefixes. */
  lemma ExemptIff(path: string)
    ensures IsExempt(path) <==> path == "/profile/account" || exists p |
      p in ["/employer", "/admin", "/verify", "/candidate", "/help", "/account-deletion"] :: p <= path
  {
    var prefixes := ["/employer", "/admin", "/verify", "/candidate", "/help", "/account-deletion"];
    forall p | p in prefixes ensures StartsWith(path, p) <==> p <= path {}
    assert prefixes[0] in prefixes && prefixes[1] in prefixes && prefixes[2] in prefixes;
    assert prefixes[3] in prefixes && prefixes[4] in prefixes && prefixes[5] in prefixes;
  }

  /**
   With somebody signed in, the answer settles it: incomplete is exactly a candidate without a phone or without an
   e-mail address, complete a candidate with both, and all else does not concern the gate - other roles, failed
   fetches. With nobody signed in it does not concern the gate unless it changes nothing.
   */
  lemma AnswerDecides(g: Gate, i: nat, answer: Option<Me>)
    requires Enabled(g, FetchDone(i, answer))
    ensures var now := Next(g, FetchDone(i, answer)).status;
      var candidate := answer.Some? && answer.value.role == "CANDIDATE";
      var lacking := candidate && (answer.value.phone == None || answer.value.email == None);
      && now != Unknown
      && (now == Incomplete <==> lacking && (g.token.Some? || g.status == Incomplete))
      && (now == Complete <==> candidate && !lacking && (g.token.Some? || g.status == Complete))
  {
    hide IsExempt;
  }

  /**
   The first answer that a candidate lacks the phone or the e-mail address leads to the redirect, starts the
   4000 ms and withholds the page, on any page that is not left alone.
   */
  lemma AnswerRedirects(g: Gate, i: nat, me: Me, t: Token)
    requires Sound(g) && Enabled(g, FetchDone(i, Some(me))) && g.token == Some(t) && g.fetchedFor == Some(t)
    requires me.role == "CANDIDATE" && (me.phone == None || me.email == None) && !IsExempt(g.path)
    requires g.status != Incomplete && LastRedirect(g.marks) != Some(t)
    ensures var h := Next(g, FetchDone(i, Some(me)));
      && h.status == Incomplete && h.redirecting && h.marks[|h.marks| - 1] == Redirect(t)
      && h.timer == (if g.timer.Some? then g.timer else Some(g.now + 4000))
      && h.film[|h.film| - 1] == Frame(g.now, true)
  {
    hide IsExempt, LastRedirect, Verdict, Justified, Separated, NeverLong, Since;
  }

  /** No other answer redirects or withholds: a complete candidate, another role and a failed fetch are let through. */
  lemma OthersPass(g: Gate, i: nat, answer: Option<Me>)
    requires Enabled(g, FetchDone(i, answer))
    requires answer.Some? && answer.value.role == "CANDIDATE" ==> answer.value.phone.Some? && answer.value.email.Some?
    ensures var h := Next(g, FetchDone(i, answer));
      && !h.film[|h.film| - 1].blocking && h.redirecting == g.redirecting && h.timer == g.timer
      && forall k | |g.marks| <= k < |h.marks| :: !h.marks[k].Redirect?
  {
    hide IsExempt;
  }

  /**
   Whoever arrives signed in on a page that is not left alone is looked up, once for each token; a new token
   always is.
   */
  lemma ArrivalIsLookedUp(g: Gate, e: Event, t: Token)
    requires match e
      case Mount => g.token == Some(t)
      case Navigate(path) => g.token == Some(t) && path != g.path
      case TokenChanged(token) => token == Some(t)
      case _ => false
    requires !IsExempt(if e.Navigate? then e.path else g.path)
    ensures var h := Next(g, e);
      && h.token == Some(t) && h.fetchedFor == Some(t)
      && h.flight == (if g.fetchedFor != Some(t) || e.TokenChanged? then g.flight + [Some(t)] else g.flight)
    ensures Next(g, Refetch).flight == g.flight + [Some(t)] || g.token != Some(t)
  {
    hide IsExempt;
  }

  /** On a page that is left alone nothing is looked up unasked, nobody is redirected and nothing is withheld. */
  lemma ExemptIsLeftAlone(g: Gate, e: Event)
    requires Enabled(g, e) && IsExempt(if e.Navigate? then e.path else g.path)
    ensures var h := Next(g, e);
      && !h.film[|h.film| - 1].blocking
      && (!e.Refetch? ==> |h.flight| <= |g.flight|)
      && forall k | |g.marks| <= k < |h.marks| :: !h.marks[k].Redirect?
  {
    hide IsExempt;
  }

  /** Signing out forgets whom it was about, lets everybody through and makes the next token start anew. */
  lemma SignedOutIsForgotten(g: Gate)
    ensures var h := Next(g, TokenChanged(None));
      h.status == NotApplicable && h.fetchedFor == None && h.redirectedFor == None && !h.film[|h.film| - 1].blocking
  {
    hide IsExempt;
  }

  // ---------- about whom? ----------

  predicate SameOwner(a: Option<Token>, b: Option<Token>) {
    a.Some? && b.Some? && a.value.owner == b.value.owner
  }

  /** Whoever counts as incomplete is the one signed in. */
  ghost predicate Own(g: Gate) {
    g.status == Incomplete ==> SameOwner(About(g.marks), g.token)
  }

  /**
   Another candidate's token takes the place of the incomplete one's without a logout in between, or
   news of incompleteness comes in that was asked for under another candidate's token.
   */
  predicate Misjudges(g: Gate, e: Event)
    requires Enabled(g, e)
  {
    match e
    case StorageChanged(token) => g.status == Incomplete && !SameOwner(token, g.token)
    case TokenChanged(token) => g.status == Incomplete && token.Some? && !SameOwner(token, g.token)
    case FetchDone(i, answer) => StatusFor(answer) == Incomplete && g.token.Some? && !SameOwner(g.flight[i], g.token)
    case BusIncomplete(about) => g.token.Some? && !SameOwner(about, g.token)
    case _ => false
  }

  lemma AboutAfter(marks: seq<Mark>, m: Mark)
    ensures About(marks + [m]) == match m
      case NoToken => None
      case Said(about, _) => about
      case Refused(about) => about
      case Redirect(_) => About(marks)
  {
    LastMark(marks, m);
  }

  /** The effect adds no news; without a token it forgets what there was. */
  lemma EffectOwn(g: Gate)
    ensures Own(Effect(g)) <==> g.token == None || Own(g)
  {
    hide IsExempt, About, SameOwner;
    if g.token.Some? { AboutAfter(g.marks, Redirect(g.token.value)); }
  }

  lemma NewsOwn(g: Gate, m: Mark, status: Status)
    requires Own(g) && (m.Said? || m.Refused?)
    ensures Own(WithStatus(g, m, status)) <==> !(status == Incomplete && g.token.Some? && !SameOwner(m.about, g.token))
  {
    hide Effect, About;
    AboutAfter(g.marks, m);
    EffectOwn(Marked(g, m).(status := status));
  }

  lemma ForgottenOwn(g: Gate)
    ensures Own(Forget(g)) && Own(Effect(Forget(g)))
  {
    hide Effect;
    EffectOwn(Forget(g));
  }

  /** Every event but those keeps the evidence to the one signed in, and those never do. */
  lemma OwnIff(g: Gate, e: Event)
    requires Own(g) && Enabled(g, e)
    ensures Own(Next(g, e)) <==> !Misjudges(g, e)
  {
    hide IsExempt, About, Effect, WithStatus, Forget;
    match e
    case Mount => EffectOwn(g);
    case Navigate(path) => EffectOwn(g.(path := path));
    case TokenChanged(token) => ForgottenOwn(g.(token := token));
    case FetchDone(i, answer) =>
      NewsOwn(g.(flight := g.flight[..i] + g.flight[i + 1..]), Said(g.flight[i], StatusFor(answer)), StatusFor(answer));
    case BusIncomplete(about) => NewsOwn(g, Refused(about), Incomplete);
    case _ =>
  }

  ghost predicate AlwaysOwn(g: Gate, es: seq<Event>)
    requires Runs(g, es)
    decreases |es|
  {
    es == [] || (Own(Next(g, es[0])) && AlwaysOwn(Next(g, es[0]), es[1..]))
  }

  predicate NeverMisjudges(g: Gate, es: seq<Event>)
    requires Runs(g, es)
    decreases |es|
  {
    es == [] || (!Misjudges(g, es[0]) && NeverMisjudges(Next(g, es[0]), es[1..]))
  }

  /** In any run, only the candidate found incomplete is ever taken for incomplete exactly if no event misjudges. */
  lemma {:induction false} AlwaysOwnIff(g: Gate, es: seq<Event>)
    requires Own(g) && Runs(g, es)
    ensures AlwaysOwn(g, es) <==> NeverMisjudges(g, es)
    decreases |es|
  {
    hide Own, Next, Enabled, Misjudges;
    if es != [] {
      OwnIff(g, es[0]);
      if !Misjudges(g, es[0]) { AlwaysOwnIff(Next(g, es[0]), es[1..]); }
    }
  }

  const ADA := Token("ada", 0)
  const BOB := Token("bob", 0)

  /** Such a run: Ada signs in, Bob replaces her, her answer comes late, and Bob's page is withheld. */
  lemma LateAnswerJudgesTheWrongOne() returns (es: seq<Event>)
    ensures Runs(Initial(Some(ADA), "/jobs", 0), es)
    ensures var g := End(Initial(Some(ADA), "/jobs", 0), es);
      Blocking(g) && g.token == Some(BOB) && About(g.marks) == Some(ADA) && g.marks[|g.marks| - 1] == Redirect(BOB)
  {
    hide IsExempt, Runs, End;
    var g0 := Initial(Some(ADA), "/jobs", 0);
    var answer := Some(Me("CANDIDATE", Some("1"), None));
    JobsIsGated();
    var g1 := Next(g0, Mount);
    var g2 := Next(g1, TokenChanged(Some(BOB)));
    assert g2.flight == [Some(ADA), Some(BOB)];
    var g3 := Next(g2, FetchDone(0, answer));
    assert g3.marks == [Said(Some(ADA), Incomplete), Redirect(BOB)];
    AboutAfter([Said(Some(ADA), Incomplete)], Redirect(BOB));
    AboutAfter([], Said(Some(ADA), Incomplete));
    EmptyRun(g3);
    Prepend(g2, FetchDone(0, answer), []);
    Prepend(g1, TokenChanged(Some(BOB)), [FetchDone(0, answer)] + []);
    Prepend(g0, Mount, [TokenChanged(Some(BOB))] + ([FetchDone(0, answer)] + []));
    es := [Mount] + ([TokenChanged(Some(BOB))] + ([FetchDone(0, answer)] + []));
  }

  lemma EmptyRun(g: Gate)
    ensures Runs(g, []) && End(g, []) == g
  {}

  lemma Prepend(g: Gate, e: Event, es: seq<Event>)
    requires Enabled(g, e) && Runs(Next(g, e), es)
    ensures Runs(g, [e] + es) && End(g, [e] + es) == End(Next(g, e), es)
  {
    hide Enabled, Next;
    assert ([e] + es)[1..] == es;
  }

  lemma JobsIsGated()
    ensures !IsExempt("/jobs")
  {
    assert "/jobs"[1] == 'j';
  }

  // ---------- the component ----------

  class CandidateVerificationProvider {
    var token: Option<Token>
    var path: string
    var status: Status
    var redirecting: bool
    var fetchedForToken: Option<Token>
    var redirectedForToken: Option<Token>
    var flight: seq<Option<Token>>
    var timer: Option<int>
    var now: int
    ghost var marks: seq<Mark>
    ghost var film: seq<Frame>

    ghost function State(): Gate
      reads this
    {
      Gate(token, path, status, redirecting, fetchedForToken, redirectedForToken, flight, timer, now, marks, film)
    }

    constructor (token: Option<Token>, path: string, now: int)
      ensures State() == Initial(token, path, now)
    {
      this.token, this.path, this.now := token, path, now;
      status, redirecting, fetchedForToken, redirectedForToken, flight, timer := Unknown, false, None, None, [], None;
      marks, film := [], [];
    }

    method FetchStatus()
      modifies this
      ensures State() == Fetch(old(State()))
    {
      flight := flight + [token];
    }

    method RunEffect()
      modifies this
      ensures State() == Effect(old(State()))
    {
      if token == None {
        fetchedForToken, redirectedForToken := None, None;
        if status != NotApplicable { status := NotApplicable; }
        marks := marks + [NoToken];
        return;
      }
      if IsExempt(path) { return; }
      if fetchedForToken != token {
        fetchedForToken := token;
        FetchStatus();
        return;
      }
      if status == Incomplete && redirectedForToken != token {
        redirectedForToken := token;
        if !redirecting { timer := Some(now + FALLBACK_MS); }
        redirecting := true;
        marks := marks + [Redirect(token.value)];
      }
    }

    method SetStatus(s: Status, ghost m: Mark)
      modifies this
      ensures State() == WithStatus(old(State()), m, s)
    {
      marks := marks + [m];
      if s != status {
        status := s;
        RunEffect();
      }
    }

    /** The subscriber of the token bus. */
    method OnTokenChange(t: Option<Token>)
      modifies this
      ensures State() == Handled(old(State()), TokenChanged(t))
    {
      hide IsExempt, Effect;
      token := t;
      if t == None {
        fetchedForToken, redirectedForToken := None, None;
        SetStatus(NotApplicable, NoToken);
        return;
      }
      if IsExempt(path) { return; }
      fetchedForToken := token;
      FetchStatus();
    }

    /** One event of any kind, and the picture on the screen after it. */
    method On(e: Event)
      requires Enabled(State(), e)
      modifies this
      ensures State() == Next(old(State()), e)
    {
      hide IsExempt, Effect;
      match e {
        case Mount => RunEffect();
        case Navigate(p) => if p != path { path := p; RunEffect(); }
        case StorageChanged(t) => token := t;
        case TokenChanged(t) => OnTokenChange(t);
        case FetchDone(i, answer) =>
          ghost var about := flight[i];
          flight := flight[..i] + flight[i + 1..];
          SetStatus(StatusFor(answer), Said(about, StatusFor(answer)));
        case BusIncomplete(about) => SetStatus(Incomplete, Refused(about));
        case Refetch => FetchStatus();
        case Tick(ms) => now := now + ms;
        case TimerFires => redirecting, timer := false, None;
      }
      film := film + [Frame(now, Blocking(State()))];
    }
  }
}
