/**
 Object URLs of images fetched behind authentication
 (apps/web/lib/useOrgLogo.ts, and apps/web/components/CandidateAvatar.tsx keyed by profile):
 made when a fetch answers, revoked when the properties change or the component goes.
 React runs an effect some time after the render it belongs to, so rendering and running
 the effect are two events here; it does run before the next render or the removal.
 */
module ObjectUrls {
  import opened Wrappers

  /** The dependencies of the effect: whose image, and whether there is one. The logo hook has a single `id`. */
  datatype Prop = Prop(id: string, has: bool)

  /** One fetch, with the `cancelled` flag of the effect run that started it. */
  datatype Fetch = Fetch(prop: Prop, cancelled: bool, settled: bool)

  /**
   URLs are numbered as they are created; `created[u]` says whose image URL `u` is, `revoked` is the log of
   revocations.
   */
  datatype Hook = Hook(mounted: bool, rendered: Prop, ran: Option<Prop>, urlRef: Option<nat>, shown: Option<nat>,
    fetches: seq<Fetch>, created: seq<Prop>, revoked: seq<nat>)

  datatype Event = Render(prop: Prop) | RunEffect | Resolve(i: nat) | Reject(i: nat) | Unmount

  /** The effect still has to run for what has been rendered. */
  predicate Pending(h: Hook) {
    h.ran != Some(h.rendered)
  }

  predicate Enabled(h: Hook, e: Event) {
    match e
    case Render(_) => h.mounted && !Pending(h)
    case RunEffect => h.mounted && Pending(h)
    case Resolve(i) => i < |h.fetches| && !h.fetches[i].settled
    case Reject(i) => i < |h.fetches| && !h.fetches[i].settled
    case Unmount => h.mounted && !Pending(h)
  }

  /** The cleanup of the last effect run; a run that fetched nothing has none, and cancelling twice is harmless. */
  function Cancelled(fetches: seq<Fetch>): seq<Fetch> {
    if fetches == [] then [] else fetches[|fetches| - 1 := fetches[|fetches| - 1].(cancelled := true)]
  }

  function Revoked(h: Hook): seq<nat> {
    if h.urlRef.Some? then h.revoked + [h.urlRef.value] else h.revoked
  }

  function Next(h: Hook, e: Event): Hook
    requires Enabled(h, e)
  {
    match e
    case Render(prop) => h.(rendered := prop)
    case RunEffect =>
      var fetches := Cancelled(h.fetches);
      h.(ran := Some(h.rendered), revoked := Revoked(h), urlRef := None, shown := None,
         fetches := if h.rendered.has then fetches + [Fetch(h.rendered, false, false)] else fetches)
    case Resolve(i) =>
      var f := h.fetches[i];
      var g := h.(fetches := h.fetches[i := f.(settled := true)]);
      if f.cancelled then g
      else g.(created := h.created + [f.prop], urlRef := Some(|h.created|), shown := Some(|h.created|))
    case Reject(i) => h.(fetches := h.fetches[i := h.fetches[i].(settled := true)])
    case Unmount => h.(mounted := false, fetches := Cancelled(h.fetches), revoked := Revoked(h), shown := None)
  }

  function Mounted(prop: Prop): Hook {
    Hook(true, prop, None, None, None, [], [], [])
  }

  // ---------- live URLs ----------

  predicate Live(h: Hook, u: nat) {
    u < |h.created| && u !in h.revoked
  }

  /**
   Only the last fetch can still matter: it is for what the effect last ran for, and has not made a URL yet if
   it is open.
   */
  ghost predicate OneFetch(h: Hook) {
    forall i | 0 <= i < |h.fetches| && !h.fetches[i].cancelled ::
      i == |h.fetches| - 1 && h.mounted && h.ran == Some(h.fetches[i].prop) && h.fetches[i].prop.has
        && (!h.fetches[i].settled ==> h.urlRef == None)
  }

  ghost predicate Sound(h: Hook) {
    && OneFetch(h)
    && (h.ran == None ==> h.mounted && h.urlRef == None && h.fetches == [])
    // while mounted, the fetch for what the effect last ran for is not cancelled
    && (h.mounted && h.ran.Some? && h.ran.value.has ==> h.fetches != [] && !h.fetches[|h.fetches| - 1].cancelled)
    // the one live URL is the one shown, and it shows what the effect last ran for
    && (forall u: nat :: Live(h, u) <==> h.mounted && h.urlRef == Some(u))
    && (h.shown == if h.mounted then h.urlRef else None)
    && (h.mounted && h.urlRef.Some? ==> h.urlRef.value < |h.created| && h.ran == Some(h.created[h.urlRef.value]))
    // nothing is revoked twice, or before it was created
    && (forall i, j | 0 <= i < j < |h.revoked| :: h.revoked[i] != h.revoked[j])
    && (forall i | 0 <= i < |h.revoked| :: h.revoked[i] < |h.created|)
  }

  /** Revoking the URL in `urlRef`, if any, leaves none live and none revoked twice. */
  lemma RevokedIsDead(h: Hook, u: nat)
    requires Sound(h) && h.mounted
    ensures var r := Revoked(h);
      && (u < |h.created| ==> u in r)
      && (forall i, j | 0 <= i < j < |r| :: r[i] != r[j])
      && (forall i | 0 <= i < |r| :: r[i] < |h.created|)
  {
    if h.urlRef.Some? { assert Live(h, h.urlRef.value); }
    assert Live(h, u) <==> h.urlRef == Some(u);
  }

  lemma NextKeepsSound(h: Hook, e: Event)
    requires Sound(h) && Enabled(h, e)
    ensures Sound(Next(h, e))
  {
    if e.RunEffect? || e.Unmount? {
      forall u: nat ensures !Live(Next(h, e), u) { RevokedIsDead(h, u); }
      RevokedIsDead(h, 0);
    } else {
      forall u: nat ensures Live(Next(h, e), u) <==> Next(h, e).mounted && Next(h, e).urlRef == Some(u) {
        assert Live(h, u) <==> h.mounted && h.urlRef == Some(u);
      }
    }
  }

  // ---------- every order of events ----------

  predicate Runs(h: Hook, es: seq<Event>)
    decreases |es|
  {
    es == [] || (Enabled(h, es[0]) && Runs(Next(h, es[0]), es[1..]))
  }

  function End(h: Hook, es: seq<Event>): Hook
    requires Runs(h, es)
    decreases |es|
  {
    if es == [] then h else End(Next(h, es[0]), es[1..])
  }

  lemma {:induction false} SoundFrom(h: Hook, es: seq<Event>)
    requires Sound(h) && Runs(h, es)
    ensures Sound(End(h, es))
    decreases |es|
  {
    hide Sound, Enabled, Next;
    if es != [] {
      NextKeepsSound(h, es[0]);
      SoundFrom(Next(h, es[0]), es[1..]);
    }
  }

  ghost predicate RevokedOnce(h: Hook, u: nat) {
    exists k | 0 <= k < |h.revoked| ::
      h.revoked[k] == u && forall j | 0 <= j < |h.revoked| && j != k :: h.revoked[j] != u
  }

  /**
   However renders, effects, answers and failures fall: at most one URL is live, the one on
   the screen; every other URL made so far has been revoked, once; after removal all have.
   The image is the current profile's, except in the moment between a render with other
   properties and its effect.
   */
  lemma EveryUrlIsRevokedOnce(prop: Prop, es: seq<Event>)
    requires Runs(Mounted(prop), es)
    ensures var h := End(Mounted(prop), es);
      && (forall u: nat | u < |h.created| :: (h.shown == Some(u) && u !in h.revoked) != RevokedOnce(h, u))
      && (!h.mounted ==> h.shown == None)
      && (h.shown.Some? ==> h.shown.value < |h.created| && (h.created[h.shown.value] == h.rendered <==> !Pending(h)))
  {
    hide Runs, End;
    var h := End(Mounted(prop), es);
    SoundFrom(Mounted(prop), es);
    forall u: nat | u < |h.created| ensures (h.shown == Some(u) && u !in h.revoked) != RevokedOnce(h, u) {
      assert Live(h, u) <==> h.mounted && h.urlRef == Some(u);
      if u in h.revoked {
        var k :| 0 <= k < |h.revoked| && h.revoked[k] == u;
        forall j | 0 <= j < |h.revoked| && j != k ensures h.revoked[j] != u { Apart(h, j, k); }
        assert RevokedOnce(h, u);
      }
    }
  }

  lemma Apart(h: Hook, j: nat, k: nat)
    requires Sound(h) && j < |h.revoked| && k < |h.revoked| && j != k
    ensures h.revoked[j] != h.revoked[k]
  {
    assert j < k ==> h.revoked[j] != h.revoked[k];
    assert k < j ==> h.revoked[k] != h.revoked[j];
  }

  /**
   And such a moment comes: one profile's image has arrived, the component is rendered for another profile, the
   effect is still to run.
   */
  lemma OldImageUnderNewName(first: Prop, second: Prop) returns (es: seq<Event>)
    requires first.has && first != second
    ensures Runs(Mounted(first), es)
    ensures var h := End(Mounted(first), es);
      h.mounted && h.rendered == second && Pending(h) && h.shown == Some(0) && h.created == [first]
  {
    hide Runs, End;
    var h0 := Mounted(first);
    var h1 := Next(h0, RunEffect);
    assert h1.fetches == [Fetch(first, false, false)];
    var h2 := Next(h1, Resolve(0));
    assert h2.created == [first] && h2.ran == Some(first);
    var h3 := Next(h2, Render(second));
    EmptyRun(h3);
    Prepend(h2, Render(second), []);
    Prepend(h1, Resolve(0), [Render(second)] + []);
    Prepend(h0, RunEffect, [Resolve(0)] + ([Render(second)] + []));
    es := [RunEffect] + ([Resolve(0)] + ([Render(second)] + []));
  }

  lemma EmptyRun(h: Hook)
    ensures Runs(h, []) && End(h, []) == h
  {}

  lemma Prepend(h: Hook, e: Event, es: seq<Event>)
    requires Enabled(h, e) && Runs(Next(h, e), es)
    ensures Runs(h, [e] + es) && End(h, [e] + es) == End(Next(h, e), es)
  {
    hide Enabled, Next;
    assert ([e] + es)[1..] == es;
  }

  /**
   And the image does come: in any order of events, once the effect has run for a profile with an image, the
   answer of its fetch puts that image on the screen.
   */
  lemma CurrentImageArrives(prop: Prop, es: seq<Event>)
    requires Runs(Mounted(prop), es)
    requires var h := End(Mounted(prop), es); h.mounted && !Pending(h) && h.rendered.has
    ensures var h := End(Mounted(prop), es); var i := |h.fetches| - 1;
      && h.fetches != [] && h.fetches[i].prop == h.rendered
      && (!h.fetches[i].settled ==>
            Enabled(h, Resolve(i)) &&
            var after := Next(h, Resolve(i));
              after.shown == Some(|h.created|) && after.created == h.created + [h.rendered])
  {
    hide Runs, End;
    SoundFrom(Mounted(prop), es);
  }

  // ---------- the hook ----------

  class AvatarHook {
    var mounted: bool
    var prop: Prop
    var ran: Option<Prop>
    var urlRef: Option<nat>
    var url: Option<nat>
    var fetches: seq<Fetch>
    ghost var created: seq<Prop>
    var nextUrl: nat
    ghost var revoked: seq<nat>

    ghost function State(): Hook
      reads this
    {
      Hook(mounted, prop, ran, urlRef, url, fetches, created, revoked)
    }

    constructor (prop: Prop)
      ensures State() == Mounted(prop) && nextUrl == 0
    {
      mounted, this.prop, ran, urlRef, url, fetches, nextUrl := true, prop, None, None, None, [], 0;
      created, revoked := [], [];
    }

    method CreateObjectURL(f: Fetch) returns (u: nat)
      requires nextUrl == |created|
      modifies this`nextUrl, this`created
      ensures u == |old(created)| && created == old(created) + [f.prop] && nextUrl == |created|
    {
      u := nextUrl;
      nextUrl := nextUrl + 1;
      created := created + [f.prop];
    }

    method RevokeCurrent()
      modifies this`revoked
      ensures revoked == Revoked(old(State()))
    {
      if urlRef.Some? { revoked := revoked + [urlRef.value]; }
    }

    /** The cleanup the last run returned, then the effect. */
    method Effect()
      requires Enabled(State(), RunEffect) && nextUrl == |created|
      modifies this
      ensures State() == Next(old(State()), RunEffect) && nextUrl == |created|
    {
      fetches := Cancelled(fetches);
      RevokeCurrent();
      urlRef, url, ran := None, None, Some(prop);
      if prop.has { fetches := fetches + [Fetch(prop, false, false)]; }
    }

    /** The fetch's `.then`. */
    method OnBlob(i: nat)
      requires Enabled(State(), Resolve(i)) && nextUrl == |created|
      modifies this
      ensures State() == Next(old(State()), Resolve(i)) && nextUrl == |created|
    {
      var f := fetches[i];
      fetches := fetches[i := f.(settled := true)];
      if f.cancelled { return; }
      var u := CreateObjectURL(f);
      urlRef, url := Some(u), Some(u);
    }

    /** Both cleanups. */
    method OnUnmount()
      requires Enabled(State(), Unmount) && nextUrl == |created|
      modifies this
      ensures State() == Next(old(State()), Unmount) && nextUrl == |created|
    {
      mounted, url, fetches := false, None, Cancelled(fetches);
      RevokeCurrent();
    }
  }
}
