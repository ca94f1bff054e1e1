/**
 The token clients of the web app (apps/web/lib/api.ts): each keeps an access and a refresh
 token in memory and, under its own two keys, in local storage. One tab, one call after the other.
 */
module TokenClient {
  import opened Wrappers

  datatype Keys = Keys(access: string, refresh: string)

  const CANDIDATE := Keys("sp_token", "sp_refresh")
  const EMPLOYER := Keys("sp_emp_token", "sp_emp_refresh")

  type Storage = map<string, string>

  /** The variables of a client; the empty string counts as no token. */
  datatype Memory = Memory(access: Option<string>, refresh: Option<string>)

  predicate Truthy(t: Option<string>) {
    t.Some? && t.value != ""
  }

  function Item(s: Storage, key: string): Option<string> {
    if key in s then Some(s[key]) else None
  }

  function Stored(s: Storage, key: string, t: Option<string>): Storage {
    if Truthy(t) then s[key := t.value] else s - {key}
  }

  /** What is in memory is what is in storage. */
  predicate Cached(k: Keys, s: Storage, m: Memory) {
    (Truthy(m.access) ==> Item(s, k.access) == m.access) && (Truthy(m.refresh) ==> Item(s, k.refresh) == m.refresh)
  }

  /** An outer none stands for an argument left out: the refresh token stays. */
  function SetStorage(k: Keys, s: Storage, access: Option<string>, refresh: Option<Option<string>>): Storage {
    var t := Stored(s, k.access, access);
    if refresh.Some? then Stored(t, k.refresh, refresh.value) else t
  }

  function SetMemory(m: Memory, access: Option<string>, refresh: Option<Option<string>>): Memory {
    Memory(access, if refresh.Some? then refresh.value else m.refresh)
  }

  function Current(inMemory: Option<string>, s: Storage, key: string): Option<string> {
    if Truthy(inMemory) then inMemory else Item(s, key)
  }

  // ---------- one call ----------

  datatype Call = Request(bearer: Option<string>) | Refresh(token: string) | Revoke(token: string)

  /** What /auth/refresh answers: an error, or new tokens. */
  datatype RefreshAnswer = Failed | Refreshed(access: Option<string>, refresh: Option<Option<string>>)

  datatype Op =
    | SetTokens(access: Option<string>, refresh: Option<Option<string>>)
    | GetToken
    | Logout
    | Api(first: nat, answer: RefreshAnswer, second: nat)

  datatype Client = Client(keys: Keys, storage: Storage, memory: Memory)

  function WithTokens(c: Client, access: Option<string>, refresh: Option<Option<string>>): Client {
    Client(c.keys, SetStorage(c.keys, c.storage, access, refresh), SetMemory(c.memory, access, refresh))
  }

  function Token(c: Client): Option<string> {
    Current(c.memory.access, c.storage, c.keys.access)
  }

  function RefreshToken(c: Client): Option<string> {
    Current(c.memory.refresh, c.storage, c.keys.refresh)
  }

  function ReadToken(c: Client): Client {
    c.(memory := c.memory.(access := Token(c)))
  }

  function ReadRefresh(c: Client): Client {
    c.(memory := c.memory.(refresh := RefreshToken(c)))
  }

  /** Is the call repeated? Only after a 401, with a refresh token, if the refresh succeeds. */
  predicate Retries(c: Client, op: Op) {
    op.Api? && op.first == 401 && Truthy(RefreshToken(c)) && op.answer.Refreshed?
  }

  function After(c: Client, op: Op): Client {
    match op
    case SetTokens(access, refresh) => WithTokens(c, access, refresh)
    case GetToken => ReadToken(c)
    case Logout => WithTokens(c, None, Some(None))
    case Api(first, answer, _) =>
      var d := ReadToken(c);
      if first != 401 then d
      else if Retries(c, op) then ReadToken(WithTokens(ReadRefresh(d), answer.access, answer.refresh))
      else ReadRefresh(d)
  }

  function Calls(c: Client, op: Op): seq<Call> {
    match op
    case Logout => if Truthy(RefreshToken(c)) then [Revoke(RefreshToken(c).value)] else []
    case Api(first, answer, _) =>
      [Request(Token(c))]
      + (if first == 401 && Truthy(RefreshToken(c)) then [Refresh(RefreshToken(c).value)] else [])
      + (if Retries(c, op) then [Request(if Truthy(answer.access) then answer.access else None)] else [])
    case _ => []
  }

  class ApiClient {
    const keys: Keys
    var storage: Storage
    var accessToken: Option<string>
    var refreshToken: Option<string>

    function State(): Client
      reads this
    {
      Client(keys, storage, Memory(accessToken, refreshToken))
    }

    predicate Valid()
      reads this
    {
      keys.access != keys.refresh && Cached(keys, storage, Memory(accessToken, refreshToken))
    }

    constructor (keys: Keys, storage: Storage)
      requires keys.access != keys.refresh
      ensures this.keys == keys && this.storage == storage && Valid()
    {
      this.keys, this.storage, accessToken, refreshToken := keys, storage, None, None;
    }

    method DoSetTokens(access: Option<string>, refresh: Option<Option<string>>)
      requires Valid()
      modifies this
      ensures Valid() && State() == WithTokens(old(State()), access, refresh)
    {
      accessToken := access;
      if refresh.Some? { refreshToken := refresh.value; }
      if Truthy(access) { storage := storage[keys.access := access.value]; }
      else { storage := storage - {keys.access}; }
      if refresh.Some? {
        if Truthy(refresh.value) { storage := storage[keys.refresh := refresh.value.value]; }
        else { storage := storage - {keys.refresh}; }
      }
    }

    method DoGetToken() returns (t: Option<string>)
      requires Valid()
      modifies this
      ensures Valid() && State() == ReadToken(old(State()))
      ensures t == Item(storage, keys.access)
    {
      if Truthy(accessToken) { return accessToken; }
      accessToken := Item(storage, keys.access);
      t := accessToken;
    }

    method DoGetRefresh() returns (t: Option<string>)
      requires Valid()
      modifies this
      ensures Valid() && State() == ReadRefresh(old(State()))
      ensures t == Item(storage, keys.refresh)
    {
      if Truthy(refreshToken) { return refreshToken; }
      refreshToken := Item(storage, keys.refresh);
      t := refreshToken;
    }

    method DoLogout() returns (calls: seq<Call>)
      requires Valid()
      modifies this
      ensures Valid() && State() == After(old(State()), Logout) && calls == Calls(old(State()), Logout)
    {
      var rt := DoGetRefresh();
      calls := if Truthy(rt) then [Revoke(rt.value)] else [];
      DoSetTokens(None, Some(None));
    }

    method TryRefresh(answer: RefreshAnswer) returns (ok: bool, calls: seq<Call>)
      requires Valid()
      modifies this
      ensures Valid() && ok == (Truthy(RefreshToken(old(State()))) && answer.Refreshed?)
      ensures State() == if ok then WithTokens(ReadRefresh(old(State())), answer.access, answer.refresh)
        else ReadRefresh(old(State()))
      ensures calls == if Truthy(RefreshToken(old(State()))) then [Refresh(RefreshToken(old(State())).value)] else []
    {
      var rt := DoGetRefresh();
      if !Truthy(rt) { return false, []; }
      calls := [Refresh(rt.value)];
      if answer == Failed { return false, calls; }
      DoSetTokens(answer.access, answer.refresh);
      ok := true;
    }

    /** `first` and `second` are the statuses that the server would answer; the status of the last request counts. */
    method DoApi(first: nat, answer: RefreshAnswer, second: nat) returns (status: nat, calls: seq<Call>)
      requires Valid()
      modifies this
      ensures Valid() && State() == After(old(State()), Api(first, answer, second))
      ensures calls == Calls(old(State()), Api(first, answer, second))
      ensures status == if Retries(old(State()), Api(first, answer, second)) then second else first
    {
      var t := DoGetToken();
      status, calls := first, [Request(t)];
      if status == 401 {
        var ok, more := TryRefresh(answer);
        calls := calls + more;
        if ok {
          t := DoGetToken();
          status, calls := second, calls + [Request(t)];
        }
      }
    }
  }

  // ---------- what holds of every call, and of two clients ----------

  predicate Sound(c: Client) {
    c.keys.access != c.keys.refresh && Cached(c.keys, c.storage, c.memory)
  }

  lemma AfterKeepsSound(c: Client, op: Op)
    requires Sound(c)
    ensures Sound(After(c, op)) && After(c, op).keys == c.keys
    ensures forall key | key != c.keys.access && key != c.keys.refresh ::
      Item(After(c, op).storage, key) == Item(c.storage, key)
  {}

  /**
   One request, and after a 401 with a refresh token stored one refresh, and if that succeeds one more request: no more
   and no less. Each carries what is stored: the second request the token that the refresh has brought.
   */
  lemma OneRefreshTwoRequests(c: Client, op: Op)
    requires Sound(c) && op.Api?
    ensures var calls, stored := Calls(c, op), Item(c.storage, c.keys.refresh);
      && 1 <= |calls| <= 3 && calls[0] == Request(Item(c.storage, c.keys.access))
      && (|calls| >= 2 <==> op.first == 401 && stored.Some? && stored.value != "")
      && (|calls| >= 2 ==> calls[1] == Refresh(stored.value))
      && (|calls| == 3 <==> op.first == 401 && stored.Some? && stored.value != "" && op.answer.Refreshed?)
      && (|calls| == 3 ==> calls[2] == Request(Item(After(c, op).storage, c.keys.access)))
      && (|calls| == 3 && Truthy(op.answer.access) ==> calls[2] == Request(op.answer.access))
  {}

  /** What is set is what is read back, an empty token like none; a refresh token left out stays. */
  lemma TokensReadBack(c: Client, access: Option<string>, refresh: Option<Option<string>>)
    requires Sound(c)
    ensures var d := After(c, SetTokens(access, refresh));
      && Item(d.storage, c.keys.access) == (if access == Some("") then None else access)
      && Item(d.storage, c.keys.refresh) == (match refresh
          case None => Item(c.storage, c.keys.refresh)
          case Some(t) => if t == Some("") then None else t)
      && Token(d) == Item(d.storage, c.keys.access) && RefreshToken(d) == Item(d.storage, c.keys.refresh)
  {}

  /** Requests change the stored tokens only by a refresh that succeeds, to those it brings. */
  lemma OnlyRefreshesStore(c: Client, op: Op)
    requires Sound(c) && (op.Api? || op.GetToken?)
    ensures var refreshed := op.Api? && |Calls(c, op)| == 3;
      After(c, op).storage
        == if refreshed then After(c, SetTokens(op.answer.access, op.answer.refresh)).storage else c.storage
  {}

  /** A logout hands the refresh token in for revocation and leaves no token anywhere. */
  lemma LogoutForgets(c: Client)
    requires Sound(c)
    ensures var d := After(c, Logout);
      Token(d) == RefreshToken(d) == None && d.storage == c.storage - {c.keys.access, c.keys.refresh}
    ensures Calls(c, Logout)
      == if Truthy(Item(c.storage, c.keys.refresh)) then [Revoke(c.storage[c.keys.refresh])] else []
  {}

  datatype Tab = Tab(storage: Storage, candidate: Memory, employer: Memory)

  datatype Which = Candidate | Employer

  function Part(t: Tab, w: Which): Client {
    match w
    case Candidate => Client(CANDIDATE, t.storage, t.candidate)
    case Employer => Client(EMPLOYER, t.storage, t.employer)
  }

  function Step(t: Tab, w: Which, op: Op): Tab {
    var c := After(Part(t, w), op);
    match w
    case Candidate => Tab(c.storage, c.memory, t.employer)
    case Employer => Tab(c.storage, t.candidate, c.memory)
  }

  function Run(t: Tab, ops: seq<(Which, Op)>): Tab
    decreases |ops|
  {
    if ops == [] then t else Run(Step(t, ops[0].0, ops[0].1), ops[1..])
  }

  function Other(w: Which): Which {
    if w == Candidate then Employer else Candidate
  }

  /** The same to a client: its variables, and what is stored under its two keys. */
  predicate Alike(c: Client, d: Client) {
    c.keys == d.keys && c.memory == d.memory
    && Item(c.storage, c.keys.access) == Item(d.storage, c.keys.access)
    && Item(c.storage, c.keys.refresh) == Item(d.storage, c.keys.refresh)
  }

  lemma AfterAlike(c: Client, d: Client, op: Op)
    requires Alike(c, d)
    ensures Alike(After(c, op), After(d, op)) && Calls(c, op) == Calls(d, op)
  {}

  lemma StepIsPrivate(t: Tab, w: Which, op: Op)
    requires Sound(Part(t, Candidate)) && Sound(Part(t, Employer))
    ensures var u := Step(t, w, op);
      Sound(Part(u, Candidate)) && Sound(Part(u, Employer)) && Alike(Part(u, Other(w)), Part(t, Other(w)))
  {
    hide After, Cached, SetStorage;
    AfterKeepsSound(Part(t, w), op);
    SameItems(Part(t, Other(w)), After(Part(t, w), op).storage);
  }

  lemma SameItems(c: Client, s: Storage)
    requires Alike(c, c.(storage := s))
    ensures Cached(c.keys, s, c.memory) == Cached(c.keys, c.storage, c.memory)
  {}

  function OpsOf(ops: seq<(Which, Op)>, w: Which): seq<Op>
    decreases |ops|
  {
    if ops == [] then [] else (if ops[0].0 == w then [ops[0].1] else []) + OpsOf(ops[1..], w)
  }

  function RunOne(c: Client, ops: seq<Op>): Client
    decreases |ops|
  {
    if ops == [] then c else RunOne(After(c, ops[0]), ops[1..])
  }

  lemma {:induction false} RunOneAlike(c: Client, d: Client, ops: seq<Op>)
    requires Alike(c, d)
    ensures Alike(RunOne(c, ops), RunOne(d, ops))
    decreases |ops|
  {
    hide After, Alike;
    if ops != [] {
      AfterAlike(c, d, ops[0]);
      RunOneAlike(After(c, ops[0]), After(d, ops[0]), ops[1..]);
    }
  }

  /**
   In every run over both clients each one's getToken is what is stored under its own key, and all it has is as
   if it had been alone.
   */
  lemma {:induction false} ClientsAreApart(t: Tab, ops: seq<(Which, Op)>, w: Which)
    requires Sound(Part(t, Candidate)) && Sound(Part(t, Employer))
    ensures Token(Part(Run(t, ops), w)) == Item(Run(t, ops).storage, Part(t, w).keys.access)
    ensures Alike(Part(Run(t, ops), w), RunOne(Part(t, w), OpsOf(ops, w)))
    decreases |ops|
  {
    hide After;
    if ops != [] {
      var (v, op) := ops[0];
      var u := Step(t, v, op);
      StepIsPrivate(t, v, op);
      ClientsAreApart(u, ops[1..], w);
      var rest := OpsOf(ops[1..], w);
      if v == w {
        AfterKeepsSound(Part(t, w), op);
        assert Part(u, w) == After(Part(t, w), op);
        assert OpsOf(ops, w)[1..] == rest;
      } else {
        assert OpsOf(ops, w) == rest;
        RunOneAlike(Part(u, w), Part(t, w), rest);
      }
    }
  }
}
