/**
 The in-memory rate limiter (apps/api/src/common/ip-rate-limiter.ts): three numbers per
 key stand for the whole history of accepted hits. The clock never goes backwards.
 */
module RateLimiter {
  import opened Wrappers

  datatype Config = Config(cooldownMs: int, maxPerWindow: int, windowMs: int)

  datatype RateEntry = RateEntry(count: int, windowStart: int, lastAt: int)

  // ---------- the limiter on the full log of accepted hits ----------

  /** Where the current window begins: at the first hit accepted once the one before was over. */
  function WindowStart(c: Config, log: seq<int>): int
    requires log != []
  {
    var last, front := log[|log| - 1], log[..|log| - 1];
    if front == [] || last - WindowStart(c, front) >= c.windowMs then last else WindowStart(c, front)
  }

  function CountIn(log: seq<int>, lo: int, hi: int): nat {
    if log == [] then 0
    else CountIn(log[..|log| - 1], lo, hi) + if lo <= log[|log| - 1] < hi then 1 else 0
  }

  /** How many hits the current window holds. */
  function InWindow(c: Config, log: seq<int>): (n: nat)
    requires log != []
    ensures n >= 1
  {
    var last, front := log[|log| - 1], log[..|log| - 1];
    if StartsWindow(c, front, last) then 1 else InWindow(c, front) + 1
  }

  predicate StartsWindow(c: Config, log: seq<int>, now: int) {
    log == [] || now - WindowStart(c, log) >= c.windowMs
  }

  predicate Accepts(c: Config, log: seq<int>, now: int) {
    StartsWindow(c, log, now) || (now - log[|log| - 1] >= c.cooldownMs && InWindow(c, log) < c.maxPerWindow)
  }

  /** A log of accepted hits as the limiter can have produced it. */
  predicate ValidLog(c: Config, log: seq<int>) {
    log == [] || (var last, front := log[|log| - 1], log[..|log| - 1];
      ValidLog(c, front) && (front != [] ==> front[|front| - 1] <= last) && Accepts(c, front, last))
  }

  function Summary(c: Config, log: seq<int>): Option<RateEntry> {
    if log == [] then None else Some(RateEntry(InWindow(c, log), WindowStart(c, log), log[|log| - 1]))
  }

  lemma {:induction false} CountSplits(log: seq<int>, lo: int, mid: int, hi: int)
    requires lo <= mid <= hi
    ensures CountIn(log, lo, hi) == CountIn(log, lo, mid) + CountIn(log, mid, hi)
  {
    if log != [] { CountSplits(log[..|log| - 1], lo, mid, hi); }
  }

  lemma {:induction false} CountGrows(log: seq<int>, lo: int, hi: int, lo': int, hi': int)
    requires lo' <= lo && hi <= hi'
    ensures CountIn(log, lo, hi) <= CountIn(log, lo', hi')
  {
    if log != [] { CountGrows(log[..|log| - 1], lo, hi, lo', hi'); }
  }

  /** The log is sorted, so nothing lies beyond its last entry. */
  lemma {:induction false} NothingBeyond(c: Config, log: seq<int>, lo: int, hi: int)
    requires ValidLog(c, log) && log != [] && log[|log| - 1] < lo
    ensures CountIn(log, lo, hi) == 0
  {
    var front := log[..|log| - 1];
    if front != [] { NothingBeyond(c, front, lo, hi); }
  }

  lemma {:induction false} StartBeforeLast(c: Config, log: seq<int>)
    requires ValidLog(c, log) && log != []
    ensures WindowStart(c, log) <= log[|log| - 1]
    ensures c.windowMs > 0 ==> log[|log| - 1] < WindowStart(c, log) + c.windowMs
  {
    var front := log[..|log| - 1];
    if front != [] { StartBeforeLast(c, front); }
  }

  /** The number the entry carries is the number of hits in the log since its window began. */
  lemma {:induction false} InWindowCounts(c: Config, log: seq<int>)
    requires ValidLog(c, log) && log != [] && c.windowMs > 0
    ensures InWindow(c, log) == CountIn(log, WindowStart(c, log), log[|log| - 1] + 1)
  {
    var last, front := log[|log| - 1], log[..|log| - 1];
    if front != [] {
      StartBeforeLast(c, front);
      InWindowCounts(c, front);
      if StartsWindow(c, front, last) {
        NothingBeyond(c, front, last, last + 1);
      } else {
        CountSplits(front, WindowStart(c, front), front[|front| - 1] + 1, last + 1);
        NothingBeyond(c, front, front[|front| - 1] + 1, last + 1);
      }
    }
  }

  /** The three numbers decide as the log does ... */
  lemma SummaryDecides(c: Config, log: seq<int>, e: RateEntry, now: int)
    requires log != [] && Summary(c, log) == Some(e)
    ensures StartsWindow(c, log, now) <==> now - e.windowStart >= c.windowMs
    ensures Accepts(c, log, now)
      <==> now - e.windowStart >= c.windowMs || (now - e.lastAt >= c.cooldownMs && e.count < c.maxPerWindow)
  {}

  /** ... and are kept up by the two updates the limiter makes. */
  lemma SummaryAfter(c: Config, log: seq<int>, now: int)
    requires ValidLog(c, log) && Accepts(c, log, now) && (log != [] ==> log[|log| - 1] <= now)
    ensures ValidLog(c, log + [now])
    ensures Summary(c, log + [now]) == Some(if StartsWindow(c, log, now) then RateEntry(1, now, now)
                                            else RateEntry(InWindow(c, log) + 1, WindowStart(c, log), now))
  {
    hide WindowStart, InWindow;
    assert (log + [now])[..|log|] == log;
    OneMoreHit(c, log, now);
  }

  lemma OneMoreHit(c: Config, log: seq<int>, now: int)
    ensures var more := log + [now];
      && WindowStart(c, more) == (if StartsWindow(c, log, now) then now else WindowStart(c, log))
      && InWindow(c, more) == (if StartsWindow(c, log, now) then 1 else InWindow(c, log) + 1)
  {
    assert (log + [now])[..|log|] == log;
  }

  // ---------- the class ----------

  class InMemoryRateLimiter {
    const c: Config
    var store: map<string, RateEntry>
    ghost var logs: map<string, seq<int>>

    /** Every stored entry sums up that key's log of accepted hits; `now` is the latest clock reading. */
    ghost predicate Valid(now: int)
      reads this
    {
      store.Keys == logs.Keys
      && forall k | k in store ::
        logs[k] != [] && ValidLog(c, logs[k]) && logs[k][|logs[k]| - 1] <= now && Summary(c, logs[k]) == Some(store[k])
    }

    constructor (cooldownMs: int, maxPerWindow: int, windowMs: int)
      ensures c == Config(cooldownMs, maxPerWindow, windowMs) && store == map[] && logs == map[]
      ensures forall now: int :: Valid(now)
    {
      c, store, logs := Config(cooldownMs, maxPerWindow, windowMs), map[], map[];
    }

    /** Decides as the full log would; a refused hit leaves no trace, an accepted one touches its own key only. */
    method Hit(key: string, now: int, ghost before: int) returns (accepted: bool)
      requires Valid(before) && before <= now
      modifies this
      ensures Valid(now)
      ensures accepted == Accepts(c, LogOf(old(logs), key), now)
      ensures logs == PlayedAll(c, old(logs), [(key, now)])
      ensures !accepted ==> store == old(store)
    {
      hide Accepts, StartsWindow, ValidLog, Summary;
      ghost var log, more := LogOf(logs, key), LogOf(logs, key) + [now];
      NewLog(c, now);
      if key in store { LogEnd(c, log, store[key]); SummaryDecides(c, log, store[key], now); }
      if Accepts(c, log, now) { SummaryAfter(c, log, now); }
      if key !in store || now - store[key].windowStart >= c.windowMs {
        store := store[key := RateEntry(1, now, now)];
        logs := logs[key := more];
        return true;
      }
      var entry := store[key];
      if now - entry.lastAt < c.cooldownMs { return false; }
      if entry.count >= c.maxPerWindow { return false; }
      store := store[key := entry.(count := entry.count + 1, lastAt := now)];
      logs := logs[key := more];
      return true;
    }
  }

  lemma NewLog(c: Config, now: int)
    ensures ValidLog(c, []) && Accepts(c, [], now) && StartsWindow(c, [], now)
  {}

  lemma LogEnd(c: Config, log: seq<int>, e: RateEntry)
    requires log != [] && Summary(c, log) == Some(e)
    ensures e == RateEntry(InWindow(c, log), WindowStart(c, log), log[|log| - 1])
  {}

  /** What the class does to the logs, as one function: other keys are not looked at. */
  function LogOf(logs: map<string, seq<int>>, key: string): seq<int> {
    if key in logs then logs[key] else []
  }

  function Played(c: Config, log: seq<int>, times: seq<int>): seq<int>
    decreases |times|
  {
    if times == [] then log else Played(c, if Accepts(c, log, times[0]) then log + [times[0]] else log, times[1..])
  }

  function PlayedAll(c: Config, logs: map<string, seq<int>>, hits: seq<(string, int)>): map<string, seq<int>>
    decreases |hits|
  {
    if hits == [] then logs
    else
      var (key, now) := hits[0];
      PlayedAll(c, if Accepts(c, LogOf(logs, key), now) then logs[key := LogOf(logs, key) + [now]] else logs, hits[1..])
  }

  function TimesOf(hits: seq<(string, int)>, key: string): seq<int>
    decreases |hits|
  {
    if hits == [] then [] else (if hits[0].0 == key then [hits[0].1] else []) + TimesOf(hits[1..], key)
  }

  /** For each key, a run over many keys is the run of that key's hits alone. */
  lemma {:induction false} KeysAreIndependent(c: Config, logs: map<string, seq<int>>, hits: seq<(string, int)>,
    key: string)
    ensures LogOf(PlayedAll(c, logs, hits), key) == Played(c, LogOf(logs, key), TimesOf(hits, key))
    decreases |hits|
  {
    hide Accepts;
    if hits != [] {
      var (k, now) := hits[0];
      var next := if Accepts(c, LogOf(logs, k), now) then logs[k := LogOf(logs, k) + [now]] else logs;
      KeysAreIndependent(c, next, hits[1..], key);
      var rest := TimesOf(hits[1..], key);
      if k == key { assert TimesOf(hits, key)[1..] == rest; } else { assert TimesOf(hits, key) == rest; }
    }
  }

  // ---------- what the limit is worth ----------

  /** The first hit of a window is accepted whatever the cap is. */
  function Cap(c: Config): (n: nat)
    ensures n >= 1
  {
    if c.maxPerWindow > 1 then c.maxPerWindow else 1
  }

  lemma {:induction false} WindowIsCapped(c: Config, log: seq<int>)
    requires ValidLog(c, log) && log != []
    ensures InWindow(c, log) <= Cap(c)
  {
    if |log| > 1 { WindowIsCapped(c, log[..|log| - 1]); }
  }

  /** After the window's first hit, at most Cap - 1 others. */
  lemma AfterTheAnchor(c: Config, log: seq<int>, lo: int, hi: int)
    requires ValidLog(c, log) && log != [] && c.windowMs > 0 && WindowStart(c, log) < lo
    ensures CountIn(log, lo, hi) <= Cap(c) - 1
  {
    var w, last := WindowStart(c, log), log[|log| - 1];
    StartBeforeLast(c, log);
    InWindowCounts(c, log);
    WindowIsCapped(c, log);
    AnchorIsCounted(c, log);
    if last + 1 >= lo {
      CountSplits(log, w, w + 1, last + 1);
      CountGrows(log, lo, last + 1, w + 1, last + 1);
      if hi > last + 1 {
        CountSplits(log, lo, last + 1, hi);
        NothingBeyond(c, log, last + 1, hi);
      } else {
        CountGrows(log, lo, hi, lo, last + 1);
      }
    } else {
      NothingBeyond(c, log, lo, hi);
    }
  }

  lemma {:induction false} AnchorIsCounted(c: Config, log: seq<int>)
    requires ValidLog(c, log) && log != []
    ensures CountIn(log, WindowStart(c, log), WindowStart(c, log) + 1) >= 1
  {
    if |log| > 1 { AnchorIsCounted(c, log[..|log| - 1]); }
  }

  /** Just before a window begins, too, only hits of the window before it, without its first one. */
  lemma {:induction false} BeforeTheAnchor(c: Config, log: seq<int>, lo: int)
    requires ValidLog(c, log) && log != [] && c.windowMs > 0
    requires WindowStart(c, log) - c.windowMs < lo <= WindowStart(c, log)
    ensures CountIn(log, lo, WindowStart(c, log)) <= Cap(c) - 1
  {
    var last, front := log[|log| - 1], log[..|log| - 1];
    if front != [] {
      if StartsWindow(c, front, last) {
        AfterTheAnchor(c, front, lo, last);
      } else {
        StartBeforeLast(c, front);
        BeforeTheAnchor(c, front, lo);
      }
    }
  }

  /**
   In any stretch of time as long as a window, no more than twice the cap less one - not, as the class comment
   says, the cap.
   */
  lemma {:induction false} RollingBound(c: Config, log: seq<int>, t: int)
    requires ValidLog(c, log)
    ensures CountIn(log, t, t + c.windowMs) <= 2 * Cap(c) - 1
  {
    if c.windowMs <= 0 {
      EmptyStretch(log, t, t + c.windowMs);
    } else if log != [] {
      var w, last, front := WindowStart(c, log), log[|log| - 1], log[..|log| - 1];
      StartBeforeLast(c, log);
      if last >= t + c.windowMs || last < t {
        RollingBound(c, front, t);
      } else if w < t {
        AfterTheAnchor(c, log, t, t + c.windowMs);
      } else {
        CountSplits(log, t, w, t + c.windowMs);
        BeforeTheAnchor(c, log, t);
        InWindowCounts(c, log);
        WindowIsCapped(c, log);
        CountSplits(log, w, last + 1, t + c.windowMs);
        NothingBeyond(c, log, last + 1, t + c.windowMs);
      }
    }
  }

  lemma {:induction false} EmptyStretch(log: seq<int>, lo: int, hi: int)
    requires hi <= lo
    ensures CountIn(log, lo, hi) == 0
  {
    if log != [] { EmptyStretch(log[..|log| - 1], lo, hi); }
  }

  // ---------- how crowded a stretch can get ----------

  /** The time that `n` hits take, each a cooldown after the one before. */
  function Room(c: Config, n: int): int {
    (n - 1) * c.cooldownMs
  }

  lemma RoomGrows(c: Config, n: int)
    ensures Room(c, 1) == 0 && Room(c, n + 1) == Room(c, n) + c.cooldownMs
  {
    OneMoreGap(n, c.cooldownMs);
  }

  lemma OneMoreGap(n: int, d: int)
    ensures n * d == (n - 1) * d + d
  {}

  /** Hits of the current window, from `lo` on, are a cooldown apart. */
  lemma {:induction false} WindowSpread(c: Config, log: seq<int>, lo: int)
    requires ValidLog(c, log) && log != [] && c.windowMs > 0
    requires WindowStart(c, log) <= lo <= log[|log| - 1]
    ensures CountIn(log, lo, log[|log| - 1] + 1) >= 1
    ensures Room(c, CountIn(log, lo, log[|log| - 1] + 1)) <= log[|log| - 1] - lo
  {
    hide Room, CountIn;
    var last, front := log[|log| - 1], log[..|log| - 1];
    CountAppend(front, last, lo, last + 1);
    assert front + [last] == log;
    RoomGrows(c, CountIn(front, lo, last + 1));
    if front != [] {
      var f := front[|front| - 1];
      if StartsWindow(c, front, last) || f < lo {
        StartBeforeLast(c, front);
        NothingBeyond(c, front, lo, last + 1);
      } else {
        WindowSpread(c, front, lo);
        CountSplits(front, lo, f + 1, last + 1);
        NothingBeyond(c, front, f + 1, last + 1);
      }
    }
  }

  /** The same for what is left of the window before, just before the current one begins. */
  lemma {:induction false} SpreadBefore(c: Config, log: seq<int>, lo: int)
    requires ValidLog(c, log) && log != [] && c.windowMs > 0
    requires WindowStart(c, log) - c.windowMs < lo <= WindowStart(c, log)
    ensures var n := CountIn(log, lo, WindowStart(c, log));
      n >= 1 ==> lo < WindowStart(c, log) && Room(c, n) <= WindowStart(c, log) - 1 - lo
  {
    var last, front := log[|log| - 1], log[..|log| - 1];
    if front != [] {
      var f := front[|front| - 1];
      StartBeforeLast(c, front);
      if !StartsWindow(c, front, last) {
        SpreadBefore(c, front, lo);
      } else if f < lo {
        NothingBeyond(c, front, lo, last);
      } else {
        WindowSpread(c, front, lo);
        CountSplits(front, lo, f + 1, last);
        NothingBeyond(c, front, f + 1, last);
      }
    }
  }

  /** How many hits fall into the stretch as long as a window that begins at `t`. */
  function InStretch(c: Config, log: seq<int>, t: int): nat {
    CountIn(log, t, t + c.windowMs)
  }

  /**
   A stretch as long as a window that holds more than the cap spans two windows, and its hits need the room
   between them.
   */
  predicate Fits(c: Config, n: int) {
    n <= 2 * Cap(c) - 1 && c.windowMs >= 2 && (n - 2) * c.cooldownMs <= c.windowMs - 2
  }

  lemma {:induction false} CrowdedFits(c: Config, log: seq<int>, t: int)
    requires ValidLog(c, log) && CountIn(log, t, t + c.windowMs) > Cap(c)
    ensures Fits(c, CountIn(log, t, t + c.windowMs))
  {
    RollingBound(c, log, t);
    if c.windowMs <= 0 {
      EmptyStretch(log, t, t + c.windowMs);
    } else {
      var w, last := WindowStart(c, log), log[|log| - 1];
      if last >= t + c.windowMs || last < t {
        CrowdedFits(c, log[..|log| - 1], t);
      } else if w < t {
        AfterTheAnchor(c, log, t, t + c.windowMs);
      } else {
        AcrossTheAnchor(c, log, t);
      }
    }
  }

  lemma AcrossTheAnchor(c: Config, log: seq<int>, t: int)
    requires ValidLog(c, log) && log != [] && c.windowMs > 0 && CountIn(log, t, t + c.windowMs) > Cap(c)
    requires t <= WindowStart(c, log) && log[|log| - 1] < t + c.windowMs
    ensures c.windowMs >= 2 && (CountIn(log, t, t + c.windowMs) - 2) * c.cooldownMs <= c.windowMs - 2
  {
    hide Room, CountIn, ValidLog, Cap;
    var w, last := WindowStart(c, log), log[|log| - 1];
    StartBeforeLast(c, log);
    InWindowCounts(c, log);
    WindowIsCapped(c, log);
    CountSplits(log, t, w, t + c.windowMs);
    CountSplits(log, w, last + 1, t + c.windowMs);
    NothingBeyond(c, log, last + 1, t + c.windowMs);
    var m, n := CountIn(log, t, w), CountIn(log, w, last + 1);
    SpreadBefore(c, log, t);
    WindowSpread(c, log, w);
    RoomSum(c, m, n);
  }

  lemma RoomSum(c: Config, m: int, n: int)
    ensures (m + n - 2) * c.cooldownMs == Room(c, m) + Room(c, n)
  {}

  // And such runs exist. One hit opens a window; `late` more come so as to end in its last millisecond; the next
  // window's whole cap follows at once.

  function Gap(c: Config): (d: nat)
    ensures d == if c.cooldownMs > 0 then c.cooldownMs else 0
  {
    if c.cooldownMs > 0 then c.cooldownMs else 0
  }

  function Span(c: Config, n: int): int {
    n * Gap(c)
  }

  lemma SpanGrows(c: Config, n: int)
    ensures Span(c, n) == Span(c, n - 1) + Gap(c) && Span(c, 0) == 0 && (n >= 0 ==> Span(c, n) >= 0)
  {
    OneMoreGap(n, Gap(c));
  }

  function FirstLate(c: Config, late: nat): int {
    c.windowMs - 1 - Span(c, late - 1)
  }

  function LateHits(c: Config, first: int, n: nat): (log: seq<int>)
    ensures |log| == n + 1
  {
    if n == 0 then [0] else LateHits(c, first, n - 1) + [first + Span(c, n - 1)]
  }

  function Burst(c: Config, late: nat, next: nat): (log: seq<int>)
    ensures |log| == late + next + 1
  {
    if next == 0 then LateHits(c, FirstLate(c, late), late)
    else Burst(c, late, next - 1) + [c.windowMs + Span(c, next - 1)]
  }

  lemma CapIs(c: Config)
    ensures Cap(c) > 1 ==> Cap(c) == c.maxPerWindow
  {}

  /** One more accepted hit, and what it does to the three numbers and to a count. */
  lemma Appended(c: Config, front: seq<int>, x: int, lo: int)
    requires ValidLog(c, front) && front != [] && Summary(c, front).Some?
    requires var e := Summary(c, front).value;
      e.lastAt <= x && (x - e.windowStart >= c.windowMs || (x - e.lastAt >= c.cooldownMs && e.count < c.maxPerWindow))
    ensures ValidLog(c, front + [x])
    ensures var e := Summary(c, front).value;
      Summary(c, front + [x]) == Some(if x - e.windowStart >= c.windowMs then RateEntry(1, x, x)
                                      else RateEntry(e.count + 1, e.windowStart, x))
    ensures var hi := lo + c.windowMs;
      CountIn(front + [x], lo, hi) == CountIn(front, lo, hi) + if lo <= x < hi then 1 else 0
  {
    hide ValidLog, Summary, Accepts, StartsWindow, CountIn;
    var e := Summary(c, front).value;
    LogEnd(c, front, e);
    SummaryDecides(c, front, e, x);
    SummaryAfter(c, front, x);
    CountAppend(front, x, lo, lo + c.windowMs);
  }

  lemma {:induction false} LateHitsAreValid(c: Config, first: int, n: nat)
    requires Gap(c) <= first && first + Span(c, n - 1) < c.windowMs && n < Cap(c) && 0 < first
    ensures var log := LateHits(c, first, n);
      && ValidLog(c, log)
      && Summary(c, log) == Some(RateEntry(n + 1, 0, if n == 0 then 0 else first + Span(c, n - 1)))
      && CountIn(log, first, first + c.windowMs) == n
  {
    hide ValidLog, Summary, Accepts, StartsWindow, CountIn, Span;
    SpanGrows(c, 1);
    if n == 0 {
      NewLog(c, 0);
      SummaryAfter(c, [], 0);
      CountAppend([], 0, first, first + c.windowMs);
      assert [] + [0] == [0];
    } else {
      var front, x := LateHits(c, first, n - 1), first + Span(c, n - 1);
      SpanGrows(c, n - 1);
      SpanGrows(c, n - 2);
      LateHitsAreValid(c, first, n - 1);
      Appended(c, front, x, first);
    }
  }

  /** Where the hits of a burst lie. */
  lemma BurstTimes(c: Config, late: nat, next: nat)
    requires late > 0 && Span(c, late) <= c.windowMs - 1 && c.windowMs >= 2
    ensures var first := FirstLate(c, late);
      Gap(c) <= first && 0 < first && first + Span(c, late - 1) == c.windowMs - 1
    ensures next > 0 && Span(c, late + next - 2) <= c.windowMs - 2 ==> Span(c, next - 1) < FirstLate(c, late)
  {
    var d := Gap(c);
    OneMoreGap(late, d);
    if d == 0 { assert (late - 1) * d == 0; }
    assert (late + next - 2) * d == (late - 1) * d + (next - 1) * d;
  }

  lemma {:induction false} BurstIsValid(c: Config, late: nat, next: nat)
    requires 0 < late < Cap(c) && next <= Cap(c) && Span(c, late) <= c.windowMs - 1 && c.windowMs >= 2
    requires Span(c, late + next - 2) <= c.windowMs - 2
    ensures var log, w, first := Burst(c, late, next), c.windowMs, FirstLate(c, late);
      && ValidLog(c, log)
      && Summary(c, log)
        == Some(if next > 0 then RateEntry(next, w, w + Span(c, next - 1)) else RateEntry(late + 1, 0, w - 1))
      && CountIn(log, first, first + w) == late + next
    decreases next
  {
    hide ValidLog, Summary, Accepts, StartsWindow, CountIn, LateHits, FirstLate, Cap, Span;
    CapIs(c);
    SpanGrows(c, 1);
    BurstTimes(c, late, next);
    var w, first := c.windowMs, FirstLate(c, late);
    if next == 0 {
      LateHitsAreValid(c, first, late);
    } else {
      SpanGrows(c, late + next - 2);
      SpanGrows(c, next - 1);
      SpanGrows(c, late - 1);
      BurstIsValid(c, late, next - 1);
      Appended(c, Burst(c, late, next - 1), w + Span(c, next - 1), first);
    }
  }

  lemma FittingRun(c: Config, n: nat) returns (log: seq<int>, t: int)
    requires n > Cap(c) && Fits(c, n)
    ensures ValidLog(c, log) && InStretch(c, log, t) == n
  {
    hide ValidLog, CountIn;
    var late, d := n - Cap(c), Gap(c);
    assert late <= n - 2 && late * d <= (n - 2) * d;
    assert (n - 2) * d <= c.windowMs - 2 by { if c.cooldownMs <= 0 { assert (n - 2) * d == 0; } }
    BurstIsValid(c, late, Cap(c));
    log, t := Burst(c, late, Cap(c)), FirstLate(c, late);
  }

  ghost predicate Happens(c: Config, n: nat) {
    exists log: seq<int>, t: int :: ValidLog(c, log) && InStretch(c, log, t) == n
  }

  /** For every number above the cap: that many hits do pass within one window's length exactly if they fit. */
  lemma CrowdedIff(c: Config, n: nat)
    requires n > Cap(c)
    ensures Happens(c, n) <==> Fits(c, n)
  {
    hide ValidLog, Fits;
    if Happens(c, n) {
      var log: seq<int>, t: int :| ValidLog(c, log) && InStretch(c, log, t) == n;
      CrowdedFits(c, log, t);
    }
    if Fits(c, n) { var log, t := FittingRun(c, n); }
  }

  /** No stretch as long as a window holds more than the cap, in any run. */
  ghost predicate CapHolds(c: Config) {
    forall log: seq<int>, t: int | ValidLog(c, log) :: InStretch(c, log, t) <= Cap(c)
  }

  /** What the class comment calls a cap per rolling window holds exactly under these settings. */
  lemma CapHoldsIff(c: Config)
    ensures CapHolds(c) <==> c.windowMs <= 1 || Cap(c) == 1 || (Cap(c) - 1) * c.cooldownMs >= c.windowMs - 1
  {
    hide ValidLog, CountIn;
    if Fits(c, Cap(c) + 1) {
      var log, t := FittingRun(c, Cap(c) + 1);
      assert !CapHolds(c);
    } else {
      forall log: seq<int>, t: int | ValidLog(c, log) ensures InStretch(c, log, t) <= Cap(c) {
        if InStretch(c, log, t) > Cap(c) {
          CrowdedFits(c, log, t);
          FewerFit(c, Cap(c) + 1, InStretch(c, log, t));
        }
      }
    }
  }

  lemma FewerFit(c: Config, m: int, n: int)
    requires 2 <= m <= n && Fits(c, n)
    ensures Fits(c, m)
  {
    if c.cooldownMs >= 0 { assert (m - 2) * c.cooldownMs <= (n - 2) * c.cooldownMs; }
    else { assert (m - 2) * c.cooldownMs <= 0; }
  }

  /** Twice the cap less one is reached exactly under these. */
  lemma BoundReachedIff(c: Config)
    ensures Happens(c, 2 * Cap(c) - 1)
      <==> if Cap(c) == 1 then c.windowMs >= 1
           else c.windowMs >= 2 && (2 * Cap(c) - 3) * c.cooldownMs < c.windowMs - 1
  {
    hide ValidLog, CountIn;
    if Cap(c) > 1 {
      CrowdedIff(c, 2 * Cap(c) - 1);
    } else if c.windowMs >= 1 {
      OneHit(c);
    } else {
      forall log: seq<int>, t: int ensures InStretch(c, log, t) == 0 { EmptyStretch(log, t, t + c.windowMs); }
    }
  }

  lemma OneHit(c: Config)
    requires c.windowMs >= 1
    ensures Happens(c, 1)
  {
    hide ValidLog, CountIn;
    NewLog(c, 0);
    SummaryAfter(c, [], 0);
    CountAppend([], 0, 0, c.windowMs);
    assert [] + [0] == [0];
    assert ValidLog(c, [0]) && InStretch(c, [0], 0) == 1;
  }

  lemma CountAppend(log: seq<int>, x: int, lo: int, hi: int)
    ensures CountIn([], lo, hi) == 0
    ensures CountIn(log + [x], lo, hi) == CountIn(log, lo, hi) + if lo <= x < hi then 1 else 0
  {
    assert (log + [x])[..|log|] == log;
  }

  // ---------- the cooldown ----------

  /** Every accepted hit comes at least the cooldown after the one before. */
  ghost predicate Spaced(c: Config, log: seq<int>) {
    forall i | 0 < i < |log| :: log[i] - log[i - 1] >= c.cooldownMs
  }

  /** Within a window the cooldown holds under all settings. */
  lemma {:induction false} SpacedWithinWindow(c: Config, log: seq<int>, i: nat)
    requires ValidLog(c, log) && 0 < i < |log| && !StartsWindow(c, log[..i], log[i])
    ensures log[i] - log[i - 1] >= c.cooldownMs
  {
    var front := log[..|log| - 1];
    if i < |front| {
      assert front[..i] == log[..i];
      SpacedWithinWindow(c, front, i);
    }
  }

  /** Settings under which the cooldown also holds from one window to the next. */
  predicate CooldownSurvives(c: Config) {
    if c.windowMs <= 0 then c.cooldownMs <= 0
    else c.cooldownMs <= 1 || c.cooldownMs == c.windowMs || (c.cooldownMs < c.windowMs && c.maxPerWindow <= 1)
  }

  lemma {:induction false} SpacedIfSurvives(c: Config, log: seq<int>)
    requires ValidLog(c, log) && CooldownSurvives(c)
    ensures Spaced(c, log)
  {
    if log != [] {
      var last, front := log[|log| - 1], log[..|log| - 1];
      SpacedIfSurvives(c, front);
      if front != [] && c.windowMs > 0 {
        StartBeforeLast(c, front);
        LoneHit(c, front);
      }
      forall i | 0 < i < |log| ensures log[i] - log[i - 1] >= c.cooldownMs {
        if i < |front| { assert front[i] - front[i - 1] >= c.cooldownMs; }
      }
    }
  }

  /** With a cap of one, or a cooldown as long as the window, a window holds just the hit that opened it. */
  lemma LoneHit(c: Config, log: seq<int>)
    requires ValidLog(c, log) && log != [] && c.windowMs > 0
    ensures c.maxPerWindow <= 1 || c.cooldownMs >= c.windowMs ==> log[|log| - 1] == WindowStart(c, log)
  {
    if |log| > 1 {
      var front := log[..|log| - 1];
      StartBeforeLast(c, front);
      WindowIsCapped(c, log);
    }
  }

  lemma TooClose(c: Config) returns (log: seq<int>)
    requires !CooldownSurvives(c)
    ensures ValidLog(c, log) && !Spaced(c, log)
  {
    hide ValidLog, Summary, Accepts, StartsWindow;
    var w := c.windowMs;
    NewLog(c, 0);
    SummaryAfter(c, [], 0);
    assert [] + [0] == [0];
    SummaryDecides(c, [0], RateEntry(1, 0, 0), if w <= 0 then 0 else w);
    if w <= 0 {
      SummaryAfter(c, [0], 0);
      log := [0, 0];
      assert log == [0] + [0];
    } else if c.cooldownMs > w {
      SummaryAfter(c, [0], w);
      log := [0, w];
      assert log == [0] + [w];
    } else {
      SummaryDecides(c, [0], RateEntry(1, 0, 0), w - 1);
      SummaryAfter(c, [0], w - 1);
      LogEnd(c, [0], RateEntry(1, 0, 0));
      assert [0] + [w - 1] == [0, w - 1];
      SummaryDecides(c, [0, w - 1], RateEntry(2, 0, w - 1), w);
      SummaryAfter(c, [0, w - 1], w);
      log := [0, w - 1, w];
      assert log == [0, w - 1] + [w];
    }
    var n := |log| - 1;
    assert log[n] - log[n - 1] < c.cooldownMs;
  }

  /**
   The cooldown between consecutive hits holds in every run exactly under these settings; the class comment
   promises it under all.
   */
  lemma CooldownIff(c: Config)
    ensures (forall log | ValidLog(c, log) :: Spaced(c, log)) <==> CooldownSurvives(c)
  {
    if CooldownSurvives(c) {
      forall log | ValidLog(c, log) ensures Spaced(c, log) { SpacedIfSurvives(c, log); }
    } else {
      var log := TooClose(c);
    }
  }
}
