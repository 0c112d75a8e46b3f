/** The two rate limiters, proved against the full history of hits of each key. */
module RateLimiter {
  import opened Basics

  type Time = real

  // ---- In memory: a sliding window -------------------------------------------------------------

  /** A hit: the limit and the window it was judged by, and the verdict. */
  datatype Hit = Hit(at: Time, limit: int, window: Time, allowed: bool)

  datatype History = Start | Then(earlier: History, last: Hit)

  predicate Before(h: History, t: Time) {
    h.Then? ==> h.last.at <= t && Before(h.earlier, t)
  }

  predicate InOrder(h: History) {
    h.Then? ==> Before(h.earlier, h.last.at) && InOrder(h.earlier)
  }

  /** The times that are not before since. */
  function Still(w: seq<Time>, since: Time): seq<Time> {
    if w == [] then []
    else Still(w[..|w| - 1], since) + if w[|w| - 1] >= since then [w[|w| - 1]] else []
  }

  /** The allowed hits that no later call has found outside its own window, oldest first. */
  function Live(h: History): seq<Time> {
    match h
    case Start => []
    case Then(earlier, last) => Still(Live(earlier), last.at - last.window) + if last.allowed then [last.at] else []
  }

  /** Every verdict is right: allowed exactly when fewer than limit live hits are in the window. */
  predicate Judged(h: History) {
    h.Then? ==>
      && Judged(h.earlier)
      && h.last.allowed == (|Still(Live(h.earlier), h.last.at - h.last.window)| < h.last.limit)
  }

  predicate Ascending(w: seq<Time>) {
    forall i, j | 0 <= i < j < |w| :: w[i] <= w[j]
  }

  /** In order, it is enough to drop from the front. */
  lemma {:induction false} DropIsStill(w: seq<Time>, since: Time, k: nat)
    requires Ascending(w) && k <= |w|
    requires forall i | 0 <= i < k :: w[i] < since
    requires k < |w| ==> w[k] >= since
    ensures w[k..] == Still(w, since)
    decreases |w|
  {
    if w != [] {
      var front := w[..|w| - 1];
      if k < |w| {
        DropIsStill(front, since, k);
        assert w[k..] == front[k..] + [w[|w| - 1]];
      } else {
        DropIsStill(front, since, k - 1);
      }
    }
  }

  lemma {:induction false} StillAscends(w: seq<Time>, since: Time, until: Time)
    requires Ascending(w) && forall i | 0 <= i < |w| :: w[i] <= until
    ensures Ascending(Still(w, since)) && forall i | 0 <= i < |Still(w, since)| :: Still(w, since)[i] <= until
    decreases |w|
  {
    if w != [] {
      var front, last := w[..|w| - 1], w[|w| - 1];
      StillAscends(front, since, last);
    }
  }

  lemma {:induction false} LiveAscends(h: History, until: Time)
    requires InOrder(h) && Before(h, until)
    ensures Ascending(Live(h)) && forall i | 0 <= i < |Live(h)| :: Live(h)[i] <= until
  {
    if h.Then? {
      LiveAscends(h.earlier, h.last.at);
      StillAscends(Live(h.earlier), h.last.at - h.last.window, h.last.at);
    }
  }

  lemma {:induction false} BeforeLater(h: History, t: Time, t': Time)
    requires Before(h, t) && t <= t'
    ensures Before(h, t')
  {
    if h.Then? {
      BeforeLater(h.earlier, t, t');
    }
  }

  // ---- With one limit and one window -----------------------------------------------------------

  datatype Setting = Setting(limit: int, window: Time)

  predicate Steady(h: History, s: Setting) {
    h.Then? ==> h.last.limit == s.limit && h.last.window == s.window && Steady(h.earlier, s)
  }

  /** The times of the allowed hits of the whole history from since on, oldest first. */
  function Recent(h: History, since: Time): seq<Time> {
    match h
    case Start => []
    case Then(earlier, last) => Recent(earlier, since) + if last.allowed && last.at >= since then [last.at] else []
  }

  /** What the limiter promises: each hit is allowed exactly when fewer than limit were in its window. */
  predicate SlidingWindow(h: History, s: Setting) {
    h.Then? ==>
      && SlidingWindow(h.earlier, s)
      && h.last.allowed == (|Recent(h.earlier, h.last.at - s.window)| < s.limit)
  }

  lemma {:induction false} StillRecent(h: History, since: Time, later: Time)
    requires since <= later
    ensures Still(Recent(h, since), later) == Recent(h, later)
  {
    if h.Then? {
      StillRecent(h.earlier, since, later);
      var r := Recent(h.earlier, since);
      if h.last.allowed && h.last.at >= since {
        assert (r + [h.last.at])[..|r|] == r;
      } else {
        assert Recent(h, since) == r;
      }
    }
  }

  lemma LiveMatches(h: History, since: Time, w: seq<Time>)
    requires h.Then? && h.last.at - h.last.window == since <= h.last.at
    requires Still(Live(h.earlier), since) == w == Recent(h.earlier, since)
    ensures Live(h) == Recent(h, since)
  {}

  /** With a steady setting, what is live in a later window is what the full history has in it. */
  lemma {:induction false} StillLive(h: History, s: Setting, later: Time)
    requires InOrder(h) && Steady(h, s) && s.window >= 0.0 && (h.Then? ==> h.last.at - s.window <= later)
    ensures Still(Live(h), later) == Recent(h, later)
  {
    if h.Then? {
      var since := h.last.at - s.window;
      StillLive(h.earlier, s, since);
      LiveMatches(h, since, Recent(h.earlier, since));
      StillRecent(h, since, later);
    }
  }

  /** In particular the live hits are those of the full history in the window of the last call. */
  lemma LiveIsRecent(h: History, s: Setting)
    requires h.Then? && InOrder(h) && Steady(h, s) && s.window >= 0.0
    ensures Live(h) == Recent(h, h.last.at - s.window)
  {
    var since := h.last.at - s.window;
    StillLive(h.earlier, s, since);
    LiveMatches(h, since, Recent(h.earlier, since));
  }

  /** With a steady setting, right verdicts are those of the sliding window over the full history. */
  lemma {:induction false} SteadySlides(h: History, s: Setting)
    requires Judged(h) && InOrder(h) && Steady(h, s) && s.window >= 0.0
    ensures SlidingWindow(h, s)
  {
    if h.Then? {
      SteadySlides(h.earlier, s);
      StillLive(h.earlier, s, h.last.at - s.window);
    }
  }

  /** How many hits were allowed in a closed interval. */
  function AllowedIn(h: History, from: Time, until: Time): nat {
    match h
    case Start => 0
    case Then(earlier, last) => AllowedIn(earlier, from, until) + if last.allowed && from <= last.at <= until then 1 else 0
  }

  lemma {:induction false} AllowedInRecent(h: History, from: Time, until: Time, since: Time)
    requires since <= from
    ensures AllowedIn(h, from, until) <= |Recent(h, since)|
  {
    if h.Then? {
      AllowedInRecent(h.earlier, from, until, since);
    }
  }

  lemma {:induction false} RecentIsInterval(h: History, since: Time, until: Time)
    requires Before(h, until)
    ensures |Recent(h, since)| == AllowedIn(h, since, until)
  {
    if h.Then? {
      RecentIsInterval(h.earlier, since, until);
    }
  }

  /** A hit is refused exactly when the closed interval of one window up to it already holds limit allowed hits. */
  lemma RefusedWhenFull(h: History, s: Setting)
    requires h.Then? && Judged(h) && InOrder(h) && Steady(h, s) && s.window >= 0.0
    ensures h.last.allowed <==> AllowedIn(h.earlier, h.last.at - s.window, h.last.at) < s.limit
  {
    SteadySlides(h, s);
    RecentIsInterval(h.earlier, h.last.at - s.window, h.last.at);
  }

  /** No closed interval as long as the window holds more than limit allowed hits. */
  lemma {:induction false} AtMostLimitInAnyInterval(h: History, s: Setting, x: Time)
    requires SlidingWindow(h, s)
    ensures AllowedIn(h, x, x + s.window) <= if s.limit < 0 then 0 else s.limit
  {
    if h.Then? {
      AtMostLimitInAnyInterval(h.earlier, s, x);
      if h.last.allowed && x <= h.last.at <= x + s.window {
        AllowedInRecent(h.earlier, x, x + s.window, h.last.at - s.window);
      }
    }
  }

  // ---- The limiter -----------------------------------------------------------------------------

  /** The deque w holds the live hits of the history h, whose verdicts are right. */
  predicate Agrees(h: History, w: seq<Time>, clock: Time) {
    Judged(h) && InOrder(h) && Before(h, clock) && w == Live(h)
  }

  predicate AllAgree(history: map<string, History>, hits: map<string, seq<Time>>, clock: Time) {
    hits.Keys == history.Keys && forall key | key in history :: Agrees(history[key], hits[key], clock)
  }

  function HistoryIn(history: map<string, History>, key: string): History {
    if key in history then history[key] else Start
  }

  function DequeIn(hits: map<string, seq<Time>>, key: string): seq<Time> {
    if key in hits then hits[key] else []
  }

  lemma AllLater(history: map<string, History>, hits: map<string, seq<Time>>, clock: Time, now: Time)
    requires AllAgree(history, hits, clock) && clock <= now
    ensures AllAgree(history, hits, now)
  {
    forall key | key in history ensures Agrees(history[key], hits[key], now) {
      BeforeLater(history[key], clock, now);
    }
  }

  lemma AgreesIn(history: map<string, History>, hits: map<string, seq<Time>>, clock: Time, key: string)
    requires AllAgree(history, hits, clock)
    ensures Agrees(HistoryIn(history, key), DequeIn(hits, key), clock)
  {
    assert key in history ==> Agrees(history[key], hits[key], clock);
  }

  /** The first k hits of the deque, and no others, are before since. */
  predicate Drops(w: seq<Time>, since: Time, k: nat) {
    k <= |w| && (forall i | 0 <= i < k :: w[i] < since) && (k < |w| ==> w[k] >= since)
  }

  /** Popping from the front leaves the live hits in the window, which judge the new hit. */
  lemma HitAgrees(h: History, whole: seq<Time>, clock: Time, k: nat, hit: Hit)
    requires Agrees(h, whole, clock) && clock <= hit.at
    requires Drops(whole, hit.at - hit.window, k)
    requires hit.allowed == (|whole[k..]| < hit.limit)
    ensures whole[k..] == Still(Live(h), hit.at - hit.window)
    ensures Agrees(Then(h, hit), if hit.allowed then whole[k..] + [hit.at] else whole[k..], hit.at)
  {
    LiveAscends(h, clock);
    DropIsStill(whole, hit.at - hit.window, k);
    BeforeLater(h, clock, hit.at);
  }

  /** Recording a hit keeps every deque in agreement with its history. */
  lemma Recorded(history: map<string, History>, hits: map<string, seq<Time>>, clock: Time, key: string, k: nat, hit: Hit)
    requires AllAgree(history, hits, clock) && clock <= hit.at
    requires Drops(DequeIn(hits, key), hit.at - hit.window, k)
    requires hit.allowed == (|DequeIn(hits, key)[k..]| < hit.limit)
    ensures
      var h, w := HistoryIn(history, key), DequeIn(hits, key)[k..];
      && |w| == |Still(Live(h), hit.at - hit.window)|
      && (if hit.allowed then w + [hit.at] else w) == Live(Then(h, hit))
      && AllAgree(history[key := Then(h, hit)], hits[key := Live(Then(h, hit))], hit.at)
  {
    AgreesIn(history, hits, clock, key);
    HitAgrees(HistoryIn(history, key), DequeIn(hits, key), clock, k, hit);
    AllLater(history, hits, clock, hit.at);
  }

  /** Pop the hits that have left the window. */
  method Expire(whole: seq<Time>, window: Time, now: Time) returns (w: seq<Time>, ghost k: nat)
    ensures Drops(whole, now - window, k) && w == whole[k..]
    ensures Ascending(whole) ==> w == Still(whole, now - window)
  {
    w, k := whole, 0;
    while w != [] && now - w[0] > window
      invariant k <= |whole| && w == whole[k..]
      invariant forall i | 0 <= i < k :: whole[i] < now - window
    {
      w := w[1..];
      k := k + 1;
    }
    if Ascending(whole) {
      DropIsStill(whole, now - window, k);
    }
  }

  /** The verdict on a hit, and the deque after it. */
  method Judge(ghost history: map<string, History>, hits: map<string, seq<Time>>, ghost clock: Time,
               key: string, limit: int, window: Time, now: Time)
    returns (allowed: bool, w: seq<Time>)
    requires AllAgree(history, hits, clock) && clock <= now
    ensures allowed == (|Still(Live(HistoryIn(history, key)), now - window)| < limit)
    ensures w == Live(Then(HistoryIn(history, key), Hit(now, limit, window, allowed)))
    ensures AllAgree(history[key := Then(HistoryIn(history, key), Hit(now, limit, window, allowed))], hits[key := w], now)
  {
    ghost var k;
    w, k := Expire(DequeIn(hits, key), window, now);
    allowed := |w| < limit;
    Recorded(history, hits, clock, key, k, Hit(now, limit, window, allowed));
    if allowed {
      w := w + [now];
    }
  }

  /** hits are the deques. history is every hit of every key; clock the time of the last call. */
  class InMemoryRateLimiter {
    var hits: map<string, seq<Time>>
    ghost var history: map<string, History>
    ghost var clock: Time

    ghost predicate Valid()
      reads this
    {
      AllAgree(history, hits, clock)
    }

    constructor (ghost clock: Time)
      ensures Valid() && this.clock == clock && history == map[]
    {
      hits := map[];
      history := map[];
      this.clock := clock;
    }

    /** is_allowed at the time now of the monotonic clock. */
    method IsAllowed(key: string, limit: int, window: Time, now: Time) returns (allowed: bool)
      requires Valid() && now >= clock
      modifies this
      ensures Valid() && clock == now
      ensures allowed == (|Still(Live(HistoryIn(old(history), key)), now - window)| < limit)
      ensures history == old(history)[key := Then(HistoryIn(old(history), key), Hit(now, limit, window, allowed))]
      ensures hits == old(hits)[key := Live(history[key])]
    {
      var w;
      allowed, w := Judge(history, hits, clock, key, limit, window, now);
      history := history[key := Then(HistoryIn(history, key), Hit(now, limit, window, allowed))];
      hits := hits[key := w];
      clock := now;
    }
  }

  // ---- In Redis: a fixed window ----------------------------------------------------------------

  /**
   A hit that reached Redis: the window that counted it, with the end that Redis was given for it, if
   it was given one; its number in that window; and whether the limiter got its answers.
   */
  datatype Counted = Counted(at: Time, start: Time, ends: Option<Time>, number: nat, answered: bool)

  datatype Counts = Fresh | Next(earlier: Counts, last: Counted)

  /** The window of the last hit is over at time t. */
  predicate Over(h: Counts, t: Time) {
    h.Next? ==> h.last.ends.Some? && h.last.ends.value <= t
  }

  /**
   What INCR and EXPIRE make of a sequence of hits: a hit after the end of the last window starts a new
   one, which gets an end unless an answer is lost on the way; every other hit is counted on.
   */
  predicate FixedWindow(h: Counts) {
    h.Next? ==>
      && FixedWindow(h.earlier)
      && (h.earlier.Next? ==> h.earlier.last.at <= h.last.at)
      && if Over(h.earlier, h.last.at)
         then h.last.start == h.last.at && h.last.number == 1 && (h.last.answered ==> h.last.ends.Some?)
         else h.last.start == h.earlier.last.start && h.last.ends == h.earlier.last.ends
              && h.last.number == h.earlier.last.number + 1
  }

  /** No window ends before it has lasted this long. */
  predicate Lasting(h: Counts, window: Time) {
    h.Next? ==> (h.last.ends.Some? ==> h.last.start + window <= h.last.ends.value) && Lasting(h.earlier, window)
  }

  /** The limiter was told a number up to the limit. */
  predicate Passed(hit: Counted, limit: int) {
    hit.answered && hit.number <= limit
  }

  /** How many hits of the window that started at start passed the limit. */
  function PassedFrom(h: Counts, start: Time, limit: int): nat {
    match h
    case Fresh => 0
    case Next(earlier, last) => PassedFrom(earlier, start, limit) + if last.start == start && Passed(last, limit) then 1 else 0
  }

  /** How many hits of a closed interval passed the limit. */
  function PassedDuring(h: Counts, limit: int, from: Time, until: Time): nat {
    match h
    case Fresh => 0
    case Next(earlier, last) =>
      PassedDuring(earlier, limit, from, until) + if Passed(last, limit) && from <= last.at <= until then 1 else 0
  }

  /** Every hit is of the window that started at t, or of one that started at least a window before and was over by t. */
  predicate Parted(h: Counts, t: Time, window: Time) {
    h.Next? ==>
      && Parted(h.earlier, t, window)
      && (h.last.start == t || (h.last.start + window <= t && h.last.at < t))
  }

  predicate AllBy(h: Counts, t: Time) {
    h.Next? ==> h.last.at <= t && AllBy(h.earlier, t)
  }

  lemma {:induction false} AllByLater(h: Counts, t: Time, t': Time)
    requires AllBy(h, t) && t <= t'
    ensures AllBy(h, t')
  {
    if h.Next? {
      AllByLater(h.earlier, t, t');
    }
  }

  lemma {:induction false} InSequence(h: Counts)
    requires FixedWindow(h)
    ensures h.Next? ==> AllBy(h, h.last.at)
  {
    if h.Next? && h.earlier.Next? {
      InSequence(h.earlier);
      AllByLater(h.earlier, h.earlier.last.at, h.last.at);
    }
  }

  /** A new window starts after all of the earlier ones are over. */
  lemma {:induction false} PartedLater(h: Counts, t: Time, t': Time, end: Time, window: Time)
    requires Parted(h, t, window) && AllBy(h, end) && end < t' && t + window <= t' && window > 0.0
    ensures Parted(h, t', window)
  {
    if h.Next? {
      PartedLater(h.earlier, t, t', end, window);
    }
  }

  /** The last hit is in its window. */
  lemma {:induction false} LastInWindow(h: Counts, window: Time)
    requires FixedWindow(h) && Lasting(h, window) && window > 0.0 && h.Next?
    ensures h.last.start <= h.last.at
    ensures h.last.ends.Some? ==> h.last.at < h.last.ends.value
  {
    if h.earlier.Next? {
      LastInWindow(h.earlier, window);
    }
  }

  lemma {:induction false} WindowsApart(h: Counts, window: Time)
    requires FixedWindow(h) && Lasting(h, window) && window > 0.0
    ensures h.Next? ==> Parted(h, h.last.start, window)
  {
    if h.Next? && h.earlier.Next? {
      WindowsApart(h.earlier, window);
      InSequence(h.earlier);
      LastInWindow(h.earlier, window);
      if Over(h.earlier, h.last.at) {
        PartedLater(h.earlier, h.earlier.last.start, h.last.start, h.earlier.last.at, window);
      }
    }
  }

  lemma {:induction false} NoneFromLater(h: Counts, t: Time, start: Time, window: Time, limit: int)
    requires Parted(h, t, window) && t < start && window > 0.0
    ensures PassedFrom(h, start, limit) == 0
  {
    if h.Next? {
      NoneFromLater(h.earlier, t, start, window, limit);
    }
  }

  /** At most limit hits of one window pass: those numbered 1 to limit. */
  lemma {:induction false} LimitPerWindow(h: Counts, window: Time, start: Time, limit: int)
    requires FixedWindow(h) && Lasting(h, window) && window > 0.0
    ensures PassedFrom(h, start, limit) <= if limit < 0 then 0 else limit
    ensures h.Next? && h.last.start == start ==> PassedFrom(h, start, limit) <= h.last.number
  {
    if h.Next? {
      LimitPerWindow(h.earlier, window, start, limit);
      if h.earlier.Next? && Over(h.earlier, h.last.at) && h.last.start == start {
        WindowsApart(h.earlier, window);
        LastInWindow(h.earlier, window);
        NoneFromLater(h.earlier, h.earlier.last.start, start, window, limit);
      }
    }
  }

  /** All hits of the closed interval are of these two windows. */
  predicate MeetsTwo(h: Counts, x: Time, window: Time, s1: Time, s2: Time) {
    h.Next? ==>
      && MeetsTwo(h.earlier, x, window, s1, s2)
      && (x <= h.last.at <= x + window ==> h.last.start == s1 || h.last.start == s2)
  }

  lemma {:induction false} DuringTwo(h: Counts, limit: int, x: Time, window: Time, s1: Time, s2: Time)
    requires MeetsTwo(h, x, window, s1, s2)
    ensures PassedDuring(h, limit, x, x + window) <= PassedFrom(h, s1, limit) + if s1 == s2 then 0 else PassedFrom(h, s2, limit)
  {
    if h.Next? {
      DuringTwo(h.earlier, limit, x, window, s1, s2);
    }
  }

  /** Hits of windows that were over when the window s1 started by x have fallen before x. */
  lemma {:induction false} EarlierMissed(h: Counts, x: Time, window: Time, s1: Time, s2: Time)
    requires Parted(h, s1, window) && s1 <= x
    ensures MeetsTwo(h, x, window, s1, s2)
  {
    if h.Next? {
      EarlierMissed(h.earlier, x, window, s1, s2);
    }
  }

  /** Some two windows cover all hits of the interval. */
  lemma {:induction false} TwoWindows(h: Counts, x: Time, window: Time) returns (s1: Time, s2: Time)
    requires FixedWindow(h) && Lasting(h, window) && window > 0.0
    ensures MeetsTwo(h, x, window, s1, s2)
    ensures h.Next? && h.last.start > x && h.last.at <= x + window ==> s2 == h.last.start
    decreases h
  {
    if h.Fresh? {
      s1, s2 := x, x;
    } else if h.last.start <= x {
      WindowsApart(h, window);
      s1, s2 := h.last.start, x;
      EarlierMissed(h, x, window, s1, s2);
    } else if h.last.at > x + window || (h.earlier.Next? && h.earlier.last.start > x) {
      s1, s2 := TwoWindows(h.earlier, x, window);
      if h.last.at <= x + window {
        LastInWindow(h, window);
      }
    } else {
      s1, s2 := x, h.last.start;
      if h.earlier.Next? {
        s1 := h.earlier.last.start;
        WindowsApart(h.earlier, window);
        EarlierMissed(h.earlier, x, window, s1, s2);
      }
    }
  }

  /** No closed interval as long as the shortest window holds more than twice limit hits that passed. */
  lemma AtMostTwiceLimit(h: Counts, window: Time, limit: int, x: Time)
    requires FixedWindow(h) && Lasting(h, window) && window > 0.0
    ensures PassedDuring(h, limit, x, x + window) <= if limit < 0 then 0 else 2 * limit
  {
    var s1, s2 := TwoWindows(h, x, window);
    DuringTwo(h, limit, x, window, s1, s2);
    LimitPerWindow(h, window, s1, limit);
    LimitPerWindow(h, window, s2, limit);
  }

  /** When all hits of the interval are of one window, no more than limit of them pass. */
  lemma AtMostLimitInOneWindow(h: Counts, window: Time, limit: int, x: Time, s: Time)
    requires FixedWindow(h) && Lasting(h, window) && window > 0.0
    requires MeetsTwo(h, x, window, s, s)
    ensures PassedDuring(h, limit, x, x + window) <= if limit < 0 then 0 else limit
  {
    DuringTwo(h, limit, x, window, s, s);
    LimitPerWindow(h, window, s, limit);
  }

  /** h is g with n more hits. */
  predicate Extends(h: Counts, g: Counts, n: nat) {
    if n == 0 then h == g else h.Next? && Extends(h.earlier, g, n - 1)
  }

  /** A window that was given no end never ends: once its count is over the limit, no answered hit passes any more. */
  lemma {:induction false} EndlessWindow(h: Counts, g: Counts, n: nat, limit: int)
    requires FixedWindow(h) && Extends(h, g, n) && g.Next? && g.last.ends.None?
    ensures h.Next? && h.last.ends.None? && h.last.start == g.last.start && h.last.number == g.last.number + n
    ensures g.last.number + n > limit ==> !Passed(h.last, limit)
  {
    if n > 0 {
      EndlessWindow(h.earlier, g, n - 1, limit);
    }
  }

  /**
   A key over its limit can be used again after some wait exactly when its window was given an end; the
   first hit at that end then passes.
   */
  lemma RecoversExactly(h: Counts, limit: int)
    requires FixedWindow(h) && h.Next? && limit >= 1 && h.last.number >= limit
    ensures (exists c: Counted :: FixedWindow(Next(h, c)) && Passed(c, limit)) <==> h.last.ends.Some?
  {
    if h.last.ends.Some? {
      var at := if h.last.ends.value < h.last.at then h.last.at else h.last.ends.value;
      var c := Counted(at, at, Some(at), 1, true);
      assert FixedWindow(Next(h, c)) && Passed(c, limit);
    }
  }

  /** n answered hits, a second apart, after a first one at time 0 whose window was given no end. */
  function LockedOut(n: nat): Counts {
    if n == 0 then Next(Fresh, Counted(0.0, 0.0, None, 1, false))
    else Next(LockedOut(n - 1), Counted(n as real, 0.0, None, n + 1, true))
  }

  /** Such a history exists, and from the limit on every one of its hits is refused, however late. */
  lemma {:induction false} LockedOutForEver(n: nat, limit: nat)
    ensures FixedWindow(LockedOut(n)) && LockedOut(n).Next? && LockedOut(n).last.at == n as real
    ensures n >= 1 ==> LockedOut(n).last.answered
    ensures n >= limit ==> !Passed(LockedOut(n).last, limit)
    ensures n >= limit ==> !exists c: Counted :: FixedWindow(Next(LockedOut(n), c)) && Passed(c, limit)
  {
    if n > 0 {
      LockedOutForEver(n - 1, limit);
    }
  }

  /** n hits at one time, in a window that starts with the first of them. */
  function Burst(h: Counts, at: Time, window: Time, n: nat): Counts {
    if n == 0 then h else Next(Burst(h, at, window, n - 1), Counted(at, at, Some(at + window), n, true))
  }

  lemma {:induction false} BurstPasses(h: Counts, at: Time, window: Time, n: nat, limit: int, x: Time)
    requires FixedWindow(h) && Lasting(h, window) && Over(h, at) && window > 0.0 && n <= limit
    requires h.Next? ==> h.last.at <= at
    requires x <= at <= x + window
    ensures FixedWindow(Burst(h, at, window, n)) && Lasting(Burst(h, at, window, n), window)
    ensures PassedDuring(Burst(h, at, window, n), limit, x, x + window) == PassedDuring(h, limit, x, x + window) + n
  {
    if n > 0 {
      BurstPasses(h, at, window, n - 1, limit, x);
    }
  }

  /** Twice the limit is reached, for every limit: that many hits at the start of each of two windows. */
  lemma TwiceLimitIsReached(window: Time, limit: nat)
    requires window > 0.0 && limit >= 1
    ensures
      var h := Burst(Burst(Fresh, 0.0, window, limit), window, window, limit);
      FixedWindow(h) && Lasting(h, window) && PassedDuring(h, limit, 0.0, 0.0 + window) == 2 * limit
  {
    BurstPasses(Fresh, 0.0, window, limit, limit, 0.0);
    BurstPasses(Burst(Fresh, 0.0, window, limit), window, window, limit, limit, 0.0);
  }

  /** A hit whose window lasts at least that long keeps it so for the history. */
  lemma LastingKept(h: Counts, hit: Counted, window: Time)
    requires Lasting(h, window) && FixedWindow(Next(h, hit))
    requires Over(h, hit.at) && hit.ends.Some? ==> hit.at + window <= hit.ends.value
    ensures Lasting(Next(h, hit), window)
  {}

  // ---- The limiter -----------------------------------------------------------------------------

  /** A key of Redis: a counter, and the time at which it is removed, if it has one. */
  datatype Key = Key(count: nat, expiresAt: Option<Time>)

  /**
   What goes wrong on the way: Redis is not reached; INCR is carried out but its answer is lost; EXPIRE
   is lost; or EXPIRE is carried out but its answer is lost.
   */
  datatype Fault = NoFault | NotReached | IncrUnanswered | ExpireLost | ExpireUnanswered

  /** The fault that leaves a new window without an end. */
  predicate LosesEnd(fault: Fault) {
    fault == IncrUnanswered || fault == ExpireLost
  }

  /** history is every hit that reached Redis. */
  class RedisRateLimiter {
    var keys: map<string, Key>
    ghost var history: map<string, Counts>

    ghost predicate Valid()
      reads this
    {
      && keys.Keys == history.Keys
      && forall key | key in history ::
           && FixedWindow(history[key])
           && history[key].Next? && history[key].last.number >= 1
           && keys[key] == Key(history[key].last.number, history[key].last.ends)
    }

    ghost function HistoryOf(key: string): Counts
      reads this
    {
      if key in history then history[key] else Fresh
    }

    constructor ()
      ensures Valid() && history == map[]
    {
      keys, history := map[], map[];
    }

    /** INCR: a key that is absent or has expired counts from one, and gets no expiry yet. */
    method Incr(key: string, now: Time) returns (current: nat)
      modifies this`keys
      ensures
        var live := key in old(keys) && !(old(keys)[key].expiresAt.Some? && old(keys)[key].expiresAt.value <= now);
        && current == (if live then old(keys)[key].count + 1 else 1)
        && keys == old(keys)[key := Key(current, if live then old(keys)[key].expiresAt else None)]
    {
      if key in keys && !(keys[key].expiresAt.Some? && keys[key].expiresAt.value <= now) {
        current := keys[key].count + 1;
        keys := keys[key := Key(current, keys[key].expiresAt)];
      } else {
        current := 1;
        keys := keys[key := Key(1, None)];
      }
    }

    /**
     is_allowed. A fault lets the hit through. When it hits the first hit of a window on the way to
     EXPIRE, the key may be left without an end, and is then counted on for ever.
     */
    method IsAllowed(key: string, limit: int, window: Time, now: Time, fault: Fault) returns (allowed: bool)
      requires Valid()
      requires HistoryOf(key).Next? ==> HistoryOf(key).last.at <= now
      modifies this
      ensures Valid()
      ensures fault == NotReached ==> allowed && history == old(history) && keys == old(keys)
      ensures fault != NotReached ==>
                && HistoryOf(key).Next? && HistoryOf(key).earlier == old(HistoryOf(key))
                && var hit := HistoryOf(key).last;
                && hit.at == now
                && hit.answered == (fault == NoFault || (hit.number != 1 && fault != IncrUnanswered))
                && allowed == (hit.answered ==> hit.number <= limit)
                && (Over(old(HistoryOf(key)), now) ==> hit.ends == if LosesEnd(fault) then None else Some(now + window))
                && (!Over(old(HistoryOf(key)), now) ==> hit.ends == old(HistoryOf(key)).last.ends)
      ensures forall other | other != key :: HistoryOf(other) == old(HistoryOf(other))
    {
      if fault == NotReached {
        return true;
      }
      ghost var h := HistoryOf(key);
      var current := Incr(key, now);
      var answered := fault != IncrUnanswered;
      if answered && current == 1 {
        if fault != ExpireLost {
          keys := keys[key := Key(current, Some(now + window))];
        }
        answered := fault == NoFault;
      }
      history := history[key := Next(h, Counted(now, if Over(h, now) then now else h.last.start, keys[key].expiresAt, current, answered))];
      allowed := if answered then current <= limit else true;
    }
  }
}
