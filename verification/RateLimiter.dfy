/** The sliding-window limiter of the agent protocol: what its pruned lists stand for, and what
    they promise about whole histories. Source: server/bap/rate-limiter.ts. */
module RateLimiter {
  import opened Collections

  datatype Limit = Limit(calls: nat, windowMs: nat)

  const DEFAULT_LIMIT := Limit(60, 60000)

  function LimitFor(limitKey: string): Limit {
    if limitKey == "kb:write" then Limit(20, 60000)
    else if limitKey == "kb:query" then Limit(10, 60000)
    else if limitKey == "audit_search:query" then Limit(10, 60000)
    else if limitKey == "agents:trigger" then Limit(5, 60000)
    else if limitKey == "register" then Limit(5, 300000)
    else DEFAULT_LIMIT
  }

  /** What each limit key allows: most of them so many calls a minute, registration five in five minutes. */
  lemma LimitsAre(limitKey: string)
    ensures
      var l := LimitFor(limitKey);
      && l.windowMs == (if limitKey == "register" then 300000 else 60000)
      && (l.calls == 5 <==> limitKey in {"agents:trigger", "register"})
      && (l.calls == 10 <==> limitKey in {"kb:query", "audit_search:query"})
      && (l.calls == 20 <==> limitKey == "kb:write")
      && (l.calls == 60 <==> limitKey !in {"agents:trigger", "register", "kb:query", "audit_search:query", "kb:write"})
  {
  }

  /** The bucket a call falls into: agent id, a colon, limit key. */
  function Key(agent: string, limitKey: string): string {
    agent + ":" + limitKey
  }

  datatype Call = Call(agent: string, limitKey: string, at: int)

  // ----- one bucket -----

  /** `calls.filter((t) => now - t < windowMs)` */
  function Recent(times: seq<int>, now: int, window: nat): seq<int> {
    if times == [] then []
    else
      var n := |times| - 1;
      if now - times[n] < window then Recent(times[..n], now, window) + [times[n]]
      else Recent(times[..n], now, window)
  }

  /** What a bucket stores after calls at the given times: every call prunes, then adds itself. */
  function Stored(times: seq<int>, window: nat): seq<int> {
    if times == [] then []
    else
      var n := |times| - 1;
      Recent(Stored(times[..n], window), times[n], window) + [times[n]]
  }

  /** Whether call number `i` of a bucket passed. Rejected calls count as calls. */
  predicate Admitted(times: seq<int>, limit: Limit, i: nat)
    requires i < |times|
  {
    |Stored(times[..i + 1], limit.windowMs)| <= limit.calls
  }

  ghost predicate Ordered(times: seq<int>) {
    forall i, j :: 0 <= i < j < |times| ==> times[i] <= times[j]
  }

  lemma {:induction false} RecentTwice(times: seq<int>, first: int, second: int, window: nat)
    requires first <= second
    ensures Recent(Recent(times, first, window), second, window) == Recent(times, second, window)
  {
    if times != [] {
      var n := |times| - 1;
      RecentTwice(times[..n], first, second, window);
      if first - times[n] < window {
        var kept := Recent(times[..n], first, window);
        assert (kept + [times[n]])[..|kept|] == kept;
      }
    }
  }

  /** The pruned list loses nothing that matters: it is the whole history, cut to the last window. */
  lemma {:induction false} StoredIsTheLastWindow(times: seq<int>, window: nat)
    requires Ordered(times) && times != [] && window > 0
    ensures Stored(times, window) == Recent(times, times[|times| - 1], window)
  {
    var n := |times| - 1;
    var earlier := times[..n];
    if earlier != [] {
      StoredIsTheLastWindow(earlier, window);
      RecentTwice(earlier, earlier[n - 1], times[n], window);
    }
  }

  // ----- what a bucket remembers under any clock -----

  function Max(a: int, b: int): int {
    if a < b then b else a
  }

  /** The entries that neither `top` nor any reading behind them pruned. */
  function Surviving(times: seq<int>, top: int, window: nat): seq<int> {
    if times == [] then []
    else
      var n := |times| - 1;
      Surviving(times[..n], Max(top, times[n]), window) + (if top - times[n] < window then [times[n]] else [])
  }

  lemma {:induction false} RecentOfSurviving(times: seq<int>, top: int, now: int, window: nat)
    ensures Recent(Surviving(times, top, window), now, window) == Surviving(times, Max(top, now), window)
  {
    if times != [] {
      var n := |times| - 1;
      var t := times[n];
      var kept := Surviving(times[..n], Max(top, t), window);
      RecentOfSurviving(times[..n], Max(top, t), now, window);
      RecentOfOneMore(kept, t, now, window);
      assert Max(Max(top, t), now) == Max(Max(top, now), t);
      assert kept + [] == kept && Recent(kept, now, window) + [] == Recent(kept, now, window);
    }
  }

  /** The newest entry is never pruned by itself. */
  lemma LastIsNoThreat(times: seq<int>, top: int, window: nat)
    requires times != [] && window > 0
    ensures Surviving(times, Max(top, times[|times| - 1]), window) == Surviving(times, top, window)
  {
  }

  /** For every clock: the pruned list holds exactly the calls that no later reading put out of the window. */
  lemma {:induction false} StoredSurvives(times: seq<int>, window: nat)
    requires times != [] && window > 0
    ensures Stored(times, window) == Surviving(times, times[|times| - 1], window)
  {
    var n := |times| - 1;
    var earlier, t := times[..n], times[n];
    assert Surviving(times, t, window) == Surviving(earlier, t, window) + [t];
    if n > 0 {
      StoredSurvives(earlier, window);
      RecentOfSurviving(earlier, times[n - 1], t, window);
      LastIsNoThreat(earlier, t, window);
      assert Max(times[n - 1], t) == Max(t, times[n - 1]);
      assert Recent(Stored(earlier, window), t, window) == Surviving(earlier, t, window);
    } else {
      assert earlier == [];
    }
  }

  ghost predicate Kept(times: seq<int>, top: int, window: nat, i: nat)
    requires i < |times|
  {
    top - times[i] < window && forall k :: i < k < |times| ==> times[k] - times[i] < window
  }

  ghost function Remembered(times: seq<int>, top: int, window: nat): set<nat> {
    set i: nat | i < |times| && Kept(times, top, window, i)
  }

  lemma {:induction false} SurvivingCounts(times: seq<int>, top: int, window: nat)
    ensures |Remembered(times, top, window)| == |Surviving(times, top, window)|
  {
    if times == [] {
      assert Remembered(times, top, window) == {};
    } else {
      var n := |times| - 1;
      var before := Remembered(times[..n], Max(top, times[n]), window);
      SurvivingCounts(times[..n], Max(top, times[n]), window);
      RememberedOneMore(times, top, window);
    }
  }

  lemma RememberedOneMore(times: seq<int>, top: int, window: nat)
    requires times != []
    ensures var n := |times| - 1;
            Remembered(times, top, window)
            == Remembered(times[..n], Max(top, times[n]), window) + (if top - times[n] < window then {n} else {})
  {
    var n := |times| - 1;
    forall i: nat | i < n ensures Kept(times, top, window, i) <==> Kept(times[..n], Max(top, times[n]), window, i) {
      KeptOneMore(times, top, window, i);
    }
  }

  lemma KeptOneMore(times: seq<int>, top: int, window: nat, i: nat)
    requires i < |times| - 1
    ensures Kept(times, top, window, i) <==> Kept(times[..|times| - 1], Max(top, times[|times| - 1]), window, i)
  {
    var n := |times| - 1;
    assert forall k :: i < k < n ==> times[..n][k] == times[k];
  }

  /** Under any clock a call is admitted exactly if no more than `calls` calls of the full history,
      itself included, were never put out of the window by a reading up to now. */
  lemma AdmittedIffRemembered(times: seq<int>, limit: Limit, i: nat)
    requires i < |times| && limit.windowMs > 0
    ensures Admitted(times, limit, i) <==> |Remembered(times[..i + 1], times[i], limit.windowMs)| <= limit.calls
  {
    StoredSurvives(times[..i + 1], limit.windowMs);
    SurvivingCounts(times[..i + 1], times[i], limit.windowMs);
  }

  // ----- no window admits more than the limit -----

  ghost predicate InWindow(times: seq<int>, from: int, window: nat, i: nat)
    requires i < |times|
  {
    from <= times[i] < from + window
  }

  /** The calls a bucket let through in the half-open interval of one window length. */
  ghost function AdmittedIn(times: seq<int>, limit: Limit, from: int): set<nat> {
    set i: nat | i < |times| && InWindow(times, from, limit.windowMs, i) && Admitted(times, limit, i)
  }

  /** Less than a window apart. */
  predicate Near(a: int, b: int, window: nat) {
    a < b + window && b < a + window
  }

  /** Reading `k` puts reading `i` out of the window, and reading `j` comes back to it. */
  predicate ComesBack(readings: seq<int>, window: nat, i: nat, k: nat, j: nat)
    requires i < k < j < |readings|
  {
    readings[k] - readings[i] >= window && Near(readings[i], readings[j], window)
  }

  ghost predicate NeverComesBack(readings: seq<int>, window: nat) {
    forall i: nat, k: nat, j: nat :: i < k < j < |readings| ==> !ComesBack(readings, window, i, k, j)
  }

  /** A clock that does not run backwards never comes back; a small step backwards need not either. */
  lemma OrderedNeverComesBack(readings: seq<int>, window: nat)
    requires Ordered(readings)
    ensures NeverComesBack(readings, window)
  {
    forall i: nat, k: nat, j: nat | i < k < j < |readings| ensures !ComesBack(readings, window, i, k, j) {
      assert readings[k] <= readings[j];
    }
  }

  /** For every history whose clock never comes back to a forgotten reading, and every window, at most
      `limit.calls` calls pass. */
  lemma {:induction false} NoWindowAdmitsMoreThanTheLimit(times: seq<int>, limit: Limit, from: int)
    requires NeverComesBack(times, limit.windowMs)
    ensures |AdmittedIn(times, limit, from)| <= limit.calls
    decreases |times|
  {
    var all := AdmittedIn(times, limit, from);
    if times == [] {
      assert all == {};
    } else {
      var n := |times| - 1;
      if n in all {
        LastSeesAll(times, limit, from);
      } else {
        forall i: nat, k: nat, j: nat | i < k < j < n ensures !ComesBack(times[..n], limit.windowMs, i, k, j) {
          assert !ComesBack(times, limit.windowMs, i, k, j);
        }
        NoWindowAdmitsMoreThanTheLimit(times[..n], limit, from);
        EarlierAdmitted(times, limit, from);
      }
    }
  }

  /** Everything admitted in this window is still stored when the last call is judged. */
  lemma LastSeesAll(times: seq<int>, limit: Limit, from: int)
    requires NeverComesBack(times, limit.windowMs) && times != [] && |times| - 1 in AdmittedIn(times, limit, from)
    ensures |AdmittedIn(times, limit, from)| <= limit.calls
  {
    var n, w, all := |times| - 1, limit.windowMs, AdmittedIn(times, limit, from);
    forall i: nat | i in all ensures Kept(times, times[n], w, i) {
      forall k | i < k < |times| ensures times[k] - times[i] < w {
        if k < n {
          assert !ComesBack(times, w, i, k, n);
        }
      }
    }
    assert times[..n + 1] == times;
    AdmittedIffRemembered(times, limit, n);
    SubsetCount(all, Remembered(times, times[n], w));
  }

  lemma EarlierAdmitted(times: seq<int>, limit: Limit, from: int)
    requires times != [] && |times| - 1 !in AdmittedIn(times, limit, from)
    ensures AdmittedIn(times, limit, from) == AdmittedIn(times[..|times| - 1], limit, from)
  {
    var n := |times| - 1;
    var earlier := times[..n];
    forall i: nat | i < n ensures Admitted(times, limit, i) == Admitted(earlier, limit, i) {
      assert times[..i + 1] == earlier[..i + 1];
    }
  }

  // ----- which clocks keep the limit -----

  /** Call number `a` of a history was made at reading number `at[a]` of the clock. */
  ghost predicate ReadAt(times: seq<int>, readings: seq<int>, at: seq<nat>) {
    && |at| == |times|
    && (forall a :: 0 <= a < |at| ==> at[a] < |readings| && times[a] == readings[at[a]])
    && (forall a, b :: 0 <= a < b < |at| ==> at[a] <= at[b])
  }

  /** A history of calls made along the readings of a clock, any number of them at each reading. */
  ghost predicate Along(times: seq<int>, readings: seq<int>) {
    exists at :: ReadAt(times, readings, at)
  }

  /** The limiter keeps its promise on everything that can happen along a clock: every history, every
      number of calls, every window. */
  ghost predicate KeepsLimit(readings: seq<int>, window: nat) {
    forall times, calls: nat, from :: Along(times, readings) ==> |AdmittedIn(times, Limit(calls, window), from)| <= calls
  }

  /** It does so exactly if the clock never comes back to a reading it has put out of the window. */
  lemma KeepsLimitIff(readings: seq<int>, window: nat)
    ensures KeepsLimit(readings, window) <==> NeverComesBack(readings, window)
  {
    if NeverComesBack(readings, window) {
      forall times, calls: nat, from | Along(times, readings)
        ensures |AdmittedIn(times, Limit(calls, window), from)| <= calls
      {
        AlongNeverComesBack(times, readings, window);
        NoWindowAdmitsMoreThanTheLimit(times, Limit(calls, window), from);
      }
    }
    if i: nat, k: nat, j: nat :| i < k < j < |readings| && ComesBack(readings, window, i, k, j) {
      var a, b, c := readings[i], readings[k], readings[j];
      var times, at: seq<nat> := [a, a, b, c], [i, i, k, j];
      assert ReadAt(times, readings, at);
      ThreePass(a, a, b, c, window);
      SubsetCount({0, 1, 3}, AdmittedIn(times, Limit(2, window), if a < c then a else c));
    }
  }

  lemma AlongNeverComesBack(times: seq<int>, readings: seq<int>, window: nat)
    requires Along(times, readings) && NeverComesBack(readings, window)
    ensures NeverComesBack(times, window)
  {
    var at :| ReadAt(times, readings, at);
    forall i: nat, k: nat, j: nat | i < k < j < |times| ensures !ComesBack(times, window, i, k, j) {
      if at[i] < at[k] < at[j] {
        assert !ComesBack(readings, window, at[i], at[k], at[j]);
      }
    }
  }

  /** Two calls per window, judged with a clock that comes back: all but the one in between pass. */
  lemma ThreePass(a: int, b: int, far: int, back: int, window: nat)
    requires Near(a, b, window) && Near(a, back, window) && Near(b, back, window)
    requires far - a >= window && far - b >= window
    ensures var times, limit := [a, b, far, back], Limit(2, window);
            var from := if a <= b && a <= back then a else if b <= back then b else back;
            {0, 1, 3} <= AdmittedIn(times, limit, from)
  {
    var times, limit := [a, b, far, back], Limit(2, window);
    var from := if a <= b && a <= back then a else if b <= back then b else back;
    FourCalls(a, b, far, back, window);
    assert times[..1] == [a] && times[..2] == [a, b] && times[..4] == times;
    AdmittedMember(times, limit, from, 0);
    AdmittedMember(times, limit, from, 1);
    AdmittedMember(times, limit, from, 3);
  }

  /** The clock matters: two calls per ten, judged with a clock that jumps back, and three pass
      within one window. */
  lemma BackwardClockBreaksTheLimit()
    ensures {0, 1, 3} <= AdmittedIn([0, 1, 20, 2], Limit(2, 10), 0)
  {
    ThreePass(0, 1, 20, 2, 10);
  }

  lemma FourCalls(a: int, b: int, far: int, back: int, window: nat)
    requires Near(a, b, window) && Near(a, back, window) && far - a >= window && far - b >= window
    ensures Stored([a], window) == [a] && Stored([a, b], window) == [a, b]
    ensures Stored([a, b, far, back], window) == [far, back]
  {
    TwoCalls(a, b, window);
    ThirdCall(a, b, far, window);
    assert [a, b, far] + [back] == [a, b, far, back];
    RecentOfOne(far, back, window);
    StoredOfOneMore([a, b, far], back, window);
  }

  lemma ThirdCall(a: int, b: int, far: int, window: nat)
    requires Stored([a, b], window) == [a, b] && far - a >= window && far - b >= window
    ensures Stored([a, b, far], window) == [far]
  {
    assert [a, b] + [far] == [a, b, far];
    RecentOfTwo(a, b, far, window);
    StoredOfOneMore([a, b], far, window);
  }

  lemma TwoCalls(a: int, b: int, window: nat)
    requires Near(a, b, window)
    ensures Stored([a], window) == [a] && Stored([a, b], window) == [a, b]
  {
    assert [] + [a] == [a] && [a] + [b] == [a, b];
    StoredOfOneMore([], a, window);
    RecentOfOne(a, b, window);
    StoredOfOneMore([a], b, window);
  }

  lemma RecentOfOne(a: int, now: int, window: nat)
    ensures Recent([a], now, window) == if now - a < window then [a] else []
  {
    assert [] + [a] == [a];
    RecentOfOneMore([], a, now, window);
  }

  lemma RecentOfTwo(a: int, b: int, now: int, window: nat)
    requires now - a >= window && now - b >= window
    ensures Recent([a, b], now, window) == []
  {
    assert [a] + [b] == [a, b];
    RecentOfOne(a, now, window);
    RecentOfOneMore([a], b, now, window);
  }

  lemma AdmittedMember(times: seq<int>, limit: Limit, from: int, i: nat)
    requires i < |times| && InWindow(times, from, limit.windowMs, i) && Admitted(times, limit, i)
    ensures i in AdmittedIn(times, limit, from)
  {
  }

  lemma RecentOfOneMore(times: seq<int>, at: int, now: int, window: nat)
    ensures Recent(times + [at], now, window)
         == if now - at < window then Recent(times, now, window) + [at] else Recent(times, now, window)
  {
    assert (times + [at])[..|times|] == times;
  }

  lemma StoredOfOneMore(times: seq<int>, at: int, window: nat)
    ensures Stored(times + [at], window) == Recent(Stored(times, window), at, window) + [at]
  {
    assert (times + [at])[..|times|] == times;
  }

  // ----- silence and full buckets -----

  ghost function RecentIndices(times: seq<int>, now: int, window: nat): set<nat> {
    set i: nat | i < |times| && now - times[i] < window
  }

  lemma {:induction false} RecentCounts(times: seq<int>, now: int, window: nat)
    ensures |RecentIndices(times, now, window)| == |Recent(times, now, window)|
  {
    if times == [] {
      assert RecentIndices(times, now, window) == {};
    } else {
      var n := |times| - 1;
      RecentCounts(times[..n], now, window);
      assert RecentIndices(times, now, window)
          == RecentIndices(times[..n], now, window) + (if now - times[n] < window then {n} else {});
    }
  }

  /** After a whole window of silence a bucket always lets the next call through. */
  lemma SilenceReopens(times: seq<int>, limit: Limit, i: nat)
    requires Ordered(times) && i < |times| && limit.calls >= 1 && limit.windowMs > 0
    requires i == 0 || times[i] - times[i - 1] >= limit.windowMs
    ensures Admitted(times, limit, i)
  {
    var upTo := times[..i + 1];
    StoredIsTheLastWindow(upTo, limit.windowMs);
    RecentCounts(upTo, times[i], limit.windowMs);
    assert RecentIndices(upTo, times[i], limit.windowMs) == {i};
  }

  /** A bucket that admits nothing more is exactly one with `calls` other calls in its last window. */
  lemma RejectedMeansFull(times: seq<int>, limit: Limit, i: nat)
    requires Ordered(times) && i < |times| && limit.windowMs > 0
    ensures Admitted(times, limit, i)
            <==> |RecentIndices(times[..i + 1], times[i], limit.windowMs)| <= limit.calls
  {
    StoredIsTheLastWindow(times[..i + 1], limit.windowMs);
    RecentCounts(times[..i + 1], times[i], limit.windowMs);
  }

  // ----- buckets do not collide -----

  /** The limit keys the routers mount the limiter with. */
  const LIMIT_KEYS: set<string> :=
    {"default", "kb:write", "kb:query", "audit_search:query", "agents:trigger", "register", "playbooks:trigger",
     "connectors:sync"}

  /** `longer` is something, a colon, and then `shorter`. */
  predicate EndsWithKey(longer: string, shorter: string) {
    |longer| > |shorter| && longer[|longer| - |shorter| - 1] == ':' && longer[|longer| - |shorter|..] == shorter
  }

  /** Limit keys that no agent id can turn into one another. */
  ghost predicate Separated(keys: set<string>) {
    forall a, b :: a in keys && b in keys ==> !EndsWithKey(a, b)
  }

  lemma LimitKeysAreSeparated()
    ensures Separated(LIMIT_KEYS)
  {
    forall a, b | a in LIMIT_KEYS && b in LIMIT_KEYS ensures !EndsWithKey(a, b) {
      if EndsWithKey(a, b) {
        AfterTheColon(a, |a| - |b| - 1);
        LengthOfKey(b);
        assert false;
      }
    }
  }

  lemma AfterTheColon(key: string, i: nat)
    requires key in LIMIT_KEYS && i < |key| && key[i] == ':'
    ensures |key| - i - 1 == 4 || |key| - i - 1 == 5 || (|key| - i - 1 == 7 && key[i + 1] == 't')
  {
    if key == "kb:write" || key == "kb:query" {
      assert i == 2;
    } else if key == "audit_search:query" {
      assert i == 12;
    } else if key == "agents:trigger" {
      assert i == 6;
    } else if key == "playbooks:trigger" {
      assert i == 9;
    } else if key == "connectors:sync" {
      assert i == 10;
    }
  }

  lemma LengthOfKey(key: string)
    requires key in LIMIT_KEYS
    ensures |key| >= 7 && (|key| == 7 ==> key[0] == 'd')
  {
  }

  /** Whatever the agent id looks like (an IPv6 address contains colons), no two pairs of agent and
      limit key share a bucket. */
  lemma KeysAreInjective(keys: set<string>, a1: string, l1: string, a2: string, l2: string)
    requires Separated(keys) && l1 in keys && l2 in keys
    requires Key(a1, l1) == Key(a2, l2)
    ensures a1 == a2 && l1 == l2
  {
    var k := Key(a1, l1);
    if |l1| == |l2| {
      SplitKey(a1, l1);
      SplitKey(a2, l2);
    } else if |l1| > |l2| {
      HiddenKey(a1, l1, a2, l2);
    } else {
      HiddenKey(a2, l2, a1, l1);
    }
  }

  lemma SplitKey(agent: string, limitKey: string)
    ensures var k := Key(agent, limitKey);
            k[..|k| - |limitKey| - 1] == agent && k[|k| - |limitKey|..] == limitKey
  {
  }

  lemma HiddenKey(a1: string, l1: string, a2: string, l2: string)
    requires Key(a1, l1) == Key(a2, l2) && |l1| > |l2|
    ensures EndsWithKey(l1, l2)
  {
    var k, n := Key(a1, l1), |l1| - |l2|;
    SplitKey(a2, l2);
    forall i | 0 <= i < |l1| ensures l1[i] == k[|k| - |l1| + i] {
    }
    assert l1[n..] == l2;
  }

  // ----- the limiter itself -----

  /** The times of the calls of a history that fall into one bucket. */
  function TimesOf(history: seq<Call>, key: string): seq<int> {
    if history == [] then []
    else
      var n := |history| - 1;
      if Key(history[n].agent, history[n].limitKey) == key then TimesOf(history[..n], key) + [history[n].at]
      else TimesOf(history[..n], key)
  }

  lemma {:induction false} TimesOfOrdered(history: seq<Call>, key: string)
    requires forall i, j :: 0 <= i < j < |history| ==> history[i].at <= history[j].at
    ensures Ordered(TimesOf(history, key))
    ensures forall t :: t in TimesOf(history, key) ==> history != [] && t <= history[|history| - 1].at
  {
    if history != [] {
      var n := |history| - 1;
      var before := TimesOf(history[..n], key);
      TimesOfOrdered(history[..n], key);
      forall i | 0 <= i < |before| ensures before[i] <= history[n].at {
        assert before[i] in before;
      }
    }
  }

  /** The times at which one agent used one limit key. */
  function TimesOfPair(history: seq<Call>, agent: string, limitKey: string): seq<int> {
    if history == [] then []
    else
      var n := |history| - 1;
      if history[n].agent == agent && history[n].limitKey == limitKey then
        TimesOfPair(history[..n], agent, limitKey) + [history[n].at]
      else TimesOfPair(history[..n], agent, limitKey)
  }

  /** Per agent and limit key, over every history of all agents together: as long as the clock the pair's
      calls saw never comes back, no window of the key's length lets more than the key's number of calls
      through, and nobody else's calls count. */
  lemma LimitHoldsPerAgent(history: seq<Call>, keys: set<string>, agent: string, limitKey: string, from: int)
    requires Separated(keys) && limitKey in keys && forall c :: c in history ==> c.limitKey in keys
    requires NeverComesBack(TimesOfPair(history, agent, limitKey), LimitFor(limitKey).windowMs)
    ensures TimesOf(history, Key(agent, limitKey)) == TimesOfPair(history, agent, limitKey)
    ensures |AdmittedIn(TimesOfPair(history, agent, limitKey), LimitFor(limitKey), from)| <= LimitFor(limitKey).calls
  {
    TimesOfOnePair(history, keys, agent, limitKey);
    NoWindowAdmitsMoreThanTheLimit(TimesOfPair(history, agent, limitKey), LimitFor(limitKey), from);
  }

  /** In particular if the clock does not run backwards. */
  lemma LimitHoldsInOrder(history: seq<Call>, keys: set<string>, agent: string, limitKey: string, from: int)
    requires Separated(keys) && limitKey in keys && forall c :: c in history ==> c.limitKey in keys
    requires forall i, j :: 0 <= i < j < |history| ==> history[i].at <= history[j].at
    ensures |AdmittedIn(TimesOfPair(history, agent, limitKey), LimitFor(limitKey), from)| <= LimitFor(limitKey).calls
  {
    TimesOfOnePair(history, keys, agent, limitKey);
    TimesOfOrdered(history, Key(agent, limitKey));
    OrderedNeverComesBack(TimesOfPair(history, agent, limitKey), LimitFor(limitKey).windowMs);
    LimitHoldsPerAgent(history, keys, agent, limitKey, from);
  }

  lemma {:induction false} TimesOfOnePair(history: seq<Call>, keys: set<string>, agent: string, limitKey: string)
    requires Separated(keys) && limitKey in keys && forall c :: c in history ==> c.limitKey in keys
    ensures TimesOf(history, Key(agent, limitKey)) == TimesOfPair(history, agent, limitKey)
  {
    if history != [] {
      var n := |history| - 1;
      TimesOfOnePair(history[..n], keys, agent, limitKey);
      assert history[n] in history;
      if Key(history[n].agent, history[n].limitKey) == Key(agent, limitKey) {
        KeysAreInjective(keys, history[n].agent, history[n].limitKey, agent, limitKey);
      }
    }
  }

  function Bucket(windows: map<string, seq<int>>, key: string): seq<int> {
    if key in windows then windows[key] else []
  }

  /** Each bucket is what the calls of its own agent and limit key have left there. */
  ghost predicate Represents(windows: map<string, seq<int>>, history: seq<Call>, keys: set<string>) {
    forall agent, l :: l in keys ==>
      Bucket(windows, Key(agent, l)) == Stored(TimesOf(history, Key(agent, l)), LimitFor(l).windowMs)
  }

  lemma RepresentsStep(windows: map<string, seq<int>>, history: seq<Call>, keys: set<string>, c: Call)
    requires Separated(keys) && Represents(windows, history, keys) && c.limitKey in keys
    ensures var key := Key(c.agent, c.limitKey);
            && TimesOf(history + [c], key) == TimesOf(history, key) + [c.at]
            && Stored(TimesOf(history + [c], key), LimitFor(c.limitKey).windowMs)
               == Recent(Bucket(windows, key), c.at, LimitFor(c.limitKey).windowMs) + [c.at]
            && Represents(windows[key := Recent(Bucket(windows, key), c.at, LimitFor(c.limitKey).windowMs) + [c.at]],
                          history + [c], keys)
  {
    var key, window := Key(c.agent, c.limitKey), LimitFor(c.limitKey).windowMs;
    var windows' := windows[key := Recent(Bucket(windows, key), c.at, window) + [c.at]];
    assert (history + [c])[..|history|] == history;
    var before := TimesOf(history, key);
    assert (before + [c.at])[..|before|] == before;
    forall a, l | l in keys
      ensures Bucket(windows', Key(a, l)) == Stored(TimesOf(history + [c], Key(a, l)), LimitFor(l).windowMs)
    {
      if Key(a, l) == key {
        KeysAreInjective(keys, a, l, c.agent, c.limitKey);
      }
    }
  }

  /** The bucket after a call decides what the whole history decides. */
  lemma JudgedByTheBucket(windows: map<string, seq<int>>, history: seq<Call>, keys: set<string>, c: Call)
    requires Separated(keys) && Represents(windows, history, keys) && c.limitKey in keys
    ensures var key, limit := Key(c.agent, c.limitKey), LimitFor(c.limitKey);
            var times, calls := TimesOf(history + [c], key), Recent(Bucket(windows, key), c.at, limit.windowMs) + [c.at];
            && times == TimesOf(history, key) + [c.at]
            && Stored(times, limit.windowMs) == calls
            && (Admitted(times, limit, |times| - 1) <==> |calls| <= limit.calls)
  {
    RepresentsStep(windows, history, keys, c);
    var times := TimesOf(history + [c], Key(c.agent, c.limitKey));
    assert times[..|times|] == times;
  }

  datatype Response = Next(remaining: nat) | TooManyRequests(retryAfterSeconds: int)

  class Limiter {
    var windows: map<string, seq<int>>
    /** Every call ever made, admitted or not. */
    ghost var history: seq<Call>
    /** The limit keys this limiter is mounted with. */
    ghost const keys: set<string>

    ghost predicate Valid()
      reads this
    {
      Separated(keys) && Represents(windows, history, keys)
    }

    constructor (ghost keys: set<string>)
      requires Separated(keys)
      ensures Valid() && history == [] && this.keys == keys
    {
      windows, history, this.keys := map[], [], keys;
    }

    /** The middleware body. A call passes exactly when its bucket, as judged over the whole history
        of that agent and limit key, has room. */
    method Handle(agent: string, limitKey: string, now: int) returns (r: Response)
      requires Valid() && limitKey in keys
      modifies this
      ensures Valid() && history == old(history) + [Call(agent, limitKey, now)]
      ensures var times, limit := TimesOf(history, Key(agent, limitKey)), LimitFor(limitKey);
              && times == old(TimesOf(history, Key(agent, limitKey))) + [now]
              && (r.Next? <==> Admitted(times, limit, |times| - 1))
              && (r.Next? ==> r.remaining == limit.calls - |Stored(times, limit.windowMs)|)
              && (r.TooManyRequests? ==> r.retryAfterSeconds == (limit.windowMs + 999) / 1000)
    {
      RepresentsStep(windows, history, keys, Call(agent, limitKey, now));
      JudgedByTheBucket(windows, history, keys, Call(agent, limitKey, now));
      var key := Key(agent, limitKey);
      var limit := LimitFor(limitKey);
      ghost var before := windows;
      if key !in windows {
        windows := windows[key := []];
      }
      var calls := Filter(windows[key], now, limit.windowMs);
      calls := calls + [now];
      SameKeyTwice(before, key, [], calls);
      windows := windows[key := calls];
      history := history + [Call(agent, limitKey, now)];
      if |calls| > limit.calls {
        return TooManyRequests((limit.windowMs + 999) / 1000);
      }
      return Next(if limit.calls - |calls| > 0 then limit.calls - |calls| else 0);
    }
  }

  method Filter(times: seq<int>, now: int, window: nat) returns (kept: seq<int>)
    ensures kept == Recent(times, now, window)
  {
    kept := [];
    for i := 0 to |times|
      invariant kept == Recent(times[..i], now, window)
    {
      assert times[..i + 1][..i] == times[..i];
      if now - times[i] < window {
        kept := kept + [times[i]];
      }
    }
    assert times[..|times|] == times;
  }
}
