/**
 The replay defence: a symmetric timestamp window, then a nonce cache that forgets.

 Times are nanoseconds on one clock. Differences are the source's signed 64-bit durations, which saturate.
 */
module Replay {
  import opened Results

  const MAX_DURATION := 0x7FFF_FFFF_FFFF_FFFF
  const MIN_DURATION := -0x8000_0000_0000_0000

  /** Subtracting two times: the nearest duration. */
  function Sub(t: int, u: int): int {
    var d := t - u;
    if d > MAX_DURATION then MAX_DURATION else if d < MIN_DURATION then MIN_DURATION else d
  }

  /** Negating a duration: the least one is its own negation. */
  function Negate(d: int): int {
    if d == MIN_DURATION then MIN_DURATION else -d
  }

  // The timestamp stage.

  /** The timestamp header once parsed, if it is there and parses. */
  method CheckTimestamp(timestamp: Option<int>, now: int, tolerance: int) returns (err: Option<Code>)
    requires 0 <= tolerance < MAX_DURATION
    ensures err.None? <==> timestamp.Some? && InWindow(timestamp.value, now, tolerance)
    ensures err.Some? ==> err.value == TimestampWindow
  {
    if timestamp.None? {
      return Some(TimestampWindow);
    }
    var diff := Sub(now, timestamp.value);
    if diff < 0 {
      diff := Negate(diff);
    }
    if diff > tolerance {
      return Some(TimestampWindow);
    }
    return None;
  }

  /** What the stage lets through: the window, and every time so far ahead that the difference does not fit. */
  predicate InWindow(ts: int, now: int, tolerance: int) {
    now - tolerance <= ts <= now + tolerance || ts >= now + MAX_DURATION + 1
  }

  // The nonce cache.

  type Entries = map<string, int>

  function Evicted(entries: Entries, now: int, window: int): Entries {
    map k | k in entries && Sub(now, entries[k]) <= window :: entries[k]
  }

  function After(entries: Entries, nonce: string, now: int, window: int): Entries {
    var kept := Evicted(entries, now, window);
    if nonce in kept then kept else kept[nonce := now]
  }

  const NONCE_WINDOW := 30_000_000_000

  class NonceCache {
    const window: int
    var entries: Entries

    constructor (window: int)
      ensures this.window == if window == 0 then NONCE_WINDOW else window
      ensures entries == map[]
    {
      this.window := if window == 0 then NONCE_WINDOW else window;
      entries := map[];
    }

    method Evict(now: int)
      modifies this`entries
      ensures entries == Evicted(old(entries), now, window)
    {
      var left := entries.Keys;
      while left != {}
        invariant left <= entries.Keys <= old(entries).Keys
        invariant forall k | k in entries :: entries[k] == old(entries)[k]
        invariant forall k | k in old(entries) && k !in left :: k in entries <==> Sub(now, old(entries)[k]) <= window
        decreases left
      {
        var k :| k in left;
        if Sub(now, entries[k]) > window {
          entries := entries - {k};
        }
        left := left - {k};
      }
    }

    method Seen(nonce: string, now: int) returns (seen: bool)
      modifies this`entries
      ensures seen <==> nonce in Evicted(old(entries), now, window)
      ensures entries == After(old(entries), nonce, now, window)
    {
      Evict(now);
      if nonce in entries {
        return true;
      }
      entries := entries[nonce := now];
      return false;
    }
  }

  // The cache against a memory that never forgets.

  datatype Acceptance = Acceptance(nonce: string, at: int)

  datatype Call = Call(nonce: string, now: int)

  /** The nonce was accepted within the window before now. */
  ghost predicate Recent(history: seq<Acceptance>, nonce: string, now: int, window: int) {
    exists i | 0 <= i < |history| :: history[i].nonce == nonce && Sub(now, history[i].at) <= window
  }

  ghost function Remembered(history: seq<Acceptance>, call: Call, window: int): seq<Acceptance> {
    if Recent(history, call.nonce, call.now, window) then history else history + [Acceptance(call.nonce, call.now)]
  }

  /** Everything in the history happened by now, in order. */
  ghost predicate Past(history: seq<Acceptance>, now: int) {
    && (forall i | 0 <= i < |history| :: history[i].at <= now)
    && (forall i, j | 0 <= i < j < |history| :: history[i].at <= history[j].at)
  }

  ghost predicate IsLast(history: seq<Acceptance>, nonce: string, i: nat)
    requires i < |history|
  {
    history[i].nonce == nonce && forall j | i < j < |history| :: history[j].nonce != nonce
  }

  /** The entries are the last acceptances that are within the window. */
  ghost predicate Represents(entries: Entries, history: seq<Acceptance>, now: int, window: int) {
    forall k :: RepresentsAt(entries, history, k, now, window)
  }

  ghost predicate RepresentsAt(entries: Entries, history: seq<Acceptance>, k: string, now: int, window: int) {
    && (k in entries <==> Recent(history, k, now, window))
    && (k in entries ==> exists i | 0 <= i < |history| :: IsLast(history, k, i) && history[i].at == entries[k])
  }

  /** Eviction forgets what is no longer recent, and nothing else. */
  lemma EvictionForgets(entries: Entries, history: seq<Acceptance>, earlier: int, now: int, window: int)
    requires earlier <= now && Past(history, earlier) && Represents(entries, history, earlier, window)
    ensures Represents(Evicted(entries, now, window), history, now, window)
  {
    var kept := Evicted(entries, now, window);
    forall k ensures RepresentsAt(kept, history, k, now, window) {
      assert RepresentsAt(entries, history, k, earlier, window);
      KeyForgotten(entries, history, k, earlier, now, window);
    }
  }

  lemma KeyForgotten(entries: Entries, history: seq<Acceptance>, k: string, earlier: int, now: int, window: int)
    requires earlier <= now && Past(history, earlier) && RepresentsAt(entries, history, k, earlier, window)
    ensures RepresentsAt(Evicted(entries, now, window), history, k, now, window)
  {
    if Recent(history, k, now, window) {
      var i :| 0 <= i < |history| && history[i].nonce == k && Sub(now, history[i].at) <= window;
      assert Sub(earlier, history[i].at) <= window;
      assert k in entries;
      var j :| 0 <= j < |history| && IsLast(history, k, j) && history[j].at == entries[k];
      assert i <= j;
    }
    if k in Evicted(entries, now, window) {
      var j :| 0 <= j < |history| && IsLast(history, k, j) && history[j].at == entries[k];
    }
  }

  lemma AcceptanceAdds(entries: Entries, history: seq<Acceptance>, nonce: string, now: int, window: int)
    requires 0 <= window && Represents(entries, history, now, window) && nonce !in entries
    ensures Represents(entries[nonce := now], history + [Acceptance(nonce, now)], now, window)
  {
    var more, longer := entries[nonce := now], history + [Acceptance(nonce, now)];
    forall k ensures RepresentsAt(more, longer, k, now, window) {
      assert RepresentsAt(entries, history, k, now, window);
      KeyAdded(entries, history, k, nonce, now, window);
    }
  }

  lemma KeyAdded(entries: Entries, history: seq<Acceptance>, k: string, nonce: string, now: int, window: int)
    requires 0 <= window && nonce !in entries && RepresentsAt(entries, history, k, now, window)
    ensures RepresentsAt(entries[nonce := now], history + [Acceptance(nonce, now)], k, now, window)
  {
    var longer := history + [Acceptance(nonce, now)];
    var n := |history|;
    if k == nonce {
      assert longer[n].nonce == k && IsLast(longer, k, n);
    } else {
      if Recent(history, k, now, window) {
        var i :| 0 <= i < |history| && history[i].nonce == k && Sub(now, history[i].at) <= window;
        assert longer[i] == history[i];
      }
      if k in entries {
        var i :| 0 <= i < |history| && IsLast(history, k, i) && history[i].at == entries[k];
        assert longer[i] == history[i];
        assert IsLast(longer, k, i);
      }
    }
  }

  /** One call: the answer is whether the nonce was accepted within the window, and the cache stays exact. */
  lemma SeenIsExact(entries: Entries, history: seq<Acceptance>, earlier: int, call: Call, window: int)
    requires 0 <= window && earlier <= call.now && Past(history, earlier)
    requires Represents(entries, history, earlier, window)
    ensures call.nonce in Evicted(entries, call.now, window) <==> Recent(history, call.nonce, call.now, window)
    ensures
      Represents(After(entries, call.nonce, call.now, window), Remembered(history, call, window), call.now, window)
    ensures Past(Remembered(history, call, window), call.now)
  {
    EvictionForgets(entries, history, earlier, call.now, window);
    PastStays(history, earlier, call.now);
    LookupIsExact(Evicted(entries, call.now, window), history, call, window);
  }

  /** The lookup after eviction. */
  lemma LookupIsExact(kept: Entries, history: seq<Acceptance>, call: Call, window: int)
    requires 0 <= window && Past(history, call.now) && Represents(kept, history, call.now, window)
    ensures call.nonce in kept <==> Recent(history, call.nonce, call.now, window)
    ensures Represents(if call.nonce in kept then kept else kept[call.nonce := call.now],
                       Remembered(history, call, window), call.now, window)
    ensures Past(Remembered(history, call, window), call.now)
  {
    assert RepresentsAt(kept, history, call.nonce, call.now, window);
    if call.nonce !in kept {
      AcceptanceAdds(kept, history, call.nonce, call.now, window);
    }
  }

  lemma PastStays(history: seq<Acceptance>, earlier: int, now: int)
    requires Past(history, earlier) && earlier <= now
    ensures Past(history, now)
  {
  }

  ghost function RunEntries(entries: Entries, calls: seq<Call>, window: int): Entries
    decreases |calls|
  {
    if calls == [] then entries
    else RunEntries(After(entries, calls[0].nonce, calls[0].now, window), calls[1..], window)
  }

  ghost function RunHistory(history: seq<Acceptance>, calls: seq<Call>, window: int): seq<Acceptance>
    decreases |calls|
  {
    if calls == [] then history else RunHistory(Remembered(history, calls[0], window), calls[1..], window)
  }

  /** The clock never goes back. */
  ghost predicate Timely(start: int, calls: seq<Call>) {
    && (forall i | 0 <= i < |calls| :: start <= calls[i].now)
    && (forall i, j | 0 <= i < j < |calls| :: calls[i].now <= calls[j].now)
  }

  ghost function Latest(start: int, calls: seq<Call>): int {
    if calls == [] then start else calls[|calls| - 1].now
  }

  lemma TimelyRest(start: int, calls: seq<Call>)
    requires Timely(start, calls) && calls != []
    ensures start <= calls[0].now && Timely(calls[0].now, calls[1..])
    ensures Latest(start, calls) == Latest(calls[0].now, calls[1..])
  {
    assert forall i | 0 <= i < |calls| - 1 :: calls[1..][i] == calls[i + 1];
  }

  /** Over any calls the cache stays the window's part of the unbounded history, so eviction never changes an answer. */
  lemma {:induction false} CacheRefinesHistory(entries: Entries, history: seq<Acceptance>, start: int,
      calls: seq<Call>, window: int)
    requires 0 <= window && Past(history, start) && Represents(entries, history, start, window) && Timely(start, calls)
    ensures
      Represents(RunEntries(entries, calls, window), RunHistory(history, calls, window), Latest(start, calls), window)
    ensures Past(RunHistory(history, calls, window), Latest(start, calls))
    decreases |calls|
  {
    if calls != [] {
      SeenIsExact(entries, history, start, calls[0], window);
      TimelyRest(start, calls);
      CacheRefinesHistory(After(entries, calls[0].nonce, calls[0].now, window), Remembered(history, calls[0], window),
                          calls[0].now, calls[1..], window);
    }
  }

  // The two stages together.

  /** One request: its timestamp and nonce, and when the two stages looked at the clock. */
  datatype Attempt = Attempt(ts: int, nonce: string, checkedAt: int, seenAt: int)

  datatype Windows = Windows(tolerance: int, window: int)

  const SHIPPED := Windows(30_000_000_000, NONCE_WINDOW)

  ghost predicate Sensible(w: Windows) {
    0 <= w.tolerance < MAX_DURATION && 0 <= w.window < MAX_DURATION
  }

  /** The cache after both stages; the second runs only if the first lets the request through. */
  ghost function Processed(history: seq<Acceptance>, a: Attempt, w: Windows): seq<Acceptance> {
    if InWindow(a.ts, a.checkedAt, w.tolerance) then Remembered(history, Call(a.nonce, a.seenAt), w.window) else history
  }

  ghost predicate Passes(history: seq<Acceptance>, a: Attempt, w: Windows) {
    InWindow(a.ts, a.checkedAt, w.tolerance) && !Recent(history, a.nonce, a.seenAt, w.window)
  }

  ghost function ProcessedAll(history: seq<Acceptance>, attempts: seq<Attempt>, w: Windows): seq<Acceptance>
    decreases |attempts|
  {
    if attempts == [] then history else ProcessedAll(Processed(history, attempts[0], w), attempts[1..], w)
  }

  /** Attempts in the order in which they reach the nonce stage. */
  ghost predicate InOrder(attempts: seq<Attempt>) {
    && (forall i | 0 <= i < |attempts| :: attempts[i].checkedAt <= attempts[i].seenAt)
    && (forall i, j | 0 <= i < j < |attempts| :: attempts[i].seenAt <= attempts[j].seenAt)
  }

  lemma {:induction false} HistoryGrows(history: seq<Acceptance>, attempts: seq<Attempt>, w: Windows)
    ensures history <= ProcessedAll(history, attempts, w)
    decreases |attempts|
  {
    if attempts != [] {
      HistoryGrows(Processed(history, attempts[0], w), attempts[1..], w);
    }
  }

  lemma {:induction false} ProcessedSplit(history: seq<Acceptance>, attempts: seq<Attempt>, i: nat, w: Windows)
    requires i <= |attempts|
    ensures ProcessedAll(history, attempts, w)
         == ProcessedAll(ProcessedAll(history, attempts[..i], w), attempts[i..], w)
    decreases i
  {
    if i == 0 {
      assert attempts[0..] == attempts;
    } else {
      ProcessedSplit(Processed(history, attempts[0], w), attempts[1..], i - 1, w);
      assert attempts[1..][..i - 1] == attempts[..i][1..];
      assert attempts[1..][i - 1..] == attempts[i..];
    }
  }

  /** What passed stays in the history that later attempts meet. */
  lemma PassedIsRemembered(attempts: seq<Attempt>, w: Windows, i: nat, j: nat)
    requires i < j < |attempts| && Passes(ProcessedAll([], attempts[..i], w), attempts[i], w)
    ensures Acceptance(attempts[i].nonce, attempts[i].seenAt) in ProcessedAll([], attempts[..j], w)
  {
    var before := ProcessedAll([], attempts[..i], w);
    ProcessedSplit([], attempts[..j], i, w);
    assert attempts[..j][..i] == attempts[..i] && attempts[..j][i..] == attempts[i..j];
    assert attempts[i..j][0] == attempts[i] && attempts[i..j][1..] == attempts[i + 1..j];
    var after := Processed(before, attempts[i], w);
    HistoryGrows(after, attempts[i + 1..j], w);
    assert after[|before|] == Acceptance(attempts[i].nonce, attempts[i].seenAt);
    assert ProcessedAll([], attempts[..j], w)[|before|] == after[|before|];
  }

  /** The timestamp is not so far ahead that its difference from the clock saturates. */
  ghost predicate Measurable(a: Attempt) {
    a.ts <= a.checkedAt + MAX_DURATION
  }

  /** If one timestamp and nonce pass twice, the second request outlasted the nonce window inside its own window. */
  lemma PassingTwiceNeedsRoom(attempts: seq<Attempt>, w: Windows, i: nat, j: nat)
    requires Sensible(w) && InOrder(attempts) && i < j < |attempts|
    requires Passes(ProcessedAll([], attempts[..i], w), attempts[i], w)
    requires Passes(ProcessedAll([], attempts[..j], w), attempts[j], w)
    requires attempts[i].ts == attempts[j].ts && attempts[i].nonce == attempts[j].nonce
    ensures (attempts[i].ts - attempts[i].seenAt) + w.tolerance
            + (attempts[j].seenAt - attempts[j].checkedAt) > w.window
  {
    PassedIsRemembered(attempts, w, i, j);
    var history := ProcessedAll([], attempts[..j], w);
    var n :| 0 <= n < |history| && history[n] == Acceptance(attempts[i].nonce, attempts[i].seenAt);
    assert Sub(attempts[j].seenAt, history[n].at) > w.window;
  }

  /**
   No timestamp and nonce pass twice, in any run, where the nonce window is at least twice the tolerance plus the
   longest time a request takes from the one stage to the other, if the timestamp's distance could be measured when it
   passed first.
   */
  lemma NoReplay(attempts: seq<Attempt>, w: Windows, delay: int, i: nat, j: nat)
    requires Sensible(w) && InOrder(attempts) && i < j < |attempts|
    requires w.window >= 2 * w.tolerance + delay
    requires attempts[j].seenAt - attempts[j].checkedAt <= delay && Measurable(attempts[i])
    requires Passes(ProcessedAll([], attempts[..i], w), attempts[i], w)
    requires attempts[i].ts == attempts[j].ts && attempts[i].nonce == attempts[j].nonce
    ensures !Passes(ProcessedAll([], attempts[..j], w), attempts[j], w)
  {
    if Passes(ProcessedAll([], attempts[..j], w), attempts[j], w) {
      PassingTwiceNeedsRoom(attempts, w, i, j);
    }
  }

  /** As shipped, that covers every timestamp at least the delay behind the clock when it first passes. */
  lemma NoReplayAsShipped(attempts: seq<Attempt>, i: nat, j: nat)
    requires InOrder(attempts) && i < j < |attempts|
    requires Passes(ProcessedAll([], attempts[..i], SHIPPED), attempts[i], SHIPPED)
    requires attempts[i].ts == attempts[j].ts && attempts[i].nonce == attempts[j].nonce
    requires attempts[i].ts + (attempts[j].seenAt - attempts[j].checkedAt) <= attempts[i].seenAt
    ensures !Passes(ProcessedAll([], attempts[..j], SHIPPED), attempts[j], SHIPPED)
  {
    if Passes(ProcessedAll([], attempts[..j], SHIPPED), attempts[j], SHIPPED) {
      PassingTwiceNeedsRoom(attempts, SHIPPED, i, j);
    }
  }

  /** Thirty seconds on either side, the last nanosecond included, for the timestamp; as long for the nonce. */
  lemma ThirtySeconds(ts: int, now: int, at: int, nonce: string)
    requires ts < now + 0x8000_0000_0000_0000 && now < at + 0x8000_0000_0000_0000
    ensures InWindow(ts, now, SHIPPED.tolerance) <==> now - 30_000_000_000 <= ts <= now + 30_000_000_000
    ensures Recent([Acceptance(nonce, at)], nonce, now, SHIPPED.window) <==> now <= at + 30_000_000_000
    ensures nonce in Evicted(map[nonce := at], now, SHIPPED.window) <==> now <= at + 30_000_000_000
  {
    var history := [Acceptance(nonce, at)];
    assert history[0].nonce == nonce;
  }

  /** A second request with the same timestamp and nonce, that takes d from one stage to the other and passes. */
  ghost predicate PassesAgain(a: Attempt, b: Attempt, d: int, w: Windows) {
    && b.ts == a.ts && b.nonce == a.nonce && b.seenAt == b.checkedAt + d && a.seenAt <= b.seenAt
    && Passes(Processed([], a, w), b, w)
  }

  /** The bound is exact: after a first pass there is a second that passes exactly when there is room for it. */
  lemma ReplayIff(a: Attempt, d: int, w: Windows)
    requires Sensible(w) && 0 <= d && a.checkedAt <= a.seenAt
    requires Passes([], a, w)
    ensures (exists b :: PassesAgain(a, b, d, w)) <==> (a.ts - a.seenAt) + w.tolerance + d > w.window
  {
    var history := Processed([], a, w);
    assert history == [Acceptance(a.nonce, a.seenAt)];
    if b :| PassesAgain(a, b, d, w) {
      assert Sub(b.seenAt, history[0].at) > w.window;
    }
    if (a.ts - a.seenAt) + w.tolerance + d > w.window {
      var b := Attempt(a.ts, a.nonce, a.ts + w.tolerance, a.ts + w.tolerance + d);
      assert PassesAgain(a, b, d, w);
    }
  }

  /** Beyond what a duration can hold the timestamp stage no longer limits anything: the nonce alone is checked. */
  lemma BeyondMeasure(a: Attempt, w: Windows) returns (b: Attempt)
    requires Sensible(w) && Passes([], a, w) && a.ts > a.seenAt + w.window + 1 + MAX_DURATION
    ensures b.ts == a.ts && b.nonce == a.nonce && a.seenAt <= b.checkedAt == b.seenAt
    ensures Passes(Processed([], a, w), b, w)
  {
    var later := a.seenAt + w.window + 1;
    b := Attempt(a.ts, a.nonce, later, later);
    assert Processed([], a, w) == [Acceptance(a.nonce, a.seenAt)];
  }
}
