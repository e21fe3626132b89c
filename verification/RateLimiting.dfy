/**
  `SlidingWindowRateLimiter` (sliding-window-rate-limiter.ts): at most `maxHits` accepted
  attempts of a key inside any trailing window.
*/
module RateLimiting {
  datatype Key = Key(id: string)

  datatype Limits = Limits(maxHits: int, windowMs: int)

  /** `hits.filter((at) => now - at < windowMs)` */
  function Recent(hits: seq<int>, now: int, windowMs: int): seq<int> {
    if hits == [] then []
    else if now - hits[0] < windowMs then [hits[0]] + Recent(hits[1..], now, windowMs)
    else Recent(hits[1..], now, windowMs)
  }

  function Hits(m: map<Key, seq<int>>, key: Key): seq<int> {
    if key in m then m[key] else []
  }

  function Accepts(l: Limits, hits: seq<int>, now: int): bool {
    |Recent(hits, now, l.windowMs)| < l.maxHits
  }

  datatype Event = Attempt(key: Key, at: int) | Forget(key: Key) | Reset

  /** The limiter's map after an event. */
  function Next(l: Limits, m: map<Key, seq<int>>, e: Event): map<Key, seq<int>> {
    match e
    case Attempt(key, at) =>
      var recent := Recent(Hits(m, key), at, l.windowMs);
      m[key := if |recent| >= l.maxHits then recent else recent + [at]]
    case Forget(key) => m - {key}
    case Reset => map[]
  }

  predicate Accepted(l: Limits, m: map<Key, seq<int>>, e: Event) {
    e.Attempt? && Accepts(l, Hits(m, e.key), e.at)
  }

  function Run(l: Limits, m: map<Key, seq<int>>, events: seq<Event>): map<Key, seq<int>>
    decreases |events|
  {
    if events == [] then m else Run(l, Next(l, m, events[0]), events[1..])
  }

  /** What `tryConsume` answers on each event of the run; other events count as refused. */
  function Decisions(l: Limits, m: map<Key, seq<int>>, events: seq<Event>): (r: seq<bool>)
    ensures |r| == |events|
    decreases |events|
  {
    if events == [] then [] else [Accepted(l, m, events[0])] + Decisions(l, Next(l, m, events[0]), events[1..])
  }

  // ---------------------------------------------------------------- reference: keep everything

  /** The same limiter, never dropping an accepted attempt. */
  function FullNext(l: Limits, h: map<Key, seq<int>>, e: Event): map<Key, seq<int>> {
    match e
    case Attempt(key, at) => if Accepts(l, Hits(h, key), at) then h[key := Hits(h, key) + [at]] else h
    case Forget(key) => h - {key}
    case Reset => map[]
  }

  function FullDecisions(l: Limits, h: map<Key, seq<int>>, events: seq<Event>): (r: seq<bool>)
    ensures |r| == |events|
    decreases |events|
  {
    if events == [] then [] else [Accepted(l, h, events[0])] + FullDecisions(l, FullNext(l, h, events[0]), events[1..])
  }

  function FullRun(l: Limits, h: map<Key, seq<int>>, events: seq<Event>): map<Key, seq<int>>
    decreases |events|
  {
    if events == [] then h else FullRun(l, FullNext(l, h, events[0]), events[1..])
  }

  /** A non-decreasing clock, from `since` on. */
  ghost predicate ClockFrom(since: int, events: seq<Event>)
    decreases |events|
  {
    events != [] ==>
      (events[0].Attempt? ==> since <= events[0].at)
      && ClockFrom(if events[0].Attempt? then events[0].at else since, events[1..])
  }

  // ---------------------------------------------------------------- the pruned map is as good as the full history

  lemma {:induction false} RecentLater(hits: seq<int>, t0: int, t1: int, windowMs: int)
    requires t0 <= t1
    ensures Recent(Recent(hits, t0, windowMs), t1, windowMs) == Recent(hits, t1, windowMs)
  {
    if hits != [] {
      RecentLater(hits[1..], t0, t1, windowMs);
      if t0 - hits[0] < windowMs {
        assert ([hits[0]] + Recent(hits[1..], t0, windowMs))[1..] == Recent(hits[1..], t0, windowMs);
      }
    }
  }

  lemma {:induction false} RecentAppend(a: seq<int>, b: seq<int>, now: int, windowMs: int)
    ensures Recent(a + b, now, windowMs) == Recent(a, now, windowMs) + Recent(b, now, windowMs)
  {
    if a == [] {
      assert a + b == b;
    } else {
      assert (a + b)[1..] == a[1..] + b;
      RecentAppend(a[1..], b, now, windowMs);
    }
  }

  /** No decision from time `since` on can tell the two histories of a key apart. */
  ghost predicate Alike(l: Limits, a: seq<int>, b: seq<int>, since: int) {
    forall now :: since <= now ==> Recent(a, now, l.windowMs) == Recent(b, now, l.windowMs)
  }

  ghost predicate AllAlike(l: Limits, m: map<Key, seq<int>>, h: map<Key, seq<int>>, since: int) {
    forall key :: Alike(l, Hits(m, key), Hits(h, key), since)
  }

  lemma PrunedAlike(l: Limits, hits: seq<int>, full: seq<int>, since: int, at: int, added: seq<int>)
    requires Alike(l, hits, full, since) && since <= at
    ensures Alike(l, Recent(hits, at, l.windowMs) + added, full + added, at)
  {
    forall now | at <= now
      ensures Recent(Recent(hits, at, l.windowMs) + added, now, l.windowMs) == Recent(full + added, now, l.windowMs)
    {
      RecentAppend(Recent(hits, at, l.windowMs), added, now, l.windowMs);
      RecentAppend(full, added, now, l.windowMs);
      RecentLater(hits, at, now, l.windowMs);
    }
  }

  lemma NextAlike(l: Limits, m: map<Key, seq<int>>, h: map<Key, seq<int>>, since: int, e: Event)
    requires AllAlike(l, m, h, since) && (e.Attempt? ==> since <= e.at)
    ensures Accepted(l, m, e) == Accepted(l, h, e)
    ensures AllAlike(l, Next(l, m, e), FullNext(l, h, e), if e.Attempt? then e.at else since)
  {
    match e {
      case Attempt(key, at) =>
        assert Alike(l, Hits(m, key), Hits(h, key), since);
        var added := if Accepts(l, Hits(m, key), at) then [at] else [];
        PrunedAlike(l, Hits(m, key), Hits(h, key), since, at, added);
        assert Hits(Next(l, m, e), key) == Recent(Hits(m, key), at, l.windowMs) + added;
        assert Hits(FullNext(l, h, e), key) == Hits(h, key) + added;
        forall k ensures Alike(l, Hits(Next(l, m, e), k), Hits(FullNext(l, h, e), k), at) {
          assert Alike(l, Hits(m, k), Hits(h, k), since);
        }
      case Forget(key) =>
        forall k ensures Alike(l, Hits(Next(l, m, e), k), Hits(FullNext(l, h, e), k), since) {
          assert Alike(l, Hits(m, k), Hits(h, k), since);
        }
      case Reset =>
    }
  }

  lemma {:induction false} SameDecisions(l: Limits, m: map<Key, seq<int>>, h: map<Key, seq<int>>, since: int, events: seq<Event>)
    requires AllAlike(l, m, h, since) && ClockFrom(since, events)
    ensures Decisions(l, m, events) == FullDecisions(l, h, events)
    decreases |events|
  {
    if events != [] {
      var e := events[0];
      NextAlike(l, m, h, since, e);
      SameDecisions(l, Next(l, m, e), FullNext(l, h, e), if e.Attempt? then e.at else since, events[1..]);
    }
  }

  /** Every decision of every run equals the one a limiter keeping the full history would make. */
  lemma AsIfNothingWasDropped(l: Limits, since: int, events: seq<Event>)
    requires ClockFrom(since, events)
    ensures Decisions(l, map[], events) == FullDecisions(l, map[], events)
  {
    SameDecisions(l, map[], map[], since, events);
  }

  // ---------------------------------------------------------------- refused attempts leave no trace

  /** The entries at the positions marked true. */
  function Kept<T>(s: seq<T>, keep: seq<bool>): seq<T>
    requires |keep| == |s|
  {
    if s == [] then [] else (if keep[0] then [s[0]] else []) + Kept(s[1..], keep[1..])
  }

  /** `keep` deletes nothing but refused attempts. */
  ghost predicate DeletesRefused(events: seq<Event>, decisions: seq<bool>, keep: seq<bool>) {
    && |keep| == |events| == |decisions|
    && forall i :: 0 <= i < |keep| && !keep[i] ==> events[i].Attempt? && !decisions[i]
  }

  lemma {:induction false} FullIgnoresRefused(l: Limits, h: map<Key, seq<int>>, events: seq<Event>, keep: seq<bool>)
    requires DeletesRefused(events, FullDecisions(l, h, events), keep)
    ensures FullDecisions(l, h, Kept(events, keep)) == Kept(FullDecisions(l, h, events), keep)
    decreases |events|
  {
    if events != [] {
      var next := FullNext(l, h, events[0]);
      assert FullDecisions(l, h, events)[1..] == FullDecisions(l, next, events[1..]);
      FullIgnoresRefused(l, next, events[1..], keep[1..]);
      if keep[0] {
        assert Kept(events, keep)[1..] == Kept(events[1..], keep[1..]);
      } else {
        assert next == h;
        assert Kept(events, keep) == Kept(events[1..], keep[1..]);
      }
    }
  }

  lemma {:induction false} KeptClock(since: int, earlier: int, events: seq<Event>, keep: seq<bool>)
    requires |keep| == |events| && ClockFrom(since, events) && earlier <= since
    ensures ClockFrom(earlier, Kept(events, keep))
    decreases |events|
  {
    if events != [] {
      var from := if events[0].Attempt? then events[0].at else since;
      if keep[0] {
        KeptClock(from, if events[0].Attempt? then from else earlier, events[1..], keep[1..]);
        assert Kept(events, keep)[1..] == Kept(events[1..], keep[1..]);
      } else {
        KeptClock(from, earlier, events[1..], keep[1..]);
        assert Kept(events, keep) == Kept(events[1..], keep[1..]);
      }
    }
  }

  /**
    Deleting any refused attempts from a run changes no decision about what remains: hammering
    does not extend one's own lockout.
  */
  lemma RefusedLeaveNoTrace(l: Limits, since: int, events: seq<Event>, keep: seq<bool>)
    requires ClockFrom(since, events)
    requires DeletesRefused(events, Decisions(l, map[], events), keep)
    ensures Decisions(l, map[], Kept(events, keep)) == Kept(Decisions(l, map[], events), keep)
  {
    AsIfNothingWasDropped(l, since, events);
    FullIgnoresRefused(l, map[], events, keep);
    KeptClock(since, since, events, keep);
    AsIfNothingWasDropped(l, since, Kept(events, keep));
  }

  // ---------------------------------------------------------------- spacing

  ghost predicate Ascending(hits: seq<int>) {
    forall i, j :: 0 <= i < j < |hits| ==> hits[i] <= hits[j]
  }

  /** Hits that are `maxHits` apart in order are at least `windowMs` apart in time. */
  ghost predicate Spaced(l: Limits, hits: seq<int>) {
    forall i, j :: 0 <= i < j < |hits| && j - i >= l.maxHits ==> hits[j] - hits[i] >= l.windowMs
  }

  lemma {:induction false} RecentCount(hits: seq<int>, now: int, windowMs: int, i: nat)
    requires Ascending(hits) && i < |hits| && now - hits[i] < windowMs
    ensures |Recent(hits, now, windowMs)| >= |hits| - i
    decreases |hits|
  {
    if i > 0 {
      RecentCount(hits[1..], now, windowMs, i - 1);
    } else if |hits| > 1 {
      RecentCount(hits[1..], now, windowMs, 0);
    }
  }

  lemma AcceptKeepsSpacing(l: Limits, hits: seq<int>, now: int)
    requires Ascending(hits) && Spaced(l, hits) && Accepts(l, hits, now)
    requires hits != [] ==> hits[|hits| - 1] <= now
    ensures Ascending(hits + [now]) && Spaced(l, hits + [now])
  {
    var longer := hits + [now];
    forall i | 0 <= i < |hits| && |hits| - i >= l.maxHits ensures now - hits[i] >= l.windowMs {
      if now - hits[i] < l.windowMs {
        RecentCount(hits, now, l.windowMs, i);
      }
    }
    forall i, j | 0 <= i < j < |longer|
      ensures longer[i] <= longer[j] && (j - i >= l.maxHits ==> longer[j] - longer[i] >= l.windowMs)
    {
      if j == |hits| {
        assert hits[i] <= hits[|hits| - 1];
      }
    }
  }

  ghost predicate GoodHistory(l: Limits, hits: seq<int>, since: int) {
    Ascending(hits) && Spaced(l, hits) && (hits != [] ==> hits[|hits| - 1] <= since)
  }

  lemma {:induction false} FullRunSpaced(l: Limits, h: map<Key, seq<int>>, since: int, events: seq<Event>, key: Key)
    requires ClockFrom(since, events) && GoodHistory(l, Hits(h, key), since)
    ensures Spaced(l, Hits(FullRun(l, h, events), key))
    decreases |events|
  {
    if events != [] {
      var e := events[0];
      var next := FullNext(l, h, e);
      if e.Attempt? && e.key == key && Accepts(l, Hits(h, key), e.at) {
        AcceptKeepsSpacing(l, Hits(h, key), e.at);
      }
      FullRunSpaced(l, next, if e.Attempt? then e.at else since, events[1..], key);
    }
  }

  /** An attempt of a key and what was decided. */
  datatype Try = Try(at: int, ok: bool)

  /** The attempts of a key since it was last forgotten, in order, after the `earlier` ones. */
  function Tries(earlier: seq<Try>, events: seq<Event>, decisions: seq<bool>, key: Key): seq<Try>
    requires |events| == |decisions|
    decreases |events|
  {
    if events == [] then earlier
    else
      var now := match events[0]
        case Attempt(k, at) => if k == key then earlier + [Try(at, decisions[0])] else earlier
        case Forget(k) => if k == key then [] else earlier
        case Reset => [];
      Tries(now, events[1..], decisions[1..], key)
  }

  /** The times of the accepted ones. */
  function AcceptedTimes(tries: seq<Try>): seq<int> {
    if tries == [] then []
    else AcceptedTimes(tries[..|tries| - 1]) + (if tries[|tries| - 1].ok then [tries[|tries| - 1].at] else [])
  }

  lemma {:induction false} AcceptedIsFullHistory(l: Limits, h: map<Key, seq<int>>, earlier: seq<Try>, events: seq<Event>, key: Key)
    requires Hits(h, key) == AcceptedTimes(earlier)
    ensures Hits(FullRun(l, h, events), key) == AcceptedTimes(Tries(earlier, events, FullDecisions(l, h, events), key))
    decreases |events|
  {
    if events != [] {
      var e, next := events[0], FullNext(l, h, events[0]);
      var decisions := FullDecisions(l, h, events);
      assert decisions[1..] == FullDecisions(l, next, events[1..]);
      var now := match e
        case Attempt(k, at) => if k == key then earlier + [Try(at, decisions[0])] else earlier
        case Forget(k) => if k == key then [] else earlier
        case Reset => [];
      assert e.Attempt? ==> (earlier + [Try(e.at, decisions[0])])[..|earlier|] == earlier;
      AcceptedIsFullHistory(l, next, now, events[1..], key);
    }
  }

  /**
    After every run, any two accepted attempts of a key since it was last forgotten that are
    `maxHits` apart in order are at least a window apart.
  */
  lemma AcceptedAreSpaced(l: Limits, since: int, events: seq<Event>, key: Key)
    requires ClockFrom(since, events)
    ensures Spaced(l, AcceptedTimes(Tries([], events, Decisions(l, map[], events), key)))
  {
    AsIfNothingWasDropped(l, since, events);
    AcceptedIsFullHistory(l, map[], [], events, key);
    FullRunSpaced(l, map[], since, events, key);
  }

  // ---------------------------------------------------------------- any clock: when a dropped hit matters

  /** A hit is dropped by the first later attempt of its key, accepted or not, that is a window or more after it. */
  ghost predicate Dropped(l: Limits, tries: seq<Try>, j: nat)
    requires j < |tries|
  {
    tries[j].ok && exists k :: j < k < |tries| && tries[k].at - tries[j].at >= l.windowMs
  }

  /** The dropped hits that are inside the window again at a time. */
  ghost function BackInWindow(l: Limits, tries: seq<Try>, at: int): set<nat> {
    set j: nat | j < |tries| && Dropped(l, tries, j) && at - tries[j].at < l.windowMs
  }

  /** What the limiter still holds: the accepted attempts that were not dropped. */
  ghost function Held(l: Limits, tries: seq<Try>): seq<int> {
    HeldFrom(l, tries, |tries|)
  }

  /** The first `n` tries' share of it. */
  ghost function HeldFrom(l: Limits, tries: seq<Try>, n: nat): seq<int>
    requires n <= |tries|
  {
    if n == 0 then []
    else HeldFrom(l, tries, n - 1) + (if tries[n - 1].ok && !Dropped(l, tries, n - 1) then [tries[n - 1].at] else [])
  }

  lemma DroppedSnoc(l: Limits, tries: seq<Try>, t: Try, j: nat)
    requires j < |tries|
    ensures Dropped(l, tries + [t], j) <==> Dropped(l, tries, j) || (tries[j].ok && t.at - tries[j].at >= l.windowMs)
  {
    var longer := tries + [t];
    assert longer[j] == tries[j] && longer[|tries|] == t;
    assert forall k :: j < k < |tries| ==> longer[k] == tries[k];
  }

  /** The last of the first `n` tries, before and after one more attempt. */
  lemma HeldFromLast(l: Limits, tries: seq<Try>, t: Try, n: nat)
    requires 0 < n <= |tries|
    ensures
      var last := tries[n - 1];
      var held, longer := HeldFrom(l, tries, n - 1), HeldFrom(l, tries + [t], n - 1);
      && HeldFrom(l, tries, n) == (if last.ok && !Dropped(l, tries, n - 1) then held + [last.at] else held)
      && HeldFrom(l, tries + [t], n) ==
           (if last.ok && !Dropped(l, tries, n - 1) && t.at - last.at < l.windowMs then longer + [last.at] else longer)
  {
    assert (tries + [t])[n - 1] == tries[n - 1];
    DroppedSnoc(l, tries, t, n - 1);
  }

  lemma {:induction false} HeldFromSnoc(l: Limits, tries: seq<Try>, t: Try, n: nat)
    requires n <= |tries|
    ensures HeldFrom(l, tries + [t], n) == Recent(HeldFrom(l, tries, n), t.at, l.windowMs)
  {
    if n > 0 {
      HeldFromSnoc(l, tries, t, n - 1);
      HeldFromLast(l, tries, t, n);
      RecentOfOneMore(HeldFrom(l, tries, n - 1), tries[n - 1].at, t.at, l.windowMs);
    }
  }

  /** One more attempt prunes what is held and adds itself if accepted, as `tryConsume` does. */
  lemma HeldSnoc(l: Limits, tries: seq<Try>, t: Try)
    ensures Held(l, tries + [t]) == Recent(Held(l, tries), t.at, l.windowMs) + (if t.ok then [t.at] else [])
  {
    HeldFromSnoc(l, tries, t, |tries|);
  }

  /** So the limiter's map holds exactly the accepted attempts that were not dropped. */
  lemma {:induction false} MapHoldsTheRest(l: Limits, m: map<Key, seq<int>>, earlier: seq<Try>, events: seq<Event>, key: Key)
    requires Hits(m, key) == Held(l, earlier)
    ensures Hits(Run(l, m, events), key) == Held(l, Tries(earlier, events, Decisions(l, m, events), key))
    decreases |events|
  {
    if events != [] {
      var e, next := events[0], Next(l, m, events[0]);
      var decisions := Decisions(l, m, events);
      assert decisions[1..] == Decisions(l, next, events[1..]);
      var now := match e
        case Attempt(k, at) => if k == key then earlier + [Try(at, decisions[0])] else earlier
        case Forget(k) => if k == key then [] else earlier
        case Reset => [];
      if e.Attempt? && e.key == key {
        HeldSnoc(l, earlier, Try(e.at, decisions[0]));
      }
      MapHoldsTheRest(l, next, now, events[1..], key);
    }
  }

  ghost function BackAmong(l: Limits, tries: seq<Try>, n: nat, at: int): set<nat>
    requires n <= |tries|
  {
    set j: nat | j < n && Dropped(l, tries, j) && at - tries[j].at < l.windowMs
  }

  /** Among the first `n` tries: both filters agree, but for the dropped hits that are back in the window. */
  lemma {:induction false} FilteredAmong(l: Limits, tries: seq<Try>, n: nat, at: int)
    requires n <= |tries|
    ensures
      var full, held := AcceptedTimes(tries[..n]), HeldFrom(l, tries, n);
      && |Recent(full, at, l.windowMs)| == |Recent(held, at, l.windowMs)| + |BackAmong(l, tries, n, at)|
      && (BackAmong(l, tries, n, at) == {} ==> Recent(full, at, l.windowMs) == Recent(held, at, l.windowMs))
  {
    if n > 0 {
      FilteredAmong(l, tries, n - 1, at);
      var last := tries[n - 1];
      var full, held := AcceptedTimes(tries[..n - 1]), HeldFrom(l, tries, n - 1);
      assert tries[..n][..n - 1] == tries[..n - 1] && tries[..n][n - 1] == last;
      assert AcceptedTimes(tries[..n]) == if last.ok then full + [last.at] else full;
      assert HeldFrom(l, tries, n) == if last.ok && !Dropped(l, tries, n - 1) then held + [last.at] else held;
      RecentOfOneMore(full, last.at, at, l.windowMs);
      RecentOfOneMore(held, last.at, at, l.windowMs);
      BackAmongStep(l, tries, n, at);
    }
  }

  lemma RecentOfOneMore(hits: seq<int>, hit: int, now: int, windowMs: int)
    ensures Recent(hits + [hit], now, windowMs) == Recent(hits, now, windowMs) + (if now - hit < windowMs then [hit] else [])
  {
    RecentAppend(hits, [hit], now, windowMs);
    assert [hit][1..] == [];
  }

  lemma BackAmongStep(l: Limits, tries: seq<Try>, n: nat, at: int)
    requires 0 < n <= |tries|
    ensures
      var back := Dropped(l, tries, n - 1) && at - tries[n - 1].at < l.windowMs;
      && BackAmong(l, tries, n, at) == BackAmong(l, tries, n - 1, at) + (if back then {n - 1} else {})
      && |BackAmong(l, tries, n, at)| == |BackAmong(l, tries, n - 1, at)| + (if back then 1 else 0)
  {
    var back := Dropped(l, tries, n - 1) && at - tries[n - 1].at < l.windowMs;
    assert BackAmong(l, tries, n, at) == BackAmong(l, tries, n - 1, at) + (if back then {n - 1} else {});
  }

  /**
    For any clock: the pruned and the full history filter alike at a time if and only if no
    dropped hit is back in the window then; otherwise the full one counts exactly those more.
  */
  lemma FiltersAlikeIff(l: Limits, tries: seq<Try>, at: int)
    ensures Recent(Held(l, tries), at, l.windowMs) == Recent(AcceptedTimes(tries), at, l.windowMs)
            <==> BackInWindow(l, tries, at) == {}
    ensures |Recent(AcceptedTimes(tries), at, l.windowMs)|
         == |Recent(Held(l, tries), at, l.windowMs)| + |BackInWindow(l, tries, at)|
  {
    FilteredAmong(l, tries, |tries|, at);
    assert tries[..|tries|] == tries;
    assert BackAmong(l, tries, |tries|, at) == BackInWindow(l, tries, at);
  }

  /** What is held leaves room for an attempt at this time, but not with the dropped hits that are back in the window. */
  ghost predicate Misled(l: Limits, tries: seq<Try>, at: int) {
    var held := |Recent(Held(l, tries), at, l.windowMs)|;
    held < l.maxHits <= held + |BackInWindow(l, tries, at)|
  }

  /** The attempts of a key before the `i`-th event of a run, as the limiter decided them. */
  ghost function TriesBefore(l: Limits, events: seq<Event>, i: nat, key: Key): seq<Try>
    requires i <= |events|
  {
    Tries([], events[..i], Decisions(l, map[], events[..i]), key)
  }

  ghost predicate NeverMisled(l: Limits, events: seq<Event>, n: nat)
    requires n <= |events|
  {
    forall i :: 0 <= i < n && events[i].Attempt? ==> !Misled(l, TriesBefore(l, events, i, events[i].key), events[i].at)
  }

  lemma {:induction false} DecisionsSnoc(l: Limits, m: map<Key, seq<int>>, events: seq<Event>, e: Event)
    ensures Decisions(l, m, events + [e]) == Decisions(l, m, events) + [Accepted(l, Run(l, m, events), e)]
    decreases |events|
  {
    if events == [] {
      assert events + [e] == [e] && [e][1..] == [];
    } else {
      assert (events + [e])[1..] == events[1..] + [e];
      DecisionsSnoc(l, Next(l, m, events[0]), events[1..], e);
    }
  }

  lemma {:induction false} FullDecisionsSnoc(l: Limits, h: map<Key, seq<int>>, events: seq<Event>, e: Event)
    ensures FullDecisions(l, h, events + [e]) == FullDecisions(l, h, events) + [Accepted(l, FullRun(l, h, events), e)]
    decreases |events|
  {
    if events == [] {
      assert events + [e] == [e] && [e][1..] == [];
    } else {
      assert (events + [e])[1..] == events[1..] + [e];
      FullDecisionsSnoc(l, FullNext(l, h, events[0]), events[1..], e);
    }
  }

  /** As long as all decisions agreed, the next one agrees unless the limiter is misled. */
  lemma NextAgreesIff(l: Limits, events: seq<Event>, e: Event)
    requires Decisions(l, map[], events) == FullDecisions(l, map[], events)
    ensures Accepted(l, Run(l, map[], events), e) == Accepted(l, FullRun(l, map[], events), e) <==>
      (e.Attempt? ==> !Misled(l, Tries([], events, Decisions(l, map[], events), e.key), e.at))
  {
    if e.Attempt? {
      var tries := Tries([], events, Decisions(l, map[], events), e.key);
      MapHoldsTheRest(l, map[], [], events, e.key);
      AcceptedIsFullHistory(l, map[], [], events, e.key);
      FiltersAlikeIff(l, tries, e.at);
    }
  }

  lemma {:induction false} AgreeUpTo(l: Limits, events: seq<Event>, n: nat)
    requires n <= |events|
    ensures Decisions(l, map[], events[..n]) == FullDecisions(l, map[], events[..n]) <==> NeverMisled(l, events, n)
  {
    if n == 0 {
      assert events[..0] == [];
    } else {
      var before, e := events[..n - 1], events[n - 1];
      AgreeUpTo(l, events, n - 1);
      assert events[..n] == before + [e];
      DecisionsSnoc(l, map[], before, e);
      FullDecisionsSnoc(l, map[], before, e);
      SplitsAtLast(Decisions(l, map[], before), FullDecisions(l, map[], before),
                   Accepted(l, Run(l, map[], before), e), Accepted(l, FullRun(l, map[], before), e));
      if Decisions(l, map[], before) == FullDecisions(l, map[], before) {
        NextAgreesIff(l, before, e);
      }
    }
  }

  lemma SplitsAtLast(a: seq<bool>, b: seq<bool>, x: bool, y: bool)
    requires |a| == |b|
    ensures a + [x] == b + [y] <==> a == b && x == y
  {
    if a + [x] == b + [y] {
      assert a == (a + [x])[..|a|] && b == (b + [y])[..|b|];
      assert x == (a + [x])[|a|] && y == (b + [y])[|b|];
    }
  }

  /**
    For any clock and every run: all decisions equal those of a limiter that keeps the full
    history if and only if no attempt finds room only because dropped hits are back in the window.
  */
  lemma AsIfNothingWasDroppedIff(l: Limits, events: seq<Event>)
    ensures Decisions(l, map[], events) == FullDecisions(l, map[], events) <==> NeverMisled(l, events, |events|)
  {
    AgreeUpTo(l, events, |events|);
    assert events[..|events|] == events;
  }

  /** An input: after a step back from 10 to 5, the hit at 0 would count again. */
  lemma ClockSteppingBack()
    ensures
      var l := Limits(2, 10);
      var before := [Attempt(Key("k"), 0), Attempt(Key("k"), 10)];
      && Accepted(l, Run(l, map[], before), Attempt(Key("k"), 5))
      && !Accepted(l, FullRun(l, map[], before), Attempt(Key("k"), 5))
  {
    var l := Limits(2, 10);
    var e0, e1 := Attempt(Key("k"), 0), Attempt(Key("k"), 10);
    var k := Key("k");
    assert Recent([], 0, 10) == [] && Recent([0], 10, 10) == [];
    var m1, h1 := Next(l, map[], e0), FullNext(l, map[], e0);
    assert Hits(m1, k) == [] + [0] == [0] && Hits(h1, k) == [] + [0] == [0];
    var m2, h2 := Next(l, m1, e1), FullNext(l, h1, e1);
    assert Hits(m2, k) == [] + [10] == [10] && Hits(h2, k) == [0] + [10] == [0, 10];
    assert [e0, e1][1..] == [e1];
    assert Run(l, m1, [e1]) == m2 && FullRun(l, h1, [e1]) == h2;
    assert [0, 10][1..] == [10] && Recent([10], 5, 10) == [10] && Recent([0, 10], 5, 10) == [0, 10];
  }

  // ---------------------------------------------------------------- when an attempt is let through

  /** The accepted attempts that are still held and inside the window at a time. */
  ghost function StillCounted(l: Limits, tries: seq<Try>, at: int): set<nat> {
    CountedAmong(l, tries, |tries|, at)
  }

  ghost function CountedAmong(l: Limits, tries: seq<Try>, n: nat, at: int): set<nat>
    requires n <= |tries|
  {
    set j: nat | j < n && tries[j].ok && !Dropped(l, tries, j) && at - tries[j].at < l.windowMs
  }

  lemma {:induction false} CountsHeld(l: Limits, tries: seq<Try>, n: nat, at: int)
    requires n <= |tries|
    ensures |Recent(HeldFrom(l, tries, n), at, l.windowMs)| == |CountedAmong(l, tries, n, at)|
  {
    if n > 0 {
      CountsHeld(l, tries, n - 1, at);
      var last := tries[n - 1];
      RecentOfOneMore(HeldFrom(l, tries, n - 1), last.at, at, l.windowMs);
      CountedAmongStep(l, tries, n, at);
      hide Dropped;
      hide CountedAmong;
      hide Recent;
      assert HeldFrom(l, tries, n) ==
        if last.ok && !Dropped(l, tries, n - 1) then HeldFrom(l, tries, n - 1) + [last.at] else HeldFrom(l, tries, n - 1);
    }
  }

  lemma CountedAmongStep(l: Limits, tries: seq<Try>, n: nat, at: int)
    requires 0 < n <= |tries|
    ensures |CountedAmong(l, tries, n, at)| == |CountedAmong(l, tries, n - 1, at)|
      + (if tries[n - 1].ok && !Dropped(l, tries, n - 1) && at - tries[n - 1].at < l.windowMs then 1 else 0)
  {
    hide Dropped;
    var counts := tries[n - 1].ok && !Dropped(l, tries, n - 1) && at - tries[n - 1].at < l.windowMs;
    assert CountedAmong(l, tries, n, at) == CountedAmong(l, tries, n - 1, at) + (if counts then {n - 1} else {});
  }

  lemma {:induction false} DecisionAt(l: Limits, m: map<Key, seq<int>>, events: seq<Event>, i: nat)
    requires i < |events|
    ensures Decisions(l, m, events)[i] == Accepted(l, Run(l, m, events[..i]), events[i])
    decreases |events|
  {
    if i > 0 {
      DecisionAt(l, Next(l, m, events[0]), events[1..], i - 1);
      assert events[..i][0] == events[0] && events[..i][1..] == events[1..][..i - 1];
    } else {
      assert events[..0] == [];
    }
  }

  /** For any clock: an attempt is let through exactly when fewer than `maxHits` accepted ones of its key are held and inside the window. */
  lemma AcceptedIff(l: Limits, events: seq<Event>, i: nat)
    requires i < |events| && events[i].Attempt?
    ensures Decisions(l, map[], events)[i] <==>
      |StillCounted(l, TriesBefore(l, events, i, events[i].key), events[i].at)| < l.maxHits
  {
    var key := events[i].key;
    DecisionAt(l, map[], events, i);
    MapHoldsTheRest(l, map[], [], events[..i], key);
    CountsHeld(l, TriesBefore(l, events, i, key), |TriesBefore(l, events, i, key)|, events[i].at);
  }

  ghost predicate AllBy(tries: seq<Try>, at: int) {
    forall j :: 0 <= j < |tries| ==> tries[j].at <= at
  }

  lemma {:induction false} TriesInPast(earlier: seq<Try>, since: int, events: seq<Event>, decisions: seq<bool>, key: Key, at: int)
    requires |events| == |decisions| && AllBy(earlier, since) && since <= at && ClockFrom(since, events)
    requires forall i :: 0 <= i < |events| && events[i].Attempt? ==> events[i].at <= at
    ensures AllBy(Tries(earlier, events, decisions, key), at)
    decreases |events|
  {
    if events != [] {
      var e := events[0];
      var now := match e
        case Attempt(k, t) => if k == key then earlier + [Try(t, decisions[0])] else earlier
        case Forget(k) => if k == key then [] else earlier
        case Reset => [];
      assert e.Attempt? ==> e.at <= at;
      TriesInPast(now, if e.Attempt? then e.at else since, events[1..], decisions[1..], key, at);
    }
  }

  lemma {:induction false} ClockBefore(since: int, events: seq<Event>, i: nat)
    requires ClockFrom(since, events) && i < |events| && events[i].Attempt?
    ensures since <= events[i].at && ClockFrom(since, events[..i])
    ensures forall k :: 0 <= k < i && events[k].Attempt? ==> events[k].at <= events[i].at
    decreases |events|
  {
    if i > 0 {
      var from := if events[0].Attempt? then events[0].at else since;
      ClockBefore(from, events[1..], i - 1);
      assert events[..i][0] == events[0] && events[..i][1..] == events[1..][..i - 1];
      forall k | 0 <= k < i && events[k].Attempt? ensures events[k].at <= events[i].at {
        if k > 0 { assert events[1..][k - 1] == events[k]; }
      }
    }
  }

  /** With a non-decreasing clock: exactly when fewer than `maxHits` attempts of the key were accepted inside the trailing window. */
  lemma AcceptedOnTimeIff(l: Limits, since: int, events: seq<Event>, i: nat)
    requires ClockFrom(since, events) && i < |events| && events[i].Attempt?
    ensures
      var tries, at := TriesBefore(l, events, i, events[i].key), events[i].at;
      Decisions(l, map[], events)[i] <==>
        |set j: nat | j < |tries| && tries[j].ok && at - tries[j].at < l.windowMs| < l.maxHits
  {
    var tries, at := TriesBefore(l, events, i, events[i].key), events[i].at;
    AcceptedIff(l, events, i);
    ClockBefore(since, events, i);
    TriesInPast([], since, events[..i], Decisions(l, map[], events[..i]), events[i].key, at);
    assert StillCounted(l, tries, at) == set j: nat | j < |tries| && tries[j].ok && at - tries[j].at < l.windowMs;
  }

  // ---------------------------------------------------------------- the limiter

  class SlidingWindowRateLimiter {
    const limits: Limits
    var hits: map<Key, seq<int>>

    constructor (limits: Limits)
      ensures this.limits == limits && hits == map[]
    {
      this.limits := limits;
      hits := map[];
    }

    method TryConsume(key: Key, now: int) returns (allowed: bool)
      modifies this
      ensures allowed == Accepted(limits, old(hits), Attempt(key, now))
      ensures hits == Next(limits, old(hits), Attempt(key, now))
    {
      var recent := Recent(if key in hits then hits[key] else [], now, limits.windowMs);
      if |recent| >= limits.maxHits {
        hits := hits[key := recent];
        return false;
      }
      recent := recent + [now];
      hits := hits[key := recent];
      allowed := true;
    }

    method ForgetKey(key: Key)
      modifies this
      ensures hits == Next(limits, old(hits), Forget(key))
    {
      hits := hits - {key};
    }

    method ResetAll()
      modifies this
      ensures hits == Next(limits, old(hits), Reset)
    {
      hits := map[];
    }
  }
}
