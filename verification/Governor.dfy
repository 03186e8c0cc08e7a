/** The client's budget governor: it trips on two wins within fifty tickets and then starts
    afresh. Stated by recounting the history; no schedule of trips could have more. */
module Governor {
  const WINDOW := 50

  function Wins(w: seq<bool>): (n: nat)
    ensures n <= |w|
  {
    if w == [] then 0 else Wins(w[..|w| - 1]) + if w[|w| - 1] then 1 else 0
  }

  lemma {:induction false} WinsSplit(a: seq<bool>, b: seq<bool>)
    ensures Wins(a + b) == Wins(a) + Wins(b)
  {
    if b == [] {
      assert a + b == a;
    } else {
      WinsSplit(a, b[..|b| - 1]);
      assert (a + b)[..|a + b| - 1] == a + b[..|b| - 1];
    }
  }

  /** A part of a stretch has no more wins than the stretch. */
  lemma WinsWithin(w: seq<bool>, lo: nat, lo': nat, hi: nat)
    requires lo <= lo' <= hi <= |w|
    ensures Wins(w[lo'..hi]) <= Wins(w[lo..hi])
  {
    WinsSplit(w[lo..lo'], w[lo'..hi]);
    assert w[lo..hi] == w[lo..lo'] + w[lo'..hi];
  }

  // -------------------------------------------------------------- the governor, by recount

  /** How often the governor has tripped, and where the current window may start. */
  datatype Trips = Trips(count: nat, since: nat)

  /** The first ticket of the window that ends after n tickets. */
  function WindowStart(since: nat, n: nat): nat {
    if n >= WINDOW && n - WINDOW > since then n - WINDOW else since
  }

  function TripsOf(w: seq<bool>): (t: Trips)
    ensures t.since <= |w|
  {
    if w == [] then Trips(0, 0)
    else
      var t := TripsOf(w[..|w| - 1]);
      if Wins(w[WindowStart(t.since, |w|)..|w|]) >= 2 then Trips(t.count + 1, |w|) else t
  }

  // --------------------------------------------------------------------------- optimality

  /** A stretch of consecutive tickets, lo up to but not including hi. */
  datatype Span = Span(lo: nat, hi: nat)

  /** A stretch of at most fifty tickets with at least two wins. */
  ghost predicate Tripping(w: seq<bool>, s: Span)
  {
    s.lo <= s.hi <= |w| && s.hi - s.lo <= WINDOW && Wins(w[s.lo..s.hi]) >= 2
  }

  ghost predicate Disjoint(s: Span, t: Span)
  {
    s.hi <= t.lo || t.hi <= s.lo
  }

  /** Pairwise disjoint tripping stretches. */
  ghost predicate Packing(w: seq<bool>, spans: set<Span>)
  {
    && (forall s | s in spans :: Tripping(w, s))
    && (forall s, t | s in spans && t in spans :: s == t || Disjoint(s, t))
  }

  lemma TrippingPrefix(w: seq<bool>, n: nat, s: Span)
    requires n <= |w| && s.hi <= n
    ensures Tripping(w[..n], s) <==> Tripping(w, s)
  {
    if s.lo <= s.hi {
      assert w[..n][s.lo..s.hi] == w[s.lo..s.hi];
    }
  }

  /** After the last trip no stretch trips. */
  lemma {:induction false} NothingMissed(w: seq<bool>, s: Span)
    requires Tripping(w, s)
    ensures s.lo < TripsOf(w).since
  {
    var n := |w|;
    var t := TripsOf(w[..n - 1]);
    if s.hi < n {
      TrippingPrefix(w, n - 1, s);
      NothingMissed(w[..n - 1], s);
    } else {
      var start := WindowStart(t.since, n);
      if s.lo >= start {
        WinsWithin(w, start, s.lo, n);
      }
    }
  }

  /** The last trip happened at ticket `since`, as the one after those of the tickets before. */
  lemma {:induction false} LastTrip(w: seq<bool>)
    ensures TripsOf(w).since == 0 ==> TripsOf(w).count == 0
    ensures var p := TripsOf(w).since;
            p > 0 ==> TripsOf(w[..p - 1]).count + 1 == TripsOf(w).count
  {
    if w != [] {
      var front := w[..|w| - 1];
      LastTrip(front);
      var p := TripsOf(w).since;
      if 0 < p < |w| {
        assert front[..p - 1] == w[..p - 1];
      }
    }
  }

  /** The governor's own windows are a packing with one stretch per trip. */
  lemma {:induction false} GovernorAttains(w: seq<bool>) returns (spans: set<Span>)
    ensures Packing(w, spans) && |spans| == TripsOf(w).count
    ensures forall s | s in spans :: s.hi <= TripsOf(w).since
  {
    if w == [] {
      spans := {};
    } else {
      spans := GovernorAttains(w[..|w| - 1]);
      spans := AttainOneMore(w, spans);
    }
  }

  /** A packing of the tickets before the last one, extended by the last one's trip if any. */
  lemma AttainOneMore(w: seq<bool>, spans: set<Span>) returns (more: set<Span>)
    requires w != [] && Packing(w[..|w| - 1], spans)
    requires forall s | s in spans :: s.hi <= TripsOf(w[..|w| - 1]).since
    ensures Packing(w, more) && |more| - |spans| == TripsOf(w).count - TripsOf(w[..|w| - 1]).count
    ensures forall s | s in more :: s.hi <= TripsOf(w).since
  {
    var n, since := |w|, TripsOf(w[..|w| - 1]).since;
    PackingPrefix(w, n - 1, spans);
    var last := Span(WindowStart(since, n), n);
    if Wins(w[last.lo..n]) >= 2 {
      AddSpan(w, spans, last);
      more := spans + {last};
    } else {
      more := spans;
    }
  }

  lemma PackingPrefix(w: seq<bool>, n: nat, spans: set<Span>)
    requires n <= |w| && forall s | s in spans :: s.hi <= n
    ensures Packing(w[..n], spans) <==> Packing(w, spans)
  {
    forall s | s in spans ensures Tripping(w[..n], s) <==> Tripping(w, s) {
      TrippingPrefix(w, n, s);
    }
  }

  lemma AddSpan(w: seq<bool>, spans: set<Span>, last: Span)
    requires Packing(w, spans) && Tripping(w, last)
    requires forall s | s in spans :: s.hi <= last.lo
    ensures Packing(w, spans + {last}) && |spans + {last}| == |spans| + 1
  {
    assert last.lo < last.hi;
    assert last !in spans;
  }

  /** No packing of disjoint tripping stretches has more members than the governor has trips:
      every stretch that is not already over before the last trip contains its final ticket. */
  lemma {:induction false} GovernorOptimal(w: seq<bool>, spans: set<Span>)
    requires Packing(w, spans)
    ensures |spans| <= TripsOf(w).count
    decreases |w|
  {
    var p := TripsOf(w).since;
    AllStartBefore(w, spans);
    LastTrip(w);
    if spans != {} {
      var any :| any in spans;
      var early := EarlyOnes(w, spans, p);
      GovernorOptimal(w[..p - 1], early);
    }
  }

  lemma EarlyOnes(w: seq<bool>, spans: set<Span>, p: nat) returns (early: set<Span>)
    requires Packing(w, spans) && 0 < p <= |w|
    requires forall s | s in spans :: s.lo < p
    ensures Packing(w[..p - 1], early) && |spans| <= |early| + 1
  {
    early := set s | s in spans && s.hi <= p - 1;
    PackingPrefix(w, p - 1, early);
    AllButOneEarly(spans, early, p);
  }

  lemma AllStartBefore(w: seq<bool>, spans: set<Span>)
    requires Packing(w, spans)
    ensures forall s | s in spans :: s.lo < TripsOf(w).since
  {
    forall s | s in spans ensures s.lo < TripsOf(w).since {
      NothingMissed(w, s);
    }
  }

  /** Disjoint stretches that start before p: at most one of them reaches p. */
  lemma AllButOneEarly(spans: set<Span>, early: set<Span>, p: nat)
    requires p > 0
    requires forall s, t | s in spans && t in spans :: s == t || Disjoint(s, t)
    requires forall s | s in spans :: s.lo < p
    requires forall s :: s in early <==> s in spans && s.hi <= p - 1
    ensures |spans| <= |early| + 1
  {
    var late := spans - early;
    forall s, t | s in late && t in late ensures s == t {
      assert !Disjoint(s, t);
    }
    assert spans == early + late;
    if late != {} {
      var s :| s in late;
      assert late == {s};
    }
  }

  // --------------------------------------------------------------------------- dry spells

  /** The losses at the end of the history. */
  function TrailingLosses(w: seq<bool>): (n: nat)
    ensures n <= |w|
  {
    if w == [] || w[|w| - 1] then 0 else TrailingLosses(w[..|w| - 1]) + 1
  }

  function LongestDrySpell(w: seq<bool>): (n: nat)
  {
    if w == [] then 0
    else
      var m := LongestDrySpell(w[..|w| - 1]);
      if TrailingLosses(w) > m then TrailingLosses(w) else m
  }

  ghost predicate Dry(w: seq<bool>, s: Span)
  {
    s.lo <= s.hi <= |w| && forall k | s.lo <= k < s.hi :: !w[k]
  }

  /** The trailing run is the longest dry stretch that ends with the history. */
  lemma {:induction false} TrailingIsLongestAtEnd(w: seq<bool>, lo: nat)
    requires lo <= |w|
    ensures Dry(w, Span(lo, |w|)) <==> |w| - lo <= TrailingLosses(w)
  {
    if w != [] && lo < |w| {
      TrailingIsLongestAtEnd(w[..|w| - 1], lo);
    }
  }

  /** The tracked maximum is the length of a dry stretch, and no dry stretch is longer. */
  lemma {:induction false} LongestDrySpellIsMaximum(w: seq<bool>) returns (best: Span)
    ensures Dry(w, best) && best.hi - best.lo == LongestDrySpell(w)
    ensures forall s :: Dry(w, s) ==> s.hi - s.lo <= LongestDrySpell(w)
  {
    if w == [] {
      best := Span(0, 0);
    } else {
      var n := |w|;
      best := LongestDrySpellIsMaximum(w[..n - 1]);
      if TrailingLosses(w) > LongestDrySpell(w[..n - 1]) {
        best := Span(n - TrailingLosses(w), n);
        TrailingIsLongestAtEnd(w, best.lo);
      }
      forall s | Dry(w, s) ensures s.hi - s.lo <= LongestDrySpell(w) {
        if s.hi < n {
          assert Dry(w[..n - 1], s);
        } else {
          TrailingIsLongestAtEnd(w, s.lo);
        }
      }
    }
  }
}
