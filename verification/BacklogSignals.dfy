/** What backlog pressure is (src/kgcs/review/backlog.py), told from the queued items and the
    time: which are late, who is starved, and which sources are held back. */
module BacklogSignals {
  import opened Wrappers
  import opened Ordering
  import opened Sequences
  import opened Backlog

  /* ---------- one item ---------- */

  /** A day, in microseconds. */
  const DAY: int := 86_400_000_000

  /** Past its deadline: a day for P1, a week for P2 and thirty days for anything else. */
  predicate IsLate(item: Item, now: int) {
    now - item.enqueuedAt > (if item.priority == "P1" then DAY else if item.priority == "P2" then 7 * DAY else 30 * DAY)
  }

  /** P1 is above P2, P2 above P3, and P3 above everything else. */
  predicate Above(p: string, q: string) {
    || (p == "P1" && q != "P1")
    || (p == "P2" && q != "P1" && q != "P2")
    || (p == "P3" && q != "P1" && q != "P2" && q != "P3")
  }

  predicate IsFrom(item: Item, source: string) {
    if item.source == None || item.source == Some("") then source == "unknown" else item.source == Some(source)
  }

  lemma ViewIs(item: Item, now: int)
    ensures var v := ViewOf(item, now);
            && v.itemId == item.itemId && v.priority == item.priority
            && (v.breaching <==> IsLate(item, now)) && (forall s :: v.source == s <==> IsFrom(item, s))
            && v.age == (if now >= item.enqueuedAt then now - item.enqueuedAt else 0)
  {
  }

  lemma AboveIff(p: string, q: string)
    ensures PriorityRank(p) > PriorityRank(q) <==> Above(p, q)
  {
  }

  /* ---------- starved items ---------- */

  /** A late item while one below it is not. */
  predicate IsStarved(items: seq<Item>, now: int, k: nat)
    requires k < |items|
  {
    IsLate(items[k], now) && exists w <- items :: !IsLate(w, now) && Above(items[k].priority, w.priority)
  }

  lemma StarvedIff(items: seq<Item>, now: int, k: nat)
    requires k < |items|
    ensures Starved(Views(items, now), ViewOf(items[k], now)) <==> IsStarved(items, now, k)
  {
    var views, v := Views(items, now), ViewOf(items[k], now);
    ViewIs(items[k], now);
    if w :| w in views && !w.breaching && PriorityRank(w.priority) < PriorityRank(v.priority) {
      var i :| 0 <= i < |views| && views[i] == w;
      ViewIs(items[i], now);
      AboveIff(v.priority, w.priority);
      assert items[i] in items;
    }
    if w :| w in items && !IsLate(w, now) && Above(items[k].priority, w.priority) {
      var i :| 0 <= i < |items| && items[i] == w;
      ViewIs(items[i], now);
      AboveIff(v.priority, w.priority);
      assert views[i] == ViewOf(w, now) && views[i] in views;
    }
  }

  /** The places of the items that are starved, in order. */
  function StarvedIds(items: seq<Item>, now: int, n: nat): seq<string>
    requires n <= |items|
  {
    if n == 0 then []
    else StarvedIds(items, now, n - 1) + if IsStarved(items, now, n - 1) then [items[n - 1].itemId] else []
  }

  lemma {:induction false} InversionFrom(items: seq<Item>, now: int, n: nat)
    requires n <= |items|
    ensures var views := Views(items, now);
            Ids(Filter(views[..n], v => Starved(views, v))) == StarvedIds(items, now, n)
  {
    if n > 0 {
      var views := Views(items, now);
      InversionFrom(items, now, n - 1);
      assert views[..n] == views[..n - 1] + [views[n - 1]];
      FilterAppend(views[..n - 1], views[n - 1], v => Starved(views, v));
      StarvedIff(items, now, n - 1);
      ViewIs(items[n - 1], now);
    }
  }

  /** The priority inversion reports exactly the starved items, in queue order. */
  lemma InversionIs(items: seq<Item>, now: int)
    ensures var views := Views(items, now);
            Ids(Filter(views, v => Starved(views, v))) == StarvedIds(items, now, |items|)
  {
    InversionFrom(items, now, |items|);
    assert Views(items, now)[..|items|] == Views(items, now);
  }

  /* ---------- a source's pressure ---------- */

  function Places(items: seq<Item>, source: string): set<int> {
    set i | 0 <= i < |items| && IsFrom(items[i], source)
  }

  function LatePlaces(items: seq<Item>, now: int, source: string): set<int> {
    set i | 0 <= i < |items| && IsFrom(items[i], source) && IsLate(items[i], now)
  }

  lemma DepthIs(items: seq<Item>, now: int, source: string)
    ensures |Group(Views(items, now), source)| == |Places(items, source)|
    ensures |Breaching(Group(Views(items, now), source))| == |LatePlaces(items, now, source)|
    ensures source in Sources(Views(items, now)) <==> exists item <- items :: IsFrom(item, source)
  {
    SourcesAre(items, now, source);
    GroupSize(items, now, source);
    LateSize(items, now, source);
  }

  lemma GroupSize(items: seq<Item>, now: int, source: string)
    ensures |Group(Views(items, now), source)| == |Places(items, source)|
  {
    var views, from := Views(items, now), FromSource(source);
    forall i | 0 <= i < |items| ensures from(views[i]) <==> IsFrom(items[i], source) { ViewIs(items[i], now); }
    FilterCount(views, from);
    assert PlacesOf(views, from) == Places(items, source);
  }

  lemma LateSize(items: seq<Item>, now: int, source: string)
    ensures |Breaching(Group(Views(items, now), source))| == |LatePlaces(items, now, source)|
  {
    var views := Views(items, now);
    var late := (v: View) => v.breaching;
    var both := Both(FromSource(source), late);
    forall i | 0 <= i < |items|
      ensures both(views[i]) <==> IsFrom(items[i], source) && IsLate(items[i], now)
    {
      ViewIs(items[i], now);
    }
    FilterTwice(views, FromSource(source), late);
    FilterCount(views, both);
    assert PlacesOf(views, both) == LatePlaces(items, now, source);
  }

  lemma SourcesAre(items: seq<Item>, now: int, source: string)
    ensures source in Sources(Views(items, now)) <==> exists item <- items :: IsFrom(item, source)
  {
    var views := Views(items, now);
    if v :| v in views && v.source == source {
      var i :| 0 <= i < |views| && views[i] == v;
      ViewIs(items[i], now);
      assert items[i] in items;
    }
    if item :| item in items && IsFrom(item, source) {
      var i :| 0 <= i < |items| && items[i] == item;
      ViewIs(item, now);
      assert views[i] in views;
    }
  }

  /** No item of the source has waited longer, and one has waited this long; 0 for no item. */
  ghost predicate LongestWait(items: seq<Item>, now: int, source: string, age: nat) {
    && (forall item <- items :: IsFrom(item, source) ==> now - item.enqueuedAt <= age)
    && (age > 0 ==> exists item <- items :: IsFrom(item, source) && now - item.enqueuedAt == age)
  }

  lemma OldestIs(items: seq<Item>, now: int, source: string)
    ensures LongestWait(items, now, source, Oldest(Group(Views(items, now), source)))
  {
    var views := Views(items, now);
    var g := Group(views, source);
    OldestIsMax(g);
    forall item <- items | IsFrom(item, source) ensures now - item.enqueuedAt <= Oldest(g) {
      var i :| 0 <= i < |items| && items[i] == item;
      ViewIs(item, now);
      assert views[i] in views;
      FilterHas(views, FromSource(source), views[i]);
    }
    if Oldest(g) > 0 {
      var v :| v in g && v.age == Oldest(g);
      FilterHas(views, FromSource(source), v);
      var i :| 0 <= i < |views| && views[i] == v;
      ViewIs(items[i], now);
      assert items[i] in items;
    }
  }

  function PrioritizedAs(items: seq<Item>, source: string, priority: string): set<int> {
    set i | 0 <= i < |items| && IsFrom(items[i], source) && items[i].priority == priority
  }

  lemma {:induction false} PrioritiesCount(g: seq<View>, priority: string)
    ensures multiset(Priorities(g))[priority] == |Filter(g, (v: View) => v.priority == priority)|
  {
    if g != [] {
      var n := |g| - 1;
      PrioritiesCount(g[..n], priority);
      assert Priorities(g) == Priorities(g[..n]) + [g[n].priority];
    }
  }

  /** A source's summary: how many items it has, how long the longest has waited, how many are
      late, and how many there are of each priority. */
  lemma SummaryIs(items: seq<Item>, now: int, source: string, priority: string)
    ensures var b := BacklogOf(Views(items, now), source);
            && b.source == source && b.depth == |Places(items, source)|
            && b.breaches == |LatePlaces(items, now, source)|
            && LongestWait(items, now, source, b.oldest)
            && CountIn(b.byPriority, priority) == |PrioritizedAs(items, source, priority)|
  {
    var views := Views(items, now);
    var named := (v: View) => v.priority == priority;
    var both := Both(FromSource(source), named);
    DepthIs(items, now, source);
    OldestIs(items, now, source);
    CountsAreMultiplicities(Priorities(Group(views, source)), priority);
    PrioritiesCount(Group(views, source), priority);
    FilterTwice(views, FromSource(source), named);
    FilterCount(views, both);
    forall i | 0 <= i < |items| ensures both(views[i]) <==> IsFrom(items[i], source) && items[i].priority == priority {
      ViewIs(items[i], now);
    }
    assert PlacesOf(views, both) == PrioritizedAs(items, source, priority);
  }

  /* ---------- the signals ---------- */

  /** The source is over one of its own bounds for quarantine. */
  predicate Overrun(cfg: Config, items: seq<Item>, now: int, s: string) {
    |Places(items, s)| >= cfg.quarantineDepth || |LatePlaces(items, now, s)| >= cfg.breachQuarantine
  }

  predicate HasItems(items: seq<Item>, s: string) { exists item <- items :: IsFrom(item, s) }

  /** No source has more items, and of those with as many none has a smaller name. */
  ghost predicate HasMost(items: seq<Item>, s: string) {
    && HasItems(items, s)
    && forall t :: HasItems(items, t) ==>
         |Places(items, t)| < |Places(items, s)| || (|Places(items, t)| == |Places(items, s)| && Leq(s, t))
  }

  lemma DeepestIff(items: seq<Item>, now: int, s: string)
    ensures Deepest(Views(items, now), s) <==> HasMost(items, s)
  {
    forall t
      ensures |Group(Views(items, now), t)| == |Places(items, t)|
      ensures t in Sources(Views(items, now)) <==> HasItems(items, t)
    {
      DepthIs(items, now, t);
    }
  }

  /** A source is held back exactly where it has items and is over a bound of its own, or has
      most while all items together are over the exposure bound.  It is quarantined exactly
      where it is over a quarantine bound, and else throttled; the signal gives its depth, its
      late items, its longest wait and the intake recommended for what is done. */
  lemma SignalIff(cfg: Config, items: seq<Item>, now: int, s: string)
    ensures var due := SignalFor(cfg, Views(items, now), s);
            && (due.Some? <==>
                HasItems(items, s)
                && (Overrun(cfg, items, now, s) || |Places(items, s)| >= cfg.throttleDepth
                    || (|items| > cfg.maxExposure && HasMost(items, s))))
            && (due.Some? ==>
                  && due.value.source == s
                  && due.value.action == (if Overrun(cfg, items, now, s) then QUARANTINE else THROTTLE)
                  && due.value.intake ==
                     (if Overrun(cfg, items, now, s) then cfg.quarantineIntake else cfg.throttleIntake)
                  && due.value.depth == |Places(items, s)| && due.value.breaches == |LatePlaces(items, now, s)|
                  && LongestWait(items, now, s, due.value.oldest))
  {
    DepthIs(items, now, s);
    OldestIs(items, now, s);
    DeepestIff(items, now, s);
  }

  /** So the backpressure list holds one such signal for every source held back, in order of the
      sources. */
  lemma BackpressureIs(cfg: Config, items: seq<Item>, now: int, signals: seq<Signal>)
    requires Lists(signals, Due(cfg, Views(items, now)))
    ensures forall i, j :: 0 <= i < j < |signals| ==> Less(signals[i].source, signals[j].source)
    ensures forall s :: (exists i :: 0 <= i < |signals| && signals[i].source == s) <==>
              HasItems(items, s)
              && (Overrun(cfg, items, now, s) || |Places(items, s)| >= cfg.throttleDepth
                  || (|items| > cfg.maxExposure && HasMost(items, s)))
  {
    forall s
      ensures Due(cfg, Views(items, now))(s).Some? <==>
                HasItems(items, s)
                && (Overrun(cfg, items, now, s) || |Places(items, s)| >= cfg.throttleDepth
                    || (|items| > cfg.maxExposure && HasMost(items, s)))
    {
      SignalIff(cfg, items, now, s);
    }
  }
}
