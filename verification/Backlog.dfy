/** Backlog pressure and backpressure signals (src/kgcs/review/backlog.py). */
module Backlog {
  import opened Wrappers
  import opened Ordering
  import opened Sequences

  /** A queued item as the analyzer sees it.  Times are exact, in microseconds. */
  datatype Item = Item(itemId: string, priority: string, enqueuedAt: int, source: Option<string>)

  datatype View = View(itemId: string, priority: string, age: nat, breaching: bool, source: string)

  datatype Config = Config(
    maxExposure: int,
    throttleDepth: int,
    quarantineDepth: int,
    breachQuarantine: int,
    throttleIntake: int,
    quarantineIntake: int)

  datatype Action = THROTTLE | QUARANTINE

  datatype Signal = Signal(source: string, action: Action, depth: nat, breaches: nat, oldest: nat, intake: int)

  const HOUR: int := 3_600_000_000

  /* ---------- views ---------- */

  function SlaHours(priority: string): int {
    if priority == "P1" then 24 else if priority == "P2" then 7 * 24 else 30 * 24
  }

  function PriorityRank(priority: string): nat {
    if priority == "P1" then 3 else if priority == "P2" then 2 else if priority == "P3" then 1 else 0
  }

  /** An item breaches its window when now is past it, not at its last instant. */
  function ViewOf(item: Item, now: int): View {
    View(item.itemId, item.priority, if now > item.enqueuedAt then now - item.enqueuedAt else 0,
         now > item.enqueuedAt + SlaHours(item.priority) * HOUR,
         if item.source.Some? && item.source.value != "" then item.source.value else "unknown")
  }

  function Views(items: seq<Item>, now: int): seq<View> {
    seq(|items|, i requires 0 <= i < |items| => ViewOf(items[i], now))
  }

  /* ---------- counting ---------- */

  function FromSource(source: string): View -> bool { (v: View) => v.source == source }

  function Group(views: seq<View>, source: string): seq<View> { Filter(views, FromSource(source)) }

  function Breaching(views: seq<View>): seq<View> { Filter(views, (v: View) => v.breaching) }

  function Sources(views: seq<View>): set<string> { set v <- views :: v.source }

  function Oldest(views: seq<View>): nat {
    if views == [] then 0
    else
      var before, last := Oldest(views[..|views| - 1]), views[|views| - 1].age;
      if last > before then last else before
  }

  /** The largest age there is; 0 if there is no item. */
  lemma {:induction false} OldestIsMax(views: seq<View>)
    ensures forall v <- views :: v.age <= Oldest(views)
    ensures views == [] || exists v :: v in views && v.age == Oldest(views)
  {
    if views != [] {
      var n := |views| - 1;
      OldestIsMax(views[..n]);
      assert views == views[..n] + [views[n]];
      assert views[n] in views;
    }
  }

  /** Sum over the sources of how many of the source's views satisfy p. */
  function Total(sources: seq<string>, views: seq<View>, p: View -> bool): nat {
    if sources == [] then 0
    else Total(sources[..|sources| - 1], views, p) + |Filter(Group(views, sources[|sources| - 1]), p)|
  }

  lemma GroupGrows(views: seq<View>, v: View, source: string)
    ensures Group(views + [v], source) == Group(views, source) + if v.source == source then [v] else []
  {
    FilterAppend(views, v, FromSource(source));
  }

  lemma CountGrows(views: seq<View>, v: View, source: string, p: View -> bool)
    ensures |Filter(Group(views + [v], source), p)| ==
            |Filter(Group(views, source), p)| + if v.source == source && p(v) then 1 else 0
  {
    GroupGrows(views, v, source);
    FilterAppend(Group(views, source), v, p);
    assert Group(views, source) + [] == Group(views, source);
  }

  lemma {:induction false} TotalOneMore(sources: seq<string>, views: seq<View>, v: View, p: View -> bool)
    requires forall i, j :: 0 <= i < j < |sources| ==> sources[i] != sources[j]
    ensures Total(sources, views + [v], p) == Total(sources, views, p) + if v.source in sources && p(v) then 1 else 0
  {
    if sources != [] {
      var n := |sources| - 1;
      TotalOneMore(sources[..n], views, v, p);
      CountGrows(views, v, sources[n], p);
      assert v.source in sources <==> v.source in sources[..n] || v.source == sources[n];
      assert sources[n] !in sources[..n];
    }
  }

  /** Nothing is lost or counted twice by grouping: over the sources, the counts add up to the
      count over all items. */
  lemma {:induction false} GroupsAddUp(sources: seq<string>, views: seq<View>, p: View -> bool)
    requires forall i, j :: 0 <= i < j < |sources| ==> sources[i] != sources[j]
    requires forall v <- views :: v.source in sources
    ensures Total(sources, views, p) == |Filter(views, p)|
    decreases |views|
  {
    if views == [] {
      NoViews(sources, p);
    } else {
      var n := |views| - 1;
      assert views == views[..n] + [views[n]];
      assert views[n] in views;
      GroupsAddUp(sources, views[..n], p);
      TotalOneMore(sources, views[..n], views[n], p);
    }
  }

  lemma {:induction false} NoViews(sources: seq<string>, p: View -> bool)
    ensures Total(sources, [], p) == 0
  {
    if sources != [] { NoViews(sources[..|sources| - 1], p); }
  }

  /* ---------- the metrics ---------- */

  datatype SourceBacklog =
    SourceBacklog(source: string, depth: nat, oldest: nat, breaches: nat, byPriority: map<string, nat>)

  function Priorities(views: seq<View>): seq<string> {
    seq(|views|, i requires 0 <= i < |views| => views[i].priority)
  }

  function CountIn(counts: map<string, nat>, k: string): nat { if k in counts then counts[k] else 0 }

  /** Occurrence counts, one value at a time. */
  function Counts(values: seq<string>): map<string, nat> {
    if values == [] then map[]
    else
      var before, last := Counts(values[..|values| - 1]), values[|values| - 1];
      before[last := CountIn(before, last) + 1]
  }

  method CountValues(values: seq<string>) returns (counts: map<string, nat>)
    ensures counts == Counts(values)
  {
    counts := map[];
    for i := 0 to |values|
      invariant counts == Counts(values[..i])
    {
      assert values[..i + 1][..i] == values[..i];
      counts := counts[values[i] := CountIn(counts, values[i]) + 1];
    }
    assert values[..|values|] == values;
  }

  /** A value's count is how often it occurs, and only values that occur have one. */
  lemma {:induction false} CountsAreMultiplicities(values: seq<string>, k: string)
    ensures CountIn(Counts(values), k) == multiset(values)[k] && (k in Counts(values) <==> k in values)
  {
    if values != [] {
      CountsAreMultiplicities(values[..|values| - 1], k);
      assert values == values[..|values| - 1] + [values[|values| - 1]];
    }
  }

  function Summary(source: string, g: seq<View>): SourceBacklog {
    SourceBacklog(source, |g|, Oldest(g), |Breaching(g)|, Counts(Priorities(g)))
  }

  function BacklogOf(views: seq<View>, source: string): SourceBacklog { Summary(source, Group(views, source)) }

  function GroupIn(groups: map<string, seq<View>>, source: string): seq<View> {
    if source in groups then groups[source] else []
  }

  predicate NoneEmpty(groups: map<string, seq<View>>) { forall s <- groups :: groups[s] != [] }

  method AddToGroup(groups: map<string, seq<View>>, v: View) returns (r: map<string, seq<View>>)
    requires NoneEmpty(groups)
    ensures NoneEmpty(r)
    ensures forall s :: GroupIn(r, s) == GroupIn(groups, s) + if v.source == s then [v] else []
  {
    r := groups[v.source := GroupIn(groups, v.source) + [v]];
  }

  lemma GroupsAreBySource(views: seq<View>, groups: map<string, seq<View>>)
    requires NoneEmpty(groups) && forall s :: GroupIn(groups, s) == Group(views, s)
    ensures groups.Keys == Sources(views)
  {
    forall s ensures s in groups <==> s in Sources(views) {
      if s in groups {
        assert GroupIn(groups, s)[0] in Group(views, s);
        FilterHas(views, FromSource(s), GroupIn(groups, s)[0]);
      }
      if s in Sources(views) {
        var v :| v in views && v.source == s;
        FilterHas(views, FromSource(s), v);
        assert GroupIn(groups, s) != [];
      }
    }
  }

  method GroupBySource(views: seq<View>) returns (groups: map<string, seq<View>>)
    ensures groups.Keys == Sources(views) && forall s :: GroupIn(groups, s) == Group(views, s)
  {
    groups := map[];
    for i := 0 to |views|
      invariant NoneEmpty(groups) && forall s :: GroupIn(groups, s) == Group(views[..i], s)
    {
      assert views[..i + 1] == views[..i] + [views[i]];
      groups := AddToGroup(groups, views[i]);
      forall s ensures GroupIn(groups, s) == Group(views[..i + 1], s) { GroupGrows(views[..i], views[i], s); }
    }
    assert views[..|views|] == views;
    GroupsAreBySource(views, groups);
  }

  method Summaries(groups: map<string, seq<View>>, sources: seq<string>) returns (backlogs: seq<SourceBacklog>)
    ensures |backlogs| == |sources|
    ensures forall i :: 0 <= i < |backlogs| ==> backlogs[i] == Summary(sources[i], GroupIn(groups, sources[i]))
  {
    backlogs := [];
    for i := 0 to |sources|
      invariant |backlogs| == i
      invariant forall k :: 0 <= k < i ==> backlogs[k] == Summary(sources[k], GroupIn(groups, sources[k]))
    {
      var g := GroupIn(groups, sources[i]);
      var byPriority := CountValues(Priorities(g));
      backlogs := backlogs + [SourceBacklog(sources[i], |g|, Oldest(g), |Breaching(g)|, byPriority)];
    }
  }

  method SourceBacklogs(views: seq<View>) returns (backlogs: seq<SourceBacklog>)
    ensures |backlogs| == |Sources(views)|
    ensures var sources := SortedStrings(Sources(views));
            forall i :: 0 <= i < |backlogs| ==> backlogs[i] == BacklogOf(views, sources[i])
  {
    var groups := GroupBySource(views);
    backlogs := Summaries(groups, SortedStrings(groups.Keys));
  }

  function Depths(backlogs: seq<SourceBacklog>): nat {
    if backlogs == [] then 0 else Depths(backlogs[..|backlogs| - 1]) + backlogs[|backlogs| - 1].depth
  }

  function Breaches(backlogs: seq<SourceBacklog>): nat {
    if backlogs == [] then 0 else Breaches(backlogs[..|backlogs| - 1]) + backlogs[|backlogs| - 1].breaches
  }

  lemma {:induction false} SumsAreTotals(sources: seq<string>, views: seq<View>, backlogs: seq<SourceBacklog>)
    requires |backlogs| == |sources| && forall i :: 0 <= i < |backlogs| ==> backlogs[i] == BacklogOf(views, sources[i])
    ensures Depths(backlogs) == Total(sources, views, _ => true)
    ensures Breaches(backlogs) == Total(sources, views, (v: View) => v.breaching)
  {
    if sources != [] {
      var n := |sources| - 1;
      SumsAreTotals(sources[..n], views, backlogs[..n]);
      FilterAll(Group(views, sources[n]));
    }
  }

  /** The sources' depths and breaches add up to the totals. */
  lemma BacklogIsConserved(views: seq<View>, backlogs: seq<SourceBacklog>)
    requires var sources := SortedStrings(Sources(views));
             |backlogs| == |sources| && forall i :: 0 <= i < |backlogs| ==> backlogs[i] == BacklogOf(views, sources[i])
    ensures Depths(backlogs) == |views|
    ensures Breaches(backlogs) == |Breaching(views)|
  {
    var sources := SortedStrings(Sources(views));
    SumsAreTotals(sources, views, backlogs);
    forall v <- views ensures v.source in sources { assert v.source in Sources(views); }
    GroupsAddUp(sources, views, _ => true);
    GroupsAddUp(sources, views, (v: View) => v.breaching);
    FilterAll(views);
  }

  /* ---------- priority inversion ---------- */

  /** A breaching item, while some item of lower priority is within its window. */
  predicate Starved(views: seq<View>, v: View) {
    v.breaching && exists w <- views :: !w.breaching && PriorityRank(w.priority) < PriorityRank(v.priority)
  }

  method LowestHealthy(views: seq<View>) returns (lowest: Option<nat>)
    ensures lowest.None? ==> forall w <- views :: w.breaching
    ensures lowest.Some? ==> (exists w <- views :: !w.breaching && PriorityRank(w.priority) == lowest.value)
                             && forall w <- views :: w.breaching || PriorityRank(w.priority) >= lowest.value
  {
    lowest := None;
    for i := 0 to |views|
      invariant lowest.None? ==> forall k :: 0 <= k < i ==> views[k].breaching
      invariant lowest.Some? ==>
                  && (exists k :: 0 <= k < i && !views[k].breaching && PriorityRank(views[k].priority) == lowest.value)
                  && forall k :: 0 <= k < i ==> views[k].breaching || PriorityRank(views[k].priority) >= lowest.value
    {
      var rank := PriorityRank(views[i].priority);
      if !views[i].breaching && (lowest.None? || rank < lowest.value) {
        lowest := Some(rank);
      }
    }
  }

  function Ids(views: seq<View>): seq<string> { seq(|views|, i requires 0 <= i < |views| => views[i].itemId) }

  /** Exactly the starved items, in order. */
  method PriorityInversion(views: seq<View>) returns (inverted: seq<string>)
    ensures inverted == Ids(Filter(views, v => Starved(views, v)))
  {
    var lowest := LowestHealthy(views);
    ghost var starved := (v: View) => Starved(views, v);
    var result: seq<View> := [];
    for i := 0 to |views|
      invariant result == Filter(views[..i], starved)
    {
      assert views[..i + 1] == views[..i] + [views[i]];
      FilterAppend(views[..i], views[i], starved);
      if lowest.Some? && views[i].breaching && PriorityRank(views[i].priority) > lowest.value {
        result := result + [views[i]];
      }
    }
    assert views[..|views|] == views;
    inverted := Ids(result);
  }

  /* ---------- backpressure ---------- */

  function OwnSignal(cfg: Config, b: SourceBacklog): Option<Signal> {
    if b.depth >= cfg.quarantineDepth || b.breaches >= cfg.breachQuarantine then
      Some(Signal(b.source, QUARANTINE, b.depth, b.breaches, b.oldest, cfg.quarantineIntake))
    else if b.depth >= cfg.throttleDepth then
      Some(Signal(b.source, THROTTLE, b.depth, b.breaches, b.oldest, cfg.throttleIntake))
    else None
  }

  /** The source with the most items; of several, the one with the smallest name. */
  predicate Deepest(views: seq<View>, s: string) {
    && s in Sources(views)
    && forall t <- Sources(views) ::
         |Group(views, t)| < |Group(views, s)| || (|Group(views, t)| == |Group(views, s)| && Leq(s, t))
  }

  /** The throttle of the deepest source when the total exceeds the exposure bound. */
  function ExposureSignal(cfg: Config, b: SourceBacklog): Signal {
    Signal(b.source, THROTTLE, b.depth, b.breaches, b.oldest, cfg.throttleIntake)
  }

  /** What is signalled for a source: its own signal, or, when the total exceeds the exposure
      bound, a throttle of the deepest source. */
  function SignalFor(cfg: Config, views: seq<View>, s: string): Option<Signal> {
    var own := OwnSignal(cfg, BacklogOf(views, s));
    if s !in Sources(views) then None
    else if own.Some? then own
    else if |views| > cfg.maxExposure && Deepest(views, s) then Some(ExposureSignal(cfg, BacklogOf(views, s)))
    else None
  }

  /** The first of the keys with the largest depth. */
  method FirstLargest(keys: seq<string>, depth: string -> nat) returns (top: string)
    requires keys != [] && Ascending(Leq, keys)
    ensures top in keys
    ensures forall k <- keys :: depth(k) < depth(top) || (depth(k) == depth(top) && (k == top || Leq(top, k)))
  {
    top := keys[0];
    ghost var at := 0;
    for i := 1 to |keys|
      invariant 0 <= at < i && top == keys[at]
      invariant forall k :: 0 <= k < at ==> depth(keys[k]) < depth(top)
      invariant forall k :: at <= k < i ==> depth(keys[k]) <= depth(top)
    {
      if depth(keys[i]) > depth(top) {
        top, at := keys[i], i;
      }
    }
  }

  method FindDeepest(views: seq<View>) returns (top: string)
    requires views != []
    ensures Deepest(views, top)
  {
    var sources := SortedStrings(Sources(views));
    assert views[0].source in Sources(views);
    assert sources != [] by { assert views[0].source in sources; }
    top := FirstLargest(sources, s => |Group(views, s)|);
    LeqTotal(top, top);
    assert forall t <- Sources(views) :: t in sources;
  }

  lemma DeepestIsUnique(views: seq<View>, s: string, t: string)
    requires Deepest(views, s) && Deepest(views, t)
    ensures s == t
  {
    if Leq(s, t) && Leq(t, s) { LeqAntisymmetric(s, t); }
  }

  function Due(cfg: Config, views: seq<View>): string -> Option<Signal> { s => SignalFor(cfg, views, s) }

  function SignalIn(signals: map<string, Signal>, source: string): Option<Signal> {
    if source in signals then Some(signals[source]) else None
  }

  method OwnSignals(sources: seq<string>, own: string -> Option<Signal>) returns (signals: map<string, Signal>)
    ensures forall s :: SignalIn(signals, s) == if s in sources then own(s) else None
  {
    signals := map[];
    for i := 0 to |sources|
      invariant forall s :: SignalIn(signals, s) == if s in sources[..i] then own(s) else None
    {
      assert sources[..i + 1] == sources[..i] + [sources[i]];
      var signal := own(sources[i]);
      if signal.Some? {
        signals := signals[sources[i] := signal.value];
      }
    }
    assert sources[..|sources|] == sources;
  }

  /** The throttle of `top`, where it has no signal of its own. */
  method AddExposure(cfg: Config, views: seq<View>, signals: map<string, Signal>, top: string)
    returns (r: map<string, Signal>)
    ensures forall s :: SignalIn(r, s) ==
              if s == top && top !in signals then Some(ExposureSignal(cfg, BacklogOf(views, top)))
              else SignalIn(signals, s)
  {
    r := signals;
    if top !in signals {
      r := r[top := ExposureSignal(cfg, BacklogOf(views, top))];
    }
  }

  lemma SignalIs(cfg: Config, views: seq<View>, own: Option<Signal>, s: string)
    requires own == if s in Sources(views) then OwnSignal(cfg, BacklogOf(views, s)) else None
    ensures own.Some? ==> SignalFor(cfg, views, s) == own
    ensures own.None? && !(|views| > cfg.maxExposure && Deepest(views, s)) ==> SignalFor(cfg, views, s) == None
    ensures own.None? && |views| > cfg.maxExposure && Deepest(views, s) ==>
              SignalFor(cfg, views, s) == Some(ExposureSignal(cfg, BacklogOf(views, s)))
  {
  }

  /** The signals by source. */
  method CollectSignals(cfg: Config, views: seq<View>) returns (signals: map<string, Signal>)
    ensures forall s :: SignalIn(signals, s) == SignalFor(cfg, views, s)
  {
    var sources := SortedStrings(Sources(views));
    var own := OwnSignals(sources, s => OwnSignal(cfg, BacklogOf(views, s)));
    signals := own;
    if |views| > cfg.maxExposure && views != [] {
      var top := FindDeepest(views);
      signals := AddExposure(cfg, views, own, top);
      forall s ensures SignalIn(signals, s) == SignalFor(cfg, views, s) {
        SignalIs(cfg, views, SignalIn(own, s), s);
        if Deepest(views, s) { DeepestIsUnique(views, s, top); }
      }
    } else {
      forall s ensures SignalIn(signals, s) == SignalFor(cfg, views, s) {
        SignalIs(cfg, views, SignalIn(own, s), s);
      }
    }
  }

  /** In order of the sources, each once, exactly the signals there are. */
  ghost predicate Lists(signals: seq<Signal>, due: string -> Option<Signal>) {
    && (forall i :: 0 <= i < |signals| ==> due(signals[i].source) == Some(signals[i]))
    && (forall s :: due(s).Some? ==> exists i :: 0 <= i < |signals| && signals[i].source == s)
    && (forall i, j :: 0 <= i < j < |signals| ==> Less(signals[i].source, signals[j].source))
  }

  method InOrder(bySource: map<string, Signal>, sources: seq<string>) returns (signals: seq<Signal>)
    requires forall s <- sources :: s in bySource
    ensures |signals| == |sources|
    ensures forall k :: 0 <= k < |sources| ==> SignalIn(bySource, sources[k]) == Some(signals[k])
  {
    signals := [];
    for i := 0 to |sources|
      invariant |signals| == i
      invariant forall k :: 0 <= k < i ==> SignalIn(bySource, sources[k]) == Some(signals[k])
    {
      signals := signals + [bySource[sources[i]]];
    }
  }

  lemma ListedInOrder(bySource: map<string, Signal>, due: string -> Option<Signal>, sources: seq<string>,
                      signals: seq<Signal>)
    requires forall s :: SignalIn(bySource, s) == due(s)
    requires forall s :: due(s).Some? ==> due(s).value.source == s
    requires Ascending(Leq, sources) && forall s :: s in sources <==> s in bySource
    requires |signals| == |sources|
    requires forall k :: 0 <= k < |sources| ==> SignalIn(bySource, sources[k]) == Some(signals[k])
    ensures Lists(signals, due)
  {
    forall k | 0 <= k < |sources| ensures due(sources[k]) == Some(signals[k]) && signals[k].source == sources[k] {
      assert SignalIn(bySource, sources[k]) == due(sources[k]);
    }
    forall s | due(s).Some? ensures exists i :: 0 <= i < |signals| && signals[i].source == s {
      assert SignalIn(bySource, s) == due(s);
      var i :| 0 <= i < |sources| && sources[i] == s;
      assert signals[i].source == s;
    }
  }

  method ListSignals(bySource: map<string, Signal>, due: string -> Option<Signal>) returns (signals: seq<Signal>)
    requires forall s :: SignalIn(bySource, s) == due(s)
    requires forall s :: due(s).Some? ==> due(s).value.source == s
    ensures Lists(signals, due)
  {
    var sources := SortedStrings(bySource.Keys);
    signals := InOrder(bySource, sources);
    ListedInOrder(bySource, due, sources, signals);
  }

  method Backpressure(cfg: Config, items: seq<Item>, now: int) returns (signals: seq<Signal>)
    ensures Lists(signals, Due(cfg, Views(items, now)))
  {
    var views := Views(items, now);
    var bySource := CollectSignals(cfg, views);
    signals := ListSignals(bySource, Due(cfg, views));
  }

  /** The source has exactly one signal. */
  predicate SignalledOnce(signals: seq<Signal>, s: string) {
    exists i :: 0 <= i < |signals| && signals[i].source == s
                && forall j :: 0 <= j < |signals| && signals[j].source == s ==> j == i
  }

  lemma ListedOnce(signals: seq<Signal>, due: string -> Option<Signal>, s: string)
    requires Lists(signals, due) && due(s).Some?
    ensures SignalledOnce(signals, s)
  {
    var i :| 0 <= i < |signals| && signals[i].source == s;
    forall j | 0 <= j < |signals| && signals[j].source == s ensures j == i {
      assert !(i < j) && !(j < i);
    }
  }

  /** Whenever the total exceeds the exposure bound, the deepest source has exactly one
      signal. */
  lemma DeepestIsSignalled(cfg: Config, views: seq<View>, signals: seq<Signal>, s: string)
    requires Lists(signals, Due(cfg, views)) && |views| > cfg.maxExposure && Deepest(views, s)
    ensures SignalledOnce(signals, s)
  {
    ListedOnce(signals, Due(cfg, views), s);
  }

  /** A listed signal is a quarantine exactly when its source is over its own depth or breach
      bound, and then the intake is the quarantine's. */
  lemma QuarantineIff(cfg: Config, views: seq<View>, signals: seq<Signal>, i: nat)
    requires Lists(signals, Due(cfg, views)) && i < |signals|
    ensures var s := signals[i].source;
            && signals[i].depth == |Group(views, s)| && signals[i].breaches == |Breaching(Group(views, s))|
            && (signals[i].action == QUARANTINE <==>
                |Group(views, s)| >= cfg.quarantineDepth || |Breaching(Group(views, s))| >= cfg.breachQuarantine)
            && signals[i].intake == if signals[i].action == QUARANTINE then cfg.quarantineIntake else cfg.throttleIntake
  {
    assert SignalFor(cfg, views, signals[i].source) == Some(signals[i]);
  }
}
