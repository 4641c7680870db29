/** The issuer-API replay beside the chain history: which chain observation a poll
    is compared with, and the intervals in which the two disagree. */
module ApiReplay {
  import opened Bytes
  import opened Guard
  import opened Replay

  /** A pending multiplier and its activation time in milliseconds, any number the API may give. */
  datatype Pending = Pending(multiplier: u64, ms: Option<real>)

  /** A poll that reached the comparison: when, and the API's current and pending multiplier. */
  datatype Poll = Skipped | Usable(wallclock: string, ms: int, current: u64, pending: Option<Pending>)

  /** A chain observation with its wall time in milliseconds. */
  datatype Seen = Seen(ms: int, observation: Observation)

  predicate InOrder(chain: seq<Seen>) {
    forall i, j :: 0 <= i <= j < |chain| ==> chain[i].ms <= chain[j].ms
  }

  /** The last observation at or before `ms`, or -1. */
  predicate IsLatest(chain: seq<Seen>, ms: int, at: int) {
    && -1 <= at < |chain|
    && (forall i :: 0 <= i <= at ==> chain[i].ms <= ms)
    && (forall i :: at < i < |chain| ==> ms < chain[i].ms)
  }

  /** The binary search of `replayApi`. */
  method LatestAtOrBefore(chain: seq<Seen>, ms: int) returns (at: int)
    requires InOrder(chain)
    ensures IsLatest(chain, ms, at)
  {
    var lo, hi := 0, |chain| - 1;
    at := -1;
    while lo <= hi
      invariant 0 <= lo <= hi + 1 <= |chain| && at == lo - 1
      invariant forall i :: 0 <= i < lo ==> chain[i].ms <= ms
      invariant forall i :: hi < i < |chain| ==> ms < chain[i].ms
    {
      var mid := (lo + hi) / 2;
      if chain[mid].ms <= ms {
        at := mid;
        lo := mid + 1;
      } else {
        hi := mid - 1;
      }
    }
  }

  /** There is one such index, and it has a definition without any search. */
  function Latest(chain: seq<Seen>, ms: int): (at: int)
    ensures -1 <= at < |chain|
  {
    if chain == [] then -1
    else if chain[|chain| - 1].ms <= ms then |chain| - 1
    else Latest(chain[..|chain| - 1], ms)
  }

  lemma {:induction false} LatestExactly(chain: seq<Seen>, ms: int, at: int)
    requires InOrder(chain)
    ensures IsLatest(chain, ms, at) <==> at == Latest(chain, ms)
  {
    if chain != [] && chain[|chain| - 1].ms > ms {
      var init := chain[..|chain| - 1];
      LatestExactly(init, ms, at);
      assert at == |chain| - 1 ==> !IsLatest(chain, ms, at);
      if at < |init| {
        assert IsLatest(chain, ms, at) <==> IsLatest(init, ms, at);
      }
    }
  }

  // ------------------------------------------------------------ comparisons

  /** One compared poll. */
  datatype Compared = Compared(wallclock: string, api: u64, chain: u64)

  predicate Agrees(c: Compared) {
    c.api == c.chain
  }

  function ComparedWith(chain: seq<Seen>, p: Poll): Option<Compared> {
    if p.Skipped? || Latest(chain, p.ms) < 0 then None
    else
      var o := chain[Latest(chain, p.ms)].observation;
      Some(Compared(p.wallclock, p.current, Effective(o.state, o.phase)))
  }

  function ComparedAll(chain: seq<Seen>, polls: seq<Poll>): seq<Compared> {
    if polls == [] then []
    else
      ComparedAll(chain, polls[..|polls| - 1])
      + match ComparedWith(chain, polls[|polls| - 1]) case None => [] case Some(c) => [c]
  }

  function Disagreements(cs: seq<Compared>): nat {
    if cs == [] then 0
    else Disagreements(cs[..|cs| - 1]) + if Agrees(cs[|cs| - 1]) then 0 else 1
  }

  /** `BigInt(ms / 1000)`, which throws on anything but a whole number. */
  function Seconds(ms: real): Option<int> {
    if (ms / 1000.0).Floor as real == ms / 1000.0 then Some((ms / 1000.0).Floor) else None
  }

  lemma SecondsExactly(ms: real, t: int)
    ensures Seconds(ms) == Some(t) <==> ms == 1000.0 * (t as real)
  {
    if ms == 1000.0 * (t as real) {
      assert ms / 1000.0 == t as real;
    }
  }

  predicate PendingAgrees(state: Economic, p: Pending) {
    p.multiplier == state.newMultiplier && p.ms == Some(1000.0 * (state.t as real))
  }

  /** The replay dies on a poll whose pending multiplier is the stored one at a fractional second. */
  predicate Throws(chain: seq<Seen>, p: Poll) {
    && ComparedWith(chain, p).Some? && p.pending.Some? && p.pending.value.ms.Some?
    && p.pending.value.multiplier == chain[Latest(chain, p.ms)].observation.state.newMultiplier
    && Seconds(p.pending.value.ms.value).None?
  }

  /** A pending multiplier is compared with the stored one and its time with T. */
  function PendingIn(chain: seq<Seen>, polls: seq<Poll>): (nat, nat) {
    if polls == [] then (0, 0)
    else
      var (compared, agreed) := PendingIn(chain, polls[..|polls| - 1]);
      var p := polls[|polls| - 1];
      if ComparedWith(chain, p).None? || p.pending.None? then (compared, agreed)
      else
        var o := chain[Latest(chain, p.ms)].observation;
        (compared + 1,
         agreed + if PendingAgrees(o.state, p.pending.value) then 1 else 0)
  }

  // ---------------------------------------------------------- the intervals

  datatype Run = Run(start: nat, end: nat)

  /** The stretches of consecutive disagreements. */
  function Runs(cs: seq<Compared>): seq<Run> {
    if cs == [] then []
    else
      var n := |cs| - 1;
      var before := Runs(cs[..n]);
      if Agrees(cs[n]) then before
      else if before != [] && before[|before| - 1].end == n then
        before[..|before| - 1] + [Run(before[|before| - 1].start, n + 1)]
      else before + [Run(n, n + 1)]
  }

  /** A run is full of disagreements and cannot be extended on either side. */
  predicate Maximal(cs: seq<Compared>, r: Run) {
    && r.start < r.end <= |cs|
    && (forall i :: r.start <= i < r.end ==> !Agrees(cs[i]))
    && (r.start > 0 ==> Agrees(cs[r.start - 1]))
    && (r.end < |cs| ==> Agrees(cs[r.end]))
  }

  predicate InSomeRun(cs: seq<Compared>, i: nat) {
    exists k :: 0 <= k < |Runs(cs)| && Runs(cs)[k].start <= i < Runs(cs)[k].end
  }

  /** All runs but one that reaches the end stay as they are when another poll is compared. */
  lemma RunsSnoc(cs: seq<Compared>, c: Compared)
    ensures var before := Runs(cs);
            Runs(cs + [c]) ==
            if Agrees(c) then before
            else if before != [] && before[|before| - 1].end == |cs| then
              before[..|before| - 1] + [Run(before[|before| - 1].start, |cs| + 1)]
            else before + [Run(|cs|, |cs| + 1)]
  {
    assert (cs + [c])[..|cs|] == cs;
  }

  lemma {:induction false} RunsFit(cs: seq<Compared>)
    ensures forall k :: 0 <= k < |Runs(cs)| ==> Runs(cs)[k].start < Runs(cs)[k].end <= |cs|
  {
    if cs == [] {
      assert Runs(cs) == [];
    } else {
      hide Runs, Agrees;
      var init, c := cs[..|cs| - 1], cs[|cs| - 1];
      assert cs == init + [c];
      RunsFit(init);
      RunsSnoc(init, c);
    }
  }

  predicate ReachesEnd(cs: seq<Compared>) {
    Runs(cs) != [] && Runs(cs)[|Runs(cs)| - 1].end == |cs|
  }

  /** The last run reaches the end exactly when the last comparison disagreed. */
  lemma LastRun(cs: seq<Compared>)
    ensures ReachesEnd(cs) <==> cs != [] && !Agrees(cs[|cs| - 1])
  {
    if cs == [] {
      assert Runs(cs) == [];
    } else {
      hide Runs, Agrees;
      var init, c := cs[..|cs| - 1], cs[|cs| - 1];
      assert cs == init + [c];
      RunsFit(init);
      RunsSnoc(init, c);
    }
  }

  /** The runs are exactly the maximal stretches: each is maximal, they stand in
      order with an agreement between them, every disagreement is in one. */
  lemma {:induction false} RunsAreMaximal(cs: seq<Compared>)
    ensures forall k :: 0 <= k < |Runs(cs)| ==> Maximal(cs, Runs(cs)[k])
    ensures forall j, k :: 0 <= j < k < |Runs(cs)| ==> Runs(cs)[j].end < Runs(cs)[k].start
    ensures forall i :: 0 <= i < |cs| && !Agrees(cs[i]) ==> InSomeRun(cs, i)
  {
    if cs != [] {
      hide Runs;
      var init, c := cs[..|cs| - 1], cs[|cs| - 1];
      assert cs == init + [c];
      RunsAreMaximal(init);
      RunsStayMaximal(init, c);
      RunsCover(init, c);
    } else {
      assert Runs(cs) == [];
    }
  }

  lemma StaysMaximal(init: seq<Compared>, c: Compared, r: Run)
    requires Maximal(init, r) && (r.end < |init| || Agrees(c))
    ensures Maximal(init + [c], r)
  {
    hide Agrees;
    assert forall i :: 0 <= i < |init| ==> (init + [c])[i] == init[i];
  }

  lemma GrowsMaximal(init: seq<Compared>, c: Compared, r: Run)
    requires Maximal(init, r) && r.end == |init| && !Agrees(c)
    ensures Maximal(init + [c], Run(r.start, |init| + 1))
  {
    hide Agrees;
    assert forall i :: 0 <= i < |init| ==> (init + [c])[i] == init[i];
  }

  lemma StartsMaximal(init: seq<Compared>, c: Compared)
    requires !Agrees(c) && (init != [] ==> Agrees(init[|init| - 1]))
    ensures Maximal(init + [c], Run(|init|, |init| + 1))
  {
    hide Agrees;
  }

  lemma RunsStayMaximal(init: seq<Compared>, c: Compared)
    requires forall k :: 0 <= k < |Runs(init)| ==> Maximal(init, Runs(init)[k])
    requires forall j, k :: 0 <= j < k < |Runs(init)| ==> Runs(init)[j].end < Runs(init)[k].start
    ensures forall k :: 0 <= k < |Runs(init + [c])| ==> Maximal(init + [c], Runs(init + [c])[k])
    ensures forall j, k :: 0 <= j < k < |Runs(init + [c])| ==> Runs(init + [c])[j].end < Runs(init + [c])[k].start
  {
    RunsSnoc(init, c);
    RunsFit(init);
    LastRun(init);
    hide Runs, Agrees, Maximal;
    var before, after := Runs(init), Runs(init + [c]);
    if !Agrees(c) && !ReachesEnd(init) {
      StartsMaximal(init, c);
    }
    forall k | 0 <= k < |before| ensures Maximal(init + [c], after[k]) {
      assert k < |before| - 1 ==> before[k].end < before[|before| - 1].start;
      if before[k].end < |init| || Agrees(c) {
        StaysMaximal(init, c, before[k]);
      } else {
        GrowsMaximal(init, c, before[k]);
      }
    }
  }

  lemma RunsCover(init: seq<Compared>, c: Compared)
    requires forall i :: 0 <= i < |init| && !Agrees(init[i]) ==> InSomeRun(init, i)
    ensures forall i :: 0 <= i < |init + [c]| && !Agrees((init + [c])[i]) ==> InSomeRun(init + [c], i)
  {
    RunsSnoc(init, c);
    RunsFit(init);
    hide Runs, Agrees;
    var cs, before, after := init + [c], Runs(init), Runs(init + [c]);
    forall i | 0 <= i < |cs| && !Agrees(cs[i]) ensures InSomeRun(cs, i) {
      if i < |init| {
        assert cs[i] == init[i];
        assert InSomeRun(init, i);
        var k :| 0 <= k < |before| && before[k].start <= i < before[k].end;
        assert after[k].start <= i < after[k].end;
      } else {
        var last := |after| - 1;
        assert after[last].start <= i < after[last].end;
      }
    }
  }

  function Covered(runs: seq<Run>): int {
    if runs == [] then 0
    else Covered(runs[..|runs| - 1]) + (runs[|runs| - 1].end - runs[|runs| - 1].start)
  }

  lemma CoveredSnoc(runs: seq<Run>, r: Run)
    ensures Covered(runs + [r]) == Covered(runs) + (r.end - r.start)
  {
    assert (runs + [r])[..|runs|] == runs;
  }

  /** The lengths of the runs add up to the disagreements. */
  lemma {:induction false} RunsHoldEveryDisagreement(cs: seq<Compared>)
    ensures Covered(Runs(cs)) == Disagreements(cs)
  {
    if cs == [] {
      assert Runs(cs) == [];
    } else {
      hide Runs, Agrees, Covered, Disagreements;
      var init, c := cs[..|cs| - 1], cs[|cs| - 1];
      assert cs == init + [c];
      RunsHoldEveryDisagreement(init);
      RunsSnoc(init, c);
      DisagreementsSnoc(init, c);
      var before := Runs(init);
      CoveredSnoc(before, Run(|init|, |init| + 1));
      if before != [] {
        var last := before[|before| - 1];
        assert before == before[..|before| - 1] + [last];
        CoveredSnoc(before[..|before| - 1], last);
        CoveredSnoc(before[..|before| - 1], Run(last.start, |init| + 1));
      }
    }
  }

  /** What the report shows of a run. */
  datatype Interval = Interval(from: string, to: string, polls: nat, api: u64, chain: u64)

  function Shown(cs: seq<Compared>, r: Run): Interval
    requires r.start < r.end <= |cs|
  {
    Interval(cs[r.start].wallclock, cs[r.end - 1].wallclock, r.end - r.start, cs[r.start].api, cs[r.start].chain)
  }

  datatype Report = Report(compared: nat, agrees: nat, disagrees: nat, pendingCompared: nat, pendingAgrees: nat,
                           intervals: seq<Interval>)

  lemma ComparedSnoc(chain: seq<Seen>, polls: seq<Poll>, p: Poll)
    ensures ComparedAll(chain, polls + [p]) ==
            ComparedAll(chain, polls) + match ComparedWith(chain, p) case None => [] case Some(c) => [c]
  {
    assert (polls + [p])[..|polls|] == polls;
  }

  lemma DisagreementsSnoc(cs: seq<Compared>, c: Compared)
    ensures Disagreements(cs + [c]) == Disagreements(cs) + if Agrees(c) then 0 else 1
    ensures Disagreements(cs) <= |cs|
  {
    assert (cs + [c])[..|cs|] == cs;
  }

  ghost predicate ShowsRuns(cs: seq<Compared>, intervals: seq<Interval>) {
    && |intervals| == |Runs(cs)|
    && forall k :: 0 <= k < |intervals| ==>
         Runs(cs)[k].start < Runs(cs)[k].end <= |cs| && intervals[k] == Shown(cs, Runs(cs)[k])
  }

  lemma ShownUnchanged(cs: seq<Compared>, c: Compared, r: Run)
    requires r.start < r.end <= |cs|
    ensures Shown(cs + [c], r) == Shown(cs, r)
  {
  }

  lemma StillShown(cs: seq<Compared>, c: Compared, intervals: seq<Interval>)
    requires ShowsRuns(cs, intervals)
    ensures forall k :: 0 <= k < |intervals| ==>
              Runs(cs)[k].start < Runs(cs)[k].end <= |cs| && intervals[k] == Shown(cs + [c], Runs(cs)[k])
  {
    hide Runs, Shown;
    forall k | 0 <= k < |intervals| ensures intervals[k] == Shown(cs + [c], Runs(cs)[k]) {
      ShownUnchanged(cs, c, Runs(cs)[k]);
    }
  }

  lemma GrownInterval(cs: seq<Compared>, c: Compared, start: nat, last: Interval)
    requires start < |cs| && last == Shown(cs + [c], Run(start, |cs|))
    ensures last.(to := c.wallclock, polls := last.polls + 1) == Shown(cs + [c], Run(start, |cs| + 1))
  {
  }

  lemma ShowsAgreed(cs: seq<Compared>, c: Compared, intervals: seq<Interval>)
    requires ShowsRuns(cs, intervals) && Agrees(c)
    ensures ShowsRuns(cs + [c], intervals)
  {
    hide Runs, Agrees, Shown;
    RunsSnoc(cs, c);
    StillShown(cs, c, intervals);
  }

  lemma ShowsGrown(cs: seq<Compared>, c: Compared, intervals: seq<Interval>)
    requires ShowsRuns(cs, intervals) && !Agrees(c) && ReachesEnd(cs)
    ensures intervals != []
    ensures var n := |intervals| - 1;
            ShowsRuns(cs + [c], intervals[..n] + [intervals[n].(to := c.wallclock, polls := intervals[n].polls + 1)])
  {
    hide Runs, Agrees, Shown;
    RunsSnoc(cs, c);
    StillShown(cs, c, intervals);
    var before, n := Runs(cs), |intervals| - 1;
    RunsFit(cs);
    GrownInterval(cs, c, before[n].start, intervals[n]);
    var grown := intervals[n].(to := c.wallclock, polls := intervals[n].polls + 1);
    var after, extended := Runs(cs + [c]), intervals[..n] + [grown];
    assert after == before[..n] + [Run(before[n].start, |cs| + 1)];
    forall k | 0 <= k < |extended|
      ensures after[k].start < after[k].end <= |cs + [c]| && extended[k] == Shown(cs + [c], after[k])
    {
      if k < n {
        assert after[k] == before[k] && extended[k] == intervals[k];
      }
    }
  }

  lemma ShowsStarted(cs: seq<Compared>, c: Compared, intervals: seq<Interval>)
    requires ShowsRuns(cs, intervals) && !Agrees(c) && !ReachesEnd(cs)
    ensures ShowsRuns(cs + [c], intervals + [Interval(c.wallclock, c.wallclock, 1, c.api, c.chain)])
  {
    hide Runs, Agrees, Shown;
    RunsSnoc(cs, c);
    StillShown(cs, c, intervals);
    NewInterval(cs, c);
  }

  /** One compared poll: the last interval grows, or a new one starts, or neither. */
  method Extend(ghost cs: seq<Compared>, intervals: seq<Interval>, previousDisagreed: bool, c: Compared)
    returns (extended: seq<Interval>, disagreed: bool)
    requires ShowsRuns(cs, intervals)
    requires previousDisagreed <==> cs != [] && !Agrees(cs[|cs| - 1])
    ensures ShowsRuns(cs + [c], extended)
    ensures disagreed <==> !Agrees(c)
  {
    hide Agrees, ShowsRuns, ReachesEnd;
    LastRun(cs);
    extended := intervals;
    if Agrees(c) {
      ShowsAgreed(cs, c, intervals);
    } else {
      if previousDisagreed {
        ShowsGrown(cs, c, intervals);
      } else {
        ShowsStarted(cs, c, intervals);
      }
      if previousDisagreed && intervals != [] {
        var last := intervals[|intervals| - 1];
        extended := intervals[..|intervals| - 1] + [last.(to := c.wallclock, polls := last.polls + 1)];
      } else {
        extended := intervals + [Interval(c.wallclock, c.wallclock, 1, c.api, c.chain)];
      }
    }
    disagreed := !Agrees(c);
  }

  lemma NewInterval(cs: seq<Compared>, c: Compared)
    ensures Interval(c.wallclock, c.wallclock, 1, c.api, c.chain) == Shown(cs + [c], Run(|cs|, |cs| + 1))
  {
  }

  /** The comparing part of `replayApi`: a report unless a poll makes it throw. */
  method ReplayApi(chain: seq<Seen>, polls: seq<Poll>) returns (report: Option<Report>)
    requires InOrder(chain)
    ensures report.None? <==> exists k :: 0 <= k < |polls| && Throws(chain, polls[k])
    ensures report.Some? ==>
              var r, cs := report.value, ComparedAll(chain, polls);
              && r.compared == |cs| && r.disagrees == Disagreements(cs) && r.agrees + r.disagrees == r.compared
              && (r.pendingCompared, r.pendingAgrees) == PendingIn(chain, polls)
              && ShowsRuns(cs, r.intervals)
  {
    hide Runs, ComparedAll, Disagreements, PendingIn, ShowsRuns, ComparedWith, Latest, IsLatest, Seconds, Throws,
         Agrees;
    var compared, agrees, pendingCompared, pendingAgrees := 0, 0, 0, 0;
    var intervals: seq<Interval> := [];
    var previousDisagreed := false;
    Nothing(chain);
    ghost var cs: seq<Compared> := [];
    for k := 0 to |polls|
      invariant cs == ComparedAll(chain, polls[..k]) && compared == |cs|
      invariant agrees + Disagreements(cs) == compared
      invariant (pendingCompared, pendingAgrees) == PendingIn(chain, polls[..k])
      invariant ShowsRuns(cs, intervals)
      invariant previousDisagreed <==> cs != [] && !Agrees(cs[|cs| - 1])
      invariant forall j :: 0 <= j < k ==> !Throws(chain, polls[j])
    {
      var p := polls[k];
      ThrowsExactly(chain, p);
      assert polls[..k + 1] == polls[..k] + [p];
      ComparedSnoc(chain, polls[..k], p);
      PendingSnoc(chain, polls[..k], p);
      if p.Skipped? {
        NotCompared(chain, p);
        continue;
      }
      var at := LatestAtOrBefore(chain, p.ms);
      LatestExactly(chain, p.ms, at);
      WhatIsCompared(chain, p);
      if at < 0 {
        continue;
      }
      var o := chain[at].observation;
      var c := Compared(p.wallclock, p.current, Effective(o.state, o.phase));
      DisagreementsSnoc(cs, c);
      compared := compared + 1;
      if Agrees(c) {
        agrees := agrees + 1;
      }
      intervals, previousDisagreed := Extend(cs, intervals, previousDisagreed, c);
      cs := cs + [c];
      if p.pending.Some? {
        pendingCompared := pendingCompared + 1;
        var pending := p.pending.value;
        if pending.multiplier == o.state.newMultiplier && pending.ms.Some? {
          var seconds := Seconds(pending.ms.value);
          if seconds.None? {
            return None;
          }
          SecondsExactly(pending.ms.value, o.state.t);
          if seconds.value == o.state.t {
            pendingAgrees := pendingAgrees + 1;
          }
        }
      }
    }
    assert polls[..|polls|] == polls;
    report := Some(Report(compared, agrees, compared - agrees, pendingCompared, pendingAgrees, intervals));
  }

  lemma Nothing(chain: seq<Seen>)
    ensures ComparedAll(chain, []) == [] && Disagreements([]) == 0 && PendingIn(chain, []) == (0, 0)
    ensures ShowsRuns([], [])
  {
  }

  lemma NotCompared(chain: seq<Seen>, p: Poll)
    requires p.Skipped?
    ensures ComparedWith(chain, p) == None
  {
  }

  lemma ThrowsExactly(chain: seq<Seen>, p: Poll)
    ensures p.Skipped? ==> !Throws(chain, p)
    ensures p.Usable? ==>
              (Throws(chain, p) <==>
                 var at := Latest(chain, p.ms);
                 && at >= 0 && p.pending.Some? && p.pending.value.ms.Some?
                 && p.pending.value.multiplier == chain[at].observation.state.newMultiplier
                 && Seconds(p.pending.value.ms.value).None?)
  {
  }

  lemma WhatIsCompared(chain: seq<Seen>, p: Poll)
    requires p.Usable?
    ensures var at := Latest(chain, p.ms);
            ComparedWith(chain, p) ==
            if at < 0 then None
            else Some(Compared(p.wallclock, p.current, Effective(chain[at].observation.state,
                                                                 chain[at].observation.phase)))
  {
  }

  lemma PendingSnoc(chain: seq<Seen>, polls: seq<Poll>, p: Poll)
    ensures var (compared, agreed) := PendingIn(chain, polls);
            PendingIn(chain, polls + [p]) ==
            if ComparedWith(chain, p).None? || p.pending.None? then (compared, agreed)
            else
              var o := chain[Latest(chain, p.ms)].observation;
              (compared + 1, agreed + if PendingAgrees(o.state, p.pending.value) then 1 else 0)
  {
    assert (polls + [p])[..|polls|] == polls;
  }

  // ------------------------------------- the counters, said of the polls alone

  /** A poll is compared when the chain had been seen before it, and then with the
      multiplier in effect at the last observation up to it: the old one before the
      activation, the new one after. */
  lemma ComparedExactly(chain: seq<Seen>, p: Poll, at: int)
    requires InOrder(chain) && p.Usable? && IsLatest(chain, p.ms, at)
    ensures ComparedWith(chain, p).Some? <==> at >= 0
    ensures at >= 0 ==>
              var o := chain[at].observation;
              ComparedWith(chain, p) ==
              Some(Compared(p.wallclock, p.current,
                            if o.phase == ACTIVATED then o.state.newMultiplier else o.state.multiplier))
  {
    LatestExactly(chain, p.ms, at);
  }

  /** The multiplier in effect is the old one before the activation and the new one from it on. */
  lemma EffectiveExactly(state: Economic, now: int)
    ensures Effective(state, PhaseAt(state, now)) == if now < state.t then state.multiplier else state.newMultiplier
  {
  }

  lemma {:induction false} DisagreementsExactly(cs: seq<Compared>)
    ensures Disagreements(cs) == |set k | 0 <= k < |cs| && cs[k].api != cs[k].chain|
  {
    if cs != [] {
      var init, last := cs[..|cs| - 1], cs[|cs| - 1];
      DisagreementsExactly(init);
      var before := set k | 0 <= k < |init| && init[k].api != init[k].chain;
      assert (set k | 0 <= k < |cs| && cs[k].api != cs[k].chain) ==
             before + if last.api != last.chain then {|init|} else {};
    }
  }

  /** The polls that are compared. */
  ghost function ComparedAt(chain: seq<Seen>, polls: seq<Poll>): set<nat> {
    set k: nat | k < |polls| && ComparedWith(chain, polls[k]).Some?
  }

  lemma OneMoreCompared(chain: seq<Seen>, polls: seq<Poll>, p: Poll)
    ensures |ComparedAt(chain, polls + [p])| ==
            |ComparedAt(chain, polls)| + if ComparedWith(chain, p).Some? then 1 else 0
  {
    hide ComparedWith;
    assert ComparedAt(chain, polls + [p]) ==
           ComparedAt(chain, polls) + if ComparedWith(chain, p).Some? then {|polls|} else {};
  }

  /** Every compared poll is in the list, each counted once, and nothing else. */
  lemma {:induction false} ComparedPolls(chain: seq<Seen>, polls: seq<Poll>, c: Compared)
    ensures c in ComparedAll(chain, polls) <==>
            exists k :: 0 <= k < |polls| && ComparedWith(chain, polls[k]) == Some(c)
    ensures |ComparedAll(chain, polls)| == |ComparedAt(chain, polls)|
  {
    hide ComparedWith;
    if polls == [] {
      Nothing(chain);
      assert ComparedAt(chain, polls) == {};
    } else {
      hide ComparedAll, ComparedAt;
      var init, last := polls[..|polls| - 1], polls[|polls| - 1];
      assert polls == init + [last];
      ComparedPolls(chain, init, c);
      ComparedSnoc(chain, init, last);
      OneMoreCompared(chain, init, last);
    }
  }

  /** The poll was compared and showed a pending multiplier. */
  predicate ShowsPending(chain: seq<Seen>, p: Poll) {
    ComparedWith(chain, p).Some? && p.pending.Some?
  }

  /** And it is the stored one, at exactly the stored time. */
  predicate ShowsStored(chain: seq<Seen>, p: Poll) {
    && ShowsPending(chain, p)
    && var state := chain[Latest(chain, p.ms)].observation.state;
    && p.pending.value.multiplier == state.newMultiplier
    && p.pending.value.ms == Some(state.t as real * 1000.0)
  }

  /** The polls of which these are true. */
  ghost function ShownAt(chain: seq<Seen>, polls: seq<Poll>): set<nat> {
    set k: nat | k < |polls| && ShowsPending(chain, polls[k])
  }

  ghost function StoredAt(chain: seq<Seen>, polls: seq<Poll>): set<nat> {
    set k: nat | k < |polls| && ShowsStored(chain, polls[k])
  }

  lemma OnePoll(chain: seq<Seen>, polls: seq<Poll>, p: Poll)
    ensures PendingIn(chain, polls + [p]) ==
            (PendingIn(chain, polls).0 + if ShowsPending(chain, p) then 1 else 0,
             PendingIn(chain, polls).1 + if ShowsStored(chain, p) then 1 else 0)
  {
    hide Latest;
    PendingSnoc(chain, polls, p);
  }

  lemma OneMoreShown(chain: seq<Seen>, polls: seq<Poll>, p: Poll)
    ensures |ShownAt(chain, polls + [p])| == |ShownAt(chain, polls)| + if ShowsPending(chain, p) then 1 else 0
  {
    hide ShowsPending;
    assert ShownAt(chain, polls + [p]) ==
           ShownAt(chain, polls) + if ShowsPending(chain, p) then {|polls|} else {};
  }

  lemma OneMoreStored(chain: seq<Seen>, polls: seq<Poll>, p: Poll)
    ensures |StoredAt(chain, polls + [p])| == |StoredAt(chain, polls)| + if ShowsStored(chain, p) then 1 else 0
  {
    hide ShowsStored;
    assert StoredAt(chain, polls + [p]) ==
           StoredAt(chain, polls) + if ShowsStored(chain, p) then {|polls|} else {};
  }

  /** The pending multipliers compared and those that agreed are counted poll by poll. */
  lemma {:induction false} PendingExactly(chain: seq<Seen>, polls: seq<Poll>)
    ensures PendingIn(chain, polls) == (|ShownAt(chain, polls)|, |StoredAt(chain, polls)|)
  {
    hide ShowsPending, ShowsStored;
    if polls == [] {
      Nothing(chain);
      assert ShownAt(chain, polls) == {} && StoredAt(chain, polls) == {};
    } else {
      hide PendingIn, ShownAt, StoredAt;
      var init, last := polls[..|polls| - 1], polls[|polls| - 1];
      assert polls == init + [last];
      PendingExactly(chain, init);
      OnePoll(chain, init, last);
      OneMoreShown(chain, init, last);
      OneMoreStored(chain, init, last);
    }
  }

  /** A poll the replay dies on: its pending multiplier is the stored one, and its time is
      no whole second. */
  lemma ThrowsOnFractions(chain: seq<Seen>, p: Poll, at: int)
    requires InOrder(chain) && p.Usable? && IsLatest(chain, p.ms, at)
    ensures Throws(chain, p) <==>
            && at >= 0 && p.pending.Some? && p.pending.value.ms.Some?
            && p.pending.value.multiplier == chain[at].observation.state.newMultiplier
            && forall t: int :: p.pending.value.ms.value != 1000.0 * Real(t)
  {
    hide Latest;
    LatestExactly(chain, p.ms, at);
    if p.pending.Some? && p.pending.value.ms.Some? {
      var ms := p.pending.value.ms.value;
      forall t: int ensures ms == 1000.0 * Real(t) <==> Seconds(ms) == Some(t) {
        SecondsExactly(ms, t);
      }
    }
  }

  function Real(t: int): real {
    t as real
  }

  // ------------------------------------------------------- scheduled probes

  predicate Crosses(list: seq<Observation>, j: nat) {
    && j + 1 < |list| && list[j].phase == PENDING && HasScheduledChange(list[j].state)
    && list[j + 1].phase == ACTIVATED
  }

  /** `scheduledProbes` looks for it from the newest observation backwards. */
  method LastPending(list: seq<Observation>) returns (at: Option<nat>)
    ensures at.Some? ==> Crosses(list, at.value) && forall j :: at.value < j < |list| ==> !Crosses(list, j)
    ensures at.None? ==> forall j :: 0 <= j < |list| ==> !Crosses(list, j)
  {
    var i := 0;
    while i < |list|
      invariant i <= |list|
      invariant forall j :: |list| - i <= j < |list| ==> !Crosses(list, j)
    {
      var j := |list| - 1 - i;
      if list[j].phase == PENDING && HasScheduledChange(list[j].state) && i > 0 && list[j + 1].phase == ACTIVATED {
        return Some(j);
      }
      i := i + 1;
    }
    return None;
  }

  /** The three probes around T: a pending authorization is allowed at T - 1 only where
      nothing before T is refused, never at T, and at T + 1 is either still inside the
      window or refused for its phase. */
  lemma ProbesAcrossT(o: Observation, w: Window)
    requires o.phase == PENDING && HasScheduledChange(o.state)
    ensures var verdict := (now: int) => SpecVerdict(RequestOf(o, w), o.state, now);
            if !BoundsFit(RequestOf(o, w)) then
              verdict(o.state.t - 1) == verdict(o.state.t) == verdict(o.state.t + 1) == Block(ArithmeticOverflow)
            else
              && (verdict(o.state.t - 1) == if w.before == 0 then Allow else Block(InsideTransitionWindow))
              && verdict(o.state.t) == Block(InsideTransitionWindow)
              && (verdict(o.state.t + 1) ==
                  if w.after == 0 then Block(ActivationPhaseChanged) else Block(InsideTransitionWindow))
  {
  }
}
