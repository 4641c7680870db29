/** What the replay's tallies mean: conservation for every policy, and the four
    finding counters as an exact test of the policy. */
module ReplayTheorems {
  import opened Guard
  import opened Replay

  // ------------------------------------------------------------ conservation

  ghost predicate Distinct(keys: seq<Key>) {
    forall i, j :: 0 <= i < j < |keys| ==> keys[i] != keys[j]
  }

  lemma PlusZero(a: Tally)
    ensures Plus(a, ZERO) == Plus(ZERO, a) == a
  {
  }

  lemma PlusRegroup(a: Tally, b: Tally, c: Tally)
    ensures Plus(Plus(a, b), c) == Plus(a, Plus(b, c)) == Plus(Plus(a, c), b)
  {
    assert a.verdicts + b.verdicts + c.verdicts == a.verdicts + (b.verdicts + c.verdicts);
    assert a.verdicts + b.verdicts + c.verdicts == a.verdicts + c.verdicts + b.verdicts;
  }

  function SumTallies(guard: GuardPolicy, log: seq<Pair>, keys: seq<Key>): Tally {
    if keys == [] then ZERO
    else Plus(Total(guard, Select(log, keys[0])), SumTallies(guard, log, keys[1..]))
  }

  lemma {:induction false} SumOfNothing(guard: GuardPolicy, keys: seq<Key>)
    ensures SumTallies(guard, [], keys) == ZERO
  {
    hide Plus, Delta;
    PlusZero(ZERO);
    if keys != [] {
      SumOfNothing(guard, keys[1..]);
    }
  }

  /** One more pair moves exactly one of the summed tallies, by its own contribution. */
  lemma {:induction false} SumSnoc(guard: GuardPolicy, log: seq<Pair>, p: Pair, keys: seq<Key>)
    requires Distinct(keys)
    ensures SumTallies(guard, log + [p], keys) ==
            if KeyOf(p) in keys then Plus(SumTallies(guard, log, keys), Delta(guard, p))
            else SumTallies(guard, log, keys)
  {
    hide Plus, Delta, Total, Select;
    if keys != [] {
      var k, rest := keys[0], keys[1..];
      assert keys == [k] + rest;
      SumSnoc(guard, log, p, rest);
      SelectSnoc(log, p, k);
      PlusRegroup(Total(guard, Select(log, k)), SumTallies(guard, log, rest), Delta(guard, p));
      PlusRegroup(Total(guard, Select(log, k)), Delta(guard, p), SumTallies(guard, log, rest));
      if KeyOf(p) == k {
        assert p in [p];
        TotalSnoc(guard, Select(log, k), p);
      } else {
        assert Select(log, k) + [] == Select(log, k);
      }
    }
  }

  /** Every numeric field of `totals` is the sum of that field over the tallies. */
  lemma {:induction false} TotalsAreTheSum(guard: GuardPolicy, log: seq<Pair>, keys: seq<Key>)
    requires Distinct(keys) && forall p :: p in log ==> KeyOf(p) in keys
    ensures Total(guard, log) == SumTallies(guard, log, keys)
  {
    hide Plus, Delta, Select, SumTallies;
    if log == [] {
      SumOfNothing(guard, keys);
    } else {
      var before, p := log[..|log| - 1], log[|log| - 1];
      assert log == before + [p];
      TotalsAreTheSum(guard, before, keys);
      SumSnoc(guard, before, p, keys);
    }
  }

  /** The pairs whose authorization exists and whose later state is, unchanged, in its window. */
  function InWindowPairs(guard: GuardPolicy, log: seq<Pair>): nat {
    if log == [] then 0
    else
      var p := log[|log| - 1];
      InWindowPairs(guard, log[..|log| - 1]) + If(!Refused(guard, p) && InPolicy(p))
  }

  /** The bookkeeping identities of a tally over `pairs` pairs, `inWindow` of
      them in the window, that left `notes` notes. */
  predicate Balanced(t: Tally, pairs: nat, inWindow: nat, notes: nat) {
    && t.evaluations == t.allows + t.blocks == |t.verdicts|
    && t.verdicts[Allow] == t.allows
    && t.economicallyStale == t.staleBlocked + t.unexpectedAllows
    && t.evaluations == t.economicallyStale + inWindow + t.expectedAllows
    && t.evaluations + t.authorizationRefusedAtBuild == pairs
    && notes == Findings(t)
  }

  lemma BalancedPlus(a: Tally, b: Tally, p: nat, q: nat, i: nat, j: nat, m: nat, n: nat)
    requires Balanced(a, p, i, m) && Balanced(b, q, j, n)
    ensures Balanced(Plus(a, b), p + q, i + j, m + n)
  {
  }

  lemma OnePairBalanced(guard: GuardPolicy, p: Pair)
    ensures Balanced(Delta(guard, p), 1, If(!Refused(guard, p) && InPolicy(p)), |NotesOf(guard, p)|)
  {
    if !Refused(guard, p) {
      var o := OutcomeOf(guard, p);
      assert o.policy ==> !o.stale;
      assert multiset{o.verdict}[Allow] == If(o.verdict == Allow);
    }
  }

  lemma InWindowSnoc(guard: GuardPolicy, log: seq<Pair>, p: Pair)
    ensures InWindowPairs(guard, log + [p]) ==
            InWindowPairs(guard, log) + If(!Refused(guard, p) && InPolicy(p))
  {
    assert (log + [p])[..|log|] == log;
  }

  lemma NothingBalanced(guard: GuardPolicy)
    ensures Balanced(Total(guard, []), 0, InWindowPairs(guard, []), |Notes(guard, [])|)
  {
    hide Plus, Delta;
    assert Total(guard, []) == ZERO;
    assert InWindowPairs(guard, []) == 0;
    assert Notes(guard, []) == [];
    assert |ZERO.verdicts| == 0;
    assert ZERO.verdicts[Allow] == 0;
  }

  lemma {:induction false} Identities(guard: GuardPolicy, log: seq<Pair>)
    ensures Balanced(Total(guard, log), |log|, InWindowPairs(guard, log), |Notes(guard, log)|)
  {
    hide Plus, Delta, Balanced, NotesOf, InPolicy, Total, Notes, InWindowPairs;
    if log == [] {
      NothingBalanced(guard);
    } else {
      var before, p := log[..|log| - 1], log[|log| - 1];
      assert log == before + [p];
      Identities(guard, before);
      OnePairBalanced(guard, p);
      TotalSnoc(guard, before, p);
      NotesSnoc(guard, before, p);
      InWindowSnoc(guard, before, p);
      BalancedPlus(Total(guard, before), Delta(guard, p), |before|, 1, InWindowPairs(guard, before),
                   If(!Refused(guard, p) && InPolicy(p)), |Notes(guard, before)|, |NotesOf(guard, p)|);
    }
  }

  // ---------------------------------------------------------- how many pairs

  function Max0(n: int): nat {
    if n > 0 then n else 0
  }

  function PerMint(n: nat, lags: seq<nat>): nat {
    if lags == [] then 0
    else PerMint(n, lags[..|lags| - 1]) + Max0(n - lags[|lags| - 1])
  }

  ghost function OverMints(history: map<string, seq<Observation>>): nat
    decreases |history|
  {
    if history == map[] then 0
    else
      var m :| m in history;
      PerMint(|history[m]|, LAGS) + OverMints(history - {m})
  }

  lemma {:induction false} OverMintsSplit(history: map<string, seq<Observation>>, m: string)
    requires m in history
    ensures OverMints(history) == PerMint(|history[m]|, LAGS) + OverMints(history - {m})
    decreases |history|
  {
    var c :| c in history && OverMints(history) == PerMint(|history[c]|, LAGS) + OverMints(history - {c});
    if c != m {
      OverMintsSplit(history - {c}, m);
      OverMintsSplit(history - {m}, c);
      assert history - {c} - {m} == history - {m} - {c};
    }
  }

  lemma {:induction false} WindowPairsCount(auth: Observation, current: Observation, lag: nat, windows: seq<Window>)
    ensures |WindowPairs(auth, current, lag, windows)| == |windows|
  {
    if windows != [] {
      WindowPairsCount(auth, current, lag, windows[..|windows| - 1]);
    }
  }

  lemma {:induction false} NewestPairsCount(list: seq<Observation>, lags: seq<nat>)
    requires list != []
    ensures |NewestPairs(list, lags, WINDOWS)| == 3 * (PerMint(|list|, lags) - PerMint(|list| - 1, lags))
  {
    if lags != [] {
      var lag := lags[|lags| - 1];
      NewestPairsCount(list, lags[..|lags| - 1]);
      if lag < |list| {
        WindowPairsCount(list[|list| - 1 - lag], list[|list| - 1], lag, WINDOWS);
      }
    }
  }

  lemma {:induction false} NothingToPair(lags: seq<nat>)
    ensures PerMint(0, lags) == 0
  {
    if lags != [] {
      NothingToPair(lags[..|lags| - 1]);
    }
  }

  lemma OverMintsAppend(history: map<string, seq<Observation>>, m: string, list: seq<Observation>)
    requires list != [] && ListOf(history, m) == list[..|list| - 1]
    ensures OverMints(history[m := list]) ==
            OverMints(history) + PerMint(|list|, LAGS) - PerMint(|list| - 1, LAGS)
  {
    var after := history[m := list];
    OverMintsSplit(after, m);
    if m in history {
      OverMintsSplit(history, m);
      assert after - {m} == history - {m};
    } else {
      NothingToPair(LAGS);
      assert after - {m} == history;
    }
  }

  /** Every lagged pair of every mint is looked at once per window, so
      evaluations plus refusals are 3 * sum over mints and lags of max(0, n - lag). */
  lemma {:induction false} EveryPairOnce(guard: GuardPolicy, records: seq<Record>)
    ensures |LogOf(records)| == 3 * OverMints(HistoryOf(records))
    ensures var t := Total(guard, LogOf(records));
            t.evaluations + t.authorizationRefusedAtBuild == 3 * OverMints(HistoryOf(records))
  {
    Identities(guard, LogOf(records));
    hide Total;
    if records != [] {
      hide NewestPairs;
      var before, r := records[..|records| - 1], records[|records| - 1];
      EveryPairOnce(guard, before);
      if r.Verifiable? {
        var list := HistoryOf(records)[r.mint];
        assert list[..|list| - 1] == ListOf(HistoryOf(before), r.mint);
        OverMintsAppend(HistoryOf(before), r.mint, list);
        NewestPairsCount(list, LAGS);
      }
    }
  }

  // ------------------------------------------------ what zero findings means

  /** What the economics ask of a policy on one pair. An authorization the
      policy refuses at build time asks nothing. */
  predicate MeetsPolicy(guard: GuardPolicy, p: Pair) {
    var v := VerdictOf(guard, p);
    Refused(guard, p) ||
    if Stale(p) then ExpectedClass(StoredChanged(p), v)
    else if InPolicy(p) then v == Block(InsideTransitionWindow)
    else v == Allow
  }

  lemma OnePairFindings(guard: GuardPolicy, p: Pair)
    ensures Findings(Delta(guard, p)) == 0 <==> MeetsPolicy(guard, p)
  {
  }

  lemma FindingsPlus(a: Tally, b: Tally)
    ensures Findings(Plus(a, b)) == Findings(a) + Findings(b)
  {
  }

  lemma ZeroFindsNothing()
    ensures Findings(ZERO) == 0
  {
  }

  ghost predicate AllMeet(guard: GuardPolicy, log: seq<Pair>) {
    forall p :: p in log ==> MeetsPolicy(guard, p)
  }

  /** For every policy: the four counters end at zero exactly when the policy
      meets the economics on every pair. A weakened policy cannot pass. */
  lemma {:induction false} ZeroFindingsExactly(guard: GuardPolicy, log: seq<Pair>)
    ensures Findings(Total(guard, log)) == 0 <==> AllMeet(guard, log)
  {
    hide Plus, Delta, Findings, MeetsPolicy;
    if log == [] {
      ZeroFindsNothing();
    } else {
      hide Total;
      var before, p := log[..|log| - 1], log[|log| - 1];
      assert log == before + [p];
      ZeroFindingsExactly(guard, before);
      OnePairFindings(guard, p);
      TotalSnoc(guard, before, p);
      FindingsPlus(Total(guard, before), Delta(guard, p));
      assert AllMeet(guard, log) <==> AllMeet(guard, before) && MeetsPolicy(guard, p);
    }
  }

  ghost predicate IsSpec(guard: GuardPolicy) {
    forall r, s, n :: guard(r, s, n) == SpecVerdict(r, s, n)
  }

  /** An authorization built from an observation carries the phase at its own time. */
  predicate PhaseIsOwn(o: Observation) {
    o.phase == PhaseAt(o.state, o.now)
  }

  /** Whether the window bounds leave i64 while an unchanged change is pending. */
  predicate Overflows(p: Pair) {
    && HasScheduledChange(p.auth.state)
    && !BoundsFit(RequestOf(p.auth, p.window))
  }

  /** Without the build-time refusal the policy meets the economics exactly
      when the stored state moved or the window bounds stay in i64: that is
      the one family the refusal at build time is needed for. */
  lemma SpecMeetsEconomicsExactly(p: Pair)
    requires PhaseIsOwn(p.auth)
    ensures var v := SpecVerdict(RequestOf(p.auth, p.window), p.current.state, p.current.now);
            (if Stale(p) then ExpectedClass(StoredChanged(p), v)
             else if InPolicy(p) then v == Block(InsideTransitionWindow)
             else v == Allow)
            <==> StoredChanged(p) || !Overflows(p)
  {
    assert StoredEqual(p.auth.state, p.current.state) <==> p.auth.state == p.current.state;
  }

  lemma BuiltAuthorizationsDoNotOverflow(guard: GuardPolicy, p: Pair)
    requires IsSpec(guard) && !Refused(guard, p)
    ensures !Overflows(p)
  {
    AcceptedExactly(RequestOf(p.auth, p.window), p.auth.state, p.auth.now);
  }

  lemma {:induction false} ListsHoldOwnPhases(records: seq<Record>, m: string, i: nat)
    requires m in HistoryOf(records) && i < |HistoryOf(records)[m]|
    ensures PhaseIsOwn(HistoryOf(records)[m][i])
  {
    var before, r := records[..|records| - 1], records[|records| - 1];
    if r.Verifiable? && r.mint == m && i == |HistoryOf(records)[m]| - 1 {
    } else {
      ListsHoldOwnPhases(before, m, i);
    }
  }

  lemma {:induction false} NewestPairsFrom(list: seq<Observation>, lags: seq<nat>, p: Pair)
    requires list != [] && p in NewestPairs(list, lags, WINDOWS)
    ensures p.auth in list
  {
    var lag := lags[|lags| - 1];
    if lag < |list| && p in WindowPairs(list[|list| - 1 - lag], list[|list| - 1], lag, WINDOWS) {
      WindowPairsFrom(list[|list| - 1 - lag], list[|list| - 1], lag, WINDOWS, p);
    } else {
      NewestPairsFrom(list, lags[..|lags| - 1], p);
    }
  }

  lemma {:induction false} WindowPairsFrom(auth: Observation, current: Observation, lag: nat, windows: seq<Window>,
                                           p: Pair)
    requires p in WindowPairs(auth, current, lag, windows)
    ensures p.auth == auth && p.current == current
  {
    if p != Pair(auth, current, lag, windows[|windows| - 1]) {
      WindowPairsFrom(auth, current, lag, windows[..|windows| - 1], p);
    }
  }

  lemma {:induction false} LogHoldsOwnPhases(records: seq<Record>, p: Pair)
    requires p in LogOf(records)
    ensures PhaseIsOwn(p.auth)
  {
    var before, r := records[..|records| - 1], records[|records| - 1];
    if p in LogOf(before) {
      LogHoldsOwnPhases(before, p);
    } else {
      var list := HistoryOf(records)[r.mint];
      NewestPairsFrom(list, LAGS, p);
      var i :| 0 <= i < |list| && list[i] == p.auth;
      ListsHoldOwnPhases(records, r.mint, i);
    }
  }

  /** Soundness and completeness of the guard over every capture: with the
      specified policy, whatever was observed, no stale authorization is
      allowed, no in-window one is, no current one is blocked, and every block
      names the class of what moved. */
  lemma ReplayFindsNothing(guard: GuardPolicy, records: seq<Record>)
    requires IsSpec(guard)
    ensures var t := Total(guard, LogOf(records));
            && t.unexpectedAllows == 0 && t.unexpectedPolicyAllows == 0
            && t.unexpectedBlocks == 0 && t.reasonDisagreements == 0
  {
    forall p | p in LogOf(records) ensures MeetsPolicy(guard, p) {
      LogHoldsOwnPhases(records, p);
      SpecMeetsEconomicsExactly(p);
      if !Refused(guard, p) {
        BuiltAuthorizationsDoNotOverflow(guard, p);
      }
    }
    ZeroFindingsExactly(guard, LogOf(records));
  }

  /** A policy that ignores the clock is caught as soon as the capture holds
      one authorization whose activation passed with unchanged bytes. */
  lemma ClockBlindPolicyIsCaught(guard: GuardPolicy, log: seq<Pair>, p: Pair)
    requires p in log && !Refused(guard, p)
    requires Stale(p) && VerdictOf(guard, p) == Allow
    ensures Findings(Total(guard, log)) > 0
  {
    ZeroFindingsExactly(guard, log);
    assert !MeetsPolicy(guard, p);
  }
}
