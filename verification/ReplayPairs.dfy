/** Which pairs a replay looks at, said of the records themselves: every verifiable
    record of a mint against the ones that came lag places before it. */
module ReplayPairs {
  import opened Guard
  import opened Replay

  /** The positions of a mint's verifiable records, all of them, in order. */
  ghost predicate Places(records: seq<Record>, mint: string, at: seq<nat>) {
    && (forall j, k :: 0 <= j < k < |at| ==> at[j] < at[k])
    && (forall k :: 0 <= k < |at| ==>
          at[k] < |records| && records[at[k]].Verifiable? && records[at[k]].mint == mint)
    && (forall i :: 0 <= i < |records| && records[i].Verifiable? && records[i].mint == mint ==> i in at)
  }

  /** A record as the replay remembers it: activated from its activation time on. */
  function Seen(r: Record): Observation
    requires r.Verifiable?
  {
    Observation(r.line, r.state, r.now, if r.now < r.state.t then PENDING else ACTIVATED)
  }

  /** `p` pairs the `n`-th record at these places with the one `lag` before it. */
  predicate Pairs(records: seq<Record>, at: seq<nat>, n: nat, lag: nat, w: Window, p: Pair) {
    && lag <= n < |at|
    && at[n] < |records| && at[n - lag] < |records| && records[at[n]].Verifiable? && records[at[n - lag]].Verifiable?
    && p == Pair(Seen(records[at[n - lag]]), Seen(records[at[n]]), lag, w)
  }

  /** Six lags under three windows. */
  predicate Looked(lag: nat, w: Window) {
    && lag in {1, 2, 10, 120, 480, 2880}
    && w in {Window("zero", 0, 0), Window("demo-900-300", 900, 300), Window("one-day", 86_400, 86_400)}
  }

  lemma LookedExactly(lag: nat, w: Window)
    ensures Looked(lag, w) <==> lag in LAGS && w in WINDOWS
  {
  }

  /** `p` is a pair of the capture. */
  ghost predicate IsPair(records: seq<Record>, p: Pair) {
    && Looked(p.lag, p.window)
    && exists mint: string, at: seq<nat>, n: nat ::
         Places(records, mint, at) && Pairs(records, at, n, p.lag, p.window, p)
  }

  // ------------------------------------------------------------- the history

  /** The history holds a mint's records at the places where they are. */
  ghost predicate Holds(records: seq<Record>, mint: string, at: seq<nat>) {
    var list := ListOf(HistoryOf(records), mint);
    && Places(records, mint, at) && |list| == |at|
    && forall k :: 0 <= k < |at| ==> list[k] == Seen(records[at[k]])
  }

  lemma HistorySnoc(before: seq<Record>, r: Record, mint: string)
    ensures ListOf(HistoryOf(before + [r]), mint) ==
            if r.Verifiable? && r.mint == mint then ListOf(HistoryOf(before), mint) + [ObservationOf(r)]
            else ListOf(HistoryOf(before), mint)
  {
    assert (before + [r])[..|before|] == before;
  }

  lemma {:induction false} HistoryHolds(records: seq<Record>, mint: string) returns (at: seq<nat>)
    ensures Holds(records, mint, at)
  {
    if records == [] {
      at := [];
      assert ListOf(HistoryOf([]), mint) == [];
    } else {
      var before, r := records[..|records| - 1], records[|records| - 1];
      assert records == before + [r];
      HistorySnoc(before, r, mint);
      at := HistoryHolds(before, mint);
      hide HistoryOf, ListOf;
      if r.Verifiable? && r.mint == mint {
        PlacesGrow(before, r, mint, at);
        at := at + [|before|];
      } else {
        PlacesStay(before, r, mint, at);
      }
    }
  }

  lemma PlacesGrow(before: seq<Record>, r: Record, mint: string, at: seq<nat>)
    requires Places(before, mint, at) && r.Verifiable? && r.mint == mint
    ensures Places(before + [r], mint, at + [|before|])
  {
    var records, more := before + [r], at + [|before|];
    forall i | 0 <= i < |records| && records[i].Verifiable? && records[i].mint == mint ensures i in more {
      if i < |before| {
        assert before[i] == records[i] && i in at;
      } else {
        assert more[|at|] == i;
      }
    }
  }

  lemma PlacesStay(before: seq<Record>, r: Record, mint: string, at: seq<nat>)
    requires Places(before, mint, at) && !(r.Verifiable? && r.mint == mint)
    ensures Places(before + [r], mint, at)
  {
    var records := before + [r];
    forall i | 0 <= i < |records| && records[i].Verifiable? && records[i].mint == mint ensures i in at {
      assert i < |before| && before[i] == records[i];
    }
  }

  lemma {:induction false} PlacesAreUnique(records: seq<Record>, mint: string, a: seq<nat>, b: seq<nat>)
    requires Places(records, mint, a) && Places(records, mint, b)
    ensures a == b
    decreases |a|
  {
    NoPlaces(records, mint, a, b);
    if a != [] && b != [] {
      var i, j := a[|a| - 1], b[|b| - 1];
      assert i in b && j in a;
      assert i == j;
      SameInit(records, mint, a, b);
      assert a == a[..|a| - 1] + [i] && b == b[..|b| - 1] + [j];
    }
  }

  lemma NoPlaces(records: seq<Record>, mint: string, a: seq<nat>, b: seq<nat>)
    requires Places(records, mint, a) && Places(records, mint, b)
    ensures a == [] <==> b == []
  {
    assert b != [] ==> b[0] in a;
    assert a != [] ==> a[0] in b;
  }

  /** With the last place cut off on both sides, the same before it. */
  lemma {:induction false} SameInit(records: seq<Record>, mint: string, a: seq<nat>, b: seq<nat>)
    requires Places(records, mint, a) && Places(records, mint, b) && a != [] && b != []
    requires a[|a| - 1] == b[|b| - 1]
    ensures a[..|a| - 1] == b[..|b| - 1]
    decreases |a|, 0
  {
    var last := a[|a| - 1];
    PlacesBefore(records, mint, a);
    PlacesBefore(records, mint, b);
    PlacesAreUnique(records[..last], mint, a[..|a| - 1], b[..|b| - 1]);
  }

  lemma PlacesBefore(records: seq<Record>, mint: string, at: seq<nat>)
    requires Places(records, mint, at) && at != []
    ensures at[|at| - 1] <= |records| && Places(records[..at[|at| - 1]], mint, at[..|at| - 1])
  {
    var n := |at| - 1;
    forall i | 0 <= i < at[n] && records[i].Verifiable? && records[i].mint == mint ensures i in at[..n] {
      assert i in at;
      var k :| 0 <= k < |at| && at[k] == i;
      assert at[..n][k] == i;
    }
  }

  // ---------------------------------------------------------------- the log

  lemma {:induction false} WindowPairsExactly(auth: Observation, current: Observation, lag: nat,
                                              windows: seq<Window>, p: Pair)
    ensures p in WindowPairs(auth, current, lag, windows) <==>
            p.window in windows && p == Pair(auth, current, lag, p.window)
  {
    if windows != [] {
      var n := |windows| - 1;
      WindowPairsExactly(auth, current, lag, windows[..n], p);
      assert windows == windows[..n] + [windows[n]];
    }
  }

  lemma {:induction false} NewestPairsExactly(list: seq<Observation>, lags: seq<nat>, p: Pair)
    requires list != []
    ensures p in NewestPairs(list, lags, WINDOWS) <==>
            && p.lag in lags && p.window in WINDOWS && p.lag < |list|
            && p == Pair(list[|list| - 1 - p.lag], list[|list| - 1], p.lag, p.window)
  {
    hide WindowPairs;
    if lags != [] {
      var n := |lags| - 1;
      var lag := lags[n];
      NewestPairsExactly(list, lags[..n], p);
      assert lags == lags[..n] + [lag];
      if lag < |list| {
        WindowPairsExactly(list[|list| - 1 - lag], list[|list| - 1], lag, WINDOWS, p);
      }
    }
  }

  /** `p` pairs the `n`-th observation of a list with the one its lag before it. */
  predicate PairsIn(list: seq<Observation>, n: nat, p: Pair) {
    && p.lag in LAGS && p.window in WINDOWS && p.lag <= n < |list|
    && p == Pair(list[n - p.lag], list[n], p.lag, p.window)
  }

  lemma LogSnoc(before: seq<Record>, r: Record, p: Pair)
    ensures p in LogOf(before + [r]) <==>
            || p in LogOf(before)
            || (r.Verifiable?
                && var list := ListOf(HistoryOf(before + [r]), r.mint); list != [] && PairsIn(list, |list| - 1, p))
  {
    hide LogOf, NewestPairs, HistoryOf, ListOf;
    InHistory(before, r);
    LogGrows(before, r);
    if r.Verifiable? {
      NewestPairsExactly(HistoryOf(before + [r])[r.mint], LAGS, p);
    }
  }

  lemma LogGrows(before: seq<Record>, r: Record)
    requires r.Verifiable? ==> r.mint in HistoryOf(before + [r]) && HistoryOf(before + [r])[r.mint] != []
    ensures LogOf(before + [r]) ==
            LogOf(before)
            + if r.Verifiable? then NewestPairs(HistoryOf(before + [r])[r.mint], LAGS, WINDOWS) else []
  {
    hide NewestPairs, HistoryOf;
    assert (before + [r])[..|before|] == before;
  }

  lemma InHistory(before: seq<Record>, r: Record)
    ensures var history := HistoryOf(before + [r]);
            r.Verifiable? ==>
              r.mint in history && history[r.mint] == ListOf(history, r.mint) && history[r.mint] != []
  {
  }

  ghost predicate PairedIn(records: seq<Record>, mint: string, p: Pair) {
    exists n: nat :: PairsIn(ListOf(HistoryOf(records), mint), n, p)
  }

  lemma {:induction false} LogExactly(records: seq<Record>, p: Pair)
    ensures p in LogOf(records) <==> exists mint: string :: PairedIn(records, mint, p)
  {
    if records == [] {
      assert forall mint :: ListOf(HistoryOf([]), mint) == [];
    } else {
      hide LogOf;
      var before, r := records[..|records| - 1], records[|records| - 1];
      assert records == before + [r];
      LogExactly(before, p);
      LogSnoc(before, r, p);
      forall mint
        ensures PairedIn(records, mint, p) <==>
                || PairedIn(before, mint, p)
                || (r.Verifiable? && r.mint == mint
                    && var list := ListOf(HistoryOf(records), mint); list != [] && PairsIn(list, |list| - 1, p))
      {
        PairedSnoc(before, r, mint, p);
      }
    }
  }

  lemma PairedSnoc(before: seq<Record>, r: Record, mint: string, p: Pair)
    ensures PairedIn(before + [r], mint, p) <==>
            || PairedIn(before, mint, p)
            || (r.Verifiable? && r.mint == mint
                && var list := ListOf(HistoryOf(before + [r]), mint); list != [] && PairsIn(list, |list| - 1, p))
  {
    HistorySnoc(before, r, mint);
    hide HistoryOf, ListOf;
    var was, list := ListOf(HistoryOf(before), mint), ListOf(HistoryOf(before + [r]), mint);
    assert forall n: nat :: n < |was| ==> (PairsIn(list, n, p) <==> PairsIn(was, n, p));
  }

  /** A capture is replayed as exactly its pairs: of one mint, `lag` verifiable records
      apart, at the six lags and under the three windows. */
  lemma PairsExactly(records: seq<Record>, p: Pair)
    ensures p in LogOf(records) <==> IsPair(records, p)
  {
    hide LogOf, HistoryOf, ListOf, Places, Pairs, PairsIn, Looked;
    LogExactly(records, p);
    LookedExactly(p.lag, p.window);
    if mint: string :| PairedIn(records, mint, p) {
      var at := HistoryHolds(records, mint);
      var n: nat :| PairsIn(ListOf(HistoryOf(records), mint), n, p);
      SamePairs(records, mint, at, n, p);
    }
    if mint: string, at: seq<nat>, n: nat :|
      Looked(p.lag, p.window) && Places(records, mint, at) && Pairs(records, at, n, p.lag, p.window, p)
    {
      var held := HistoryHolds(records, mint);
      PlacesAreUnique(records, mint, at, held);
      SamePairs(records, mint, at, n, p);
      assert PairedIn(records, mint, p);
    }
  }

  lemma SamePairs(records: seq<Record>, mint: string, at: seq<nat>, n: nat, p: Pair)
    requires Holds(records, mint, at)
    ensures PairsIn(ListOf(HistoryOf(records), mint), n, p) <==>
            p.lag in LAGS && p.window in WINDOWS && Pairs(records, at, n, p.lag, p.window, p)
  {
    hide HistoryOf, ListOf;
  }

  // ----------------------------------------------------- what is counted of it

  /** What the policy says of a pair: the authorization is for the state and the phase
      of its own observation. */
  function Asked(p: Pair): Request {
    Request(p.auth.state, p.auth.phase, p.window.before, p.window.after)
  }

  predicate Built(guard: GuardPolicy, p: Pair) {
    guard(Asked(p), p.auth.state, p.auth.now) == Allow
  }

  function Answered(guard: GuardPolicy, p: Pair): Verdict {
    guard(Asked(p), p.current.state, p.current.now)
  }

  /** A stored field moved, or the multiplier in effect is another one. */
  predicate Spoiled(p: Pair) {
    var was := if p.auth.phase == 1 then p.auth.state.newMultiplier else p.auth.state.multiplier;
    var (state, now) := (p.current.state, p.current.now);
    p.auth.state != state || was != if now < state.t then state.multiplier else state.newMultiplier
  }

  predicate Between(p: Pair) {
    var (state, now) := (p.current.state, p.current.now);
    state.multiplier != state.newMultiplier && state.t - p.window.before <= now <= state.t + p.window.after
  }

  /** A refusal that does not say what moved. */
  predicate Misnamed(p: Pair, v: Verdict) {
    if Spoiled(p) then
      if p.auth.state != p.current.state then
        v !in {Block(MultiplierChanged), Block(NewMultiplierChanged), Block(EffectiveTimestampChanged)}
      else v !in {Block(InsideTransitionWindow), Block(ActivationPhaseChanged)}
    else Between(p) && v != Block(InsideTransitionWindow)
  }

  /** Allowed, although the exact state and phase of the authorization are gone. */
  predicate Looser(guard: GuardPolicy, p: Pair) {
    && Built(guard, p) && Answered(guard, p) == Allow
    && (p.auth.state != p.current.state || p.auth.phase != if p.current.now < p.current.state.t then 0 else 1)
  }

  /** How many pairs of the log are so. */
  function Counted(log: seq<Pair>, so: Pair -> bool): nat {
    if log == [] then 0 else Counted(log[..|log| - 1], so) + if so(log[|log| - 1]) then 1 else 0
  }

  /** Each pair that got its authorization, by what the policy answers later. */
  lemma OnePairCounts(guard: GuardPolicy, p: Pair)
    ensures var d, v, built := Delta(guard, p), Answered(guard, p), Built(guard, p);
            && d.evaluations == If(built) && d.authorizationRefusedAtBuild == If(!built)
            && d.allows == If(built && v == Allow) && d.blocks == If(built && v != Allow)
            && d.verdicts == (if built then multiset{v} else multiset{})
            && d.economicallyStale == If(built && Spoiled(p))
            && d.staleBlocked == If(built && Spoiled(p) && v != Allow)
            && d.unexpectedAllows == If(built && Spoiled(p) && v == Allow)
            && d.policyWindowBlocks == If(built && !Spoiled(p) && Between(p) && v == Block(InsideTransitionWindow))
            && d.unexpectedPolicyAllows == If(built && !Spoiled(p) && Between(p) && v == Allow)
            && d.expectedAllows == If(built && !Spoiled(p) && !Between(p))
            && d.unexpectedBlocks == If(built && !Spoiled(p) && !Between(p) && v != Allow)
            && d.reasonDisagreements == If(built && v != Allow && Misnamed(p, v))
            && d.offChainBindingStricter == If(Looser(guard, p))
  {
    assert StoredEqual(p.auth.state, p.current.state) <==> p.auth.state == p.current.state;
  }

  /** A pair leaves a note exactly when the policy's answer is wrong, of the kind it is wrong in. */
  lemma OnePairNotes(guard: GuardPolicy, p: Pair)
    ensures var v, built := Answered(guard, p), Built(guard, p);
            NotesOf(guard, p) ==
            if built && Spoiled(p) && v == Allow then [Note(UnexpectedAllow, p)]
            else if built && !Spoiled(p) && Between(p) && v == Allow then [Note(UnexpectedPolicyAllow, p)]
            else if built && !Spoiled(p) && !Between(p) && v != Allow then [Note(UnexpectedBlock, p)]
            else if built && v != Allow && Misnamed(p, v) then [Note(ReasonDisagreement, p)]
            else []
  {
    assert StoredEqual(p.auth.state, p.current.state) <==> p.auth.state == p.current.state;
  }

  /** The totals count the pairs of the log, one field at a time. */
  lemma {:induction false} TotalsCount(guard: GuardPolicy, log: seq<Pair>)
    ensures var t := Total(guard, log);
            && t.evaluations == Counted(log, p => Built(guard, p))
            && t.authorizationRefusedAtBuild == Counted(log, p => !Built(guard, p))
            && t.allows == Counted(log, p => Built(guard, p) && Answered(guard, p) == Allow)
            && t.blocks == Counted(log, p => Built(guard, p) && Answered(guard, p) != Allow)
            && t.economicallyStale == Counted(log, p => Built(guard, p) && Spoiled(p))
            && t.staleBlocked == Counted(log, p => Built(guard, p) && Spoiled(p) && Answered(guard, p) != Allow)
            && t.unexpectedAllows == Counted(log, p => Built(guard, p) && Spoiled(p) && Answered(guard, p) == Allow)
            && t.policyWindowBlocks ==
               Counted(log, p => Built(guard, p) && !Spoiled(p) && Between(p)
                                 && Answered(guard, p) == Block(InsideTransitionWindow))
            && t.unexpectedPolicyAllows ==
               Counted(log, p => Built(guard, p) && !Spoiled(p) && Between(p) && Answered(guard, p) == Allow)
            && t.expectedAllows == Counted(log, p => Built(guard, p) && !Spoiled(p) && !Between(p))
            && t.unexpectedBlocks ==
               Counted(log, p => Built(guard, p) && !Spoiled(p) && !Between(p) && Answered(guard, p) != Allow)
            && t.reasonDisagreements ==
               Counted(log, p => Built(guard, p) && Answered(guard, p) != Allow && Misnamed(p, Answered(guard, p)))
            && t.offChainBindingStricter == Counted(log, p => Looser(guard, p))
    ensures forall v :: Total(guard, log).verdicts[v] == Counted(log, p => Built(guard, p) && Answered(guard, p) == v)
  {
    hide Delta;
    if log != [] {
      var init, p := log[..|log| - 1], log[|log| - 1];
      TotalsCount(guard, init);
      OnePairCounts(guard, p);
    }
  }
}
