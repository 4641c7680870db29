/** Historical replay: every earlier observation of a mint is a candidate
    authorization, evaluated against every later observation at fixed lags and
    windows, and tallied against an economic notion of staleness that does not
    mention the guard. */
module Replay {
  import opened Bytes
  import opened Guard

  datatype Window = Window(name: string, before: u32, after: u32)

  const WINDOWS: seq<Window> :=
    [Window("zero", 0, 0), Window("demo-900-300", 900, 300), Window("one-day", 86_400, 86_400)]
  const LAGS: seq<nat> := [1, 2, 10, 120, 480, 2880]

  /** A verifiable observation: decoded state, block time, and the phase at that time. */
  datatype Observation = Observation(line: nat, state: Economic, now: int, phase: byte)

  /** One capture record after decoding; records that are not verifiable add nothing. */
  datatype Record = Verifiable(mint: string, line: nat, state: Economic, now: int) | NotVerifiable

  /** The policy under test. The harness substitutes weakened ones. */
  type GuardPolicy = (Request, Economic, int) -> Verdict

  datatype Pair = Pair(auth: Observation, current: Observation, lag: nat, window: Window)

  datatype Key = Key(lag: nat, window: string)

  function KeyOf(p: Pair): Key {
    Key(p.lag, p.window.name)
  }

  // -------------------------------------------------------- economic meaning

  function Effective(state: Economic, phase: byte): u64 {
    if phase == ACTIVATED then state.newMultiplier else state.multiplier
  }

  predicate StoredEqual(a: Economic, b: Economic) {
    a.multiplier == b.multiplier && a.newMultiplier == b.newMultiplier && a.t == b.t
  }

  predicate InWindow(state: Economic, now: int, w: Window) {
    HasScheduledChange(state) && state.t - w.before <= now && now <= state.t + w.after
  }

  function RequestOf(auth: Observation, w: Window): Request {
    Request(auth.state, auth.phase, w.before, w.after)
  }

  predicate Refused(guard: GuardPolicy, p: Pair) {
    guard(RequestOf(p.auth, p.window), p.auth.state, p.auth.now) != Allow
  }

  function VerdictOf(guard: GuardPolicy, p: Pair): Verdict {
    guard(RequestOf(p.auth, p.window), p.current.state, p.current.now)
  }

  predicate StoredChanged(p: Pair) {
    !StoredEqual(p.auth.state, p.current.state)
  }

  /** Economically stale: a stored field moved, or another multiplier is in effect. */
  predicate Stale(p: Pair) {
    || StoredChanged(p)
    || Effective(p.auth.state, p.auth.phase) !=
       Effective(p.current.state, PhaseAt(p.current.state, p.current.now))
  }

  predicate InPolicy(p: Pair) {
    !Stale(p) && InWindow(p.current.state, p.current.now, p.window)
  }

  predicate OffChainChanged(p: Pair) {
    StoredChanged(p) || p.auth.phase != PhaseAt(p.current.state, p.current.now)
  }

  predicate IsStoredError(e: GuardError) {
    e == MultiplierChanged || e == NewMultiplierChanged || e == EffectiveTimestampChanged
  }

  predicate IsClockError(e: GuardError) {
    e == InsideTransitionWindow || e == ActivationPhaseChanged
  }

  predicate ExpectedClass(storedChanged: bool, v: Verdict) {
    v.Block? && if storedChanged then IsStoredError(v.error) else IsClockError(v.error)
  }

  // ----------------------------------------------------------------- tallies

  /** The numbers of one tally. The verdict histogram is a multiset: its
      multiplicities are the histogram's counts. */
  datatype Tally = Tally(
    evaluations: nat, authorizationRefusedAtBuild: nat, allows: nat, blocks: nat,
    verdicts: multiset<Verdict>, economicallyStale: nat, staleBlocked: nat,
    policyWindowBlocks: nat, expectedAllows: nat, unexpectedAllows: nat,
    unexpectedPolicyAllows: nat, unexpectedBlocks: nat, reasonDisagreements: nat,
    offChainBindingStricter: nat)

  const ZERO: Tally := Tally(0, 0, 0, 0, multiset{}, 0, 0, 0, 0, 0, 0, 0, 0, 0)

  function Plus(a: Tally, b: Tally): Tally {
    Tally(a.evaluations + b.evaluations,
          a.authorizationRefusedAtBuild + b.authorizationRefusedAtBuild,
          a.allows + b.allows, a.blocks + b.blocks, a.verdicts + b.verdicts,
          a.economicallyStale + b.economicallyStale, a.staleBlocked + b.staleBlocked,
          a.policyWindowBlocks + b.policyWindowBlocks, a.expectedAllows + b.expectedAllows,
          a.unexpectedAllows + b.unexpectedAllows,
          a.unexpectedPolicyAllows + b.unexpectedPolicyAllows,
          a.unexpectedBlocks + b.unexpectedBlocks,
          a.reasonDisagreements + b.reasonDisagreements,
          a.offChainBindingStricter + b.offChainBindingStricter)
  }

  function Findings(t: Tally): nat {
    t.unexpectedAllows + t.unexpectedPolicyAllows + t.unexpectedBlocks + t.reasonDisagreements
  }

  function If(b: bool): nat {
    if b then 1 else 0
  }

  /** How one pair with an existing authorization is classified. */
  datatype Outcome = Outcome(verdict: Verdict, storedChanged: bool, stale: bool, policy: bool,
                             offChainChanged: bool)
  {
    predicate Blocked() {
      verdict != Allow
    }

    predicate BlockedInWindow() {
      verdict == Block(InsideTransitionWindow)
    }

    /** A blocked stale pair must name the class that moved; a pair in the
        window must be blocked as such. */
    predicate WrongReason() {
      || (stale && Blocked() && !ExpectedClass(storedChanged, verdict))
      || (!stale && policy && Blocked() && !BlockedInWindow())
    }

    /** What the pair contributes, field by field. */
    function Contribution(): Tally {
      Tally(1, 0, If(!Blocked()), If(Blocked()), multiset{verdict},
            If(stale), If(stale && Blocked()),
            If(!stale && policy && BlockedInWindow()), If(!stale && !policy),
            If(stale && !Blocked()), If(!stale && policy && !Blocked()),
            If(!stale && !policy && Blocked()), If(WrongReason()),
            If(!Blocked() && offChainChanged))
    }

    /** What classifying the pair adds to a tally. */
    function Classified(t: Tally): Tally {
      t.(economicallyStale := t.economicallyStale + If(stale),
         staleBlocked := t.staleBlocked + If(stale && Blocked()),
         policyWindowBlocks := t.policyWindowBlocks + If(!stale && policy && BlockedInWindow()),
         expectedAllows := t.expectedAllows + If(!stale && !policy),
         unexpectedAllows := t.unexpectedAllows + If(stale && !Blocked()),
         unexpectedPolicyAllows := t.unexpectedPolicyAllows + If(!stale && policy && !Blocked()),
         unexpectedBlocks := t.unexpectedBlocks + If(!stale && !policy && Blocked()),
         reasonDisagreements := t.reasonDisagreements + If(WrongReason()))
    }

    function Finding(): Option<Kind> {
      if stale && !Blocked() then Some(UnexpectedAllow)
      else if !stale && policy && !Blocked() then Some(UnexpectedPolicyAllow)
      else if !stale && !policy && Blocked() then Some(UnexpectedBlock)
      else if WrongReason() then Some(ReasonDisagreement)
      else None
    }
  }

  function OutcomeOf(guard: GuardPolicy, p: Pair): Outcome {
    Outcome(VerdictOf(guard, p), StoredChanged(p), Stale(p), InPolicy(p), OffChainChanged(p))
  }

  function Delta(guard: GuardPolicy, p: Pair): Tally {
    if Refused(guard, p) then ZERO.(authorizationRefusedAtBuild := 1)
    else OutcomeOf(guard, p).Contribution()
  }

  function Total(guard: GuardPolicy, log: seq<Pair>): Tally {
    if log == [] then ZERO
    else Plus(Total(guard, log[..|log| - 1]), Delta(guard, log[|log| - 1]))
  }

  function Select(log: seq<Pair>, k: Key): seq<Pair> {
    if log == [] then []
    else
      var p := log[|log| - 1];
      Select(log[..|log| - 1], k) + if KeyOf(p) == k then [p] else []
  }

  lemma TotalSnoc(guard: GuardPolicy, log: seq<Pair>, p: Pair)
    ensures Total(guard, log + [p]) == Plus(Total(guard, log), Delta(guard, p))
  {
    assert (log + [p])[..|log|] == log;
  }

  lemma PlusRefusal(a: Tally)
    ensures Plus(a, ZERO.(authorizationRefusedAtBuild := 1)) ==
            a.(authorizationRefusedAtBuild := a.authorizationRefusedAtBuild + 1)
  {
  }

  lemma SelectSnoc(log: seq<Pair>, p: Pair, k: Key)
    ensures Select(log + [p], k) == Select(log, k) + if KeyOf(p) == k then [p] else []
  {
    assert (log + [p])[..|log|] == log;
  }

  // --------------------------------------------------------------- examples

  datatype Kind = UnexpectedAllow | UnexpectedPolicyAllow | UnexpectedBlock | ReasonDisagreement

  datatype Note = Note(kind: Kind, p: Pair)

  function NotesOf(guard: GuardPolicy, p: Pair): seq<Note> {
    if Refused(guard, p) then []
    else match OutcomeOf(guard, p).Finding() case Some(kind) => [Note(kind, p)] case None => []
  }

  function Notes(guard: GuardPolicy, log: seq<Pair>): seq<Note> {
    if log == [] then []
    else Notes(guard, log[..|log| - 1]) + NotesOf(guard, log[|log| - 1])
  }

  function FirstTen(notes: seq<Note>): seq<Note> {
    if |notes| <= 10 then notes else notes[..10]
  }

  lemma NotesSnoc(guard: GuardPolicy, log: seq<Pair>, p: Pair)
    ensures Notes(guard, log + [p]) == Notes(guard, log) + NotesOf(guard, p)
    ensures FirstTen(Notes(guard, log + [p])) == FirstTen(FirstTen(Notes(guard, log)) + NotesOf(guard, p))
  {
    assert (log + [p])[..|log|] == log;
  }

  /** One tally object: its numbers, its first ten examples, and the pairs seen so far. */
  class PairTally {
    var t: Tally
    var examples: seq<Note>
    ghost var log: seq<Pair>

    /** The tally is the total of the pairs it has seen. */
    ghost predicate Valid(guard: GuardPolicy)
      reads this
    {
      t == Total(guard, log) && examples == FirstTen(Notes(guard, log))
    }

    constructor (ghost guard: GuardPolicy)
      ensures Valid(guard) && log == []
    {
      t := ZERO;
      examples, log := [], [];
    }

    method AddNote(kind: Kind, p: Pair)
      modifies this`examples
      ensures examples == FirstTen(old(FirstTen(examples)) + [Note(kind, p)])
    {
      examples := FirstTen(examples);
      if |examples| < 10 {
        examples := examples + [Note(kind, p)];
      }
    }

    method CountRefusal(ghost guard: GuardPolicy, ghost p: Pair)
      requires Valid(guard) && Refused(guard, p)
      modifies this
      ensures Valid(guard) && log == old(log) + [p]
    {
      hide Plus, Total, Notes;
      TotalSnoc(guard, log, p);
      NotesSnoc(guard, log, p);
      PlusRefusal(t);
      t := t.(authorizationRefusedAtBuild := t.authorizationRefusedAtBuild + 1);
      log := log + [p];
    }

    /** The four-way classification in the loop of `evaluatePair`. */
    method Classify(p: Pair, o: Outcome)
      requires |examples| <= 10
      modifies this
      ensures t == o.Classified(old(t))
      ensures examples == FirstTen(old(examples) +
                match o.Finding() case Some(kind) => [Note(kind, p)] case None => [])
      ensures log == old(log)
    {
      hide ExpectedClass;
      var verdict := o.verdict;
      if o.stale {
        t := t.(economicallyStale := t.economicallyStale + 1);
        if verdict == Allow {
          t := t.(unexpectedAllows := t.unexpectedAllows + 1);
          AddNote(UnexpectedAllow, p);
        } else {
          t := t.(staleBlocked := t.staleBlocked + 1);
          if !ExpectedClass(o.storedChanged, verdict) {
            t := t.(reasonDisagreements := t.reasonDisagreements + 1);
            AddNote(ReasonDisagreement, p);
          }
        }
      } else if o.policy {
        if verdict == Block(InsideTransitionWindow) {
          t := t.(policyWindowBlocks := t.policyWindowBlocks + 1);
        } else if verdict == Allow {
          t := t.(unexpectedPolicyAllows := t.unexpectedPolicyAllows + 1);
          AddNote(UnexpectedPolicyAllow, p);
        } else {
          t := t.(reasonDisagreements := t.reasonDisagreements + 1);
          AddNote(ReasonDisagreement, p);
        }
      } else {
        t := t.(expectedAllows := t.expectedAllows + 1);
        if verdict != Allow {
          t := t.(unexpectedBlocks := t.unexpectedBlocks + 1);
          AddNote(UnexpectedBlock, p);
        }
      }
    }

    /** The body of the loop of `evaluatePair` over the two tallies. */
    method Count(p: Pair, o: Outcome)
      requires |examples| <= 10
      modifies this
      ensures t == Plus(old(t), o.Contribution())
      ensures examples == FirstTen(old(examples) +
                match o.Finding() case Some(kind) => [Note(kind, p)] case None => [])
      ensures log == old(log)
    {
      hide ExpectedClass, FirstTen;
      t := t.(evaluations := t.evaluations + 1);
      t := t.(verdicts := t.verdicts + multiset{o.verdict});
      if o.verdict == Allow {
        t := t.(allows := t.allows + 1);
      } else {
        t := t.(blocks := t.blocks + 1);
      }
      Classify(p, o);
      if o.verdict == Allow && o.offChainChanged {
        t := t.(offChainBindingStricter := t.offChainBindingStricter + 1);
      }
    }

    method CountPair(ghost guard: GuardPolicy, p: Pair, o: Outcome)
      requires Valid(guard) && !Refused(guard, p) && o == OutcomeOf(guard, p)
      modifies this
      ensures Valid(guard) && log == old(log) + [p]
    {
      TotalSnoc(guard, log, p);
      NotesSnoc(guard, log, p);
      Count(p, o);
      log := log + [p];
    }
  }

  method EvaluatePair(guard: GuardPolicy, auth: Observation, current: Observation, w: Window,
                      lag: nat, tally: PairTally, totals: PairTally)
    requires tally != totals && tally.Valid(guard) && totals.Valid(guard)
    modifies tally, totals
    ensures tally.Valid(guard) && tally.log == old(tally.log) + [Pair(auth, current, lag, w)]
    ensures totals.Valid(guard) && totals.log == old(totals.log) + [Pair(auth, current, lag, w)]
  {
    var p := Pair(auth, current, lag, w);
    var request := Request(auth.state, auth.phase, w.before, w.after);
    if guard(request, auth.state, auth.now) != Allow {
      tally.CountRefusal(guard, p);
      totals.CountRefusal(guard, p);
      return;
    }
    var verdict := guard(request, current.state, current.now);
    var currentPhase := PhaseAt(current.state, current.now);
    var storedChanged := !StoredEqual(auth.state, current.state);
    var stale := storedChanged || Effective(auth.state, auth.phase) != Effective(current.state, currentPhase);
    var policy := !stale && InWindow(current.state, current.now, w);
    var offChainChanged := storedChanged || auth.phase != currentPhase;
    var o := Outcome(verdict, storedChanged, stale, policy, offChainChanged);
    tally.CountPair(guard, p, o);
    totals.CountPair(guard, p, o);
  }

  // ------------------------------------------------------------ which pairs

  function ObservationOf(r: Record): Observation
    requires r.Verifiable?
  {
    Observation(r.line, r.state, r.now, PhaseAt(r.state, r.now))
  }

  function ListOf(history: map<string, seq<Observation>>, mint: string): seq<Observation> {
    if mint in history then history[mint] else []
  }

  function HistoryOf(records: seq<Record>): map<string, seq<Observation>> {
    if records == [] then map[]
    else
      var before := HistoryOf(records[..|records| - 1]);
      var r := records[|records| - 1];
      if r.NotVerifiable? then before
      else before[r.mint := ListOf(before, r.mint) + [ObservationOf(r)]]
  }

  function WindowPairs(auth: Observation, current: Observation, lag: nat, windows: seq<Window>): seq<Pair> {
    if windows == [] then []
    else WindowPairs(auth, current, lag, windows[..|windows| - 1])
         + [Pair(auth, current, lag, windows[|windows| - 1])]
  }

  /** The pairs in which the newest observation of `list` is the later one. */
  function NewestPairs(list: seq<Observation>, lags: seq<nat>, windows: seq<Window>): seq<Pair>
    requires list != []
  {
    if lags == [] then []
    else
      var lag := lags[|lags| - 1];
      NewestPairs(list, lags[..|lags| - 1], windows)
      + if lag < |list| then WindowPairs(list[|list| - 1 - lag], list[|list| - 1], lag, windows) else []
  }

  /** Every pair the replay looks at, in order. */
  function LogOf(records: seq<Record>): seq<Pair> {
    if records == [] then []
    else
      var r := records[|records| - 1];
      LogOf(records[..|records| - 1])
      + if r.NotVerifiable? then [] else NewestPairs(HistoryOf(records)[r.mint], LAGS, WINDOWS)
  }

  class ChainReplay {
    const guard: GuardPolicy
    var history: map<string, seq<Observation>>
    var pairs: map<Key, PairTally>
    var totals: PairTally
    ghost var log: seq<Pair>
    ghost var Repr: set<object>

    ghost predicate Separate()
      reads this
    {
      && this in Repr && totals in Repr
      && (forall k :: k in pairs ==> pairs[k] in Repr && pairs[k] != totals)
      && (forall k, l :: k in pairs && l in pairs && k != l ==> pairs[k] != pairs[l])
    }

    ghost predicate Valid()
      reads this, Repr
    {
      && Separate()
      && totals.Valid(guard) && totals.log == log
      && (forall k :: k in pairs ==> pairs[k].Valid(guard) && pairs[k].log == Select(log, k))
      && (forall k :: k !in pairs ==> Select(log, k) == [])
    }

    constructor (guard: GuardPolicy)
      ensures Valid() && fresh(Repr)
      ensures log == [] && history == map[] && pairs == map[] && this.guard == guard
    {
      this.guard := guard;
      history, pairs, log := map[], map[], [];
      var tally := new PairTally(guard);
      totals := tally;
      Repr := {this, tally};
    }

    /** `tally(key)`: the tally of this key, created when it is first asked for. */
    method TallyFor(key: Key) returns (tally: PairTally)
      requires Valid()
      modifies this`pairs, this`Repr
      ensures Valid() && fresh(Repr - old(Repr)) && old(Repr) <= Repr
      ensures key in pairs && tally == pairs[key]
      ensures totals == old(totals)
    {
      if key !in pairs {
        var t := new PairTally(guard);
        pairs := pairs[key := t];
        Repr := Repr + {t};
      }
      tally := pairs[key];
    }

    method Evaluate(auth: Observation, current: Observation, lag: nat, w: Window)
      requires Valid()
      modifies Repr
      ensures Valid() && fresh(Repr - old(Repr))
      ensures log == old(log) + [Pair(auth, current, lag, w)]
      ensures history == old(history)
    {
      hide PairTally.Valid, Select;
      ghost var p := Pair(auth, current, lag, w);
      var tally := TallyFor(Key(lag, w.name));
      EvaluatePair(guard, auth, current, w, lag, tally, totals);
      forall k ensures Select(log + [p], k) == Select(log, k) + if KeyOf(p) == k then [p] else [] {
        SelectSnoc(log, p, k);
      }
      log := log + [p];
    }

    method EvaluateWindows(auth: Observation, current: Observation, lag: nat, windows: seq<Window>)
      requires Valid()
      modifies Repr
      ensures Valid() && fresh(Repr - old(Repr))
      ensures log == old(log) + WindowPairs(auth, current, lag, windows)
      ensures history == old(history)
    {
      hide Valid;
      for i := 0 to |windows|
        invariant Valid() && fresh(Repr - old(Repr))
        invariant log == old(log) + WindowPairs(auth, current, lag, windows[..i])
        invariant history == old(history)
      {
        assert windows[..i + 1][..i] == windows[..i];
        Evaluate(auth, current, lag, windows[i]);
      }
      assert windows[..|windows|] == windows;
    }

    method EvaluateLags(list: seq<Observation>, lags: seq<nat>, windows: seq<Window>)
      requires Valid() && list != []
      modifies Repr
      ensures Valid() && fresh(Repr - old(Repr))
      ensures log == old(log) + NewestPairs(list, lags, windows)
      ensures history == old(history)
    {
      hide Valid, WindowPairs;
      var seqNo := |list| - 1;
      for i := 0 to |lags|
        invariant Valid() && fresh(Repr - old(Repr))
        invariant log == old(log) + NewestPairs(list, lags[..i], windows)
        invariant history == old(history)
      {
        assert lags[..i + 1][..i] == lags[..i];
        if seqNo - lags[i] >= 0 {
          EvaluateWindows(list[seqNo - lags[i]], list[seqNo], lags[i], windows);
        }
      }
      assert lags[..|lags|] == lags;
    }

    method Append(r: Record) returns (list: seq<Observation>)
      requires Valid() && r.Verifiable?
      modifies this`history
      ensures Valid()
      ensures list == ListOf(old(history), r.mint) + [ObservationOf(r)]
      ensures history == old(history)[r.mint := list]
    {
      hide PairTally.Valid, Select;
      list := if r.mint in history then history[r.mint] else [];
      list := list + [Observation(r.line, r.state, r.now, PhaseAt(r.state, r.now))];
      history := history[r.mint := list];
    }

    /** One verifiable record: appended to its mint's list, then paired with
        the observation `lag` entries before it, for every lag. */
    method Observe(r: Record)
      requires Valid() && r.Verifiable?
      modifies Repr
      ensures Valid() && fresh(Repr - old(Repr))
      ensures history == old(history)[r.mint := ListOf(old(history), r.mint) + [ObservationOf(r)]]
      ensures log == old(log) + NewestPairs(history[r.mint], LAGS, WINDOWS)
    {
      assert this in Repr;
      hide Valid, NewestPairs;
      var list := Append(r);
      EvaluateLags(list, LAGS, WINDOWS);
    }

    /** `replayChain`, after decoding. */
    method Replay(records: seq<Record>)
      requires Valid() && history == map[] && log == []
      modifies Repr
      ensures Valid()
      ensures history == HistoryOf(records) && log == LogOf(records)
      ensures totals.t == Total(guard, LogOf(records))
      ensures forall k :: k in pairs ==> pairs[k].t == Total(guard, Select(LogOf(records), k))
      ensures forall k :: k !in pairs ==> Select(LogOf(records), k) == []
      ensures totals.examples == FirstTen(Notes(guard, LogOf(records)))
    {
      {
        hide Valid;
        for i := 0 to |records|
          invariant Valid() && fresh(Repr - old(Repr))
          invariant history == HistoryOf(records[..i]) && log == LogOf(records[..i])
        {
          assert records[..i + 1][..i] == records[..i];
          if records[i].Verifiable? {
            Observe(records[i]);
          }
        }
      }
      assert records[..|records|] == records;
    }
  }
}
