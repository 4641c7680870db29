/** The replay's authorizations as guard cases for the compiled program. The label
    on each case is economic, and the proof is that the program agrees with it. */
module ReplayCases {
  import opened Bytes
  import opened Guard
  import opened Commitment
  import opened Addresses
  import opened Abi
  import opened Mint
  import opened OnChain
  import opened Replay
  import opened ReplayTheorems
  import opened ReplayPairs
  import C = GuardCases

  /** A verifiable observation with the account it was decoded from. */
  datatype Captured = Captured(o: Observation, owner: string, data: seq<byte>)

  /** Every verifiable observation is one the decoder accepts, in the phase of its own time. */
  ghost predicate Verified(c: Captured) {
    && (c.owner == "" || c.owner == TOKEN_2022)
    && DecodeProtectedState(TOKEN_2022, c.data) == State(c.o.state)
    && PhaseIsOwn(c.o)
  }

  function OwnerOf(c: Captured): string {
    if c.owner == "" then TOKEN_2022 else c.owner
  }

  const CASE_LAGS: seq<nat> := [1, 120]

  /** The economic expectation, with no reference to the guard. */
  function Expected(p: Pair): C.Expectation {
    if Stale(p) then C.BlockAny
    else if InPolicy(p) then C.Exactly(Block(InsideTransitionWindow))
    else C.Exactly(Allow)
  }

  function RequestFor(mint: string, auth: Observation, w: Window, commitment: Bytes32): RequestFields
    requires IsKey(mint)
  {
    RequestFields(KeyBytes(mint), LE(auth.state.multiplier, 8), LE(auth.state.newMultiplier, 8), auth.state.t,
                  auth.phase, w.before, w.after, 1, commitment)
  }

  function DecimalsOf(c: Captured): byte {
    if |c.data| > 44 then c.data[44] else 0
  }

  /** The case of one pair; where the source keeps the lag as its category, this keeps `Fresh`. */
  function CaseOf(env: C.Env, mint: string, auth: Captured, current: Captured, lag: nat, w: Window): C.GuardCase
    requires IsKey(mint)
  {
    var transfer := C.TransferOf(env, mint, 1_000_000, DecimalsOf(current));
    var payload := Packed(RequestFor(mint, auth.o, w, C.CommitmentOf(env, transfer)));
    C.GuardCase(C.Fresh, Expected(Pair(auth.o, current.o, lag, w)), mint, OwnerOf(current), current.data, payload,
                current.o.now, [GuardInstruction(EQUITY_GUARD, mint, payload), transfer], 0)
  }

  lemma StoredMultipliersAreValid(c: Captured)
    requires Verified(c)
    ensures ValidMultiplier(c.o.state.multiplier) && ValidMultiplier(c.o.state.newMultiplier) && IsI64(c.o.state.t)
  {
    hide DecodeProtectedState, ReadEconomic, ValidMultiplier;
    var at := ConfigOf(TOKEN_2022, c.data);
    StoredTimesAreI64(TOKEN_2022, c.data);
  }

  /** What is read back from the packed authorization is the authorization. */
  lemma AuthorizationDecodes(mint: string, auth: Captured, w: Window, commitment: Bytes32)
    requires IsKey(mint) && Verified(auth)
    ensures DecodePayload(Packed(RequestFor(mint, auth.o, w, commitment))) ==
            Ok(Payload(KeyBytes(mint), RequestOf(auth.o, w), 1, commitment))
  {
    hide DecodePayload, Packed, ValidMultiplier, U64Of, LE, DecodeProtectedState, KeyBytes;
    StoredMultipliersAreValid(auth);
    BitsRoundTrip(auth.o.state.multiplier);
    BitsRoundTrip(auth.o.state.newMultiplier);
    C.WellFormedDecodes(RequestFor(mint, auth.o, w, commitment));
  }

  /** The program's verdict on the case is the policy's verdict on the pair. */
  lemma CaseIsThePair(env: C.Env, mint: string, auth: Captured, current: Captured, lag: nat, w: Window)
    requires IsKey(mint) && Verified(auth) && Verified(current)
    ensures C.Outcome(env, CaseOf(env, mint, auth, current, lag, w)) ==
            SpecVerdict(RequestOf(auth.o, w), current.o.state, current.o.now)
  {
    hide DecodePayload, Packed, DecodeProtectedState, KeyBytes, SpecVerdict, C.Outcome, C.CommitmentOf, C.TransferOf,
         SupportedTransfer, Expected;
    var transfer := C.TransferOf(env, mint, 1_000_000, DecimalsOf(current));
    var f := C.Fixture(mint, current.data, 0, None, DecimalsOf(current));
    C.FourAccounts(env, f, 1_000_000);
    AuthorizationDecodes(mint, auth, w, C.CommitmentOf(env, transfer));
    C.ByPolicy(env, CaseOf(env, mint, auth, current, lag, w), f, transfer);
  }

  /** What a case shows: the later observation's account and time, a payload that reads
      back to the earlier one's state and phase under the window, the commitment to one
      transfer of a million units, and a label that is economic. */
  lemma CaseShows(env: C.Env, mint: string, auth: Captured, current: Captured, lag: nat, w: Window)
    requires IsKey(mint) && Verified(auth) && Verified(current)
    ensures |current.data| > 44
    ensures var c, p := CaseOf(env, mint, auth, current, lag, w), Pair(auth.o, current.o, lag, w);
            var transfer := C.TransferOf(env, mint, 1_000_000, current.data[44]);
            && c.mintKey == mint && c.mintOwner == TOKEN_2022 && c.mintData == current.data
            && c.clock == current.o.now && c.currentIndex == 0
            && c.instructions == [GuardInstruction(EQUITY_GUARD, mint, c.guardData), transfer]
            && DecodePayload(c.guardData) ==
               Ok(Payload(KeyBytes(mint), Request(auth.o.state, auth.o.phase, w.before, w.after), 1,
                          env.sha(DownstreamPreimage(KeyBytes, transfer))))
            && c.expected == if Spoiled(p) then C.BlockAny
                             else if Between(p) then C.Exactly(Block(InsideTransitionWindow))
                             else C.Exactly(Allow)
  {
    hide DecodePayload, Packed, DecodeProtectedState, KeyBytes, C.TransferOf, DownstreamPreimage;
    AccountIsLong(current);
    AuthorizationDecodes(mint, auth, w, C.CommitmentOf(env, C.TransferOf(env, mint, 1_000_000, current.data[44])));
    var p := Pair(auth.o, current.o, lag, w);
    assert StoredEqual(p.auth.state, p.current.state) <==> p.auth.state == p.current.state;
  }

  lemma AccountIsLong(c: Captured)
    requires Verified(c)
    ensures |c.data| > 44
  {
    hide ReadFrom, ReadEconomic, ValidMultiplier;
  }

  /** And so every label is right: stale is refused, in-window is refused as such, the rest is allowed. */
  lemma CaseIsLabelled(env: C.Env, mint: string, auth: Captured, current: Captured, lag: nat, w: Window)
    requires IsKey(mint) && Verified(auth) && Verified(current)
    requires SpecVerdict(RequestOf(auth.o, w), auth.o.state, auth.o.now) == Allow
    ensures C.Labelled(env, CaseOf(env, mint, auth, current, lag, w))
  {
    hide C.Outcome, C.TransferOf, C.CommitmentOf, Packed, DecodeProtectedState, KeyBytes;
    var p := Pair(auth.o, current.o, lag, w);
    CaseIsThePair(env, mint, auth, current, lag, w);
    SpecMeetsEconomicsExactly(p);
    BuiltDoesNotOverflow(p);
  }

  lemma BuiltDoesNotOverflow(p: Pair)
    requires SpecVerdict(RequestOf(p.auth, p.window), p.auth.state, p.auth.now) == Allow
    ensures !Overflows(p)
  {
  }

  ghost predicate Built(auth: Captured, w: Window) {
    SpecVerdict(RequestOf(auth.o, w), auth.o.state, auth.o.now) == Allow
  }

  // ------------------------------------------------------ the whole sequence

  /** A case under its category, which is the lag. */
  datatype LagCase = LagCase(lag: nat, guardCase: C.GuardCase)
  datatype Yielded = Yielded(index: nat, lagCase: LagCase)
  datatype History = History(mint: string, list: seq<Captured>)

  function UnderWindows(env: C.Env, h: History, n: nat, lag: nat, k: nat): seq<LagCase>
    requires IsKey(h.mint) && lag <= n < |h.list| && k <= 2
  {
    if k == 0 then []
    else
      var auth, w := h.list[n - lag], WINDOWS[k - 1];
      UnderWindows(env, h, n, lag, k - 1)
      + if SpecVerdict(RequestOf(auth.o, w), auth.o.state, auth.o.now) != Allow then []
        else [LagCase(lag, CaseOf(env, h.mint, auth, h.list[n], lag, w))]
  }

  function AtLags(env: C.Env, h: History, n: nat, k: nat): seq<LagCase>
    requires IsKey(h.mint) && n < |h.list| && k <= 2
  {
    if k == 0 then []
    else
      AtLags(env, h, n, k - 1)
      + if n < CASE_LAGS[k - 1] then [] else UnderWindows(env, h, n, CASE_LAGS[k - 1], 2)
  }

  function OfMint(env: C.Env, h: History, n: nat): seq<LagCase>
    requires IsKey(h.mint) && n <= |h.list|
  {
    if n == 0 then [] else OfMint(env, h, n - 1) + AtLags(env, h, n - 1, 2)
  }

  ghost predicate Sound(histories: seq<History>) {
    forall k :: 0 <= k < |histories| ==>
      IsKey(histories[k].mint) && forall n :: 0 <= n < |histories[k].list| ==> Verified(histories[k].list[n])
  }

  function OfAll(env: C.Env, histories: seq<History>): seq<LagCase>
    requires forall k :: 0 <= k < |histories| ==> IsKey(histories[k].mint)
  {
    if histories == [] then []
    else
      var h := histories[|histories| - 1];
      OfAll(env, histories[..|histories| - 1]) + OfMint(env, h, |h.list|)
  }

  function Numbered(cases: seq<LagCase>): (r: seq<Yielded>)
    ensures |r| == |cases|
    ensures forall k :: 0 <= k < |r| ==> r[k] == Yielded(k, cases[k])
  {
    seq(|cases|, k requires 0 <= k < |cases| => Yielded(k, cases[k]))
  }

  lemma NumberedSnoc(cases: seq<LagCase>, c: LagCase)
    ensures Numbered(cases + [c]) == Numbered(cases) + [Yielded(|cases|, c)]
  {
  }

  /** `replayCases`: every observation of every mint against the ones 1 and 120 before it,
      under the first two windows, unless the authorization could not have been built;
      numbered in the order they are yielded. */
  method ReplayCases(env: C.Env, histories: seq<History>) returns (cases: seq<Yielded>)
    requires forall k :: 0 <= k < |histories| ==> IsKey(histories[k].mint)
    ensures cases == Numbered(OfAll(env, histories))
  {
    hide CaseOf, SpecVerdict, IsKey;
    cases := [];
    var index := 0;
    for m := 0 to |histories|
      invariant cases == Numbered(OfAll(env, histories[..m])) && index == |cases|
    {
      var h := histories[m];
      ghost var done := OfAll(env, histories[..m]);
      for n := 0 to |h.list|
        invariant cases == Numbered(done + OfMint(env, h, n)) && index == |cases|
      {
        ghost var earlier := done + OfMint(env, h, n);
        cases, index := AtOne(env, h, n, cases, earlier);
        assert earlier + AtLags(env, h, n, 2) == done + OfMint(env, h, n + 1);
      }
      assert histories[..m + 1][..m] == histories[..m];
    }
    assert histories[..|histories|] == histories;
  }

  /** The two inner loops, for one observation. */
  method AtOne(env: C.Env, h: History, n: nat, before: seq<Yielded>, ghost earlier: seq<LagCase>)
    returns (cases: seq<Yielded>, index: nat)
    requires IsKey(h.mint) && n < |h.list| && before == Numbered(earlier)
    ensures cases == Numbered(earlier + AtLags(env, h, n, 2)) && index == |cases|
  {
    hide CaseOf, SpecVerdict, IsKey, Numbered;
    cases, index := before, |before|;
    assert earlier + [] == earlier;
    for l := 0 to 2
      invariant cases == Numbered(earlier + AtLags(env, h, n, l)) && index == |cases|
    {
      var lag := CASE_LAGS[l];
      ghost var outer := earlier + AtLags(env, h, n, l);
      if n < lag {
        assert earlier + AtLags(env, h, n, l + 1) == outer;
        continue;
      }
      assert outer + [] == outer;
      for i := 0 to 2
        invariant cases == Numbered(outer + UnderWindows(env, h, n, lag, i)) && index == |cases|
      {
        var auth, w := h.list[n - lag], WINDOWS[i];
        ghost var inner := outer + UnderWindows(env, h, n, lag, i);
        if SpecVerdict(RequestOf(auth.o, w), auth.o.state, auth.o.now) != Allow {
          assert outer + UnderWindows(env, h, n, lag, i + 1) == inner;
          continue;
        }
        var c := LagCase(lag, CaseOf(env, h.mint, auth, h.list[n], lag, w));
        NumberedSnoc(inner, c);
        assert outer + UnderWindows(env, h, n, lag, i + 1) == inner + [c];
        cases := cases + [Yielded(index, c)];
        index := index + 1;
      }
      assert earlier + AtLags(env, h, n, l + 1) == outer + UnderWindows(env, h, n, lag, 2);
    }
  }

  // -------------------------------------------------- what the sequence holds

  /** `c` is the case of a buildable pair of the history, at one of the lags and windows. */
  ghost predicate IsCaseOf(env: C.Env, h: History, c: LagCase, n: nat, l: nat, i: nat)
    requires IsKey(h.mint)
  {
    && n < |h.list| && l < 2 && i < 2 && CASE_LAGS[l] <= n && Built(h.list[n - CASE_LAGS[l]], WINDOWS[i])
    && c == LagCase(CASE_LAGS[l], CaseOf(env, h.mint, h.list[n - CASE_LAGS[l]], h.list[n], CASE_LAGS[l], WINDOWS[i]))
  }

  ghost predicate HasCaseAt(env: C.Env, h: History, c: LagCase, n: nat)
    requires IsKey(h.mint)
  {
    exists l: nat, i: nat :: IsCaseOf(env, h, c, n, l, i)
  }

  lemma UnderWindowsExactly(env: C.Env, h: History, c: LagCase, n: nat, l: nat)
    requires IsKey(h.mint) && n < |h.list| && l < 2 && CASE_LAGS[l] <= n
    ensures c in UnderWindows(env, h, n, CASE_LAGS[l], 2) <==> exists i: nat :: IsCaseOf(env, h, c, n, l, i)
  {
    hide CaseOf, SpecVerdict, IsKey;
    var lag := CASE_LAGS[l];
    assert UnderWindows(env, h, n, lag, 0) == [];
    assert c in UnderWindows(env, h, n, lag, 1) <==> IsCaseOf(env, h, c, n, l, 0);
    assert c in UnderWindows(env, h, n, lag, 2) <==>
           c in UnderWindows(env, h, n, lag, 1) || IsCaseOf(env, h, c, n, l, 1);
  }

  lemma AtLagsExactly(env: C.Env, h: History, c: LagCase, n: nat)
    requires IsKey(h.mint) && n < |h.list|
    ensures c in AtLags(env, h, n, 2) <==> HasCaseAt(env, h, c, n)
  {
    hide UnderWindows, CaseOf, SpecVerdict, IsKey;
    assert AtLags(env, h, n, 0) == [];
    if CASE_LAGS[0] <= n {
      UnderWindowsExactly(env, h, c, n, 0);
    }
    if CASE_LAGS[1] <= n {
      UnderWindowsExactly(env, h, c, n, 1);
    }
    assert c in AtLags(env, h, n, 1) <==> exists i: nat :: IsCaseOf(env, h, c, n, 0, i);
    assert c in AtLags(env, h, n, 2) <==>
           c in AtLags(env, h, n, 1) || exists i: nat :: IsCaseOf(env, h, c, n, 1, i);
  }

  lemma {:induction false} OfMintExactly(env: C.Env, h: History, c: LagCase, n: nat)
    requires IsKey(h.mint) && n <= |h.list|
    ensures c in OfMint(env, h, n) <==> exists m: nat :: m < n && HasCaseAt(env, h, c, m)
  {
    hide AtLags, HasCaseAt, IsKey;
    if n > 0 {
      OfMintExactly(env, h, c, n - 1);
      AtLagsExactly(env, h, c, n - 1);
      assert c in OfMint(env, h, n) <==> c in OfMint(env, h, n - 1) || c in AtLags(env, h, n - 1, 2);
    }
  }

  /** The sequence holds the case of every buildable pair at the two lags and windows, and no other case. */
  lemma {:induction false} CasesExactly(env: C.Env, histories: seq<History>, c: LagCase)
    requires forall k :: 0 <= k < |histories| ==> IsKey(histories[k].mint)
    ensures c in OfAll(env, histories) <==>
            exists k: nat, n: nat :: k < |histories| && HasCaseAt(env, histories[k], c, n)
  {
    hide OfMint, HasCaseAt, IsKey;
    if histories != [] {
      var before, h := histories[..|histories| - 1], histories[|histories| - 1];
      CasesExactly(env, before, c);
      OfMintExactly(env, h, c, |h.list|);
      CasesAreInRange(env, h, c);
      assert c in OfAll(env, histories) <==> c in OfAll(env, before) || c in OfMint(env, h, |h.list|);
      if k: nat, n: nat :| k < |before| && HasCaseAt(env, before[k], c, n) {
        assert HasCaseAt(env, histories[k], c, n);
      }
      if k: nat, n: nat :| k < |histories| && HasCaseAt(env, histories[k], c, n) {
        assert k < |before| ==> HasCaseAt(env, before[k], c, n);
      }
    }
  }

  lemma CasesAreInRange(env: C.Env, h: History, c: LagCase)
    requires IsKey(h.mint)
    ensures forall n: nat :: HasCaseAt(env, h, c, n) ==> n < |h.list|
  {
    hide CaseOf, SpecVerdict, IsKey;
  }

  /** And every case is labelled with the program's own outcome. */
  lemma EveryCaseIsLabelled(env: C.Env, histories: seq<History>, c: LagCase)
    requires Sound(histories) && c in OfAll(env, histories)
    ensures C.Labelled(env, c.guardCase)
  {
    hide CaseOf, SpecVerdict, IsKey, Verified, C.Labelled, OfAll;
    CasesExactly(env, histories, c);
    var k: nat, n: nat :| k < |histories| && HasCaseAt(env, histories[k], c, n);
    var l: nat, i: nat :| IsCaseOf(env, histories[k], c, n, l, i);
    var h := histories[k];
    CaseIsLabelled(env, h.mint, h.list[n - CASE_LAGS[l]], h.list[n], CASE_LAGS[l], WINDOWS[i]);
  }
}
