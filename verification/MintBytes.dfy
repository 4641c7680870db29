/** What a guardable mint is, said of the account's own bytes: the header, the entries
    laid end to end, the kinds that may stand together, and the stored numbers. */
module MintBytes {
  import opened Bytes
  import opened Guard
  import opened Abi
  import opened Addresses
  import opened Mint

  // ----------------------------------------------------- header and kinds

  /** An initialized mint's 82 bytes, each optional authority present or absent. */
  predicate BaseBytes(data: seq<byte>) {
    && |data| >= 82 && data[45] == 1
    && (data[0..4] == [0, 0, 0, 0] || data[0..4] == [1, 0, 0, 0])
    && (data[46..50] == [0, 0, 0, 0] || data[46..50] == [1, 0, 0, 0])
  }

  /** And an extension area behind zeros and the account type of a mint. */
  predicate HeaderBytes(data: seq<byte>) {
    && |data| >= 166 && |data| != 355 && BaseBytes(data)
    && data[82..165] == seq(83, _ => 0) && data[165] == 1
  }

  lemma TagIsOneByte(tag: seq<byte>)
    requires |tag| == 4
    ensures FromLE(tag) <= 1 <==> tag == [0, 0, 0, 0] || tag == [1, 0, 0, 0]
  {
    hide FromLE, LE, Pow256;
    OneByteMore(tag);
    OneByteMore(tag[1..]);
    OneByteMore(tag[2..]);
    OneByteMore(tag[3..]);
    NoBytes();
    assert tag[1..][1..] == tag[2..] && tag[2..][1..] == tag[3..] && tag[3..][1..] == [];
    assert tag == [tag[0], tag[1], tag[2], tag[3]];
  }

  lemma HeaderIsBytes(data: seq<byte>)
    ensures ValidHeader(data) <==> HeaderBytes(data)
    ensures BaseOnly(data) <==> |data| == 82 && BaseBytes(data)
  {
    hide FromLE;
    if |data| >= 82 {
      TagIsOneByte(data[0..4]);
      TagIsOneByte(data[46..50]);
    }
    if |data| >= 166 {
      var middle := data[82..165];
      assert forall k :: 82 <= k < 165 ==> data[k] == middle[k - 82];
      assert forall k :: 0 <= k < 83 ==> middle[k] == data[k + 82];
    }
  }

  /** Fees on confidential transfers come with both, burning confidentially and hidden
      accounts only with confidential transfers, and interest never with scaled amounts. */
  lemma CombinationsExactly(kinds: set<nat>)
    ensures !ForbiddenCombination(kinds) <==>
            && (16 in kinds <==> 1 in kinds && 4 in kinds)
            && (24 in kinds ==> 4 in kinds) && (9 in kinds && 4 in kinds ==> 24 in kinds)
            && !(25 in kinds && 10 in kinds)
  {
  }

  // --------------------------------------------------------- the entries

  /** An entry as its own bytes say: four of header, then the value, all inside the account. */
  predicate Stands(data: seq<byte>, e: Entry) {
    && 4 <= e.at && e.at + e.length <= |data| && 1 <= e.kind <= 28
    && data[e.at - 4] as nat + 256 * (data[e.at - 3] as nat) == e.kind
    && data[e.at - 2] as nat + 256 * (data[e.at - 1] as nat) == e.length
  }

  /** Where the first `k` of some entries laid end to end from `offset` stop. */
  function EndBehind(offset: nat, list: seq<Entry>, k: nat): nat
    requires k <= |list|
  {
    if k == 0 then offset else list[k - 1].at + list[k - 1].length
  }

  ghost predicate Laid(data: seq<byte>, offset: nat, list: seq<Entry>) {
    forall k :: 0 <= k < |list| ==> Stands(data, list[k]) && list[k].at == EndBehind(offset, list, k) + 4
  }

  ghost predicate Different(list: seq<Entry>) {
    forall j, k :: 0 <= j < k < |list| ==> list[j].kind != list[k].kind
  }

  /** Entries of different kinds laid end to end, up to a zero kind or less than a kind's two bytes. */
  ghost predicate Tiles(data: seq<byte>, offset: nat, list: seq<Entry>) {
    && Laid(data, offset, list) && Different(list)
    && var end := EndBehind(offset, list, |list|);
    && (|data| < end + 2 || (data[end] == 0 && data[end + 1] == 0))
  }

  lemma EndCons(offset: nat, e: Entry, rest: seq<Entry>, k: nat)
    requires k <= |rest|
    ensures EndBehind(offset, [e] + rest, k + 1) == EndBehind(e.at + e.length, rest, k)
    ensures EndBehind(offset, [e] + rest, 0) == offset
  {
  }

  lemma LaidCons(data: seq<byte>, offset: nat, e: Entry, rest: seq<Entry>)
    ensures Laid(data, offset, [e] + rest) <==>
            Stands(data, e) && e.at == offset + 4 && Laid(data, e.at + e.length, rest)
  {
    hide Stands, EndBehind;
    var list, next := [e] + rest, e.at + e.length;
    EndCons(offset, e, rest, 0);
    if Laid(data, offset, list) {
      assert list[0] == e;
      forall k | 0 <= k < |rest| ensures Stands(data, rest[k]) && rest[k].at == EndBehind(next, rest, k) + 4 {
        assert list[k + 1] == rest[k];
        EndCons(offset, e, rest, k);
      }
    }
    if Stands(data, e) && e.at == offset + 4 && Laid(data, next, rest) {
      forall k | 0 <= k < |list| ensures Stands(data, list[k]) && list[k].at == EndBehind(offset, list, k) + 4 {
        if k > 0 {
          assert list[k] == rest[k - 1];
          EndCons(offset, e, rest, k - 1);
        }
      }
    }
  }

  lemma DifferentCons(e: Entry, rest: seq<Entry>)
    ensures Different([e] + rest) <==> Different(rest) && forall k :: 0 <= k < |rest| ==> rest[k].kind != e.kind
  {
    var list := [e] + rest;
    assert list[0] == e && forall k :: 0 <= k < |rest| ==> list[k + 1] == rest[k];
    assert forall k :: 0 < k < |list| ==> list[k] == rest[k - 1];
  }

  /** None of these kinds is one already seen. */
  ghost predicate Unseen(list: seq<Entry>, seen: set<nat>) {
    forall k :: 0 <= k < |list| ==> list[k].kind !in seen
  }

  lemma UnseenCons(e: Entry, rest: seq<Entry>, seen: set<nat>)
    ensures Unseen([e] + rest, seen) <==> e.kind !in seen && Unseen(rest, seen)
    ensures Unseen(rest, seen + {e.kind}) <==>
            Unseen(rest, seen) && forall k :: 0 <= k < |rest| ==> rest[k].kind != e.kind
  {
    var list := [e] + rest;
    assert list[0] == e && forall k :: 0 <= k < |rest| ==> list[k + 1] == rest[k];
    assert forall k :: 0 < k < |list| ==> list[k] == rest[k - 1];
  }

  /** The strict walk succeeds with exactly the list its bytes lay out. */
  lemma {:induction false} WalkExactly(data: seq<byte>, offset: nat, seen: set<nat>, list: seq<Entry>)
    ensures ReadFrom(data, offset, seen) == Entries(list) <==> Tiles(data, offset, list) && Unseen(list, seen)
    decreases |list|
  {
    hide ReadFrom, Stands, Laid, Different, Unseen, EndBehind;
    if list == [] {
      EmptyWalk(data, offset, seen);
    } else {
      var e, rest := list[0], list[1..];
      assert list == [e] + rest;
      LaidCons(data, offset, e, rest);
      EndCons(offset, e, rest, |rest|);
      DifferentCons(e, rest);
      UnseenCons(e, rest, seen);
      WalkExactly(data, e.at + e.length, seen + {e.kind}, rest);
      WalkCons(data, offset, seen, e, rest);
    }
  }

  lemma EmptyWalk(data: seq<byte>, offset: nat, seen: set<nat>)
    ensures ReadFrom(data, offset, seen) == Entries([]) <==> Tiles(data, offset, []) && Unseen([], seen)
  {
  }

  lemma WalkCons(data: seq<byte>, offset: nat, seen: set<nat>, e: Entry, rest: seq<Entry>)
    ensures ReadFrom(data, offset, seen) == Entries([e] + rest) <==>
            && Stands(data, e) && e.at == offset + 4 && e.kind !in seen
            && ReadFrom(data, e.at + e.length, seen + {e.kind}) == Entries(rest)
  {
    assert ([e] + rest)[0] == e && ([e] + rest)[1..] == rest;
  }

  // ---------------------------------------------------------- the whole mint

  predicate Has(list: seq<Entry>, kind: nat) {
    exists k :: 0 <= k < |list| && list[k].kind == kind
  }

  lemma KindsAreHad(list: seq<Entry>, kind: nat)
    ensures kind in KindsOf(list) <==> Has(list, kind)
  {
  }

  /** The kinds that may stand beside a scaled amount. */
  predicate SoundKinds(list: seq<Entry>) {
    && (Has(list, 16) <==> Has(list, 1) && Has(list, 4))
    && (Has(list, 24) ==> Has(list, 4)) && (Has(list, 9) && Has(list, 4) ==> Has(list, 24))
    && !(Has(list, 25) && Has(list, 10))
  }

  lemma SoundExactly(list: seq<Entry>)
    ensures SoundKinds(list) <==> !ForbiddenCombination(KindsOf(list))
  {
    hide Has, KindsOf;
    CombinationsExactly(KindsOf(list));
    KindsAreHad(list, 1);
    KindsAreHad(list, 4);
    KindsAreHad(list, 9);
    KindsAreHad(list, 10);
    KindsAreHad(list, 16);
    KindsAreHad(list, 24);
    KindsAreHad(list, 25);
  }

  /** A positive normal double, as the eight bytes stored. */
  predicate Sane(data: seq<byte>, at: nat) {
    at + 8 <= |data| && 0x0010_0000_0000_0000 <= FromLE(data[at..at + 8]) <= 0x7fef_ffff_ffff_ffff
  }

  /** The scaled amount's entry among those of the account. */
  lemma ScaledEntry(list: seq<Entry>, e: Entry)
    requires Different(list) && e in list && e.kind == 25
    ensures EntryOf(list, SCALED_UI) == Some(e)
  {
    var found := EntryOf(list, SCALED_UI);
    var k :| 0 <= k < |list| && list[k] == e;
    var j :| 0 <= j < |list| && list[j] == found.value;
    assert j == k;
  }

  /** Of an account whose entries are laid out as `list`, the first of these rows that
      holds decides, and otherwise the three stored numbers are the state. */
  lemma MintRefusedInOrder(owner: string, data: seq<byte>, list: seq<Entry>)
    requires Tiles(data, 166, list)
    ensures var state := DecodeProtectedState(owner, data);
            (if state.State? then None else Some(state.error)) ==
            None
            .OrIf(owner != TOKEN_2022, InvalidMintOwner)
            .OrIf(|data| == 82 && BaseBytes(data), MissingScaledUiAmount)
            .OrIf(!HeaderBytes(data), InvalidMintData)
            .OrIf(!Has(list, 25), MissingScaledUiAmount)
            .OrIf(!SoundKinds(list), InvalidExtensionCombination)
            .OrIf(exists e :: e in list && e.kind == 25 && e.length != 56, InvalidMintData)
            .OrIf(exists e :: e in list && e.kind == 25 && !(Sane(data, e.at + 32) && Sane(data, e.at + 48)),
                  InvalidMultiplier)
    ensures DecodeProtectedState(owner, data).State? ==>
              exists e :: && e in list && e.kind == 25 && e.length == 56 && e.at + 56 <= |data|
                          && DecodeProtectedState(owner, data).economic ==
                             Economic(FromLE(data[e.at + 32..e.at + 40]), FromLE(data[e.at + 48..e.at + 56]),
                                      I64FromLE(data[e.at + 40..e.at + 48]))
  {
    hide Laid, ReadFrom, EndBehind, ForbiddenCombination, KindsOf, SoundKinds, ValidHeader, HeaderBytes, BaseBytes,
         BaseOnly, FromLE, I64FromLE, ValidMultiplier, EntryOf, Stands, Sane;
    WalkExactly(data, 166, {}, list);
    HeaderIsBytes(data);
    SoundExactly(list);
    if Has(list, 25) {
      var k :| 0 <= k < |list| && list[k].kind == 25;
      var e := list[k];
      ScaledEntry(list, e);
      EntryStands(data, list, k);
      assert forall x :: x in list && x.kind == 25 ==> x == e;
      if e.length == 56 {
        SaneExactly(data, e.at + 32);
        SaneExactly(data, e.at + 48);
      }
    }
  }

  lemma EntryStands(data: seq<byte>, list: seq<Entry>, k: nat)
    requires Laid(data, 166, list) && k < |list|
    ensures list[k].at + list[k].length <= |data|
  {
    hide EndBehind;
  }

  lemma SaneExactly(data: seq<byte>, at: nat)
    requires at + 8 <= |data|
    ensures Sane(data, at) <==> ValidMultiplier(U64Of(data[at..at + 8]))
  {
    hide ValidMultiplier, FromLE;
    ValidIsAnInterval(U64Of(data[at..at + 8]));
  }

  /** And an account whose area lays out no entries is never read. */
  lemma UnlaidIsRefused(owner: string, data: seq<byte>)
    requires forall list :: !Tiles(data, 166, list)
    ensures DecodeProtectedState(owner, data).Unreadable?
    ensures owner == TOKEN_2022 && !(|data| == 82 && BaseBytes(data)) ==>
              DecodeProtectedState(owner, data) == Unreadable(InvalidMintData)
  {
    hide Tiles, ValidHeader, HeaderBytes, BaseBytes, BaseOnly;
    HeaderIsBytes(data);
    if ReadFrom(data, 166, {}).Entries? {
      WalkExactly(data, 166, {}, ReadFrom(data, 166, {}).list);
    }
  }
}
