/** The mint account's extension area: the strict reader, the two lookups that
    walk the same bytes, and the two edits made inside one value. */
module Mint {
  import opened Bytes
  import opened Guard
  import opened Abi
  import opened Addresses

  const BASE_MINT_LEN := 82
  const MULTISIG_LEN := 355
  const TLV_START := 166
  const SCALED_UI: nat := 25
  const MAX_KNOWN: nat := 28
  const CONFIG_LEN: nat := 56

  datatype Entry = Entry(kind: nat, length: nat, at: nat)
  datatype Walk = Entries(list: seq<Entry>) | Corrupt
  datatype MintState = State(economic: Economic) | Unreadable(error: GuardError)

  function U16(data: seq<byte>, at: nat): nat
    requires at + 2 <= |data|
  {
    data[at] as nat + 256 * (data[at + 1] as nat)
  }

  // --------------------------------------------------------- the strict walk

  function After(first: Entry, rest: Walk): Walk {
    match rest case Corrupt => Corrupt case Entries(list) => Entries([first] + list)
  }

  /** The entries from `offset` on, or nothing when anything in the area is malformed. */
  function ReadFrom(data: seq<byte>, offset: nat, seen: set<nat>): Walk
    decreases |data| - offset
  {
    if |data| - offset < 2 || U16(data, offset) == 0 then Entries([])
    else if U16(data, offset) > MAX_KNOWN || |data| - offset < 4 then Corrupt
    else
      var kind, length := U16(data, offset), U16(data, offset + 2);
      if offset + 4 + length > |data| || kind in seen then Corrupt
      else After(Entry(kind, length, offset + 4), ReadFrom(data, offset + 4 + length, seen + {kind}))
  }

  function Join(done: seq<Entry>, rest: Walk): Walk {
    match rest case Corrupt => Corrupt case Entries(list) => Entries(done + list)
  }

  /** `readTlvEntries`: one loop over the area, refusing unknown, truncated,
      overrunning and repeated entries. */
  method ReadTlvEntries(data: seq<byte>) returns (walk: Walk)
    ensures walk == ReadFrom(data, TLV_START, {})
  {
    var entries: seq<Entry> := [];
    var seen: set<nat> := {};
    var offset: nat := TLV_START;
    while |data| - offset >= 2
      invariant Join(entries, ReadFrom(data, offset, seen)) == ReadFrom(data, TLV_START, {})
      decreases |data| - offset
    {
      var kind := U16(data, offset);
      if kind == 0 {
        break;
      }
      if kind > MAX_KNOWN || |data| - offset < 4 {
        return Corrupt;
      }
      var length := U16(data, offset + 2);
      if offset + 4 + length > |data| || kind in seen {
        return Corrupt;
      }
      JoinSnoc(entries, Entry(kind, length, offset + 4), ReadFrom(data, offset + 4 + length, seen + {kind}));
      seen := seen + {kind};
      entries := entries + [Entry(kind, length, offset + 4)];
      offset := offset + 4 + length;
    }
    assert ReadFrom(data, offset, seen) == Entries([]);
    return Entries(entries);
  }

  lemma JoinSnoc(done: seq<Entry>, e: Entry, rest: Walk)
    ensures Join(done, After(e, rest)) == Join(done + [e], rest)
  {
    if rest.Entries? {
      assert done + ([e] + rest.list) == (done + [e]) + rest.list;
    }
  }

  // ------------------------------------------------------------- the lookups

  /** The value offset of the first entry of `kind`, headers taken at their word. */
  function FindFrom(data: seq<byte>, offset: nat, kind: nat): Option<nat>
    decreases |data| - offset
  {
    if offset + 4 > |data| || U16(data, offset) == 0 then None
    else if U16(data, offset) == kind then Some(offset + 4)
    else FindFrom(data, offset + 4 + U16(data, offset + 2), kind)
  }

  /** `tlvValueOffset`. */
  method TlvValueOffset(data: seq<byte>, kind: nat) returns (at: Option<nat>)
    ensures at == FindFrom(data, TLV_START, kind)
  {
    var offset: nat := TLV_START;
    while offset + 4 <= |data|
      invariant FindFrom(data, offset, kind) == FindFrom(data, TLV_START, kind)
      decreases |data| - offset
    {
      var t, len := U16(data, offset), U16(data, offset + 2);
      if t == 0 {
        return None;
      }
      if t == kind {
        return Some(offset + 4);
      }
      offset := offset + 4 + len;
    }
    return None;
  }

  /** `scaled_ui_value_offset`. */
  method ScaledUiValueOffset(data: seq<byte>) returns (at: Option<nat>)
    ensures at == FindFrom(data, TLV_START, SCALED_UI)
  {
    var offset: nat := TLV_START;
    while |data| - offset >= 4
      invariant FindFrom(data, offset, SCALED_UI) == FindFrom(data, TLV_START, SCALED_UI)
      decreases |data| - offset
    {
      var kind, length := U16(data, offset), U16(data, offset + 2);
      if kind == 0 {
        return None;
      }
      if kind == SCALED_UI {
        return Some(offset + 4);
      }
      offset := offset + 4 + length;
    }
    return None;
  }

  /** The entry of a kind in a list without repeated kinds. */
  function EntryOf(list: seq<Entry>, kind: nat): (e: Option<Entry>)
    ensures e.Some? ==> e.value in list && e.value.kind == kind
    ensures e.None? ==> forall k :: 0 <= k < |list| ==> list[k].kind != kind
  {
    if list == [] then None else if list[0].kind == kind then Some(list[0]) else EntryOf(list[1..], kind)
  }

  /** Where the strict reader is content, the lenient lookup finds the same value. */
  lemma {:induction false} LookupAgrees(data: seq<byte>, offset: nat, seen: set<nat>, kind: nat)
    requires kind > 0 && ReadFrom(data, offset, seen).Entries?
    ensures FindFrom(data, offset, kind) ==
            match EntryOf(ReadFrom(data, offset, seen).list, kind) case None => None case Some(e) => Some(e.at)
    decreases |data| - offset
  {
    if |data| - offset >= 2 && U16(data, offset) != 0 {
      var length := U16(data, offset + 2);
      var rest := ReadFrom(data, offset + 4 + length, seen + {U16(data, offset)});
      LookupAgrees(data, offset + 4 + length, seen + {U16(data, offset)}, kind);
      var first := Entry(U16(data, offset), length, offset + 4);
      assert ReadFrom(data, offset, seen) == Entries([first] + rest.list);
      assert ([first] + rest.list)[1..] == rest.list;
    }
  }

  // ------------------------------------------------------ decoding the mint

  function ReadEconomic(data: seq<byte>, at: nat): Economic
    requires at + CONFIG_LEN <= |data|
  {
    Economic(U64Of(data[at + 32..at + 40]), U64Of(data[at + 48..at + 56]), I64FromLE(data[at + 40..at + 48]))
  }

  function KindsOf(list: seq<Entry>): set<nat> {
    set e | e in list :: e.kind
  }

  predicate ForbiddenCombination(kinds: set<nat>) {
    || (16 in kinds && !(1 in kinds && 4 in kinds))
    || (1 in kinds && 4 in kinds && 16 !in kinds)
    || (24 in kinds && 4 !in kinds)
    || (25 in kinds && 10 in kinds)
    || (9 in kinds && 4 in kinds && 24 !in kinds)
  }

  predicate ValidHeader(data: seq<byte>) {
    && |data| >= TLV_START && |data| != MULTISIG_LEN
    && FromLE(data[0..4]) <= 1 && FromLE(data[46..50]) <= 1 && data[45] == 1
    && (forall k :: BASE_MINT_LEN <= k < 165 ==> data[k] == 0) && data[165] == 1
  }

  predicate BaseOnly(data: seq<byte>) {
    |data| == BASE_MINT_LEN && FromLE(data[0..4]) <= 1 && FromLE(data[46..50]) <= 1 && data[45] == 1
  }

  /** `decodeProtectedState`: anything the program would refuse is an error. */
  function DecodeProtectedState(owner: string, data: seq<byte>): MintState {
    if owner != TOKEN_2022 then Unreadable(InvalidMintOwner)
    else if BaseOnly(data) then Unreadable(MissingScaledUiAmount)
    else if !ValidHeader(data) then Unreadable(InvalidMintData)
    else
      match ReadFrom(data, TLV_START, {})
      case Corrupt => Unreadable(InvalidMintData)
      case Entries(list) =>
        match EntryOf(list, SCALED_UI)
        case None => Unreadable(MissingScaledUiAmount)
        case Some(scaled) =>
          if ForbiddenCombination(KindsOf(list)) then Unreadable(InvalidExtensionCombination)
          else if scaled.length != CONFIG_LEN || scaled.at + CONFIG_LEN > |data| then Unreadable(InvalidMintData)
          else
            var economic := ReadEconomic(data, scaled.at);
            if !ValidMultiplier(economic.multiplier) || !ValidMultiplier(economic.newMultiplier) then
              Unreadable(InvalidMultiplier)
            else State(economic)
  }

  /** Every entry lies inside the account, behind its own header. */
  lemma {:induction false} EntriesFit(data: seq<byte>, offset: nat, seen: set<nat>)
    requires ReadFrom(data, offset, seen).Entries?
    ensures forall e :: e in ReadFrom(data, offset, seen).list ==>
              offset + 4 <= e.at && e.at + e.length <= |data| && e.kind > 0
    decreases |data| - offset
  {
    if |data| - offset >= 2 && U16(data, offset) != 0 {
      EntriesFit(data, offset + 4 + U16(data, offset + 2), seen + {U16(data, offset)});
    }
  }

  /** A mint whose structure is sound, and where its config value stands. */
  ghost predicate Guardable(owner: string, data: seq<byte>, at: nat) {
    && owner == TOKEN_2022 && ValidHeader(data)
    && ReadFrom(data, TLV_START, {}).Entries?
    && EntryOf(ReadFrom(data, TLV_START, {}).list, SCALED_UI) == Some(Entry(SCALED_UI, CONFIG_LEN, at))
    && !ForbiddenCombination(KindsOf(ReadFrom(data, TLV_START, {}).list))
  }

  lemma DecodesExactly(owner: string, data: seq<byte>)
    ensures DecodeProtectedState(owner, data).State? <==>
            exists at: nat :: && Guardable(owner, data, at) && TLV_START + 4 <= at && at + CONFIG_LEN <= |data|
                              && ValidMultiplier(ReadEconomic(data, at).multiplier)
                              && ValidMultiplier(ReadEconomic(data, at).newMultiplier)
  {
    hide ValidMultiplier, ReadFrom, EntryOf, ReadEconomic, ForbiddenCombination;
    if ValidHeader(data) && ReadFrom(data, TLV_START, {}).Entries? {
      EntriesFit(data, TLV_START, {});
      var found := EntryOf(ReadFrom(data, TLV_START, {}).list, SCALED_UI);
      if found.Some? && found.value.length == CONFIG_LEN {
        assert found == Some(Entry(SCALED_UI, CONFIG_LEN, found.value.at));
      }
    }
  }

  lemma GuardableFits(owner: string, data: seq<byte>, at: nat)
    requires Guardable(owner, data, at)
    ensures TLV_START + 4 <= at && at + CONFIG_LEN <= |data|
    ensures FindFrom(data, TLV_START, SCALED_UI) == Some(at)
  {
    EntriesFit(data, TLV_START, {});
    LookupAgrees(data, TLV_START, {}, SCALED_UI);
  }

  // -------------------------------------------------- edits inside the value

  predicate SameBeyond(a: seq<byte>, b: seq<byte>, at: nat, length: nat) {
    |a| == |b| && forall k :: 0 <= k < |a| && (k < at || at + length <= k) ==> a[k] == b[k]
  }

  predicate SameOutside(a: seq<byte>, b: seq<byte>, at: nat) {
    SameBeyond(a, b, at, CONFIG_LEN)
  }

  /** One step of both walks over a sound entry. */
  lemma StepsOver(data: seq<byte>, offset: nat, seen: set<nat>)
    requires offset + 4 <= |data| && offset + 4 + U16(data, offset + 2) <= |data|
    requires 1 <= U16(data, offset) <= MAX_KNOWN && U16(data, offset) !in seen
    ensures var kind, length := U16(data, offset), U16(data, offset + 2);
            && ReadFrom(data, offset, seen)
               == After(Entry(kind, length, offset + 4), ReadFrom(data, offset + 4 + length, seen + {kind}))
            && EndOf(data, offset) == EndOf(data, offset + 4 + length)
  {
    hide U16;
  }

  lemma EntryBegins(a: seq<byte>, offset: nat, seen: set<nat>)
    requires ReadFrom(a, offset, seen).Entries? && offset + 2 <= |a| && U16(a, offset) != 0
    ensures offset + 4 <= |a| && offset + 4 + U16(a, offset + 2) <= |a|
    ensures 1 <= U16(a, offset) <= MAX_KNOWN && U16(a, offset) !in seen
  {
    hide U16;
  }

  lemma WalkStops(a: seq<byte>, offset: nat, seen: set<nat>)
    requires offset + 2 <= |a| ==> U16(a, offset) == 0
    ensures ReadFrom(a, offset, seen) == Entries([]) && EndOf(a, offset) == offset
  {
    hide U16;
  }

  lemma HeaderUnmoved(a: seq<byte>, b: seq<byte>, e: Entry, offset: nat)
    requires SameBeyond(a, b, e.at, e.length) && offset + 4 <= |a|
    requires offset + 4 <= e.at || e.at + e.length <= offset
    ensures |a| == |b| && U16(b, offset) == U16(a, offset) && U16(b, offset + 2) == U16(a, offset + 2)
  {
    assert forall i :: offset <= i < offset + 4 ==> a[i] == b[i];
  }

  lemma StopUnmoved(a: seq<byte>, b: seq<byte>, e: Entry, offset: nat)
    requires SameBeyond(a, b, e.at, e.length) && e.at + e.length <= offset
    ensures |a| == |b| && (offset + 2 <= |a| ==> U16(b, offset) == U16(a, offset))
  {
  }

  /** The walk never looks inside a value, so changing one changes no entry and no end. */
  lemma {:induction false} WalkUnmoved(a: seq<byte>, b: seq<byte>, e: Entry, offset: nat, seen: set<nat>)
    requires SameBeyond(a, b, e.at, e.length) && ReadFrom(a, offset, seen).Entries?
    requires e.at + e.length <= offset || e in ReadFrom(a, offset, seen).list
    ensures ReadFrom(b, offset, seen) == ReadFrom(a, offset, seen) && EndOf(b, offset) == EndOf(a, offset)
    decreases |a| - offset
  {
    hide SameBeyond, U16, ReadFrom, EndOf;
    if offset + 2 <= |a| && U16(a, offset) != 0 {
      EntryBegins(a, offset, seen);
      var kind, length := U16(a, offset), U16(a, offset + 2);
      EntriesFit(a, offset, seen);
      HeaderUnmoved(a, b, e, offset);
      StepsOver(a, offset, seen);
      StepsOver(b, offset, seen);
      var rest := ReadFrom(a, offset + 4 + length, seen + {kind}).list;
      assert e in [Entry(kind, length, offset + 4)] + rest ==> e == Entry(kind, length, offset + 4) || e in rest;
      WalkUnmoved(a, b, e, offset + 4 + length, seen + {kind});
    } else {
      WalkStops(a, offset, seen);
      StopUnmoved(a, b, e, offset);
      WalkStops(b, offset, seen);
    }
  }

  /** So a mint whose edit stays inside its config value decodes to what that value now says. */
  lemma EditedDecodes(owner: string, a: seq<byte>, b: seq<byte>, at: nat)
    requires Guardable(owner, a, at) && SameOutside(a, b, at)
    ensures Guardable(owner, b, at) && at + CONFIG_LEN <= |b|
    ensures var e := ReadEconomic(b, at);
            DecodeProtectedState(owner, b) ==
            if ValidMultiplier(e.multiplier) && ValidMultiplier(e.newMultiplier) then State(e)
            else Unreadable(InvalidMultiplier)
  {
    hide ValidMultiplier, ReadFrom, ReadEconomic, ForbiddenCombination, FindFrom, ValidHeader;
    GuardableFits(owner, a, at);
    WalkUnmoved(a, b, Entry(SCALED_UI, CONFIG_LEN, at), TLV_START, {});
    HeaderUnmovedBy(a, b, Entry(SCALED_UI, CONFIG_LEN, at));
  }

  /** `writeEconomic`: three writes inside the config value. */
  method WriteEconomic(data: array<byte>, at: nat, multiplier: Bytes8, newMultiplier: Bytes8, t: int)
    requires at + CONFIG_LEN <= data.Length
    modifies data
    ensures SameOutside(old(data[..]), data[..], at)
    ensures data[at..at + 32] == old(data[at..at + 32])
    ensures ReadEconomic(data[..], at) == Economic(U64Of(multiplier), U64Of(newMultiplier), Wrap64(t))
  {
    hide U64Of, Wrap64, I64FromLE, I64ToLE;
    ghost var was := data[..];
    Set(data, multiplier, at + 32);
    Set(data, I64ToLE(t), at + 40);
    Set(data, newMultiplier, at + 48);
    ghost var now := data[..];
    assert now[..at + 32] == was[..at + 32] && now[at + 56..] == was[at + 56..];
    assert now[at + 32..at + 40] == multiplier;
    assert now[at + 40..at + 48] == I64ToLE(t);
    assert now[at + 48..at + 56] == newMultiplier;
    I64RoundTrip(t);
    Prefixes(was, now, at);
  }

  lemma Prefixes(was: seq<byte>, now: seq<byte>, at: nat)
    requires |was| == |now| && at + CONFIG_LEN <= |was|
    requires now[..at + 32] == was[..at + 32] && now[at + 56..] == was[at + 56..]
    ensures SameOutside(was, now, at) && now[at..at + 32] == was[at..at + 32]
  {
    forall k | 0 <= k < |was| && (k < at + 32 || at + 56 <= k) ensures now[k] == was[k] {
      if k < at + 32 {
        assert now[..at + 32][k] == was[..at + 32][k];
      } else {
        assert now[at + 56..][k - at - 56] == was[at + 56..][k - at - 56];
      }
    }
  }

  /** The two writes of the edit. */
  method EditConfig(bytes: array<byte>, at: nat, authority: Bytes32, t: int)
    requires at + CONFIG_LEN <= bytes.Length
    modifies bytes
    ensures bytes[..at + 32] == old(bytes[..at]) + authority
    ensures bytes[at + 32..at + 40] == old(bytes[at + 32..at + 40])
    ensures bytes[at + 40..at + 48] == I64ToLE(t) && bytes[at + 48..] == old(bytes[at + 48..])
  {
    hide I64ToLE;
    ghost var was := bytes[..];
    Set(bytes, authority, at);
    ghost var mid := bytes[..];
    assert mid[..at + 32] == was[..at] + authority && mid[at + 32..] == was[at + 32..];
    Set(bytes, I64ToLE(t), at + 40);
    ghost var now := bytes[..];
    assert now[..at + 48] == mid[..at + 40] + I64ToLE(t);
    assert now[..at + 32] == mid[..at + 32];
    assert now[at + 32..at + 40] == mid[at + 32..at + 40] == was[at + 32..at + 40];
    assert now[at + 48..] == mid[at + 48..] == was[at + 48..];
  }

  /** `deriveLocalMint`: validates the source, then edits authority and time in a copy. */
  method DeriveLocalMint(source: array<byte>, authority: Bytes32, parkedT: int) returns (derived: Option<array<byte>>)
    ensures source[..] == old(source[..])
    ensures derived.Some? <==> DecodeProtectedState(TOKEN_2022, source[..]).State?
    ensures derived.Some? ==>
              && fresh(derived.value) && derived.value != source
              && DecodeProtectedState(TOKEN_2022, derived.value[..]) ==
                 State(DecodeProtectedState(TOKEN_2022, source[..]).economic.(t := Wrap64(parkedT)))
              && var at := FindFrom(source[..], TLV_START, SCALED_UI);
              && at.Some? && at.value + CONFIG_LEN <= source.Length == derived.value.Length
              && derived.value[at.value..at.value + 32] == authority
              && derived.value[at.value + 40..at.value + 48] == I64ToLE(parkedT)
              && forall k :: 0 <= k < source.Length ==>
                   at.value <= k < at.value + 32 || at.value + 40 <= k < at.value + 48
                   || derived.value[k] == source[k]
  {
    hide DecodeProtectedState, ReadFrom, Guardable, Wrap64, I64ToLE, ReadEconomic, SameOutside, ConfigAhead, FindFrom,
         U16, ValidMultiplier, EntryOf;
    ghost var data := source[..];
    if !DecodeProtectedState(TOKEN_2022, source[..]).State? {
      return None;
    }
    ghost var found := ConfigOf(TOKEN_2022, data);
    var bytes := new byte[source.Length](i requires 0 <= i < source.Length reads source => source[i]);
    assert bytes[..] == data;
    var offset: nat := TLV_START;
    while offset + 4 <= bytes.Length
      invariant bytes[..] == data
      invariant ConfigAhead(data, offset, found)
      decreases bytes.Length - offset
    {
      Ahead(data, offset, found);
      var kind, length := U16(bytes[..], offset), U16(bytes[..], offset + 2);
      if kind == SCALED_UI && length == CONFIG_LEN {
        EditConfig(bytes, offset + 4, authority, parkedT);
        EditedMint(data, bytes[..], offset + 4, authority, parkedT);
        return Some(bytes);
      }
      if kind == 0 || offset + 4 + length > bytes.Length {
        break;
      }
      offset := offset + 4 + length;
    }
    Ahead(data, offset, found);
    assert false;
    return None;
  }

  /** The walk has not passed the config yet. */
  ghost predicate ConfigAhead(data: seq<byte>, offset: nat, at: nat) {
    exists seen :: && ReadFrom(data, offset, seen).Entries?
                   && EntryOf(ReadFrom(data, offset, seen).list, SCALED_UI) == Some(Entry(SCALED_UI, CONFIG_LEN, at))
  }

  lemma Ahead(data: seq<byte>, offset: nat, at: nat)
    requires ConfigAhead(data, offset, at)
    ensures offset + 4 <= |data| && U16(data, offset) != 0 && offset + 4 + U16(data, offset + 2) <= |data|
    ensures U16(data, offset) == SCALED_UI ==> U16(data, offset + 2) == CONFIG_LEN && at == offset + 4
    ensures U16(data, offset) != SCALED_UI ==> ConfigAhead(data, offset + 4 + U16(data, offset + 2), at)
  {
    var seen :| && ReadFrom(data, offset, seen).Entries?
                && EntryOf(ReadFrom(data, offset, seen).list, SCALED_UI) == Some(Entry(SCALED_UI, CONFIG_LEN, at));
    var list := ReadFrom(data, offset, seen).list;
    var rest := ReadFrom(data, offset + 4 + U16(data, offset + 2), seen + {U16(data, offset)});
    assert list == [Entry(U16(data, offset), U16(data, offset + 2), offset + 4)] + rest.list;
    assert list[1..] == rest.list;
  }

  /** Where a decodable mint keeps its config. */
  lemma ConfigOf(owner: string, data: seq<byte>) returns (at: nat)
    requires DecodeProtectedState(owner, data).State?
    ensures Guardable(owner, data, at) && ConfigAhead(data, TLV_START, at)
    ensures TLV_START + 4 <= at && at + CONFIG_LEN <= |data| && FindFrom(data, TLV_START, SCALED_UI) == Some(at)
    ensures DecodeProtectedState(owner, data) == State(ReadEconomic(data, at))
    ensures ValidMultiplier(ReadEconomic(data, at).multiplier) && ValidMultiplier(ReadEconomic(data, at).newMultiplier)
  {
    hide ValidMultiplier, ReadFrom, ReadEconomic, ForbiddenCombination, FindFrom, ValidHeader;
    at := EntryOf(ReadFrom(data, TLV_START, {}).list, SCALED_UI).value.at;
    GuardableFits(owner, data, at);
  }

  /** What the account stores as the activation time is an i64. */
  lemma StoredTimesAreI64(owner: string, data: seq<byte>)
    ensures DecodeProtectedState(owner, data).State? ==> IsI64(DecodeProtectedState(owner, data).economic.t)
  {
    hide DecodeProtectedState, I64FromLE, I64ToLE, U64Of;
    if DecodeProtectedState(owner, data).State? {
      var at := ConfigOf(owner, data);
      I64BytesRoundTrip(data[at + 40..at + 48]);
    }
  }

  lemma EditedMint(data: seq<byte>, edited: seq<byte>, at: nat, authority: Bytes32, t: int)
    requires DecodeProtectedState(TOKEN_2022, data).State? && Guardable(TOKEN_2022, data, at)
    requires |edited| == |data| && at + CONFIG_LEN <= |data|
    requires edited[..at + 32] == data[..at] + authority
    requires edited[at + 32..at + 40] == data[at + 32..at + 40]
    requires edited[at + 40..at + 48] == I64ToLE(t) && edited[at + 48..] == data[at + 48..]
    ensures DecodeProtectedState(TOKEN_2022, edited) ==
            State(DecodeProtectedState(TOKEN_2022, data).economic.(t := Wrap64(t)))
    ensures edited[at..at + 32] == authority
    ensures forall k :: 0 <= k < |data| && !(at <= k < at + 32) && !(at + 40 <= k < at + 48) ==> edited[k] == data[k]
  {
    hide DecodeProtectedState, Guardable, Wrap64, I64ToLE, I64FromLE, U64Of, ValidMultiplier;
    forall k | 0 <= k < |data| && !(at <= k < at + 32) && !(at + 40 <= k < at + 48) ensures edited[k] == data[k] {
      if k < at {
        assert edited[..at + 32][k] == data[k];
      } else if k < at + 40 {
        assert edited[at + 32..at + 40][k - at - 32] == data[at + 32..at + 40][k - at - 32];
      } else {
        assert edited[at + 48..][k - at - 48] == data[at + 48..][k - at - 48];
      }
    }
    assert edited[at..at + 32] == edited[..at + 32][at..];
    assert edited[at + 48..at + 56] == data[at + 48..at + 56];
    var found := ConfigOf(TOKEN_2022, data);
    GuardableFits(TOKEN_2022, data, at);
    I64RoundTrip(t);
    EditedDecodes(TOKEN_2022, data, edited, at);
  }

  // ------------------------------------------------------ other alterations

  /** Where the walk stops. */
  function EndOf(data: seq<byte>, offset: nat): nat
    decreases |data| - offset
  {
    if |data| - offset < 4 || U16(data, offset) == 0 then offset
    else EndOf(data, offset + 4 + U16(data, offset + 2))
  }

  /** Where a walk that fills its account is not at its end, a sound entry begins. */
  lemma AtAnEntry(a: seq<byte>, offset: nat, seen: set<nat>)
    requires ReadFrom(a, offset, seen).Entries? && EndOf(a, offset) == |a| && offset < |a|
    ensures offset + 4 <= |a| && offset + 4 + U16(a, offset + 2) <= |a|
    ensures 1 <= U16(a, offset) <= MAX_KNOWN && U16(a, offset) !in seen
  {
    hide U16;
  }

  lemma SameHeader(a: seq<byte>, extra: seq<byte>, offset: nat)
    requires offset + 4 <= |a|
    ensures U16(a + extra, offset) == U16(a, offset) && U16(a + extra, offset + 2) == U16(a, offset + 2)
  {
  }

  /** A walk that fills its account goes on into whatever is appended. */
  lemma {:induction false} WalkGoesOn(a: seq<byte>, extra: seq<byte>, offset: nat, seen: set<nat>)
    requires ReadFrom(a, offset, seen).Entries? && EndOf(a, offset) == |a| && offset <= |a|
    ensures var list := ReadFrom(a, offset, seen).list;
            ReadFrom(a + extra, offset, seen) == Join(list, ReadFrom(a + extra, |a|, seen + KindsOf(list)))
    decreases |a| - offset
  {
    hide KindsOf, Join, ReadFrom, EndOf, U16;
    if offset < |a| {
      AtAnEntry(a, offset, seen);
      SameHeader(a, extra, offset);
      StepsOver(a, offset, seen);
      StepsOver(a + extra, offset, seen);
      var kind, length := U16(a, offset), U16(a, offset + 2);
      var first := Entry(kind, length, offset + 4);
      var tail := ReadFrom(a, offset + 4 + length, seen + {kind}).list;
      WalkGoesOn(a, extra, offset + 4 + length, seen + {kind});
      KindsOfFirst(first, tail);
      assert seen + {kind} + KindsOf(tail) == seen + KindsOf([first] + tail);
      JoinFirst(first, tail, ReadFrom(a + extra, |a|, seen + KindsOf([first] + tail)));
    } else {
      WalkEnds(a);
      NoKinds();
      assert seen + {} == seen;
      JoinNothing(ReadFrom(a + extra, |a|, seen));
    }
  }

  lemma WalkEnds(data: seq<byte>)
    ensures forall seen :: ReadFrom(data, |data|, seen) == Entries([])
    ensures EndOf(data, |data|) == |data|
  {
  }

  lemma NoKinds()
    ensures KindsOf([]) == {}
  {
  }

  lemma KindsOfFirst(e: Entry, list: seq<Entry>)
    ensures KindsOf([e] + list) == {e.kind} + KindsOf(list)
  {
  }

  lemma JoinFirst(e: Entry, done: seq<Entry>, rest: Walk)
    ensures After(e, Join(done, rest)) == Join([e] + done, rest)
  {
    if rest.Entries? {
      assert [e] + (done + rest.list) == ([e] + done) + rest.list;
    }
  }

  lemma JoinNothing(rest: Walk)
    ensures Join([], rest) == rest
  {
    if rest.Entries? {
      assert [] + rest.list == rest.list;
    }
  }

  lemma HeaderStays(data: seq<byte>, extra: seq<byte>)
    requires ValidHeader(data) && |data| > MULTISIG_LEN
    ensures ValidHeader(data + extra) && !BaseOnly(data + extra)
  {
    assert (data + extra)[0..4] == data[0..4] && (data + extra)[46..50] == data[46..50];
  }

  /** A repeated or unknown kind appended to a full area makes the mint unreadable. */
  lemma AppendedCorruption(data: seq<byte>, extra: seq<byte>, at: nat)
    requires Guardable(TOKEN_2022, data, at) && EndOf(data, TLV_START) == |data| > MULTISIG_LEN
    requires |extra| >= 4 && (U16(extra, 0) == SCALED_UI || U16(extra, 0) > MAX_KNOWN)
    ensures DecodeProtectedState(TOKEN_2022, data + extra) == Unreadable(InvalidMintData)
  {
    hide ValidHeader, ForbiddenCombination;
    HeaderStays(data, extra);
    WalkGoesOn(data, extra, TLV_START, {});
    var list := ReadFrom(data, TLV_START, {}).list;
    assert U16(data + extra, |data|) == U16(extra, 0);
    assert EntryOf(list, SCALED_UI).value in list && SCALED_UI in KindsOf(list);
    assert ReadFrom(data + extra, |data|, {} + KindsOf(list)) == Corrupt;
  }

  /** An interest-bearing config next to it makes the combination forbidden. */
  lemma AppendedInterest(data: seq<byte>, extra: seq<byte>, at: nat)
    requires Guardable(TOKEN_2022, data, at) && EndOf(data, TLV_START) == |data| > MULTISIG_LEN
    requires 10 !in KindsOf(ReadFrom(data, TLV_START, {}).list)
    requires |extra| == 56 && U16(extra, 0) == 10 && U16(extra, 2) == 52
    ensures DecodeProtectedState(TOKEN_2022, data + extra) == Unreadable(InvalidExtensionCombination)
  {
    hide ValidHeader;
    HeaderStays(data, extra);
    WalkGoesOn(data, extra, TLV_START, {});
    var list := ReadFrom(data, TLV_START, {}).list;
    var all := data + extra;
    assert U16(all, |data|) == 10 && U16(all, |data| + 2) == 52;
    var added := Entry(10, 52, |data| + 4);
    assert ReadFrom(all, |data| + 56, {} + KindsOf(list) + {10}) == Entries([]);
    assert ReadFrom(all, |data|, {} + KindsOf(list)) == Entries([added]);
    assert ReadFrom(all, TLV_START, {}) == Entries(list + [added]);
    FirstOfItsKind(list, [added], SCALED_UI);
    assert EntryOf(list, SCALED_UI).value in list + [added] && added in list + [added];
    assert 25 in KindsOf(list + [added]) && 10 in KindsOf(list + [added]);
  }

  lemma {:induction false} FirstOfItsKind(list: seq<Entry>, more: seq<Entry>, kind: nat)
    requires EntryOf(list, kind).Some?
    ensures EntryOf(list + more, kind) == EntryOf(list, kind)
  {
    assert (list + more)[0] == list[0];
    if list[0].kind != kind {
      assert (list + more)[1..] == list[1..] + more;
      FirstOfItsKind(list[1..], more, kind);
    }
  }

  /** Two entries never overlap, headers included. */
  lemma {:induction false} EntriesApart(data: seq<byte>, offset: nat, seen: set<nat>, e: Entry, f: Entry)
    requires ReadFrom(data, offset, seen).Entries? && e != f
    requires e in ReadFrom(data, offset, seen).list && f in ReadFrom(data, offset, seen).list
    ensures e.at + e.length + 4 <= f.at || f.at + f.length + 4 <= e.at
    decreases |data| - offset
  {
    if |data| - offset >= 2 && U16(data, offset) != 0 {
      var length := U16(data, offset + 2);
      var first := Entry(U16(data, offset), length, offset + 4);
      var rest := ReadFrom(data, offset + 4 + length, seen + {U16(data, offset)});
      EntriesFit(data, offset + 4 + length, seen + {U16(data, offset)});
      assert ReadFrom(data, offset, seen).list == [first] + rest.list;
      if e != first && f != first {
        EntriesApart(data, offset + 4 + length, seen + {U16(data, offset)}, e, f);
      }
    }
  }

  /** An edit inside another entry's value leaves the protected state as it was. */
  lemma EditedElsewhere(a: seq<byte>, b: seq<byte>, e: Entry, at: nat)
    requires Guardable(TOKEN_2022, a, at) && e in ReadFrom(a, TLV_START, {}).list && e.kind != SCALED_UI
    requires SameBeyond(a, b, e.at, e.length)
    ensures DecodeProtectedState(TOKEN_2022, b) == DecodeProtectedState(TOKEN_2022, a)
  {
    hide ValidMultiplier, ForbiddenCombination, ReadFrom, EntryOf, ValidHeader, FindFrom, I64FromLE, U64Of;
    GuardableFits(TOKEN_2022, a, at);
    EntriesFit(a, TLV_START, {});
    WalkUnmoved(a, b, e, TLV_START, {});
    EntriesApart(a, TLV_START, {}, e, Entry(SCALED_UI, CONFIG_LEN, at));
    HeaderUnmovedBy(a, b, e);
    assert a[at + 32..at + 40] == b[at + 32..at + 40];
    assert a[at + 40..at + 48] == b[at + 40..at + 48];
    assert a[at + 48..at + 56] == b[at + 48..at + 56];
  }

  lemma HeaderUnmovedBy(a: seq<byte>, b: seq<byte>, e: Entry)
    requires SameBeyond(a, b, e.at, e.length) && TLV_START <= e.at && ValidHeader(a)
    ensures ValidHeader(b) && !BaseOnly(b) && !BaseOnly(a)
  {
    assert a[0..4] == b[0..4] && a[46..50] == b[46..50];
  }

  /** A mint cut to its base has no extensions, and one whose state or type byte is wrong is no mint. */
  lemma BrokenHeaders(data: seq<byte>, at: nat, state: byte, kind: byte)
    requires Guardable(TOKEN_2022, data, at)
    ensures DecodeProtectedState(TOKEN_2022, data[..82]) == Unreadable(MissingScaledUiAmount)
    ensures state != 1 ==> DecodeProtectedState(TOKEN_2022, data[45 := state]) == Unreadable(InvalidMintData)
    ensures kind != 1 ==> DecodeProtectedState(TOKEN_2022, data[165 := kind]) == Unreadable(InvalidMintData)
  {
    hide ReadFrom, EntryOf, ForbiddenCombination;
    assert data[..82][0..4] == data[0..4] && data[..82][46..50] == data[46..50];
  }
}
