/** A v0 transaction rebuilt byte for byte from its JSON form, and the account
    flags two tools compute for it. */
module Wire {
  import opened Bytes
  import opened Base58
  import opened Commitment
  import opened Encoders

  // ----------------------------------------------------------- compact u16

  /** Seven bits at a time, low bits first, the high bit set on all but the last byte. */
  function Cu16(n: nat): (b: seq<byte>)
    ensures |b| >= 1
  {
    if n < 0x80 then [n] else [n % 0x80 + 0x80] + Cu16(n / 0x80)
  }

  /** `cu16`: the do-while loop. */
  method CompactU16(value: nat) returns (out: seq<byte>)
    ensures out == Cu16(value)
  {
    var n := value;
    out := [];
    while true
      invariant out + Cu16(n) == Cu16(value)
      decreases n
    {
      var b := n % 0x80;
      ghost var was := n;
      n := n / 0x80;
      if n != 0 {
        out := out + [b + 0x80];
        assert Cu16(was) == [b + 0x80] + Cu16(n);
      } else {
        out := out + [b];
        break;
      }
    }
  }

  /** A compact-u16 reader: at most three bytes, at most 65535. */
  function ReadCu16(b: seq<byte>): Parsed<nat> {
    if |b| < 1 then Malformed
    else if b[0] < 0x80 then Parsed(b[0], b[1..])
    else if |b| < 2 then Malformed
    else if b[1] < 0x80 then Parsed((b[0] as nat - 0x80) + 0x80 * b[1] as nat, b[2..])
    else if |b| < 3 || b[2] > 3 then Malformed
    else Parsed((b[0] as nat - 0x80) + 0x80 * (b[1] as nat - 0x80) + 0x4000 * b[2] as nat, b[3..])
  }

  lemma ReadOne(x: byte, rest: seq<byte>)
    requires x < 0x80
    ensures ReadCu16([x] + rest) == Parsed(x, rest)
  {
    assert ([x] + rest)[1..] == rest;
  }

  lemma ReadTwo(x: byte, y: byte, rest: seq<byte>)
    requires x >= 0x80 && y < 0x80
    ensures ReadCu16([x, y] + rest) == Parsed(x - 0x80 + 0x80 * y, rest)
  {
    assert ([x, y] + rest)[2..] == rest;
  }

  lemma ReadThree(x: byte, y: byte, z: byte, rest: seq<byte>)
    requires x >= 0x80 && y >= 0x80
    ensures ReadCu16([x, y, z] + rest) ==
            if z > 3 then Malformed else Parsed(x - 0x80 + 0x80 * (y - 0x80) + 0x4000 * z, rest)
  {
    assert ([x, y, z] + rest)[3..] == rest;
  }

  lemma Shapes(n: nat)
    ensures n < 0x80 ==> Cu16(n) == [n]
    ensures n >= 0x80 ==> Cu16(n) == [n % 0x80 + 0x80] + Cu16(n / 0x80)
  {
  }

  lemma LongShape(n: nat)
    requires n >= 0x4000
    ensures var c := Cu16(n);
            && |c| >= 3 && c[..2] == [n % 0x80 + 0x80, n / 0x80 % 0x80 + 0x80]
            && c[2] == (if n < 0x20_0000 then n / 0x4000 else n / 0x4000 % 0x80 + 0x80)
            && (n < 0x20_0000 ==> |c| == 3)
  {
    hide Cu16;
    var m := n / 0x80;
    var k := m / 0x80;
    assert k == n / 0x4000 && (k < 0x80 <==> n < 0x20_0000);
    Shapes(n);
    Shapes(m);
    Shapes(k);
    assert Cu16(n) == [n % 0x80 + 0x80, m % 0x80 + 0x80] + Cu16(k);
  }

  /** The writer and the reader agree exactly on the values below 2^16, in at most three bytes. */
  lemma Cu16Exactly(n: nat, rest: seq<byte>)
    ensures ReadCu16(Cu16(n) + rest) == Parsed(n, rest) <==> n < 0x1_0000
    ensures n < 0x1_0000 ==> |Cu16(n)| <= 3
  {
    hide ReadCu16, Cu16;
    Shapes(n);
    if n < 0x80 {
      ReadOne(n, rest);
    } else if n < 0x4000 {
      Shapes(n / 0x80);
      assert Cu16(n) == [n % 0x80 + 0x80, n / 0x80];
      ReadTwo(n % 0x80 + 0x80, n / 0x80, rest);
    } else {
      LongShape(n);
      var c := Cu16(n);
      var x, y, z := n % 0x80 + 0x80, n / 0x80 % 0x80 + 0x80, c[2];
      assert c[0] == c[..2][0] == x && c[1] == c[..2][1] == y;
      assert c + rest == [x, y, z] + (c[3..] + rest);
      ReadThree(x, y, z, c[3..] + rest);
      assert n < 0x1_0000 <==> n / 0x4000 <= 3;
      if n < 0x1_0000 {
        assert c[3..] + rest == rest;
      }
    }
  }

  // ------------------------------------------------------- lists of anything

  function Each<T>(f: T -> seq<byte>, items: seq<T>): seq<byte> {
    if items == [] then [] else f(items[0]) + Each(f, items[1..])
  }

  function Vec<T>(f: T -> seq<byte>, items: seq<T>): seq<byte> {
    Cu16(|items|) + Each(f, items)
  }

  function Times<T>(p: seq<byte> -> Parsed<T>, b: seq<byte>, n: nat): Parsed<seq<T>>
    decreases n
  {
    if n == 0 then Parsed([], b)
    else
      match p(b)
      case Malformed => Malformed
      case Parsed(first, rest) =>
        match Times(p, rest, n - 1)
        case Malformed => Malformed
        case Parsed(others, end) => Parsed([first] + others, end)
  }

  function ReadVec<T>(p: seq<byte> -> Parsed<T>, b: seq<byte>): Parsed<seq<T>> {
    match ReadCu16(b) case Malformed => Malformed case Parsed(n, rest) => Times(p, rest, n)
  }

  function Each2<T, U>(g: T -> U, items: seq<T>): (r: seq<U>)
    ensures |r| == |items|
    ensures forall k :: 0 <= k < |r| ==> r[k] == g(items[k])
  {
    seq(|items|, k requires 0 <= k < |items| => g(items[k]))
  }

  /** `p` reads back what `f` writes, as `g` sees it, and stops where it ends. */
  ghost predicate Reads<T(!new), U(!new)>(f: T -> seq<byte>, p: seq<byte> -> Parsed<U>, g: T -> U, x: T) {
    forall rest: seq<byte> :: p(f(x) + rest) == Parsed(g(x), rest)
  }

  lemma {:induction false} EachReads<T(!new), U(!new)>(f: T -> seq<byte>, p: seq<byte> -> Parsed<U>, g: T -> U,
                                                       items: seq<T>, rest: seq<byte>)
    requires forall k :: 0 <= k < |items| ==> Reads(f, p, g, items[k])
    ensures Times(p, Each(f, items) + rest, |items|) == Parsed(Each2(g, items), rest)
  {
    if items == [] {
      assert Each(f, items) + rest == rest;
      assert Each2(g, items) == [];
    } else {
      var others := items[1..];
      assert Each(f, items) + rest == f(items[0]) + (Each(f, others) + rest);
      assert Reads(f, p, g, items[0]);
      EachReads(f, p, g, others, rest);
      assert Each2(g, items) == [g(items[0])] + Each2(g, others);
    }
  }

  lemma VecReads<T(!new), U(!new)>(f: T -> seq<byte>, p: seq<byte> -> Parsed<U>, g: T -> U, items: seq<T>,
                                   rest: seq<byte>)
    requires |items| < 0x1_0000 && forall k :: 0 <= k < |items| ==> Reads(f, p, g, items[k])
    ensures ReadVec(p, Vec(f, items) + rest) == Parsed(Each2(g, items), rest)
  {
    assert Vec(f, items) + rest == Cu16(|items|) + (Each(f, items) + rest);
    Cu16Exactly(|items|, Each(f, items) + rest);
    EachReads(f, p, g, items, rest);
  }

  // -------------------------------------------------------- the transaction

  datatype Compiled = Compiled(programIdIndex: nat, accounts: seq<nat>, data: string)
  datatype Lookup = Lookup(accountKey: string, writable: seq<nat>, readonly: seq<nat>)
  datatype Header = Header(signatures: nat, readonlySigned: nat, readonlyUnsigned: nat)
  datatype Message = Message(header: Header, accountKeys: seq<string>, recentBlockhash: string,
                             instructions: seq<Compiled>, lookups: seq<Lookup>)
  datatype Transaction = Transaction(signatures: seq<string>, message: Message)

  /** The decoded forms. */
  datatype RawCompiled = RawCompiled(programIdIndex: byte, accounts: seq<byte>, data: seq<byte>)
  datatype RawLookup = RawLookup(accountKey: seq<byte>, writable: seq<byte>, readonly: seq<byte>)
  datatype RawMessage = RawMessage(header: Header, accountKeys: seq<seq<byte>>, recentBlockhash: seq<byte>,
                                   instructions: seq<RawCompiled>, lookups: seq<RawLookup>)
  datatype RawTransaction = RawTransaction(signatures: seq<seq<byte>>, message: RawMessage)

  /** `Buffer.from(numbers)`. */
  function Octets(ns: seq<nat>): (b: seq<byte>)
    ensures |b| == |ns|
    ensures forall k :: 0 <= k < |b| ==> b[k] == ns[k] % 256
  {
    seq(|ns|, k requires 0 <= k < |ns| => ns[k] % 256)
  }

  function Blob(b: seq<byte>): seq<byte> {
    Cu16(|b|) + b
  }

  function CompiledBytes(i: Compiled): seq<byte> {
    [i.programIdIndex % 256] + Blob(Octets(i.accounts)) + Blob(KeyBytes(i.data))
  }

  function LookupBytes(l: Lookup): seq<byte> {
    KeyBytes(l.accountKey) + Blob(Octets(l.writable)) + Blob(Octets(l.readonly))
  }

  /** The version byte of v0 and the three counts. */
  function HeaderBytes(h: Header): (b: seq<byte>)
    ensures |b| == 4
  {
    [0x80, h.signatures % 256, h.readonlySigned % 256, h.readonlyUnsigned % 256]
  }

  function MessageBytes(m: Message): seq<byte> {
    HeaderBytes(m.header) + Vec(KeyBytes, m.accountKeys) + KeyBytes(m.recentBlockhash)
      + Vec(CompiledBytes, m.instructions)
    + Vec(LookupBytes, m.lookups)
  }

  function WireBytes(t: Transaction): seq<byte> {
    Vec(KeyBytes, t.signatures) + MessageBytes(t.message)
  }

  /** What `b58d` and `key32` accept; they throw on anything else. */
  predicate Decodable(t: Transaction) {
    var m := t.message;
    && (forall k :: 0 <= k < |t.signatures| ==> InAlphabet(t.signatures[k]))
    && (forall k :: 0 <= k < |m.accountKeys| ==> IsKey(m.accountKeys[k])) && IsKey(m.recentBlockhash)
    && (forall k :: 0 <= k < |m.instructions| ==> InAlphabet(m.instructions[k].data))
    && (forall k :: 0 <= k < |m.lookups| ==> IsKey(m.lookups[k].accountKey))
  }

  // -------------------------------------------------------- as a program

  lemma EachSnoc<T>(f: T -> seq<byte>, items: seq<T>, x: T)
    ensures Each(f, items + [x]) == Each(f, items) + f(x)
  {
    if items == [] {
      assert items + [x] == [x] && [x][1..] == [];
    } else {
      assert (items + [x])[1..] == items[1..] + [x];
    }
  }

  /** Pushes the decoded bytes of each text, or gives up on one that is not base58
      (or, where `keys`, not 32 bytes). */
  method PushAll(parts: seq<seq<byte>>, texts: seq<string>, keys: bool) returns (out: Option<seq<seq<byte>>>)
    ensures out.Some? <==> forall k :: 0 <= k < |texts| ==> if keys then IsKey(texts[k]) else InAlphabet(texts[k])
    ensures out.Some? ==> Concat(out.value) == Concat(parts) + Each(KeyBytes, texts)
  {
    hide Concat, Decode;
    var pushed := parts;
    NoneEach(KeyBytes);
    for k := 0 to |texts|
      invariant forall j :: 0 <= j < k ==> if keys then IsKey(texts[j]) else InAlphabet(texts[j])
      invariant Concat(pushed) == Concat(parts) + Each(KeyBytes, texts[..k])
    {
      var b := B58d(texts[k]);
      if b.None? || (keys && |b.value| != 32) {
        return None;
      }
      assert texts[..k + 1] == texts[..k] + [texts[k]];
      EachSnoc(KeyBytes, texts[..k], texts[k]);
      ConcatSnoc(pushed, b.value);
      pushed := pushed + [b.value];
    }
    assert texts[..|texts|] == texts;
    return Some(pushed);
  }

  lemma NoneEach<T>(f: T -> seq<byte>)
    ensures Each(f, []) == []
  {
  }

  /** `parts.push(cu16(b.length), b)`. */
  method PushBlob(parts: seq<seq<byte>>, b: seq<byte>) returns (out: seq<seq<byte>>)
    ensures Concat(out) == Concat(parts) + Blob(b)
  {
    hide Concat;
    var count := CompactU16(|b|);
    ConcatSnoc(parts, count);
    ConcatSnoc(parts + [count], b);
    out := parts + [count] + [b];
  }

  method PushInstructions(parts: seq<seq<byte>>, instructions: seq<Compiled>) returns (out: Option<seq<seq<byte>>>)
    ensures out.Some? <==> forall k :: 0 <= k < |instructions| ==> InAlphabet(instructions[k].data)
    ensures out.Some? ==> Concat(out.value) == Concat(parts) + Each(CompiledBytes, instructions)
  {
    hide Concat, Decode, Blob, Octets;
    var pushed := parts;
    NoneEach(CompiledBytes);
    for k := 0 to |instructions|
      invariant forall j :: 0 <= j < k ==> InAlphabet(instructions[j].data)
      invariant Concat(pushed) == Concat(parts) + Each(CompiledBytes, instructions[..k])
    {
      var i := instructions[k];
      var d := B58d(i.data);
      if d.None? {
        return None;
      }
      ghost var was := Concat(pushed);
      var index: seq<byte> := [i.programIdIndex % 256];
      ConcatSnoc(pushed, index);
      pushed := pushed + [index];
      pushed := PushBlob(pushed, Octets(i.accounts));
      pushed := PushBlob(pushed, d.value);
      assert Concat(pushed) == was + CompiledBytes(i);
      assert instructions[..k + 1] == instructions[..k] + [i];
      EachSnoc(CompiledBytes, instructions[..k], i);
    }
    assert instructions[..|instructions|] == instructions;
    return Some(pushed);
  }

  method PushLookups(parts: seq<seq<byte>>, lookups: seq<Lookup>) returns (out: Option<seq<seq<byte>>>)
    ensures out.Some? <==> forall k :: 0 <= k < |lookups| ==> IsKey(lookups[k].accountKey)
    ensures out.Some? ==> Concat(out.value) == Concat(parts) + Each(LookupBytes, lookups)
  {
    hide Concat, Decode, Blob, Octets;
    var pushed := parts;
    NoneEach(LookupBytes);
    for k := 0 to |lookups|
      invariant forall j :: 0 <= j < k ==> IsKey(lookups[j].accountKey)
      invariant Concat(pushed) == Concat(parts) + Each(LookupBytes, lookups[..k])
    {
      var l := lookups[k];
      var key := B58d(l.accountKey);
      if key.None? || |key.value| != 32 {
        return None;
      }
      ghost var was := Concat(pushed);
      ConcatSnoc(pushed, key.value);
      pushed := pushed + [key.value];
      pushed := PushBlob(pushed, Octets(l.writable));
      pushed := PushBlob(pushed, Octets(l.readonly));
      assert Concat(pushed) == was + LookupBytes(l);
      assert lookups[..k + 1] == lookups[..k] + [l];
      EachSnoc(LookupBytes, lookups[..k], l);
    }
    assert lookups[..|lookups|] == lookups;
    return Some(pushed);
  }

  /** `wireFromJson`: parts in wire order, then one concatenation. */
  method WireFromJson(t: Transaction) returns (out: Option<seq<byte>>)
    ensures out.Some? <==> Decodable(t)
    ensures out.Some? ==> out.value == WireBytes(t)
  {
    hide Concat, Decode, Each, CompiledBytes, LookupBytes, IsKey, InAlphabet, HeaderBytes, Cu16, KeyBytes;
    var m := t.message;
    var count := CompactU16(|t.signatures|);
    NoParts();
    ConcatSnoc([], count);
    assert [] + [count] == [count];
    var signed := PushAll([count], t.signatures, false);
    if signed.None? {
      return None;
    }
    var header := HeaderBytes(m.header);
    var keyCount := CompactU16(|m.accountKeys|);
    ConcatSnoc(signed.value, header);
    ConcatSnoc(signed.value + [header], keyCount);
    var keyed := PushAll(signed.value + [header] + [keyCount], m.accountKeys, true);
    if keyed.None? {
      return None;
    }
    var hashed := PushAll(keyed.value, [m.recentBlockhash], true);
    assert [m.recentBlockhash][0] == m.recentBlockhash;
    JustOne(m.recentBlockhash);
    if hashed.None? {
      return None;
    }
    var instructionCount := CompactU16(|m.instructions|);
    ConcatSnoc(hashed.value, instructionCount);
    var instructed := PushInstructions(hashed.value + [instructionCount], m.instructions);
    if instructed.None? {
      return None;
    }
    var lookupCount := CompactU16(|m.lookups|);
    ConcatSnoc(instructed.value, lookupCount);
    var looked := PushLookups(instructed.value + [lookupCount], m.lookups);
    if looked.None? {
      return None;
    }
    var joined := JoinParts(looked.value);
    assert joined[..] == WireBytes(t);
    return Some(joined[..]);
  }

  lemma JustOne(text: string)
    ensures Each(KeyBytes, [text]) == KeyBytes(text)
  {
    assert [text][1..] == [];
    NoneEach(KeyBytes);
  }

  // ------------------------------------------------------------- reading back

  function ReadFixed(n: nat): seq<byte> -> Parsed<seq<byte>> {
    (b: seq<byte>) => if |b| < n then Malformed else Parsed(b[..n], b[n..])
  }

  function ReadBlob(b: seq<byte>): Parsed<seq<byte>> {
    match ReadCu16(b) case Malformed => Malformed case Parsed(n, rest) => ReadFixed(n)(rest)
  }

  function ReadCompiled(b: seq<byte>): Parsed<RawCompiled> {
    if |b| < 1 then Malformed
    else
      match ReadBlob(b[1..])
      case Malformed => Malformed
      case Parsed(accounts, rest) =>
        match ReadBlob(rest)
        case Malformed => Malformed
        case Parsed(data, end) => Parsed(RawCompiled(b[0], accounts, data), end)
  }

  function ReadLookup(b: seq<byte>): Parsed<RawLookup> {
    if |b| < 32 then Malformed
    else
      match ReadBlob(b[32..])
      case Malformed => Malformed
      case Parsed(writable, rest) =>
        match ReadBlob(rest)
        case Malformed => Malformed
        case Parsed(readonly, end) => Parsed(RawLookup(b[..32], writable, readonly), end)
  }

  function ReadMessage(b: seq<byte>): Parsed<RawMessage> {
    if |b| < 4 || b[0] != 0x80 then Malformed
    else
      match ReadVec(ReadFixed(32), b[4..])
      case Malformed => Malformed
      case Parsed(keys, r1) =>
        if |r1| < 32 then Malformed
        else
          match ReadVec(ReadCompiled, r1[32..])
          case Malformed => Malformed
          case Parsed(instructions, r2) =>
            match ReadVec(ReadLookup, r2)
            case Malformed => Malformed
            case Parsed(lookups, end) =>
              Parsed(RawMessage(Header(b[1], b[2], b[3]), keys, r1[..32], instructions, lookups), end)
  }

  function ReadTransaction(b: seq<byte>): Parsed<RawTransaction> {
    match ReadVec(ReadFixed(64), b)
    case Malformed => Malformed
    case Parsed(signatures, rest) =>
      match ReadMessage(rest)
      case Malformed => Malformed
      case Parsed(m, end) => Parsed(RawTransaction(signatures, m), end)
  }

  predicate SmallList(ns: seq<nat>) {
    |ns| < 0x1_0000 && forall k :: 0 <= k < |ns| ==> ns[k] < 256
  }

  /** A transaction as a validator returns it: lists below 2^16, indexes and header in
      a byte, signatures of 64 bytes. */
  predicate Fits(t: Transaction) {
    var m := t.message;
    && |t.signatures| < 0x1_0000 && (forall k :: 0 <= k < |t.signatures| ==> |KeyBytes(t.signatures[k])| == 64)
    && m.header.signatures < 256 && m.header.readonlySigned < 256 && m.header.readonlyUnsigned < 256
    && |m.accountKeys| < 0x1_0000 && |m.instructions| < 0x1_0000 && |m.lookups| < 0x1_0000
    && (forall k :: 0 <= k < |m.instructions| ==>
          && m.instructions[k].programIdIndex < 256 && SmallList(m.instructions[k].accounts)
          && |KeyBytes(m.instructions[k].data)| < 0x1_0000)
    && (forall k :: 0 <= k < |m.lookups| ==> SmallList(m.lookups[k].writable) && SmallList(m.lookups[k].readonly))
  }

  function RawOfCompiled(i: Compiled): RawCompiled {
    RawCompiled(i.programIdIndex % 256, Octets(i.accounts), KeyBytes(i.data))
  }

  function RawOfLookup(l: Lookup): RawLookup {
    RawLookup(KeyBytes(l.accountKey), Octets(l.writable), Octets(l.readonly))
  }

  function RawOfMessage(m: Message): RawMessage {
    RawMessage(m.header, Each2(KeyBytes, m.accountKeys), KeyBytes(m.recentBlockhash),
               Each2(RawOfCompiled, m.instructions), Each2(RawOfLookup, m.lookups))
  }

  lemma FixedReads(n: nat, text: string)
    requires |KeyBytes(text)| == n
    ensures Reads(KeyBytes, ReadFixed(n), KeyBytes, text)
  {
    hide KeyBytes;
    forall rest: seq<byte> ensures ReadFixed(n)(KeyBytes(text) + rest) == Parsed(KeyBytes(text), rest) {
      assert (KeyBytes(text) + rest)[..n] == KeyBytes(text) && (KeyBytes(text) + rest)[n..] == rest;
    }
  }

  lemma BlobReads(b: seq<byte>, rest: seq<byte>)
    requires |b| < 0x1_0000
    ensures ReadBlob(Blob(b) + rest) == Parsed(b, rest)
  {
    hide ReadCu16, Cu16;
    assert Blob(b) + rest == Cu16(|b|) + (b + rest);
    Cu16Exactly(|b|, b + rest);
    assert (b + rest)[..|b|] == b && (b + rest)[|b|..] == rest;
  }

  lemma CompiledReads(i: Compiled)
    requires |i.accounts| < 0x1_0000 && |KeyBytes(i.data)| < 0x1_0000
    ensures Reads(CompiledBytes, ReadCompiled, RawOfCompiled, i)
  {
    hide KeyBytes, Blob, ReadBlob;
    forall rest: seq<byte> ensures ReadCompiled(CompiledBytes(i) + rest) == Parsed(RawOfCompiled(i), rest) {
      var b := CompiledBytes(i) + rest;
      var tail := Blob(KeyBytes(i.data)) + rest;
      assert b == [i.programIdIndex % 256] + (Blob(Octets(i.accounts)) + tail);
      assert b[1..] == Blob(Octets(i.accounts)) + tail;
      BlobReads(Octets(i.accounts), tail);
      BlobReads(KeyBytes(i.data), rest);
    }
  }

  lemma LookupReads(l: Lookup)
    requires |KeyBytes(l.accountKey)| == 32 && |l.writable| < 0x1_0000 && |l.readonly| < 0x1_0000
    ensures Reads(LookupBytes, ReadLookup, RawOfLookup, l)
  {
    hide KeyBytes, Blob, ReadBlob;
    forall rest: seq<byte> ensures ReadLookup(LookupBytes(l) + rest) == Parsed(RawOfLookup(l), rest) {
      var b := LookupBytes(l) + rest;
      var tail := Blob(Octets(l.readonly)) + rest;
      assert b == KeyBytes(l.accountKey) + (Blob(Octets(l.writable)) + tail);
      assert b[..32] == KeyBytes(l.accountKey) && b[32..] == Blob(Octets(l.writable)) + tail;
      BlobReads(Octets(l.writable), tail);
      BlobReads(Octets(l.readonly), rest);
    }
  }

  lemma MessageReads(t: Transaction, rest: seq<byte>)
    requires Decodable(t) && Fits(t)
    ensures ReadMessage(MessageBytes(t.message) + rest) == Parsed(RawOfMessage(t.message), rest)
  {
    hide KeyBytes, Vec, ReadVec, CompiledBytes, LookupBytes, ReadCompiled, ReadLookup, RawOfCompiled, RawOfLookup,
         Reads, SmallList, InAlphabet;
    var m := t.message;
    var afterInstructions := Vec(LookupBytes, m.lookups) + rest;
    var afterKeys := KeyBytes(m.recentBlockhash) + (Vec(CompiledBytes, m.instructions) + afterInstructions);
    var b := MessageBytes(m) + rest;
    assert b == HeaderBytes(m.header) + (Vec(KeyBytes, m.accountKeys) + afterKeys);
    assert b[0] == 0x80 && Header(b[1], b[2], b[3]) == m.header;
    assert b[4..] == Vec(KeyBytes, m.accountKeys) + afterKeys;
    forall k | 0 <= k < |m.accountKeys| ensures Reads(KeyBytes, ReadFixed(32), KeyBytes, m.accountKeys[k]) {
      FixedReads(32, m.accountKeys[k]);
    }
    VecReads(KeyBytes, ReadFixed(32), KeyBytes, m.accountKeys, afterKeys);
    assert afterKeys[..32] == KeyBytes(m.recentBlockhash);
    assert afterKeys[32..] == Vec(CompiledBytes, m.instructions) + afterInstructions;
    forall k | 0 <= k < |m.instructions| ensures Reads(CompiledBytes, ReadCompiled, RawOfCompiled, m.instructions[k]) {
      ShortEnough(m.instructions[k].accounts);
      CompiledReads(m.instructions[k]);
    }
    VecReads(CompiledBytes, ReadCompiled, RawOfCompiled, m.instructions, afterInstructions);
    forall k | 0 <= k < |m.lookups| ensures Reads(LookupBytes, ReadLookup, RawOfLookup, m.lookups[k]) {
      ShortEnough(m.lookups[k].writable);
      ShortEnough(m.lookups[k].readonly);
      LookupReads(m.lookups[k]);
    }
    VecReads(LookupBytes, ReadLookup, RawOfLookup, m.lookups, rest);
  }

  lemma ShortEnough(ns: seq<nat>)
    requires SmallList(ns)
    ensures |ns| < 0x1_0000
  {
  }

  /** The rebuilt wire is self-delimiting: it reads back to the same signatures,
      header, keys, instructions and lookups, and leaves what follows it. */
  lemma WireRoundTrip(t: Transaction, rest: seq<byte>)
    requires Decodable(t) && Fits(t)
    ensures ReadTransaction(WireBytes(t) + rest) ==
            Parsed(RawTransaction(Each2(KeyBytes, t.signatures), RawOfMessage(t.message)), rest)
  {
    hide KeyBytes, Vec, ReadVec, Reads, MessageBytes, ReadMessage, Decodable;
    assert WireBytes(t) + rest == Vec(KeyBytes, t.signatures) + (MessageBytes(t.message) + rest);
    forall k | 0 <= k < |t.signatures| ensures Reads(KeyBytes, ReadFixed(64), KeyBytes, t.signatures[k]) {
      FixedReads(64, t.signatures[k]);
    }
    VecReads(KeyBytes, ReadFixed(64), KeyBytes, t.signatures, MessageBytes(t.message) + rest);
    MessageReads(t, rest);
  }

  /** With one signature the signed message is the wire after its first 65 bytes. */
  lemma MessageAfter65(t: Transaction)
    requires |t.signatures| == 1 && |KeyBytes(t.signatures[0])| == 64
    ensures |WireBytes(t)| >= 65 && WireBytes(t)[65..] == MessageBytes(t.message)
  {
    hide KeyBytes, MessageBytes;
    var s := t.signatures[0];
    assert t.signatures == [s] && [s][1..] == [];
    assert Each(KeyBytes, t.signatures) == KeyBytes(s) + Each(KeyBytes, []);
    assert Vec(KeyBytes, t.signatures) == [1] + KeyBytes(s);
  }

  // ---------------------------------------------------------- account flags

  datatype Account = Account(key: string, signer: bool, writable: bool)

  /** `resolved`: keys in runtime order and a flag function of the index. */
  function KeysOf(statics: seq<string>, writable: seq<string>, readonly: seq<string>): seq<string> {
    statics + writable + readonly
  }

  predicate SignerFlag(h: Header, i: nat) {
    i < h.signatures
  }

  predicate WritableFlag(h: Header, statics: nat, loadedWritable: nat, i: nat) {
    if i < h.signatures then i < h.signatures - h.readonlySigned
    else if i < statics then i < statics - h.readonlyUnsigned
    else i < statics + loadedWritable
  }

  /** `compileAndDecode`: one list, filled by three loops. */
  function Pushed(h: Header, statics: seq<string>, writable: seq<string>, readonly: seq<string>): (r: seq<Account>)
    ensures |r| == |statics| + |writable| + |readonly|
  {
    seq(|statics|, i requires 0 <= i < |statics| =>
        Account(statics[i], i < h.signatures,
                if i < h.signatures then i < h.signatures - h.readonlySigned else i < |statics| - h.readonlyUnsigned))
    + seq(|writable|, i requires 0 <= i < |writable| => Account(writable[i], false, true))
    + seq(|readonly|, i requires 0 <= i < |readonly| => Account(readonly[i], false, false))
  }

  /** A lookup table's addresses, by index. */
  type Tables = (string, nat) -> string

  function LoadedFrom(tables: Tables, lookups: seq<Lookup>, writable: bool): seq<string> {
    if lookups == [] then []
    else
      var l := lookups[|lookups| - 1];
      LoadedFrom(tables, lookups[..|lookups| - 1], writable)
      + Each2((i: nat) => tables(l.accountKey, i), if writable then l.writable else l.readonly)
  }

  method Resolve(h: Header, statics: seq<string>, tables: Tables, lookups: seq<Lookup>) returns (resolved: seq<Account>)
    ensures resolved == Pushed(h, statics, LoadedFrom(tables, lookups, true), LoadedFrom(tables, lookups, false))
  {
    resolved := [];
    for i := 0 to |statics|
      invariant resolved == Pushed(h, statics, [], [])[..i]
    {
      var isSigner := i < h.signatures;
      var isWritable := if isSigner then i < h.signatures - h.readonlySigned else i < |statics| - h.readonlyUnsigned;
      resolved := resolved + [Account(statics[i], isSigner, isWritable)];
    }
    resolved := ResolveLookups(resolved, tables, lookups, true);
    resolved := ResolveLookups(resolved, tables, lookups, false);
    assert Pushed(h, statics, [], []) == Pushed(h, statics, [], [])[..|statics|];
  }

  function Loaded(keys: seq<string>, writable: bool): (r: seq<Account>)
    ensures |r| == |keys|
  {
    seq(|keys|, i requires 0 <= i < |keys| => Account(keys[i], false, writable))
  }

  lemma LoadedSnoc(tables: Tables, lookups: seq<Lookup>, l: Lookup, writable: bool)
    ensures LoadedFrom(tables, lookups + [l], writable) ==
            LoadedFrom(tables, lookups, writable)
            + Each2((i: nat) => tables(l.accountKey, i), if writable then l.writable else l.readonly)
  {
    assert (lookups + [l])[..|lookups|] == lookups;
  }

  method ResolveIndexes(before: seq<Account>, tables: Tables, table: string, indexes: seq<nat>, writable: bool)
    returns (resolved: seq<Account>)
    ensures resolved == before + Loaded(Each2((i: nat) => tables(table, i), indexes), writable)
  {
    resolved := before;
    for j := 0 to |indexes|
      invariant |resolved| == |before| + j && resolved[..|before|] == before
      invariant forall i :: 0 <= i < j ==> resolved[|before| + i] == Account(tables(table, indexes[i]), false, writable)
    {
      resolved := resolved + [Account(tables(table, indexes[j]), false, writable)];
    }
    assert resolved == resolved[..|before|] + resolved[|before|..];
  }

  method ResolveLookups(before: seq<Account>, tables: Tables, lookups: seq<Lookup>, writable: bool)
    returns (resolved: seq<Account>)
    ensures resolved == before + Loaded(LoadedFrom(tables, lookups, writable), writable)
  {
    hide LoadedFrom;
    resolved := before;
    assert LoadedFrom(tables, [], writable) == [] by {
      NothingLoaded(tables, writable);
    }
    for k := 0 to |lookups|
      invariant resolved == before + Loaded(LoadedFrom(tables, lookups[..k], writable), writable)
    {
      var l := lookups[k];
      ghost var added := Each2((i: nat) => tables(l.accountKey, i), if writable then l.writable else l.readonly);
      resolved := ResolveIndexes(resolved, tables, l.accountKey, if writable then l.writable else l.readonly, writable);
      assert lookups[..k + 1] == lookups[..k] + [l];
      LoadedSnoc(tables, lookups[..k], l, writable);
      LoadedAppend(LoadedFrom(tables, lookups[..k], writable), added, writable);
    }
    assert lookups[..|lookups|] == lookups;
  }

  /** Table by table, each table's addresses in the order of its indexes: the writable
      ones of every table first, in another call the readonly ones. */
  lemma LookupsLoadInOrder(tables: Tables, lookups: seq<Lookup>, l: Lookup, k: nat)
    ensures var before, after := LoadedFrom(tables, lookups, true), LoadedFrom(tables, lookups + [l], true);
            && after[..|after| - |l.writable|] == before
            && (k < |l.writable| ==> after[|before| + k] == tables(l.accountKey, l.writable[k]))
    ensures var before, after := LoadedFrom(tables, lookups, false), LoadedFrom(tables, lookups + [l], false);
            && after[..|after| - |l.readonly|] == before
            && (k < |l.readonly| ==> after[|before| + k] == tables(l.accountKey, l.readonly[k]))
  {
    hide LoadedFrom;
    LoadedSnoc(tables, lookups, l, true);
    LoadedSnoc(tables, lookups, l, false);
  }

  lemma NothingLoaded(tables: Tables, writable: bool)
    ensures LoadedFrom(tables, [], writable) == []
  {
  }

  lemma LoadedAppend(a: seq<string>, b: seq<string>, writable: bool)
    ensures Loaded(a + b, writable) == Loaded(a, writable) + Loaded(b, writable)
  {
  }

  /** Both tools give every account of the transaction the same key and flags, index by
      index, exactly when no loaded address falls inside the header's signer count. */
  lemma FlagsAgreeExactly(h: Header, statics: seq<string>, writable: seq<string>, readonly: seq<string>)
    ensures (forall i :: 0 <= i < |Pushed(h, statics, writable, readonly)| ==>
               Pushed(h, statics, writable, readonly)[i] ==
               Account(KeysOf(statics, writable, readonly)[i], SignerFlag(h, i),
                       WritableFlag(h, |statics|, |writable|, i)))
            <==> h.signatures <= |statics| || writable + readonly == []
  {
    var pushed, keys := Pushed(h, statics, writable, readonly), KeysOf(statics, writable, readonly);
    if h.signatures > |statics| && writable + readonly != [] {
      assert !pushed[|statics|].signer && SignerFlag(h, |statics|);
    } else {
      forall i | 0 <= i < |pushed|
        ensures pushed[i] == Account(keys[i], SignerFlag(h, i), WritableFlag(h, |statics|, |writable|, i)) {
      }
    }
  }
}
