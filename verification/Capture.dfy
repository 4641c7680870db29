/** Exact line splitting of a capture, and the window extracted from it: the loops
    keep every byte, and an extracted window splits back into the lines chosen. */
module Capture {
  import opened Bytes
  import opened Encoders

  const NEWLINE: byte := 0x0a
  const GAP_MS := 60 * 1000

  function ToNewline(b: seq<byte>): (k: nat)
    ensures k <= |b| && (forall i :: 0 <= i < k ==> b[i] != NEWLINE) && (k < |b| ==> b[k] == NEWLINE)
  {
    if b == [] || b[0] == NEWLINE then 0 else 1 + ToNewline(b[1..])
  }

  /** The lines of `b`, each with its terminator. */
  function Split(b: seq<byte>): seq<seq<byte>>
    decreases |b|
  {
    if b == [] then []
    else
      var k := ToNewline(b);
      if k == |b| then [b] else [b[..k + 1]] + Split(b[k + 1..])
  }

  function Flat(lines: seq<seq<byte>>): seq<byte> {
    if lines == [] then [] else lines[0] + Flat(lines[1..])
  }

  predicate Terminated(line: seq<byte>) {
    line != [] && line[|line| - 1] == NEWLINE
  }

  /** Nothing is empty, a terminator only ends a line, and only the last line may lack one. */
  predicate WellSplit(lines: seq<seq<byte>>) {
    forall k :: 0 <= k < |lines| ==>
      && lines[k] != []
      && (forall i :: 0 <= i < |lines[k]| - 1 ==> lines[k][i] != NEWLINE)
      && (k < |lines| - 1 ==> Terminated(lines[k]))
  }

  lemma FirstNewlineIs(b: seq<byte>, k: nat)
    requires k < |b| && b[k] == NEWLINE && forall i :: 0 <= i < k ==> b[i] != NEWLINE
    ensures ToNewline(b) == k
  {
  }

  lemma SplitStep(b: seq<byte>, k: nat)
    requires k < |b| && b[k] == NEWLINE && forall i :: 0 <= i < k ==> b[i] != NEWLINE
    ensures Split(b) == [b[..k + 1]] + Split(b[k + 1..])
  {
    hide ToNewline;
    FirstNewlineIs(b, k);
  }

  lemma SplitEnd(b: seq<byte>)
    requires forall i :: 0 <= i < |b| ==> b[i] != NEWLINE
    ensures Split(b) == if b == [] then [] else [b]
  {
  }

  lemma FlatCons(first: seq<byte>, rest: seq<seq<byte>>)
    ensures Flat([first] + rest) == first + Flat(rest)
  {
    assert ([first] + rest)[1..] == rest;
  }

  lemma WellSplitCons(first: seq<byte>, rest: seq<seq<byte>>)
    requires Terminated(first) && (forall i :: 0 <= i < |first| - 1 ==> first[i] != NEWLINE) && WellSplit(rest)
    ensures WellSplit([first] + rest)
  {
  }

  /** Splitting loses nothing and yields proper lines. */
  lemma {:induction false} SplitKeepsEveryByte(b: seq<byte>)
    ensures Flat(Split(b)) == b && WellSplit(Split(b))
    decreases |b|
  {
    hide Split, Flat, WellSplit;
    var k := ToNewline(b);
    if k < |b| {
      var first, rest := b[..k + 1], b[k + 1..];
      SplitKeepsEveryByte(rest);
      SplitStep(b, k);
      FlatCons(first, Split(rest));
      WellSplitCons(first, Split(rest));
      assert b == first + rest;
    } else {
      SplitEnd(b);
      OneLine(b);
    }
  }

  lemma OneLine(b: seq<byte>)
    requires forall i :: 0 <= i < |b| ==> b[i] != NEWLINE
    ensures var lines := if b == [] then [] else [b]; Flat(lines) == b && WellSplit(lines)
  {
    if b != [] {
      assert [b][1..] == [];
    }
  }

  /** Joining lines and splitting again gives the same lines exactly when they are proper lines. */
  lemma {:induction false} SplitOfFlatExactly(lines: seq<seq<byte>>)
    ensures Split(Flat(lines)) == lines <==> WellSplit(lines)
  {
    SplitKeepsEveryByte(Flat(lines));
    if WellSplit(lines) {
      SplitOfFlat(lines);
    }
  }

  lemma {:induction false} SplitOfFlat(lines: seq<seq<byte>>)
    requires WellSplit(lines)
    ensures Split(Flat(lines)) == lines
  {
    hide Split, Flat, WellSplit;
    if lines == [] {
      NoLines();
    } else {
      var first, rest := lines[0], lines[1..];
      assert lines == [first] + rest;
      FirstOfWellSplit(lines);
      FlatCons(first, rest);
      SplitOfFlat(rest);
      var b := first + Flat(rest);
      if Terminated(first) {
        assert b[..|first|] == first && b[|first|..] == Flat(rest);
        SplitStep(b, |first| - 1);
      } else {
        NoLines();
        assert b == first;
        SplitEnd(b);
      }
    }
  }

  lemma NoLines()
    ensures Flat([]) == [] && Split([]) == []
  {
  }

  lemma FirstOfWellSplit(lines: seq<seq<byte>>)
    requires WellSplit(lines) && lines != []
    ensures WellSplit(lines[1..])
    ensures lines[0] != [] && forall i :: 0 <= i < |lines[0]| - 1 ==> lines[0][i] != NEWLINE
    ensures !Terminated(lines[0]) ==> lines[1..] == []
  {
  }

  /** `splitLinesExact`. */
  method SplitLinesExact(bytes: seq<byte>) returns (lines: seq<seq<byte>>)
    ensures lines == Split(bytes)
  {
    hide Split;
    lines := [];
    var start := 0;
    assert bytes[0..] == bytes;
    for i := 0 to |bytes|
      invariant start <= i && lines + Split(bytes[start..]) == Split(bytes)
      invariant forall j :: start <= j < i ==> bytes[j] != NEWLINE
    {
      if bytes[i] == NEWLINE {
        ghost var rest := bytes[start..];
        SplitStep(rest, i - start);
        assert rest[..i - start + 1] == bytes[start..i + 1] && rest[i - start + 1..] == bytes[i + 1..];
        lines := lines + [bytes[start..i + 1]];
        start := i + 1;
      }
    }
    SplitEnd(bytes[start..]);
    if start < |bytes| {
      lines := lines + [bytes[start..]];
    }
  }

  function Newlines(b: seq<byte>): nat {
    if b == [] then 0 else (if b[0] == NEWLINE then 1 else 0) + Newlines(b[1..])
  }

  lemma {:induction false} NewlinesSplit(a: seq<byte>, b: seq<byte>)
    ensures Newlines(a + b) == Newlines(a) + Newlines(b)
  {
    if a == [] {
      assert a + b == b;
    } else {
      assert (a + b)[1..] == a[1..] + b;
      NewlinesSplit(a[1..], b);
    }
  }

  lemma {:induction false} NoNewlines(b: seq<byte>)
    requires forall i :: 0 <= i < |b| ==> b[i] != NEWLINE
    ensures Newlines(b) == 0
  {
    if b != [] {
      NoNewlines(b[1..]);
    }
  }

  /** One line per terminator, and one more for an unterminated end. */
  lemma {:induction false} LineCount(b: seq<byte>)
    ensures |Split(b)| == Newlines(b) + if b == [] || b[|b| - 1] == NEWLINE then 0 else 1
    decreases |b|
  {
    if b != [] {
      var k := ToNewline(b);
      if k < |b| {
        var head, rest := b[..k + 1], b[k + 1..];
        assert b == head + rest && head == b[..k] + [NEWLINE];
        NewlinesSplit(head, rest);
        NewlinesSplit(b[..k], [NEWLINE]);
        NoNewlines(b[..k]);
        assert Newlines([NEWLINE]) == 1;
        LineCount(rest);
      } else {
        NoNewlines(b);
      }
    }
  }

  /** `countLines`: agrees with the splitter on every input. */
  method CountLines(bytes: seq<byte>) returns (lines: nat, trailingNewline: bool)
    ensures lines == |Split(bytes)|
    ensures trailingNewline <==> bytes == [] || bytes[|bytes| - 1] == NEWLINE
  {
    var newlines := 0;
    for i := 0 to |bytes|
      invariant newlines == Newlines(bytes[..i])
    {
      assert bytes[..i + 1] == bytes[..i] + [bytes[i]];
      NewlinesSplit(bytes[..i], [bytes[i]]);
      if bytes[i] == NEWLINE {
        newlines := newlines + 1;
      }
    }
    assert bytes[..|bytes|] == bytes;
    trailingNewline := bytes == [] || bytes[|bytes| - 1] == NEWLINE;
    LineCount(bytes);
    lines := newlines + if trailingNewline then 0 else 1;
  }

  // ------------------------------------------------------------- the window

  /** What a line decodes to. */
  datatype Stamp = Stamp(wallclock: string, ms: int, slot: Option<int>)
  datatype Line = Blank | Unplaceable | Placed(stamp: Stamp, symbols: set<string>)

  /** The reader of lines and the bounds of the window; no symbols means every symbol. */
  datatype Query = Query(read: seq<byte> -> Line, startMs: int, endMs: int, symbols: Option<set<string>>)

  predicate Chosen(q: Query, line: seq<byte>) {
    && q.read(line).Placed? && q.startMs <= q.read(line).stamp.ms < q.endMs
    && (q.symbols.Some? ==> q.read(line).symbols * q.symbols.value != {})
  }

  function Selected(q: Query, lines: seq<seq<byte>>): (s: seq<seq<byte>>)
    ensures forall k :: 0 <= k < |s| ==> Chosen(q, s[k])
  {
    if lines == [] then []
    else
      Selected(q, lines[..|lines| - 1])
      + if Chosen(q, lines[|lines| - 1]) then [lines[|lines| - 1]] else []
  }

  function UnplaceableIn(q: Query, lines: seq<seq<byte>>): nat {
    if lines == [] then 0
    else
      UnplaceableIn(q, lines[..|lines| - 1]) + if q.read(lines[|lines| - 1]).Unplaceable? then 1 else 0
  }

  datatype Gap = Gap(from: Stamp, to: Stamp)

  /** Consecutive selected lines at least the threshold apart. */
  function GapsOf(stamps: seq<Stamp>): seq<Gap> {
    if |stamps| < 2 then []
    else
      var a, b := stamps[|stamps| - 2], stamps[|stamps| - 1];
      GapsOf(stamps[..|stamps| - 1]) + if b.ms - a.ms >= GAP_MS then [Gap(a, b)] else []
  }

  function StampsOf(q: Query, selected: seq<seq<byte>>): (s: seq<Stamp>)
    requires forall k :: 0 <= k < |selected| ==> q.read(selected[k]).Placed?
    ensures |s| == |selected|
  {
    seq(|selected|, k requires 0 <= k < |selected| => q.read(selected[k]).stamp)
  }

  datatype Window = Window(bytes: seq<byte>, first: Option<Stamp>, last: Option<Stamp>, gaps: seq<Gap>,
                           unplaceable: nat)

  lemma SelectedSnoc(q: Query, lines: seq<seq<byte>>, line: seq<byte>)
    ensures Selected(q, lines + [line]) == Selected(q, lines) + if Chosen(q, line) then [line] else []
    ensures UnplaceableIn(q, lines + [line]) == UnplaceableIn(q, lines) + if q.read(line).Unplaceable? then 1 else 0
  {
    assert (lines + [line])[..|lines|] == lines;
  }

  /** What is chosen: the lines that can be placed from the start of the window up to its
      end, and that share a symbol with the query if it names any. */
  lemma {:induction false} SelectedExactly(q: Query, lines: seq<seq<byte>>, line: seq<byte>)
    ensures line in Selected(q, lines) <==>
            && line in lines && q.read(line).Placed?
            && q.startMs <= q.read(line).stamp.ms && q.read(line).stamp.ms < q.endMs
            && (q.symbols.None? || exists s :: s in q.symbols.value && s in q.read(line).symbols)
  {
    if lines != [] {
      var init, last := lines[..|lines| - 1], lines[|lines| - 1];
      assert lines == init + [last];
      SelectedExactly(q, init, line);
      SelectedSnoc(q, init, last);
      if line == last && q.read(line).Placed? && q.symbols.Some? {
        var both := q.read(line).symbols * q.symbols.value;
        assert both != {} ==> exists s :: s in both;
        assert forall s :: s in both <==> s in q.symbols.value && s in q.read(line).symbols;
      }
    }
  }

  /** The unplaceable lines are counted one by one. */
  lemma {:induction false} UnplaceableExactly(q: Query, lines: seq<seq<byte>>)
    ensures UnplaceableIn(q, lines) == |UnplaceableAt(q, lines)|
  {
    if lines == [] {
      NothingSelected(q);
    } else {
      hide UnplaceableAt;
      var init, last := lines[..|lines| - 1], lines[|lines| - 1];
      assert lines == init + [last];
      UnplaceableExactly(q, init);
      OneMoreUnplaceable(q, init, last);
    }
  }

  /** Where they stand. */
  ghost function UnplaceableAt(q: Query, lines: seq<seq<byte>>): set<nat> {
    set k: nat | k < |lines| && q.read(lines[k]).Unplaceable?
  }

  lemma OneMoreUnplaceable(q: Query, lines: seq<seq<byte>>, line: seq<byte>)
    ensures |UnplaceableAt(q, lines + [line])| ==
            |UnplaceableAt(q, lines)| + if q.read(line).Unplaceable? then 1 else 0
  {
    assert UnplaceableAt(q, lines + [line]) ==
           UnplaceableAt(q, lines) + if q.read(line).Unplaceable? then {|lines|} else {};
  }

  predicate IsGap(stamps: seq<Stamp>, k: nat, g: Gap)
    requires 0 < k < |stamps|
  {
    g == Gap(stamps[k - 1], stamps[k]) && stamps[k].ms - stamps[k - 1].ms >= 60_000
  }

  /** A gap is between neighbours, and at least a minute. */
  lemma {:induction false} GapsExactly(stamps: seq<Stamp>, g: Gap)
    ensures g in GapsOf(stamps) <==> exists k :: 0 < k < |stamps| && IsGap(stamps, k, g)
  {
    if |stamps| >= 2 {
      var init := stamps[..|stamps| - 1];
      GapsExactly(init, g);
      assert forall k :: 0 < k < |init| ==> (IsGap(init, k, g) <==> IsGap(stamps, k, g));
      assert g in GapsOf(stamps) <==> g in GapsOf(init) || IsGap(stamps, |stamps| - 1, g);
    }
  }

  lemma GapsSnoc(stamps: seq<Stamp>, next: Stamp)
    ensures GapsOf(stamps + [next]) ==
            GapsOf(stamps) + if stamps != [] && next.ms - stamps[|stamps| - 1].ms >= GAP_MS
                             then [Gap(stamps[|stamps| - 1], next)] else []
  {
    assert (stamps + [next])[..|stamps|] == stamps;
  }

  lemma {:induction false} FlatIsConcat(lines: seq<seq<byte>>)
    ensures Concat(lines) == Flat(lines)
  {
    if lines != [] {
      ConcatFirst(lines);
      FlatIsConcat(lines[1..]);
    }
  }

  lemma {:induction false} ConcatFirst(lines: seq<seq<byte>>)
    requires lines != []
    ensures Concat(lines) == lines[0] + Concat(lines[1..])
  {
    hide Concat;
    NoParts();
    if |lines| == 1 {
      assert lines == [] + [lines[0]] && lines[1..] == [];
      ConcatSnoc([], lines[0]);
    } else {
      var init, last := lines[..|lines| - 1], lines[|lines| - 1];
      assert lines == init + [last] && lines[1..] == init[1..] + [last];
      ConcatFirst(init);
      ConcatSnoc(init, last);
      ConcatSnoc(init[1..], last);
    }
  }

  /** What the selection keeps of a proper list of lines is a proper list of lines. */
  lemma {:induction false} SelectionIsWellSplit(q: Query, lines: seq<seq<byte>>)
    requires WellSplit(lines)
    ensures WellSplit(Selected(q, lines))
    ensures forall k :: 0 <= k < |Selected(q, lines)| ==> Selected(q, lines)[k] in lines
    ensures (forall k :: 0 <= k < |lines| ==> Terminated(lines[k])) ==>
              forall k :: 0 <= k < |Selected(q, lines)| ==> Terminated(Selected(q, lines)[k])
  {
    if lines != [] {
      var init, last := lines[..|lines| - 1], lines[|lines| - 1];
      assert lines == init + [last];
      SelectionIsWellSplit(q, init);
      SelectedSnoc(q, init, last);
    }
  }

  /** The selection, gap and concatenation loops: the window holds the chosen lines
      byte for byte, in order, and splits back into exactly them. */
  method ExtractWindow(bytes: seq<byte>, q: Query) returns (w: Window)
    ensures var selected := Selected(q, Split(bytes));
            && w.bytes == Flat(selected) && Split(w.bytes) == selected
            && w.first == (if selected == [] then None else Some(q.read(selected[0]).stamp))
            && w.last == (if selected == [] then None else Some(q.read(selected[|selected| - 1]).stamp))
            && w.gaps == GapsOf(StampsOf(q, selected))
            && w.unplaceable == UnplaceableIn(q, Split(bytes))
  {
    hide Split, Selected, UnplaceableIn, GapsOf, Concat, Flat;
    var lines := SplitLinesExact(bytes);
    var selected: seq<seq<byte>> := [];
    var gaps: seq<Gap> := [];
    var unplaceable := 0;
    var first: Option<Stamp>, last: Option<Stamp> := None, None;
    NothingSelected(q);
    for k := 0 to |lines|
      invariant selected == Selected(q, lines[..k]) && unplaceable == UnplaceableIn(q, lines[..k])
      invariant first == (if selected == [] then None else Some(q.read(selected[0]).stamp))
      invariant last == (if selected == [] then None else Some(q.read(selected[|selected| - 1]).stamp))
      invariant gaps == GapsOf(StampsOf(q, selected))
    {
      var line := lines[k];
      assert lines[..k + 1] == lines[..k] + [line];
      SelectedSnoc(q, lines[..k], line);
      match q.read(line)
      case Blank => continue;
      case Unplaceable =>
        unplaceable := unplaceable + 1;
        continue;
      case Placed(stamp, symbols) =>
        if stamp.ms < q.startMs || stamp.ms >= q.endMs {
          continue;
        }
        if q.symbols.Some? && symbols * q.symbols.value == {} {
          continue;
        }
        GapsSnoc(StampsOf(q, selected), stamp);
        assert StampsOf(q, selected + [line]) == StampsOf(q, selected) + [stamp];
        if last.Some? && stamp.ms - last.value.ms >= GAP_MS {
          gaps := gaps + [Gap(last.value, stamp)];
        }
        if first.None? {
          first := Some(stamp);
        }
        last := Some(stamp);
        selected := selected + [line];
    }
    assert lines[..|lines|] == lines;
    var out := JoinParts(selected);
    FlatIsConcat(selected);
    SplitKeepsEveryByte(bytes);
    SelectionIsWellSplit(q, lines);
    SplitOfFlat(selected);
    w := Window(out[..], first, last, gaps, unplaceable);
  }

  lemma NothingSelected(q: Query)
    ensures Selected(q, []) == [] && UnplaceableIn(q, []) == 0 && GapsOf([]) == []
  {
  }
}
