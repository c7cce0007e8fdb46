/** What the emitted programs compute, and exactly when they rebuild the script they were cut from. */
module VaultTemplateMeaning {
  import opened Wrappers
  import opened Bytes
  import opened VaultTemplates
  import P = PushScript

  /** The state of a running program: its output so far and the two recorded offsets. */
  datatype Machine = Machine(out: bytes, start: Option<nat>, end: Option<nat>)

  /** The script builder's push of each parameter. */
  type Pushes = Slot -> bytes

  const INITIAL := Machine([], None, None)

  function Exec(i: Instruction, m: Machine, push: Pushes): Machine {
    match i
    case MarkStart => m.(start := Some(|m.out|))
    case MarkEnd => m.(end := Some(|m.out|))
    case Literal(data) => m.(out := m.out + data)
    case PushSlot(slot) => m.(out := m.out + push(slot))
  }

  function Run(program: seq<Instruction>, m: Machine, push: Pushes): Machine
    decreases |program|
  {
    if program == [] then m else Run(program[1..], Exec(program[0], m, push), push)
  }

  lemma {:induction false} RunConcat(a: seq<Instruction>, b: seq<Instruction>, m: Machine, push: Pushes)
    ensures Run(a + b, m, push) == Run(b, Run(a, m, push), push)
    decreases |a|
  {
    if a == [] {
      assert a + b == b;
    } else {
      assert (a + b)[1..] == a[1..] + b;
      RunConcat(a[1..], b, Exec(a[0], m, push), push);
    }
  }

  lemma RunOne(i: Instruction, m: Machine, push: Pushes)
    ensures Run([i], m, push) == Exec(i, m, push)
  {
    assert [i][1..] == [];
  }

  /** The code from `cursor` on, with each region replaced by the push of its parameter. */
  function Substituted(code: bytes, regions: seq<Region>, cursor: nat, push: Pushes): bytes
    requires Ordered(code, regions, cursor)
  {
    OrderedEnds(code, regions, cursor);
    if regions == [] then code[cursor..]
    else code[cursor..regions[0].start] + push(regions[0].slot)
         + Substituted(code, regions[1..], regions[0].end, push)
  }

  function EndingBy(regions: seq<Region>, p: nat): seq<Region> {
    if regions == [] || regions[0].end > p then [] else [regions[0]] + EndingBy(regions[1..], p)
  }

  /** Where position `p` of the code ends up: how long the substituted code before it is. */
  function Moved(code: bytes, regions: seq<Region>, cursor: nat, p: nat, push: Pushes): nat
    requires Ordered(code, regions, cursor) && cursor <= p
  {
    if regions == [] || p < regions[0].end then p - cursor
    else regions[0].start - cursor + |push(regions[0].slot)| + Moved(code, regions[1..], regions[0].end, p, push)
  }

  lemma {:induction false} MovedIsPrefixLength(code: bytes, regions: seq<Region>, cursor: nat, p: nat, push: Pushes)
    requires Ordered(code, regions, cursor) && cursor <= p <= |code|
    ensures Ordered(code[..p], EndingBy(regions, p), cursor)
    ensures |Substituted(code[..p], EndingBy(regions, p), cursor, push)| == Moved(code, regions, cursor, p, push)
  {
    if regions != [] && regions[0].end <= p {
      MovedIsPrefixLength(code, regions[1..], regions[0].end, p, push);
      assert EndingBy(regions, p)[1..] == EndingBy(regions[1..], p);
    }
  }

  // ----- running a chunk ------------------------------------------------------------------------------

  /** The mark of `position` after passing `here` with this much output. */
  function Marked(previous: Option<nat>, position: nat, here: nat, out: bytes): Option<nat> {
    if position == here then Some(|out|) else previous
  }

  lemma RunMark(here: nat, l: Layout, m: Machine, push: Pushes)
    ensures Run(Mark(here, l), m, push)
         == Machine(m.out, Marked(m.start, l.start, here, m.out), Marked(m.end, l.end, here, m.out))
  {
    RunOne(MarkStart, m, push);
    RunOne(MarkEnd, m, push);
    RunConcat([MarkStart], [MarkEnd], m, push);
    RunOne(MarkEnd, Exec(MarkStart, m, push), push);
    assert [] + [MarkEnd] == [MarkEnd] && [MarkStart] + [] == [MarkStart];
    var none: seq<Instruction> := [];
    assert none + none == none;
  }

  lemma RunPiece(code: bytes, from: nat, to: nat, m: Machine, push: Pushes)
    requires from <= to <= |code|
    ensures Run(Piece(code, from, to), m, push) == m.(out := m.out + code[from..to])
  {
    if from < to {
      RunOne(Literal(code[from..to]), m, push);
    } else {
      assert m.out + code[from..to] == m.out;
    }
  }

  ghost predicate Ascending(cursor: nat, cuts: seq<nat>) {
    && cuts != [] && cursor <= cuts[0]
    && forall i, j :: 0 <= i < j < |cuts| ==> cuts[i] < cuts[j]
  }

  /** Position `p` is one of those where the loop over the cuts emits a mark. */
  predicate Passed(cursor: nat, cuts: seq<nat>, p: nat)
    requires cuts != []
  {
    p == cursor || p in cuts[..|cuts| - 1]
  }

  /** The mark of `position` once the pieces between `cursor` and the cuts are out. */
  function MarkedBy(previous: Option<nat>, position: nat, cursor: nat, cuts: seq<nat>, out: bytes): Option<nat>
    requires cuts != []
  {
    if cursor <= position && Passed(cursor, cuts, position) then Some(|out| + (position - cursor)) else previous
  }

  lemma MarkedNext(previous: Option<nat>, position: nat, cursor: nat, cuts: seq<nat>, code: bytes, out: bytes)
    requires |cuts| > 1 && Ascending(cursor, cuts) && cuts[0] <= |code|
    ensures MarkedBy(Marked(previous, position, cursor, out), position, cuts[0], cuts[1..], out + code[cursor..cuts[0]])
         == MarkedBy(previous, position, cursor, cuts, out)
  {
    hide Passed;
    PassedTail(cursor, cuts, position);
  }

  function PiecesDone(code: bytes, cursor: nat, cuts: seq<nat>, l: Layout, m: Machine): Machine
    requires cuts != [] && cursor <= cuts[|cuts| - 1] <= |code|
  {
    Machine(m.out + code[cursor..cuts[|cuts| - 1]],
            MarkedBy(m.start, l.start, cursor, cuts, m.out), MarkedBy(m.end, l.end, cursor, cuts, m.out))
  }

  lemma {:induction false} RunPieces(code: bytes, cursor: nat, cuts: seq<nat>, l: Layout, m: Machine, push: Pushes)
    requires Ascending(cursor, cuts) && cuts[|cuts| - 1] <= |code|
    ensures cursor <= cuts[|cuts| - 1] && forall k :: 0 <= k < |cuts| ==> cuts[k] <= |code|
    ensures Run(Pieces(code, cursor, cuts, l), m, push) == PiecesDone(code, cursor, cuts, l, m)
    decreases |cuts|
  {
    assert cuts != [];
    hide Run, Mark, Piece, Passed, Ascending, MarkedBy, Marked, PiecesDone;
    CutsWithin(code, cursor, cuts);
    var first := Mark(cursor, l) + Piece(code, cursor, cuts[0]);
    var rest := Pieces(code, cuts[0], cuts[1..], l);
    assert Pieces(code, cursor, cuts, l) == first + rest;
    RunCut(code, cursor, cuts[0], l, m, push);
    RunConcat(first, rest, m, push);
    var mid := Run(first, m, push);
    if |cuts| > 1 {
      AscendingTail(cursor, cuts);
      RunPieces(code, cuts[0], cuts[1..], l, mid, push);
      MorePieces(code, cursor, cuts, l, m);
    } else {
      assert rest == [] && cuts == [cuts[0]];
      RunNothing(mid, push);
      OnePiece(code, cursor, cuts[0], l, m);
    }
  }

  /** The state after the piece up to `n` and the mark before it. */
  function AfterCut(code: bytes, cursor: nat, n: nat, l: Layout, m: Machine): Machine
    requires cursor <= n <= |code|
  {
    Machine(m.out + code[cursor..n], Marked(m.start, l.start, cursor, m.out), Marked(m.end, l.end, cursor, m.out))
  }

  lemma OnePiece(code: bytes, cursor: nat, cut: nat, l: Layout, m: Machine)
    requires cursor <= cut <= |code|
    ensures PiecesDone(code, cursor, [cut], l, m) == AfterCut(code, cursor, cut, l, m)
  {
    hide MarkedBy, Marked;
    MarkedOnly(m.start, l.start, cursor, cut, m.out);
    MarkedOnly(m.end, l.end, cursor, cut, m.out);
  }

  lemma MorePieces(code: bytes, cursor: nat, cuts: seq<nat>, l: Layout, m: Machine)
    requires |cuts| > 1 && Ascending(cursor, cuts) && cursor <= cuts[0] <= cuts[|cuts| - 1] <= |code|
    ensures PiecesDone(code, cuts[0], cuts[1..], l, AfterCut(code, cursor, cuts[0], l, m))
         == PiecesDone(code, cursor, cuts, l, m)
  {
    hide MarkedBy, Marked, Ascending;
    MarkedNext(m.start, l.start, cursor, cuts, code, m.out);
    MarkedNext(m.end, l.end, cursor, cuts, code, m.out);
    assert m.out + code[cursor..cuts[0]] + code[cuts[0]..cuts[|cuts| - 1]] == m.out + code[cursor..cuts[|cuts| - 1]];
  }

  lemma MarkedOnly(previous: Option<nat>, position: nat, cursor: nat, cut: nat, out: bytes)
    ensures MarkedBy(previous, position, cursor, [cut], out) == Marked(previous, position, cursor, out)
  {
    PassedOnly(cursor, cut, position);
  }

  lemma CutsWithin(code: bytes, cursor: nat, cuts: seq<nat>)
    requires Ascending(cursor, cuts) && cuts[|cuts| - 1] <= |code|
    ensures cursor <= cuts[0] <= cuts[|cuts| - 1] && forall k :: 0 <= k < |cuts| ==> cuts[k] <= |code|
  {
    forall k | 0 <= k < |cuts| ensures cuts[k] <= |code| {
      if k < |cuts| - 1 {
        assert cuts[k] < cuts[|cuts| - 1];
      }
    }
  }

  lemma AscendingTail(cursor: nat, cuts: seq<nat>)
    requires |cuts| > 1 && Ascending(cursor, cuts)
    ensures Ascending(cuts[0], cuts[1..]) && cuts[0] < cuts[|cuts| - 1]
  {
  }

  lemma PassedOnly(cursor: nat, cut: nat, p: nat)
    ensures Passed(cursor, [cut], p) <==> p == cursor
  {
    assert [cut][..0] == [];
  }

  lemma RunNothing(m: Machine, push: Pushes)
    ensures Run([], m, push) == m
  {
  }

  lemma RunCut(code: bytes, cursor: nat, n: nat, l: Layout, m: Machine, push: Pushes)
    requires cursor <= n <= |code|
    ensures Run(Mark(cursor, l) + Piece(code, cursor, n), m, push)
         == AfterCut(code, cursor, n, l, m)
  {
    hide Run, Mark, Piece;
    RunMark(cursor, l, m, push);
    RunPiece(code, cursor, n, Run(Mark(cursor, l), m, push), push);
    RunConcat(Mark(cursor, l), Piece(code, cursor, n), m, push);
  }

  lemma PassedTail(cursor: nat, cuts: seq<nat>, p: nat)
    requires |cuts| > 1 && Ascending(cursor, cuts)
    ensures Passed(cursor, cuts, p) <==> p == cursor || Passed(cuts[0], cuts[1..], p)
    ensures Passed(cuts[0], cuts[1..], p) ==> p >= cuts[0]
  {
    assert cuts[..|cuts| - 1] == [cuts[0]] + cuts[1..][..|cuts| - 2];
    if p in cuts[1..][..|cuts| - 2] {
      var k :| 0 <= k < |cuts| - 2 && cuts[1..][k] == p;
      assert cuts[k + 1] == p && cuts[0] < cuts[k + 1];
    }
  }

  lemma RunChunk(code: bytes, start: nat, end: nat, l: Layout, m: Machine, push: Pushes)
    requires start <= end <= |code|
    ensures var after := Run(Chunk(code, start, end, l), m, push);
            && after.out == m.out + code[start..end]
            && after.start == (if l.start == start || start < l.start < end then Some(|m.out| + (l.start - start))
                               else m.start)
            && after.end == (if l.end == start || start < l.end < end then Some(|m.out| + (l.end - start)) else m.end)
  {
    hide Cuts, Pieces;
    CutsAre(start, end, l);
    CutsBounded(start, end, l);
    var cuts := Cuts(start, end, l);
    RunPieces(code, start, cuts, l, m, push);
    assert cuts[..|cuts| - 1] == (if |cuts| == 1 then [] else if |cuts| == 2 then [cuts[0]] else [cuts[0], cuts[1]]);
  }

  // ----- running the whole program -----------------------------------------------------------------------

  /** The recorded offset of layout position `p`, when the emission starts at `cursor`. */
  function Recorded(code: bytes, regions: seq<Region>, cursor: nat, p: nat, m: Machine, previous: Option<nat>,
                    push: Pushes): Option<nat>
    requires Ordered(code, regions, cursor)
  {
    if cursor <= p <= |code| then Some(|m.out| + Moved(code, regions, cursor, p, push)) else previous
  }

  lemma {:induction false} RunEmitted(code: bytes, regions: seq<Region>, cursor: nat, l: Layout, m: Machine,
                                      push: Pushes)
    requires Ordered(code, regions, cursor) && EmitFrom(code, regions, cursor, l).Some?
    ensures Run(EmitFrom(code, regions, cursor, l).value, m, push)
         == Machine(m.out + Substituted(code, regions, cursor, push),
                    Recorded(code, regions, cursor, l.start, m, m.start, push),
                    Recorded(code, regions, cursor, l.end, m, m.end, push))
    decreases |regions|
  {
    hide Run, Chunk, Mark, Exec;
    OrderedEnds(code, regions, cursor);
    if regions == [] {
      var chunk, tail := Chunk(code, cursor, |code|, l), Mark(|code|, l);
      RunChunk(code, cursor, |code|, l, m, push);
      RunMark(|code|, l, Run(chunk, m, push), push);
      RunConcat(chunk, tail, m, push);
    } else {
      var r := regions[0];
      var head := Chunk(code, cursor, r.start, l) + Mark(r.start, l) + [PushSlot(r.slot)];
      var rest := EmitFrom(code, regions[1..], r.end, l).value;
      RunHead(code, cursor, r, l, m, push);
      RunConcat(head, rest, m, push);
      var mid := Run(head, m, push);
      RunEmitted(code, regions[1..], r.end, l, mid, push);
      assert m.out + code[cursor..r.start] + push(r.slot) + Substituted(code, regions[1..], r.end, push)
          == m.out + Substituted(code, regions, cursor, push);
    }
  }

  /** Passing a region that no layout boundary splits: everything in `cursor .. end` gets its mark. */
  lemma RunHead(code: bytes, cursor: nat, r: Region, l: Layout, m: Machine, push: Pushes)
    requires cursor <= r.start < r.end <= |code| && !Splits(r, l.start) && !Splits(r, l.end)
    ensures var after := Run(Chunk(code, cursor, r.start, l) + Mark(r.start, l) + [PushSlot(r.slot)], m, push);
            && after.out == m.out + code[cursor..r.start] + push(r.slot)
            && after.start == (if cursor <= l.start < r.end then Some(|m.out| + (l.start - cursor)) else m.start)
            && after.end == (if cursor <= l.end < r.end then Some(|m.out| + (l.end - cursor)) else m.end)
  {
    hide Run, Chunk, Mark, Exec;
    var chunk, mark, slot := Chunk(code, cursor, r.start, l), Mark(r.start, l), [PushSlot(r.slot)];
    RunChunk(code, cursor, r.start, l, m, push);
    var m1 := Run(chunk, m, push);
    RunMark(r.start, l, m1, push);
    RunSlot(r.slot, Run(mark, m1, push), push);
    RunConcat(chunk, mark, m, push);
    RunConcat(chunk + mark, slot, m, push);
  }

  lemma RunSlot(slot: Slot, m: Machine, push: Pushes)
    ensures Run([PushSlot(slot)], m, push) == m.(out := m.out + push(slot))
  {
    RunOne(PushSlot(slot), m, push);
  }

  /**
   The emitted program, run with any parameters, rebuilds the script with every matched push replaced, and
   records each layout boundary at the length of the substituted code before it. The two offsets are set,
   so unwrapping them cannot fail, exactly when the layout lies within the script.
   */
  lemma ProgramMeaning(kind: Kind, code: bytes, l: Layout, push: Pushes)
    requires Generated(kind, code, l).Some?
    ensures RegionsFrom(code, 0).Some? && Ordered(code, RegionsFrom(code, 0).value, 0)
    ensures var regions := RegionsFrom(code, 0).value;
            var result := Run(Generated(kind, code, l).value, INITIAL, push);
            && result.out == Substituted(code, regions, 0, push)
            && (result.start.Some? <==> l.start <= |code|)
            && (result.end.Some? <==> l.end <= |code|)
            && (l.start <= |code| ==> result.start.value == Moved(code, regions, 0, l.start, push))
            && (l.end <= |code| ==> result.end.value == Moved(code, regions, 0, l.end, push))
  {
    hide Run, EmitFrom, Substituted, Moved, RegionsFrom;
    RegionsAreOrdered(code, 0);
    var regions := RegionsFrom(code, 0).value;
    RunEmitted(code, regions, 0, l, INITIAL, push);
    assert [] + Substituted(code, regions, 0, push) == Substituted(code, regions, 0, push);
  }

  // ----- running it with the original parameters -----------------------------------------------------------

  /** The builder's push of a marker: short data gets a one-byte length. */
  function OriginalPush(slot: Slot): bytes {
    MarkersDiffer();
    [|Marker(slot)|] + Marker(slot)
  }

  /** A region written in that shortest form. */
  predicate IsDirect(code: bytes, r: Region) {
    r.start < |code| && code[r.start] <= 75
  }

  /** A region spells out its marker after a length prefix, the shortest of which is one byte. */
  ghost predicate IsPush(code: bytes, r: Region) {
    && r.start < r.end <= |code|
    && (IsDirect(code, r) ==> code[r.start..r.end] == OriginalPush(r.slot))
    && (!IsDirect(code, r) ==> r.end - r.start > |OriginalPush(r.slot)|)
  }

  lemma RegionIsPush(code: bytes, i: nat)
    requires i < |code| && Operand(code, i).Some?
    requires var (at, length) := Operand(code, i).value; 0 < length && at + length <= |code|
    ensures var (at, length) := Operand(code, i).value;
            forall r :: r in RegionsAt(code, i, at, length) ==> IsPush(code, r)
  {
    hide Matches, Marker;
    var (at, length) := Operand(code, i).value;
    MatchesOne(i, at + length, code[at..at + length]);
    forall r | r in RegionsAt(code, i, at, length) ensures IsPush(code, r) {
      if IsDirect(code, r) {
        assert code[i..at + length] == [code[i]] + code[at..at + length];
      }
    }
  }

  lemma {:induction false} AllRegionsArePushes(code: bytes, i: nat)
    requires i <= |code| && RegionsFrom(code, i).Some?
    ensures forall r :: r in RegionsFrom(code, i).value ==> IsPush(code, r)
    decreases |code| - i
  {
    hide Matches, IsPush;
    if i < |code| {
      var (at, length) := Operand(code, i).value;
      AllRegionsArePushes(code, at + length);
      if length > 0 {
        RegionIsPush(code, i);
      }
    }
  }

  lemma {:induction false} SubstitutedOriginal(code: bytes, regions: seq<Region>, cursor: nat)
    requires Ordered(code, regions, cursor) && forall r :: r in regions ==> IsPush(code, r)
    ensures cursor <= |code|
    ensures (forall r :: r in regions ==> IsDirect(code, r)) ==>
              Substituted(code, regions, cursor, OriginalPush) == code[cursor..]
    ensures (exists r :: r in regions && !IsDirect(code, r)) ==>
              |Substituted(code, regions, cursor, OriginalPush)| < |code| - cursor
    decreases |regions|
  {
    hide OriginalPush;
    OrderedEnds(code, regions, cursor);
    if regions != [] {
      var r, rest := regions[0], Substituted(code, regions[1..], regions[0].end, OriginalPush);
      assert regions == [r] + regions[1..] && IsPush(code, r);
      SubstitutedOriginal(code, regions[1..], r.end);
      var whole := Substituted(code, regions, cursor, OriginalPush);
      if IsDirect(code, r) {
        assert whole == code[cursor..r.start] + code[r.start..r.end] + rest;
        assert whole[r.end - cursor..] == rest && code[cursor..][r.end - cursor..] == code[r.end..];
        assert code[cursor..] == code[cursor..r.start] + code[r.start..r.end] + code[r.end..];
      }
    }
  }

  lemma {:induction false} DirectStays(code: bytes, regions: seq<Region>, cursor: nat, p: nat)
    requires Ordered(code, regions, cursor) && cursor <= p
    requires forall r :: r in regions ==> IsPush(code, r) && IsDirect(code, r)
    ensures Moved(code, regions, cursor, p, OriginalPush) == p - cursor
    decreases |regions|
  {
    hide OriginalPush;
    if regions != [] && p >= regions[0].end {
      assert regions == [regions[0]] + regions[1..] && IsPush(code, regions[0]);
      assert |code[regions[0].start..regions[0].end]| == |OriginalPush(regions[0].slot)|;
      DirectStays(code, regions[1..], regions[0].end, p);
    }
  }

  /**
   With the original parameters the program rebuilds the original script and layout exactly when every
   matched push is written with a one-byte length. Otherwise it returns a strictly shorter script.
   */
  lemma RoundTripExactly(kind: Kind, code: bytes, l: Layout)
    requires Generated(kind, code, l).Some? && l.start <= |code| && l.end <= |code|
    ensures RegionsFrom(code, 0).Some?
    ensures Run(Generated(kind, code, l).value, INITIAL, OriginalPush) == Machine(code, Some(l.start), Some(l.end))
       <==> forall r :: r in RegionsFrom(code, 0).value ==> IsDirect(code, r)
    ensures (exists r :: r in RegionsFrom(code, 0).value && !IsDirect(code, r)) ==>
              |Run(Generated(kind, code, l).value, INITIAL, OriginalPush).out| < |code|
  {
    hide Run, Generated, Substituted, Moved, OriginalPush, RegionsFrom, IsPush, IsDirect, Ordered;
    ProgramMeaning(kind, code, l, OriginalPush);
    var regions := RegionsFrom(code, 0).value;
    AllRegionsArePushes(code, 0);
    SubstitutedOriginal(code, regions, 0);
    assert code[0..] == code;
    if forall r :: r in regions ==> IsDirect(code, r) {
      DirectStays(code, regions, 0, l.start);
      DirectStays(code, regions, 0, l.end);
    }
  }

  // ----- a script it does not rebuild ------------------------------------------------------------------------

  lemma MarkerPushIsRegion(code: bytes, i: nat, at: nat, slot: Slot)
    requires i < |code| && Operand(code, i) == Some((at, |Marker(slot)|)) && at + |Marker(slot)| <= |code|
    requires code[at..at + |Marker(slot)|] == Marker(slot)
    ensures RegionsFrom(code, i)
         == Prefixed([Region(i, at + |Marker(slot)|, slot)], RegionsFrom(code, at + |Marker(slot)|))
  {
    MarkersDiffer();
    hide Marker;
    var end, operand := at + |Marker(slot)|, Marker(slot);
    var three, two, one := SLOTS[1..], SLOTS[2..], SLOTS[3..];
    assert three[1..] == two && two[1..] == one && one[1..] == [];
    MatchesUnfold(one, i, end, operand);
    MatchesUnfold(two, i, end, operand);
    MatchesUnfold(three, i, end, operand);
    MatchesUnfold(SLOTS, i, end, operand);
    assert Matches(SLOTS, i, end, operand) == [Region(i, end, slot)];
  }

  /** A script that pushes the three markers of a time lock, the owner with a longer length prefix than needed. */
  const LONG_FORM: bytes := [76, 32] + Marker(Owner) + [4] + Marker(Limit) + [32] + Marker(Instance)

  lemma LongFormBytes()
    ensures var code := LONG_FORM;
            && |code| == 72 && code[0] == 76 && code[1] == 32 && code[34] == 4 && code[39] == 32
            && code[2..34] == Marker(Owner) && code[35..39] == Marker(Limit) && code[40..72] == Marker(Instance)
  {
    MarkerLengths();
    hide Marker;
    var head := [76, 32] + Marker(Owner);
    var middle := head + [4] + Marker(Limit);
    assert LONG_FORM == middle + [32] + Marker(Instance) && |head| == 34 && |middle| == 39;
    assert head[2..] == Marker(Owner) && middle[35..] == Marker(Limit);
  }

  lemma MarkerLengths()
    ensures forall slot :: |Marker(slot)| == if slot.Limit? then 4 else 32
  {
  }

  lemma LongFormRegions(code: bytes)
    requires |code| == 72 && code[0] == 76 && code[1] == 32 && code[34] == 4 && code[39] == 32
    requires code[2..34] == Marker(Owner) && code[35..39] == Marker(Limit) && code[40..72] == Marker(Instance)
    ensures RegionsFrom(code, 0) == Some([Region(0, 34, Owner), Region(34, 39, Limit), Region(39, 72, Instance)])
  {
    MarkerLengths();
    assert RegionsFrom(code, 72) == Some([]);
    hide Marker, RegionsFrom;
    MarkerPushIsRegion(code, 39, 40, Instance);
    var last := [Region(39, 72, Instance)];
    assert last + [] == last;
    MarkerPushIsRegion(code, 34, 35, Limit);
    MarkerPushIsRegion(code, 0, 2, Owner);
    assert [Region(0, 34, Owner)] + ([Region(34, 39, Limit)] + last)
        == [Region(0, 34, Owner), Region(34, 39, Limit), Region(39, 72, Instance)];
  }

  /** The generator accepts such a script, and the program it emits does not rebuild it. */
  lemma LongFormIsLost()
    ensures Generated(TimeLock, LONG_FORM, Layout(0, 72)).Some?
    ensures |Run(Generated(TimeLock, LONG_FORM, Layout(0, 72)).value, INITIAL, OriginalPush).out| < |LONG_FORM|
  {
    hide Marker, Chunk, Mark, Run, RegionsFrom, OriginalPush;
    LongFormBytes();
    LongFormRegions(LONG_FORM);
    var regions := RegionsFrom(LONG_FORM, 0).value;
    RegionsAreOrdered(LONG_FORM, 0);
    assert Region(0, 34, Owner) in regions && Region(34, 39, Limit) in regions && Region(39, 72, Instance) in regions;
    assert FindsAll(TimeLock, regions);
    EmittedUnlessSplit(LONG_FORM, regions, 0, Layout(0, 72));
    RoundTripExactly(TimeLock, LONG_FORM, Layout(0, 72));
    assert !IsDirect(LONG_FORM, regions[0]);
  }

  lemma {:induction false} EmittedUnlessSplit(code: bytes, regions: seq<Region>, cursor: nat, l: Layout)
    requires Ordered(code, regions, cursor)
    requires forall r :: r in regions ==> !Splits(r, l.start) && !Splits(r, l.end)
    ensures EmitFrom(code, regions, cursor, l).Some?
  {
    if regions != [] {
      assert regions[0] in regions;
      EmittedUnlessSplit(code, regions[1..], regions[0].end, l);
    }
  }

  // ----- the two walkers agree --------------------------------------------------------------------------------

  /** On any push the signature-script parser accepts, the generator's walk stops at the same place. */
  lemma SameStep(script: bytes, pos: nat)
    requires pos < |script| && P.ReadPush(script, pos).Success?
    ensures Operand(script, pos).Some?
    ensures var (at, length) := Operand(script, pos).value;
            && at + length == P.ReadPush(script, pos).value.1
            && P.ReadPush(script, pos).value.0 == script[at..at + length]
  {
    hide FromLe;
  }

  /** Where the generator's walk over an accepted script stops. */
  function WalkStops(code: bytes, i: nat): seq<nat>
    requires i <= |code| && RegionsFrom(code, i).Some?
    decreases |code| - i
  {
    if i == |code| then [i]
    else
      var (at, length) := Operand(code, i).value;
      [i] + WalkStops(code, at + length)
  }

  /** Where the signature-script parser stops. */
  function ReadStops(script: bytes, pos: nat, last: bytes): seq<nat>
    requires pos <= |script| && P.LastPush(script, pos, last).Success?
    decreases |script| - pos
  {
    if pos == |script| then [pos]
    else
      var (data, next) := P.ReadPush(script, pos).value;
      [pos] + ReadStops(script, next, data)
  }

  /** The pushes of a marker among `ps`, laid out from `at` on. */
  function MarkerPushes(ps: seq<P.Push>, at: nat): seq<Region>
    requires P.AllWellFormed(ps)
  {
    if ps == [] then []
    else
      var end := at + |P.Encode(ps[0])|;
      Matches(SLOTS, at, end, P.Pushed(ps[0])) + MarkerPushes(ps[1..], end)
  }

  /**
   The two walkers cut a script the parser accepts at the same places, and the regions the generator finds are
   exactly the pushes of a marker the parser sees.
   */
  lemma {:induction false} SameBoundaries(script: bytes, pos: nat, last: bytes)
    requires pos <= |script| && P.LastPush(script, pos, last).Success?
    ensures P.AllWellFormed(P.PushesFrom(script, pos, last)) && RegionsFrom(script, pos).Some?
    ensures WalkStops(script, pos) == ReadStops(script, pos, last)
    ensures RegionsFrom(script, pos).value == MarkerPushes(P.PushesFrom(script, pos, last), pos)
    decreases |script| - pos
  {
    hide Operand, Matches, Marker, P.ReadPush, P.Encode, P.PushAt, P.Pushed;
    P.AcceptedIsPushes(script, pos, last);
    if pos < |script| {
      SameStep(script, pos);
      P.ReadIsEncoded(script, pos);
      var (data, next) := P.ReadPush(script, pos).value;
      SameBoundaries(script, next, data);
      EmptyMatchesNothing(pos, next);
      var ps := P.PushesFrom(script, pos, last);
      assert ps[0] == P.PushAt(script, pos) && ps[1..] == P.PushesFrom(script, next, data);
    }
  }

  lemma EmptyMatchesNothing(start: nat, end: nat)
    ensures Matches(SLOTS, start, end, []) == []
  {
    MarkersDiffer();
    hide Marker;
    var three, two, one := SLOTS[1..], SLOTS[2..], SLOTS[3..];
    assert three[1..] == two && two[1..] == one && one[1..] == [];
    MatchesUnfold(one, start, end, []);
    MatchesUnfold(two, start, end, []);
    MatchesUnfold(three, start, end, []);
    MatchesUnfold(SLOTS, start, end, []);
  }
}
