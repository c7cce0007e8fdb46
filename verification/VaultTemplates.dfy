/**
 The build-time generator of the vault templates.

 It walks compiled bytecode, finds the pushes of four marker values, and emits a straight-line program
 that rebuilds the script around other values and notes where the state layout starts and ends.
 */
module VaultTemplates {
  import opened Wrappers
  import opened Bytes

  datatype Kind = TimeLock | DeadManSwitch
  datatype Slot = Owner | Beneficiary | Limit | Instance

  /** The bytes standing in for each parameter while compiling; the limit is 0x12345678, lowest byte first. */
  function Marker(slot: Slot): bytes {
    match slot
    case Owner => seq(32, _ => 0x35)
    case Beneficiary => seq(32, _ => 0x46)
    case Limit => [0x78, 0x56, 0x34, 0x12]
    case Instance => seq(32, _ => 0x57)
  }

  const SLOTS := [Owner, Beneficiary, Limit, Instance]

  datatype Region = Region(start: nat, end: nat, slot: Slot)

  /** Where the operand of the opcode at `i` begins and how long it is; nothing if its length bytes are missing. */
  function Operand(code: bytes, i: nat): (operand: Option<(nat, nat)>)
    requires i < |code|
    ensures operand.Some? ==> i < operand.value.0 <= |code|
  {
    var op := code[i];
    if 1 <= op <= 75 then Some((i + 1, op))
    else if op == 76 then
      if i + 2 <= |code| then Some((i + 2, code[i + 1])) else None
    else if op == 77 then
      if i + 3 <= |code| then Some((i + 3, FromLe(code[i + 1..i + 3]))) else None
    else if op == 78 then
      if i + 5 <= |code| then Some((i + 5, FromLe(code[i + 1..i + 5]))) else None
    else Some((i + 1, 0))
  }

  /** Every marker among `slots` equal to the operand, as a region from its opcode to its end. */
  function Matches(slots: seq<Slot>, start: nat, end: nat, operand: bytes): seq<Region> {
    if slots == [] then []
    else (if operand == Marker(slots[0]) then [Region(start, end, slots[0])] else [])
         + Matches(slots[1..], start, end, operand)
  }

  function RegionsAt(code: bytes, i: nat, at: nat, length: nat): seq<Region>
    requires at + length <= |code|
  {
    if length > 0 then Matches(SLOTS, i, at + length, code[at..at + length]) else []
  }

  function RegionsFrom(code: bytes, i: nat): Option<seq<Region>>
    requires i <= |code|
    decreases |code| - i
  {
    if i == |code| then Some([])
    else
      match Operand(code, i)
      case None => None
      case Some((at, length)) =>
        if at + length > |code| then None
        else
          Prefixed(RegionsAt(code, i, at, length), RegionsFrom(code, at + length))
  }

  /** The opcode walk: a cursor over the bytes and a growing list of regions. */
  method Walk(code: bytes) returns (found: Option<seq<Region>>)
    ensures found == RegionsFrom(code, 0)
  {
    hide Operand, RegionsAt;
    var regions: seq<Region>, i: nat := [], 0;
    PrefixedTwice([], regions, RegionsFrom(code, 0));
    while i < |code|
      invariant i <= |code|
      invariant RegionsFrom(code, 0) == Prefixed(regions, RegionsFrom(code, i))
    {
      var operand := Operand(code, i);
      if operand == None {
        return None;
      }
      var (at, length) := operand.value;
      if at + length > |code| {
        return None;
      }
      var here := RegionsAt(code, i, at, length);
      PrefixedTwice(regions, here, RegionsFrom(code, at + length));
      regions := regions + here;
      i := at + length;
    }
    assert regions + [] == regions;
    return Some(regions);
  }

  // ----- emission ----------------------------------------------------------------------------------------

  datatype Instruction = MarkStart | MarkEnd | Literal(data: bytes) | PushSlot(slot: Slot)

  /** The state layout of the compiled script. */
  datatype Layout = Layout(start: nat, end: nat)

  function Mark(position: nat, l: Layout): seq<Instruction> {
    (if position == l.start then [MarkStart] else []) + (if position == l.end then [MarkEnd] else [])
  }

  function InsertNat(n: nat, s: seq<nat>): seq<nat> {
    if s == [] || n <= s[0] then [n] + s else [s[0]] + InsertNat(n, s[1..])
  }

  function Dedup(s: seq<nat>): seq<nat> {
    if |s| <= 1 then s
    else if s[0] == s[1] then Dedup(s[1..])
    else [s[0]] + Dedup(s[1..])
  }

  /** Where a chunk is cut: at its end and at the layout boundaries strictly inside, ascending, each once. */
  function Cuts(start: nat, end: nat, l: Layout): seq<nat> {
    var all := [end]
      + (if start < l.start < end then [l.start] else [])
      + (if start < l.end < end then [l.end] else []);
    Dedup(if |all| == 1 then all
          else if |all| == 2 then InsertNat(all[0], [all[1]])
          else InsertNat(all[0], InsertNat(all[1], [all[2]])))
  }

  function Piece(code: bytes, from: nat, to: nat): seq<Instruction>
    requires to <= |code|
  {
    if from < to then [Literal(code[from..to])] else []
  }

  function Pieces(code: bytes, cursor: nat, cuts: seq<nat>, l: Layout): seq<Instruction>
    requires forall k :: 0 <= k < |cuts| ==> cuts[k] <= |code|
    decreases |cuts|
  {
    if cuts == [] then []
    else Mark(cursor, l) + Piece(code, cursor, cuts[0]) + Pieces(code, cuts[0], cuts[1..], l)
  }

  lemma CutsBounded(start: nat, end: nat, l: Layout)
    ensures var cuts := Cuts(start, end, l);
            forall k :: 0 <= k < |cuts| ==> cuts[k] <= end
  {
    CutsAre(start, end, l);
  }

  /** The cuts, case by case. */
  lemma CutsAre(start: nat, end: nat, l: Layout)
    ensures var a, b := start < l.start < end, start < l.end < end;
            Cuts(start, end, l) ==
              if a && b && l.start < l.end then [l.start, l.end, end]
              else if a && b && l.end < l.start then [l.end, l.start, end]
              else if a then [l.start, end]
              else if b then [l.end, end]
              else [end]
  {
    var a, b := start < l.start < end, start < l.end < end;
    InsertPair(end, l.start);
    InsertPair(end, l.end);
    InsertPair(l.start, l.end);
    DedupShort(l.start, end);
    DedupShort(l.end, end);
    if a && b {
      var all := [end] + [l.start] + [l.end];
      assert all[0] == end && all[1] == l.start && all[2] == l.end;
      var low, high := Min(l.start, l.end), Max(l.start, l.end);
      assert InsertNat(l.start, [l.end]) == [low, high];
      assert [low, high][1..] == [high];
      InsertPair(end, high);
      assert InsertNat(end, [low, high]) == [low] + [high, end] == [low, high, end];
      assert [low, high, end][1..] == [high, end];
    } else if a {
      assert [end] + [l.start] + [] == [end, l.start];
    } else if b {
      var none: seq<nat> := [];
      assert [end] + none + [l.end] == [end, l.end];
    } else {
      var none: seq<nat> := [];
      assert [end] + none + none == [end];
    }
  }

  lemma InsertPair(n: nat, m: nat)
    ensures InsertNat(n, [m]) == if n <= m then [n, m] else [m, n]
  {
    assert [m][1..] == [];
  }

  lemma DedupShort(n: nat, m: nat)
    ensures Dedup([n, m]) == if n == m then [m] else [n, m]
  {
    assert [n, m][1..] == [m];
  }

  function Chunk(code: bytes, start: nat, end: nat, l: Layout): seq<Instruction>
    requires end <= |code|
  {
    CutsBounded(start, end, l);
    Pieces(code, start, Cuts(start, end, l), l)
  }

  method EmitChunk(code: bytes, start: nat, end: nat, l: Layout) returns (output: seq<Instruction>)
    requires end <= |code|
    ensures output == Chunk(code, start, end, l)
  {
    hide Cuts, Mark, Piece;
    CutsBounded(start, end, l);
    var cuts := Cuts(start, end, l);
    output := [];
    var cursor, i := start, 0;
    assert cuts[0..] == cuts;
    while i < |cuts|
      invariant 0 <= i <= |cuts|
      invariant i > 0 ==> cursor == cuts[i - 1]
      invariant Chunk(code, start, end, l) == output + Pieces(code, cursor, cuts[i..], l)
    {
      assert cuts[i..][0] == cuts[i] && cuts[i..][1..] == cuts[i + 1..];
      output := output + Mark(cursor, l);
      output := output + Piece(code, cursor, cuts[i]);
      cursor := cuts[i];
      i := i + 1;
    }
    assert cuts[i..] == [];
  }

  predicate Splits(r: Region, position: nat) {
    r.start < position < r.end
  }

  /** The regions lie in order between `cursor` and the end of the code. */
  predicate Ordered(code: bytes, regions: seq<Region>, cursor: nat) {
    if regions == [] then cursor <= |code|
    else cursor <= regions[0].start < regions[0].end && Ordered(code, regions[1..], regions[0].end)
  }

  lemma {:induction false} OrderedEnds(code: bytes, regions: seq<Region>, cursor: nat)
    requires Ordered(code, regions, cursor)
    ensures cursor <= |code| && forall r :: r in regions ==> cursor <= r.start < r.end <= |code|
  {
    if regions != [] {
      OrderedEnds(code, regions[1..], regions[0].end);
      assert regions == [regions[0]] + regions[1..];
    }
  }

  /** The emitted program, or nothing when the layout cuts a region in two. */
  function EmitFrom(code: bytes, regions: seq<Region>, cursor: nat, l: Layout): Option<seq<Instruction>>
    requires Ordered(code, regions, cursor)
  {
    OrderedEnds(code, regions, cursor);
    if regions == [] then Some(Chunk(code, cursor, |code|, l) + Mark(|code|, l))
    else
      var r := regions[0];
      if Splits(r, l.start) || Splits(r, l.end) then None
      else
        Prefixed(Chunk(code, cursor, r.start, l) + Mark(r.start, l) + [PushSlot(r.slot)],
                 EmitFrom(code, regions[1..], r.end, l))
  }

  function NeededSlots(kind: Kind): seq<Slot> {
    if kind.DeadManSwitch? then [Owner, Limit, Instance, Beneficiary] else [Owner, Limit, Instance]
  }

  predicate FindsAll(kind: Kind, regions: seq<Region>) {
    forall slot :: slot in NeededSlots(kind) ==> exists r :: r in regions && r.slot == slot
  }

  function Generated(kind: Kind, code: bytes, l: Layout): Option<seq<Instruction>> {
    match RegionsFrom(code, 0)
    case None => None
    case Some(regions) =>
      RegionsAreOrdered(code, 0);
      if FindsAll(kind, regions) then EmitFrom(code, regions, 0, l) else None
  }

  // ----- facts about the walk ------------------------------------------------------------------------------

  /** The markers differ, so a push matches at most one. */
  lemma MarkersDiffer()
    ensures forall a, b :: Marker(a) == Marker(b) ==> a == b
    ensures forall a :: 1 <= |Marker(a)| <= 75
  {
    forall a, b | Marker(a) == Marker(b) ensures a == b {
      assert Marker(a)[0] == Marker(b)[0];
    }
  }

  lemma MatchesOne(start: nat, end: nat, operand: bytes)
    ensures |Matches(SLOTS, start, end, operand)| <= 1
    ensures forall r :: r in Matches(SLOTS, start, end, operand) ==>
      r.start == start && r.end == end && operand == Marker(r.slot)
  {
    MarkersDiffer();
    hide Marker;
    var three, two, one := SLOTS[1..], SLOTS[2..], SLOTS[3..];
    assert three[1..] == two && two[1..] == one && one[1..] == [];
    MatchesUnfold(one, start, end, operand);
    MatchesUnfold(two, start, end, operand);
    MatchesUnfold(three, start, end, operand);
    MatchesUnfold(SLOTS, start, end, operand);
  }

  lemma MatchesUnfold(slots: seq<Slot>, start: nat, end: nat, operand: bytes)
    requires slots != []
    ensures Matches(slots, start, end, operand)
         == (if operand == Marker(slots[0]) then [Region(start, end, slots[0])] else [])
            + Matches(slots[1..], start, end, operand)
  {
  }

  lemma {:induction false} OrderedFromLower(code: bytes, regions: seq<Region>, cursor: nat, lower: nat)
    requires Ordered(code, regions, cursor) && lower <= cursor
    ensures Ordered(code, regions, lower)
  {
  }

  lemma {:induction false} RegionsAreOrdered(code: bytes, i: nat)
    requires i <= |code| && RegionsFrom(code, i).Some?
    ensures Ordered(code, RegionsFrom(code, i).value, i)
    decreases |code| - i
  {
    hide FromLe, Matches, Marker, Operand;
    if i < |code| {
      var (at, length) := Operand(code, i).value;
      RegionsAreOrdered(code, at + length);
      var here := RegionsAt(code, i, at, length);
      var rest := RegionsFrom(code, at + length).value;
      if length > 0 {
        MatchesOne(i, at + length, code[at..at + length]);
      }
      if here == [] {
        assert here + rest == rest;
        OrderedFromLower(code, rest, at + length, i);
      } else {
        assert here[0] in here && (here + rest)[1..] == rest;
      }
    }
  }

  /** The emission as written, appending to the output region by region. */
  method Emit(code: bytes, regions: seq<Region>, l: Layout) returns (program: Option<seq<Instruction>>)
    requires Ordered(code, regions, 0)
    ensures program == EmitFrom(code, regions, 0, l)
  {
    hide Chunk, Mark;
    var generated: seq<Instruction>, cursor: nat, i := [], 0, 0;
    PrefixedTwice([], generated, EmitFrom(code, regions, 0, l));
    assert regions[0..] == regions;
    while i < |regions|
      invariant 0 <= i <= |regions|
      invariant Ordered(code, regions[i..], cursor)
      invariant EmitFrom(code, regions, 0, l) == Prefixed(generated, EmitFrom(code, regions[i..], cursor, l))
    {
      var r := regions[i];
      assert regions[i..][0] == r && regions[i..][1..] == regions[i + 1..];
      OrderedEnds(code, regions[i..], cursor);
      if Splits(r, l.start) || Splits(r, l.end) {
        return None;
      }
      var chunk := EmitChunk(code, cursor, r.start, l);
      var more := chunk + Mark(r.start, l) + [PushSlot(r.slot)];
      PrefixedTwice(generated, more, EmitFrom(code, regions[i + 1..], r.end, l));
      generated := generated + more;
      cursor := r.end;
      i := i + 1;
    }
    assert regions[i..] == [];
    var chunk := EmitChunk(code, cursor, |code|, l);
    return Some(generated + (chunk + Mark(|code|, l)));
  }

  /** The generator as written: walk, check that every parameter was found, emit. */
  method Generate(kind: Kind, code: bytes, l: Layout) returns (program: Option<seq<Instruction>>)
    ensures program == Generated(kind, code, l)
  {
    hide RegionsFrom, EmitFrom;
    var found := Walk(code);
    if found == None {
      return None;
    }
    var regions := found.value;
    RegionsAreOrdered(code, 0);
    var needed := NeededSlots(kind);
    if exists slot :: slot in needed && forall r :: r in regions ==> r.slot != slot {
      return None;
    }
    assert FindsAll(kind, regions);
    program := Emit(code, regions, l);
  }
}
