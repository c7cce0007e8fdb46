/** The generator seen from the contract it reads: a list of pushes and other opcodes, some of which push a marker. */
module VaultTemplateItems {
  import opened Wrappers
  import opened Bytes
  import opened VaultTemplates
  import opened VaultTemplateMeaning
  import P = PushScript

  /** One instruction of a compiled contract. */
  datatype Item = Data(push: P.Push) | Opcode(op: byte)

  /** Every byte above the push opcodes is an opcode of its own, and so is 80. */
  predicate Proper(x: Item) {
    match x
    case Data(push) => P.WellFormed(push)
    case Opcode(op) => op == 80 || op > 96
  }

  predicate AllProper(items: seq<Item>) {
    forall x :: x in items ==> Proper(x)
  }

  function Written(x: Item): (b: bytes)
    requires Proper(x)
    ensures b != []
  {
    match x
    case Data(push) => P.Encode(push)
    case Opcode(op) => [op]
  }

  function Script(items: seq<Item>): bytes
    requires AllProper(items)
  {
    if items == [] then [] else Written(items[0]) + Script(items[1..])
  }

  /** The parameter an instruction stands for, if it pushes the marker of one. */
  function SlotOf(x: Item): Option<Slot> {
    if x.Opcode? || x.push.Small? then None
    else if x.push.data == Marker(Owner) then Some(Owner)
    else if x.push.data == Marker(Beneficiary) then Some(Beneficiary)
    else if x.push.data == Marker(Limit) then Some(Limit)
    else if x.push.data == Marker(Instance) then Some(Instance)
    else None
  }

  /** The instructions that push a marker, where they stand in a script that begins at `at`. */
  function Marked(items: seq<Item>, at: nat): seq<Region>
    requires AllProper(items)
  {
    if items == [] then []
    else
      var end := at + |Written(items[0])|;
      (if SlotOf(items[0]).Some? then [Region(at, end, SlotOf(items[0]).value)] else []) + Marked(items[1..], end)
  }

  lemma MarkerValues()
    ensures FromLe(Marker(Limit)) == 0x12345678 && |Marker(Limit)| == 4
    ensures forall slot :: slot != Limit ==> |Marker(slot)| == 32
    ensures forall k :: 0 <= k < 32 ==>
              Marker(Owner)[k] == 0x35 && Marker(Beneficiary)[k] == 0x46 && Marker(Instance)[k] == 0x57
  {
    var m := Marker(Limit);
    assert m[1..] == [0x56, 0x34, 0x12] && m[1..][1..] == [0x34, 0x12] && m[1..][1..][1..] == [0x12];
    assert m[1..][1..][1..][1..] == [];
  }

  // ----- one instruction --------------------------------------------------------------------------------------

  lemma MatchesIsSlot(x: Item, start: nat, end: nat)
    requires x.Data? && !x.push.Small?
    ensures Matches(SLOTS, start, end, x.push.data)
         == if SlotOf(x).Some? then [Region(start, end, SlotOf(x).value)] else []
  {
    MarkersDiffer();
    hide Marker;
    var three, two, one := SLOTS[1..], SLOTS[2..], SLOTS[3..];
    assert three[1..] == two && two[1..] == one && one[1..] == [];
    MatchesUnfold(one, start, end, x.push.data);
    MatchesUnfold(two, start, end, x.push.data);
    MatchesUnfold(three, start, end, x.push.data);
    MatchesUnfold(SLOTS, start, end, x.push.data);
  }

  lemma EmptyIsNoMarker(x: Item)
    requires x.Data? && P.Pushed(x.push) == []
    ensures SlotOf(x).None?
  {
    MarkersDiffer();
    hide Marker;
  }

  /** The walk passes an instruction in one step and sees its data. */
  lemma WalkStep(code: bytes, i: nat, x: Item)
    requires Proper(x) && i + |Written(x)| <= |code| && code[i..i + |Written(x)|] == Written(x)
    ensures i < |code| && Operand(code, i).Some?
    ensures var (at, length) := Operand(code, i).value;
            && at + length == i + |Written(x)|
            && RegionsAt(code, i, at, length)
               == if SlotOf(x).Some? then [Region(i, at + length, SlotOf(x).value)] else []
  {
    hide FromLe, Marker, Matches, P.Encode;
    match x
    case Opcode(op) =>
      assert code[i] == code[i..i + 1][0] == op;
    case Data(push) =>
      P.ReadEncoded(code, i, push);
      SameStep(code, i);
      var (at, length) := Operand(code, i).value;
      if length == 0 {
        EmptyIsNoMarker(x);
      } else {
        assert !push.Small?;
        MatchesIsSlot(x, i, at + length);
      }
  }

  // ----- the walk -----------------------------------------------------------------------------------------------

  lemma ScriptParts(items: seq<Item>, code: bytes, i: nat)
    requires AllProper(items) && items != [] && i <= |code| && code[i..] == Script(items)
    ensures var n := |Written(items[0])|;
            && AllProper(items[1..]) && i + n <= |code|
            && code[i..i + n] == Written(items[0]) && code[i + n..] == Script(items[1..])
  {
    hide Proper;
    assert items[0] in items && forall x :: x in items[1..] ==> x in items;
    var n := |Written(items[0])|;
    assert code[i..i + n] == code[i..][..n] && code[i + n..] == code[i..][n..];
  }

  /** The walk over any list of instructions finds exactly the pushes of a marker. */
  lemma {:induction false} WalkOfScript(items: seq<Item>, code: bytes, i: nat)
    requires AllProper(items) && i <= |code| && code[i..] == Script(items)
    ensures RegionsFrom(code, i) == Some(Marked(items, i))
    decreases |items|
  {
    hide Operand, RegionsAt, SlotOf, Proper, Written;
    if items != [] {
      assert Proper(items[0]) by { assert items[0] in items; }
      ScriptParts(items, code, i);
      WalkStep(code, i, items[0]);
      WalkOfScript(items[1..], code, i + |Written(items[0])|);
    }
  }

  /** The instruction the walk finds at `i`. */
  function ItemAt(code: bytes, i: nat): Item
    requires i < |code|
  {
    var op := code[i];
    if P.ReadPush(code, i).Success? then Data(P.PushAt(code, i)) else Opcode(op)
  }

  lemma ItemIsWritten(code: bytes, i: nat)
    requires i < |code| && Operand(code, i).Some?
    requires var (at, length) := Operand(code, i).value; at + length <= |code|
    ensures var (at, length) := Operand(code, i).value;
            Proper(ItemAt(code, i)) && Written(ItemAt(code, i)) == code[i..at + length]
  {
    hide FromLe, P.Encode, P.WellFormed, P.PushAt;
    if P.ReadPush(code, i).Success? {
      SameStep(code, i);
      P.ReadIsEncoded(code, i);
    }
  }

  function ItemsFrom(code: bytes, i: nat): seq<Item>
    requires i <= |code| && RegionsFrom(code, i).Some?
    decreases |code| - i
  {
    if i == |code| then []
    else
      var (at, length) := Operand(code, i).value;
      [ItemAt(code, i)] + ItemsFrom(code, at + length)
  }

  lemma {:induction false} WalkedIsScript(code: bytes, i: nat)
    requires i <= |code| && RegionsFrom(code, i).Some?
    ensures AllProper(ItemsFrom(code, i)) && code[i..] == Script(ItemsFrom(code, i))
    decreases |code| - i
  {
    hide Operand, RegionsAt, ItemAt, Proper, Written;
    if i < |code| {
      var (at, length) := Operand(code, i).value;
      WalkedIsScript(code, at + length);
      ItemIsWritten(code, i);
      assert code[i..] == code[i..at + length] + code[at + length..];
    }
  }

  /**
   The walk succeeds exactly on the scripts that are a list of instructions: pushes in any of their forms, and
   opcodes that are no push. What it finds there are exactly the pushes of a marker, at their positions.
   */
  lemma WalkExactly(code: bytes)
    ensures RegionsFrom(code, 0).Some? <==> exists items :: AllProper(items) && code == Script(items)
    ensures forall items :: AllProper(items) && code == Script(items) ==>
              RegionsFrom(code, 0) == Some(Marked(items, 0))
  {
    hide Script, AllProper, Marked, RegionsFrom;
    assert code[0..] == code;
    if RegionsFrom(code, 0).Some? {
      WalkedIsScript(code, 0);
    }
    forall items | AllProper(items) && code == Script(items)
      ensures RegionsFrom(code, 0) == Some(Marked(items, 0)) {
      WalkOfScript(items, code, 0);
    }
  }

  // ----- the whole generator --------------------------------------------------------------------------------------

  predicate HasMarker(items: seq<Item>, slot: Slot) {
    exists x :: x in items && SlotOf(x) == Some(slot)
  }

  lemma {:induction false} MarkedSlots(items: seq<Item>, at: nat, slot: Slot)
    requires AllProper(items)
    ensures (exists r :: r in Marked(items, at) && r.slot == slot) <==> HasMarker(items, slot)
    decreases |items|
  {
    hide SlotOf, Proper, Written;
    if items != [] {
      assert items[0] in items && forall x :: x in items[1..] ==> x in items;
      var end := at + |Written(items[0])|;
      MarkedSlots(items[1..], end, slot);
      assert items == [items[0]] + items[1..];
      var here := if SlotOf(items[0]).Some? then [Region(at, end, SlotOf(items[0]).value)] else [];
      assert Marked(items, at) == here + Marked(items[1..], end);
      assert (exists r :: r in here && r.slot == slot) <==> SlotOf(items[0]) == Some(slot) by {
        if SlotOf(items[0]) == Some(slot) {
          assert here[0] in here;
        }
      }
    }
  }

  lemma {:induction false} EmittedExactly(code: bytes, regions: seq<Region>, cursor: nat, l: Layout)
    requires Ordered(code, regions, cursor)
    ensures EmitFrom(code, regions, cursor, l).Some?
       <==> forall r :: r in regions ==> !Splits(r, l.start) && !Splits(r, l.end)
  {
    hide Chunk, Mark, Splits;
    if regions != [] {
      OrderedEnds(code, regions, cursor);
      EmittedExactly(code, regions[1..], regions[0].end, l);
      assert regions == [regions[0]] + regions[1..] && regions[0] in regions;
    }
  }

  lemma NeededAre(kind: Kind)
    ensures forall slot :: slot in NeededSlots(kind)
              <==> slot == Owner || slot == Limit || slot == Instance || (slot == Beneficiary && kind.DeadManSwitch?)
  {
  }

  lemma FindsEach(kind: Kind, regions: seq<Region>)
    requires forall slot :: slot in NeededSlots(kind)
              <==> slot == Owner || slot == Limit || slot == Instance || (slot == Beneficiary && kind.DeadManSwitch?)
    ensures FindsAll(kind, regions) <==>
              && (exists r :: r in regions && r.slot == Owner) && (exists r :: r in regions && r.slot == Limit)
              && (exists r :: r in regions && r.slot == Instance)
              && (kind.DeadManSwitch? ==> exists r :: r in regions && r.slot == Beneficiary)
  {
    hide NeededSlots;
    var needed := NeededSlots(kind);
    assert Owner in needed && Limit in needed && Instance in needed && (kind.DeadManSwitch? ==> Beneficiary in needed);
  }

  /**
   A program is generated exactly when the contract pushes every parameter it needs, the beneficiary only for the
   dead man's switch, and no boundary of the layout lies inside the push of one.
   */
  lemma GeneratedExactly(kind: Kind, items: seq<Item>, l: Layout)
    requires AllProper(items)
    ensures Generated(kind, Script(items), l).Some? <==>
              && HasMarker(items, Owner) && HasMarker(items, Limit) && HasMarker(items, Instance)
              && (kind.DeadManSwitch? ==> HasMarker(items, Beneficiary))
              && forall r :: r in Marked(items, 0) ==> !Splits(r, l.start) && !Splits(r, l.end)
  {
    hide Script, AllProper, Marked, RegionsFrom, HasMarker, Splits, EmitFrom;
    var code, regions := Script(items), Marked(items, 0);
    assert code[0..] == code;
    WalkOfScript(items, code, 0);
    RegionsAreOrdered(code, 0);
    NeededAre(kind);
    hide NeededSlots;
    forall slot: Slot ensures (exists r :: r in regions && r.slot == slot) <==> HasMarker(items, slot) {
      MarkedSlots(items, 0, slot);
    }
    FindsEach(kind, regions);
    EmittedExactly(code, regions, 0, l);
  }

  // ----- what the program rebuilds ----------------------------------------------------------------------------------

  /** The contract with every marker push replaced. */
  function Rebuilt(items: seq<Item>, push: Pushes): bytes
    requires AllProper(items)
  {
    if items == [] then []
    else
      (if SlotOf(items[0]).Some? then push(SlotOf(items[0]).value) else Written(items[0])) + Rebuilt(items[1..], push)
  }

  /** Bytes before the first region are copied. */
  lemma CopiesUpTo(code: bytes, regions: seq<Region>, cursor: nat, next: nat, push: Pushes)
    requires Ordered(code, regions, next) && cursor <= next
    ensures Ordered(code, regions, cursor) && next <= |code|
    ensures Substituted(code, regions, cursor, push) == code[cursor..next] + Substituted(code, regions, next, push)
  {
    OrderedEnds(code, regions, next);
    OrderedFromLower(code, regions, next, cursor);
    if regions == [] {
      assert code[cursor..] == code[cursor..next] + code[next..];
    } else {
      hide Ordered;
      var rest := Substituted(code, regions[1..], regions[0].end, push);
      assert code[cursor..regions[0].start] == code[cursor..next] + code[next..regions[0].start];
      Regroup(code[cursor..next], code[next..regions[0].start], push(regions[0].slot), rest);
    }
  }

  lemma Regroup(a: bytes, b: bytes, c: bytes, d: bytes)
    ensures (a + b) + c + d == a + (b + c + d)
  {
  }

  lemma MovesUpTo(code: bytes, regions: seq<Region>, cursor: nat, next: nat, p: nat, push: Pushes)
    requires Ordered(code, regions, next) && cursor <= next <= p
    ensures Ordered(code, regions, cursor)
    ensures Moved(code, regions, cursor, p, push) == next - cursor + Moved(code, regions, next, p, push)
  {
    OrderedFromLower(code, regions, next, cursor);
  }

  lemma {:induction false} SubstitutedScript(items: seq<Item>, code: bytes, i: nat, push: Pushes)
    requires AllProper(items) && i <= |code| && code[i..] == Script(items)
    ensures Ordered(code, Marked(items, i), i)
    ensures Substituted(code, Marked(items, i), i, push) == Rebuilt(items, push)
    decreases |items|
  {
    hide SlotOf, Proper, Written, Substituted, Ordered;
    if items == [] {
      NothingSubstituted(code, i, push);
    } else {
      ScriptParts(items, code, i);
      var end, rest := i + |Written(items[0])|, Marked(items[1..], i + |Written(items[0])|);
      SubstitutedScript(items[1..], code, end, push);
      if SlotOf(items[0]).None? {
        assert Marked(items, i) == rest;
        CopiesUpTo(code, rest, i, end, push);
      } else {
        StartsWithRegion(code, Region(i, end, SlotOf(items[0]).value), rest, push);
      }
    }
  }

  lemma NothingSubstituted(code: bytes, i: nat, push: Pushes)
    requires i <= |code|
    ensures Ordered(code, [], i) && Substituted(code, [], i, push) == code[i..]
  {
  }

  lemma StartsWithRegion(code: bytes, r: Region, rest: seq<Region>, push: Pushes)
    requires r.start < r.end && Ordered(code, rest, r.end)
    ensures Ordered(code, [r] + rest, r.start)
    ensures Substituted(code, [r] + rest, r.start, push) == push(r.slot) + Substituted(code, rest, r.end, push)
  {
    assert ([r] + rest)[1..] == rest;
    OrderedEnds(code, [r] + rest, r.start);
    assert code[r.start..r.start] == [];
  }

  lemma {:induction false} MovedScript(items: seq<Item>, code: bytes, i: nat, k: nat, push: Pushes)
    requires AllProper(items) && k <= |items| && i <= |code| && code[i..] == Script(items)
    ensures AllProper(items[..k]) && Ordered(code, Marked(items, i), i)
    ensures Moved(code, Marked(items, i), i, i + |Script(items[..k])|, push) == |Rebuilt(items[..k], push)|
    decreases |items|
  {
    hide SlotOf, Proper, Written, Substituted, Rebuilt;
    SubstitutedScript(items, code, i, push);
    if k == 0 {
      MovedNowhere(code, Marked(items, i), i, push);
      NothingRebuilt(push);
    } else {
      ScriptParts(items, code, i);
      var n, rest := |Written(items[0])|, Marked(items[1..], i + |Written(items[0])|);
      MovedScript(items[1..], code, i + n, k - 1, push);
      PrefixParts(items, k, push);
      var p := i + |Script(items[..k])|;
      if SlotOf(items[0]).None? {
        assert Marked(items, i) == rest;
        MovesUpTo(code, rest, i, i + n, p, push);
      } else {
        assert Marked(items, i)[1..] == rest;
      }
    }
  }

  lemma NothingRebuilt(push: Pushes)
    ensures Rebuilt([], push) == [] && Script([]) == []
  {
  }

  lemma PrefixParts(items: seq<Item>, k: nat, push: Pushes)
    requires AllProper(items) && 0 < k <= |items| && AllProper(items[1..]) && AllProper(items[1..][..k - 1])
    ensures AllProper(items[..k])
    ensures |Script(items[..k])| == |Written(items[0])| + |Script(items[1..][..k - 1])|
    ensures |Rebuilt(items[..k], push)| == |Rebuilt(items[1..][..k - 1], push)|
              + if SlotOf(items[0]).Some? then |push(SlotOf(items[0]).value)| else |Written(items[0])|
  {
    hide SlotOf, Proper, Written;
    assert items[..k][0] == items[0] && items[..k][1..] == items[1..][..k - 1];
    assert forall x :: x in items[..k] ==> x in items;
  }

  lemma MovedNowhere(code: bytes, regions: seq<Region>, cursor: nat, push: Pushes)
    requires Ordered(code, regions, cursor)
    ensures Moved(code, regions, cursor, cursor, push) == 0
  {
  }

  /**
   The generated program rebuilds the contract with every marker push replaced by the push of its parameter, and a
   layout boundary at an instruction is recorded where the rebuilt contract has that instruction.
   */
  lemma ProgramOfContract(kind: Kind, items: seq<Item>, l: Layout, push: Pushes, j: nat, k: nat)
    requires AllProper(items) && Generated(kind, Script(items), l).Some? && j <= |items| && k <= |items|
    requires AllProper(items[..j]) && l.start == |Script(items[..j])|
    requires AllProper(items[..k]) && l.end == |Script(items[..k])|
    ensures Run(Generated(kind, Script(items), l).value, INITIAL, push)
         == Machine(Rebuilt(items, push), Some(|Rebuilt(items[..j], push)|), Some(|Rebuilt(items[..k], push)|))
  {
    hide Script, Marked, RegionsFrom, Generated, Rebuilt, Run, Substituted, Moved;
    var code := Script(items);
    assert code[0..] == code;
    WalkOfScript(items, code, 0);
    ProgramMeaning(kind, code, l, push);
    SubstitutedScript(items, code, 0, push);
    MovedScript(items, code, 0, j, push);
    MovedScript(items, code, 0, k, push);
    PrefixIsShorter(items, j);
    PrefixIsShorter(items, k);
  }

  lemma {:induction false} PrefixIsShorter(items: seq<Item>, k: nat)
    requires AllProper(items) && k <= |items|
    ensures AllProper(items[..k]) && |Script(items[..k])| <= |Script(items)|
  {
    hide Proper, Written;
    assert forall x :: x in items[..k] ==> x in items;
    if k > 0 {
      assert items[..k][0] == items[0] && items[..k][1..] == items[1..][..k - 1];
      assert forall x :: x in items[1..] ==> x in items;
      PrefixIsShorter(items[1..], k - 1);
    }
  }
}
