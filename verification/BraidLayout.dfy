/** Where each of the router's terms stands in its state. */
module BraidLayout {
  import opened Wrappers
  import opened Words
  import opened Bytes
  import opened BraidNotes

  /** At `at` the state pushes this 32-byte identity. */
  predicate IdAt(b: bytes, at: nat, name: string, t: Terms) {
    && at + 33 <= |b| && name in t && t[name].Identity? && b[at] == 32 && b[at + 1..at + 33] == t[name].id
  }

  /** At `at` the state pushes this number, in eight bytes, lowest first. */
  predicate NumAt(b: bytes, at: nat, name: string, t: Terms) {
    && at + 9 <= |b| && name in t && t[name].Number? && b[at] == 8 && FromLe(b[at + 1..at + 9]) == t[name].n
  }

  predicate FieldAt(b: bytes, at: nat, field: (string, bool), t: Terms) {
    if field.1 then IdAt(b, at, field.0, t) else NumAt(b, at, field.0, t)
  }

  lemma EncodedAt(b: bytes, at: nat, field: (string, bool), t: Terms)
    requires Fits(field, t)
    requires at + |EncodeField(field, t)| <= |b| && b[at..at + |EncodeField(field, t)|] == EncodeField(field, t)
    ensures FieldAt(b, at, field, t) && |EncodeField(field, t)| == FieldWidth(field)
  {
    hide ToLe, FromLe;
    var e := EncodeField(field, t);
    assert b[at] == b[at..at + |e|][0] && b[at + 1..at + |e|] == b[at..at + |e|][1..];
    if !field.1 {
      Pow256Small();
      LeRoundTrip(t[field.0].n, 8);
      assert e[1..] == ToLe(t[field.0].n, 8);
    } else {
      assert e[1..] == t[field.0].id;
    }
  }

  /** The `k`th field stands behind the widths of those before it. */
  lemma {:induction false} FieldsStandAt(fields: seq<(string, bool)>, t: Terms, b: bytes, at: nat, k: nat)
    requires EncodeFields(fields, t).Success? && k < |fields| && at <= |b|
    requires at + |EncodeFields(fields, t).value| <= |b|
    requires b[at..at + |EncodeFields(fields, t).value|] == EncodeFields(fields, t).value
    ensures FieldAt(b, at + Width(fields[..k]), fields[k], t)
    decreases |fields|
  {
    hide EncodeField, FieldAt, Fits;
    var e, whole := EncodeField(fields[0], t), EncodeFields(fields, t).value;
    var rest := EncodeFields(fields[1..], t).value;
    assert whole == e + rest;
    assert b[at..at + |e|] == b[at..at + |whole|][..|e|] == e;
    EncodedAt(b, at, fields[0], t);
    if k == 0 {
      assert Width(fields[..0]) == 0;
    } else {
      assert b[at + |e|..at + |whole|] == b[at..at + |whole|][|e|..] == rest;
      FieldsStandAt(fields[1..], t, b, at + |e|, k - 1);
      assert fields[..k][1..] == fields[1..][..k - 1] && fields[..k][0] == fields[0];
      assert Width(fields[..k]) == FieldWidth(fields[0]) + Width(fields[1..][..k - 1]);
    }
  }

  /** How wide the first fields of seven are. */
  lemma SevenWidths(f: seq<(string, bool)>)
    requires |f| == 7
    ensures Width(f[..0]) == 0 && Width(f[..1]) == FieldWidth(f[0])
    ensures Width(f[..2]) == FieldWidth(f[0]) + FieldWidth(f[1])
    ensures Width(f[..3]) == FieldWidth(f[0]) + FieldWidth(f[1]) + FieldWidth(f[2])
    ensures Width(f[..4]) == FieldWidth(f[0]) + FieldWidth(f[1]) + FieldWidth(f[2]) + FieldWidth(f[3])
    ensures Width(f[..5]) == Width(f[..4]) + FieldWidth(f[4]) && Width(f[..6]) == Width(f[..5]) + FieldWidth(f[5])
  {
    WidthNext(f, 0);
    WidthNext(f, 1);
    WidthNext(f, 2);
    WidthNext(f, 3);
    WidthNext(f, 4);
    WidthNext(f, 5);
  }

  lemma WidthNext(f: seq<(string, bool)>, k: nat)
    requires k < |f|
    ensures Width(f[..k + 1]) == Width(f[..k]) + FieldWidth(f[k]) && Width(f[..0]) == 0
  {
    assert f[..k + 1] == f[..k] + [f[k]];
    WidthConcat(f[..k], [f[k]]);
    assert [f[k]][1..] == [];
  }

  lemma {:induction false} EncodeConcat(a: seq<(string, bool)>, c: seq<(string, bool)>, t: Terms)
    requires EncodeFields(a + c, t).Success?
    ensures EncodeFields(a, t).Success? && EncodeFields(c, t).Success?
    ensures EncodeFields(a + c, t).value == EncodeFields(a, t).value + EncodeFields(c, t).value
  {
    hide EncodeField, Fits;
    if a == [] {
      assert a + c == c;
    } else {
      assert (a + c)[1..] == a[1..] + c;
      EncodeConcat(a[1..], c, t);
    }
  }

  /** The three groups of seven, one after the other. */
  lemma GroupsStand(t: Terms, b: bytes)
    requires State(t) == Success(b)
    ensures EncodeFields(OUT_FIELDS, t).Success? && EncodeFields(IN_FIELDS, t).Success?
    ensures EncodeFields(FEE_FIELDS, t).Success?
    ensures |b| == 381 && b[0..159] == EncodeFields(OUT_FIELDS, t).value
    ensures b[159..270] == EncodeFields(IN_FIELDS, t).value && b[270..381] == EncodeFields(FEE_FIELDS, t).value
  {
    hide EncodeFields, OUT_FIELDS, IN_FIELDS, FEE_FIELDS;
    EncodeConcat(OUT_FIELDS, IN_FIELDS + FEE_FIELDS, t);
    EncodeConcat(IN_FIELDS, FEE_FIELDS, t);
    OutWidth();
    InWidth();
    FeeWidth();
    EncodedWidth(OUT_FIELDS, t);
    EncodedWidth(IN_FIELDS, t);
    EncodedWidth(FEE_FIELDS, t);
  }

  lemma SevenStand(f: seq<(string, bool)>, t: Terms, b: bytes, at: nat)
    requires |f| == 7 && EncodeFields(f, t).Success? && at + |EncodeFields(f, t).value| <= |b|
    requires b[at..at + |EncodeFields(f, t).value|] == EncodeFields(f, t).value
    ensures forall k :: 0 <= k < 7 ==> FieldAt(b, at + Width(f[..k]), f[k], t)
  {
    hide EncodeFields, FieldAt, Width;
    forall k | 0 <= k < 7 ensures FieldAt(b, at + Width(f[..k]), f[k], t) {
      FieldsStandAt(f, t, b, at, k);
    }
  }

  lemma OutPositions(t: Terms, b: bytes)
    requires State(t) == Success(b)
    ensures IdAt(b, 0, "recipient", t) && IdAt(b, 33, "refund", t)
    ensures NumAt(b, 66, "outKind", t) && IdAt(b, 75, "outCovid", t)
    ensures IdAt(b, 108, "outTpl", t) && NumAt(b, 141, "outPfl", t)
    ensures NumAt(b, 150, "outSfl", t)
  {
    hide EncodeFields, IdAt, NumAt, Width, State;
    GroupsStand(t, b);
    SevenStand(OUT_FIELDS, t, b, 0);
    SevenWidths(OUT_FIELDS);
    var f, at := OUT_FIELDS, 0;
    assert FieldAt(b, at + Width(f[..0]), f[0], t) && FieldAt(b, at + Width(f[..1]), f[1], t);
    assert FieldAt(b, at + Width(f[..2]), f[2], t) && FieldAt(b, at + Width(f[..3]), f[3], t);
    assert FieldAt(b, at + Width(f[..4]), f[4], t) && FieldAt(b, at + Width(f[..5]), f[5], t);
    assert FieldAt(b, at + Width(f[..6]), f[6], t);
  }

  lemma InPositions(t: Terms, b: bytes)
    requires State(t) == Success(b)
    ensures NumAt(b, 159, "minOut", t) && NumAt(b, 168, "inKind", t)
    ensures IdAt(b, 177, "inCovid", t) && IdAt(b, 210, "inTpl", t)
    ensures NumAt(b, 243, "inPfl", t) && NumAt(b, 252, "inSfl", t)
    ensures NumAt(b, 261, "inAmount", t)
  {
    hide EncodeFields, IdAt, NumAt, Width, State;
    GroupsStand(t, b);
    SevenStand(IN_FIELDS, t, b, 159);
    SevenWidths(IN_FIELDS);
    var f, at := IN_FIELDS, 159;
    assert FieldAt(b, at + Width(f[..0]), f[0], t) && FieldAt(b, at + Width(f[..1]), f[1], t);
    assert FieldAt(b, at + Width(f[..2]), f[2], t) && FieldAt(b, at + Width(f[..3]), f[3], t);
    assert FieldAt(b, at + Width(f[..4]), f[4], t) && FieldAt(b, at + Width(f[..5]), f[5], t);
    assert FieldAt(b, at + Width(f[..6]), f[6], t);
  }

  lemma FeePositions(t: Terms, b: bytes)
    requires State(t) == Success(b)
    ensures IdAt(b, 270, "wfeePk", t) && NumAt(b, 303, "wfee", t)
    ensures NumAt(b, 312, "feeCap", t) && NumAt(b, 321, "midMin", t)
    ensures NumAt(b, 330, "deadline", t) && IdAt(b, 339, "intent", t)
    ensures NumAt(b, 372, "tkFloor", t)
  {
    hide EncodeFields, IdAt, NumAt, Width, State;
    GroupsStand(t, b);
    SevenStand(FEE_FIELDS, t, b, 270);
    SevenWidths(FEE_FIELDS);
    var f, at := FEE_FIELDS, 270;
    assert FieldAt(b, at + Width(f[..0]), f[0], t) && FieldAt(b, at + Width(f[..1]), f[1], t);
    assert FieldAt(b, at + Width(f[..2]), f[2], t) && FieldAt(b, at + Width(f[..3]), f[3], t);
    assert FieldAt(b, at + Width(f[..4]), f[4], t) && FieldAt(b, at + Width(f[..5]), f[5], t);
    assert FieldAt(b, at + Width(f[..6]), f[6], t);
  }

  /** The whole layout: every term at its place in the 381 bytes. */
  lemma FieldPositions(t: Terms, b: bytes)
    requires State(t) == Success(b)
    ensures |b| == 381
    ensures IdAt(b, 0, "recipient", t) && IdAt(b, 33, "refund", t)
    ensures NumAt(b, 66, "outKind", t) && IdAt(b, 75, "outCovid", t)
    ensures IdAt(b, 108, "outTpl", t) && NumAt(b, 141, "outPfl", t)
    ensures NumAt(b, 150, "outSfl", t) && NumAt(b, 159, "minOut", t)
    ensures NumAt(b, 168, "inKind", t) && IdAt(b, 177, "inCovid", t)
    ensures IdAt(b, 210, "inTpl", t) && NumAt(b, 243, "inPfl", t)
    ensures NumAt(b, 252, "inSfl", t) && NumAt(b, 261, "inAmount", t)
    ensures IdAt(b, 270, "wfeePk", t) && NumAt(b, 303, "wfee", t)
    ensures NumAt(b, 312, "feeCap", t) && NumAt(b, 321, "midMin", t)
    ensures NumAt(b, 330, "deadline", t) && IdAt(b, 339, "intent", t)
    ensures NumAt(b, 372, "tkFloor", t)
  {
    hide State, IdAt, NumAt;
    OutPositions(t, b);
    InPositions(t, b);
    FeePositions(t, b);
    GroupsStand(t, b);
  }

  /** Where a note keeps owner, holder kind and amount. */
  lemma NotePositions(t: Template, owner: Key, amount: nat, p2sh: bool)
    requires amount < U64_LIMIT
    ensures var s := NoteState(t.kind, owner, amount, p2sh);
            match t.kind
            case Reference =>
              && |s| == 112 && s[0] == 8 && FromLe(s[1..9]) == amount && s[9] == 32 && s[10..42] == owner
              && s[42..47] == [1, if p2sh then 3 else 0, 1, 0, 32] && s[47..79] == Zeros(32) && s[79] == 32
              && s[80..112] == Zeros(32)
            case Presence =>
              && |s| == 46 && s[0] == 32 && s[1..33] == owner && s[33..36] == [1, if p2sh then 1 else 3, 8]
              && FromLe(s[36..44]) == amount && s[44..46] == [1, 0]
  {
    hide ToLe, FromLe;
    Pow256Small();
    LeRoundTrip(amount, 8);
    var s := NoteState(t.kind, owner, amount, p2sh);
    if t.kind.Reference? {
      assert s[1..9] == ToLe(amount, 8);
    } else {
      assert s[36..44] == ToLe(amount, 8);
    }
  }
}
