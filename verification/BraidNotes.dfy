/** The fixed layouts of token notes and of the router's terms. */
module BraidNotes {
  import opened Wrappers
  import opened Words
  import opened Bytes

  datatype Kind = Reference | Presence

  /** A pinned token program: its kind, its prefix and the code behind the state. Its hash pins the code itself. */
  datatype Template = Template(kind: Kind, prefix: bytes, program: bytes)

  datatype NoteError = UnknownProgram | LengthMismatch | InvalidAmount | PolicyMismatch

  /** Which scheme byte marks a note held by a script rather than a key. */
  function Scheme(kind: Kind, p2sh: bool): byte {
    match kind
    case Reference => if p2sh then 3 else 0
    case Presence => if p2sh then 1 else 3
  }

  function NoteState(kind: Kind, owner: Key, amount: nat, p2sh: bool): bytes {
    match kind
    case Reference =>
      [8] + ToLe(amount, 8) + [32] + owner + [1, Scheme(kind, p2sh), 1, 0, 32] + Zeros(32) + [32] + Zeros(32)
    case Presence =>
      [32] + owner + [1, Scheme(kind, p2sh), 8] + ToLe(amount, 8) + [1, 0]
  }

  function Note(t: Template, owner: Key, amount: nat, p2sh: bool, code: bytes): Result<bytes, NoteError>
    requires amount < U64_LIMIT
  {
    if code != t.program then Failure(UnknownProgram)
    else Success(t.prefix + NoteState(t.kind, owner, amount, p2sh) + code)
  }

  function StateLength(kind: Kind): nat {
    if kind.Reference? then 112 else 46
  }

  function AmountOffset(kind: Kind): nat {
    if kind.Reference? then 1 else 36
  }

  /** The amount field of anything as long as a note of this template. */
  function AmountIn(t: Template, r: bytes): (amount: nat)
    requires |r| >= |t.prefix| + StateLength(t.kind)
    ensures amount < U64_LIMIT
  {
    var at := |t.prefix| + AmountOffset(t.kind);
    LeOfNumber(r[at..at + 8]);
    Pow256Small();
    FromLe(r[at..at + 8])
  }

  function ParseNote(t: Template, r: bytes, owner: Key, p2sh: bool): Result<(nat, bytes), NoteError> {
    var n := StateLength(t.kind);
    if |r| != |t.prefix| + n + |t.program| || !(t.prefix <= r) then Failure(LengthMismatch)
    else
      var amount := AmountIn(t, r);
      if amount == 0 || amount > I64_MAX then Failure(InvalidAmount)
      else
        var code := r[|t.prefix| + n..];
        match Note(t, owner, amount, p2sh, code)
        case Failure(e) => Failure(e)
        case Success(again) => if again != r then Failure(PolicyMismatch) else Success((amount, code))
  }

  lemma StateShape(kind: Kind, owner: Key, amount: nat, p2sh: bool)
    requires amount < U64_LIMIT
    ensures var s := NoteState(kind, owner, amount, p2sh);
            && |s| == StateLength(kind)
            && s[AmountOffset(kind)..AmountOffset(kind) + 8] == ToLe(amount, 8)
            && (kind.Reference? ==> s[10..42] == owner && s[43] == Scheme(kind, p2sh))
            && (kind.Presence? ==> s[1..33] == owner && s[34] == Scheme(kind, p2sh))
  {
    hide ToLe;
  }

  /** The amount field of a note is its amount, whoever holds it. */
  lemma AmountOfNote(t: Template, owner: Key, amount: nat, p2sh: bool, code: bytes)
    requires amount < U64_LIMIT && Note(t, owner, amount, p2sh, code).Success?
    ensures var r := Note(t, owner, amount, p2sh, code).value;
            |r| == |t.prefix| + StateLength(t.kind) + |t.program| && AmountIn(t, r) == amount
  {
    hide NoteState, ToLe, FromLe;
    var s, r := NoteState(t.kind, owner, amount, p2sh), Note(t, owner, amount, p2sh, code).value;
    StateShape(t.kind, owner, amount, p2sh);
    var at := AmountOffset(t.kind);
    assert r[|t.prefix|..|t.prefix| + |s|] == s;
    assert r[|t.prefix| + at..|t.prefix| + at + 8] == s[at..at + 8];
    Pow256Small();
    LeRoundTrip(amount, 8);
  }

  /** Parsing accepts exactly the notes of this owner with an amount in range, and recovers amount and code. */
  lemma ParseExactly(t: Template, r: bytes, owner: Key, p2sh: bool, amount: nat, code: bytes)
    requires amount < U64_LIMIT
    ensures ParseNote(t, r, owner, p2sh) == Success((amount, code))
       <==> 1 <= amount <= I64_MAX && Note(t, owner, amount, p2sh, code) == Success(r)
  {
    hide NoteState, AmountIn;
    if Note(t, owner, amount, p2sh, code) == Success(r) {
      AmountOfNote(t, owner, amount, p2sh, code);
      assert t.prefix <= r;
      StateShape(t.kind, owner, amount, p2sh);
      assert r[|t.prefix| + StateLength(t.kind)..] == code;
    }
  }

  /** A note determines its owner, its amount and whether a script holds it. */
  lemma NoteIsInjective(t: Template, a: Key, m: nat, p: bool, b: Key, n: nat, q: bool)
    requires m < U64_LIMIT && n < U64_LIMIT
    requires Note(t, a, m, p, t.program) == Note(t, b, n, q, t.program)
    ensures a == b && m == n && p == q
  {
    hide NoteState, ToLe, FromLe;
    AmountOfNote(t, a, m, p, t.program);
    AmountOfNote(t, b, n, q, t.program);
    var s, u := NoteState(t.kind, a, m, p), NoteState(t.kind, b, n, q);
    StateShape(t.kind, a, m, p);
    StateShape(t.kind, b, n, q);
    assert (t.prefix + s + t.program)[|t.prefix|..|t.prefix| + |s|] == s;
    assert (t.prefix + u + t.program)[|t.prefix|..|t.prefix| + |u|] == u;
  }

  // ----- the router's terms -------------------------------------------------------------------------------

  datatype Field = Identity(id: Key) | Number(n: nat)

  /** The fields of the router state, in order; true marks a 32-byte identity. */
  const OUT_FIELDS: seq<(string, bool)> := [
    ("recipient", true), ("refund", true), ("outKind", false), ("outCovid", true), ("outTpl", true),
    ("outPfl", false), ("outSfl", false)]
  const IN_FIELDS: seq<(string, bool)> := [
    ("minOut", false), ("inKind", false), ("inCovid", true), ("inTpl", true), ("inPfl", false),
    ("inSfl", false), ("inAmount", false)]
  const FEE_FIELDS: seq<(string, bool)> := [
    ("wfeePk", true), ("wfee", false), ("feeCap", false), ("midMin", false), ("deadline", false),
    ("intent", true), ("tkFloor", false)]
  const FIELDS: seq<(string, bool)> := OUT_FIELDS + (IN_FIELDS + FEE_FIELDS)

  type Terms = map<string, Field>

  datatype StateError = UnknownField | BadField(name: string) | WrongLength

  predicate Fits(field: (string, bool), t: Terms) {
    field.0 in t && (if field.1 then t[field.0].Identity? else t[field.0].Number? && t[field.0].n <= I64_MAX)
  }

  function EncodeField(field: (string, bool), t: Terms): bytes
    requires Fits(field, t)
  {
    if field.1 then [32] + t[field.0].id else [8] + ToLe(t[field.0].n, 8)
  }

  function EncodeFields(fields: seq<(string, bool)>, t: Terms): Result<bytes, StateError> {
    if fields == [] then Success([])
    else if !Fits(fields[0], t) then Failure(BadField(fields[0].0))
    else
      match EncodeFields(fields[1..], t)
      case Failure(e) => Failure(e)
      case Success(rest) => Success(EncodeField(fields[0], t) + rest)
  }

  function Names(fields: seq<(string, bool)>): set<string> {
    set f | f in fields :: f.0
  }

  function State(t: Terms): Result<bytes, StateError> {
    if !(t.Keys <= Names(FIELDS)) then Failure(UnknownField)
    else
      match EncodeFields(FIELDS, t)
      case Failure(e) => Failure(e)
      case Success(out) => if |out| != 381 then Failure(WrongLength) else Success(out)
  }

  function Width(fields: seq<(string, bool)>): nat {
    if fields == [] then 0 else (if fields[0].1 then 33 else 9) + Width(fields[1..])
  }

  lemma {:induction false} EncodedWidth(fields: seq<(string, bool)>, t: Terms)
    requires EncodeFields(fields, t).Success?
    ensures |EncodeFields(fields, t).value| == Width(fields)
  {
    if fields != [] {
      EncodedWidth(fields[1..], t);
    }
  }

  lemma {:induction false} WidthConcat(a: seq<(string, bool)>, b: seq<(string, bool)>)
    ensures Width(a + b) == Width(a) + Width(b)
  {
    if a == [] {
      assert a + b == b;
    } else {
      assert (a + b)[1..] == a[1..] + b;
      WidthConcat(a[1..], b);
    }
  }

  lemma {:induction false} SameFields(fields: seq<(string, bool)>, t: Terms, u: Terms)
    requires EncodeFields(fields, t).Success? && EncodeFields(fields, u) == EncodeFields(fields, t)
    ensures forall f :: f in fields ==> f.0 in t && f.0 in u && t[f.0] == u[f.0]
  {
    hide ToLe, FromLe;
    if fields != [] {
      var f := fields[0];
      var a, b := EncodeField(f, t), EncodeField(f, u);
      var x, y := EncodeFields(fields[1..], t).value, EncodeFields(fields[1..], u).value;
      assert |a| == |b| && (a + x)[..|a|] == a && (b + y)[..|b|] == b;
      assert (a + x)[|a|..] == x && (b + y)[|b|..] == y;
      SameFields(fields[1..], t, u);
      Pow256Small();
      if f.1 {
        assert a[1..] == t[f.0].id && b[1..] == u[f.0].id;
      } else {
        assert a[1..] == ToLe(t[f.0].n, 8) && b[1..] == ToLe(u[f.0].n, 8);
        LeRoundTrip(t[f.0].n, 8);
        LeRoundTrip(u[f.0].n, 8);
      }
      assert fields == [f] + fields[1..];
    }
  }

  /** Two terms with the same router state are the same terms. */
  lemma StateIsInjective(t: Terms, u: Terms)
    requires State(t).Success? && State(t) == State(u)
    ensures t == u
  {
    hide EncodeFields;
    SameFields(FIELDS, t, u);
    assert t.Keys == u.Keys by {
      forall k | k in Names(FIELDS) ensures k in t && k in u && t[k] == u[k] {
        var f :| f in FIELDS && f.0 == k;
      }
    }
  }

  /** The length check never fails: 21 well-formed fields always take 381 bytes. */
  lemma StateLengthIsFixed(t: Terms)
    ensures State(t) != Failure(WrongLength)
    ensures State(t).Success? <==>
              && t.Keys <= Names(FIELDS)
              && forall f :: f in FIELDS ==>
                   && f.0 in t
                   && if f.1 then t[f.0].Identity? else t[f.0].Number? && t[f.0].n < 0x8000_0000_0000_0000
  {
    hide EncodeFields, EncodeField;
    FieldsWidth();
    EncodesExactly(FIELDS, t);
    if EncodeFields(FIELDS, t).Success? {
      EncodedWidth(FIELDS, t);
    }
  }

  lemma {:induction false} EncodesExactly(fields: seq<(string, bool)>, t: Terms)
    ensures EncodeFields(fields, t).Success? <==> forall f :: f in fields ==> Fits(f, t)
    ensures EncodeFields(fields, t).Failure? ==> EncodeFields(fields, t).error.BadField?
  {
    if fields != [] {
      EncodesExactly(fields[1..], t);
      assert fields == [fields[0]] + fields[1..];
    }
  }

  lemma FieldsWidth()
    ensures Width(FIELDS) == 381
  {
    hide Width, OUT_FIELDS, IN_FIELDS, FEE_FIELDS;
    WidthConcat(OUT_FIELDS, IN_FIELDS + FEE_FIELDS);
    WidthConcat(IN_FIELDS, FEE_FIELDS);
    OutWidth();
    InWidth();
    FeeWidth();
  }

  lemma OutWidth()
    ensures Width(OUT_FIELDS) == 159
  {
    hide Width;
    SevenWide(OUT_FIELDS);
  }

  lemma InWidth()
    ensures Width(IN_FIELDS) == 111
  {
    hide Width;
    SevenWide(IN_FIELDS);
  }

  lemma FeeWidth()
    ensures Width(FEE_FIELDS) == 111
  {
    hide Width;
    SevenWide(FEE_FIELDS);
  }

  function FieldWidth(f: (string, bool)): nat {
    if f.1 then 33 else 9
  }

  lemma SevenWide(f: seq<(string, bool)>)
    requires |f| == 7
    ensures Width(f) == FieldWidth(f[0]) + FieldWidth(f[1]) + FieldWidth(f[2]) + FieldWidth(f[3]) + FieldWidth(f[4])
                        + FieldWidth(f[5]) + FieldWidth(f[6])
  {
    assert f[1..][1..] == f[2..] && f[2..][1..] == f[3..] && f[3..][1..] == f[4..] && f[4..][1..] == f[5..];
    assert f[5..][1..] == f[6..] && f[6..][1..] == [];
    assert Width(f[6..]) == FieldWidth(f[6]);
    assert Width(f[5..]) == FieldWidth(f[5]) + Width(f[6..]);
    assert Width(f[4..]) == FieldWidth(f[4]) + Width(f[5..]);
    assert Width(f[3..]) == FieldWidth(f[3]) + Width(f[4..]);
    assert Width(f[2..]) == FieldWidth(f[2]) + Width(f[3..]);
    assert Width(f[1..]) == FieldWidth(f[1]) + Width(f[2..]);
  }

  /** The encoder's loop as written: appends field after field. */
  method AppendFields(fields: seq<(string, bool)>, t: Terms) returns (r: Result<bytes, StateError>)
    ensures r == EncodeFields(fields, t)
  {
    hide EncodeField, Fits;
    var out: bytes, i := [], 0;
    assert fields[0..] == fields;
    ghost var whole := EncodeFields(fields, t);
    assert whole.Success? ==> [] + whole.value == whole.value;
    while i < |fields|
      invariant 0 <= i <= |fields|
      invariant whole == match EncodeFields(fields[i..], t)
                         case Failure(e) => Failure(e)
                         case Success(rest) => Success(out + rest)
    {
      var f := fields[i];
      assert fields[i..][0] == f && fields[i..][1..] == fields[i + 1..];
      if !Fits(f, t) {
        return Failure(BadField(f.0));
      }
      ghost var rest := EncodeFields(fields[i + 1..], t);
      assert rest.Success? ==> out + (EncodeField(f, t) + rest.value) == (out + EncodeField(f, t)) + rest.value;
      out := out + EncodeField(f, t);
      i := i + 1;
    }
    assert fields[i..] == [] && EncodeFields(fields[i..], t) == Success([]) && out + [] == out;
    return Success(out);
  }

  method EncodeState(t: Terms) returns (r: Result<bytes, StateError>)
    ensures r == State(t)
  {
    hide Names, EncodeFields;
    if !(t.Keys <= Names(FIELDS)) {
      return Failure(UnknownField);
    }
    var fields := AppendFields(FIELDS, t);
    match fields {
      case Failure(e) => r := Failure(e);
      case Success(out) => r := if |out| != 381 then Failure(WrongLength) else Success(out);
    }
  }
}
