/** Scripts that only push data, and recovering the last thing one pushes. */
module PushScript {
  import opened Wrappers
  import opened Bytes

  datatype ScriptError = Truncated | NotPushOnly | NothingPushed

  /** A push in any of the forms a script can give it. */
  datatype Push =
    | Direct(data: bytes)
    | Length1(data: bytes)
    | Length2(data: bytes)
    | Length4(data: bytes)
    | Small(op: byte)

  predicate IsSmall(op: byte) {
    op == 0 || op == 79 || 81 <= op <= 96
  }

  predicate WellFormed(p: Push) {
    match p
    case Direct(d) => 1 <= |d| <= 75
    case Length1(d) => |d| < 0x100
    case Length2(d) => |d| < 0x1_0000
    case Length4(d) => |d| < 0x1_0000_0000
    case Small(op) => op == 0x00 || op == 0x4f || 0x51 <= op <= 0x60
  }

  function Encode(p: Push): bytes
    requires WellFormed(p)
  {
    match p
    case Direct(d) => [|d|] + d
    case Length1(d) => [76, |d|] + d
    case Length2(d) => [77] + ToLe(|d|, 2) + d
    case Length4(d) => [78] + ToLe(|d|, 4) + d
    case Small(op) => [op]
  }

  /** What a push leaves on the stack, as far as a redeem script is concerned. */
  function Pushed(p: Push): bytes {
    if p.Small? then [] else p.data
  }

  predicate AllWellFormed(ps: seq<Push>) {
    forall p :: p in ps ==> WellFormed(p)
  }

  function EncodeAll(ps: seq<Push>): bytes
    requires AllWellFormed(ps)
  {
    if ps == [] then [] else Encode(ps[0]) + EncodeAll(ps[1..])
  }

  // ----- the signature-script parser ---------------------------------------------------------------

  /** One turn of the parser: what it pushed and where it stands, reading the opcode at `pos`. */
  function ReadPush(script: bytes, pos: nat): Result<(bytes, nat), ScriptError>
    requires pos < |script|
  {
    var op, at := script[pos], pos + 1;
    if IsSmall(op) then Success(([], at))
    else if op <= 75 then ReadData(script, at, op)
    else if op == 76 then
      if at + 1 > |script| then Failure(Truncated) else ReadData(script, at + 1, script[at])
    else if op == 77 then
      if at + 2 > |script| then Failure(Truncated) else ReadData(script, at + 2, FromLe(script[at..at + 2]))
    else if op == 78 then
      if at + 4 > |script| then Failure(Truncated) else ReadData(script, at + 4, FromLe(script[at..at + 4]))
    else Failure(NotPushOnly)
  }

  function ReadData(script: bytes, at: nat, length: nat): Result<(bytes, nat), ScriptError> {
    if at + length > |script| then Failure(Truncated) else Success((script[at..at + length], at + length))
  }

  function LastPush(script: bytes, pos: nat, last: bytes): Result<bytes, ScriptError>
    requires pos <= |script|
    decreases |script| - pos
  {
    if pos == |script| then
      if last == [] then Failure(NothingPushed) else Success(last)
    else
      match ReadPush(script, pos)
      case Failure(e) => Failure(e)
      case Success((data, next)) => LastPush(script, next, data)
  }

  /** The parser as written: a cursor, and the latest push overwritten as it goes. */
  method Redeem(script: bytes) returns (r: Result<bytes, ScriptError>)
    ensures r == LastPush(script, 0, [])
  {
    var pos: nat, last: bytes := 0, [];
    while pos < |script|
      invariant pos <= |script|
      invariant LastPush(script, pos, last) == LastPush(script, 0, [])
    {
      var push := ReadPush(script, pos);
      if push.Failure? {
        return Failure(push.error);
      }
      last, pos := push.value.0, push.value.1;
    }
    return if last == [] then Failure(NothingPushed) else Success(last);
  }

  // ----- parsing inverts encoding --------------------------------------------------------------------

  lemma LengthBytes(n: nat, width: nat)
    requires (width == 2 && n < 0x1_0000) || (width == 4 && n < 0x1_0000_0000)
    ensures FromLe(ToLe(n, width)) == n
  {
    hide ToLe, FromLe;
    Pow256Small();
    LeRoundTrip(n, width);
  }

  lemma NumberBytes(b: bytes)
    requires |b| == 2 || |b| == 4
    ensures ToLe(FromLe(b), |b|) == b
    ensures FromLe(b) < if |b| == 2 then 0x1_0000 else 0x1_0000_0000
  {
    hide ToLe, FromLe;
    Pow256Small();
    LeOfNumber(b);
  }

  /** Reading `width` length bytes and then that many data bytes. */
  lemma ReadSized(script: bytes, at: nat, width: nat, data: bytes)
    requires (width == 2 && |data| < 0x1_0000) || (width == 4 && |data| < 0x1_0000_0000)
    requires at + width + |data| <= |script|
    requires script[at..at + width + |data|] == ToLe(|data|, width) + data
    ensures FromLe(script[at..at + width]) == |data|
    ensures ReadData(script, at + width, |data|) == Success((data, at + width + |data|))
  {
    hide ToLe, FromLe;
    LengthBytes(|data|, width);
    var whole := script[at..at + width + |data|];
    assert script[at..at + width] == whole[..width];
    assert script[at + width..at + width + |data|] == whole[width..];
  }

  /** A well-formed push is read back, whatever surrounds it. */
  lemma ReadEncoded(script: bytes, pos: nat, p: Push)
    requires WellFormed(p)
    requires pos + |Encode(p)| <= |script| && script[pos..pos + |Encode(p)|] == Encode(p)
    ensures pos < |script|
    ensures ReadPush(script, pos) == Success((Pushed(p), pos + |Encode(p)|))
  {
    hide ToLe, FromLe;
    var code := Encode(p);
    var here := script[pos..pos + |code|];
    assert script[pos] == here[0];
    match p
    case Direct(d) =>
      assert script[pos + 1..pos + 1 + |d|] == here[1..];
    case Length1(d) =>
      assert script[pos + 1] == here[1];
      assert script[pos + 2..pos + 2 + |d|] == here[2..];
    case Length2(d) =>
      assert here == [77] + (ToLe(|d|, 2) + d);
      assert script[pos + 1..pos + 3 + |d|] == here[1..] == ToLe(|d|, 2) + d;
      ReadSized(script, pos + 1, 2, d);
    case Length4(d) =>
      assert here == [78] + (ToLe(|d|, 4) + d);
      assert script[pos + 1..pos + 5 + |d|] == here[1..] == ToLe(|d|, 4) + d;
      ReadSized(script, pos + 1, 4, d);
    case Small(op) =>
  }

  /** The push the parser reads at `pos`. */
  function PushAt(script: bytes, pos: nat): Push
    requires pos < |script| && ReadPush(script, pos).Success?
  {
    var op, data := script[pos], ReadPush(script, pos).value.0;
    if IsSmall(op) then Small(op)
    else if op <= 75 then Direct(data)
    else if op == 76 then Length1(data)
    else if op == 77 then Length2(data)
    else Length4(data)
  }

  /** A push that is read is a well-formed push, and the cursor moves by its encoding. */
  lemma ReadIsEncoded(script: bytes, pos: nat)
    requires pos < |script| && ReadPush(script, pos).Success?
    ensures var (data, next) := ReadPush(script, pos).value;
            var p := PushAt(script, pos);
            && WellFormed(p) && Pushed(p) == data
            && pos < next <= |script| && script[pos..next] == Encode(p)
  {
    hide ToLe, FromLe;
    var (data, next) := ReadPush(script, pos).value;
    var op, at := script[pos], pos + 1;
    if op <= 76 || op > 78 {
      ReadShortIsEncoded(script, pos);
    } else if op == 77 {
      NumberBytes(script[at..at + 2]);
      assert script[pos..next] == [op] + script[at..at + 2] + data;
    } else {
      NumberBytes(script[at..at + 4]);
      assert script[pos..next] == [op] + script[at..at + 4] + data;
    }
  }

  lemma ReadShortIsEncoded(script: bytes, pos: nat)
    requires pos < |script| && ReadPush(script, pos).Success? && (script[pos] <= 76 || script[pos] > 78)
    ensures var (data, next) := ReadPush(script, pos).value;
            var p := PushAt(script, pos);
            && WellFormed(p) && Pushed(p) == data
            && pos < next <= |script| && script[pos..next] == Encode(p)
  {
    hide ToLe, FromLe;
    var (data, next) := ReadPush(script, pos).value;
    var op, at := script[pos], pos + 1;
    if IsSmall(op) {
      assert script[pos..next] == [op];
    } else if op == 76 {
      assert script[pos..next] == [op, script[at]] + data;
    } else {
      assert script[pos..next] == [op] + data;
    }
  }

  function LastOf(ps: seq<Push>, otherwise: bytes): bytes {
    if ps == [] then otherwise else Pushed(ps[|ps| - 1])
  }

  lemma {:induction false} LastPushOfEncoded(script: bytes, pos: nat, ps: seq<Push>, last: bytes)
    requires AllWellFormed(ps) && pos <= |script| && script[pos..] == EncodeAll(ps)
    ensures LastPush(script, pos, last)
         == if LastOf(ps, last) == [] then Failure(NothingPushed) else Success(LastOf(ps, last))
    decreases |ps|
  {
    hide ReadPush, Encode;
    if ps != [] {
      var p, rest := ps[0], ps[1..];
      assert p in ps;
      var next := pos + |Encode(p)|;
      assert script[pos..next] == script[pos..][..|Encode(p)|] == Encode(p);
      assert script[next..] == script[pos..][|Encode(p)|..] == EncodeAll(rest);
      ReadEncoded(script, pos, p);
      LastPushOfEncoded(script, next, rest, Pushed(p));
    }
  }

  /** The pushes of an accepted script, in order. */
  function PushesFrom(script: bytes, pos: nat, last: bytes): seq<Push>
    requires pos <= |script| && LastPush(script, pos, last).Success?
    decreases |script| - pos
  {
    if pos == |script| then []
    else
      var (data, next) := ReadPush(script, pos).value;
      [PushAt(script, pos)] + PushesFrom(script, next, data)
  }

  lemma {:induction false} AcceptedIsPushes(script: bytes, pos: nat, last: bytes)
    requires pos <= |script| && LastPush(script, pos, last).Success?
    ensures AllWellFormed(PushesFrom(script, pos, last))
    ensures script[pos..] == EncodeAll(PushesFrom(script, pos, last))
    ensures LastPush(script, pos, last) == Success(LastOf(PushesFrom(script, pos, last), last))
    ensures LastPush(script, pos, last).value != []
    decreases |script| - pos
  {
    hide ReadPush, Encode, PushAt, Pushed;
    if pos < |script| {
      ReadIsEncoded(script, pos);
      var (data, next) := ReadPush(script, pos).value;
      AcceptedIsPushes(script, next, data);
      assert script[pos..] == script[pos..next] + script[next..];
    }
  }

  /** `script` is some sequence of pushes, the last of which pushes `data`. */
  ghost predicate EndsWithPushOf(script: bytes, data: bytes) {
    exists ps :: AllWellFormed(ps) && ps != [] && script == EncodeAll(ps) && Pushed(ps[|ps| - 1]) == data
  }

  /** The parser accepts exactly the push-only scripts that end by pushing something, and returns that. */
  lemma RedeemExactly(script: bytes, data: bytes)
    ensures LastPush(script, 0, []) == Success(data) <==> data != [] && EndsWithPushOf(script, data)
  {
    if LastPush(script, 0, []) == Success(data) {
      AcceptedIsPushes(script, 0, []);
      var ps := PushesFrom(script, 0, []);
      assert script[0..] == script;
      assert ps != [] && AllWellFormed(ps) && script == EncodeAll(ps) && Pushed(ps[|ps| - 1]) == data;
    }
    if data != [] && EndsWithPushOf(script, data) {
      var ps :| AllWellFormed(ps) && ps != [] && script == EncodeAll(ps) && Pushed(ps[|ps| - 1]) == data;
      assert script[0..] == script;
      LastPushOfEncoded(script, 0, ps, []);
    }
  }
}
