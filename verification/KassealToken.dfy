/** Pinned Kasseal programs: which bytes a pin leaves free, and the token state read from them. */
module KassealToken {
  import opened Wrappers
  import opened Bytes

  const SUPPLY := 1_200_000_000
  const CREATOR := 36
  const TOKEN_LENGTH := 4031
  const STATE := 34
  const STATE_END := 146

  /**
   * A pinned program: its length, the state it may carry, the places its creator appears in, and the program
   * with all of those blanked. The pinned digest stands for the blanked program.
   */
  datatype Pin = Pin(length: nat, stateAt: nat, stateLength: nat, creators: seq<nat>, window: bool, blanked: bytes)

  predicate Covered(pin: Pin, k: nat, i: nat)
    requires k <= |pin.creators|
  {
    || pin.stateAt <= i < pin.stateAt + pin.stateLength
    || exists j :: 0 <= j < k && pin.creators[j] <= i < pin.creators[j] + CREATOR
  }

  /** The program with its state and its first `k` creators blanked. */
  function Blanked(program: bytes, pin: Pin, k: nat): bytes
    requires k <= |pin.creators|
  {
    seq(|program|, i requires 0 <= i < |program| => if Covered(pin, k, i) then 0 else program[i])
  }

  function CreatorAt(program: bytes, at: nat): Option<bytes> {
    if at + CREATOR > |program| then None else Some(program[at..at + CREATOR])
  }

  /** A versioned pay-to-key script: version 0, a 32-byte push and the signature check. */
  predicate PaysToKey(spk: bytes) {
    |spk| == CREATOR && spk[..3] == [0, 0, 32] && spk[35] == 0xac
  }

  predicate SameCreator(program: bytes, pin: Pin, k: nat)
    requires k <= |pin.creators|
  {
    forall j :: 0 <= j < k ==>
      && CreatorAt(program, pin.creators[j]).Some?
      && CreatorAt(program, pin.creators[j]) == CreatorAt(program, pin.creators[0])
      && PaysToKey(CreatorAt(program, pin.creators[j]).value)
  }

  predicate Matches(program: bytes, pin: Pin) {
    && |program| == pin.length && pin.stateAt + pin.stateLength <= |program|
    && SameCreator(program, pin, |pin.creators|)
    && Blanked(program, pin, |pin.creators|) == pin.blanked
  }

  /** A pin fixes every byte outside the state and the creators, and only those. */
  lemma PinFixesTheRest(p: bytes, q: bytes, pin: Pin)
    requires Matches(p, pin)
    ensures Matches(q, pin) <==>
      && |q| == |p| && SameCreator(q, pin, |pin.creators|)
      && forall i :: 0 <= i < |p| && !Covered(pin, |pin.creators|, i) ==> q[i] == p[i]
  {
    hide SameCreator, Covered;
    var n := |pin.creators|;
    var a, b := Blanked(p, pin, n), Blanked(q, pin, n);
    if Matches(q, pin) {
      forall i | 0 <= i < |p| && !Covered(pin, n, i) ensures q[i] == p[i] {
        assert a[i] == p[i] && b[i] == q[i];
      }
    } else if |q| == |p| && SameCreator(q, pin, n) {
      assert a != b;
      var i :| 0 <= i < |a| && a[i] != b[i];
      assert !Covered(pin, n, i);
    }
  }

  /** At `at` stands a version-0 pay-to-key script: a push of 32 bytes and the check. */
  predicate KeyScriptAt(program: bytes, at: nat) {
    && at + 36 <= |program|
    && program[at] == 0 && program[at + 1] == 0 && program[at + 2] == 32 && program[at + 35] == 0xac
  }

  /** Every place of the creator holds such a script, always the same. */
  predicate NamesOneCreator(program: bytes, pin: Pin) {
    forall j :: 0 <= j < |pin.creators| ==>
      && KeyScriptAt(program, pin.creators[j]) && KeyScriptAt(program, pin.creators[0])
      && program[pin.creators[j]..pin.creators[j] + 36] == program[pin.creators[0]..pin.creators[0] + 36]
  }

  lemma KeyScriptExactly(program: bytes, at: nat)
    ensures KeyScriptAt(program, at) <==> CreatorAt(program, at).Some? && PaysToKey(CreatorAt(program, at).value)
  {
    if at + 36 <= |program| {
      var spk := program[at..at + 36];
      assert spk[0] == program[at] && spk[1] == program[at + 1] && spk[2] == program[at + 2];
      assert spk[35] == program[at + 35] && spk[..3] == [spk[0], spk[1], spk[2]];
    }
  }

  lemma CreatorExactly(program: bytes, pin: Pin)
    ensures SameCreator(program, pin, |pin.creators|) <==> NamesOneCreator(program, pin)
  {
    hide KeyScriptAt, PaysToKey;
    forall at: nat ensures KeyScriptAt(program, at)
                      <==> CreatorAt(program, at).Some? && PaysToKey(CreatorAt(program, at).value) {
      KeyScriptExactly(program, at);
    }
    KeyScriptsFit(program);
  }

  lemma KeyScriptsFit(program: bytes)
    ensures forall at: nat :: KeyScriptAt(program, at) ==> at + 36 <= |program|
  {
  }

  /**
   Exactly which programs match a pin: those of its length that name one creator wherever it says so and that are the
   blanked program everywhere else but in the state, where that has zeros.
   */
  lemma MatchesExactly(program: bytes, pin: Pin)
    ensures Matches(program, pin) <==>
              && |program| == pin.length == |pin.blanked| && pin.stateAt + pin.stateLength <= pin.length
              && NamesOneCreator(program, pin)
              && forall i :: 0 <= i < |program| ==>
                   pin.blanked[i] == if Covered(pin, |pin.creators|, i) then 0 else program[i]
  {
    hide SameCreator, NamesOneCreator, Covered;
    CreatorExactly(program, pin);
    var b := Blanked(program, pin, |pin.creators|);
    assert forall i :: 0 <= i < |program| ==> b[i] == if Covered(pin, |pin.creators|, i) then 0 else program[i];
  }

  method Fill(a: array<byte>, from: nat, to: nat)
    requires from <= to <= a.Length
    modifies a
    ensures forall i :: 0 <= i < a.Length ==> a[i] == if from <= i < to then 0 else old(a[i])
  {
    for k := from to to
      invariant forall i :: 0 <= i < a.Length ==> a[i] == if from <= i < k then 0 else old(a[i])
    {
      a[k] := 0;
    }
  }

  /** The comparison as written: blanks a copy in place and compares it with what the digest pins. */
  method MatchPin(program: bytes, pin: Pin) returns (ok: bool)
    ensures ok <==> Matches(program, pin)
  {
    hide PaysToKey;
    if |program| != pin.length || pin.stateAt + pin.stateLength > |program| {
      return false;
    }
    var copy := new byte[|program|](i requires 0 <= i < |program| => program[i]);
    Fill(copy, pin.stateAt, pin.stateAt + pin.stateLength);
    var n := |pin.creators|;
    for k := 0 to n
      invariant SameCreator(program, pin, k)
      invariant copy[..] == Blanked(program, pin, k)
    {
      var at := pin.creators[k];
      var spk := CreatorAt(program, at);
      if spk.None? || !PaysToKey(spk.value) || spk != CreatorAt(program, pin.creators[0]) {
        assert !SameCreator(program, pin, n);
        return false;
      }
      ghost var before := copy[..];
      Fill(copy, at, at + CREATOR);
      forall i | 0 <= i < |program| ensures copy[i] == Blanked(program, pin, k + 1)[i] {
        CoverNext(pin, k, i);
        assert before[i] == Blanked(program, pin, k)[i];
      }
    }
    return copy[..] == pin.blanked;
  }

  lemma CoverNext(pin: Pin, k: nat, i: nat)
    requires k < |pin.creators|
    ensures Covered(pin, k + 1, i) <==> Covered(pin, k, i) || pin.creators[k] <= i < pin.creators[k] + CREATOR
  {
  }

  // ----- the token state --------------------------------------------------------------------------------------

  datatype Holding = Holding(amount: nat, key: Key, scheme: byte)

  /** The pinned token program around its state. */
  datatype TokenProgram = TokenProgram(head: bytes, tail: bytes)

  ghost predicate Pinned(t: TokenProgram) {
    |t.head| == STATE && |t.tail| == TOKEN_LENGTH - STATE_END
  }

  function TokenPin(t: TokenProgram): Pin {
    Pin(TOKEN_LENGTH, STATE, STATE_END - STATE, [], false, t.head + Zeros(STATE_END - STATE) + t.tail)
  }

  predicate PlainState(s: bytes)
    requires |s| == STATE_END - STATE
  {
    && s[0] == 8 && s[9] == 32 && s[42] == 1 && s[43] in {0, 4} && s[44] == 1 && s[45] == 0 && s[46] == 32
    && s[79] == 32
    && forall i :: 47 <= i < 112 && i != 79 ==> s[i] == 0
  }

  /** Reads who holds how much; nothing for programs that are not the pinned token in its plain form. */
  function Token(t: TokenProgram, program: bytes): Option<Holding> {
    if !Matches(program, TokenPin(t)) then None
    else
      var s := program[STATE..STATE_END];
      if !PlainState(s) || FromLe(s[1..9]) > SUPPLY then None
      else Some(Holding(FromLe(s[1..9]), s[10..42], s[43]))
  }

  function TokenState(h: Holding): bytes {
    [8] + ToLe(h.amount, 8) + [32] + h.key + [1, h.scheme, 1, 0, 32] + Zeros(32) + [32] + Zeros(32)
  }

  lemma StateParts(h: Holding)
    ensures var s := TokenState(h);
            && |s| == STATE_END - STATE
            && s[1..9] == ToLe(h.amount, 8) && s[10..42] == h.key && s[43] == h.scheme
            && (h.scheme in {0, 4} ==> PlainState(s))
  {
    hide ToLe;
  }

  lemma StateIs(s: bytes)
    requires |s| == STATE_END - STATE && PlainState(s)
    ensures s == TokenState(Holding(FromLe(s[1..9]), s[10..42], s[43]))
  {
    hide ToLe, FromLe;
    LeOfNumber(s[1..9]);
    StateParts(Holding(FromLe(s[1..9]), s[10..42], s[43]));
    var again := TokenState(Holding(FromLe(s[1..9]), s[10..42], s[43]));
    forall i | 0 <= i < |s| ensures s[i] == again[i] {
      if 1 <= i < 9 {
        assert s[i] == s[1..9][i - 1] && again[i] == again[1..9][i - 1];
      } else if 10 <= i < 42 {
        assert s[i] == s[10..42][i - 10] && again[i] == again[10..42][i - 10];
      }
    }
  }

  lemma MatchesToken(t: TokenProgram, program: bytes)
    requires Pinned(t)
    ensures Matches(program, TokenPin(t))
       <==> |program| == TOKEN_LENGTH && program[..STATE] == t.head && program[STATE_END..] == t.tail
  {
    var pin := TokenPin(t);
    if |program| == TOKEN_LENGTH {
      var b := Blanked(program, pin, 0);
      assert b == program[..STATE] + Zeros(STATE_END - STATE) + program[STATE_END..];
      assert b[..STATE] == program[..STATE] && b[STATE_END..] == program[STATE_END..];
      assert pin.blanked[..STATE] == t.head && pin.blanked[STATE_END..] == t.tail;
    }
  }

  /** A token reads as `h` exactly when it is the pinned program around the state of `h`. */
  lemma TokenExactly(t: TokenProgram, program: bytes, h: Holding)
    requires Pinned(t)
    ensures Token(t, program) == Some(h)
       <==> h.amount <= SUPPLY && h.scheme in {0, 4} && program == t.head + TokenState(h) + t.tail
    ensures Token(t, program).Some? ==> |program| == 4031
  {
    hide ToLe, FromLe, Matches, PlainState, TokenState;
    MatchesToken(t, program);
    StateParts(h);
    if Token(t, program) == Some(h) {
      var s := program[STATE..STATE_END];
      StateIs(s);
      SchemeOf(s);
      assert program == program[..STATE] + s + program[STATE_END..];
    }
    if h.amount <= SUPPLY && h.scheme in {0, 4} && program == t.head + TokenState(h) + t.tail {
      assert program[STATE..STATE_END] == TokenState(h);
      Pow256Small();
      LeRoundTrip(h.amount, 8);
      assert program[..STATE] == t.head && program[STATE_END..] == t.tail;
    }
  }

  lemma SchemeOf(s: bytes)
    requires |s| == STATE_END - STATE && PlainState(s)
    ensures s[43] in {0, 4}
  {
  }
}
