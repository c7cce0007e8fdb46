/** Deeds of dot.k names: the script that carries a name and its owner, and how a sale rebuilds it. */
module DotkDeed {
  import opened Wrappers
  import opened Bytes

  const STATE := 103
  const MAX_NAME := 32
  const CUT := 37
  const REST := 71

  /** The pinned deployment: the deed program, the name digest, which keys lie on the curve, and the registry. */
  datatype Deployment = Deployment(code: bytes, digest: bytes -> Key, onCurve: (byte, Key) -> bool, registry: Key)

  ghost predicate Deployed(w: Deployment) {
    |w.code| > STATE
  }

  predicate NameByte(b: byte) {
    97 <= b <= 122 || 48 <= b <= 57 || b == 45
  }

  predicate ValidName(name: bytes) {
    && 1 <= |name| <= MAX_NAME
    && name[0] != 45 && name[|name| - 1] != 45
    && forall i :: 0 <= i < |name| ==> NameByte(name[i])
  }

  /** Schnorr key, script, lineage, and the two ECDSA parities. */
  predicate ValidOwner(w: Deployment, ownerType: byte, owner: Key) {
    && owner != Zeros(32)
    && match ownerType
       case 0 => w.onCurve(ownerType, owner)
       case 3 => true
       case 4 => owner != w.registry
       case 0x85 => w.onCurve(ownerType, owner)
       case 0x86 => w.onCurve(ownerType, owner)
       case _ => false
  }

  function State(w: Deployment, name: bytes, ownerType: byte, owner: Key): bytes
    requires |name| <= MAX_NAME
  {
    [1, 2, 32] + w.digest(name) + [1, ownerType, 32] + owner + [32] + name + Zeros(MAX_NAME - |name|)
  }

  /** The deed of a name: the program with its state written over bytes 1 to 103. */
  function Script(w: Deployment, name: bytes, ownerType: byte, owner: Key): Option<bytes>
    requires |w.code| > STATE
  {
    if !ValidName(name) || !ValidOwner(w, ownerType, owner) then None
    else Some(w.code[..1] + State(w, name, ownerType, owner) + w.code[1 + STATE..])
  }

  /** The builder as written: appends the state, pads it, and copies it into the program in place. */
  method Build(w: Deployment, name: bytes, ownerType: byte, owner: Key) returns (r: Option<bytes>)
    requires Deployed(w)
    ensures r == Script(w, name, ownerType, owner)
  {
    if !ValidName(name) || !ValidOwner(w, ownerType, owner) {
      return None;
    }
    var state := [1, 2, 32];
    state := state + w.digest(name);
    state := state + [1, ownerType, 32];
    state := state + owner + [32] + name;
    while |state| < STATE
      invariant REST + |name| <= |state| <= STATE
      invariant state
             == [1, 2, 32] + w.digest(name) + [1, ownerType, 32] + owner + [32] + name + Zeros(|state| - REST - |name|)
    {
      assert Zeros(|state| - REST - |name| + 1) == Zeros(|state| - REST - |name|) + [0];
      state := state + [0];
    }
    var script := new byte[|w.code|](i requires 0 <= i < |w.code| => w.code[i]);
    for k := 0 to STATE
      invariant forall i :: 0 <= i < |w.code| ==> script[i] == if 1 <= i < 1 + k then state[i - 1] else w.code[i]
    {
      script[1 + k] := state[k];
    }
    assert script[..] == w.code[..1] + state + w.code[1 + STATE..];
    return Some(script[..]);
  }

  /** What a sale keeps of the seller's deed, and what it puts a new owner between. */
  function Prefix(deed: bytes): bytes
    requires |deed| >= REST
  {
    deed[..CUT]
  }

  function Suffix(deed: bytes): bytes
    requires |deed| >= REST
  {
    deed[REST..]
  }

  lemma StateParts(w: Deployment, name: bytes, ownerType: byte, owner: Key)
    requires |name| <= MAX_NAME
    ensures var s := State(w, name, ownerType, owner);
            && |s| == STATE && s[36] == ownerType && s[38..70] == owner
            && s[..36] == [1, 2, 32] + w.digest(name) + [1] && s[70..] == [32] + name + Zeros(MAX_NAME - |name|)
            && s == s[..36] + [ownerType, 32] + owner + s[70..]
  {
  }

  lemma ScriptParts(w: Deployment, name: bytes, ownerType: byte, owner: Key)
    requires Deployed(w) && Script(w, name, ownerType, owner).Some?
    ensures var d, s := Script(w, name, ownerType, owner).value, State(w, name, ownerType, owner);
            && |d| == |w.code| && |s| == STATE && d[1..1 + STATE] == s
            && Prefix(d) == w.code[..1] + s[..36] && Suffix(d) == s[70..] + w.code[1 + STATE..]
            && d == Prefix(d) + [ownerType, 32] + owner + Suffix(d)
  {
    hide State;
    StateParts(w, name, ownerType, owner);
  }

  /** Cutting the seller's deed and putting any owner between the two parts gives that owner's deed. */
  lemma SaleRebuildsDeed(w: Deployment, name: bytes, seller: Key, ownerType: byte, owner: Key)
    requires Deployed(w)
    requires Script(w, name, 0, seller).Some? && Script(w, name, ownerType, owner).Some?
    ensures var d := Script(w, name, 0, seller).value;
            Prefix(d) + [ownerType, 32] + owner + Suffix(d) == Script(w, name, ownerType, owner).value
  {
    hide State, Prefix, Suffix;
    ScriptParts(w, name, 0, seller);
    ScriptParts(w, name, ownerType, owner);
    StateParts(w, name, 0, seller);
    StateParts(w, name, ownerType, owner);
  }

  function Padded(name: bytes): bytes
    requires |name| <= MAX_NAME
  {
    name + Zeros(MAX_NAME - |name|)
  }

  lemma LongerDiffers(a: bytes, b: bytes)
    requires |a| < |b| && ValidName(b)
    ensures Padded(a) != Padded(b)
  {
    assert NameByte(b[|a|]);
    assert Padded(a)[|a|] == 0 && Padded(b)[|a|] == b[|a|];
  }

  /** Padding does not confuse names: no name has a zero byte. */
  lemma PaddedIsInjective(a: bytes, b: bytes)
    requires ValidName(a) && ValidName(b) && Padded(a) == Padded(b)
    ensures a == b
  {
    assert |a| <= MAX_NAME && |b| <= MAX_NAME && Padded(a)[..|a|] == a && Padded(b)[..|b|] == b;
    if |a| < |b| {
      LongerDiffers(a, b);
    } else if |b| < |a| {
      LongerDiffers(b, a);
    }
  }

  /** A deed determines its name, the type of its owner and the owner. */
  lemma DeedIsInjective(w: Deployment, m: bytes, s: byte, a: Key, n: bytes, t: byte, b: Key)
    requires Deployed(w)
    requires Script(w, m, s, a).Some? && Script(w, m, s, a) == Script(w, n, t, b)
    ensures m == n && s == t && a == b
  {
    hide State, Prefix, Suffix;
    ScriptParts(w, m, s, a);
    ScriptParts(w, n, t, b);
    StateParts(w, m, s, a);
    StateParts(w, n, t, b);
    assert ([32] + m + Zeros(MAX_NAME - |m|))[1..] == Padded(m);
    assert ([32] + n + Zeros(MAX_NAME - |n|))[1..] == Padded(n);
    PaddedIsInjective(m, n);
  }
}
