/** The fixed layout of Forge token notes. */
module ForgeNotes {
  import opened Wrappers
  import opened Words
  import opened Bytes

  const HEAD := 146

  datatype Note = Note(amount: nat, owner: Key, scheme: byte, borrow: byte, guard: Key)

  /** The pinned program: the digest it carries and the code behind the state. */
  datatype Template = Template(digest: Key, suffix: bytes)

  function State(n: Note): bytes {
    [8] + ToLe(n.amount, 8) + [32] + n.owner + [1, n.scheme, 1, n.borrow, 32] + n.guard + [32] + Zeros(32)
  }

  function Program(t: Template, n: Note): bytes {
    [0x6b, 32] + t.digest + State(n) + t.suffix
  }

  predicate Framed(r: bytes) {
    && |r| >= HEAD && r[0] == 0x6b && r[1] == 32 && r[34] == 8 && r[43] == 32 && r[76] == 1 && r[78] == 1
    && r[80] == 32 && r[113] == 32
  }

  function Fields(r: bytes): Note
    requires |r| >= HEAD
  {
    Note(FromLe(r[35..43]), r[44..76], r[77], r[79], r[81..113])
  }

  function Parse(t: Template, r: bytes): Option<Note> {
    if !Framed(r) then None
    else
      var n := Fields(r);
      if n.amount > I64_MAX || n.borrow > 2 || Program(t, n) != r then None else Some(n)
  }

  lemma StateShape(n: Note)
    ensures var s := State(n);
            && |s| == 112 && s[0] == 8 && s[1..9] == ToLe(n.amount, 8) && s[9] == 32 && s[10..42] == n.owner
            && s[42] == 1 && s[43] == n.scheme && s[44] == 1 && s[45] == n.borrow && s[46] == 32
            && s[47..79] == n.guard && s[79] == 32
  {
    hide ToLe;
  }

  lemma ProgramShape(t: Template, n: Note)
    requires n.amount < U64_LIMIT
    ensures Framed(Program(t, n)) && Fields(Program(t, n)) == n
  {
    hide State, ToLe, FromLe;
    StateShape(n);
    var s, r := State(n), Program(t, n);
    assert r[34..HEAD] == s;
    assert r[35..43] == s[1..9] && r[44..76] == s[10..42] && r[81..113] == s[47..79];
    assert r[34] == s[0] && r[43] == s[9] && r[76] == s[42] && r[77] == s[43] && r[78] == s[44] && r[79] == s[45];
    assert r[80] == s[46] && r[113] == s[79];
    Pow256Small();
    LeRoundTrip(n.amount, 8);
  }

  /** Parsing recovers exactly the notes the program can carry, and accepts nothing else. */
  lemma ParseExactly(t: Template, r: bytes, n: Note)
    requires n.amount < U64_LIMIT
    ensures Parse(t, r) == Some(n) <==> n.amount <= I64_MAX && n.borrow <= 2 && Program(t, n) == r
  {
    hide Program, Framed, Fields;
    ProgramShape(t, n);
  }
}
