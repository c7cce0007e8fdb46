/** What every run of native calls guarantees about transaction signatures. */
module SessionRuns {
  import opened Wrappers
  import opened SessionState
  import opened SessionLaw
  import opened SessionCalls

  // ----- runs ----------------------------------------------------------------------------------------------------

  function Run(w: World, stimuli: seq<Stimulus>): World
    decreases |stimuli|
  {
    if stimuli == [] then w else Run(Step(w, stimuli[0]), stimuli[1..])
  }

  ghost predicate AllFresh(w: World, stimuli: seq<Stimulus>)
    decreases |stimuli|
  {
    stimuli == [] || (Fresh(w, stimuli[0]) && AllFresh(Step(w, stimuli[0]), stimuli[1..]))
  }

  lemma {:induction false} RunIsSound(w: World, stimuli: seq<Stimulus>)
    requires Sound(w.s) && AllFresh(w, stimuli)
    ensures Sound(Run(w, stimuli).s)
    decreases |stimuli|
  {
    hide Sound, Step, Fresh;
    if stimuli != [] {
      StepIsSound(w, stimuli[0]);
      RunIsSound(Step(w, stimuli[0]), stimuli[1..]);
    }
  }

  /** In every run from a fresh start the history is lawful and everything held is current. */
  lemma EveryRunIsSound(v: Vault, stimuli: seq<Stimulus>)
    requires AllFresh(World(START, v, 0, false), stimuli)
    ensures Sound(Run(World(START, v, 0, false), stimuli).s)
  {
    RunIsSound(World(START, v, 0, false), stimuli);
  }

  // ----- what a lawful history means --------------------------------------------------------------------------------

  /** The positions of the review, approval, right password and issue that a signature at `j` goes back to. */
  datatype Trail = Trail(review: nat, approval: nat, opening: nat, issue: nat)

  /**
   Same operation, review hash and wallet throughout, in order. Nothing is revoked between review and approval or
   issue and use, and between approval and issue only by right passwords.
   */
  ghost predicate Ordered(h: seq<Event>, j: nat, p: Trail)
    requires j < |h| && h[j].Signed?
  {
    var e := h[j];
    && p.review < p.approval < p.issue < j && p.opening < p.issue
    && h[p.review].Reviewed? && h[p.review].hash == e.binding && h[p.review].operation == e.operation
    && h[p.review].wallet == e.wallet
    && ApprovedAt(h, p.approval, e.operation, e.binding, e.wallet)
    && h[p.issue].Issued? && h[p.issue] == Issued(e.token, e.operation, e.binding, e.wallet, h[p.issue].at)
    && h[p.opening].Opened?
    && (forall k :: p.review <= k < p.approval ==> !h[k].Revoked?)
    && OnlyLoginSince(h[..p.issue], p.approval)
    && (forall k :: p.opening < k < p.issue ==> h[k] != Revoked(false))
    && (forall k :: p.issue <= k < j ==> !h[k].Revoked?)
    && (forall k :: 0 <= k < |h| && k != p.issue && h[k].Issued? ==> h[k].token != e.token)
  }

  /** At each step the one before had not expired: review, login and token were live when they were looked at. */
  ghost predicate InTime(h: seq<Event>, j: nat, p: Trail)
    requires j < |h| && h[j].Signed? && Ordered(h, j, p)
  {
    && h[p.approval].at <= h[p.review].at + REVIEW_LIFE
    && h[p.issue - 1].KeyTaken? && h[p.issue - 1].at < Deadline(h[..p.issue - 1])
    && h[j].at <= h[p.issue].at + TOKEN_LIFE
  }

  ghost predicate GoesBackTo(h: seq<Event>, j: nat, p: Trail)
    requires j < |h| && h[j].Signed?
  {
    Ordered(h, j, p) && InTime(h, j, p)
  }

  lemma LawfulAt(h: seq<Event>, j: nat)
    requires Lawful(h) && j < |h|
    ensures Lawful(h[..j]) && Allowed(h[..j], h[j])
  {
    hide Allowed;
    forall i | 0 <= i < j ensures Allowed(h[..j][..i], h[..j][i]) {
      assert h[..j][..i] == h[..i];
    }
  }

  /** What issuing a token tells about the event before it. */
  lemma IssuedAfterKey(h: seq<Event>, i: nat)
    requires Lawful(h) && i < |h| && h[i].Issued?
    ensures i > 0 && h[i - 1].KeyTaken? && h[i - 1].at < Deadline(h[..i - 1])
    ensures Lawful(h[..i - 1]) && Deadline(h[..i]) == Deadline(h[..i - 1])
  {
    hide Lawful;
    LawfulAt(h, i);
    assert JustTaken(h[..i]);
    LawfulAt(h, i - 1);
    assert h[..i] == h[..i - 1] + [h[i - 1]];
    DeadlineStep(h[..i - 1], h[i - 1]);
  }

  /** Where a login that has a deadline was opened with a right password. */
  lemma {:induction false} OpenedBefore(h: seq<Event>) returns (o: nat)
    requires Lawful(h) && Deadline(h) > 0
    ensures o < |h| && h[o].Opened? && forall k :: o < k < |h| ==> h[k] != Revoked(false)
    decreases |h|
  {
    hide Lawful;
    var n := |h| - 1;
    var e := h[n];
    LawfulAt(h, n);
    if e.Opened? {
      o := n;
    } else if e.Extended? && n > 0 && h[n - 1].Opened? {
      o := n - 1;
    } else {
      ExtendedWhileLive(h);
      o := OpenedBefore(h[..n]);
      assert forall k :: o <= k < n ==> h[k] == h[..n][k];
    }
  }

  /** Apart from right passwords nothing makes a login live that was not. */
  lemma ExtendedWhileLive(h: seq<Event>)
    requires h != [] && Lawful(h) && Deadline(h) > 0 && !h[|h| - 1].Opened?
    requires h[|h| - 1].Extended? && |h| > 1 ==> !h[|h| - 2].Opened?
    ensures Deadline(h[..|h| - 1]) > 0 && h[|h| - 1] != Revoked(false)
  {
    var n := |h| - 1;
    hide Lawful, Deadline, Allowed;
    LawfulAt(h, n);
    assert h == h[..n] + [h[n]];
    DeadlineStep(h[..n], h[n]);
    if h[n].Extended? {
      ExtensionIsLive(h[..n], h[n]);
    }
  }

  lemma ExtensionIsLive(h: seq<Event>, e: Event)
    requires Lawful(h) && Allowed(h, e) && e.Extended? && (h != [] ==> !h[|h| - 1].Opened?)
    ensures Deadline(h) > 0
  {
    hide Lawful, Deadline;
    if Deadline(h) <= e.at {
      var m := |h| - 1;
      IssuedAfterKey(h, m);
      assert h == h[..m] + [h[m]];
      DeadlineStep(h[..m], h[m]);
    }
  }

  /**
   Every transaction signature goes back to one token issued for exactly that operation, review hash and
   wallet, with nothing revoked since; the token goes back to a live login, to the user's approval in the same
   call, and the approval to a core review with nothing revoked in between. Nothing had expired on the way.
   */
  lemma SignatureIsAuthorized(h: seq<Event>, j: nat) returns (p: Trail)
    requires Lawful(h) && j < |h| && h[j].Signed?
    ensures GoesBackTo(h, j, p)
  {
    hide Lawful, Stands, Deadline;
    var e := h[j];
    var i := IssueOf(h, j);
    TransactionsNeedReview(e.operation);
    var a := ApprovalOf(h, i);
    var r := ReviewOf(h, a);
    IssuedAfterKey(h, i);
    var o := KeyOpened(h, i);
    IssuedOnce(h, i);
    p := Trail(r, a, o, i);
  }

  lemma IssueOf(h: seq<Event>, j: nat) returns (i: nat)
    requires Lawful(h) && j < |h| && h[j].Signed?
    ensures var e := h[j];
            && i < j && h[i].Issued? && h[i] == Issued(e.token, e.operation, e.binding, e.wallet, h[i].at)
            && e.at <= h[i].at + TOKEN_LIFE && (forall k :: i <= k < j ==> !h[k].Revoked?)
            && e.operation in TRANSACTION_OPERATIONS
  {
    hide Lawful, Stands;
    LawfulAt(h, j);
    var e := h[j];
    var made: nat :| && Stands(h[..j], Issued(e.token, e.operation, e.binding, e.wallet, made))
                     && e.at <= made + TOKEN_LIFE;
    i := Standing(h, j, Issued(e.token, e.operation, e.binding, e.wallet, made));
  }

  lemma ApprovalOf(h: seq<Event>, i: nat) returns (a: nat)
    requires Lawful(h) && i < |h| && h[i].Issued? && NeedsReview(h[i].operation)
    ensures a < i && ApprovedAt(h, a, h[i].operation, h[i].binding, h[i].wallet)
    ensures OnlyLoginSince(h[..i], a)
  {
    hide Lawful, OnlyLoginSince;
    LawfulAt(h, i);
    var e := h[i];
    assert JustApproved(h[..i], e.operation, e.binding, e.wallet);
    a :| 0 <= a < i && ApprovedAt(h[..i], a, e.operation, e.binding, e.wallet) && OnlyLoginSince(h[..i], a);
  }

  lemma ReviewOf(h: seq<Event>, a: nat) returns (r: nat)
    requires Lawful(h) && a < |h| && h[a].Approved?
    ensures r < a && h[r].Reviewed? && h[r] == Reviewed(h[a].binding, h[a].operation, h[a].wallet, h[r].at)
    ensures h[a].at <= h[r].at + REVIEW_LIFE && forall k :: r <= k < a ==> !h[k].Revoked?
  {
    hide Lawful, Stands;
    LawfulAt(h, a);
    var e := h[a];
    var seen: nat :| Stands(h[..a], Reviewed(e.binding, e.operation, e.wallet, seen)) && e.at <= seen + REVIEW_LIFE;
    r := Standing(h, a, Reviewed(e.binding, e.operation, e.wallet, seen));
  }

  lemma Standing(h: seq<Event>, n: nat, e: Event) returns (i: nat)
    requires n <= |h| && Stands(h[..n], e)
    ensures i < n && h[i] == e && forall k :: i <= k < n ==> !h[k].Revoked?
  {
    i :| 0 <= i < n && h[..n][i] == e && Unrevoked(h[..n], i);
    forall k | i <= k < n ensures !h[k].Revoked? {
      assert h[k] == h[..n][k];
    }
  }

  /** The key a token was issued with was taken on a login that was opened with a right password. */
  lemma KeyOpened(h: seq<Event>, i: nat) returns (o: nat)
    requires Lawful(h) && i < |h| && h[i].Issued?
    ensures o < i && h[o].Opened? && forall k :: o < k < i ==> h[k] != Revoked(false)
  {
    hide Lawful, Deadline;
    IssuedAfterKey(h, i);
    o := OpenedBefore(h[..i - 1]);
    forall k | o < k < i ensures h[k] != Revoked(false) {
      if k < i - 1 {
        assert h[k] == h[..i - 1][k];
      }
    }
  }

  /** Where a token comes from: the key was just taken, in time, on a login opened with a right password. */
  ghost predicate IssuedOnLogin(h: seq<Event>, i: nat, o: nat)
    requires i < |h|
  {
    && o < i && h[o].Opened? && (forall k :: o < k < i ==> h[k] != Revoked(false))
    && h[i - 1].KeyTaken? && h[i - 1].at < Deadline(h[..i - 1])
  }

  /**
   In every run each token was issued on a live login opened with a right password; for exports and deletions that
   password was entered right before.
   */
  lemma EveryIssueHadPassword(v: Vault, stimuli: seq<Stimulus>, i: nat)
    requires AllFresh(World(START, v, 0, false), stimuli)
    requires var h := Run(World(START, v, 0, false), stimuli).s.history; i < |h| && h[i].Issued?
    ensures var h := Run(World(START, v, 0, false), stimuli).s.history;
            && (exists o :: IssuedOnLogin(h, i, o))
            && ("export" <= h[i].operation || h[i].operation == "deleteWallet" ==> IssuedOnLogin(h, i, i - 2))
  {
    hide Run, AllFresh, Lawful, Deadline;
    EveryRunIsSound(v, stimuli);
    var h := Run(World(START, v, 0, false), stimuli).s.history;
    IssuedAfterKey(h, i);
    var o := KeyOpened(h, i);
    assert IssuedOnLogin(h, i, o);
    if AlwaysAsked(h[i].operation) {
      LawfulAt(h, i);
      assert JustAsked(h[..i]);
    }
  }

  lemma TransactionsNeedReview(operation: string)
    requires operation in TRANSACTION_OPERATIONS
    ensures NeedsReview(operation)
  {
    assert operation[..4] == "sign";
  }

  lemma IssuedOnce(h: seq<Event>, i: nat)
    requires Lawful(h) && i < |h| && h[i].Issued?
    ensures forall k :: 0 <= k < |h| && k != i && h[k].Issued? ==> h[k].token != h[i].token
  {
    forall k | 0 <= k < |h| && k != i && h[k].Issued? ensures h[k].token != h[i].token {
      hide Lawful;
      var first, second := Min(i, k), Max(i, k);
      LawfulAt(h, second);
      assert NeverIssued(h[..second], h[second].token) && h[..second][first] == h[first];
    }
  }

  /** No token signs twice. */
  lemma TokensSignOnce(h: seq<Event>, j: nat, k: nat)
    requires Lawful(h) && j < k < |h| && h[j].Signed? && h[k].Signed?
    ensures h[j].token != h[k].token
  {
    hide Lawful;
    LawfulAt(h, j);
    LawfulAt(h, k);
    LawfulAt(h, k - 1);
    assert h[..j][j - 1] == h[j - 1] && h[..k][k - 1] == h[k - 1];
    assert NeverUsed(h[..k - 1], h[k].token) && h[..k - 1][j - 1] == h[j - 1];
  }

  ghost predicate RevokedSince(h: seq<Event>, longer: seq<Event>) {
    h <= longer && exists k :: |h| <= k < |longer| && longer[k].Revoked?
  }

  lemma WipedRevokes(h: seq<Event>, s: State, login: bool)
    requires h <= s.history
    ensures RevokedSince(h, Wiped(s, login).history)
  {
    assert Wiped(s, login).history[|s.history|].Revoked?;
  }

  /**
   A change of the active wallet revokes all reviews and tokens, unless it comes from a restore that stops half
   way and did not have to ask for the password: that one, and only that one, revokes nothing.
   */
  lemma ActiveChangeRevokes(s0: State, v: Vault, c: Call, t: Clock)
    requires Dispatched(s0, v, c, t).v.active != v.active
    ensures !RevokedSince(s0.history, Dispatched(s0, v, c, t).s.history)
       <==> c.Restore? && !c.finished && !NeedsPin(Expired(s0, t.start), v, t.unlock)
  {
    hide Wiped, Prepared, Authorized, SignedTransaction, Log;
    var s := Expired(s0, t.start);
    AuthorizedKeepsActive(s, v, c, t);
    if c.SelectWallet? {
      SwitchRevokes(s0.history, s, t.check);
    } else if c.AddWallet? || (c.Restore? && c.finished) {
      UnlockedExtends(s, v, c.pin, t.unlock, t.entered);
      SwitchRevokes(s0.history, Unlocked(s, v, c.pin, t.unlock, t.entered).s, t.issue);
    } else if c.Restore? {
      UnlockedRevokes(s, v, c.pin, t.unlock, t.entered);
    } else if c.DeleteWallet? {
      TokenUsedExtends(s, v, c.token, c.id, t.check);
      WipedRevokes(s0.history, TokenUsed(s, v, c.token, "deleteWallet", c.id, t.check).0, false);
    }
  }

  /** Taking the key revokes exactly when it asks for the password. */
  lemma UnlockedRevokes(s: State, v: Vault, pin: Pin, now: nat, answered: nat)
    requires Unlocked(s, v, pin, now, answered).reply.Fine?
    ensures RevokedSince(s.history, Unlocked(s, v, pin, now, answered).s.history) <==> NeedsPin(s, v, now)
  {
    var h := Unlocked(s, v, pin, now, answered).s.history;
    if NeedsPin(s, v, now) {
      assert h[|s.history|] == Revoked(false);
    } else {
      assert |h| == |s.history| + 1 && h[|s.history|].KeyTaken?;
    }
  }

  lemma TokenUsedExtends(s: State, v: Vault, token: Option<string>, id: string, now: nat)
    ensures s.history <= TokenUsed(s, v, token, "deleteWallet", id, now).0.history
  {
  }

  lemma SwitchRevokes(h: seq<Event>, s: State, now: nat)
    requires h <= s.history
    ensures RevokedSince(h, Switched(s, now).history)
  {
    WipedRevokes(h, s, s.until > now);
  }

  lemma UnlockedExtends(s: State, v: Vault, pin: Pin, now: nat, answered: nat)
    ensures s.history <= Unlocked(s, v, pin, now, answered).s.history
  {
  }

  lemma AuthorizedKeepsActive(s: State, v: Vault, c: Call, t: Clock)
    ensures c.Authorize? ==> Authorized(s, v, c, t).v.active == v.active
    ensures c.Prepare? ==> Prepared(s, v, c, t).v == v
    ensures c.SignTransaction? ==> SignedTransaction(s, v, c, t).v == v
  {
  }

  /** A login by password, a review, and a restore that stores its wallets and then fails. */
  function HalfRestore(hash: string): seq<Stimulus> {
    var clock := Clock(1, 1, 1, 1, 1, 1, 1);
    [Request(VerifyPin(PinRight(1, "store"), None), clock, 0, 0, false, true, 1, 1),
     Request(Prepare(Some((hash, "signTransaction")), Some(false), false), clock, 0, 0, false, true, 1, 1),
     Request(Restore(PinRefused, Some("new"), false), clock, 0, 0, false, true, 1, 1)]
  }

  /** Such a change happens: the active wallet is another one, and the review of the old wallet is still held. */
  lemma HalfRestoreKeepsReviews(hash: string)
    ensures var w := World(START, Vault("old", ["old"], Some("store")), 0, false);
            var before, after := Run(w, HalfRestore(hash)[..2]), Run(w, HalfRestore(hash));
            && before.v.active == "old" && after.v.active == "new"
            && hash in after.s.reviews && after.s.reviews[hash].wallet == "old"
            && after.s.generation == before.s.generation
            && !RevokedSince(before.s.history, after.s.history)
  {
    var w := World(START, Vault("old", ["old"], Some("store")), 0, false);
    var r := HalfRestore(hash);
    var w1 := Step(w, r[0]);
    var w2 := Step(w1, r[1]);
    var w3 := Step(w2, r[2]);
    RunThree(w, r);
    assert w1.s.key == Some(1) && w1.s.until == 1 + 5 * MINUTE && w1.s.storeId == "store" && w1.s.cancellation == 0;
    assert w2.s.reviews[hash].wallet == "old" && w2.s.until == w1.s.until && w2.s.key == w1.s.key;
    assert w3.s.history == w2.s.history + [KeyTaken(1)];
  }

  lemma RunThree(w: World, r: seq<Stimulus>)
    requires |r| == 3
    ensures Run(w, r[..2]) == Step(Step(w, r[0]), r[1])
    ensures Run(w, r) == Step(Step(Step(w, r[0]), r[1]), r[2])
  {
    hide Step;
    assert r[..2][1..] == [r[1]] && [r[1]][1..] == [] && r[1..][1..] == [r[2]] && [r[2]][1..] == [];
    assert Run(Step(w, r[0]), [r[1]]) == Run(Step(Step(w, r[0]), r[1]), []);
    assert Run(Step(Step(w, r[0]), r[1]), [r[2]]) == Run(Step(Step(Step(w, r[0]), r[1]), r[2]), []);
  }

  // ----- approval and issue happen in one call ---------------------------------------------------------------------

  /** One stimulus of the run put both events on record. */
  ghost predicate OneCall(w: World, stimuli: seq<Stimulus>, a: nat, i: nat) {
    exists m :: 0 <= m < |stimuli| && Records(w, stimuli, m, a, i)
  }

  /** Stimulus `m` put both events on record. */
  ghost predicate Records(w: World, stimuli: seq<Stimulus>, m: nat, a: nat, i: nat)
    requires m < |stimuli|
  {
    && |Run(w, stimuli[..m]).s.history| <= a < |Run(w, stimuli[..m + 1]).s.history|
    && |Run(w, stimuli[..m]).s.history| <= i < |Run(w, stimuli[..m + 1]).s.history|
  }

  lemma {:induction false} RunContinues(w: World, stimuli: seq<Stimulus>)
    ensures w.s.history <= Run(w, stimuli).s.history
    decreases |stimuli|
  {
    hide Step;
    if stimuli != [] {
      StepApproves(w, stimuli[0]);
      RunContinues(Step(w, stimuli[0]), stimuli[1..]);
    }
  }

  /** An approval that nothing but right passwords separates from the issue was obtained in the same call. */
  lemma {:induction false} ApprovedInOneCall(w: World, stimuli: seq<Stimulus>, a: nat, i: nat)
    requires var h := Run(w, stimuli).s.history;
             |w.s.history| <= i < |h| && h[i].Issued? && NeedsReview(h[i].operation) && a < i
             && OnlyLoginSince(h[..i], a)
    ensures OneCall(w, stimuli, a, i)
    decreases |stimuli|
  {
    hide Step, OnlyLoginSince, NeedsReview;
    var next, rest := Step(w, stimuli[0]), stimuli[1..];
    var h := Run(w, stimuli).s.history;
    StepApproves(w, stimuli[0]);
    RunContinues(next, rest);
    if i < |next.s.history| {
      assert h[i] == next.s.history[i];
      LastApproval(h, next.s.history, |w.s.history|, a, i);
      RunOfOne(w, stimuli);
      assert Records(w, stimuli, 0, a, i);
    } else {
      ApprovedInOneCall(next, rest, a, i);
      var m :| 0 <= m < |rest| && Records(next, rest, m, a, i);
      RunOfMore(w, stimuli, m);
      RunOfMore(w, stimuli, m + 1);
      assert Records(w, stimuli, m + 1, a, i);
    }
  }

  lemma LastApproval(h: seq<Event>, l: seq<Event>, from: nat, a: nat, i: nat)
    requires l <= h && i < |l| && l[i].Issued? && a < i && OnlyLoginSince(h[..i], a) && ApprovedBetween(l, from, i)
    ensures from <= a
  {
    var b :| from <= b < i && ApprovedAt(l, b, l[i].operation, l[i].binding, l[i].wallet);
    forall k | a < k < i ensures !h[k].Approved? {
      assert LoginStep(h[..i], k);
    }
  }

  lemma RunOfOne(w: World, stimuli: seq<Stimulus>)
    requires stimuli != []
    ensures Run(w, stimuli[..0]) == w && Run(w, stimuli[..1]) == Step(w, stimuli[0])
  {
    hide Step;
    assert stimuli[..1][1..] == [];
  }

  lemma RunOfMore(w: World, stimuli: seq<Stimulus>, m: nat)
    requires stimuli != [] && m < |stimuli|
    ensures Run(w, stimuli[..m + 1]) == Run(Step(w, stimuli[0]), stimuli[1..][..m])
  {
    hide Step;
    assert stimuli[..m + 1][1..] == stimuli[1..][..m];
  }

  /**
   In every run, every transaction signature is authorized, by an approval given in the call that issued its token,
   and no token signs twice. Nothing is assumed of the clock: each step compares its own reading with the one
   recorded before.
   */
  lemma EverySignatureIsAuthorized(v: Vault, stimuli: seq<Stimulus>, j: nat)
    requires AllFresh(World(START, v, 0, false), stimuli)
    requires var h := Run(World(START, v, 0, false), stimuli).s.history; j < |h| && h[j].Signed?
    ensures var h := Run(World(START, v, 0, false), stimuli).s.history;
            && (exists p :: GoesBackTo(h, j, p) && OneCall(World(START, v, 0, false), stimuli, p.approval, p.issue))
            && (forall k :: 0 <= k < |h| && k != j && h[k].Signed? ==> h[k].token != h[j].token)
  {
    hide Run, AllFresh, Lawful, GoesBackTo, OneCall;
    EveryRunIsSound(v, stimuli);
    var h := Run(World(START, v, 0, false), stimuli).s.history;
    var p := SignatureIsAuthorized(h, j);
    TrailInOneCall(v, stimuli, j, p);
    forall k | 0 <= k < |h| && k != j && h[k].Signed? ensures h[k].token != h[j].token {
      TokensSignOnce(h, Min(j, k), Max(j, k));
    }
  }

  lemma TrailInOneCall(v: Vault, stimuli: seq<Stimulus>, j: nat, p: Trail)
    requires var h := Run(World(START, v, 0, false), stimuli).s.history;
             Lawful(h) && j < |h| && h[j].Signed? && GoesBackTo(h, j, p)
    ensures OneCall(World(START, v, 0, false), stimuli, p.approval, p.issue)
  {
    hide Run, Lawful, OneCall, InTime;
    var h := Run(World(START, v, 0, false), stimuli).s.history;
    var i := IssueOf(h, j);
    TransactionsNeedReview(h[j].operation);
    ApprovedInOneCall(World(START, v, 0, false), stimuli, p.approval, p.issue);
  }

  /**
   What a native call hands out: the signature it just put on record, which goes back to its authorization,
   and only if nobody cancelled or locked since the call read the counter.
   */
  lemma ReleasedSignatureIsAuthorized(v: Vault, stimuli: seq<Stimulus>, r: Stimulus)
    requires AllFresh(World(START, v, 0, false), stimuli)
    requires var w := Run(World(START, v, 0, false), stimuli);
             r.Request? && Fresh(w, r) && r.seen <= w.cancellations && Handled(w, r).1.Signature?
    ensures var w := Run(World(START, v, 0, false), stimuli);
            var (next, reply) := Handled(w, r);
            var h := next.s.history;
            && r.interrupts == 0 && r.seen == w.cancellations
            && h != [] && h[|h| - 1].Signed? && h[|h| - 1].token == reply.token
            && h[|h| - 1].operation == reply.operation && h[|h| - 1].binding == reply.reviewHash
            && h[|h| - 1].wallet == next.v.active
            && exists p :: GoesBackTo(h, |h| - 1, p)
                           && OneCall(World(START, v, 0, false), stimuli + [r], p.approval, p.issue)
  {
    hide Run, AllFresh, Fresh, Sound, GoesBackTo, Handled, Lawful, OneCall;
    EveryRunIsSound(v, stimuli);
    var w := Run(World(START, v, 0, false), stimuli);
    StepIsSound(w, r);
    HandledSigns(w, r);
    var h := Handled(w, r).0.s.history;
    SoundIsLawful(Handled(w, r).0.s);
    var p := SignatureIsAuthorized(h, |h| - 1);
    RunOneMore(World(START, v, 0, false), stimuli, r);
    TrailInOneCall(v, stimuli + [r], |h| - 1, p);
  }

  lemma {:induction false} RunOneMore(w: World, stimuli: seq<Stimulus>, r: Stimulus)
    ensures Run(w, stimuli + [r]) == Step(Run(w, stimuli), r)
    decreases |stimuli|
  {
    hide Step;
    if stimuli == [] {
      assert (stimuli + [r])[1..] == [] && (stimuli + [r])[0] == r;
    } else {
      assert (stimuli + [r])[1..] == stimuli[1..] + [r];
      RunOneMore(Step(w, stimuli[0]), stimuli[1..], r);
    }
  }

  lemma SoundIsLawful(s: State)
    requires Sound(s)
    ensures Lawful(s.history)
  {
  }

  lemma HandledSigns(w: World, r: Stimulus)
    requires r.Request? && r.seen <= w.cancellations && Handled(w, r).1.Signature?
    ensures r.interrupts == 0 && r.seen == w.cancellations && Step(w, r) == Handled(w, r).0
    ensures var (next, reply) := Handled(w, r);
            var h := next.s.history;
            && h != [] && h[|h| - 1].Signed? && h[|h| - 1].token == reply.token
            && h[|h| - 1].operation == reply.operation && h[|h| - 1].binding == reply.reviewHash
            && h[|h| - 1].wallet == next.v.active
  {
    hide Prepared, Authorized, Unlocked, TokenUsed, PinVerified, Switched, Invalidated, Reconfigured, Forgotten;
    OnlySigningSigns(Entered(w, r.seen, r.early).s, w.v, r.call, r.clock);
  }

  lemma OnlySigningSigns(s: State, v: Vault, c: Call, t: Clock)
    requires Dispatched(s, v, c, t).reply.Signature?
    ensures c.SignTransaction?
  {
  }
}
