/** What a session's clock guarantees: deadlines, expiry, and what only a right password can do. */
module SessionTime {
  import opened Wrappers
  import opened SessionState
  import opened SessionLaw
  import opened SessionCalls
  import opened SessionRuns

  // ----- clocks that do not go back -------------------------------------------------------------------------

  predicate InOrder(t: Clock, from: nat) {
    from <= t.start <= t.check <= t.ask <= t.pin <= t.unlock <= t.entered <= t.issue
  }

  /** Every reading of the run is at least the one before it. */
  predicate Timely(stimuli: seq<Stimulus>, from: nat)
    decreases |stimuli|
  {
    stimuli == [] || (Punctual(stimuli[0], from) && Timely(stimuli[1..], After(stimuli[0], from)))
  }

  predicate Punctual(r: Stimulus, from: nat) {
    r.Request? ==> from <= r.early && InOrder(r.clock, r.early) && r.clock.issue <= r.late
  }

  function After(r: Stimulus, from: nat): nat {
    if r.Request? then r.late else from
  }

  /** The last reading of the run. */
  function Latest(stimuli: seq<Stimulus>, from: nat): nat
    decreases |stimuli|
  {
    if stimuli == [] then from else Latest(stimuli[1..], After(stimuli[0], from))
  }

  predicate Stamped(e: Event) {
    !e.Used? && !e.Revoked?
  }

  /** The readings on record never decrease and are not in the future. */
  ghost predicate Timed(h: seq<Event>, now: nat) {
    && (forall i :: 0 <= i < |h| && Stamped(h[i]) ==> h[i].at <= now)
    && (forall i, j :: 0 <= i < j < |h| && Stamped(h[i]) && Stamped(h[j]) ==> h[i].at <= h[j].at)
  }

  /** `l` continues `h` with events read between `from` and `to`, in order. */
  ghost predicate Later(h: seq<Event>, l: seq<Event>, from: nat, to: nat) {
    && h <= l && from <= to
    && (forall i :: |h| <= i < |l| && Stamped(l[i]) ==> from <= l[i].at <= to)
    && (forall i, j :: |h| <= i < j < |l| && Stamped(l[i]) && Stamped(l[j]) ==> l[i].at <= l[j].at)
  }

  lemma LaterOne(h: seq<Event>, e: Event, from: nat, to: nat)
    requires from <= to && (Stamped(e) ==> from <= e.at <= to)
    ensures Later(h, h + [e], from, to)
  {
  }

  lemma LaterStill(h: seq<Event>, l: seq<Event>, m: seq<Event>, a: nat, b: nat, c: nat)
    requires Later(h, l, a, b) && Later(l, m, b, c)
    ensures Later(h, m, a, c)
  {
    assert forall i :: 0 <= i < |l| ==> m[i] == l[i];
  }

  lemma LaterWider(h: seq<Event>, l: seq<Event>, a: nat, b: nat, from: nat, to: nat)
    requires Later(h, l, a, b) && from <= a && b <= to
    ensures Later(h, l, from, to)
  {
  }

  lemma TimedLater(h: seq<Event>, l: seq<Event>, from: nat, to: nat)
    requires Timed(h, from) && Later(h, l, from, to)
    ensures Timed(l, to)
  {
    assert forall i :: 0 <= i < |h| ==> l[i] == h[i];
  }

  // ----- each call records its own readings ---------------------------------------------------------------------

  lemma PinIsLater(s: State, pin: Pin, now: nat)
    ensures Later(s.history, PinVerified(s, pin, now).history, now, now)
  {
  }

  lemma UnlockedIsLater(s: State, v: Vault, pin: Pin, now: nat, answered: nat)
    requires now <= answered
    ensures Later(s.history, Unlocked(s, v, pin, now, answered).s.history, now, answered)
  {
    hide PinVerified, Later;
    var needs := NeedsPin(s, v, now);
    var s1 := if needs then PinVerified(s, pin, answered) else s;
    var at := if needs then answered else now;
    PinIsLater(s, pin, answered);
    LaterOne(s1.history, KeyTaken(at), at, answered);
    NothingIsLater(s.history, now, answered);
    if needs {
      LaterWider(s.history, s1.history, answered, answered, now, answered);
      if Unlocked(s, v, pin, now, answered).reply.Fine? {
        LaterStill(s.history, s1.history, s1.history + [KeyTaken(at)], now, answered, answered);
      }
    }
  }

  lemma NothingIsLater(h: seq<Event>, from: nat, to: nat)
    requires from <= to
    ensures Later(h, h, from, to)
  {
  }

  lemma ApprovalIsLater(s: State, v: Vault, c: Call, t: Clock)
    requires c.Authorize?
    ensures Later(s.history, Approval(s, v, c, t).0.history, t.check, t.check)
  {
  }

  lemma AuthorizedIsLater(s: State, v: Vault, c: Call, t: Clock)
    requires c.Authorize? && InOrder(t, t.start)
    ensures Later(s.history, Authorized(s, v, c, t).s.history, t.check, t.issue)
  {
    hide Later, PinVerified, Approval, Unlocked, AsksPin, Silent;
    var (s1, approved) := Approval(s, v, c, t);
    var h := s.history;
    ApprovalIsLater(s, v, c, t);
    LaterWider(h, s1.history, t.check, t.check, t.check, t.issue);
    if approved {
      var asks := AsksPin(s, c, t);
      var s2 := if asks then PinVerified(s1, c.pin, t.pin) else s1;
      var v2 := if asks then VaultAfter(v, c.pin) else v;
      PinIsLater(s1, c.pin, t.pin);
      NothingIsLater(s1.history, t.check, t.pin);
      LaterWider(s1.history, PinVerified(s1, c.pin, t.pin).history, t.pin, t.pin, t.check, t.pin);
      LaterStill(h, s1.history, s2.history, t.check, t.check, t.pin);
      LaterWider(h, s2.history, t.check, t.pin, t.check, t.issue);
      if !asks || c.pin.PinRight? {
        var u := Unlocked(s2, v2, c.pin2, t.unlock, t.entered);
        UnlockedIsLater(s2, v2, c.pin2, t.unlock, t.entered);
        LaterWider(s2.history, u.s.history, t.unlock, t.entered, t.pin, t.entered);
        LaterStill(h, s2.history, u.s.history, t.check, t.pin, t.entered);
        LaterWider(h, u.s.history, t.check, t.entered, t.check, t.issue);
        if u.reply.Fine? {
          IssueIsLater(u, c, t, Silent(s, c, t.check));
          LaterStill(h, u.s.history, Authorized(s, v, c, t).s.history, t.check, t.entered, t.issue);
        }
      }
    }
  }

  lemma IssueIsLater(u: Outcome, c: Call, t: Clock, silent: bool)
    requires c.Authorize? && u.s.key.Some? && t.entered <= t.issue
    ensures var s4 := WithToken(u.s, c.issue, c.operation, c.binding, u.v.active, u.s.key.value, t.issue);
            var minutes := Min(60, if c.minutes.Some? then c.minutes.value else 5);
            Later(u.s.history, (if silent then s4 else Extend(s4, t.issue, minutes)).history, t.entered, t.issue)
  {
  }

  lemma ReconfiguredIsLater(s: State, v: Vault, c: Call, t: Clock)
    requires c.ConfigurePin? && InOrder(t, t.start)
    ensures Later(s.history, Reconfigured(s, v, c, t).s.history, t.pin, t.issue)
  {
    hide PinVerified, Later;
    var s1 := if c.hasPassword then PinVerified(s, c.pin, t.pin) else s;
    PinIsLater(s, c.pin, t.pin);
    NothingIsLater(s.history, t.pin, t.issue);
    LaterWider(s.history, PinVerified(s, c.pin, t.pin).history, t.pin, t.pin, t.pin, t.issue);
    var r := Reconfigured(s, v, c, t);
    if r.reply.Fine? {
      var (key, store) := c.changed.value;
      ResetIsLater(s1, key, store, t.issue);
      LaterStill(s.history, s1.history, r.s.history, t.pin, t.issue, t.issue);
    }
  }

  lemma ResetIsLater(s: State, key: Key, store: string, now: nat)
    ensures Later(s.history, Invalidated(WithKey(s, key, store, now)).history, now, now)
  {
  }

  lemma ClosingIsLater(s: State, now: nat)
    ensures Later(s.history, Invalidated(s).history, now, now) && Later(s.history, Switched(s, now).history, now, now)
  {
  }

  lemma TokenUsedIsLater(s: State, v: Vault, c: Call, token: Option<string>, operation: string, binding: string,
                         t: Clock)
    ensures Later(s.history, TokenUsed(s, v, token, operation, binding, t.check).0.history, t.check, t.check)
    ensures c.SignTransaction? ==> Later(s.history, SignedTransaction(s, v, c, t).s.history, t.check, t.check)
  {
  }

  lemma SmallCallsAreLater(s: State, v: Vault, c: Call, minutes: nat, t: Clock)
    requires InOrder(t, t.start)
    ensures c.Prepare? ==> Later(s.history, Prepared(s, v, c, t).s.history, t.check, t.issue)
    ensures Later(s.history, Extend(s, t.check, minutes).history, t.check, t.check)
    ensures Later(s.history, Extend(s, t.issue, minutes).history, t.check, t.issue)
  {
  }

  lemma CallIsLater(s0: State, v: Vault, c: Call, t: Clock)
    requires InOrder(t, t.start)
    ensures Later(s0.history, Dispatched(s0, v, c, t).s.history, t.start, t.issue)
  {
    hide Later, Prepared, Authorized, SignedTransaction, TokenUsed, Unlocked, PinVerified, Switched, Invalidated,
      Extend, Reconfigured, NeedsPin;
    var s, r := Expired(s0, t.start), Dispatched(s0, v, c, t);
    var h, l := s0.history, r.s.history;
    NothingIsLater(h, t.start, t.issue);
    ClosingIsLater(s, t.check);
    if c.Authorize? {
      AuthorizedIsLater(s, v, c, t);
      LaterWider(h, l, t.check, t.issue, t.start, t.issue);
    } else if c.ConfigurePin? {
      ReconfiguredIsLater(s, v, c, t);
      LaterWider(h, l, t.pin, t.issue, t.start, t.issue);
    } else if c.Prepare? {
      SmallCallsAreLater(s, v, c, 0, t);
      LaterWider(h, l, t.check, t.issue, t.start, t.issue);
    } else if c.SignTransaction? {
      TokenUsedIsLater(s, v, c, None, "", "", t);
      LaterWider(h, l, t.check, t.check, t.start, t.issue);
    } else if c.UseToken? {
      TokenUsedIsLater(s, v, c, c.token, c.operation, c.binding, t);
      LaterWider(h, l, t.check, t.check, t.start, t.issue);
    } else if c.DeleteWallet? {
      DeletingIsLater(s, v, c, t);
      LaterWider(h, l, t.check, t.check, t.start, t.issue);
    } else if c.VerifyPin? {
      PinIsLater(s, c.pin, t.pin);
      var s1 := PinVerified(s, c.pin, t.pin);
      LaterWider(h, s1.history, t.pin, t.pin, t.start, t.pin);
      LaterWider(h, s1.history, t.pin, t.pin, t.start, t.issue);
      if c.pin.PinRight? {
        ExtendIsLater(s1, t.issue, UnlockMinutes(c.minutes), t.pin);
        LaterStill(h, s1.history, l, t.start, t.pin, t.issue);
      }
    } else if c.Refresh? {
      SmallCallsAreLater(s, v, c, UnlockMinutes(c.minutes), t);
      if CanRefresh(s, t.check) {
        LaterWider(h, l, t.check, t.check, t.start, t.issue);
      }
    } else if c.Unlock? || c.AddWallet? || c.Restore? {
      var u := Unlocked(s, v, c.pin, t.unlock, t.entered);
      UnlockedIsLater(s, v, c.pin, t.unlock, t.entered);
      LaterWider(h, u.s.history, t.unlock, t.entered, t.start, t.issue);
      ClosingIsLater(u.s, t.issue);
      LaterStill(h, u.s.history, Switched(u.s, t.issue).history, t.start, t.issue, t.issue);
    } else if l != h {
      LaterWider(h, l, t.check, t.check, t.start, t.issue);
    }
  }

  lemma DeletingIsLater(s: State, v: Vault, c: Call, t: Clock)
    requires c.DeleteWallet?
    ensures var s1 := TokenUsed(s, v, c.token, "deleteWallet", c.id, t.check).0;
            && Later(s.history, s1.history, t.check, t.check)
            && Later(s.history, Invalidated(s1).history, t.check, t.check)
  {
    hide Later, TokenUsed, Invalidated;
    var s1 := TokenUsed(s, v, c.token, "deleteWallet", c.id, t.check).0;
    TokenUsedIsLater(s, v, c, c.token, "deleteWallet", c.id, t);
    ClosingIsLater(s1, t.check);
    LaterStill(s.history, s1.history, Invalidated(s1).history, t.check, t.check, t.check);
  }

  lemma ExtendIsLater(s: State, now: nat, minutes: nat, from: nat)
    requires from <= now
    ensures Later(s.history, Extend(s, now, minutes).history, from, now)
  {
  }

  lemma ForgottenIsLater(s: State, forget: bool, now: nat)
    ensures Later(s.history, Forgotten(s, forget, now).history, now, now)
  {
  }

  lemma StepIsTimed(w: World, r: Stimulus, from: nat)
    requires Timed(w.s.history, from) && Punctual(r, from)
    ensures Timed(Step(w, r).s.history, After(r, from))
  {
    hide Timed, Later, Dispatched, Forgotten, Invalidated;
    match r
    case Request(call, clock, seen, interrupts, locks, loaded, early, late) =>
      var h, w1 := w.s.history, Entered(w, seen, early);
      NothingIsLater(h, from, early);
      ForgottenIsLater(w.s, w.forget, early);
      LaterWider(h, Forgotten(w.s, w.forget, early).history, early, early, from, early);
      TimedLater(h, w1.s.history, from, early);
      var d := Dispatched(w1.s, w1.v, call, clock);
      CallIsLater(w1.s, w1.v, call, clock);
      LaterWider(w1.s.history, d.s.history, clock.start, clock.issue, early, late);
      TimedLater(w1.s.history, d.s.history, early, late);
      NothingIsLater(w1.s.history, early, late);
      TimedLater(w1.s.history, w1.s.history, early, late);
      var forget := w1.forget || (interrupts > 0 && locks);
      ForgottenIsLater(d.s, forget, late);
      TimedLater(d.s.history, Forgotten(d.s, forget, late).history, late, late);
    case Cancel =>
    case Lock =>
      ClosingIsLater(w.s, from);
      TimedLater(w.s.history, Invalidated(w.s).history, from, from);
  }

  lemma {:induction false} RunIsTimed(w: World, stimuli: seq<Stimulus>, from: nat)
    requires Timed(w.s.history, from) && Timely(stimuli, from)
    ensures Timed(Run(w, stimuli).s.history, Latest(stimuli, from))
    decreases |stimuli|
  {
    hide Timed, Step, Punctual, After;
    if stimuli != [] {
      StepIsTimed(w, stimuli[0], from);
      RunIsTimed(Step(w, stimuli[0]), stimuli[1..], After(stimuli[0], from));
    }
  }

  // ----- deadlines ------------------------------------------------------------------------------------------------

  /** A deadline is at most an hour past the reading that set it. */
  lemma {:induction false} DeadlineIsNear(h: seq<Event>, now: nat)
    requires Lawful(h) && Timed(h, now)
    ensures Deadline(h) <= now + LOGIN_LIMIT
    decreases |h|
  {
    if h != [] {
      hide Lawful;
      var n := |h| - 1;
      LawfulAt(h, n);
      assert Timed(h[..n], now);
      DeadlineIsNear(h[..n], now);
    }
  }

  /**
   With a clock that does not go back: no login ever lasts more than an hour beyond the last reading, and the
   readings on record, from review over approval and issue to signature, never decrease.
   */
  lemma LoginEndsWithinTheHour(v: Vault, stimuli: seq<Stimulus>)
    requires var w := World(START, v, 0, false); AllFresh(w, stimuli) && Timely(stimuli, 0)
    ensures var s := Run(World(START, v, 0, false), stimuli).s;
            s.until <= Latest(stimuli, 0) + LOGIN_LIMIT && Timed(s.history, Latest(stimuli, 0))
  {
    hide Run, AllFresh, Timely, Lawful;
    var w := World(START, v, 0, false);
    EveryRunIsSound(v, stimuli);
    RunIsTimed(w, stimuli, 0);
    DeadlineIsNear(Run(w, stimuli).s.history, Latest(stimuli, 0));
  }

  // ----- what only a right password can do --------------------------------------------------------------------------

  /** No password typed during the call is right. */
  predicate WithoutPassword(c: Call) {
    match c
    case Authorize(_, _, _, _, _, _, pin, pin2, _) => !pin.PinRight? && !pin2.PinRight?
    case VerifyPin(pin, _) => !pin.PinRight?
    case ConfigurePin(_, pin, _) => !pin.PinRight?
    case Unlock(pin) => !pin.PinRight?
    case AddWallet(pin, _) => !pin.PinRight?
    case Restore(pin, _, _) => !pin.PinRight?
    case _ => true
  }

  /** From `s` to `t` no key was taken, no token issued, no deadline moved and no offers page unlocked. */
  ghost predicate NoLoginUsed(s: State, t: State) {
    && s.history <= t.history && (t.nexus ==> s.nexus)
    && forall k :: |s.history| <= k < |t.history| ==>
         !t.history[k].KeyTaken? && !t.history[k].Issued? && !t.history[k].Extended?
  }

  lemma NoLoginStill(s: State, t: State, u: State)
    requires NoLoginUsed(s, t) && NoLoginUsed(t, u)
    ensures NoLoginUsed(s, u)
  {
    assert forall i :: 0 <= i < |t.history| ==> u.history[i] == t.history[i];
  }

  /** Only the history and the offers page matter for that. */
  lemma NoLoginAlike(s: State, t: State, s1: State, t1: State)
    requires NoLoginUsed(s, t)
    requires s1.history == s.history && s1.nexus == s.nexus && t1.history == t.history && t1.nexus == t.nexus
    ensures NoLoginUsed(s1, t1)
  {
  }

  /** A login that is locked or expired: its deadline has passed and the key is gone. */
  predicate Dead(s: State, now: nat) {
    s.until <= now && s.key.None?
  }

  lemma DeadUnlock(s: State, v: Vault, pin: Pin, now: nat, answered: nat)
    requires Dead(s, now) && !pin.PinRight?
    ensures var u := Unlocked(s, v, pin, now, answered);
            u.reply.Failed? && Dead(u.s, now) && NoLoginUsed(s, u.s)
  {
  }

  lemma DeadAuthorize(s: State, v: Vault, c: Call, t: Clock, from: nat)
    requires c.Authorize? && WithoutPassword(c) && Dead(s, from) && InOrder(t, from)
    ensures var r := Authorized(s, v, c, t); Dead(r.s, from) && NoLoginUsed(s, r.s)
  {
    hide Unlocked, NoLoginUsed;
    var (s1, approved) := Approval(s, v, c, t);
    ApprovalUsesNoLogin(s, v, c, t);
    if approved {
      var asks := AsksPin(s, c, t);
      var s2 := if asks then PinVerified(s1, c.pin, t.pin) else s1;
      var v2 := if asks then VaultAfter(v, c.pin) else v;
      WrongPinUsesNoLogin(s1, c.pin, t.pin, from);
      NoLoginStill(s, s1, PinVerified(s1, c.pin, t.pin));
      if !asks {
        DeadUnlock(s2, v2, c.pin2, t.unlock, t.entered);
        var u := Unlocked(s2, v2, c.pin2, t.unlock, t.entered);
        NoLoginStill(s, s2, u.s);
        DeadUnlockKeeps(s2, v2, c.pin2, t.unlock, t.entered, from);
      }
    }
  }

  lemma DeadUnlockKeeps(s: State, v: Vault, pin: Pin, now: nat, answered: nat, from: nat)
    requires Dead(s, from) && from <= now && !pin.PinRight?
    ensures Dead(Unlocked(s, v, pin, now, answered).s, from)
  {
  }

  lemma ApprovalUsesNoLogin(s: State, v: Vault, c: Call, t: Clock)
    requires c.Authorize?
    ensures var s1 := Approval(s, v, c, t).0;
            NoLoginUsed(s, s1) && s1.until == s.until && s1.key == s.key
  {
  }

  lemma WrongPinUsesNoLogin(s: State, pin: Pin, now: nat, from: nat)
    requires !pin.PinRight? && Dead(s, from)
    ensures NoLoginUsed(s, PinVerified(s, pin, now)) && Dead(PinVerified(s, pin, now), from)
  {
  }

  /** Whatever is called, a login that has passed gives nothing away and stays passed without a right password. */
  lemma DeadCall(s0: State, v: Vault, c: Call, t: Clock, from: nat)
    requires s0.until <= from && InOrder(t, from) && WithoutPassword(c)
    ensures var r := Dispatched(s0, v, c, t); Dead(r.s, from) && NoLoginUsed(s0, r.s)
  {
    hide Authorized, Unlocked, TokenUsed, SignedTransaction, Prepared, Reconfigured, PinVerified, Switched, Invalidated,
      NoLoginUsed;
    var s := Expired(s0, t.start);
    NothingUsesNoLogin(s);
    DeadClosing(s, t.check, from);
    if c.Authorize? {
      DeadAuthorize(s, v, c, t, from);
    } else if c.Unlock? || c.AddWallet? || c.Restore? {
      DeadUnlock(s, v, c.pin, t.unlock, t.entered);
      DeadUnlockKeeps(s, v, c.pin, t.unlock, t.entered, from);
    } else if c.VerifyPin? {
      WrongPinUsesNoLogin(s, c.pin, t.pin, from);
    } else if c.ConfigurePin? {
      DeadReconfigured(s, v, c, t, from);
    } else if c.Prepare? || c.SignTransaction? {
      DeadSmallCalls(s, v, c, t, from);
    } else if c.UseToken? {
      DeadToken(s, v, c.token, c.operation, c.binding, t.check, from);
    } else if c.DeleteWallet? {
      var s1 := TokenUsed(s, v, c.token, "deleteWallet", c.id, t.check).0;
      DeadToken(s, v, c.token, "deleteWallet", c.id, t.check, from);
      DeadClosing(s1, t.check, from);
      NoLoginStill(s, s1, Invalidated(s1));
    }
    var r := Dispatched(s0, v, c, t);
    NoLoginAlike(s, r.s, s0, r.s);
  }

  lemma NothingUsesNoLogin(s: State)
    ensures NoLoginUsed(s, s)
  {
  }

  lemma DeadClosing(s: State, now: nat, from: nat)
    requires s.until <= from <= now
    ensures Dead(Invalidated(s), from) && NoLoginUsed(s, Invalidated(s))
    ensures Dead(Switched(s, now), from) && NoLoginUsed(s, Switched(s, now))
  {
  }

  lemma DeadReconfigured(s: State, v: Vault, c: Call, t: Clock, from: nat)
    requires c.ConfigurePin? && !c.pin.PinRight? && Dead(s, from)
    ensures var r := Reconfigured(s, v, c, t); Dead(r.s, from) && NoLoginUsed(s, r.s)
  {
  }

  lemma DeadSmallCalls(s: State, v: Vault, c: Call, t: Clock, from: nat)
    requires Dead(s, from)
    ensures c.Prepare? ==> Dead(Prepared(s, v, c, t).s, from) && NoLoginUsed(s, Prepared(s, v, c, t).s)
    ensures c.SignTransaction? ==> Dead(SignedTransaction(s, v, c, t).s, from)
                                   && NoLoginUsed(s, SignedTransaction(s, v, c, t).s)
  {
  }

  lemma DeadToken(s: State, v: Vault, token: Option<string>, operation: string, binding: string, now: nat, from: nat)
    requires Dead(s, from)
    ensures var s1 := TokenUsed(s, v, token, operation, binding, now).0;
            Dead(s1, from) && NoLoginUsed(s, s1)
  {
  }

  predicate Runs(r: Stimulus) {
    r.Request? && r.loaded
  }

  predicate StepWithoutPassword(r: Stimulus) {
    r.Request? ==> WithoutPassword(r.call)
  }

  lemma DeadForgotten(s: State, forget: bool, now: nat, from: nat, count: nat)
    requires s.until <= from <= now
    ensures var t := Forgotten(s, forget, now).(cancellation := count); Dead(t, from) && NoLoginUsed(s, t)
  {
    hide NoLoginUsed;
    DeadClosing(s, now, from);
    var t := Forgotten(s, forget, now);
    NoLoginAlike(s, t, s, t.(cancellation := count));
  }

  lemma DeadStep(w: World, r: Stimulus, from: nat)
    requires w.s.until <= from && Punctual(r, from) && StepWithoutPassword(r)
    ensures var s := Step(w, r).s;
            && s.until <= from && NoLoginUsed(w.s, s)
            && (w.s.key.None? || Runs(r) ==> s.key.None?)
  {
    hide NoLoginUsed, Dispatched, Forgotten, WithoutPassword;
    match r
    case Request(call, clock, seen, interrupts, locks, loaded, early, late) =>
      var w1 := Entered(w, seen, early);
      DeadForgotten(w.s, w.forget, early, from, seen);
      NothingUsesNoLogin(w.s);
      if loaded {
        DeadCall(w1.s, w1.v, call, clock, from);
        var d, count := Dispatched(w1.s, w1.v, call, clock), w1.cancellations + interrupts;
        NoLoginStill(w.s, w1.s, d.s);
        var forget := w1.forget || (interrupts > 0 && locks);
        DeadForgotten(d.s, forget, late, from, count);
        NoLoginStill(w.s, d.s, Forgotten(d.s, forget, late).(cancellation := count));
      }
    case Cancel => NothingUsesNoLogin(w.s);
    case Lock => DeadClosing(w.s, from, from);
  }

  /**
   Once its deadline has passed or it was locked, a login is only reopened by a right password: until then every
   call, refreshes included, leaves the deadline where it was, takes no key and issues no token, and the first
   call wipes the key from the session.
   */
  lemma {:induction false} OnlyPasswordReopens(w: World, stimuli: seq<Stimulus>, from: nat)
    requires w.s.until <= from && Timely(stimuli, from)
    requires forall r :: r in stimuli ==> StepWithoutPassword(r)
    ensures var s := Run(w, stimuli).s;
            && s.until <= from && NoLoginUsed(w.s, s)
            && (w.s.key.None? || (exists r :: r in stimuli && Runs(r)) ==> s.key.None?)
    decreases |stimuli|
  {
    hide NoLoginUsed, Step, Punctual, StepWithoutPassword, Runs;
    if stimuli == [] {
      NothingUsesNoLogin(w.s);
    } else {
      var next := Step(w, stimuli[0]);
      assert stimuli == [stimuli[0]] + stimuli[1..];
      DeadStep(w, stimuli[0], from);
      AfterIsLater(stimuli[0], from);
      TimelyFrom(stimuli[1..], After(stimuli[0], from), from);
      OnlyPasswordReopens(next, stimuli[1..], from);
      NoLoginStill(w.s, next.s, Run(w, stimuli).s);
    }
  }

  lemma AfterIsLater(r: Stimulus, from: nat)
    requires Punctual(r, from)
    ensures from <= After(r, from)
  {
  }

  lemma TimelyFrom(stimuli: seq<Stimulus>, from: nat, earlier: nat)
    requires Timely(stimuli, from) && earlier <= from
    ensures Timely(stimuli, earlier)
    decreases |stimuli|
  {
    if stimuli != [] && !stimuli[0].Request? {
      TimelyFrom(stimuli[1..], from, earlier);
    }
  }

  // ----- asking every time, and forgetting what expired -----------------------------------------------------------

  /** Every token issued from `s` to `t` directly follows a right password and taking the key. */
  ghost predicate IssuedAfterPassword(s: State, t: State) {
    && s.history <= t.history
    && forall k :: |s.history| <= k < |t.history| && t.history[k].Issued? ==>
         k >= |s.history| + 2 && t.history[k - 1].KeyTaken? && t.history[k - 2].Opened?
  }

  /** Exports, deletions, expired logins and callers who want no session: the password is entered in that very call. */
  lemma AuthorizedWithPassword(s: State, v: Vault, c: Call, t: Clock)
    requires c.Authorize? && Authorized(s, v, c, t).reply.Fine? && !Silent(s, c, t.check)
    requires c.minutes == Some(0) || AlwaysAsked(c.operation) || s.until < t.ask
    ensures c.pin.PinRight? && IssuedAfterPassword(s, Authorized(s, v, c, t).s)
  {
    hide PinVerified, Unlocked, Silent, Approval, AlwaysAsked;
    var s1 := Approval(s, v, c, t).0;
    var s2, v2 := PinVerified(s1, c.pin, t.pin), VaultAfter(v, c.pin);
    var u := Unlocked(s2, v2, c.pin2, t.unlock, t.entered);
    ApprovalIssues(s, v, c, t);
    PinOpens(s1, c.pin, t.pin);
    PinIssues(s1, c.pin, t.pin);
    UnlockEnds(s2, v2, c.pin2, t.unlock, t.entered);
    IssueEnds(s, u, c, t);
  }

  lemma UnlockEnds(s: State, v: Vault, pin: Pin, now: nat, answered: nat)
    requires EndsOpened(s.history) && Unlocked(s, v, pin, now, answered).reply.Fine?
    ensures var l := Unlocked(s, v, pin, now, answered).s.history;
            IssuesNone(s.history, l) && |l| > |s.history| && JustAsked(l)
  {
    hide PinVerified;
    PinIssues(s, pin, answered);
    if pin.PinRight? {
      PinOpens(s, pin, answered);
    }
  }

  lemma IssueEnds(s: State, u: Outcome, c: Call, t: Clock)
    requires c.Authorize? && u.s.key.Some? && IssuesNone(s.history, u.s.history)
    requires |u.s.history| >= |s.history| + 2 && JustAsked(u.s.history)
    ensures var s4 := WithToken(u.s, c.issue, c.operation, c.binding, u.v.active, u.s.key.value, t.issue);
            var minutes := Min(60, if c.minutes.Some? then c.minutes.value else 5);
            IssuedAfterPassword(s, Extend(s4, t.issue, minutes))
  {
  }

  predicate TokensLive(s: State, now: nat) {
    forall k :: k in s.tokens ==> s.tokens[k].expires > now
  }

  lemma PinKeepsLive(s: State, v: Vault, pin: Pin, at: nat, answered: nat, now: nat)
    requires TokensLive(s, now)
    ensures TokensLive(PinVerified(s, pin, at), now) && TokensLive(Unlocked(s, v, pin, at, answered).s, now)
  {
  }

  lemma AuthorizedKeepsLive(s: State, v: Vault, c: Call, t: Clock, now: nat)
    requires c.Authorize? && TokensLive(s, now) && now <= t.issue
    ensures TokensLive(Authorized(s, v, c, t).s, now)
  {
    hide PinVerified, Unlocked, AsksPin, Silent, TokensLive;
    var (s1, approved) := Approval(s, v, c, t);
    assert TokensLive(s1, now) by { ApprovalKeepsLive(s, v, c, t, now); }
    if approved {
      var asks := AsksPin(s, c, t);
      var s2 := if asks then PinVerified(s1, c.pin, t.pin) else s1;
      var v2 := if asks then VaultAfter(v, c.pin) else v;
      PinKeepsLive(s1, v, c.pin, t.pin, t.pin, now);
      PinKeepsLive(s2, v2, c.pin2, t.unlock, t.entered, now);
      var u := Unlocked(s2, v2, c.pin2, t.unlock, t.entered);
      if u.reply.Fine? {
        IssueKeepsLive(u, c, t, Silent(s, c, t.check), now);
      }
    }
  }

  lemma ApprovalKeepsLive(s: State, v: Vault, c: Call, t: Clock, now: nat)
    requires c.Authorize? && TokensLive(s, now)
    ensures TokensLive(Approval(s, v, c, t).0, now)
  {
  }

  lemma IssueKeepsLive(u: Outcome, c: Call, t: Clock, silent: bool, now: nat)
    requires c.Authorize? && u.s.key.Some? && TokensLive(u.s, now) && now <= t.issue
    ensures var s4 := WithToken(u.s, c.issue, c.operation, c.binding, u.v.active, u.s.key.value, t.issue);
            var minutes := Min(60, if c.minutes.Some? then c.minutes.value else 5);
            TokensLive(if silent then s4 else Extend(s4, t.issue, minutes), now)
  {
  }

  lemma OthersKeepLive(s: State, v: Vault, c: Call, t: Clock, now: nat)
    requires TokensLive(s, now)
    ensures c.Prepare? ==> TokensLive(Prepared(s, v, c, t).s, now)
    ensures c.SignTransaction? ==> TokensLive(SignedTransaction(s, v, c, t).s, now)
    ensures c.ConfigurePin? ==> TokensLive(Reconfigured(s, v, c, t).s, now)
  {
    hide PinVerified;
    if c.ConfigurePin? {
      PinKeepsLive(s, v, c.pin, t.pin, t.pin, now);
    }
  }

  /** Expired tokens do not survive the start of any call. */
  lemma ExpiredTokensAreDropped(s0: State, v: Vault, c: Call, t: Clock)
    requires t.start <= t.issue
    ensures TokensLive(Dispatched(s0, v, c, t).s, t.start)
  {
    hide Authorized, Prepared, SignedTransaction, Reconfigured, PinVerified, Unlocked, TokenAllows;
    var s := Expired(s0, t.start);
    if c.Authorize? {
      AuthorizedKeepsLive(s, v, c, t, t.start);
    } else if c.Prepare? || c.SignTransaction? || c.ConfigurePin? {
      OthersKeepLive(s, v, c, t, t.start);
    } else if c.VerifyPin? {
      PinKeepsLive(s, v, c.pin, t.pin, t.pin, t.start);
    } else if c.Unlock? || c.AddWallet? || c.Restore? {
      PinKeepsLive(s, v, c.pin, t.unlock, t.entered, t.start);
    }
  }
}
