/** What calls make of the vault, which calls succeed, and whose wallet the history speaks of. */
module SessionVault {
  import opened Wrappers
  import opened SessionState
  import opened SessionLaw
  import opened SessionCalls
  import opened SessionRuns

  // ----- taking the key -----------------------------------------------------------------------------------------

  /** A login that has not passed, with its key, for the password store of this vault. */
  predicate Live(s: State, v: Vault, now: nat) {
    s.until > now && s.key.Some? && v.store == Some(s.storeId)
  }

  /** The key is handed out exactly on a live login or after a right password, and the vault keeps its wallets. */
  lemma UnlockedExactly(s: State, v: Vault, pin: Pin, now: nat, answered: nat)
    ensures var u := Unlocked(s, v, pin, now, answered);
            && (u.reply.Fine? <==> Live(s, v, now) || pin.PinRight?)
            && (u.reply.Fine? ==> u.s.key == if Live(s, v, now) then s.key else Some(pin.key))
            && u.v.active == v.active && u.v.wallets == v.wallets
            && u.v.store == if Live(s, v, now) || !pin.PinRight? then v.store else Some(pin.store)
  {
  }

  // ----- what a call does to the vault --------------------------------------------------------------------------

  /** The wallets stay, except for `id`, which is gone. */
  ghost predicate Lost(before: Vault, after: Vault, id: string) {
    && (forall w :: w in after.wallets <==> w in before.wallets && w != id)
    && (before.active != id ==> after.active == before.active)
    && (before.active == id && after.wallets == [] ==> after.active == "")
    && (before.active == id && after.wallets != [] ==> after.active == after.wallets[0])
  }

  lemma {:induction false} WithoutKeepsOthers(wallets: seq<string>, id: string)
    ensures forall w :: w in Without(wallets, id) <==> w in wallets && w != id
    ensures id !in wallets ==> Without(wallets, id) == wallets
  {
    if wallets != [] {
      WithoutKeepsOthers(wallets[1..], id);
      assert wallets == [wallets[0]] + wallets[1..];
    }
  }

  lemma DeletedIsLost(v: Vault, id: string)
    ensures Lost(v, Deleted(v, id), id)
  {
    hide Without;
    WithoutKeepsOthers(v.wallets, id);
  }

  ghost predicate SameWallets(before: Vault, after: Vault) {
    after.active == before.active && after.wallets == before.wallets
  }

  ghost predicate Gained(before: Vault, after: Vault, id: string) {
    after.active == id && after.wallets == before.wallets + [id]
  }

  /** What the call leaves of the wallets, given whether it could take the key. */
  ghost predicate Moves(before: Vault, after: Vault, c: Call, fine: bool, unlocked: bool) {
    match c
    case SelectWallet(id, saved) =>
      if id in before.wallets && saved then fine && after.active == id && after.wallets == before.wallets
      else !fine && SameWallets(before, after)
    case AddWallet(_, stored) =>
      if unlocked && stored.Some? then fine && Gained(before, after, stored.value)
      else !fine && SameWallets(before, after)
    case Restore(_, stored, finished) =>
      if unlocked && stored.Some? then fine == finished && Gained(before, after, stored.value)
      else !fine && SameWallets(before, after)
    case DeleteWallet(id, _, saved) => if fine then saved && Lost(before, after, id) else SameWallets(before, after)
    case _ => SameWallets(before, after)
  }

  /** Selecting, adding, restoring and deleting do what they say; no other call touches the wallets. */
  lemma CallMovesVault(s0: State, v: Vault, c: Call, t: Clock)
    ensures var s, r := Expired(s0, t.start), Dispatched(s0, v, c, t);
            Moves(v, r.v, c, r.reply.Fine?,
                  (c.AddWallet? || c.Restore?) && (Live(s, v, t.unlock) || c.pin.PinRight?))
  {
    hide Prepared, SignedTransaction, Authorized, PinVerified, Switched, Invalidated, Unlocked, TokenUsed, Extend,
      Deleted, Expired, Refreshed;
    var s := Expired(s0, t.start);
    AuthorizedKeepsActive(s, v, c, t);
    if c.AddWallet? || c.Restore? || c.Unlock? {
      UnlockedExactly(s, v, c.pin, t.unlock, t.entered);
    } else if c.DeleteWallet? {
      DeletedIsLost(v, c.id);
    } else if c.Authorize? {
      AuthorizedKeepsWallets(s, v, c, t);
    }
  }

  lemma AuthorizedKeepsWallets(s: State, v: Vault, c: Call, t: Clock)
    requires c.Authorize?
    ensures SameWallets(v, Authorized(s, v, c, t).v)
  {
    hide Approval, AsksPin, PinVerified, Unlocked, WithToken, Extend;
    var (s1, approved) := Approval(s, v, c, t);
    var asks := AsksPin(s, c, t);
    var s2 := if asks then PinVerified(s1, c.pin, t.pin) else s1;
    var v2 := if asks then VaultAfter(v, c.pin) else v;
    UnlockedExactly(s2, v2, c.pin2, t.unlock, t.entered);
  }

  // ----- whose wallet an event is about -----------------------------------------------------------------------------

  /** The wallet a review, an approval, a token or a signature is for. */
  function WalletOf(e: Event): Option<string> {
    match e
    case Reviewed(_, _, wallet, _) => Some(wallet)
    case Approved(_, _, wallet, _) => Some(wallet)
    case Issued(_, _, _, wallet, _) => Some(wallet)
    case Signed(_, _, _, wallet, _) => Some(wallet)
    case _ => None
  }

  /** What `l` adds to `h` concerns this wallet only. */
  ghost predicate OnlyAbout(h: seq<Event>, l: seq<Event>, wallet: string) {
    h <= l && forall k :: |h| <= k < |l| && WalletOf(l[k]).Some? ==> WalletOf(l[k]).value == wallet
  }

  lemma AboutStill(h: seq<Event>, l: seq<Event>, m: seq<Event>, wallet: string)
    requires OnlyAbout(h, l, wallet) && OnlyAbout(l, m, wallet)
    ensures OnlyAbout(h, m, wallet)
  {
    assert forall k :: 0 <= k < |l| ==> m[k] == l[k];
  }

  lemma SmallSteps(s: State, v: Vault, now: nat, minutes: nat, pin: Pin, wallet: string)
    ensures OnlyAbout(s.history, s.history, wallet)
    ensures OnlyAbout(s.history, Invalidated(s).history, wallet)
    ensures OnlyAbout(s.history, Switched(s, now).history, wallet)
    ensures OnlyAbout(s.history, Extend(s, now, minutes).history, wallet)
    ensures OnlyAbout(s.history, PinVerified(s, pin, now).history, wallet)
  {
  }

  lemma UnlockIsAbout(s: State, v: Vault, pin: Pin, now: nat, answered: nat, wallet: string)
    ensures OnlyAbout(s.history, Unlocked(s, v, pin, now, answered).s.history, wallet)
  {
    hide PinVerified;
    SmallSteps(s, v, answered, 0, pin, wallet);
  }

  lemma TokenUseIsAbout(s: State, v: Vault, token: Option<string>, operation: string, binding: string, now: nat)
    ensures OnlyAbout(s.history, TokenUsed(s, v, token, operation, binding, now).0.history, v.active)
  {
  }

  lemma SignIsAbout(s: State, v: Vault, c: Call, t: Clock)
    requires c.SignTransaction?
    ensures OnlyAbout(s.history, SignedTransaction(s, v, c, t).s.history, v.active)
  {
    hide TokenAllows;
  }

  lemma PrepareIsAbout(s: State, v: Vault, c: Call, t: Clock)
    requires c.Prepare?
    ensures OnlyAbout(s.history, Prepared(s, v, c, t).s.history, v.active)
  {
  }

  lemma ApprovalIsAbout(s: State, v: Vault, c: Call, t: Clock)
    requires c.Authorize?
    ensures OnlyAbout(s.history, Approval(s, v, c, t).0.history, v.active)
  {
    hide NeedsReview, Silent;
  }

  lemma ReconfigureIsAbout(s: State, v: Vault, c: Call, t: Clock)
    requires c.ConfigurePin?
    ensures OnlyAbout(s.history, Reconfigured(s, v, c, t).s.history, v.active)
  {
    hide PinVerified;
    SmallSteps(s, v, t.pin, 0, c.pin, v.active);
  }

  lemma IssueIsAbout(u: Outcome, c: Call, t: Clock, silent: bool)
    requires c.Authorize? && u.s.key.Some?
    ensures var s4 := WithToken(u.s, c.issue, c.operation, c.binding, u.v.active, u.s.key.value, t.issue);
            var minutes := Min(60, if c.minutes.Some? then c.minutes.value else 5);
            OnlyAbout(u.s.history, (if silent then s4 else Extend(s4, t.issue, minutes)).history, u.v.active)
  {
  }

  lemma AuthorizedIsAbout(s: State, v: Vault, c: Call, t: Clock)
    requires c.Authorize?
    ensures OnlyAbout(s.history, Authorized(s, v, c, t).s.history, v.active)
  {
    hide PinVerified, Unlocked, Silent, Approval, AsksPin, OnlyAbout, WithToken, Extend, VaultAfter;
    var h, w := s.history, v.active;
    var (s1, approved) := Approval(s, v, c, t);
    ApprovalIsAbout(s, v, c, t);
    if approved {
      var asks := AsksPin(s, c, t);
      var s2 := if asks then PinVerified(s1, c.pin, t.pin) else s1;
      var v2 := if asks then VaultAfter(v, c.pin) else v;
      SmallSteps(s1, v, t.pin, 0, c.pin, w);
      AboutStill(h, s1.history, s2.history, w);
      if !asks || c.pin.PinRight? {
        var u := Unlocked(s2, v2, c.pin2, t.unlock, t.entered);
        UnlockIsAbout(s2, v2, c.pin2, t.unlock, t.entered, w);
        AboutStill(h, s2.history, u.s.history, w);
        if u.reply.Fine? {
          KeyIsThere(s2, v2, c.pin2, t.unlock, t.entered);
          ActiveStays(s, v, c.pin, 0, 0);
          ActiveStays(s2, v2, c.pin2, t.unlock, t.entered);
          IssueIsAbout(u, c, t, Silent(s, c, t.check));
          AboutStill(h, u.s.history, Authorized(s, v, c, t).s.history, w);
        }
      }
    }
  }

  lemma CallIsAbout(s0: State, v: Vault, c: Call, t: Clock)
    ensures OnlyAbout(s0.history, Dispatched(s0, v, c, t).s.history, v.active)
  {
    hide OnlyAbout, Prepared, Authorized, SignedTransaction, TokenUsed, Unlocked, PinVerified, Switched, Invalidated,
      Extend, Reconfigured;
    var s, w := Expired(s0, t.start), v.active;
    var h := s.history;
    SmallSteps(s, v, t.check, 0, PinRefused, w);
    if c.Authorize? {
      AuthorizedIsAbout(s, v, c, t);
    } else if c.Prepare? {
      PrepareIsAbout(s, v, c, t);
    } else if c.SignTransaction? {
      SignIsAbout(s, v, c, t);
    } else if c.Refresh? {
      SmallSteps(s, v, t.check, UnlockMinutes(c.minutes), PinRefused, w);
    } else if c.UseToken? {
      TokenUseIsAbout(s, v, c.token, c.operation, c.binding, t.check);
    } else if c.DeleteWallet? {
      TokenUseIsAbout(s, v, c.token, "deleteWallet", c.id, t.check);
      var s1 := TokenUsed(s, v, c.token, "deleteWallet", c.id, t.check).0;
      SmallSteps(s1, v, t.check, 0, PinRefused, w);
      AboutStill(h, s1.history, Invalidated(s1).history, w);
    } else if c.ConfigurePin? {
      ReconfigureIsAbout(s, v, c, t);
    } else if c.VerifyPin? {
      var s1, minutes := PinVerified(s, c.pin, t.pin), UnlockMinutes(c.minutes);
      SmallSteps(s, v, t.pin, 0, c.pin, w);
      SmallSteps(s1, v, t.issue, minutes, PinRefused, w);
      AboutStill(h, s1.history, Extend(s1, t.issue, minutes).history, w);
    } else if c.Unlock? || c.AddWallet? || c.Restore? {
      var s1 := Unlocked(s, v, c.pin, t.unlock, t.entered).s;
      UnlockIsAbout(s, v, c.pin, t.unlock, t.entered, w);
      SmallSteps(s1, v, t.issue, 0, PinRefused, w);
      AboutStill(h, s1.history, Switched(s1, t.issue).history, w);
    }
  }

  lemma ForgetIsAbout(s: State, v: Vault, forget: bool, now: nat, wallet: string)
    ensures OnlyAbout(s.history, Forgotten(s, forget, now).history, wallet)
    ensures OnlyAbout(s.history, s.history, wallet) && OnlyAbout(s.history, Invalidated(s).history, wallet)
  {
    hide OnlyAbout, Invalidated, Switched;
    SmallSteps(s, v, now, 0, PinRefused, wallet);
  }

  /** Whatever a stimulus puts on record is about the wallet that was active when it came. */
  lemma StepIsAbout(w: World, r: Stimulus)
    ensures OnlyAbout(w.s.history, Step(w, r).s.history, w.v.active)
  {
    hide OnlyAbout, Dispatched, Forgotten, Invalidated;
    var active := w.v.active;
    match r
    case Request(call, clock, seen, interrupts, locks, loaded, early, late) =>
      var w1 := Entered(w, seen, early);
      ForgetIsAbout(w.s, w.v, w.forget, early, active);
      if loaded {
        var d := Dispatched(w1.s, w1.v, call, clock);
        CallIsAbout(w1.s, w1.v, call, clock);
        AboutStill(w.s.history, w1.s.history, d.s.history, active);
        ForgetIsAbout(d.s, d.v, w1.forget || (interrupts > 0 && locks), late, active);
        AboutStill(w.s.history, d.s.history, Step(w, r).s.history, active);
      }
    case Cancel => ForgetIsAbout(w.s, w.v, false, 0, active);
    case Lock => ForgetIsAbout(w.s, w.v, false, 0, active);
  }

  // ----- the active wallet over whole runs --------------------------------------------------------------------------

  /** The wallet a stimulus makes the active one: selected, added, restored, or next after the deleted one. */
  function Choice(w: World, r: Stimulus): Option<string> {
    if !r.Request? || !r.loaded then None
    else
      var s0 := Entered(w, r.seen, r.early).s;
      var s := Expired(s0, r.clock.start);
      match r.call
      case SelectWallet(id, saved) => if id in w.v.wallets && saved then Some(id) else None
      case AddWallet(pin, stored) => if Live(s, w.v, r.clock.unlock) || pin.PinRight? then stored else None
      case Restore(pin, stored, _) => if Live(s, w.v, r.clock.unlock) || pin.PinRight? then stored else None
      case DeleteWallet(id, token, saved) =>
        if id == w.v.active && Dispatched(s0, w.v, r.call, r.clock).reply.Fine? then
          var left := Without(w.v.wallets, id);
          Some(if left == [] then "" else left[0])
        else None
      case _ => None
  }

  lemma StepChooses(w: World, r: Stimulus)
    ensures var c := Choice(w, r); Step(w, r).v.active == if c.Some? then c.value else w.v.active
  {
    hide Dispatched, Forgotten, Without, Expired, Live;
    if r.Request? && r.loaded {
      var w1 := Entered(w, r.seen, r.early);
      CallMovesVault(w1.s, w1.v, r.call, r.clock);
      if r.call.DeleteWallet? {
        DeletedExactly(w1.s, w1.v, r.call, r.clock);
      }
    }
  }

  lemma DeletedExactly(s0: State, v: Vault, c: Call, t: Clock)
    requires c.DeleteWallet?
    ensures var r := Dispatched(s0, v, c, t); r.reply.Fine? ==> r.v == Deleted(v, c.id)
  {
    hide TokenUsed, Invalidated, Deleted, Expired;
  }

  /** The wallet chosen last, or the one active at first. */
  function LastChoice(w: World, stimuli: seq<Stimulus>): string
    decreases |stimuli|
  {
    if stimuli == [] then w.v.active
    else
      var n := |stimuli| - 1;
      var c := Choice(Run(w, stimuli[..n]), stimuli[n]);
      if c.Some? then c.value else LastChoice(w, stimuli[..n])
  }

  lemma {:induction false} ActiveIsLastChoice(w: World, stimuli: seq<Stimulus>)
    ensures Run(w, stimuli).v.active == LastChoice(w, stimuli)
    decreases |stimuli|
  {
    hide Step, Choice;
    if stimuli != [] {
      var n := |stimuli| - 1;
      ActiveIsLastChoice(w, stimuli[..n]);
      StepChooses(Run(w, stimuli[..n]), stimuli[n]);
      assert stimuli == stimuli[..n] + [stimuli[n]];
      RunOneMore(w, stimuli[..n], stimuli[n]);
    }
  }

  /**
   In every run each review, approval, token and signature is for the wallet last selected, added, restored or left
   active by a deletion before the call that put it on record.
   */
  lemma {:induction false} EventsAreOfLastChoice(w: World, stimuli: seq<Stimulus>, i: nat)
    requires var h := Run(w, stimuli).s.history; |w.s.history| <= i < |h| && WalletOf(h[i]).Some?
    ensures exists m :: 0 <= m < |stimuli| && Records(w, stimuli, m, i, i)
                        && WalletOf(Run(w, stimuli).s.history[i]) == Some(LastChoice(w, stimuli[..m]))
    decreases |stimuli|
  {
    hide Step, Choice, WalletOf, LastChoice;
    var h := Run(w, stimuli).s.history;
    if stimuli != [] {
      var n := |stimuli| - 1;
      var before := Run(w, stimuli[..n]);
      assert stimuli == stimuli[..n] + [stimuli[n]] && stimuli[..n + 1] == stimuli;
      RunOneMore(w, stimuli[..n], stimuli[n]);
      StepIsAbout(before, stimuli[n]);
      if i >= |before.s.history| {
        ActiveIsLastChoice(w, stimuli[..n]);
        assert Records(w, stimuli, n, i, i);
      } else {
        assert before.s.history[i] == h[i];
        EventsAreOfLastChoice(w, stimuli[..n], i);
        var m :| 0 <= m < n && Records(w, stimuli[..n], m, i, i)
                 && WalletOf(before.s.history[i]) == Some(LastChoice(w, stimuli[..n][..m]));
        assert stimuli[..n][..m] == stimuli[..m] && stimuli[..n][..m + 1] == stimuli[..m + 1];
        assert Records(w, stimuli, m, i, i);
      }
    }
  }
}
