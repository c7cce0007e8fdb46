/** The desktop session as the host keeps it: fields changed in place by every native call. */
module Session {
  import opened Wrappers
  import opened SessionState

  class Desktop {
    var generation: nat
    var cancellation: nat
    var until: nat
    var nexus: bool
    var tokens: map<string, Token>
    var reviews: map<string, Review>
    var key: Option<Key>
    var storeId: string
    ghost var history: seq<Event>

    /** The stored vault, loaded at the start of every call. */
    var vault: Vault

    /** The process-wide cancellation counter and the flag that a lock also forgets the login. */
    var cancellations: nat
    var forget: bool

    ghost function Now(): State
      reads this
    {
      State(generation, cancellation, until, nexus, tokens, reviews, key, storeId, history)
    }

    ghost function View(): World
      reads this
    {
      World(Now(), vault, cancellations, forget)
    }

    constructor (stored: Vault)
      ensures View() == World(START, stored, 0, false)
    {
      generation, cancellation, until, nexus, tokens, reviews := 0, 0, 0, false, map[], map[];
      key, storeId, history := None, "", [];
      vault, cancellations, forget := stored, 0, false;
    }

    /** Clears the session; the history notes whether the caller means to keep the login. */
    method Wipe(ghost login: bool)
      modifies this
      ensures View() == old(View()).(s := Wiped(old(Now()), login))
    {
      generation := generation + 1;
      tokens := map[];
      reviews := map[];
      until := 0;
      nexus := false;
      key := None;
      storeId := "";
      history := history + [Revoked(login)];
    }

    method Invalidate()
      modifies this
      ensures View() == old(View()).(s := Invalidated(old(Now())))
    {
      Wipe(false);
    }

    method SwitchWalletSession(now: nat)
      modifies this
      ensures View() == old(View()).(s := Switched(old(Now()), now))
    {
      var kept, login, store := until, key, storeId;
      Wipe(kept > now);
      if kept > now {
        until := kept;
        key := login;
        storeId := store;
      }
    }

    method Expire(now: nat)
      modifies this
      ensures View() == old(View()).(s := Expired(old(Now()), now))
    {
      tokens := map t | t in tokens && tokens[t].expires > now :: tokens[t];
      if until <= now {
        key := None;
      }
    }

    /** A refresh never revives a login that is locked, expired or outside the offers page, and never reaches far. */
    method RefreshUnlock(minutes: Option<nat>, now: nat) returns (moved: bool)
      modifies this
      ensures View() == old(View()).(s := Refreshed(old(Now()), minutes, now))
      ensures moved ==> old(nexus) && old(until) > now && key.Some? && now + MINUTE <= until <= now + LOGIN_LIMIT
      ensures !moved ==> View() == old(View()) && (!nexus || until <= now || key.None?)
    {
      if !nexus || until <= now || key.None? {
        return false;
      }
      SetDeadline(now, UnlockMinutes(minutes));
      return true;
    }

    method SetDeadline(now: nat, minutes: nat)
      modifies this`until, this`history
      ensures View() == old(View()).(s := Extend(old(Now()), now, minutes))
    {
      until := now + minutes * MINUTE;
      history := history + [Extended(now, until)];
    }

    method SetSessionKey(k: Key, store: string, now: nat)
      modifies this
      ensures View() == old(View()).(s := WithKey(old(Now()), k, store, now))
    {
      Invalidate();
      storeId := store;
      key := Some(k);
      until := now + LOGIN_START;
      history := history + [Opened(now, until)];
    }

    method VerifyPassword(pin: Pin, now: nat) returns (ok: bool)
      modifies this
      ensures View() == old(View()).(s := PinVerified(old(Now()), pin, now), v := VaultAfter(old(vault), pin))
      ensures ok == pin.PinRight?
    {
      match pin {
        case PinRefused =>
          ok := false;
        case PinWrong =>
          Invalidate();
          ok := false;
        case PinRight(k, store) =>
          vault := vault.(store := Some(store));
          SetSessionKey(k, store, now);
          ok := true;
      }
    }

    method UnlockedKey(pin: Pin, now: nat, answered: nat) returns (k: Option<Key>)
      modifies this
      ensures var r := Unlocked(old(Now()), old(vault), pin, now, answered);
              && View() == old(View()).(s := r.s, v := r.v)
              && (k.Some? <==> r.reply.Fine?) && (k.Some? ==> k == key)
    {
      ghost var at := now;
      if until <= now || key.None? || vault.store != Some(storeId) {
        var ok := VerifyPassword(pin, answered);
        if !ok {
          return None;
        }
        at := answered;
      }
      k := key;
      if k.Some? {
        history := history + [KeyTaken(at)];
      }
    }

    /** Takes the token out of the session before looking at it. */
    method Consume(token: Option<string>, operation: string, binding: string, now: nat) returns (ok: bool)
      modifies this
      ensures var (s, allowed) := TokenUsed(old(Now()), old(vault), token, operation, binding, now);
              View() == old(View()).(s := s) && ok == allowed
    {
      if token.None? || token.value !in tokens {
        return false;
      }
      var t := tokens[token.value];
      tokens := tokens - {token.value};
      history := history + [Used(token.value)];
      return t.operation == operation && t.binding == binding && t.wallet == vault.active
             && t.generation == generation && t.expires >= now;
    }

    method PrepareReview(c: Call, t: Clock) returns (reply: Reply)
      requires c.Prepare?
      modifies this
      ensures var r := Prepared(old(Now()), old(vault), c, t);
              View() == old(View()).(s := r.s, v := r.v) && reply == r.reply
    {
      if c.review.None? {
        return Failed;
      }
      var (hash, operation) := c.review.value;
      reviews := map h | h in reviews && reviews[h].expires > t.check :: reviews[h];
      if |reviews| > 100 {
        reviews := map[];
      }
      if c.inApp.None? || (c.kaspacom && !c.inApp.value) {
        return Failed;
      }
      reviews := reviews[hash := Review(operation, vault.active, generation, t.issue + REVIEW_LIFE, c.inApp.value)];
      history := history + [Reviewed(hash, operation, vault.active, t.issue)];
      return Fine;
    }

    /** Checks the review and puts it before the user, except for silent and in-app approvals. */
    method ObtainApproval(c: Call, t: Clock) returns (approved: bool)
      requires c.Authorize?
      modifies this`history
      ensures var (s, ok) := Approval(old(Now()), vault, c, t);
              Now() == s && approved == ok
    {
      if c.operation == "signInternalNexusChallenge" && nexus && until >= t.check && c.nexusMessage {
        return true;
      }
      if !NeedsReview(c.operation) {
        return c.approve;
      }
      if c.binding !in reviews {
        return false;
      }
      var r := reviews[c.binding];
      if r.operation != c.operation || r.wallet != vault.active || r.generation != generation || r.expires < t.check {
        return false;
      }
      if !(c.kaspacom && r.inApp) && !c.approve {
        return false;
      }
      history := history + [Approved(c.operation, c.binding, vault.active, t.check)];
      return true;
    }

    method IssueToken(token: string, operation: string, binding: string, k: Key, now: nat)
      modifies this
      ensures View() == old(View()).(s := WithToken(old(Now()), token, operation, binding, old(vault).active, k, now))
    {
      tokens := map x | x in tokens && tokens[x].expires > now :: tokens[x];
      tokens := tokens[token := Token(operation, binding, vault.active, generation, now + TOKEN_LIFE, k)];
      history := history + [Issued(token, operation, binding, vault.active, now)];
    }

    method AuthorizeOperation(c: Call, t: Clock) returns (reply: Reply)
      requires c.Authorize?
      modifies this
      ensures var r := Authorized(old(Now()), old(vault), c, t);
              View() == old(View()).(s := r.s, v := r.v) && reply == r.reply
    {
      hide PinVerified, VaultAfter, WithToken, Approval, Unlocked, UnlockMinutes, Extend;
      ghost var start, v := Now(), vault;
      var silent := c.operation == "signInternalNexusChallenge" && nexus && until >= t.check && c.nexusMessage;
      var approved := ObtainApproval(c, t);
      assert silent == Silent(start, c, t.check) && until == start.until;
      if !approved {
        return Failed;
      }
      ghost var s1 := Now();
      if !silent && (until < t.ask || c.minutes == Some(0) || AlwaysAsked(c.operation)) {
        var ok := VerifyPassword(c.pin, t.pin);
        if !ok {
          return Failed;
        }
      }
      assert Now() == (if AsksPin(start, c, t) then PinVerified(s1, c.pin, t.pin) else s1);
      assert vault == (if AsksPin(start, c, t) then VaultAfter(v, c.pin) else v);
      var k := UnlockedKey(c.pin2, t.unlock, t.entered);
      if k.None? {
        return Failed;
      }
      IssueToken(c.issue, c.operation, c.binding, k.value, t.issue);
      if !silent {
        SetDeadline(t.issue, Min(60, if c.minutes.Some? then c.minutes.value else 5));
      }
      return Fine;
    }

    method Sign(c: Call, t: Clock) returns (reply: Reply)
      requires c.SignTransaction?
      modifies this
      ensures var r := SignedTransaction(old(Now()), old(vault), c, t);
              View() == old(View()).(s := r.s, v := r.v) && reply == r.reply
    {
      if c.operation !in TRANSACTION_OPERATIONS {
        return Failed;
      }
      var binding := if c.reviewHash.Some? then c.reviewHash.value else c.other;
      var ok := Consume(c.token, c.operation, binding, t.check);
      if !ok || c.reviewHash.None? || !c.coreOk {
        return Failed;
      }
      history := history + [Signed(c.token.value, c.operation, binding, vault.active, t.check)];
      return Signature(c.token.value, c.operation, binding);
    }

    method ChangePassword(c: Call, t: Clock) returns (reply: Reply)
      requires c.ConfigurePin?
      modifies this
      ensures var r := Reconfigured(old(Now()), old(vault), c, t);
              View() == old(View()).(s := r.s, v := r.v) && reply == r.reply
    {
      if c.hasPassword {
        var ok := VerifyPassword(c.pin, t.pin);
        if !ok {
          return Failed;
        }
      }
      if c.changed.None? || (c.hasPassword && (until <= t.unlock || key.None?)) {
        return Failed;
      }
      var (k, store) := c.changed.value;
      vault := vault.(store := Some(store));
      SetSessionKey(k, store, t.issue);
      Invalidate();
      return Fine;
    }

    method Dispatch(c: Call, t: Clock) returns (reply: Reply)
      modifies this
      ensures var r := Dispatched(old(Now()), old(vault), c, t);
              View() == old(View()).(s := r.s, v := r.v) && reply == r.reply
    {
      hide Prepared, Authorized, SignedTransaction, Unlocked, PinVerified, Invalidated, Switched, WithKey, Reconfigured,
        Expired, Refreshed, TokenUsed, UnlockMinutes, Extend;
      Expire(t.start);
      match c {
        case Prepare(_, _, _) =>
          reply := PrepareReview(c, t);
        case Authorize(_, _, _, _, _, _, _, _, _) =>
          reply := AuthorizeOperation(c, t);
        case SignTransaction(_, _, _, _, _) =>
          reply := Sign(c, t);
        case UseToken(operation, token, binding) =>
          var ok := Consume(token, operation, binding, t.check);
          reply := if ok then Fine else Failed;
        case VerifyPin(pin, minutes) =>
          var ok := VerifyPassword(pin, t.pin);
          if ok {
            SetDeadline(t.issue, UnlockMinutes(minutes));
          }
          reply := if ok then Fine else Failed;
        case Refresh(minutes) =>
          var _ := RefreshUnlock(minutes, t.check);
          reply := Fine;
        case ConfigurePin(_, _, _) =>
          reply := ChangePassword(c, t);
        case SetNexus(enabled) =>
          if !enabled {
            SwitchWalletSession(t.check);
          } else if until <= t.check || key.None? {
            return Failed;
          } else {
            nexus := true;
          }
          reply := Fine;
        case LockSession =>
          Invalidate();
          reply := Fine;
        case SelectWallet(id, saved) =>
          if id !in vault.wallets {
            return Failed;
          }
          SwitchWalletSession(t.check);
          if saved {
            vault := vault.(active := id);
          }
          reply := if saved then Fine else Failed;
        case Unlock(pin) =>
          var k := UnlockedKey(pin, t.unlock, t.entered);
          reply := if k.Some? then Fine else Failed;
        case AddWallet(pin, stored) =>
          var k := UnlockedKey(pin, t.unlock, t.entered);
          if k.None? || stored.None? {
            return Failed;
          }
          vault := Stored(vault, stored.value);
          SwitchWalletSession(t.issue);
          reply := Fine;
        case Restore(pin, stored, finished) =>
          var k := UnlockedKey(pin, t.unlock, t.entered);
          if k.None? || stored.None? {
            return Failed;
          }
          vault := Stored(vault, stored.value);
          if !finished {
            return Failed;
          }
          SwitchWalletSession(t.issue);
          reply := Fine;
        case DeleteWallet(id, token, saved) =>
          var ok := Consume(token, "deleteWallet", id, t.check);
          if !ok {
            return Failed;
          }
          Invalidate();
          if saved {
            vault := Deleted(vault, id);
          }
          reply := if saved then Fine else Failed;
        case InstallUpdate =>
          Invalidate();
          reply := Fine;
        case Other =>
          reply := Fine;
        case Panic =>
          Invalidate();
          reply := Failed;
      }
    }

    /** Revokes after a cancellation, and forgets the login if a lock asked for that. */
    method Forget(now: nat)
      modifies this
      ensures View() == old(View()).(s := Forgotten(old(Now()), old(forget), now), forget := false)
    {
      var all := forget;
      forget := false;
      if all {
        Invalidate();
      } else {
        SwitchWalletSession(now);
      }
    }

    /** Other threads may cancel or lock while a call holds the session. */
    method Interrupted(times: nat, locks: bool)
      modifies this`cancellations, this`forget
      ensures cancellations == old(cancellations) + times && forget == (old(forget) || (times > 0 && locks))
    {
      cancellations := cancellations + times;
      if times > 0 && locks {
        forget := true;
      }
    }

    method NativeCall(r: Stimulus) returns (reply: Reply)
      requires r.Request?
      modifies this
      ensures (View(), reply) == Handled(old(View()), r)
    {
      hide Dispatched, Invalidated, Switched;
      if cancellation != r.seen {
        Forget(r.early);
        cancellation := r.seen;
      }
      if !r.loaded {
        return Failed;
      }
      reply := Dispatch(r.call, r.clock);
      Interrupted(r.interrupts, r.locks);
      if cancellations != r.seen {
        Forget(r.late);
        cancellation := cancellations;
        return Failed;
      }
    }

    method CancelOperation()
      modifies this
      ensures View() == Step(old(View()), Cancel)
    {
      cancellations := cancellations + 1;
    }

    /** A lock while no call holds the session wipes it at once. */
    method LockNow()
      modifies this
      ensures View() == Step(old(View()), Lock)
    {
      forget := true;
      CancelOperation();
      Invalidate();
    }
  }
}
