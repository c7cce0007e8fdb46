/** Exactly when each call of the session succeeds, and what it leaves. */
module SessionRules {
  import opened Wrappers
  import opened SessionState
  import opened SessionLaw
  import opened SessionVault

  // ----- operations -----------------------------------------------------------------------------------------------

  /** Transactions are only signed against a review; exports and deletions always ask for the password. */
  lemma OperationsExactly(operation: string)
    ensures NeedsReview(operation) <==>
              "sign" <= operation && operation != "signPersonalMessage" && operation != "signInternalNexusChallenge"
    ensures AlwaysAsked(operation) <==> "export" <= operation || operation == "deleteWallet"
    ensures NeedsReview("signTransaction") && NeedsReview("signDotkMarket") && !NeedsReview("deleteWallet")
    ensures operation in TRANSACTION_OPERATIONS ==> NeedsReview(operation) && !AlwaysAsked(operation)
  {
    assert "signTransaction"[..4] == "sign" && "signDotkMarket"[..4] == "sign";
    assert operation in TRANSACTION_OPERATIONS ==> operation[..4] == "sign" && operation[0] == 's';
    assert "export"[0] == 'e' && "deleteWallet"[0] == 'd';
  }

  // ----- reviews --------------------------------------------------------------------------------------------------

  /** The reviews a new one finds: those not yet expired, unless there are more than a hundred. */
  lemma ReviewsKept(s: State, now: nat, hash: string)
    ensures var live := map h | h in s.reviews && s.reviews[h].expires > now :: s.reviews[h];
            && (|live| <= 100 ==>
                  (hash in FreshReviews(s, now).reviews <==> hash in s.reviews && s.reviews[hash].expires > now)
                  && (hash in FreshReviews(s, now).reviews ==> FreshReviews(s, now).reviews[hash] == s.reviews[hash]))
            && (|live| > 100 ==> FreshReviews(s, now).reviews == map[])
            && FreshReviews(s, now) == s.(reviews := FreshReviews(s, now).reviews)
  {
  }

  /** A review is stored exactly if the core made one, and in-app listings only through a validated plan. */
  lemma PrepareExactly(s: State, v: Vault, c: Call, t: Clock)
    requires c.Prepare?
    ensures var r := Prepared(s, v, c, t);
            && (r.reply.Fine? <==> c.review.Some? && c.inApp.Some? && (c.kaspacom ==> c.inApp.value))
            && r.v == v
            && (r.reply.Fine? ==>
                  && r.s.reviews
                     == FreshReviews(s, t.check).reviews[c.review.value.0 :=
                          Review(c.review.value.1, v.active, s.generation, t.issue + 600_000, c.inApp.value)]
                  && r.s.tokens == s.tokens && r.s.until == s.until)
  {
  }

  // ----- tokens ---------------------------------------------------------------------------------------------------

  /** A token lets through exactly its own operation, terms, wallet and session, until it expires. */
  predicate Admits(k: Token, s: State, v: Vault, operation: string, binding: string, now: nat) {
    && k.operation == operation && k.binding == binding && k.wallet == v.active && k.generation == s.generation
    && now <= k.expires
  }

  /** A token is used up by the call that names it, which succeeds exactly if the token admits it. */
  lemma UseExactly(s0: State, v: Vault, operation: string, token: string, binding: string, t: Clock)
    ensures var s, r := Expired(s0, t.start), Dispatched(s0, v, UseToken(operation, Some(token), binding), t);
            && (r.reply.Fine? <==> token in s.tokens && Admits(s.tokens[token], s, v, operation, binding, t.check))
            && r.s.tokens == s.tokens - {token} && r.v == v
    ensures Dispatched(s0, v, UseToken(operation, None, binding), t).reply.Failed?
  {
  }

  /** A transaction is signed exactly with a token that admits its operation and review hash, if the core signs. */
  lemma SignExactly(s0: State, v: Vault, c: Call, t: Clock)
    requires c.SignTransaction?
    ensures var s, r := Expired(s0, t.start), Dispatched(s0, v, c, t);
            && (r.reply.Signature? <==>
                  && c.operation in TRANSACTION_OPERATIONS && c.token.Some? && c.reviewHash.Some? && c.coreOk
                  && c.token.value in s.tokens
                  && Admits(s.tokens[c.token.value], s, v, c.operation, c.reviewHash.value, t.check))
            && (r.reply.Signature? ==>
                  && r.reply == Signature(c.token.value, c.operation, c.reviewHash.value)
                  && r.s.tokens == s.tokens - {c.token.value})
            && r.v == v
  {
  }

  /** A wallet is deleted exactly with a token for deleting it, if the vault can be stored. */
  lemma DeleteExactly(s0: State, v: Vault, id: string, token: string, saved: bool, t: Clock)
    ensures var s, r := Expired(s0, t.start), Dispatched(s0, v, DeleteWallet(id, Some(token), saved), t);
            r.reply.Fine? <==>
              saved && token in s.tokens && Admits(s.tokens[token], s, v, "deleteWallet", id, t.check)
  {
    hide Invalidated, Deleted;
  }

  // ----- authorizing ----------------------------------------------------------------------------------------------

  /** The offers page is open, the login has not passed, and the message is one of its challenges. */
  predicate OffersChallenge(s: State, c: Call, now: nat)
    requires c.Authorize?
  {
    c.operation == "signInternalNexusChallenge" && s.nexus && now <= s.until && c.nexusMessage
  }

  /** The user's consent, to the stored review or to the terms; a validated in-app listing is not shown again. */
  predicate Consented(s: State, v: Vault, c: Call, now: nat)
    requires c.Authorize?
  {
    if NeedsReview(c.operation) then
      && c.binding in s.reviews
      && var r := s.reviews[c.binding];
         && r.operation == c.operation && r.wallet == v.active && r.generation == s.generation && now <= r.expires
         && (c.approve || (c.kaspacom && r.inApp))
    else c.approve
  }

  /** The password is due: the login has passed, the caller wants no session, or the operation always asks. */
  predicate PasswordDue(s: State, c: Call, now: nat)
    requires c.Authorize?
  {
    s.until < now || c.minutes == Some(0) || AlwaysAsked(c.operation)
  }

  /**
   A token is issued exactly with consent and the key: after a right password where one is due, else on a live login.
   Challenges of the open offers page need no consent and do not move the deadline.
   */
  lemma AuthorizeExactly(s: State, v: Vault, c: Call, t: Clock)
    requires c.Authorize?
    ensures var r, silent := Authorized(s, v, c, t), OffersChallenge(s, c, t.check);
            var due := !silent && PasswordDue(s, c, t.ask);
            && (r.reply.Fine? <==>
                  && (silent || Consented(s, v, c, t.check))
                  && (if due then c.pin.PinRight? && (t.unlock < t.pin + 300_000 || c.pin2.PinRight?)
                      else Live(s, v, t.unlock) || c.pin2.PinRight?))
            && (r.reply.Fine? ==>
                  && c.issue in r.s.tokens
                  && r.s.tokens[c.issue].operation == c.operation && r.s.tokens[c.issue].binding == c.binding
                  && r.s.tokens[c.issue].wallet == v.active && r.s.tokens[c.issue].generation == r.s.generation
                  && r.s.tokens[c.issue].expires == t.issue + 60_000
                  && (!silent ==>
                        r.s.until == t.issue + Min(60, if c.minutes.Some? then c.minutes.value else 5) * 60_000)
                  && (silent && Live(s, v, t.unlock) ==> r.s.until == s.until))
  {
    hide PinVerified, NeedsPin, NeedsReview, AlwaysAsked, Extend, WithToken, Unlocked;
    var (s1, approved) := Approval(s, v, c, t);
    assert approved <==> OffersChallenge(s, c, t.check) || Consented(s, v, c, t.check) by {
      ApprovalExactly(s, v, c, t);
    }
    ApprovalKeepsLogin(s, v, c, t);
    var asks := AsksPin(s, c, t);
    assert asks <==> !OffersChallenge(s, c, t.check) && PasswordDue(s, c, t.ask);
    var s2 := if asks then PinVerified(s1, c.pin, t.pin) else s1;
    var v2 := if asks then VaultAfter(v, c.pin) else v;
    RightPinIsLive(s1, v, c.pin, t.pin, t.unlock);
    UnlockedExactly(s2, v2, c.pin2, t.unlock, t.entered);
    UnlockKeepsLive(s2, v2, c.pin2, t.unlock, t.entered);
    var u := Unlocked(s2, v2, c.pin2, t.unlock, t.entered);
    if approved && (!asks || c.pin.PinRight?) && u.reply.Fine? {
      IssueLeaves(u, c, t);
    }
  }

  lemma ApprovalExactly(s: State, v: Vault, c: Call, t: Clock)
    requires c.Authorize?
    ensures Approval(s, v, c, t).1 <==> OffersChallenge(s, c, t.check) || Consented(s, v, c, t.check)
  {
    hide NeedsReview;
  }

  lemma ApprovalKeepsLogin(s: State, v: Vault, c: Call, t: Clock)
    requires c.Authorize?
    ensures var s1 := Approval(s, v, c, t).0;
            s1.until == s.until && s1.key == s.key && s1.storeId == s.storeId && s1.generation == s.generation
  {
  }

  lemma RightPinIsLive(s: State, v: Vault, pin: Pin, now: nat, later: nat)
    ensures pin.PinRight? ==>
              (Live(PinVerified(s, pin, now), VaultAfter(v, pin), later) <==> later < now + LOGIN_START)
    ensures VaultAfter(v, pin).active == v.active
  {
  }

  lemma UnlockKeepsLive(s: State, v: Vault, pin: Pin, now: nat, answered: nat)
    ensures Live(s, v, now) ==> Unlocked(s, v, pin, now, answered).s.until == s.until
  {
  }

  lemma IssueLeaves(u: Outcome, c: Call, t: Clock)
    requires c.Authorize? && u.s.key.Some?
    ensures var s4 := WithToken(u.s, c.issue, c.operation, c.binding, u.v.active, u.s.key.value, t.issue);
            var minutes := Min(60, if c.minutes.Some? then c.minutes.value else 5);
            && c.issue in s4.tokens && s4.until == u.s.until && s4.generation == u.s.generation
            && s4.tokens[c.issue]
               == Token(c.operation, c.binding, u.v.active, u.s.generation, t.issue + TOKEN_LIFE, u.s.key.value)
            && Extend(s4, t.issue, minutes).tokens == s4.tokens
            && Extend(s4, t.issue, minutes).generation == s4.generation
            && Extend(s4, t.issue, minutes).until == t.issue + minutes * MINUTE
  {
  }

  // ----- the password and the offers page ---------------------------------------------------------------------------

  /** Changing the password needs the old one and a login that is still live when the new one is entered. */
  lemma ReconfigureExactly(s: State, v: Vault, c: Call, t: Clock)
    requires c.ConfigurePin?
    ensures var r := Reconfigured(s, v, c, t);
            && (r.reply.Fine? <==>
                  c.changed.Some? && (c.hasPassword ==> c.pin.PinRight? && t.unlock < t.pin + 300_000))
            && (r.reply.Fine? ==>
                  && r.v == v.(store := Some(c.changed.value.1)) && r.s.key == None && r.s.tokens == map[]
                  && r.s.reviews == map[] && r.s.until == 0)
            && (r.reply.Failed? ==>
                  && r.s == (if c.hasPassword then PinVerified(s, c.pin, t.pin) else s)
                  && r.v == (if c.hasPassword then VaultAfter(v, c.pin) else v))
  {
  }

  /** The offers page opens on a live login and closes with everything else revoked. */
  lemma OffersExactly(s0: State, v: Vault, t: Clock)
    ensures var s := Expired(s0, t.start);
            var on, off := Dispatched(s0, v, SetNexus(true), t), Dispatched(s0, v, SetNexus(false), t);
            && (on.reply.Fine? <==> s.until > t.check && s.key.Some?) && on.v == v && off.v == v
            && on.s == (if on.reply.Fine? then s.(nexus := true) else s)
            && off.reply.Fine? && !off.s.nexus && off.s.tokens == map[] && off.s.reviews == map[]
            && off.s.until == (if s.until > t.check then s.until else 0)
  {
  }

  // ----- the host ---------------------------------------------------------------------------------------------------

  /** Nothing of the session before is left: no review, no token, no offers page. */
  predicate Revoked(before: State, after: State) {
    after.reviews == map[] && after.tokens == map[] && !after.nexus && after.generation > before.generation
  }

  /** No login, or the one from before. */
  predicate LoginIs(s: State, kept: bool, before: State) {
    && s.until == (if kept then before.until else 0) && s.key == (if kept then before.key else None)
  }

  /**
   A call starts on the session as it was, unless a cancellation came since the last call. Then everything is revoked,
   and a live login stays only if the cancellation was no lock.
   */
  lemma EnteredExactly(w: World, seen: nat, now: nat)
    ensures var e := Entered(w, seen, now);
            && e.v == w.v && e.cancellations == w.cancellations && e.s.cancellation == seen
            && (w.s.cancellation == seen ==> e == w)
            && (w.s.cancellation != seen ==>
                  Revoked(w.s, e.s) && !e.forget && LoginIs(e.s, !w.forget && w.s.until > now, w.s))
  {
  }

  /**
   A reply is released exactly if no cancellation came while the call ran; otherwise the call fails and everything is
   revoked. What it stored in the vault stays.
   */
  lemma HandledExactly(w: World, r: Stimulus)
    requires r.Request? && r.seen <= w.cancellations
    ensures var e, h := Entered(w, r.seen, r.early), Handled(w, r);
            var d, undisturbed := Dispatched(e.s, e.v, r.call, r.clock), r.interrupts == 0 && r.seen == w.cancellations;
            var forget := e.forget || (r.interrupts > 0 && r.locks);
            && (!r.loaded ==> h == (e, Failed))
            && (r.loaded && undisturbed ==> h == (e.(s := d.s, v := d.v), d.reply))
            && (r.loaded && !undisturbed ==>
                  && h.1.Failed? && h.0.v == d.v && h.0.cancellations == w.cancellations + r.interrupts
                  && Revoked(d.s, h.0.s) && h.0.s.cancellation == h.0.cancellations && !h.0.forget
                  && LoginIs(h.0.s, !forget && d.s.until > r.late, d.s))
  {
    hide Dispatched;
  }

  /** A cancellation revokes all before the next call, and a lock takes the login at once. */
  lemma CancelRevokes(w: World, lock: bool, r: Stimulus)
    requires r.Request? && w.s.cancellation <= w.cancellations < r.seen
    ensures var c := Step(w, if lock then Lock else Cancel);
            var e := Entered(c, r.seen, r.early);
            && c.cancellations == w.cancellations + 1
            && Revoked(w.s, e.s) && LoginIs(e.s, !lock && !w.forget && w.s.until > r.early, w.s)
            && (lock ==> LoginIs(c.s, false, w.s) && Revoked(w.s, c.s))
  {
  }

  /** A call caught by a lock loses even a login opened in it: it read the counter before and is refused after. */
  lemma LockCatchesCall(w: World, r: Stimulus)
    requires r.Request? && r.loaded && r.seen == w.cancellations == w.s.cancellation
    ensures var h := Handled(Step(w, Lock), r);
            h.1.Failed? && LoginIs(h.0.s, false, w.s) && h.0.s.tokens == map[] && h.0.s.reviews == map[]
  {
    hide Dispatched;
  }
}
