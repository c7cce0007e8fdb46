/** What each call adds to the history, and that a token is only issued in the call that approved it. */
module SessionCalls {
  import opened Wrappers
  import opened SessionState
  import opened SessionLaw

  // ----- calls that issue nothing ---------------------------------------------------------------------------------

  /** `l` continues `h` without issuing a token. */
  ghost predicate IssuesNone(h: seq<Event>, l: seq<Event>) {
    h <= l && forall k :: |h| <= k < |l| ==> !l[k].Issued?
  }

  lemma IssuesNoneStill(h: seq<Event>, l: seq<Event>, m: seq<Event>)
    requires IssuesNone(h, l) && IssuesNone(l, m)
    ensures IssuesNone(h, m)
  {
    assert forall k :: 0 <= k < |l| ==> m[k] == l[k];
  }

  lemma ApprovalIssues(s: State, v: Vault, c: Call, t: Clock)
    requires c.Authorize?
    ensures IssuesNone(s.history, Approval(s, v, c, t).0.history)
  {
  }

  lemma PinIssues(s: State, pin: Pin, now: nat)
    ensures IssuesNone(s.history, PinVerified(s, pin, now).history)
    ensures pin.PinRight? ==> |PinVerified(s, pin, now).history| > |s.history|
  {
  }

  lemma UnlockedIssues(s: State, v: Vault, pin: Pin, now: nat, answered: nat)
    ensures IssuesNone(s.history, Unlocked(s, v, pin, now, answered).s.history)
  {
    hide PinVerified;
    PinIssues(s, pin, answered);
  }

  lemma ClosingIssues(s: State, now: nat)
    ensures IssuesNone(s.history, Invalidated(s).history) && IssuesNone(s.history, Switched(s, now).history)
  {
  }

  lemma TokenUsedIssues(s: State, v: Vault, c: Call, token: Option<string>, operation: string, binding: string,
                        t: Clock)
    ensures IssuesNone(s.history, TokenUsed(s, v, token, operation, binding, t.check).0.history)
    ensures c.SignTransaction? ==> IssuesNone(s.history, SignedTransaction(s, v, c, t).s.history)
  {
  }

  lemma SmallCallsIssue(s: State, v: Vault, c: Call, now: nat, minutes: nat, t: Clock)
    ensures c.Prepare? ==> IssuesNone(s.history, Prepared(s, v, c, t).s.history)
    ensures IssuesNone(s.history, Extend(s, now, minutes).history)
  {
  }

  lemma ReconfiguredIssues(s: State, v: Vault, c: Call, t: Clock)
    requires c.ConfigurePin?
    ensures IssuesNone(s.history, Reconfigured(s, v, c, t).s.history)
  {
    hide PinVerified;
    PinIssues(s, c.pin, t.pin);
  }

  /** No call but an authorization issues tokens. */
  lemma OthersIssueNone(s0: State, v: Vault, c: Call, t: Clock)
    requires !c.Authorize?
    ensures IssuesNone(s0.history, Dispatched(s0, v, c, t).s.history)
  {
    hide IssuesNone, Prepared, SignedTransaction, TokenUsed, Unlocked, PinVerified, Switched, Invalidated, Extend,
      Reconfigured;
    var s := Expired(s0, t.start);
    var h := s.history;
    NothingIssued(h);
    ClosingIssues(s, t.check);
    if c.Prepare? {
      SmallCallsIssue(s, v, c, t.check, 0, t);
    } else if c.Refresh? {
      SmallCallsIssue(s, v, c, t.check, UnlockMinutes(c.minutes), t);
    } else if c.SignTransaction? {
      TokenUsedIssues(s, v, c, None, "", "", t);
    } else if c.UseToken? {
      TokenUsedIssues(s, v, c, c.token, c.operation, c.binding, t);
    } else if c.DeleteWallet? {
      TokenUsedIssues(s, v, c, c.token, "deleteWallet", c.id, t);
      var s1 := TokenUsed(s, v, c.token, "deleteWallet", c.id, t.check).0;
      ClosingIssues(s1, t.check);
      IssuesNoneStill(h, s1.history, Invalidated(s1).history);
    } else if c.ConfigurePin? {
      ReconfiguredIssues(s, v, c, t);
    } else if c.VerifyPin? {
      PinIssues(s, c.pin, t.pin);
      var s1 := PinVerified(s, c.pin, t.pin);
      SmallCallsIssue(s1, v, c, t.issue, UnlockMinutes(c.minutes), t);
      IssuesNoneStill(h, s1.history, Extend(s1, t.issue, UnlockMinutes(c.minutes)).history);
    } else if c.Unlock? || c.AddWallet? || c.Restore? {
      UnlockedIssues(s, v, c.pin, t.unlock, t.entered);
      var s1 := Unlocked(s, v, c.pin, t.unlock, t.entered).s;
      ClosingIssues(s1, t.issue);
      IssuesNoneStill(h, s1.history, Switched(s1, t.issue).history);
    }
  }

  lemma NothingIssued(h: seq<Event>)
    ensures IssuesNone(h, h)
  {
  }

  // ----- approval and issue in one call ------------------------------------------------------------------------------

  /** Each token issued between `h` and `l` that needs a review was approved in between as well, before it. */
  ghost predicate ApprovesIssues(h: seq<Event>, l: seq<Event>) {
    && h <= l
    && forall k :: |h| <= k < |l| && l[k].Issued? && NeedsReview(l[k].operation) ==> ApprovedBetween(l, |h|, k)
  }

  ghost predicate ApprovedBetween(l: seq<Event>, from: nat, k: nat)
    requires k < |l| && l[k].Issued?
  {
    exists a :: from <= a < k && ApprovedAt(l, a, l[k].operation, l[k].binding, l[k].wallet)
  }

  lemma ApprovedLater(l: seq<Event>, m: seq<Event>, from: nat, later: nat, k: nat)
    requires k < |l| && l <= m && l[k].Issued? && from <= later && ApprovedBetween(l, later, k)
    ensures ApprovedBetween(m, from, k)
  {
    var a :| later <= a < k && ApprovedAt(l, a, l[k].operation, l[k].binding, l[k].wallet);
    assert ApprovedAt(m, a, m[k].operation, m[k].binding, m[k].wallet);
  }

  lemma ApprovesStill(h: seq<Event>, l: seq<Event>, m: seq<Event>)
    requires ApprovesIssues(h, l) && ApprovesIssues(l, m)
    ensures ApprovesIssues(h, m)
  {
    hide ApprovedBetween, NeedsReview;
    forall k | |h| <= k < |m| && m[k].Issued? && NeedsReview(m[k].operation) ensures ApprovedBetween(m, |h|, k) {
      if k < |l| {
        assert m[k] == l[k];
        ApprovedLater(l, m, |h|, |h|, k);
      } else {
        ApprovedLater(m, m, |h|, |l|, k);
      }
    }
  }

  lemma IssueIsApproved(h: seq<Event>, l: seq<Event>, e: Event)
    requires h <= l && IssuesNone(h, l) && e.Issued?
    requires NeedsReview(e.operation) ==>
               |h| < |l| && ApprovedAt(l, |h|, e.operation, e.binding, e.wallet)
    ensures ApprovesIssues(h, l + [e])
  {
    if NeedsReview(e.operation) {
      assert ApprovedAt(l + [e], |h|, e.operation, e.binding, e.wallet);
    }
  }

  lemma IssuedAndExtended(u: Outcome, c: Call, t: Clock, silent: bool)
    requires c.Authorize? && u.s.key.Some?
    ensures var s4 := WithToken(u.s, c.issue, c.operation, c.binding, u.v.active, u.s.key.value, t.issue);
            var minutes := Min(60, if c.minutes.Some? then c.minutes.value else 5);
            && s4.history == u.s.history + [Issued(c.issue, c.operation, c.binding, u.v.active, t.issue)]
            && IssuesNone(s4.history, (if silent then s4 else Extend(s4, t.issue, minutes)).history)
  {
  }

  lemma ApprovalIsFirst(s: State, v: Vault, c: Call, t: Clock)
    requires c.Authorize? && Approval(s, v, c, t).1 && NeedsReview(c.operation)
    ensures Approval(s, v, c, t).0.history == s.history + [Approved(c.operation, c.binding, v.active, t.check)]
  {
    SilentNeedsNoReview(s, c, t.check);
  }

  lemma ActiveStays(s: State, v: Vault, pin: Pin, now: nat, answered: nat)
    ensures VaultAfter(v, pin).active == v.active && Unlocked(s, v, pin, now, answered).v.active == v.active
  {
  }

  lemma AuthorizedApproves(s: State, v: Vault, c: Call, t: Clock)
    requires c.Authorize?
    ensures ApprovesIssues(s.history, Authorized(s, v, c, t).s.history)
  {
    hide PinVerified, Unlocked, Silent, Approval, AsksPin, IssuesNone, ApprovesIssues, NeedsReview, WithToken, Extend,
      VaultAfter;
    var h := s.history;
    var (s1, approved) := Approval(s, v, c, t);
    ApprovalIssues(s, v, c, t);
    NoneIsApproved(h, s1.history);
    if approved {
      var asks := AsksPin(s, c, t);
      var s2 := if asks then PinVerified(s1, c.pin, t.pin) else s1;
      var v2 := if asks then VaultAfter(v, c.pin) else v;
      PinIssues(s1, c.pin, t.pin);
      NothingIssued(s1.history);
      IssuesNoneStill(h, s1.history, s2.history);
      NoneIsApproved(h, s2.history);
      if !asks || c.pin.PinRight? {
        var u := Unlocked(s2, v2, c.pin2, t.unlock, t.entered);
        UnlockedIssues(s2, v2, c.pin2, t.unlock, t.entered);
        IssuesNoneStill(h, s2.history, u.s.history);
        NoneIsApproved(h, u.s.history);
        if u.reply.Fine? {
          KeyIsThere(s2, v2, c.pin2, t.unlock, t.entered);
          var e := Issued(c.issue, c.operation, c.binding, u.v.active, t.issue);
          if NeedsReview(c.operation) {
            ApprovalIsFirst(s, v, c, t);
            ActiveStays(s, v, c.pin, 0, 0);
            ActiveStays(s2, v2, c.pin2, t.unlock, t.entered);
            IssuesNonePrefix(s1.history, s2.history);
            IssuesNonePrefix(s2.history, u.s.history);
          }
          IssuesNonePrefix(h, u.s.history);
          IssueIsApproved(h, u.s.history, e);
          IssuedAndExtended(u, c, t, Silent(s, c, t.check));
          var last := Authorized(s, v, c, t).s.history;
          NoneIsApproved(u.s.history + [e], last);
          ApprovesStill(h, u.s.history + [e], last);
        }
      }
    }
  }

  lemma KeyIsThere(s: State, v: Vault, pin: Pin, now: nat, answered: nat)
    requires Unlocked(s, v, pin, now, answered).reply.Fine?
    ensures Unlocked(s, v, pin, now, answered).s.key.Some?
  {
  }

  lemma IssuesNonePrefix(h: seq<Event>, l: seq<Event>)
    requires IssuesNone(h, l)
    ensures h <= l
  {
  }

  lemma NoneIsApproved(h: seq<Event>, l: seq<Event>)
    requires IssuesNone(h, l)
    ensures ApprovesIssues(h, l)
  {
  }

  lemma CallApproves(s0: State, v: Vault, c: Call, t: Clock)
    ensures ApprovesIssues(s0.history, Dispatched(s0, v, c, t).s.history)
  {
    hide IssuesNone, ApprovesIssues, Authorized;
    if c.Authorize? {
      AuthorizedApproves(Expired(s0, t.start), v, c, t);
    } else {
      hide Dispatched;
      OthersIssueNone(s0, v, c, t);
      NoneIsApproved(s0.history, Dispatched(s0, v, c, t).s.history);
    }
  }

  lemma ForgottenIssues(s: State, forget: bool, now: nat)
    ensures ApprovesIssues(s.history, Forgotten(s, forget, now).history) && ApprovesIssues(s.history, s.history)
  {
    hide Invalidated, Switched;
    ClosingIssues(s, now);
    NoneIsApproved(s.history, Forgotten(s, forget, now).history);
    NoneIsApproved(s.history, s.history);
  }

  /** A token that needs a review is issued in the native call that obtained its approval. */
  lemma StepApproves(w: World, r: Stimulus)
    ensures ApprovesIssues(w.s.history, Step(w, r).s.history)
  {
    hide ApprovesIssues, Dispatched, Forgotten, Invalidated;
    match r
    case Request(call, clock, seen, interrupts, locks, loaded, early, late) =>
      var w1 := Entered(w, seen, early);
      ForgottenIssues(w.s, w.forget, early);
      if loaded {
        var d := Dispatched(w1.s, w1.v, call, clock);
        CallApproves(w1.s, w1.v, call, clock);
        ApprovesStill(w.s.history, w1.s.history, d.s.history);
        ForgottenIssues(d.s, w1.forget || (interrupts > 0 && locks), late);
        ApprovesStill(w.s.history, d.s.history, Step(w, r).s.history);
      }
    case Cancel => ForgottenIssues(w.s, false, 0);
    case Lock => LockIssues(w.s);
  }

  lemma LockIssues(s: State)
    ensures ApprovesIssues(s.history, Invalidated(s).history)
  {
    ClosingIssues(s, 0);
    NoneIsApproved(s.history, Invalidated(s).history);
  }
}
