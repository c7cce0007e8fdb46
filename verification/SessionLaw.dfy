/** The law every session history obeys, and why no native call breaks it. */
module SessionLaw {
  import opened Wrappers
  import opened SessionState

  // ----- what the history must look like ---------------------------------------------------------------

  /** Nothing was revoked from position `i` on. */
  ghost predicate Unrevoked(h: seq<Event>, i: nat)
    requires i <= |h|
  {
    forall k :: i <= k < |h| ==> !h[k].Revoked?
  }

  /** Event `e` is on record and nothing was revoked since. */
  ghost predicate Stands(h: seq<Event>, e: Event) {
    exists i :: 0 <= i < |h| && h[i] == e && Unrevoked(h, i)
  }

  ghost predicate NeverUsed(h: seq<Event>, token: string) {
    Used(token) !in h
  }

  ghost predicate NeverIssued(h: seq<Event>, token: string) {
    forall k :: 0 <= k < |h| && h[k].Issued? ==> h[k].token != token
  }

  /** A right password, which closes the login and opens it again, or taking the key at the very end. */
  predicate LoginStep(h: seq<Event>, k: nat)
    requires k < |h|
  {
    match h[k]
    case Revoked(login) => !login && k + 1 < |h| && h[k + 1].Opened?
    case Opened(_, _) => true
    case KeyTaken(_) => k == |h| - 1
    case _ => false
  }

  /** After the event at `a` there were only right passwords, and possibly the key was taken last. */
  ghost predicate OnlyLoginSince(h: seq<Event>, a: nat) {
    forall k :: a < k < |h| ==> LoginStep(h, k)
  }

  /** The user approved this, and nothing but right passwords has happened since: no lock, no switch of wallets. */
  ghost predicate JustApproved(h: seq<Event>, operation: string, binding: string, wallet: string) {
    exists a :: 0 <= a < |h| && ApprovedAt(h, a, operation, binding, wallet) && OnlyLoginSince(h, a)
  }

  predicate ApprovedAt(h: seq<Event>, a: nat, operation: string, binding: string, wallet: string)
    requires a < |h|
  {
    h[a].Approved? && h[a].operation == operation && h[a].binding == binding && h[a].wallet == wallet
  }

  /** What an event makes of the deadline of the login; no login has deadline 0. */
  function DeadlineAfter(deadline: nat, e: Event): nat {
    match e
    case Opened(_, until) => until
    case Extended(_, until) => until
    case Revoked(login) => if login then deadline else 0
    case _ => deadline
  }

  function Deadline(h: seq<Event>): nat {
    if h == [] then 0 else DeadlineAfter(Deadline(h[..|h| - 1]), h[|h| - 1])
  }

  /** The master key was just handed out. */
  predicate JustTaken(h: seq<Event>) {
    h != [] && h[|h| - 1].KeyTaken?
  }

  /** It was handed out right after a right password. */
  predicate JustAsked(h: seq<Event>) {
    |h| >= 2 && h[|h| - 1].KeyTaken? && h[|h| - 2].Opened?
  }

  /** A review of this stands that was not too old at this reading. */
  ghost predicate ReviewLive(h: seq<Event>, hash: string, operation: string, wallet: string, at: nat) {
    exists made: nat :: Stands(h, Reviewed(hash, operation, wallet, made)) && at <= made + REVIEW_LIFE
  }

  /** A token for this stands that was not too old at this reading. */
  ghost predicate TokenLive(h: seq<Event>, token: string, operation: string, binding: string, wallet: string, at: nat) {
    exists made: nat :: Stands(h, Issued(token, operation, binding, wallet, made)) && at <= made + TOKEN_LIFE
  }

  /**
   What must have happened for `e` to happen next. A deadline only moves while it has not passed, right after
   a right password, or right after a token was issued, for which the key was just taken.
   */
  ghost predicate Allowed(past: seq<Event>, e: Event) {
    match e
    case Approved(operation, binding, wallet, at) => ReviewLive(past, binding, operation, wallet, at)
    case Opened(at, until) => past != [] && past[|past| - 1] == Revoked(false) && until == at + LOGIN_START
    case Extended(at, until) =>
      && until <= at + LOGIN_LIMIT
      && (Deadline(past) > at || (past != [] && (past[|past| - 1].Opened? || past[|past| - 1].Issued?)))
    case KeyTaken(at) => Deadline(past) > at
    case Issued(token, operation, binding, wallet, at) =>
      && NeverIssued(past, token) && JustTaken(past)
      && (AlwaysAsked(operation) ==> JustAsked(past))
      && (NeedsReview(operation) ==> JustApproved(past, operation, binding, wallet))
    case Used(token) => NeverUsed(past, token) && !NeverIssued(past, token)
    case Signed(token, operation, binding, wallet, at) =>
      && past != [] && past[|past| - 1] == Used(token)
      && TokenLive(past, token, operation, binding, wallet, at)
      && operation in TRANSACTION_OPERATIONS
    case Reviewed(_, _, _, _) => true
    case Revoked(_) => true
  }

  ghost predicate Lawful(h: seq<Event>) {
    forall j :: 0 <= j < |h| ==> Allowed(h[..j], h[j])
  }

  // ----- what the session holds --------------------------------------------------------------------------

  ghost predicate TokenHeld(s: State, token: string, t: Token) {
    && t.generation == s.generation && t.expires >= TOKEN_LIFE
    && Stands(s.history, Issued(token, t.operation, t.binding, t.wallet, t.expires - TOKEN_LIFE))
    && NeverUsed(s.history, token)
  }

  ghost predicate ReviewHeld(s: State, hash: string, r: Review) {
    && r.generation == s.generation && r.expires >= REVIEW_LIFE
    && Stands(s.history, Reviewed(hash, r.operation, r.wallet, r.expires - REVIEW_LIFE))
  }

  ghost predicate Sound(s: State) {
    && Lawful(s.history)
    && s.until == Deadline(s.history)
    && (forall t :: t in s.tokens ==> TokenHeld(s, t, s.tokens[t]))
    && (forall h :: h in s.reviews ==> ReviewHeld(s, h, s.reviews[h]))
  }

  // ----- one event at a time ---------------------------------------------------------------------------------

  lemma StandsLonger(h: seq<Event>, e: Event, next: Event)
    requires Stands(h, e) && !next.Revoked?
    ensures Stands(h + [next], e)
  {
    var i :| 0 <= i < |h| && h[i] == e && Unrevoked(h, i);
    assert (h + [next])[i] == e && Unrevoked(h + [next], i);
  }

  lemma StandsNow(h: seq<Event>, e: Event)
    requires !e.Revoked?
    ensures Stands(h + [e], e)
  {
    assert (h + [e])[|h|] == e && Unrevoked(h + [e], |h|);
  }

  lemma DeadlineStep(h: seq<Event>, e: Event)
    ensures Deadline(h + [e]) == DeadlineAfter(Deadline(h), e)
  {
    assert (h + [e])[..|h|] == h;
  }

  lemma LawfulStep(h: seq<Event>, e: Event)
    requires Lawful(h) && Allowed(h, e)
    ensures Lawful(h + [e])
  {
    forall j | 0 <= j < |h + [e]| ensures Allowed((h + [e])[..j], (h + [e])[j]) {
      if j < |h| {
        assert (h + [e])[..j] == h[..j];
      } else {
        assert (h + [e])[..j] == h;
      }
    }
  }

  /** The session after an event that moves at most the deadline. */
  function Logged(s: State, e: Event): State {
    Log(s.(until := DeadlineAfter(s.until, e)), e)
  }

  /** Logging an allowed event that neither revokes nor uses a held token keeps everything held. */
  lemma LogKeeps(s: State, e: Event)
    requires Sound(s) && Allowed(s.history, e) && !e.Revoked?
    requires e.Used? ==> e.token !in s.tokens
    ensures Sound(Logged(s, e))
  {
    hide Lawful, Allowed, Stands, Deadline, DeadlineAfter;
    LawfulStep(s.history, e);
    DeadlineStep(s.history, e);
    forall t | t in s.tokens ensures TokenHeld(Logged(s, e), t, s.tokens[t]) {
      var k := s.tokens[t];
      StandsLonger(s.history, Issued(t, k.operation, k.binding, k.wallet, k.expires - TOKEN_LIFE), e);
    }
    forall h | h in s.reviews ensures ReviewHeld(Logged(s, e), h, s.reviews[h]) {
      var r := s.reviews[h];
      StandsLonger(s.history, Reviewed(h, r.operation, r.wallet, r.expires - REVIEW_LIFE), e);
    }
  }

  /** `t` holds no token or review that `s` does not, in the same generation, with the same login and history. */
  predicate Within(t: State, s: State) {
    && t.history == s.history && t.generation == s.generation && t.until == s.until
    && (forall k :: k in t.tokens ==> k in s.tokens && t.tokens[k] == s.tokens[k])
    && (forall k :: k in t.reviews ==> k in s.reviews && t.reviews[k] == s.reviews[k])
  }

  lemma LessIsSound(t: State, s: State)
    requires Sound(s) && Within(t, s)
    ensures Sound(t)
  {
    hide Lawful, Stands, Deadline;
    forall k | k in t.tokens ensures TokenHeld(t, k, t.tokens[k]) {
      assert TokenHeld(s, k, s.tokens[k]);
    }
    forall k | k in t.reviews ensures ReviewHeld(t, k, t.reviews[k]) {
      assert ReviewHeld(s, k, s.reviews[k]);
    }
  }

  /** A session without reviews and tokens, whose login is what the revocation left of it. */
  lemma RevokedIsSound(s: State, t: State, login: bool)
    requires Sound(s) && t.history == s.history + [Revoked(login)] && t.tokens == map[] && t.reviews == map[]
    requires t.until == if login then s.until else 0
    ensures Sound(t)
  {
    hide Lawful, Deadline;
    LawfulStep(s.history, Revoked(login));
    DeadlineStep(s.history, Revoked(login));
  }

  lemma InvalidatedIsSound(s: State)
    requires Sound(s)
    ensures Sound(Invalidated(s))
  {
    hide Sound;
    RevokedIsSound(s, Invalidated(s), false);
  }

  lemma SwitchedIsSound(s: State, now: nat)
    requires Sound(s)
    ensures Sound(Switched(s, now))
  {
    hide Sound;
    RevokedIsSound(s, Switched(s, now), s.until > now);
  }

  lemma ExpiredIsSound(s: State, now: nat)
    requires Sound(s)
    ensures Sound(Expired(s, now))
  {
    hide Sound;
    LessIsSound(Expired(s, now), s);
  }

  lemma WithKeyIsSound(s: State, key: Key, store: string, now: nat)
    requires Sound(s)
    ensures Sound(WithKey(s, key, store, now))
  {
    hide Lawful, Deadline, Stands;
    InvalidatedIsSound(s);
    var t := Invalidated(s).(storeId := store, key := Some(key));
    LessIsSound(t, Invalidated(s));
    LogKeeps(t, Opened(now, now + LOGIN_START));
  }

  lemma PinIsSound(s: State, pin: Pin, now: nat)
    requires Sound(s)
    ensures Sound(PinVerified(s, pin, now))
  {
    hide Sound, WithKey, Invalidated;
    InvalidatedIsSound(s);
    if pin.PinRight? {
      WithKeyIsSound(s, pin.key, pin.store, now);
    }
  }

  /** The deadline moves only on a live login, right after a right password, or with a token just issued. */
  lemma ExtendIsSound(s: State, now: nat, minutes: nat)
    requires Sound(s) && minutes <= 60
    requires || s.until > now
             || (s.history != [] && (s.history[|s.history| - 1].Opened? || s.history[|s.history| - 1].Issued?))
    ensures Sound(Extend(s, now, minutes))
  {
    hide Lawful, Deadline, Stands;
    LogKeeps(s, Extended(now, now + minutes * MINUTE));
  }

  lemma PreparedIsSound(s: State, v: Vault, c: Call, t: Clock)
    requires c.Prepare? && Sound(s)
    ensures Sound(Prepared(s, v, c, t).s)
  {
    hide Sound, WithReview;
    if c.review.Some? {
      var cleaned := FreshReviews(s, t.check);
      LessIsSound(cleaned, s);
      if c.inApp.Some? {
        ReviewIsSound(cleaned, c.review.value.0, c.review.value.1, v.active, c.inApp.value, t.issue);
      }
    }
  }

  lemma ReviewIsSound(s: State, hash: string, operation: string, wallet: string, inApp: bool, now: nat)
    requires Sound(s)
    ensures Sound(WithReview(s, hash, operation, wallet, inApp, now))
  {
    hide Sound, Stands;
    var e := Reviewed(hash, operation, wallet, now);
    LogKeeps(s, e);
    StandsNow(s.history, e);
    ReviewAdded(Log(s, e), WithReview(s, hash, operation, wallet, inApp, now), hash);
  }

  lemma ReviewAdded(s: State, next: State, hash: string)
    requires Sound(s) && hash in next.reviews && next == s.(reviews := s.reviews[hash := next.reviews[hash]])
    requires ReviewHeld(s, hash, next.reviews[hash])
    ensures Sound(next)
  {
    hide Lawful, Stands, Deadline;
    forall k | k in next.tokens ensures TokenHeld(next, k, next.tokens[k]) {
      assert TokenHeld(s, k, s.tokens[k]);
    }
    forall k | k in next.reviews ensures ReviewHeld(next, k, next.reviews[k]) {
      assert k != hash ==> ReviewHeld(s, k, s.reviews[k]);
    }
  }

  lemma TokenAdded(s: State, next: State, token: string)
    requires Sound(s) && token in next.tokens && next == s.(tokens := s.tokens[token := next.tokens[token]])
    requires TokenHeld(s, token, next.tokens[token])
    ensures Sound(next)
  {
    hide Lawful, Stands, Deadline;
    forall k | k in next.tokens ensures TokenHeld(next, k, next.tokens[k]) {
      assert k != token ==> TokenHeld(s, k, s.tokens[k]);
    }
    forall k | k in next.reviews ensures ReviewHeld(next, k, next.reviews[k]) {
      assert ReviewHeld(s, k, s.reviews[k]);
    }
  }

  lemma ConsumedIsSound(s: State, token: string)
    requires Sound(s) && token in s.tokens
    ensures Sound(Consumed(s, token))
    ensures var t := s.tokens[token];
            && t.expires >= TOKEN_LIFE
            && Stands(Consumed(s, token).history,
                      Issued(token, t.operation, t.binding, t.wallet, t.expires - TOKEN_LIFE))
  {
    hide Lawful, Deadline, Stands;
    var t := s.tokens[token];
    assert TokenHeld(s, token, t);
    var less := s.(tokens := s.tokens - {token});
    assert Sound(less) by { hide Sound; LessIsSound(less, s); }
    var e := Issued(token, t.operation, t.binding, t.wallet, t.expires - TOKEN_LIFE);
    StandingIsIssued(s.history, e);
    LogKeeps(less, Used(token));
    StandsLonger(s.history, e, Used(token));
  }

  lemma StandingIsIssued(h: seq<Event>, e: Event)
    requires Stands(h, e) && e.Issued?
    ensures !NeverIssued(h, e.token)
  {
    var i :| 0 <= i < |h| && h[i] == e;
  }

  lemma SignedIsSound(s: State, v: Vault, c: Call, t: Clock)
    requires c.SignTransaction? && Sound(s)
    ensures Sound(SignedTransaction(s, v, c, t).s)
  {
    hide Sound, Stands, TokenAllows, Consumed;
    if c.operation in TRANSACTION_OPERATIONS && c.token.Some? && c.token.value in s.tokens {
      var token := c.token.value;
      ConsumedIsSound(s, token);
      var binding := if c.reviewHash.Some? then c.reviewHash.value else c.other;
      if TokenAllows(s, v, token, c.operation, binding, t.check) && c.reviewHash.Some? && c.coreOk {
        SigningIsSound(s, v, token, c.operation, binding, t.check);
      }
    }
  }

  lemma SigningIsSound(s: State, v: Vault, token: string, operation: string, binding: string, now: nat)
    requires Sound(s) && token in s.tokens && operation in TRANSACTION_OPERATIONS
    requires TokenAllows(s, v, token, operation, binding, now)
    ensures Sound(Log(Consumed(s, token), Signed(token, operation, binding, v.active, now)))
  {
    hide Sound, Stands, TokenHeld;
    ConsumedIsSound(s, token);
    var s1 := Consumed(s, token);
    var made := s.tokens[token].expires - TOKEN_LIFE;
    assert Stands(s1.history, Issued(token, operation, binding, v.active, made));
    assert TokenLive(s1.history, token, operation, binding, v.active, now);
    assert s1.history[|s1.history| - 1] == Used(token);
    LogKeeps(s1, Signed(token, operation, binding, v.active, now));
  }

  lemma TokenUsedIsSound(s: State, v: Vault, token: Option<string>, operation: string, binding: string, now: nat)
    requires Sound(s)
    ensures Sound(TokenUsed(s, v, token, operation, binding, now).0)
  {
    hide Sound;
    if token.Some? && token.value in s.tokens {
      ConsumedIsSound(s, token.value);
    }
  }

  // ----- authorization --------------------------------------------------------------------------------------

  /** What the login does between the approval and the token leaves the approval standing. */
  lemma ApprovedLonger(h: seq<Event>, l: seq<Event>, operation: string, binding: string, wallet: string)
    requires JustApproved(h, operation, binding, wallet) && !JustTaken(h) && h <= l
    requires forall k :: |h| <= k < |l| ==> LoginStep(l, k)
    ensures JustApproved(l, operation, binding, wallet)
  {
    var a :| 0 <= a < |h| && ApprovedAt(h, a, operation, binding, wallet) && OnlyLoginSince(h, a);
    assert ApprovedAt(l, a, operation, binding, wallet);
    forall k | a < k < |l| ensures LoginStep(l, k) {
      if k < |h| {
        assert LoginStep(h, k);
      }
    }
  }

  lemma StillApproved(s: State, pin: Pin, now: nat, operation: string, binding: string, wallet: string)
    requires JustApproved(s.history, operation, binding, wallet) && !JustTaken(s.history) && !pin.PinWrong?
    ensures JustApproved(PinVerified(s, pin, now).history, operation, binding, wallet)
    ensures !JustTaken(PinVerified(s, pin, now).history)
  {
    hide JustApproved;
    ApprovedLonger(s.history, PinVerified(s, pin, now).history, operation, binding, wallet);
  }

  lemma ApprovalIsSound(s: State, v: Vault, c: Call, t: Clock)
    requires c.Authorize? && Sound(s)
    ensures Sound(Approval(s, v, c, t).0) && Approval(s, v, c, t).0.until == s.until
    ensures Approval(s, v, c, t).1 && NeedsReview(c.operation) ==>
      && JustApproved(Approval(s, v, c, t).0.history, c.operation, c.binding, v.active)
      && !JustTaken(Approval(s, v, c, t).0.history)
  {
    hide Sound, JustApproved, NeedsReview, ReviewAllows, Log;
    SilentNeedsNoReview(s, c, t.check);
    if NeedsReview(c.operation) && ReviewAllows(s, v, c.operation, c.binding, t.check) {
      ApprovingIsSound(s, v, c.operation, c.binding, t.check);
    }
  }

  lemma SilentNeedsNoReview(s: State, c: Call, now: nat)
    requires c.Authorize?
    ensures Silent(s, c, now) ==> !NeedsReview(c.operation)
  {
  }

  lemma ApprovingIsSound(s: State, v: Vault, operation: string, binding: string, now: nat)
    requires Sound(s) && ReviewAllows(s, v, operation, binding, now)
    ensures var after := Log(s, Approved(operation, binding, v.active, now));
            && Sound(after) && after.until == s.until && !JustTaken(after.history)
            && JustApproved(after.history, operation, binding, v.active)
  {
    hide Lawful, Deadline, Stands;
    var r := s.reviews[binding];
    assert ReviewHeld(s, binding, r);
    var e := Approved(operation, binding, v.active, now);
    assert Stands(s.history, Reviewed(binding, operation, v.active, r.expires - REVIEW_LIFE));
    assert ReviewLive(s.history, binding, operation, v.active, now);
    LogKeeps(s, e);
    assert ApprovedAt(s.history + [e], |s.history|, operation, binding, v.active);
  }

  lemma IssueIsSound(s: State, token: string, operation: string, binding: string, wallet: string, key: Key, now: nat)
    requires Sound(s) && NeverIssued(s.history, token) && JustTaken(s.history)
    requires AlwaysAsked(operation) ==> JustAsked(s.history)
    requires NeedsReview(operation) ==> JustApproved(s.history, operation, binding, wallet)
    ensures Sound(WithToken(s, token, operation, binding, wallet, key, now))
  {
    hide Lawful, Deadline, JustApproved, JustTaken, JustAsked, AlwaysAsked, NeedsReview, Stands;
    var less := s.(tokens := map t | t in s.tokens && s.tokens[t].expires > now :: s.tokens[t]);
    var e := Issued(token, operation, binding, wallet, now);
    var next := WithToken(s, token, operation, binding, wallet, key, now);
    assert Sound(less) by { hide Sound; LessIsSound(less, s); }
    LogKeeps(less, e);
    StandsNow(s.history, e);
    UnissuedIsUnused(s.history, token);
    TokenAdded(Log(less, e), next, token);
  }

  lemma UnissuedIsUnused(h: seq<Event>, token: string)
    requires Lawful(h) && NeverIssued(h, token)
    ensures NeverUsed(h, token)
  {
    forall j | 0 <= j < |h| ensures h[j] != Used(token) {
      assert Allowed(h[..j], h[j]);
    }
  }

  /** A password check neither issues a token nor changes the active wallet. */
  lemma PinKeeps(s: State, v: Vault, pin: Pin, now: nat, token: string)
    requires NeverIssued(s.history, token)
    ensures NeverIssued(PinVerified(s, pin, now).history, token)
    ensures VaultAfter(v, pin).active == v.active
  {
  }

  /** Everything a token needs, up to the key. */
  ghost predicate Ready(s: State, c: Call, wallet: string)
    requires c.Authorize?
  {
    && Sound(s) && NeverIssued(s.history, c.issue)
    && (NeedsReview(c.operation) ==>
        JustApproved(s.history, c.operation, c.binding, wallet) && !JustTaken(s.history))
  }

  lemma AuthorizedIsSound(s: State, v: Vault, c: Call, t: Clock)
    requires c.Authorize? && Sound(s) && NeverIssued(s.history, c.issue)
    ensures Sound(Authorized(s, v, c, t).s)
  {
    hide Sound, JustApproved, NeverIssued, PinVerified, Approval, Unlocked, WithToken, Extend, JustTaken, JustAsked;
    var (s1, approved) := Approval(s, v, c, t);
    ApprovalIsSound(s, v, c, t);
    ApprovalIssuesNothing(s, v, c, t);
    if approved {
      var asks := AsksPin(s, c, t);
      var s2 := if asks then PinVerified(s1, c.pin, t.pin) else s1;
      var v2 := if asks then VaultAfter(v, c.pin) else v;
      PinIsSound(s1, c.pin, t.pin);
      if asks && c.pin.PinRight? {
        PinStage(s1, v, c, c.pin, t.pin, v.active);
      }
      if !asks || c.pin.PinRight? {
        SilentIsNotAsked(s, c, t.check);
        UnlockStage(s2, v2, c, t.unlock, t.entered, v.active);
        var u := Unlocked(s2, v2, c.pin2, t.unlock, t.entered);
        if u.reply.Fine? {
          IssueIsSound(u.s, c.issue, c.operation, c.binding, u.v.active, u.s.key.value, t.issue);
          var s4 := WithToken(u.s, c.issue, c.operation, c.binding, u.v.active, u.s.key.value, t.issue);
          assert s4.history[|s4.history| - 1].Issued? by { IssuedLast(u.s, c, u.v.active, u.s.key.value, t.issue); }
          ExtendIsSound(s4, t.issue, Min(60, if c.minutes.Some? then c.minutes.value else 5));
        }
      }
    }
  }

  lemma SilentIsNotAsked(s: State, c: Call, now: nat)
    requires c.Authorize?
    ensures Silent(s, c, now) ==> !AlwaysAsked(c.operation)
  {
    assert "signInternalNexusChallenge"[0] == 's' && "export"[0] == 'e' && "deleteWallet"[0] == 'd';
  }

  lemma IssuedLast(s: State, c: Call, wallet: string, key: Key, now: nat)
    requires c.Authorize?
    ensures var h := WithToken(s, c.issue, c.operation, c.binding, wallet, key, now).history;
            h != [] && h[|h| - 1].Issued?
  {
  }

  lemma UnlockStage(s: State, v: Vault, c: Call, now: nat, answered: nat, wallet: string)
    requires c.Authorize? && Ready(s, c, wallet) && (AlwaysAsked(c.operation) ==> EndsOpened(s.history))
    ensures var u := Unlocked(s, v, c.pin2, now, answered);
            && Sound(u.s) && u.v.active == v.active
            && (u.reply.Fine? ==>
                && NeverIssued(u.s.history, c.issue) && JustTaken(u.s.history)
                && (NeedsReview(c.operation) ==> JustApproved(u.s.history, c.operation, c.binding, wallet))
                && (AlwaysAsked(c.operation) ==> JustAsked(u.s.history)))
  {
    hide Sound, JustApproved, NeverIssued, PinVerified, AlwaysAsked, NeedsReview, NeedsPin;
    var needs := NeedsPin(s, v, now);
    var s1 := if needs then PinVerified(s, c.pin2, answered) else s;
    var u := Unlocked(s, v, c.pin2, now, answered);
    TakenIsSound(s, v, c.pin2, now, answered);
    if u.reply.Fine? {
      if needs {
        PinStage(s, v, c, c.pin2, answered, wallet);
      }
      TakenIssuesNothing(s1, u.s, c.issue);
      if NeedsReview(c.operation) {
        ApprovedLonger(s1.history, u.s.history, c.operation, c.binding, wallet);
      }
    }
  }

  predicate EndsOpened(h: seq<Event>) {
    h != [] && h[|h| - 1].Opened?
  }

  lemma TakenIssuesNothing(s: State, next: State, token: string)
    requires NeverIssued(s.history, token) && next.history != [] && next.history[|next.history| - 1].KeyTaken?
    requires next.history == s.history + [next.history[|next.history| - 1]]
    ensures NeverIssued(next.history, token)
  {
  }

  /** The key is handed out on a login that has not passed, or right after a right password. */
  lemma TakenIsSound(s: State, v: Vault, pin: Pin, now: nat, answered: nat)
    requires Sound(s)
    ensures Sound(Unlocked(s, v, pin, now, answered).s)
  {
    hide Lawful, Deadline, Stands, PinVerified;
    var needs := NeedsPin(s, v, now);
    var s1 := if needs then PinVerified(s, pin, answered) else s;
    PinIsSound(s, pin, answered);
    if pin.PinRight? {
      PinOpens(s, pin, answered);
    }
    if Unlocked(s, v, pin, now, answered).reply.Fine? {
      LogKeeps(s1, KeyTaken(if needs then answered else now));
    }
  }

  lemma PinOpens(s: State, pin: Pin, now: nat)
    requires pin.PinRight?
    ensures PinVerified(s, pin, now).until == now + LOGIN_START && EndsOpened(PinVerified(s, pin, now).history)
  {
  }

  lemma PinStage(s: State, v: Vault, c: Call, pin: Pin, now: nat, wallet: string)
    requires c.Authorize? && Ready(s, c, wallet) && pin.PinRight?
    ensures Ready(PinVerified(s, pin, now), c, wallet)
    ensures VaultAfter(v, pin).active == v.active
    ensures EndsOpened(PinVerified(s, pin, now).history)
  {
    hide Sound, JustApproved, NeverIssued, PinVerified;
    PinIsSound(s, pin, now);
    PinKeeps(s, v, pin, now, c.issue);
    if NeedsReview(c.operation) {
      StillApproved(s, pin, now, c.operation, c.binding, wallet);
    }
    PinOpens(s, pin, now);
  }

  lemma ApprovalIssuesNothing(s: State, v: Vault, c: Call, t: Clock)
    requires c.Authorize? && NeverIssued(s.history, c.issue)
    ensures NeverIssued(Approval(s, v, c, t).0.history, c.issue)
  {
  }

  // ----- any call ------------------------------------------------------------------------------------------

  /** Random token ids never repeat. */
  ghost predicate FreshFor(s: State, c: Call) {
    c.Authorize? ==> NeverIssued(s.history, c.issue)
  }

  lemma DispatchedIsSound(s0: State, v: Vault, c: Call, t: Clock)
    requires Sound(s0) && FreshFor(s0, c)
    ensures Sound(Dispatched(s0, v, c, t).s)
  {
    hide Sound, Prepared, Authorized, SignedTransaction, Unlocked, TokenUsed, PinVerified, Switched, Invalidated,
      NeverIssued, WithKey, Extend, Reconfigured, Refreshed;
    var s := Expired(s0, t.start);
    ExpiredIsSound(s0, t.start);
    match c
    case Prepare(_, _, _) => PreparedIsSound(s, v, c, t);
    case Authorize(_, _, _, _, _, _, _, _, _) => AuthorizedIsSound(s, v, c, t);
    case SignTransaction(_, _, _, _, _) => SignedIsSound(s, v, c, t);
    case UseToken(operation, token, binding) => TokenUsedIsSound(s, v, token, operation, binding, t.check);
    case VerifyPin(pin, minutes) =>
      PinIsSound(s, pin, t.pin);
      if pin.PinRight? {
        PinOpens(s, pin, t.pin);
        ExtendIsSound(PinVerified(s, pin, t.pin), t.issue, UnlockMinutes(minutes));
      }
    case Refresh(minutes) => RefreshedIsSound(s, minutes, t.check);
    case ConfigurePin(_, _, _) => ReconfiguredIsSound(s, v, c, t);
    case SetNexus(enabled) =>
      SwitchedIsSound(s, t.check);
      LessIsSound(s.(nexus := true), s);
    case LockSession => InvalidatedIsSound(s);
    case SelectWallet(id, saved) => SwitchedIsSound(s, t.check);
    case Unlock(pin) => TakenIsSound(s, v, pin, t.unlock, t.entered);
    case AddWallet(pin, stored) =>
      TakenIsSound(s, v, pin, t.unlock, t.entered);
      SwitchedIsSound(Unlocked(s, v, pin, t.unlock, t.entered).s, t.issue);
    case Restore(pin, stored, finished) =>
      TakenIsSound(s, v, pin, t.unlock, t.entered);
      SwitchedIsSound(Unlocked(s, v, pin, t.unlock, t.entered).s, t.issue);
    case DeleteWallet(id, token, saved) =>
      TokenUsedIsSound(s, v, token, "deleteWallet", id, t.check);
      InvalidatedIsSound(TokenUsed(s, v, token, "deleteWallet", id, t.check).0);
    case InstallUpdate => InvalidatedIsSound(s);
    case Other =>
    case Panic => InvalidatedIsSound(s);
  }

  lemma RefreshedIsSound(s: State, minutes: Option<nat>, now: nat)
    requires Sound(s)
    ensures Sound(Refreshed(s, minutes, now))
  {
    hide Sound, Extend;
    if CanRefresh(s, now) {
      ExtendIsSound(s, now, UnlockMinutes(minutes));
    }
  }

  lemma ReconfiguredIsSound(s: State, v: Vault, c: Call, t: Clock)
    requires c.ConfigurePin? && Sound(s)
    ensures Sound(Reconfigured(s, v, c, t).s)
  {
    hide Sound, PinVerified, Invalidated, WithKey;
    PinIsSound(s, c.pin, t.pin);
    var s1 := if c.hasPassword then PinVerified(s, c.pin, t.pin) else s;
    if c.changed.Some? {
      WithKeyIsSound(s1, c.changed.value.0, c.changed.value.1, t.issue);
      InvalidatedIsSound(WithKey(s1, c.changed.value.0, c.changed.value.1, t.issue));
    }
  }

  lemma ForgottenIsSound(s: State, forget: bool, now: nat, seen: nat)
    requires Sound(s)
    ensures Sound(Forgotten(s, forget, now).(cancellation := seen))
  {
    hide Sound, Invalidated, Switched;
    InvalidatedIsSound(s);
    SwitchedIsSound(s, now);
    LessIsSound(Forgotten(s, forget, now).(cancellation := seen), Forgotten(s, forget, now));
  }

  ghost predicate Fresh(w: World, r: Stimulus) {
    r.Request? ==> FreshFor(w.s, r.call)
  }

  lemma EnteringIssuesNothing(w: World, seen: nat, now: nat, c: Call)
    requires FreshFor(w.s, c)
    ensures FreshFor(Entered(w, seen, now).s, c)
  {
  }

  lemma StepIsSound(w: World, r: Stimulus)
    requires Sound(w.s) && Fresh(w, r)
    ensures Sound(Step(w, r).s)
  {
    hide Sound, Dispatched, Forgotten, Invalidated, FreshFor;
    match r
    case Request(call, clock, seen, interrupts, locks, loaded, early, late) =>
      ForgottenIsSound(w.s, w.forget, early, seen);
      EnteringIssuesNothing(w, seen, early, call);
      var w1 := Entered(w, seen, early);
      DispatchedIsSound(w1.s, w1.v, call, clock);
      var d := Dispatched(w1.s, w1.v, call, clock);
      ForgottenIsSound(d.s, w1.forget || (interrupts > 0 && locks), late, w1.cancellations + interrupts);
    case Cancel =>
    case Lock => InvalidatedIsSound(w.s);
  }
}
