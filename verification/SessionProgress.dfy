/** That the session does sign: from review over approval to signature, exactly when nothing has expired on the way. */
module SessionProgress {
  import opened Wrappers
  import opened SessionState
  import opened SessionLaw
  import opened SessionTime
  import opened SessionVault

  /** The calls of one transaction: its review, its authorization and its signature. */
  function ReviewIt(hash: string, operation: string): Call {
    Prepare(Some((hash, operation)), Some(false), false)
  }

  function ApproveIt(hash: string, operation: string, approve: bool, minutes: Option<nat>, pin: Pin,
                     token: string): Call {
    Authorize(operation, hash, false, false, approve, minutes, pin, PinRefused, token)
  }

  function SignIt(hash: string, operation: string, token: string, coreOk: bool): Call {
    SignTransaction(operation, Some(token), Some(hash), "", coreOk)
  }

  lemma ReviewIsStored(s: State, v: Vault, hash: string, operation: string, t: Clock)
    ensures var r := Dispatched(s, v, ReviewIt(hash, operation), t);
            && r.reply.Fine? && r.v == v
            && hash in r.s.reviews
            && r.s.reviews[hash] == Review(operation, v.active, s.generation, t.issue + REVIEW_LIFE, false)
            && r.s.generation == s.generation && r.s.until == s.until && r.s.storeId == s.storeId
            && r.s.key == if s.until <= t.start then None else s.key
  {
  }

  lemma TransactionsAreReviewed(operation: string)
    requires operation in TRANSACTION_OPERATIONS
    ensures NeedsReview(operation) && !AlwaysAsked(operation) && operation != "signInternalNexusChallenge"
  {
    assert operation[..4] == "sign" && operation[0] == 's';
    assert "export"[0] == 'e' && "deleteWallet"[0] == 'd';
  }

  /** With a live login, a reviewed transaction gets its token exactly if the user approves while the review stands. */
  lemma TokenIsIssued(s: State, v: Vault, hash: string, operation: string, made: nat, approve: bool,
                      minutes: Option<nat>, token: string, t: Clock)
    requires operation in TRANSACTION_OPERATIONS && hash in s.reviews && minutes != Some(0)
    requires s.reviews[hash] == Review(operation, v.active, s.generation, made + REVIEW_LIFE, false)
    requires Live(s, v, t.unlock) && t.start <= t.ask <= t.unlock
    ensures var r := Dispatched(s, v, ApproveIt(hash, operation, approve, minutes, PinRefused, token), t);
            && (r.reply.Fine? <==> approve && t.check <= made + REVIEW_LIFE) && r.v == v
            && r.s.generation == s.generation
            && (r.reply.Fine? ==>
                  && token in r.s.tokens
                  && r.s.tokens[token]
                     == Token(operation, hash, v.active, s.generation, t.issue + TOKEN_LIFE, s.key.value))
  {
    TransactionsAreReviewed(operation);
    hide NeedsReview, AlwaysAsked;
  }

  /** A token for exactly this transaction signs it, exactly once it is used in time. */
  lemma TokenSigns(s: State, v: Vault, hash: string, operation: string, token: string, made: nat, key: Key,
                   coreOk: bool, t: Clock)
    requires operation in TRANSACTION_OPERATIONS && token in s.tokens
    requires s.tokens[token] == Token(operation, hash, v.active, s.generation, made + TOKEN_LIFE, key)
    ensures var r := Dispatched(s, v, SignIt(hash, operation, token, coreOk), t);
            r.reply == if coreOk && t.start < made + TOKEN_LIFE && t.check <= made + TOKEN_LIFE
                       then Signature(token, operation, hash) else Failed
  {
  }

  /**
   On a live login, review, approval and signing of a transaction end with its signature exactly when the user
   approves within ten minutes of the review, the token is used within a minute, and the core signs.
   */
  lemma TransactionIsSigned(s: State, v: Vault, hash: string, operation: string, approve: bool, minutes: Option<nat>,
                            token: string, coreOk: bool, t1: Clock, t2: Clock, t3: Clock)
    requires operation in TRANSACTION_OPERATIONS && minutes != Some(0)
    requires Live(s, v, t2.unlock) && t1.start <= t2.start <= t2.ask <= t2.unlock
    ensures var r1 := Dispatched(s, v, ReviewIt(hash, operation), t1);
            var r2 := Dispatched(r1.s, r1.v, ApproveIt(hash, operation, approve, minutes, PinRefused, token), t2);
            var r3 := Dispatched(r2.s, r2.v, SignIt(hash, operation, token, coreOk), t3);
            approve && t2.check <= t1.issue + REVIEW_LIFE ==>
              r3.reply == if coreOk && t3.start < t2.issue + TOKEN_LIFE && t3.check <= t2.issue + TOKEN_LIFE
                          then Signature(token, operation, hash) else Failed
    ensures var r1 := Dispatched(s, v, ReviewIt(hash, operation), t1);
            var r2 := Dispatched(r1.s, r1.v, ApproveIt(hash, operation, approve, minutes, PinRefused, token), t2);
            !approve || t2.check > t1.issue + REVIEW_LIFE ==> !r2.reply.Fine?
  {
    hide Dispatched;
    ReviewIsStored(s, v, hash, operation, t1);
    var r1 := Dispatched(s, v, ReviewIt(hash, operation), t1);
    TokenIsIssued(r1.s, v, hash, operation, t1.issue, approve, minutes, token, t2);
    var r2 := Dispatched(r1.s, v, ApproveIt(hash, operation, approve, minutes, PinRefused, token), t2);
    if r2.reply.Fine? {
      TokenSigns(r2.s, v, hash, operation, token, t2.issue, s.key.value, coreOk, t3);
    }
  }

  /** On an expired login the same token is issued exactly if the password is right, and the session is open again. */
  lemma TokenAfterPassword(s: State, v: Vault, hash: string, operation: string, made: nat, approve: bool,
                           minutes: Option<nat>, pin: Pin, token: string, t: Clock)
    requires operation in TRANSACTION_OPERATIONS && hash in s.reviews
    requires s.reviews[hash] == Review(operation, v.active, s.generation, made + REVIEW_LIFE, false)
    requires s.until < t.ask && t.unlock < t.pin + LOGIN_START
    ensures var r := Dispatched(s, v, ApproveIt(hash, operation, approve, minutes, pin, token), t);
            && (r.reply.Fine? <==> approve && t.check <= made + REVIEW_LIFE && pin.PinRight?)
            && (r.reply.Fine? ==>
                  && token in r.s.tokens
                  && r.s.tokens[token]
                     == Token(operation, hash, v.active, s.generation + 1, t.issue + TOKEN_LIFE, pin.key)
                  && r.s.until == t.issue + Min(60, if minutes.Some? then minutes.value else 5) * 60_000)
  {
    TransactionsAreReviewed(operation);
    hide NeedsReview, AlwaysAsked;
  }

  /** What else moves the deadline: checking the password, and refreshing on the live offers page. */
  lemma DeadlinesAreSet(s: State, v: Vault, pin: Pin, minutes: Option<nat>, t: Clock)
    ensures var r := Dispatched(s, v, VerifyPin(pin, minutes), t);
            && (r.reply.Fine? <==> pin.PinRight?)
            && (r.reply.Fine? ==>
                  && r.s.until == t.issue + UnlockMinutes(minutes) * 60_000 && r.s.key == Some(pin.key)
                  && r.s.storeId == pin.store && r.v == v.(store := Some(pin.store)))
    ensures var r := Dispatched(s, v, Refresh(minutes), t);
            r.s.until == if s.nexus && s.until > t.check && s.until > t.start && s.key.Some?
                         then t.check + UnlockMinutes(minutes) * 60_000 else s.until
    ensures UnlockMinutes(None) == 5 && UnlockMinutes(Some(0)) == 60
    ensures forall m :: 1 <= m <= 60 ==> UnlockMinutes(Some(m)) == m
    ensures forall m :: m > 60 ==> UnlockMinutes(Some(m)) == 60
  {
  }
}
