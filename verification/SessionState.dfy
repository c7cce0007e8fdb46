/**
 The signing session of the desktop host, as values: what each native call does to it.

 A call is a value that also carries what the outside world decides while it runs: clock readings, the
 user's answers, whether storage worked. `history` records, in order, what happened to the session.
 */
module SessionState {
  import opened Wrappers

  type Key = nat

  datatype Token = Token(operation: string, binding: string, wallet: string, generation: nat, expires: nat, key: Key)
  datatype Review = Review(operation: string, wallet: string, generation: nat, expires: nat, inApp: bool)

  /**
   What can happen to a session, with the clock reading `at` that decided it. `Opened` is a right password,
   `Extended` moves the deadline of the login, `KeyTaken` hands out the master key. `Revoked` drops every
   review and token; `login` tells whether the login survives that.
   */
  datatype Event =
    | Reviewed(hash: string, operation: string, wallet: string, at: nat)
    | Approved(operation: string, binding: string, wallet: string, at: nat)
    | Opened(at: nat, until: nat)
    | Extended(at: nat, until: nat)
    | KeyTaken(at: nat)
    | Issued(token: string, operation: string, binding: string, wallet: string, at: nat)
    | Used(token: string)
    | Signed(token: string, operation: string, binding: string, wallet: string, at: nat)
    | Revoked(login: bool)

  datatype State = State(generation: nat, cancellation: nat, until: nat, nexus: bool,
                         tokens: map<string, Token>, reviews: map<string, Review>,
                         key: Option<Key>, storeId: string, history: seq<Event>)

  const START := State(0, 0, 0, false, map[], map[], None, "", [])

  /** The stored vault, as far as the session looks at it: the active wallet, all in order, the password store. */
  datatype Vault = Vault(active: string, wallets: seq<string>, store: Option<string>)

  function Without(wallets: seq<string>, id: string): seq<string> {
    if wallets == [] then []
    else (if wallets[0] == id then [] else [wallets[0]]) + Without(wallets[1..], id)
  }

  /** A deleted active wallet is succeeded by the first one left, if any. */
  function Deleted(v: Vault, id: string): Vault {
    var left := Without(v.wallets, id);
    v.(wallets := left, active := if v.active != id then v.active else if left == [] then "" else left[0])
  }

  function Stored(v: Vault, id: string): Vault {
    v.(active := id, wallets := v.wallets + [id])
  }

  const MINUTE := 60000
  const TOKEN_LIFE := MINUTE
  const REVIEW_LIFE := 10 * MINUTE
  const LOGIN_START := 5 * MINUTE
  const LOGIN_LIMIT := 60 * MINUTE

  function Log(s: State, e: Event): State {
    s.(history := s.history + [e])
  }

  // ----- revocation and unlocking --------------------------------------------------------------------

  function Wiped(s: State, login: bool): State {
    Log(s.(generation := s.generation + 1, tokens := map[], reviews := map[], until := 0, nexus := false,
           key := None, storeId := ""), Revoked(login))
  }

  function Invalidated(s: State): State {
    Wiped(s, false)
  }

  /** Revokes everything but keeps a login that is still live. */
  function Switched(s: State, now: nat): State {
    var t := Wiped(s, s.until > now);
    if s.until > now then t.(until := s.until, key := s.key, storeId := s.storeId) else t
  }

  function WithKey(s: State, key: Key, store: string, now: nat): State {
    Log(Invalidated(s).(storeId := store, key := Some(key), until := now + LOGIN_START), Opened(now, now + LOGIN_START))
  }

  function Extend(s: State, now: nat, minutes: nat): State {
    Log(s.(until := now + minutes * MINUTE), Extended(now, now + minutes * MINUTE))
  }

  /** What every dispatched call does first. */
  function Expired(s: State, now: nat): State {
    s.(tokens := map t | t in s.tokens && s.tokens[t].expires > now :: s.tokens[t],
       key := if s.until <= now then None else s.key)
  }

  function UnlockMinutes(minutes: Option<nat>): (m: nat)
    ensures 1 <= m <= 60
  {
    var m := if minutes.Some? then minutes.value else 5;
    if m == 0 then 60 else Max(1, Min(60, m))
  }

  predicate CanRefresh(s: State, now: nat) {
    s.nexus && s.until > now && s.key.Some?
  }

  function Refreshed(s: State, minutes: Option<nat>, now: nat): State {
    if CanRefresh(s, now) then Extend(s, now, UnlockMinutes(minutes)) else s
  }

  /** How asking for the password ends: not asked or cancelled, wrong, or right (possibly after first setting it). */
  datatype Pin = PinRefused | PinWrong | PinRight(key: Key, store: string)

  function PinVerified(s: State, pin: Pin, now: nat): State {
    match pin
    case PinRefused => s
    case PinWrong => Invalidated(s)
    case PinRight(key, store) => WithKey(s, key, store, now)
  }

  function VaultAfter(v: Vault, pin: Pin): Vault {
    if pin.PinRight? then v.(store := Some(pin.store)) else v
  }

  predicate NeedsPin(s: State, v: Vault, now: nat) {
    s.until <= now || s.key.None? || v.store != Some(s.storeId)
  }

  // ----- calls -----------------------------------------------------------------------------------------

  const TRANSACTION_OPERATIONS := {
    "signTransaction", "signReveal", "signPskt", "signKcc20Transfer", "signEvmTransaction",
    "signPolicyTransaction", "signWyrmGenesis", "signWyrmTransition", "signDotkMarket", "signCovenantVault"}

  const MESSAGE_OPERATIONS := {"signPersonalMessage", "signInternalNexusChallenge"}

  predicate StartsWith(s: string, prefix: string) {
    prefix <= s
  }

  /** Operations that are only authorized against a native review. */
  predicate NeedsReview(operation: string) {
    StartsWith(operation, "sign") && operation !in MESSAGE_OPERATIONS
  }

  /**
   Clock readings of one call, in the order the code takes them: when it starts, when it checks a review, a
   token or the login, when it decides to ask for the password and when that was answered, the same for the
   master key, and when it is done.
   */
  datatype Clock = Clock(start: nat, check: nat, ask: nat, pin: nat, unlock: nat, entered: nat, issue: nat)

  datatype Call =
    /** A core review; `review` is nothing when the core rejects the request. */
    | Prepare(review: Option<(string, string)>, inApp: Option<bool>, kaspacom: bool)
    | Authorize(operation: string, binding: string, kaspacom: bool, nexusMessage: bool, approve: bool,
                minutes: Option<nat>, pin: Pin, pin2: Pin, issue: string)
    | SignTransaction(operation: string, token: Option<string>, reviewHash: Option<string>, other: string, coreOk: bool)
    | UseToken(operation: string, token: Option<string>, binding: string)
    | VerifyPin(pin: Pin, minutes: Option<nat>)
    | Refresh(minutes: Option<nat>)
    | ConfigurePin(hasPassword: bool, pin: Pin, changed: Option<(Key, string)>)
    | SetNexus(enabled: bool)
    | LockSession
    | SelectWallet(id: string, saved: bool)
    | Unlock(pin: Pin)
    | AddWallet(pin: Pin, stored: Option<string>)
    | Restore(pin: Pin, stored: Option<string>, finished: bool)
    | DeleteWallet(id: string, token: Option<string>, saved: bool)
    | InstallUpdate
    | Other
    | Panic

  datatype Reply = Failed | Fine | Signature(token: string, operation: string, reviewHash: string)

  datatype Outcome = Outcome(s: State, v: Vault, reply: Reply)

  // ----- reviews -----------------------------------------------------------------------------------------

  function FreshReviews(s: State, now: nat): State {
    var kept := map h | h in s.reviews && s.reviews[h].expires > now :: s.reviews[h];
    s.(reviews := if |kept| > 100 then map[] else kept)
  }

  function WithReview(s: State, hash: string, operation: string, wallet: string, inApp: bool, now: nat): State {
    Log(s.(reviews := s.reviews[hash := Review(operation, wallet, s.generation, now + REVIEW_LIFE, inApp)]),
        Reviewed(hash, operation, wallet, now))
  }

  function Prepared(s: State, v: Vault, c: Call, t: Clock): Outcome
    requires c.Prepare?
  {
    if c.review.None? then Outcome(s, v, Failed)
    else
      var (hash, operation) := c.review.value;
      var cleaned := FreshReviews(s, t.check);
      if c.inApp.None? || (c.kaspacom && !c.inApp.value) then Outcome(cleaned, v, Failed)
      else Outcome(WithReview(cleaned, hash, operation, v.active, c.inApp.value, t.issue), v, Fine)
  }

  // ----- tokens ------------------------------------------------------------------------------------------

  /** Takes the token out, whatever is then found wrong with it. */
  function Consumed(s: State, token: string): State
    requires token in s.tokens
  {
    Log(s.(tokens := s.tokens - {token}), Used(token))
  }

  predicate TokenAllows(s: State, v: Vault, token: string, operation: string, binding: string, now: nat)
    requires token in s.tokens
  {
    var t := s.tokens[token];
    t.operation == operation && t.binding == binding && t.wallet == v.active && t.generation == s.generation
    && t.expires >= now
  }

  function WithToken(s: State, token: string, operation: string, binding: string, wallet: string, key: Key,
                     now: nat): State {
    var live := map t | t in s.tokens && s.tokens[t].expires > now :: s.tokens[t];
    Log(s.(tokens := live[token := Token(operation, binding, wallet, s.generation, now + TOKEN_LIFE, key)]),
        Issued(token, operation, binding, wallet, now))
  }

  predicate Silent(s: State, c: Call, now: nat)
    requires c.Authorize?
  {
    c.operation == "signInternalNexusChallenge" && s.nexus && s.until >= now && c.nexusMessage
  }

  predicate ReviewAllows(s: State, v: Vault, operation: string, binding: string, now: nat) {
    binding in s.reviews &&
    var r := s.reviews[binding];
    r.operation == operation && r.wallet == v.active && r.generation == s.generation && r.expires >= now
  }

  /** Checks the review and asks the user; on success the approval is on record. */
  function Approval(s: State, v: Vault, c: Call, t: Clock): (State, bool)
    requires c.Authorize?
  {
    if Silent(s, c, t.check) then (s, true)
    else if NeedsReview(c.operation) then
      if !ReviewAllows(s, v, c.operation, c.binding, t.check) then (s, false)
      else if (c.kaspacom && s.reviews[c.binding].inApp) || c.approve then
        (Log(s, Approved(c.operation, c.binding, v.active, t.check)), true)
      else (s, false)
    else (s, c.approve)
  }

  /** Operations for which the password is asked every time. */
  predicate AlwaysAsked(operation: string) {
    StartsWith(operation, "export") || operation == "deleteWallet"
  }

  predicate AsksPin(s: State, c: Call, t: Clock)
    requires c.Authorize?
  {
    !Silent(s, c, t.check) && (s.until < t.ask || c.minutes == Some(0) || AlwaysAsked(c.operation))
  }

  /** Obtains the master key, asking for the password when the login is not live. */
  function Unlocked(s: State, v: Vault, pin: Pin, now: nat, answered: nat): (r: Outcome)
    ensures r.reply.Failed? || (r.reply.Fine? && r.s.key.Some?)
  {
    var needs := NeedsPin(s, v, now);
    var s1 := if needs then PinVerified(s, pin, answered) else s;
    var v1 := if needs then VaultAfter(v, pin) else v;
    if (needs && !pin.PinRight?) || s1.key.None? then Outcome(s1, v1, Failed)
    else Outcome(Log(s1, KeyTaken(if needs then answered else now)), v1, Fine)
  }

  function Authorized(s: State, v: Vault, c: Call, t: Clock): Outcome
    requires c.Authorize?
  {
    var (s1, approved) := Approval(s, v, c, t);
    if !approved then Outcome(s1, v, Failed)
    else
      var asks := AsksPin(s, c, t);
      var s2 := if asks then PinVerified(s1, c.pin, t.pin) else s1;
      var v2 := if asks then VaultAfter(v, c.pin) else v;
      if asks && !c.pin.PinRight? then Outcome(s2, v2, Failed)
      else
        var u := Unlocked(s2, v2, c.pin2, t.unlock, t.entered);
        if u.reply.Failed? then u
        else
          var s4 := WithToken(u.s, c.issue, c.operation, c.binding, u.v.active, u.s.key.value, t.issue);
          var minutes := Min(60, if c.minutes.Some? then c.minutes.value else 5);
          Outcome(if Silent(s, c, t.check) then s4 else Extend(s4, t.issue, minutes), u.v, Fine)
  }

  function SignedTransaction(s: State, v: Vault, c: Call, t: Clock): Outcome
    requires c.SignTransaction?
  {
    if c.operation !in TRANSACTION_OPERATIONS || c.token.None? || c.token.value !in s.tokens then Outcome(s, v, Failed)
    else
      var token := c.token.value;
      var binding := if c.reviewHash.Some? then c.reviewHash.value else c.other;
      var s1 := Consumed(s, token);
      if !TokenAllows(s, v, token, c.operation, binding, t.check) then Outcome(s1, v, Failed)
      else if c.reviewHash.None? || !c.coreOk then Outcome(s1, v, Failed)
      else
        Outcome(Log(s1, Signed(token, c.operation, binding, v.active, t.check)), v,
                Signature(token, c.operation, binding))
  }

  function TokenUsed(s: State, v: Vault, token: Option<string>, operation: string, binding: string, now: nat)
    : (State, bool)
  {
    if token.None? || token.value !in s.tokens then (s, false)
    else (Consumed(s, token.value), TokenAllows(s, v, token.value, operation, binding, now))
  }

  // ----- the other calls -----------------------------------------------------------------------------------

  function Reconfigured(s: State, v: Vault, c: Call, t: Clock): Outcome
    requires c.ConfigurePin?
  {
    var s1 := if c.hasPassword then PinVerified(s, c.pin, t.pin) else s;
    var v1 := if c.hasPassword then VaultAfter(v, c.pin) else v;
    if c.hasPassword && !c.pin.PinRight? then Outcome(s1, v1, Failed)
    else if c.changed.None? || (c.hasPassword && (s1.until <= t.unlock || s1.key.None?)) then Outcome(s1, v1, Failed)
    else
      var (key, store) := c.changed.value;
      Outcome(Invalidated(WithKey(s1, key, store, t.issue)), v1.(store := Some(store)), Fine)
  }

  function Dispatched(s0: State, v: Vault, c: Call, t: Clock): Outcome {
    var s := Expired(s0, t.start);
    match c
    case Prepare(_, _, _) => Prepared(s, v, c, t)
    case Authorize(_, _, _, _, _, _, _, _, _) => Authorized(s, v, c, t)
    case SignTransaction(_, _, _, _, _) => SignedTransaction(s, v, c, t)
    case UseToken(operation, token, binding) =>
      var (s1, ok) := TokenUsed(s, v, token, operation, binding, t.check);
      Outcome(s1, v, if ok then Fine else Failed)
    case VerifyPin(pin, minutes) =>
      var s1 := PinVerified(s, pin, t.pin);
      if pin.PinRight? then Outcome(Extend(s1, t.issue, UnlockMinutes(minutes)), VaultAfter(v, pin), Fine)
      else Outcome(s1, v, Failed)
    case Refresh(minutes) => Outcome(Refreshed(s, minutes, t.check), v, Fine)
    case ConfigurePin(_, _, _) => Reconfigured(s, v, c, t)
    case SetNexus(enabled) =>
      if !enabled then Outcome(Switched(s, t.check), v, Fine)
      else if s.until <= t.check || s.key.None? then Outcome(s, v, Failed)
      else Outcome(s.(nexus := true), v, Fine)
    case LockSession => Outcome(Invalidated(s), v, Fine)
    case SelectWallet(id, saved) =>
      if id !in v.wallets then Outcome(s, v, Failed)
      else Outcome(Switched(s, t.check), if saved then v.(active := id) else v, if saved then Fine else Failed)
    case Unlock(pin) => Unlocked(s, v, pin, t.unlock, t.entered)
    case AddWallet(pin, stored) =>
      var u := Unlocked(s, v, pin, t.unlock, t.entered);
      if u.reply.Failed? || stored.None? then u.(reply := Failed)
      else Outcome(Switched(u.s, t.issue), Stored(u.v, stored.value), Fine)
    case Restore(pin, stored, finished) =>
      var u := Unlocked(s, v, pin, t.unlock, t.entered);
      if u.reply.Failed? || stored.None? then u.(reply := Failed)
      else
        var v1 := Stored(u.v, stored.value);
        if finished then Outcome(Switched(u.s, t.issue), v1, Fine) else Outcome(u.s, v1, Failed)
    case DeleteWallet(id, token, saved) =>
      var (s1, ok) := TokenUsed(s, v, token, "deleteWallet", id, t.check);
      if !ok then Outcome(s1, v, Failed)
      else Outcome(Invalidated(s1), if saved then Deleted(v, id) else v, if saved then Fine else Failed)
    case InstallUpdate => Outcome(Invalidated(s), v, Fine)
    case Other => Outcome(s, v, Fine)
    case Panic => Outcome(Invalidated(s), v, Failed)
  }

  // ----- the host --------------------------------------------------------------------------------------------

  /** The session with the host's cancellation counter and its wish to forget the login. */
  datatype World = World(s: State, v: Vault, cancellations: nat, forget: bool)

  /** A native call, a cancellation, or a lock. A call may have read the counter early and be interrupted. */
  datatype Stimulus =
    | Request(call: Call, clock: Clock, seen: nat, interrupts: nat, locks: bool, loaded: bool, early: nat, late: nat)
    | Cancel
    | Lock

  function Forgotten(s: State, forget: bool, now: nat): State {
    if forget then Invalidated(s) else Switched(s, now)
  }

  function Entered(w: World, seen: nat, now: nat): World {
    if w.s.cancellation != seen then
      w.(s := Forgotten(w.s, w.forget, now).(cancellation := seen), forget := false)
    else w
  }

  /** The check before a result leaves the host. */
  function Left(w: World, seen: nat, reply: Reply, now: nat): (World, Reply) {
    if w.cancellations != seen then
      (w.(s := Forgotten(w.s, w.forget, now).(cancellation := w.cancellations), forget := false), Failed)
    else (w, reply)
  }

  function Handled(w: World, r: Stimulus): (World, Reply)
    requires r.Request?
  {
    var w1 := Entered(w, r.seen, r.early);
    if !r.loaded then (w1, Failed)
    else
      var d := Dispatched(w1.s, w1.v, r.call, r.clock);
      var w2 := World(d.s, d.v, w1.cancellations + r.interrupts, w1.forget || (r.interrupts > 0 && r.locks));
      Left(w2, r.seen, d.reply, r.late)
  }

  function Step(w: World, r: Stimulus): World {
    match r
    case Request(_, _, _, _, _, _, _, _) => Handled(w, r).0
    case Cancel => w.(cancellations := w.cancellations + 1)
    case Lock => World(Invalidated(w.s), w.v, w.cancellations + 1, true)
  }
}
