/**
 The contract a Covenant Wyrm lives under, as it is on chain, and that the wallet's transitions are exactly the ones
 it lets through.
 */
module WyrmContract {
  import opened Wrappers
  import opened Words
  import opened Wyrm

  predicate SameIdentity(s: State, n: State) {
    n.serial == s.serial && n.element == s.element
  }

  predicate SameFeeds(s: State, n: State) {
    n.bone == s.bone && n.blood == s.blood && n.moon == s.moon && n.teal == s.teal && n.night == s.night
  }

  predicate SameDevelopment(s: State, n: State) {
    n.specialization == s.specialization && SameFeeds(s, n)
  }

  predicate SameProgress(s: State, n: State) {
    && n.carePoints == s.carePoints && n.activeDays == s.activeDays && n.growthStage == s.growthStage
    && n.nameHash == s.nameHash && SameDevelopment(s, n)
  }

  predicate SameClock(s: State, n: State) {
    n.anchor == s.anchor && n.sleepStarted == s.sleepStarted
  }

  /** A meal between one and three days after the last. */
  predicate Meal(s: State, n: State, daa: nat) {
    && s.phase == 2 && n.phase == 2 && 864_000 <= daa - s.anchor < 2_592_000
    && n.owner == s.owner && n.warmed == s.warmed && n.nameHash == s.nameHash
    && n.carePoints == s.carePoints + 1 && n.activeDays == s.activeDays + 1
    && n.growthStage == s.growthStage && n.specialization == s.specialization
    && n.anchor == daa && n.sleepStarted == 0
  }

  predicate RaisesOne(s: State, n: State, kind: nat) {
    && n.bone == s.bone + (if kind == 1 then 1 else 0)
    && n.blood == s.blood + (if kind == 2 then 1 else 0)
    && n.moon == s.moon + (if kind == 3 then 1 else 0)
    && n.teal == s.teal + (if kind == 4 then 1 else 0)
    && n.night == s.night + (if kind == 5 then 1 else 0)
  }

  predicate AtLeastAll(feeds: nat, s: State) {
    feeds >= s.bone && feeds >= s.blood && feeds >= s.moon && feeds >= s.teal && feeds >= s.night
  }

  /** What a Wyrm may specialize in when it reaches its second stage. */
  predicate Earned(s: State, specialization: nat) {
    if s.bone == 0 && s.blood == 0 && s.moon == 0 && s.teal == 0 && s.night == 0 then specialization == 0
    else if specialization == 1 then AtLeastAll(s.bone, s)
    else if specialization == 2 then AtLeastAll(s.blood, s)
    else if specialization == 3 then AtLeastAll(s.moon, s)
    else if specialization == 4 then AtLeastAll(s.teal, s)
    else specialization == 5 && AtLeastAll(s.night, s)
  }

  predicate Growth(s: State, n: State) {
    && s.phase == 2 && n.phase == 2 && n.owner == s.owner && n.warmed == s.warmed && n.nameHash == s.nameHash
    && n.carePoints == s.carePoints && n.activeDays == s.activeDays && SameClock(s, n) && SameFeeds(s, n)
    && n.growthStage == s.growthStage + 1
    && if n.growthStage == 1 then s.carePoints >= 7 && s.activeDays >= 7 && n.specialization == s.specialization
       else if n.growthStage == 2 then s.carePoints >= 21 && s.activeDays >= 21 && Earned(s, n.specialization)
       else && n.growthStage == 3 && s.carePoints >= 69 && s.activeDays >= 69
            && n.specialization == s.specialization
  }

  /** The contract's verdict on a step from `s` to `n` at chain time `daa`; signatures are not part of it. */
  predicate Permits(s: State, n: State, action: Action, feedKind: nat, daa: nat) {
    && SameIdentity(s, n) && daa >= s.anchor
    && (action == SpecialFeed || feedKind == 0)
    && match action
       case Die =>
         && s.phase == 2 && n.phase == 4 && daa - s.anchor >= 2_592_000
         && n.owner == s.owner && n.warmed == s.warmed && SameClock(s, n) && SameProgress(s, n)
       case Incubate =>
         && s.phase == 0 && n.phase == 1 && !n.warmed
         && n.owner == s.owner && n.anchor == daa && n.sleepStarted == 0 && SameProgress(s, n)
       case Warm =>
         && s.phase == 1 && n.phase == 1 && !s.warmed && n.warmed && daa - s.anchor >= 432_000
         && n.owner == s.owner && n.anchor == daa && n.sleepStarted == 0 && SameProgress(s, n)
       case Hatch =>
         && s.phase == 1 && n.phase == 2 && s.warmed && n.warmed && daa - s.anchor >= 432_000
         && n.owner == s.owner && n.anchor == daa && n.sleepStarted == 0 && SameProgress(s, n)
       case Feed => Meal(s, n, daa) && SameFeeds(s, n)
       case SpecialFeed => 1 <= feedKind <= 5 && Meal(s, n, daa) && RaisesOne(s, n, feedKind)
       case Transfer =>
         && (s.phase == 0 || s.phase == 3) && n.phase == s.phase && n.owner != s.owner
         && n.warmed == s.warmed && SameClock(s, n) && SameProgress(s, n)
       case Grow => Growth(s, n)
       case Name =>
         && s.phase == 2 && n.phase == 2 && n.owner == s.owner && n.warmed == s.warmed && n.nameHash != s.nameHash
         && n.carePoints == s.carePoints && n.activeDays == s.activeDays && n.growthStage == s.growthStage
         && SameDevelopment(s, n) && SameClock(s, n)
       case Sleep =>
         && s.phase == 2 && n.phase == 3 && daa - s.anchor < 2_592_000
         && n.owner == s.owner && n.warmed == s.warmed && n.anchor == s.anchor && n.sleepStarted == daa
         && SameProgress(s, n)
       case Wake =>
         && s.phase == 3 && n.phase == 2 && s.sleepStarted >= s.anchor && daa - s.sleepStarted >= 864_000
         && n.owner == s.owner && n.warmed == s.warmed && n.sleepStarted == 0
         && n.anchor == daa - (s.sleepStarted - s.anchor) && SameProgress(s, n)
  }

  lemma MostIsEarned(s: State, k: nat)
    ensures Earned(s, k) <==> if MostFeeds(s) == 0 then k == 0 else 1 <= k <= 5 && Feeds(s, k) == MostFeeds(s)
  {
  }

  /** Growing is refused only for an ambiguous choice, and with the right choice reaches every earned specialization. */
  lemma GrowsAsEarned(s: State, choice: nat)
    ensures Grown(s, choice).Success? && s.growthStage + 1 == 2 ==> Earned(s, Grown(s, choice).value.specialization)
    ensures Earned(s, choice) || s.growthStage + 1 != 2 ==> Grown(s, choice).Success?
    ensures Earned(s, choice) && s.growthStage + 1 == 2 ==> Grown(s, choice).value.specialization == choice
    ensures Grown(s, choice).Success? <==> s.growthStage + 1 != 2 || Earned(s, choice) || OneEarned(s)
  {
    hide CandidatesFrom, Earned, MostFeeds, Feeds;
    CandidateKinds(s, 1);
    var c := Candidates(s);
    MostIsEarned(s, choice);
    if Grown(s, choice).Success? {
      GrownShape(s, choice);
      MostIsEarned(s, Grown(s, choice).value.specialization);
    }
    if |c| == 1 {
      assert c[0] in c;
    }
    OneCandidate(s);
  }

  lemma OneCandidate(s: State)
    ensures OneEarned(s) <==> MostFeeds(s) == 0 || |Candidates(s)| == 1
  {
    hide Candidates, Earned, MostFeeds, Feeds;
    EarnedAre(s);
    var c := Candidates(s);
    if MostFeeds(s) == 0 {
      assert Earned(s, 0);
    } else if |c| == 1 {
      assert c[0] in c && Earned(s, c[0]);
    } else if |c| >= 2 {
      TwoEarned(s, c);
    }
  }

  lemma EarnedAre(s: State)
    ensures forall k: nat :: Earned(s, k) <==> if MostFeeds(s) == 0 then k == 0 else k in Candidates(s)
    ensures forall i, j :: 0 <= i < j < |Candidates(s)| ==> Candidates(s)[i] != Candidates(s)[j]
  {
    hide CandidatesFrom, Earned, MostFeeds, Feeds;
    CandidateKinds(s, 1);
    CandidatesOnce(s, 1);
    forall k: nat ensures Earned(s, k) <==> if MostFeeds(s) == 0 then k == 0 else k in Candidates(s) {
      MostIsEarned(s, k);
    }
  }

  lemma TwoEarned(s: State, c: seq<nat>)
    requires |c| >= 2 && c[0] != c[1] && forall k :: k in c ==> Earned(s, k)
    ensures !OneEarned(s)
  {
    hide Earned;
    assert c[0] in c && c[1] in c;
  }

  /** There is nothing to choose: just one specialization is earned. */
  ghost predicate OneEarned(s: State) {
    exists k: nat :: Earned(s, k) && forall j: nat :: Earned(s, j) ==> j == k
  }

  lemma {:induction false} CandidatesOnce(s: State, kind: nat)
    requires kind >= 1
    ensures forall i, j :: 0 <= i < j < |CandidatesFrom(s, kind)| ==>
              CandidatesFrom(s, kind)[i] != CandidatesFrom(s, kind)[j]
    decreases 6 - kind
  {
    if kind <= 5 {
      CandidatesOnce(s, kind + 1);
      CandidateKinds(s, kind + 1);
    }
  }

  /**
   A transition the wallet works out is one the contract lets through, unless a feed kind was left in a request for
   another action: the wallet passes it on, and the contract refuses.
   */
  lemma WalletMeetsContract(s: State, r: Request, clock: nat)
    requires Valid(s) && (s.phase == 1 ==> s.growthStage == 0) && NextState(s, r, clock).Success?
    ensures Permits(s, NextState(s, r, clock).value, r.action, r.specialFeed, clock)
       <==> r.action == SpecialFeed || r.specialFeed == 0
  {
    hide Grown, Earned, MostFeeds;
    if r.action == Grow {
      GrownShape(s, r.specialization);
      GrowsAsEarned(s, r.specialization);
    }
  }

  /** Every step the contract lets through is worked out by the wallet, as long as the counters fit their words. */
  lemma ContractIsServed(s: State, n: State, action: Action, feedKind: nat, clock: nat)
    requires Valid(s) && (s.phase == 1 ==> s.growthStage == 0) && Permits(s, n, action, feedKind, clock)
    requires n.carePoints <= U32_MAX && n.activeDays <= U32_MAX
    requires n.bone <= U32_MAX && n.blood <= U32_MAX && n.moon <= U32_MAX && n.teal <= U32_MAX && n.night <= U32_MAX
    ensures NextState(s, Request(action, Some(n.owner), 1, n.nameHash, feedKind, n.specialization), clock) == Success(n)
  {
    hide Grown, Earned, MostFeeds;
    if action == Grow {
      GrowsAsEarned(s, n.specialization);
      if Grown(s, n.specialization).Success? {
        GrownShape(s, n.specialization);
      }
    }
  }

  /** Of every Wyrm, whatever has happened to it since genesis: what the wallet builds next the contract permits. */
  lemma EveryDeedIsPermitted(owner: Digest, serial: nat, element: nat, ds: seq<Deed>, r: Request, clock: nat)
    requires Valid(Genesis(owner, serial, element))
    requires var s := LivedAll(Birth(owner, serial, element), ds).state;
             NextState(s, r, clock).Success? && (r.action == SpecialFeed || r.specialFeed == 0)
    ensures var s := LivedAll(Birth(owner, serial, element), ds).state;
            Permits(s, NextState(s, r, clock).value, r.action, r.specialFeed, clock)
  {
    hide NextState, Permits, Careful;
    EveryWyrmIsSound(owner, serial, element, ds);
    WalletMeetsContract(LivedAll(Birth(owner, serial, element), ds).state, r, clock);
  }

  /** Which eggs there are: serials 1 to 287 and thirteen elements. */
  lemma GenesisExactly(owner: Digest, serial: nat, element: nat)
    ensures Valid(Genesis(owner, serial, element)) <==> 1 <= serial <= 287 && element < 13
    ensures var s := Genesis(owner, serial, element);
            && s.owner == owner && s.serial == serial && s.element == element && s.phase == 0 && !s.warmed
            && s.carePoints == s.activeDays == s.growthStage == s.specialization == s.nameHash == 0
            && s.anchor == s.sleepStarted == s.bone == s.blood == s.moon == s.teal == s.night == 0
  {
  }

  /** What the wallet asks of a request beyond the contract: a recipient, a name of 1 to 32 bytes, counters in range. */
  ghost predicate Offered(s: State, r: Request, clock: nat) {
    match r.action
    case Transfer =>
      (s.phase == 0 || s.phase == 3) && clock >= s.anchor && r.recipient.Some? && r.recipient.value != s.owner
    case Name => s.phase == 2 && clock >= s.anchor && 1 <= r.nameBytes <= 32 && r.nameHash != s.nameHash
    case Grow =>
      && clock >= s.anchor && s.phase == 2 && s.growthStage <= 2
      && var days := if s.growthStage == 0 then 7 else if s.growthStage == 1 then 21 else 69;
         && s.carePoints >= days && s.activeDays >= days
         && (s.growthStage == 1 ==> Earned(s, r.specialization) || OneEarned(s))
    case Feed =>
      && s.phase == 2 && 864_000 <= clock - s.anchor < 2_592_000 && r.specialFeed == 0
      && s.carePoints < 0xffff_ffff && s.activeDays < 0xffff_ffff
    case SpecialFeed =>
      && s.phase == 2 && 864_000 <= clock - s.anchor < 2_592_000 && 1 <= r.specialFeed <= 5
      && s.carePoints < 0xffff_ffff && s.activeDays < 0xffff_ffff && Feeds(s, r.specialFeed) < 0xffff_ffff
    case _ => exists n :: Permits(s, n, r.action, 0, clock)
  }

  /** Exactly which requests the wallet takes up. */
  lemma OfferedExactly(s: State, r: Request, clock: nat)
    requires Valid(s) && (s.phase == 1 ==> s.growthStage == 0)
    ensures NextState(s, r, clock).Success? <==> Offered(s, r, clock)
  {
    hide Grown, Earned, OneEarned, MostFeeds;
    if r.action == Grow {
      GrowsAsEarned(s, r.specialization);
    } else if r.action in {Incubate, Warm, Hatch, Die, Sleep, Wake} {
      var plain := r.(specialFeed := 0);
      if NextState(s, plain, clock).Success? {
        WalletMeetsContract(s, plain, clock);
        assert Permits(s, NextState(s, plain, clock).value, r.action, 0, clock);
      }
      assert NextState(s, r, clock) == NextState(s, plain, clock);
    }
  }

  /** A transfer that takes effect installs the recipient, a naming the name, and neither changes anything else. */
  lemma TransferInstalls(l: Life, d: Deed)
    requires Lived(l, d).state != l.state
    ensures d.request.action == Transfer ==>
              d.request.recipient.Some? && Lived(l, d) == l.(state := l.state.(owner := d.request.recipient.value))
    ensures d.request.action == Name ==> Lived(l, d) == l.(state := l.state.(nameHash := d.request.nameHash))
  {
    hide Grown, SpeciallyFed, Fed;
  }

  /** A special meal raises its own counter by one and no other. */
  lemma SpecialMealRaises(l: Life, d: Deed)
    requires d.request.action == SpecialFeed && Lived(l, d).state != l.state
    ensures RaisesOne(l.state, Lived(l, d).state, d.request.specialFeed) && 1 <= d.request.specialFeed <= 5
  {
    hide Valid;
  }

  /** The states that can stand on chain: each field in its range, and a clock only where the phase has one. */
  lemma StatesExactly(s: State)
    ensures Valid(s) <==>
              && 0 < s.serial < 288 && s.element < 13 && s.phase < 5 && s.growthStage < 4 && s.specialization < 6
              && s.anchor < 0x8000_0000_0000_0000 && s.sleepStarted < 0x8000_0000_0000_0000
              && (s.anchor == 0 || s.phase != 0)
              && if s.phase == 3 then s.sleepStarted >= s.anchor else s.sleepStarted == 0
  {
  }
}
