/** The life of a Covenant Wyrm: eleven guarded actions over its state and a clock that stops while it sleeps. */
module Wyrm {
  import opened Wrappers
  import opened Words

  const TWELVE_HOURS := 432_000
  const DAY := 864_000
  const THREE_DAYS := 2_592_000
  const U32_MAX := 0xffff_ffff
  const ELEMENT_COUNT := 13
  const GENESIS_SUPPLY_CAP := 287

  /** Key hashes and name hashes are opaque; an unnamed Wyrm carries the zero hash. */
  type Digest = nat

  datatype State = State(owner: Digest, serial: nat, element: nat, phase: nat, warmed: bool, carePoints: nat,
                         activeDays: nat, growthStage: nat, specialization: nat, nameHash: Digest,
                         anchor: nat, sleepStarted: nat,
                         bone: nat, blood: nat, moon: nat, teal: nat, night: nat)

  function Genesis(owner: Digest, serial: nat, element: nat): State {
    State(owner, serial, element, 0, false, 0, 0, 0, 0, 0, 0, 0, 0, 0, 0, 0, 0)
  }

  /** The states that compile to a covenant. */
  predicate Valid(s: State) {
    && 1 <= s.serial <= GENESIS_SUPPLY_CAP
    && s.element < ELEMENT_COUNT
    && s.phase <= 4
    && s.growthStage <= 3
    && s.specialization <= 5
    && (s.phase == 0 ==> s.anchor == 0)
    && (s.phase == 3 ==> s.sleepStarted >= s.anchor)
    && (s.phase != 3 ==> s.sleepStarted == 0)
    && s.anchor <= I64_MAX
    && s.sleepStarted <= I64_MAX
  }

  datatype Action = Incubate | Warm | Hatch | Feed | Transfer | Grow | Die | Name | Sleep | Wake | SpecialFeed

  /** A requested action. A recipient that is no mainnet key is nothing; the name comes trimmed, with its hash. */
  datatype Request = Request(action: Action, recipient: Option<Digest>, nameBytes: nat, nameHash: Digest,
                             specialFeed: nat, specialization: nat)

  datatype Refusal =
    | ClockBehind | NotNow | Overflow | BadRecipient | SameOwner | TiedSpecialization | BadName | SameName

  predicate Window(elapsed: nat) {
    DAY <= elapsed < THREE_DAYS
  }

  predicate MayGrow(s: State) {
    && s.phase == 2
    && match s.growthStage
       case 0 => s.carePoints >= 7 && s.activeDays >= 7
       case 1 => s.carePoints >= 21 && s.activeDays >= 21
       case 2 => s.carePoints >= 69 && s.activeDays >= 69
       case _ => false
  }

  predicate Permitted(s: State, r: Request, clock: nat)
    requires clock >= s.anchor
  {
    var elapsed := clock - s.anchor;
    match r.action
    case Incubate => s.phase == 0
    case Warm => s.phase == 1 && !s.warmed && elapsed >= TWELVE_HOURS
    case Hatch => s.phase == 1 && s.warmed && elapsed >= TWELVE_HOURS
    case Feed => s.phase == 2 && Window(elapsed) && r.specialFeed == 0
    case SpecialFeed => s.phase == 2 && Window(elapsed) && 1 <= r.specialFeed <= 5
    case Transfer => s.phase == 0 || s.phase == 3
    case Grow => MayGrow(s)
    case Die => s.phase == 2 && elapsed >= THREE_DAYS
    case Name => s.phase == 2
    case Sleep => s.phase == 2 && elapsed < THREE_DAYS
    case Wake => s.phase == 3 && s.sleepStarted >= s.anchor && Max(0, clock - s.sleepStarted) >= DAY
  }

  function Feeds(s: State, kind: nat): nat {
    match kind
    case 1 => s.bone
    case 2 => s.blood
    case 3 => s.moon
    case 4 => s.teal
    case 5 => s.night
    case _ => 0
  }

  function Fed(s: State, clock: nat): Result<State, Refusal> {
    if s.carePoints + 1 > U32_MAX || s.activeDays + 1 > U32_MAX then Failure(Overflow)
    else Success(s.(carePoints := s.carePoints + 1, activeDays := s.activeDays + 1, anchor := clock))
  }

  function SpeciallyFed(s: State, kind: nat, clock: nat): Result<State, Refusal> {
    match Fed(s, clock)
    case Failure(e) => Failure(e)
    case Success(n) =>
      if Feeds(s, kind) + 1 > U32_MAX then Failure(Overflow)
      else
        match kind
        case 1 => Success(n.(bone := s.bone + 1))
        case 2 => Success(n.(blood := s.blood + 1))
        case 3 => Success(n.(moon := s.moon + 1))
        case 4 => Success(n.(teal := s.teal + 1))
        case 5 => Success(n.(night := s.night + 1))
        case _ => Failure(NotNow)
  }

  function MostFeeds(s: State): nat {
    Max(s.bone, Max(s.blood, Max(s.moon, Max(s.teal, s.night))))
  }

  /** The kinds fed most often, in order. */
  function Candidates(s: State): seq<nat> {
    CandidatesFrom(s, 1)
  }

  function CandidatesFrom(s: State, kind: nat): seq<nat>
    decreases 6 - kind
  {
    if kind > 5 then []
    else (if Feeds(s, kind) == MostFeeds(s) then [kind] else []) + CandidatesFrom(s, kind + 1)
  }

  function Grown(s: State, choice: nat): Result<State, Refusal> {
    var n := s.(growthStage := s.growthStage + 1);
    if n.growthStage != 2 then Success(n)
    else if MostFeeds(s) == 0 then Success(n.(specialization := 0))
    else
      var c := Candidates(s);
      if |c| == 1 then Success(n.(specialization := c[0]))
      else if choice in c then Success(n.(specialization := choice))
      else Failure(TiedSpecialization)
  }

  function NextState(s: State, r: Request, clock: nat): Result<State, Refusal> {
    if clock < s.anchor then Failure(ClockBehind)
    else if !Permitted(s, r, clock) then Failure(NotNow)
    else
      match r.action
      case Incubate => Success(s.(phase := 1, warmed := false, anchor := clock))
      case Warm => Success(s.(warmed := true, anchor := clock))
      case Hatch => Success(s.(phase := 2, growthStage := 0, anchor := clock))
      case Feed => Fed(s, clock)
      case SpecialFeed => SpeciallyFed(s, r.specialFeed, clock)
      case Transfer =>
        if r.recipient.None? then Failure(BadRecipient)
        else if r.recipient.value == s.owner then Failure(SameOwner)
        else Success(s.(owner := r.recipient.value))
      case Grow => Grown(s, r.specialization)
      case Die => Success(s.(phase := 4))
      case Name =>
        if r.nameBytes == 0 || r.nameBytes > 32 then Failure(BadName)
        else if r.nameHash == s.nameHash then Failure(SameName)
        else Success(s.(nameHash := r.nameHash))
      case Sleep => Success(s.(phase := 3, sleepStarted := clock))
      case Wake => Success(s.(phase := 2, anchor := clock - (s.sleepStarted - s.anchor), sleepStarted := 0))
  }

  /** A transition the wallet builds: both states compile. */
  predicate Transition(s: State, r: Request, clock: nat, n: State) {
    Valid(s) && NextState(s, r, clock) == Success(n) && Valid(n)
  }

  /** Growing raises the stage by one; entering stage 2 settles the specialization on a most-fed kind, if any. */
  lemma GrownShape(s: State, choice: nat)
    requires Grown(s, choice).Success?
    ensures var n := Grown(s, choice).value;
            var k := n.specialization;
            && n == s.(growthStage := s.growthStage + 1, specialization := k)
            && (n.growthStage != 2 ==> k == s.specialization)
            && (n.growthStage == 2 ==> if MostFeeds(s) == 0 then k == 0 else 1 <= k <= 5 && Feeds(s, k) == MostFeeds(s))
  {
    hide CandidatesFrom, MostFeeds, Feeds;
    CandidateKinds(s, 1);
    var c := Candidates(s);
    if |c| == 1 {
      assert c[0] in c;
    }
  }

  /** A valid state stays valid as long as the clock is in the signed range. */
  lemma ClockedStepsStayValid(s: State, r: Request, clock: nat)
    requires Valid(s) && clock <= I64_MAX && NextState(s, r, clock).Success?
    ensures Transition(s, r, clock, NextState(s, r, clock).value)
  {
    hide Grown, MostFeeds, Feeds;
    if r.action == Grow {
      GrownShape(s, r.specialization);
    }
  }

  lemma {:induction false} CandidateKinds(s: State, kind: nat)
    requires kind >= 1
    ensures forall k :: k in CandidatesFrom(s, kind) <==> kind <= k <= 5 && Feeds(s, k) == MostFeeds(s)
    decreases 6 - kind
  {
    if kind <= 5 {
      CandidateKinds(s, kind + 1);
    }
  }

  // ----- lives -----------------------------------------------------------------------------------------

  /** A state with what its history adds: when it hatched and how long it has slept in completed sleeps. */
  datatype Life = Life(state: State, hatched: Option<nat>, slept: nat)

  datatype Deed = Deed(request: Request, clock: nat)

  /** The life after a deed the wallet builds; refused deeds change nothing. */
  function Lived(l: Life, d: Deed): Life {
    var s := l.state;
    match NextState(s, d.request, d.clock)
    case Failure(_) => l
    case Success(n) =>
      if !Valid(n) then l
      else
        Life(n, if d.request.action == Hatch then Some(d.clock) else l.hatched,
             if d.request.action == Wake then l.slept + (d.clock - s.sleepStarted) else l.slept)
  }

  function LivedAll(l: Life, ds: seq<Deed>): Life
    decreases |ds|
  {
    if ds == [] then l else LivedAll(Lived(l, ds[0]), ds[1..])
  }

  function Birth(owner: Digest, serial: nat, element: nat): Life {
    Life(Genesis(owner, serial, element), None, 0)
  }

  /** The growth thresholds a stage implies. */
  predicate StageEarned(s: State) {
    && (s.growthStage >= 1 ==> s.carePoints >= 7)
    && (s.growthStage >= 2 ==> s.carePoints >= 21)
    && (s.growthStage >= 3 ==> s.carePoints >= 69)
  }

  predicate Careful(s: State) {
    && s.carePoints == s.activeDays
    && s.bone + s.blood + s.moon + s.teal + s.night <= s.carePoints
    && StageEarned(s)
    && (s.specialization != 0 ==> s.growthStage >= 2 && Feeds(s, s.specialization) > 0)
  }

  /** The feeding clock never runs faster than one meal a day awake, nor slower than one in three. */
  predicate OnTheClock(l: Life)
    requires l.hatched.Some?
  {
    var s := l.state;
    l.hatched.value + DAY * s.carePoints + l.slept <= s.anchor
      <= l.hatched.value + (THREE_DAYS - 1) * s.carePoints + l.slept
  }

  /** What every reachable life satisfies. */
  predicate Sound(l: Life) {
    var s := l.state;
    && Valid(s)
    && Careful(s)
    && (s.phase < 2 ==> l.hatched.None? && l.slept == 0 && s.carePoints == 0 && s.growthStage == 0 && s.nameHash == 0)
    && (s.phase >= 2 ==> l.hatched.Some? && OnTheClock(l))
    && (s.phase == 3 ==> s.sleepStarted - s.anchor < THREE_DAYS)
  }

  lemma GrownIsSound(s: State, choice: nat)
    requires MayGrow(s) && Careful(s) && Grown(s, choice).Success?
    ensures Careful(Grown(s, choice).value)
  {
    hide Grown, MostFeeds;
    GrownShape(s, choice);
  }

  /** A special meal is a meal that also raises one counter. */
  lemma SpecialMealIsSound(s: State, kind: nat, clock: nat)
    requires Careful(s) && SpeciallyFed(s, kind, clock).Success?
    ensures var n := SpeciallyFed(s, kind, clock).value;
            && Careful(n)
            && n == s.(carePoints := s.carePoints + 1, activeDays := s.activeDays + 1, anchor := clock,
                       bone := n.bone, blood := n.blood, moon := n.moon, teal := n.teal, night := n.night)
  {
  }

  lemma MealIsSound(s: State, clock: nat)
    requires Careful(s) && Fed(s, clock).Success?
    ensures Careful(Fed(s, clock).value)
  {
  }

  /** What every action leaves alone: care and growth move only by meals and growing. */
  lemma NextIsCareful(s: State, r: Request, clock: nat)
    requires Valid(s) && Careful(s) && NextState(s, r, clock).Success? && (s.phase < 2 ==> s.growthStage == 0)
    ensures Careful(NextState(s, r, clock).value)
  {
    hide Grown, SpeciallyFed, Fed, MostFeeds;
    match r.action
    case Grow => GrownIsSound(s, r.specialization);
    case Feed => MealIsSound(s, clock);
    case SpecialFeed => SpecialMealIsSound(s, r.specialFeed, clock);
    case _ =>
  }

  /** How an action moves phase, anchor and care. */
  lemma NextShape(s: State, r: Request, clock: nat)
    requires NextState(s, r, clock).Success?
    ensures var n := NextState(s, r, clock).value;
            var meal := r.action == Feed || r.action == SpecialFeed;
            && clock >= s.anchor && Permitted(s, r, clock)
            && n.serial == s.serial && n.element == s.element
            && n.carePoints == s.carePoints + (if meal then 1 else 0)
            && n.anchor == (if meal || r.action in {Incubate, Warm, Hatch} then clock
                            else if r.action == Wake then clock - (s.sleepStarted - s.anchor) else s.anchor)
            && n.sleepStarted == (if r.action == Sleep then clock else if r.action == Wake then 0 else s.sleepStarted)
            && n.phase == (match r.action case Incubate => 1 case Hatch => 2 case Die => 4 case Sleep => 3
                           case Wake => 2 case _ => s.phase)
            && n.growthStage == (if r.action == Grow then s.growthStage + 1 else if r.action == Hatch then 0
                                 else s.growthStage)
            && (r.action != Name ==> n.nameHash == s.nameHash)
            && (r.action != Grow || n.growthStage != 2 ==> n.specialization == s.specialization)
  {
    hide MostFeeds, CandidatesFrom, Feeds;
    if r.action == Grow {
      GrownShape(s, r.specialization);
    }
  }

  lemma LivedIsSound(l: Life, d: Deed)
    requires Sound(l)
    ensures Sound(Lived(l, d))
  {
    hide NextState, Careful, Permitted;
    var s, r := l.state, d.request;
    if NextState(s, r, d.clock).Success? {
      assert Careful(s) && (s.phase < 2 ==> s.growthStage == 0);
      NextIsCareful(s, r, d.clock);
      NextShape(s, r, d.clock);
      PermittedPhase(s, r, d.clock);
    }
  }

  lemma PermittedPhase(s: State, r: Request, clock: nat)
    requires clock >= s.anchor && Permitted(s, r, clock)
    ensures match r.action
            case Incubate => s.phase == 0
            case Warm => s.phase == 1
            case Hatch => s.phase == 1
            case Feed => s.phase == 2 && DAY <= clock - s.anchor < THREE_DAYS
            case SpecialFeed => s.phase == 2 && DAY <= clock - s.anchor < THREE_DAYS
            case Transfer => s.phase == 0 || s.phase == 3
            case Wake => s.phase == 3 && s.sleepStarted >= s.anchor && clock >= s.sleepStarted + DAY
            case Sleep => s.phase == 2 && clock - s.anchor < THREE_DAYS
            case _ => s.phase == 2
  {
  }

  /** What never changes, never goes back, or never ends. */
  lemma LivedKeeps(l: Life, d: Deed)
    requires Sound(l)
    ensures var s, n := l.state, Lived(l, d).state;
            && n.serial == s.serial && n.element == s.element
            && n.anchor >= s.anchor && n.carePoints >= s.carePoints && n.growthStage >= s.growthStage
            && (s.phase == 4 ==> Lived(l, d) == l)
            && (l.hatched.Some? ==> Lived(l, d).hatched == l.hatched)
            && (s.specialization != 0 ==> n.specialization == s.specialization)
  {
    hide NextState, Permitted, StageEarned, Feeds;
    var s, r := l.state, d.request;
    if NextState(s, r, d.clock).Success? {
      NextShape(s, r, d.clock);
      PermittedPhase(s, r, d.clock);
    }
  }

  lemma {:induction false} EveryLifeIsSound(l: Life, ds: seq<Deed>)
    requires Sound(l)
    ensures Sound(LivedAll(l, ds))
    ensures LivedAll(l, ds).state.serial == l.state.serial && LivedAll(l, ds).state.element == l.state.element
    ensures LivedAll(l, ds).state.anchor >= l.state.anchor
    ensures l.state.phase == 4 ==> LivedAll(l, ds) == l
    decreases |ds|
  {
    if ds != [] {
      LivedIsSound(l, ds[0]);
      LivedKeeps(l, ds[0]);
      EveryLifeIsSound(Lived(l, ds[0]), ds[1..]);
    }
  }

  /** From any valid birth, whatever is done in whatever order at whatever clocks. */
  lemma EveryWyrmIsSound(owner: Digest, serial: nat, element: nat, ds: seq<Deed>)
    requires Valid(Genesis(owner, serial, element))
    ensures Sound(LivedAll(Birth(owner, serial, element), ds))
    ensures var s := LivedAll(Birth(owner, serial, element), ds).state; s.serial == serial && s.element == element
  {
    EveryLifeIsSound(Birth(owner, serial, element), ds);
  }

  /** Waking gives back exactly the time that had passed before sleep, so nobody wakes up dead. */
  lemma WakingRestoresElapsed(l: Life, d: Deed, death: Request)
    requires Sound(l) && d.request.action == Wake && l.state.phase == 3 && Lived(l, d).state.phase == 2
    ensures d.clock >= Lived(l, d).state.anchor
    ensures d.clock - Lived(l, d).state.anchor == l.state.sleepStarted - l.state.anchor
    ensures death.action == Die ==> NextState(Lived(l, d).state, death, d.clock).Failure?
  {
  }

  /** The last growth stage takes at least 69 days awake. */
  lemma ElderNeeds69Days(owner: Digest, serial: nat, element: nat, ds: seq<Deed>)
    requires Valid(Genesis(owner, serial, element))
    ensures var l := LivedAll(Birth(owner, serial, element), ds);
            l.state.growthStage == 3 ==>
              && l.hatched.Some?
              && l.state.anchor - l.hatched.value - l.slept >= 69 * DAY
  {
    EveryWyrmIsSound(owner, serial, element, ds);
  }

  // ----- and 69 days are enough ------------------------------------------------------------------------

  const PLAIN := Request(Feed, None, 0, 0, 0, 0)

  function DailyMeals(from: nat, n: nat): seq<Deed>
    decreases n
  {
    if n == 0 then [] else [Deed(PLAIN, from + DAY)] + DailyMeals(from + DAY, n - 1)
  }

  lemma {:induction false} DailyMealsFeed(l: Life, n: nat)
    requires l.state.phase == 2 && Valid(l.state) && l.state.anchor + n * DAY <= I64_MAX
    requires l.state.carePoints + n <= U32_MAX && l.state.activeDays + n <= U32_MAX
    ensures LivedAll(l, DailyMeals(l.state.anchor, n)) == Life(l.state.(
              carePoints := l.state.carePoints + n, activeDays := l.state.activeDays + n,
              anchor := l.state.anchor + n * DAY), l.hatched, l.slept)
    decreases n
  {
    if n > 0 {
      var next := Lived(l, Deed(PLAIN, l.state.anchor + DAY));
      assert next == Life(l.state.(carePoints := l.state.carePoints + 1, activeDays := l.state.activeDays + 1,
                                   anchor := l.state.anchor + DAY), l.hatched, l.slept);
      DailyMealsFeed(next, n - 1);
      assert DailyMeals(l.state.anchor, n)[1..] == DailyMeals(next.state.anchor, n - 1);
    }
  }

  lemma {:induction false} LivedConcat(l: Life, a: seq<Deed>, b: seq<Deed>)
    ensures LivedAll(l, a + b) == LivedAll(LivedAll(l, a), b)
    decreases |a|
  {
    if a == [] {
      assert a + b == b;
    } else {
      assert (a + b)[1..] == a[1..] + b;
      LivedConcat(Lived(l, a[0]), a[1..], b);
    }
  }

  const GROW := Request(Grow, None, 0, 0, 0, 0)

  /** A newly hatched Wyrm, fed every day for 69 days, reaches the last stage. */
  lemma SixtyNineDaysSuffice(l: Life)
    requires l.state.phase == 2 && Valid(l.state) && l.state.growthStage == 0
    requires l.state.carePoints == l.state.activeDays == 0
    requires l.state.bone == l.state.blood == l.state.moon == l.state.teal == l.state.night == 0
    requires l.state.anchor + 69 * DAY <= I64_MAX
    ensures var clock := l.state.anchor + 69 * DAY;
            var ds := DailyMeals(l.state.anchor, 69) + [Deed(GROW, clock), Deed(GROW, clock), Deed(GROW, clock)];
            LivedAll(l, ds).state.growthStage == 3
  {
    hide LivedAll, DailyMeals;
    var clock := l.state.anchor + 69 * DAY;
    DailyMealsFeed(l, 69);
    var grow := Deed(GROW, clock);
    LivedConcat(l, DailyMeals(l.state.anchor, 69), [grow, grow, grow]);
    ThreeGrowths(LivedAll(l, DailyMeals(l.state.anchor, 69)), grow);
  }

  lemma ThreeGrowths(l: Life, grow: Deed)
    requires grow.request == GROW && l.state.phase == 2 && Valid(l.state) && grow.clock >= l.state.anchor
    requires l.state.growthStage == 0 && l.state.carePoints >= 69 && l.state.activeDays >= 69
    requires l.state.bone == l.state.blood == l.state.moon == l.state.teal == l.state.night == 0
    ensures LivedAll(l, [grow, grow, grow]).state.growthStage == 3
  {
    hide CandidatesFrom;
    var one := Lived(l, grow);
    var two := Lived(one, grow);
    assert one.state == l.state.(growthStage := 1);
    assert two.state == l.state.(growthStage := 2, specialization := 0);
    assert Lived(two, grow).state.growthStage == 3;
    assert [grow, grow, grow][1..] == [grow, grow] && [grow, grow][1..] == [grow] && [grow][1..] == [];
    assert LivedAll(Lived(two, grow), []) == Lived(two, grow);
    assert LivedAll(two, [grow]) == Lived(two, grow);
    assert LivedAll(one, [grow, grow]) == LivedAll(two, [grow]);
  }
}
