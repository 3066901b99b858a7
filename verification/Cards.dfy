/** Option cards: how build_card derives the timeout behaviour of a card from the
    autonomy matrix, and what validate_card refuses. */
module Cards {
  import opened Common

  datatype EvidenceRef = EvidenceRef(noSource: bool, ref: string)

  /** hasAxis: a non-empty distinctness_axis is declared. */
  datatype Choice = Choice(id: string, summary: string, evidence: seq<EvidenceRef>, hasAxis: bool)

  datatype RiskTier = Low | Medium | High | NonNegotiable

  datatype BudgetClass = Digest | Realtime

  datatype Card = Card(
    cardId: string, kind: string, level: int, riskTier: RiskTier,
    options: seq<Choice>, recommended: string, evidence: seq<EvidenceRef>, novelStance: bool,
    functionId: nat, createdAt: int, expiresAt: int,     // times in hours
    defaultOnTimeout: Option<string>, budgetClass: BudgetClass)

  datatype LevelRule = LevelRule(defaultAllowed: bool, defaultHours: Option<int>)

  datatype Matrix = Matrix(nonNegotiable: set<string>, levels: map<int, LevelRule>,
                           timeoutsEnabled: bool, cardsPerDay: int)

  /** What is checked outside this model: the JSON schema, whether an evidence reference
      resolves (None: no resolver is given), and trimming and lower-casing a summary. */
  datatype Env = Env(schemaAccepts: Card -> bool, resolves: Option<EvidenceRef -> bool>, normal: string -> string)

  datatype CardError =
    | SchemaViolation | UnresolvableEvidence | DuplicateOptionIds | RecommendedNotAnOption
    | NonNegotiableWithDefault | NonNegotiableNotRealtime | LowLevelWithDefault | DefaultNotAnOption
    | OptionWithoutEvidence | IdenticalSummaries | MissingAxis
    | UnknownLevel

  function Ids(options: seq<Choice>): seq<string> {
    seq(|options|, i requires 0 <= i < |options| => options[i].id)
  }

  function Summaries(env: Env, options: seq<Choice>): seq<string> {
    seq(|options|, i requires 0 <= i < |options| => env.normal(options[i].summary))
  }

  /** len(set(xs)) != len(xs) */
  predicate HasDuplicates(xs: seq<string>) { |set x | x in xs| != |xs| }

  predicate Resolves(env: Env, r: EvidenceRef) {
    env.resolves.None? || r.noSource || env.resolves.value(r)
  }

  predicate EvidenceHolds(env: Env, card: Card) {
    && (forall i | 0 <= i < |card.evidence| :: Resolves(env, card.evidence[i]))
    && (forall i | 0 <= i < |card.options| ::
          forall j | 0 <= j < |card.options[i].evidence| :: Resolves(env, card.options[i].evidence[j]))
  }

  /** One check of validate_card, as the code computes it. */
  predicate Fails(env: Env, m: Matrix, card: Card, check: CardError) {
    match check
    case SchemaViolation => !env.schemaAccepts(card)
    case UnresolvableEvidence => !EvidenceHolds(env, card)
    case DuplicateOptionIds => HasDuplicates(Ids(card.options))
    case RecommendedNotAnOption => card.recommended !in Ids(card.options)
    case NonNegotiableWithDefault => card.kind in m.nonNegotiable && card.defaultOnTimeout.Some?
    case NonNegotiableNotRealtime => card.kind in m.nonNegotiable && card.budgetClass != Realtime
    case LowLevelWithDefault => card.level <= 1 && card.defaultOnTimeout.Some?
    case DefaultNotAnOption => card.defaultOnTimeout.Some? && card.defaultOnTimeout.value !in Ids(card.options)
    case OptionWithoutEvidence => exists i | 0 <= i < |card.options| :: card.options[i].evidence == [] && !card.novelStance
    case IdenticalSummaries => HasDuplicates(Summaries(env, card.options))
    case MissingAxis => |card.options| == 3 && exists i | 0 <= i < 3 :: !card.options[i].hasAxis
    case UnknownLevel => false
  }

  /** validate_card: the checks one after the other. */
  function Validate(env: Env, m: Matrix, card: Card): Option<CardError> {
    if Fails(env, m, card, SchemaViolation) then Some(SchemaViolation)
    else if Fails(env, m, card, UnresolvableEvidence) then Some(UnresolvableEvidence)
    else if Fails(env, m, card, DuplicateOptionIds) then Some(DuplicateOptionIds)
    else if Fails(env, m, card, RecommendedNotAnOption) then Some(RecommendedNotAnOption)
    else if Fails(env, m, card, NonNegotiableWithDefault) then Some(NonNegotiableWithDefault)
    else if Fails(env, m, card, NonNegotiableNotRealtime) then Some(NonNegotiableNotRealtime)
    else if Fails(env, m, card, LowLevelWithDefault) then Some(LowLevelWithDefault)
    else if Fails(env, m, card, DefaultNotAnOption) then Some(DefaultNotAnOption)
    else if Fails(env, m, card, OptionWithoutEvidence) then Some(OptionWithoutEvidence)
    else if Fails(env, m, card, IdenticalSummaries) then Some(IdenticalSummaries)
    else if Fails(env, m, card, MissingAxis) then Some(MissingAxis)
    else None
  }

  /** Python's `x or y` on an optional number of hours. */
  function Or(x: Option<int>, y: int): int {
    if x.Some? && x.value != 0 then x.value else y
  }

  /** What a producer supplies to build_card. */
  datatype Draft = Draft(
    cardId: string, kind: string, level: int, options: seq<Choice>, recommended: string,
    evidence: seq<EvidenceRef>, novelStance: bool, functionId: nat, now: int,
    expiresHours: Option<int>, defaultsEarned: bool)

  /** The level lets this draft default on timeout, and the privilege is on or earned. */
  predicate GetsDefault(m: Matrix, d: Draft) {
    && d.kind !in m.nonNegotiable
    && d.level in m.levels && m.levels[d.level].defaultAllowed && (m.timeoutsEnabled || d.defaultsEarned)
  }

  /** The card build_card fills in, before it validates it. */
  function Derived(m: Matrix, d: Draft): Result<Card, CardError> {
    if d.kind in m.nonNegotiable then
      Ok(Card(d.cardId, d.kind, d.level, NonNegotiable, d.options, d.recommended, d.evidence, d.novelStance,
              d.functionId, d.now, d.now + Or(d.expiresHours, 72), None, Realtime))
    else if !(0 <= d.level <= 4) || d.level !in m.levels then Err(UnknownLevel)
    else
      var tier := if d.level == 0 then High else if d.level == 1 then Medium else Low;
      var rule := m.levels[d.level];
      var (default, hours) :=
        if rule.defaultAllowed && (m.timeoutsEnabled || d.defaultsEarned)
        then (Some(d.recommended), Or(d.expiresHours, Or(rule.defaultHours, 48)))
        else (None, Or(d.expiresHours, 120));
      Ok(Card(d.cardId, d.kind, d.level, tier, d.options, d.recommended, d.evidence, d.novelStance,
              d.functionId, d.now, d.now + hours, default, Digest))
  }

  /** build_card */
  function Build(env: Env, m: Matrix, d: Draft): Result<Card, CardError> {
    match Derived(m, d)
    case Err(e) => Err(e)
    case Ok(card) => if Validate(env, m, card).Some? then Err(Validate(env, m, card).value) else Ok(card)
  }

  // -- What acceptance means -------------------------------------------------------------

  ghost predicate Distinct(xs: seq<string>) {
    forall i, j | 0 <= i < j < |xs| :: xs[i] != xs[j]
  }

  lemma DistinctTail(xs: seq<string>)
    requires xs != []
    ensures Distinct(xs) <==> xs[0] !in xs[1..] && Distinct(xs[1..])
  {
    if xs[0] !in xs[1..] && Distinct(xs[1..]) {
      forall i, j | 0 <= i < j < |xs| ensures xs[i] != xs[j] {
        assert xs[j] == xs[1..][j - 1] && (i > 0 ==> xs[i] == xs[1..][i - 1]);
      }
    }
    if Distinct(xs) {
      forall i, j | 0 <= i < j < |xs[1..]| ensures xs[1..][i] != xs[1..][j] {
        assert xs[i + 1] != xs[j + 1];
      }
    }
  }

  lemma {:induction false} DuplicatesAreRepeats(xs: seq<string>)
    ensures |set x | x in xs| <= |xs|
    ensures HasDuplicates(xs) <==> !Distinct(xs)
  {
    if xs != [] {
      var rest, all := set x | x in xs[1..], set x | x in xs;
      DuplicatesAreRepeats(xs[1..]);
      DistinctTail(xs);
      assert all == {xs[0]} + rest;
      if xs[0] in rest { assert all == rest; } else { assert |all| == |rest| + 1; }
    }
  }

  /** The checks on the options alone. */
  ghost predicate OptionsHold(env: Env, options: seq<Choice>, recommended: string, novel: bool) {
    && (forall i, j | 0 <= i < j < |options| ::
          options[i].id != options[j].id && env.normal(options[i].summary) != env.normal(options[j].summary))
    && (exists i | 0 <= i < |options| :: options[i].id == recommended)
    && (forall i | 0 <= i < |options| :: options[i].evidence != [] || novel)
    && (|options| == 3 ==> forall i | 0 <= i < 3 :: options[i].hasAxis)
  }

  /** The policy: who may carry a default, and who must be realtime. */
  ghost predicate PolicyHolds(m: Matrix, card: Card) {
    && (card.kind in m.nonNegotiable ==> card.defaultOnTimeout.None? && card.budgetClass == Realtime)
    && (card.level <= 1 ==> card.defaultOnTimeout.None?)
    && (card.defaultOnTimeout.Some? ==>
          exists i | 0 <= i < |card.options| :: card.options[i].id == card.defaultOnTimeout.value)
  }

  lemma InIds(options: seq<Choice>, id: string)
    ensures id in Ids(options) <==> exists i | 0 <= i < |options| :: options[i].id == id
  {
    if i :| 0 <= i < |options| && options[i].id == id { assert Ids(options)[i] == id; }
    if i :| 0 <= i < |Ids(options)| && Ids(options)[i] == id { assert options[i].id == id; }
  }

  /** The checks in the order in which the code makes them. */
  function Order(check: CardError): nat {
    match check
    case SchemaViolation => 0
    case UnresolvableEvidence => 1
    case DuplicateOptionIds => 2
    case RecommendedNotAnOption => 3
    case NonNegotiableWithDefault => 4
    case NonNegotiableNotRealtime => 5
    case LowLevelWithDefault => 6
    case DefaultNotAnOption => 7
    case OptionWithoutEvidence => 8
    case IdenticalSummaries => 9
    case MissingAxis => 10
    case UnknownLevel => 11
  }

  /** The card passes this check, by its own fields. */
  ghost predicate Passes(env: Env, m: Matrix, card: Card, check: CardError) {
    match check
    case SchemaViolation => env.schemaAccepts(card)
    case UnresolvableEvidence =>
      env.resolves.Some? ==>
        && (forall r | r in card.evidence :: r.noSource || env.resolves.value(r))
        && (forall o, r | o in card.options && r in o.evidence :: r.noSource || env.resolves.value(r))
    case DuplicateOptionIds => forall i, j | 0 <= i < j < |card.options| :: card.options[i].id != card.options[j].id
    case RecommendedNotAnOption => exists o :: o in card.options && o.id == card.recommended
    case NonNegotiableWithDefault => card.kind in m.nonNegotiable ==> card.defaultOnTimeout.None?
    case NonNegotiableNotRealtime => card.kind in m.nonNegotiable ==> card.budgetClass == Realtime
    case LowLevelWithDefault => card.level <= 1 ==> card.defaultOnTimeout.None?
    case DefaultNotAnOption =>
      card.defaultOnTimeout.Some? ==> exists o :: o in card.options && o.id == card.defaultOnTimeout.value
    case OptionWithoutEvidence => forall o | o in card.options :: o.evidence != [] || card.novelStance
    case IdenticalSummaries =>
      forall i, j | 0 <= i < j < |card.options| :: env.normal(card.options[i].summary) != env.normal(card.options[j].summary)
    case MissingAxis => |card.options| == 3 ==> forall o | o in card.options :: o.hasAxis
    case UnknownLevel => true
  }

  lemma IdIsIn(options: seq<Choice>, id: string)
    ensures id in Ids(options) <==> exists o :: o in options && o.id == id
  {
    InIds(options, id);
    if o :| o in options && o.id == id {
      var i :| 0 <= i < |options| && options[i] == o;
      assert options[i].id == id;
    }
  }

  lemma EvidenceMeans(env: Env, m: Matrix, card: Card)
    ensures EvidenceHolds(env, card) <==> Passes(env, m, card, UnresolvableEvidence)
  {
    if EvidenceHolds(env, card) {
      forall r | r in card.evidence && env.resolves.Some? ensures r.noSource || env.resolves.value(r) {
        var i :| 0 <= i < |card.evidence| && card.evidence[i] == r;
        assert Resolves(env, card.evidence[i]);
      }
      forall o, r | o in card.options && r in o.evidence && env.resolves.Some?
        ensures r.noSource || env.resolves.value(r)
      {
        var i :| 0 <= i < |card.options| && card.options[i] == o;
        var j :| 0 <= j < |o.evidence| && o.evidence[j] == r;
        assert Resolves(env, card.options[i].evidence[j]);
      }
    }
  }

  lemma DuplicateChecks(env: Env, m: Matrix, card: Card)
    ensures HasDuplicates(Ids(card.options)) <==> !Passes(env, m, card, DuplicateOptionIds)
    ensures HasDuplicates(Summaries(env, card.options)) <==> !Passes(env, m, card, IdenticalSummaries)
  {
    var ids, sums := Ids(card.options), Summaries(env, card.options);
    DuplicatesAreRepeats(ids);
    DuplicatesAreRepeats(sums);
    assert forall i | 0 <= i < |card.options| :: ids[i] == card.options[i].id;
    assert forall i | 0 <= i < |card.options| :: sums[i] == env.normal(card.options[i].summary);
  }

  lemma IdChecks(env: Env, m: Matrix, card: Card)
    ensures card.recommended in Ids(card.options) <==> Passes(env, m, card, RecommendedNotAnOption)
    ensures card.defaultOnTimeout.Some? ==>
              (card.defaultOnTimeout.value in Ids(card.options) <==> Passes(env, m, card, DefaultNotAnOption))
  {
    IdIsIn(card.options, card.recommended);
    if card.defaultOnTimeout.Some? { IdIsIn(card.options, card.defaultOnTimeout.value); }
  }

  lemma OptionFlags(env: Env, m: Matrix, card: Card)
    ensures Passes(env, m, card, OptionWithoutEvidence)
            <==> !exists i | 0 <= i < |card.options| :: card.options[i].evidence == [] && !card.novelStance
    ensures Passes(env, m, card, MissingAxis)
            <==> !(|card.options| == 3 && exists i | 0 <= i < 3 :: !card.options[i].hasAxis)
  {
    forall o | o in card.options ensures exists i :: 0 <= i < |card.options| && card.options[i] == o {}
    assert forall i | 0 <= i < |card.options| :: card.options[i] in card.options;
  }

  lemma FailsMeans(env: Env, m: Matrix, card: Card, check: CardError)
    ensures Fails(env, m, card, check) <==> !Passes(env, m, card, check)
  {
    match check
    case UnresolvableEvidence => EvidenceMeans(env, m, card);
    case OptionWithoutEvidence => OptionFlags(env, m, card);
    case MissingAxis => OptionFlags(env, m, card);
    case DuplicateOptionIds => DuplicateChecks(env, m, card);
    case RecommendedNotAnOption => IdChecks(env, m, card);
    case DefaultNotAnOption => IdChecks(env, m, card);
    case IdenticalSummaries => DuplicateChecks(env, m, card);
    case _ =>
  }

  lemma FirstFailure(env: Env, m: Matrix, card: Card, check: CardError)
    ensures match Validate(env, m, card)
            case None => !Fails(env, m, card, check)
            case Some(e) => Fails(env, m, card, e) && (Order(check) < Order(e) ==> !Fails(env, m, card, check))
  {
  }

  /** validate_card accepts a card that passes every check; otherwise it reports one that
      the card does not pass, with every check before that one passed. */
  lemma RefusedAtFirst(env: Env, m: Matrix, card: Card)
    ensures Validate(env, m, card).None? <==> PassesAll(env, m, card)
    ensures Validate(env, m, card).Some? ==>
              var failed := Validate(env, m, card).value;
              && !Passes(env, m, card, failed)
              && forall check | Order(check) < Order(failed) :: Passes(env, m, card, check)
  {
    var result := Validate(env, m, card);
    forall check
      ensures result.None? ==> Passes(env, m, card, check)
      ensures result.Some? && Order(check) < Order(result.value) ==> Passes(env, m, card, check)
    {
      FirstFailure(env, m, card, check);
      FailsMeans(env, m, card, check);
    }
    if result.Some? {
      FirstFailure(env, m, card, result.value);
      FailsMeans(env, m, card, result.value);
    }
  }

  ghost predicate PassesAll(env: Env, m: Matrix, card: Card) {
    forall check :: Passes(env, m, card, check)
  }

  lemma OptionsMean(env: Env, m: Matrix, card: Card)
    ensures OptionsHold(env, card.options, card.recommended, card.novelStance) <==>
              && Passes(env, m, card, DuplicateOptionIds) && Passes(env, m, card, IdenticalSummaries)
              && Passes(env, m, card, RecommendedNotAnOption) && Passes(env, m, card, OptionWithoutEvidence)
              && Passes(env, m, card, MissingAxis)
  {
    OptionFlags(env, m, card);
    InIds(card.options, card.recommended);
    IdIsIn(card.options, card.recommended);
  }

  lemma PolicyMeans(env: Env, m: Matrix, card: Card)
    ensures PolicyHolds(m, card) <==>
              && Passes(env, m, card, NonNegotiableWithDefault) && Passes(env, m, card, NonNegotiableNotRealtime)
              && Passes(env, m, card, LowLevelWithDefault) && Passes(env, m, card, DefaultNotAnOption)
  {
    if card.defaultOnTimeout.Some? {
      InIds(card.options, card.defaultOnTimeout.value);
      IdIsIn(card.options, card.defaultOnTimeout.value);
    }
  }

  lemma PassesAllMeans(env: Env, m: Matrix, card: Card)
    ensures PassesAll(env, m, card) <==>
              && env.schemaAccepts(card) && EvidenceHolds(env, card)
              && OptionsHold(env, card.options, card.recommended, card.novelStance)
              && PolicyHolds(m, card)
  {
    EvidenceMeans(env, m, card);
    OptionsMean(env, m, card);
    PolicyMeans(env, m, card);
    assert Passes(env, m, card, SchemaViolation) <==> env.schemaAccepts(card);
    if env.schemaAccepts(card) && EvidenceHolds(env, card)
       && OptionsHold(env, card.options, card.recommended, card.novelStance) && PolicyHolds(m, card) {
      forall check ensures Passes(env, m, card, check) {}
    }
  }

  /** validate_card accepts exactly the cards with good schema, evidence, options and policy. */
  lemma AcceptedMeans(env: Env, m: Matrix, card: Card)
    ensures Validate(env, m, card).None? <==>
              && env.schemaAccepts(card) && EvidenceHolds(env, card)
              && OptionsHold(env, card.options, card.recommended, card.novelStance)
              && PolicyHolds(m, card)
  {
    RefusedAtFirst(env, m, card);
    PassesAllMeans(env, m, card);
  }

  // -- What build_card makes of a draft ----------------------------------------------------

  /** The matrix says what to do at this level, if that is needed. */
  ghost predicate KnownLevel(m: Matrix, d: Draft) {
    d.kind in m.nonNegotiable || (0 <= d.level <= 4 && d.level in m.levels)
  }

  /** The card is the draft, with what the matrix derives from kind and level. */
  ghost predicate FitsDraft(m: Matrix, d: Draft, card: Card)
    requires KnownLevel(m, d)
  {
    var strict := d.kind in m.nonNegotiable;
    && (card.cardId, card.kind, card.level, card.functionId) == (d.cardId, d.kind, d.level, d.functionId)
    && (card.options, card.recommended, card.evidence) == (d.options, d.recommended, d.evidence)
    && card.novelStance == d.novelStance && card.createdAt == d.now
    && (card.budgetClass == if strict then Realtime else Digest)
    && (card.defaultOnTimeout == if GetsDefault(m, d) then Some(d.recommended) else None)
    && (strict ==> card.riskTier == NonNegotiable)
    && (!strict && d.level == 0 ==> card.riskTier == High)
    && (!strict && d.level == 1 ==> card.riskTier == Medium)
    && (!strict && d.level >= 2 ==> card.riskTier == Low)
    && card.expiresAt == d.now + Lifetime(m, d)
  }

  /** The hours a card lives: those the producer gives; else 72 for a non-negotiable kind,
      the level's own or else 48 with a default, and 120 without; zero counts as none. */
  ghost function Lifetime(m: Matrix, d: Draft): (hours: int)
    requires KnownLevel(m, d)
    ensures d.expiresHours.Some? && d.expiresHours.value != 0 ==> hours == d.expiresHours.value
    ensures d.expiresHours.GetOr(0) == 0 && d.kind in m.nonNegotiable ==> hours == 72
    ensures d.expiresHours.GetOr(0) == 0 && GetsDefault(m, d) ==>
              if m.levels[d.level].defaultHours.GetOr(0) != 0 then hours == m.levels[d.level].defaultHours.value
              else hours == 48
    ensures d.expiresHours.GetOr(0) == 0 && d.kind !in m.nonNegotiable && !GetsDefault(m, d) ==> hours == 120
  {
    if d.expiresHours.GetOr(0) != 0 then d.expiresHours.value
    else if d.kind in m.nonNegotiable then 72
    else if !GetsDefault(m, d) then 120
    else if m.levels[d.level].defaultHours.GetOr(0) != 0 then m.levels[d.level].defaultHours.value
    else 48
  }

  /** build_card returns the draft's card exactly when the level is known and validate_card
      accepts that card; otherwise it reports the level, or what validate_card reports. */
  lemma BuildMeans(env: Env, m: Matrix, d: Draft, card: Card)
    ensures !KnownLevel(m, d) ==> Build(env, m, d) == Err(UnknownLevel)
    ensures KnownLevel(m, d) && FitsDraft(m, d, card) ==>
              Build(env, m, d) == if Validate(env, m, card).Some? then Err(Validate(env, m, card).value) else Ok(card)
    ensures Build(env, m, d).Ok? ==> KnownLevel(m, d) && FitsDraft(m, d, Build(env, m, d).value)
  {
    if KnownLevel(m, d) && FitsDraft(m, d, card) {
      assert Derived(m, d) == Ok(card);
    }
  }

  /** build_card succeeds exactly when the level is known (a non-negotiable kind needs
      none), schema, evidence and options hold, and the matrix does not let a level 0 or
      1 draft default. */
  lemma BuildSucceeds(env: Env, m: Matrix, d: Draft)
    ensures Build(env, m, d).Ok? <==>
              && Derived(m, d).Ok?
              && env.schemaAccepts(Derived(m, d).value) && EvidenceHolds(env, Derived(m, d).value)
              && OptionsHold(env, d.options, d.recommended, d.novelStance)
              && !(d.level <= 1 && GetsDefault(m, d))
    ensures Derived(m, d).Ok? <==> d.kind in m.nonNegotiable || (0 <= d.level <= 4 && d.level in m.levels)
    ensures Build(env, m, d).Ok? ==>
              && (Build(env, m, d).value.defaultOnTimeout == if GetsDefault(m, d) then Some(d.recommended) else None)
              && (Build(env, m, d).value.budgetClass == Realtime <==> d.kind in m.nonNegotiable)
  {
    if Derived(m, d).Ok? {
      AcceptedMeans(env, m, Derived(m, d).value);
    }
  }

  /** With a matrix that denies defaults at levels 0 and 1, no derived card is ever
      refused on policy. */
  lemma DerivedCardsMeetPolicy(env: Env, m: Matrix, d: Draft)
    requires forall l | l in m.levels && l <= 1 :: !m.levels[l].defaultAllowed
    requires Derived(m, d).Ok? && OptionsHold(env, d.options, d.recommended, d.novelStance)
    ensures PolicyHolds(m, Derived(m, d).value)
  {
  }
}
