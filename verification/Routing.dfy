/** route: pending option cards into six buckets, and the ranked, budgeted digest. */
module Routing {
  import opened Common
  import opened Cards

  /** A standing permission; condition is its eval over card and context, None when it
      raises.  No functions means any function. */
  datatype Permission = Permission(
    id: string, active: bool, kinds: seq<string>, exclusions: seq<string>, functions: seq<nat>,
    condition: Card -> Option<bool>, autoApproves: bool)

  /** permission_matches */
  predicate Matches(m: Matrix, p: Permission, card: Card) {
    && p.active
    && card.kind in p.kinds && card.kind !in p.exclusions && card.kind !in m.nonNegotiable
    && (p.functions == [] || card.functionId in p.functions)
    && p.condition(card) == Some(true)
  }

  /** The first permission that matches. */
  function FirstMatch(m: Matrix, perms: seq<Permission>, card: Card): Option<Permission> {
    if perms == [] then None
    else if Matches(m, perms[0], card) then Some(perms[0])
    else FirstMatch(m, perms[1..], card)
  }

  datatype Setting = Setting(matrix: Matrix, perms: seq<Permission>, now: int, resurfaced: set<string>)

  datatype Bucket = AutoResolved | TimeoutDefault | ExpiredUnresolved | SecondShowing | RealtimeNow | ForDigest

  /** Where a card goes. */
  function BucketOf(st: Setting, card: Card): Bucket {
    var p := FirstMatch(st.matrix, st.perms, card);
    if p.Some? && p.value.autoApproves then AutoResolved
    else if card.expiresAt <= st.now then
      if card.defaultOnTimeout.Some? then TimeoutDefault
      else if card.cardId in st.resurfaced then ExpiredUnresolved
      else SecondShowing
    else if card.budgetClass == Realtime then RealtimeNow
    else ForDigest
  }

  /** The cards that go to one bucket, in order. */
  function Of(st: Setting, b: Bucket, cards: seq<Card>): seq<Card> {
    if cards == [] then []
    else if BucketOf(st, cards[|cards| - 1]) == b then Of(st, b, cards[..|cards| - 1]) + [cards[|cards| - 1]]
    else Of(st, b, cards[..|cards| - 1])
  }

  /** Auto-resolved cards with the id of the permission that resolved them. */
  function WithIds(st: Setting, cards: seq<Card>): seq<(Card, string)> {
    seq(|cards|, i requires 0 <= i < |cards| =>
      (cards[i], match FirstMatch(st.matrix, st.perms, cards[i]) case Some(p) => p.id case None => ""))
  }

  datatype RoutingResult = RoutingResult(
    sent: seq<Card>, autoResolved: seq<(Card, string)>, timeoutDefaults: seq<Card>,
    expiredUnresolved: seq<Card>, queuedOverflow: seq<Card>, escalations: seq<Card>)

  // -- Ranking -------------------------------------------------------------------------

  function Score(scores: map<string, real>, card: Card): real {
    if card.cardId in scores then scores[card.cardId] else 0.0
  }

  function Insert(scores: map<string, real>, card: Card, ranked: seq<Card>): seq<Card> {
    if ranked == [] || Score(scores, card) >= Score(scores, ranked[0]) then [card] + ranked
    else [ranked[0]] + Insert(scores, card, ranked[1..])
  }

  /** list.sort(key=score, reverse=True), which keeps the order of equal keys. */
  function Ranked(scores: map<string, real>, cards: seq<Card>): seq<Card> {
    if cards == [] then [] else Insert(scores, cards[0], Ranked(scores, cards[1..]))
  }

  ghost predicate Descending(scores: map<string, real>, cards: seq<Card>) {
    forall i, j | 0 <= i < j < |cards| :: Score(scores, cards[i]) >= Score(scores, cards[j])
  }

  /** The cards of one score, in order. */
  function Scoring(scores: map<string, real>, v: real, cards: seq<Card>): seq<Card> {
    if cards == [] then []
    else if Score(scores, cards[0]) == v then [cards[0]] + Scoring(scores, v, cards[1..])
    else Scoring(scores, v, cards[1..])
  }

  lemma {:induction false} InsertHolds(scores: map<string, real>, card: Card, ranked: seq<Card>)
    ensures multiset(Insert(scores, card, ranked)) == multiset{card} + multiset(ranked)
  {
    if ranked != [] && Score(scores, card) < Score(scores, ranked[0]) {
      InsertHolds(scores, card, ranked[1..]);
      assert ranked == [ranked[0]] + ranked[1..];
    }
  }

  lemma {:induction false} InsertDescends(scores: map<string, real>, card: Card, ranked: seq<Card>)
    requires Descending(scores, ranked)
    ensures Descending(scores, Insert(scores, card, ranked))
  {
    if ranked != [] && Score(scores, card) < Score(scores, ranked[0]) {
      var rest := Insert(scores, card, ranked[1..]);
      InsertDescends(scores, card, ranked[1..]);
      InsertHolds(scores, card, ranked[1..]);
      forall i | 0 <= i < |rest| ensures Score(scores, rest[i]) <= Score(scores, ranked[0]) {
        assert rest[i] in multiset(rest);
        assert rest[i] == card || rest[i] in ranked[1..];
      }
    }
  }

  lemma {:induction false} InsertIsStable(scores: map<string, real>, card: Card, ranked: seq<Card>, v: real)
    ensures Scoring(scores, v, Insert(scores, card, ranked)) == Scoring(scores, v, [card] + ranked)
  {
    assert ([card] + ranked)[1..] == ranked;
    if ranked != [] && Score(scores, card) < Score(scores, ranked[0]) {
      var rest := Insert(scores, card, ranked[1..]);
      InsertIsStable(scores, card, ranked[1..], v);
      assert ([ranked[0]] + rest)[1..] == rest;
      assert ([card] + ranked[1..])[1..] == ranked[1..];
    }
  }

  /** The ranking holds the same cards, in descending order of score. */
  lemma {:induction false} RankedDescends(scores: map<string, real>, cards: seq<Card>)
    ensures Descending(scores, Ranked(scores, cards))
    ensures multiset(Ranked(scores, cards)) == multiset(cards)
  {
    if cards != [] {
      RankedDescends(scores, cards[1..]);
      var tail := Ranked(scores, cards[1..]);
      InsertHolds(scores, cards[0], tail);
      InsertDescends(scores, cards[0], tail);
      assert cards == [cards[0]] + cards[1..];
    }
  }

  /** Descending means: by the value the scores give, and a card without one counts zero. */
  lemma DescendingMeans(scores: map<string, real>, cards: seq<Card>, i: nat, j: nat)
    requires Descending(scores, cards) && i < j < |cards|
    ensures var a, b := cards[i].cardId, cards[j].cardId;
            && (a in scores && b in scores ==> scores[a] >= scores[b])
            && (a in scores && b !in scores ==> scores[a] >= 0.0)
            && (a !in scores && b in scores ==> 0.0 >= scores[b])
  {
    assert Score(scores, cards[i]) >= Score(scores, cards[j]);
  }

  /** The ranking is stable: the cards of each score keep their input order. */
  lemma {:induction false} RankedIsStable(scores: map<string, real>, cards: seq<Card>, v: real)
    ensures Scoring(scores, v, Ranked(scores, cards)) == Scoring(scores, v, cards)
  {
    if cards != [] {
      RankedIsStable(scores, cards[1..], v);
      var tail := Ranked(scores, cards[1..]);
      InsertIsStable(scores, cards[0], tail, v);
      assert ([cards[0]] + tail)[1..] == tail;
    }
  }

  // -- Where a card goes, by its own fields -----------------------------------------------

  /** Something about this permission keeps it from approving this card. */
  ghost predicate Bars(m: Matrix, p: Permission, card: Card) {
    || !p.active
    || card.kind !in p.kinds
    || card.kind in p.exclusions
    || card.kind in m.nonNegotiable
    || (p.functions != [] && card.functionId !in p.functions)
    || p.condition(card).None? || !p.condition(card).value
  }

  /** Permission number k is the first that nothing keeps from approving the card. */
  ghost predicate FirstToMatch(st: Setting, card: Card, k: nat) {
    && k < |st.perms| && !Bars(st.matrix, st.perms[k], card)
    && forall j | 0 <= j < k :: Bars(st.matrix, st.perms[j], card)
  }

  /** The first permission that matches approves the card, and has this id. */
  ghost predicate ApprovedBy(st: Setting, card: Card, id: string) {
    exists k: nat :: FirstToMatch(st, card, k) && st.perms[k].autoApproves && st.perms[k].id == id
  }

  ghost predicate Approved(st: Setting, card: Card) { exists id :: ApprovedBy(st, card, id) }

  /** These lists hold, of the pending cards, exactly those with these fields. */
  ghost predicate ByFields(pending: seq<Card>, st: Setting, r: RoutingResult, card: Card) {
    var open := card in pending && !Approved(st, card);
    && (forall id :: (card, id) in r.autoResolved <==> card in pending && ApprovedBy(st, card, id))
    && (card in r.timeoutDefaults <==> open && card.expiresAt <= st.now && card.defaultOnTimeout.Some?)
    && (card in r.expiredUnresolved <==>
          open && card.expiresAt <= st.now && card.defaultOnTimeout.None? && card.cardId in st.resurfaced)
    && (card in r.escalations <==>
          open && if card.expiresAt <= st.now then card.defaultOnTimeout.None? && card.cardId !in st.resurfaced
                  else card.budgetClass == Realtime)
    && (card in r.sent + r.queuedOverflow <==> open && card.expiresAt > st.now && card.budgetClass == Digest)
  }

  lemma {:induction false} FirstMatchIs(st: Setting, card: Card, i: nat)
    requires i <= |st.perms| && forall j | 0 <= j < i :: Bars(st.matrix, st.perms[j], card)
    ensures var matched := FirstMatch(st.matrix, st.perms[i..], card);
            && (matched.None? ==> forall k | 0 <= k < |st.perms| :: Bars(st.matrix, st.perms[k], card))
            && (matched.Some? ==> exists k: nat :: FirstToMatch(st, card, k) && st.perms[k] == matched.value)
    decreases |st.perms| - i
  {
    if i < |st.perms| {
      assert st.perms[i..][1..] == st.perms[i + 1..];
      if Matches(st.matrix, st.perms[i], card) {
        assert FirstToMatch(st, card, i);
      } else {
        assert Bars(st.matrix, st.perms[i], card);
        FirstMatchIs(st, card, i + 1);
      }
    }
  }

  lemma OnlyOneIsFirst(st: Setting, card: Card, j: nat, k: nat)
    requires FirstToMatch(st, card, j) && FirstToMatch(st, card, k)
    ensures j == k
  {
  }

  lemma ApprovedIs(st: Setting, card: Card, id: string)
    ensures var matched := FirstMatch(st.matrix, st.perms, card);
            ApprovedBy(st, card, id) <==> matched.Some? && matched.value.autoApproves && matched.value.id == id
  {
    assert st.perms[0..] == st.perms;
    FirstMatchIs(st, card, 0);
    var matched := FirstMatch(st.matrix, st.perms, card);
    if matched.Some? {
      var j: nat :| FirstToMatch(st, card, j) && st.perms[j] == matched.value;
      forall k: nat | FirstToMatch(st, card, k) ensures k == j { OnlyOneIsFirst(st, card, k, j); }
    }
  }

  /** The buckets by fields. */
  lemma BucketMeans(st: Setting, card: Card)
    ensures var open := !Approved(st, card);
            var expired := card.expiresAt <= st.now;
            && (BucketOf(st, card) == AutoResolved <==> !open)
            && (BucketOf(st, card) == TimeoutDefault <==> open && expired && card.defaultOnTimeout.Some?)
            && (BucketOf(st, card) == ExpiredUnresolved <==>
                  open && expired && card.defaultOnTimeout.None? && card.cardId in st.resurfaced)
            && (BucketOf(st, card) == SecondShowing <==>
                  open && expired && card.defaultOnTimeout.None? && card.cardId !in st.resurfaced)
            && (BucketOf(st, card) == RealtimeNow <==> open && !expired && card.budgetClass == Realtime)
            && (BucketOf(st, card) == ForDigest <==> open && !expired && card.budgetClass == Digest)
  {
    var matched := FirstMatch(st.matrix, st.perms, card);
    if matched.Some? { ApprovedIs(st, card, matched.value.id); }
    forall id ensures ApprovedBy(st, card, id) ==> matched.Some? && matched.value.autoApproves { ApprovedIs(st, card, id); }
  }

  lemma {:induction false} OfMembers(st: Setting, b: Bucket, cards: seq<Card>, c: Card)
    ensures c in Of(st, b, cards) <==> c in cards && BucketOf(st, c) == b
    decreases |cards|
  {
    if cards != [] {
      OfMembers(st, b, cards[..|cards| - 1], c);
      assert c in cards <==> c in cards[..|cards| - 1] || c == cards[|cards| - 1];
    }
  }

  /** A bucket keeps the order in which its cards were pending. */
  lemma {:induction false} OfKeepsOrder(st: Setting, b: Bucket, cards: seq<Card>)
    ensures Subsequence(Of(st, b, cards), cards)
    decreases |cards|
  {
    if cards != [] { OfKeepsOrder(st, b, cards[..|cards| - 1]); }
  }

  lemma IdsOf(st: Setting, cards: seq<Card>, card: Card, id: string)
    requires forall c | c in cards :: FirstMatch(st.matrix, st.perms, c).Some?
    ensures (card, id) in WithIds(st, cards) <==> card in cards && FirstMatch(st.matrix, st.perms, card).value.id == id
  {
    var ids := WithIds(st, cards);
    if card in cards {
      var i :| 0 <= i < |cards| && cards[i] == card;
      assert ids[i].0 == card;
    }
    if (card, id) in ids {
      var i :| 0 <= i < |ids| && ids[i] == (card, id);
      assert cards[i] == card;
    }
  }

  /** What route computes sorts the cards by their own fields. */
  lemma ListsAreByFields(pending: seq<Card>, st: Setting, scores: map<string, real>, r: RoutingResult, card: Card)
    requires r.autoResolved == WithIds(st, Of(st, AutoResolved, pending))
    requires r.timeoutDefaults == Of(st, TimeoutDefault, pending)
    requires r.expiredUnresolved == Of(st, ExpiredUnresolved, pending)
    requires r.escalations == Of(st, SecondShowing, pending) + Of(st, RealtimeNow, pending)
    requires r.sent + r.queuedOverflow == Ranked(scores, Of(st, ForDigest, pending))
    ensures ByFields(pending, st, r, card)
  {
    BucketMeans(st, card);
    forall b: Bucket ensures card in Of(st, b, pending) <==> card in pending && BucketOf(st, card) == b {
      OfMembers(st, b, pending, card);
    }
    RankedKeeps(scores, Of(st, ForDigest, pending), card);
    forall id ensures (card, id) in r.autoResolved <==> card in pending && ApprovedBy(st, card, id) {
      ResolvedIs(pending, st, card, id);
    }
  }

  lemma RankedKeeps(scores: map<string, real>, cards: seq<Card>, card: Card)
    ensures card in Ranked(scores, cards) <==> card in cards
  {
    RankedDescends(scores, cards);
    assert card in multiset(Ranked(scores, cards)) <==> card in multiset(cards);
  }

  lemma ResolvedIs(pending: seq<Card>, st: Setting, card: Card, id: string)
    ensures (card, id) in WithIds(st, Of(st, AutoResolved, pending)) <==> card in pending && ApprovedBy(st, card, id)
  {
    var auto := Of(st, AutoResolved, pending);
    forall c | c in auto ensures FirstMatch(st.matrix, st.perms, c).Some? {
      OfMembers(st, AutoResolved, pending, c);
    }
    OfMembers(st, AutoResolved, pending, card);
    IdsOf(st, auto, card, id);
    ApprovedIs(st, card, id);
  }

  // -- The code --------------------------------------------------------------------------

  /** The first loop: permissions, then timeouts. */
  method Triage(pending: seq<Card>, st: Setting)
    returns (auto: seq<(Card, string)>, defaults: seq<Card>, expired: seq<Card>, escalated: seq<Card>, remaining: seq<Card>)
    ensures auto == WithIds(st, Of(st, AutoResolved, pending))
    ensures defaults == Of(st, TimeoutDefault, pending)
    ensures expired == Of(st, ExpiredUnresolved, pending)
    ensures escalated == Of(st, SecondShowing, pending)
    ensures Of(st, RealtimeNow, remaining) == Of(st, RealtimeNow, pending)
    ensures Of(st, ForDigest, remaining) == Of(st, ForDigest, pending)
    ensures forall c | c in remaining :: BucketOf(st, c) in {RealtimeNow, ForDigest}
  {
    auto, defaults, expired, escalated, remaining := [], [], [], [], [];
    for i := 0 to |pending|
      invariant auto == WithIds(st, Of(st, AutoResolved, pending[..i]))
      invariant defaults == Of(st, TimeoutDefault, pending[..i])
      invariant expired == Of(st, ExpiredUnresolved, pending[..i])
      invariant escalated == Of(st, SecondShowing, pending[..i])
      invariant Of(st, RealtimeNow, remaining) == Of(st, RealtimeNow, pending[..i])
      invariant Of(st, ForDigest, remaining) == Of(st, ForDigest, pending[..i])
      invariant forall c | c in remaining :: BucketOf(st, c) in {RealtimeNow, ForDigest}
    {
      var card := pending[i];
      assert pending[..i + 1][..i] == pending[..i];
      assert (remaining + [card])[..|remaining|] == remaining;
      var matched := FirstMatch(st.matrix, st.perms, card);
      if matched.Some? && matched.value.autoApproves {
        auto := auto + [(card, matched.value.id)];
      } else if card.expiresAt <= st.now {
        if card.defaultOnTimeout.Some? {
          defaults := defaults + [card];
        } else if card.cardId in st.resurfaced {
          expired := expired + [card];
        } else {
          escalated := escalated + [card];
        }
      } else {
        remaining := remaining + [card];
      }
    }
    assert pending[..|pending|] == pending;
  }

  /** The second loop: realtime cards bypass the budget. */
  method SplitRealtime(remaining: seq<Card>, st: Setting, already: seq<Card>)
    returns (escalated: seq<Card>, digest: seq<Card>)
    requires forall c | c in remaining :: BucketOf(st, c) in {RealtimeNow, ForDigest}
    ensures escalated == already + Of(st, RealtimeNow, remaining)
    ensures digest == Of(st, ForDigest, remaining)
  {
    escalated, digest := already, [];
    for i := 0 to |remaining|
      invariant escalated == already + Of(st, RealtimeNow, remaining[..i])
      invariant digest == Of(st, ForDigest, remaining[..i])
    {
      assert remaining[..i + 1][..i] == remaining[..i];
      assert remaining[i] in remaining;
      if remaining[i].budgetClass == Realtime {
        escalated := escalated + [remaining[i]];
      } else {
        digest := digest + [remaining[i]];
      }
    }
    assert remaining[..|remaining|] == remaining;
  }

  function Slots(st: Setting, realtimeSentToday: int): nat {
    if st.matrix.cardsPerDay > realtimeSentToday then st.matrix.cardsPerDay - realtimeSentToday else 0
  }

  /** route */
  method Route(pending: seq<Card>, st: Setting, realtimeSentToday: int, scores: map<string, real>)
    returns (r: RoutingResult)
    ensures r.autoResolved == WithIds(st, Of(st, AutoResolved, pending))
    ensures r.timeoutDefaults == Of(st, TimeoutDefault, pending)
    ensures r.expiredUnresolved == Of(st, ExpiredUnresolved, pending)
    ensures r.escalations == Of(st, SecondShowing, pending) + Of(st, RealtimeNow, pending)
    ensures r.sent + r.queuedOverflow == Ranked(scores, Of(st, ForDigest, pending))
    ensures forall card :: ByFields(pending, st, r, card)
    ensures r.sent == [] || |r.sent| <= st.matrix.cardsPerDay - realtimeSentToday
    ensures r.queuedOverflow == [] || |r.sent| >= st.matrix.cardsPerDay - realtimeSentToday
  {
    var auto, defaults, expired, escalated, remaining := Triage(pending, st);
    var escalations, digest := SplitRealtime(remaining, st, escalated);
    digest := Ranked(scores, digest);
    var slots := Slots(st, realtimeSentToday);
    var cut := if slots < |digest| then slots else |digest|;
    r := RoutingResult(digest[..cut], auto, defaults, expired, digest[cut..], escalations);
    forall card ensures ByFields(pending, st, r, card) { ListsAreByFields(pending, st, scores, r, card); }
  }

  // -- Every card lands in exactly one bucket ----------------------------------------------

  /** A bucket holds its own cards as often as they were pending, and no others. */
  lemma {:induction false} OfCount(st: Setting, b: Bucket, cards: seq<Card>, c: Card)
    ensures multiset(Of(st, b, cards))[c] == if BucketOf(st, c) == b then multiset(cards)[c] else 0
    decreases |cards|
  {
    if cards != [] {
      OfCount(st, b, cards[..|cards| - 1], c);
      assert cards == cards[..|cards| - 1] + [cards[|cards| - 1]];
    }
  }

  lemma OfPartition(st: Setting, cards: seq<Card>)
    ensures multiset(cards) ==
              multiset(Of(st, AutoResolved, cards)) + multiset(Of(st, TimeoutDefault, cards))
              + multiset(Of(st, ExpiredUnresolved, cards)) + multiset(Of(st, SecondShowing, cards))
              + multiset(Of(st, RealtimeNow, cards)) + multiset(Of(st, ForDigest, cards))
  {
    forall b: Bucket, c { OfCount(st, b, cards, c); }
  }

  function CardsOf(auto: seq<(Card, string)>): seq<Card> {
    seq(|auto|, i requires 0 <= i < |auto| => auto[i].0)
  }

  /** The six buckets together hold every pending card as often as it was pending. */
  lemma RouteIsPartition(pending: seq<Card>, st: Setting, scores: map<string, real>, r: RoutingResult)
    requires r.autoResolved == WithIds(st, Of(st, AutoResolved, pending))
    requires r.timeoutDefaults == Of(st, TimeoutDefault, pending)
    requires r.expiredUnresolved == Of(st, ExpiredUnresolved, pending)
    requires r.escalations == Of(st, SecondShowing, pending) + Of(st, RealtimeNow, pending)
    requires r.sent + r.queuedOverflow == Ranked(scores, Of(st, ForDigest, pending))
    ensures multiset(pending) ==
              multiset(r.sent) + multiset(CardsOf(r.autoResolved)) + multiset(r.timeoutDefaults)
              + multiset(r.expiredUnresolved) + multiset(r.queuedOverflow) + multiset(r.escalations)
  {
    OfPartition(st, pending);
    RankedDescends(scores, Of(st, ForDigest, pending));
    assert multiset(r.sent + r.queuedOverflow) == multiset(r.sent) + multiset(r.queuedOverflow);
    assert CardsOf(r.autoResolved) == Of(st, AutoResolved, pending);
  }

  // -- What validated cards are safe from ----------------------------------------------------

  lemma {:induction false} FirstMatchMatches(m: Matrix, perms: seq<Permission>, card: Card)
    ensures FirstMatch(m, perms, card).Some? ==> Matches(m, FirstMatch(m, perms, card).value, card)
  {
    if perms != [] { FirstMatchMatches(m, perms[1..], card); }
  }

  /** A card validate_card accepts under the same matrix: of a non-negotiable kind it is
      only ever escalated or expired; at level 0 or 1 it is never decided by timeout. */
  lemma ValidatedCardsAreSafe(env: Env, st: Setting, card: Card)
    requires Validate(env, st.matrix, card).None?
    ensures card.kind in st.matrix.nonNegotiable ==>
              BucketOf(st, card) in {SecondShowing, RealtimeNow, ExpiredUnresolved}
    ensures card.level <= 1 ==> BucketOf(st, card) != TimeoutDefault
  {
    AcceptedMeans(env, st.matrix, card);
    FirstMatchMatches(st.matrix, st.perms, card);
  }

  /** The same, read off the result of a whole routing. */
  lemma RouteIsSafe(env: Env, pending: seq<Card>, st: Setting, scores: map<string, real>, r: RoutingResult, card: Card)
    requires forall c | c in pending :: Validate(env, st.matrix, c).None?
    requires r.autoResolved == WithIds(st, Of(st, AutoResolved, pending))
    requires r.timeoutDefaults == Of(st, TimeoutDefault, pending)
    requires r.sent + r.queuedOverflow == Ranked(scores, Of(st, ForDigest, pending))
    ensures card.kind in st.matrix.nonNegotiable ==>
              && card !in CardsOf(r.autoResolved) && card !in r.timeoutDefaults
              && card !in r.sent && card !in r.queuedOverflow
    ensures card.level <= 1 ==> card !in r.timeoutDefaults
  {
    if card in pending { ValidatedCardsAreSafe(env, st, card); }
    OfMembers(st, AutoResolved, pending, card);
    OfMembers(st, TimeoutDefault, pending, card);
    OfMembers(st, ForDigest, pending, card);
    RankedDescends(scores, Of(st, ForDigest, pending));
    assert CardsOf(r.autoResolved) == Of(st, AutoResolved, pending);
    assert card in r.sent + r.queuedOverflow <==> card in r.sent || card in r.queuedOverflow;
    assert card in multiset(Ranked(scores, Of(st, ForDigest, pending))) <==> card in multiset(Of(st, ForDigest, pending));
  }

  // -- The budget goes to the best cards --------------------------------------------------------

  function Total(scores: map<string, real>, cards: seq<Card>): real {
    SumBy(ScoreOf(scores), cards)
  }

  function ScoreOf(scores: map<string, real>): Card -> real { (c: Card) => Score(scores, c) }

  function Removed(cards: seq<Card>, k: nat): seq<Card>
    requires k < |cards|
  {
    cards[..k] + cards[k + 1..]
  }

  lemma TotalRemove(scores: map<string, real>, cards: seq<Card>, k: nat)
    requires k < |cards|
    ensures Total(scores, cards) == Score(scores, cards[k]) + Total(scores, Removed(cards, k))
    ensures multiset(cards) == multiset(Removed(cards, k)) + multiset{cards[k]}
  {
    var f := ScoreOf(scores);
    assert cards == cards[..k] + ([cards[k]] + cards[k + 1..]);
    SumByAppend(f, cards[..k], [cards[k]] + cards[k + 1..]);
    SumByAppend(f, [cards[k]], cards[k + 1..]);
    SumByAppend(f, cards[..k], cards[k + 1..]);
    assert SumBy(f, [cards[k]]) == f(cards[k]);
  }

  /** Take the best card of the list if it was chosen, else any: what is left of the
      choice is a choice from the rest of the list. */
  lemma Pick(scores: map<string, real>, ranked: seq<Card>, chosen: seq<Card>) returns (k: nat)
    requires multiset(chosen) <= multiset(ranked) && chosen != [] && ranked != []
    ensures k < |chosen| && chosen[k] in ranked
    ensures multiset(Removed(chosen, k)) <= multiset(ranked[1..])
  {
    var best := ranked[0];
    assert ranked == [best] + ranked[1..];
    k := 0;
    if best in chosen {
      k :| 0 <= k < |chosen| && chosen[k] == best;
    } else {
      assert multiset(chosen)[best] == 0;
    }
    TotalRemove(scores, chosen, k);
    assert chosen[k] in multiset(chosen);
    forall c ensures multiset(Removed(chosen, k))[c] <= multiset(ranked[1..])[c] {
      assert multiset(chosen)[c] <= multiset(ranked)[c];
    }
  }

  /** No choice of as many cards from a descending list beats its first cards. */
  lemma {:induction false} HeadIsBest(scores: map<string, real>, ranked: seq<Card>, chosen: seq<Card>)
    requires Descending(scores, ranked) && multiset(chosen) <= multiset(ranked) && |chosen| <= |ranked|
    ensures Total(scores, chosen) <= Total(scores, ranked[..|chosen|])
    decreases |chosen|
  {
    if chosen != [] {
      var k := Pick(scores, ranked, chosen);
      TotalRemove(scores, chosen, k);
      HeadIsBest(scores, ranked[1..], Removed(chosen, k));
      var head := ranked[..|chosen|];
      assert head[0] == ranked[0] && head[1..] == ranked[1..][..|chosen| - 1];
    }
  }

  /** What is sent has the largest total score of any choice of that many digest cards. */
  lemma SentIsOptimal(pending: seq<Card>, st: Setting, scores: map<string, real>, r: RoutingResult, chosen: seq<Card>)
    requires r.sent + r.queuedOverflow == Ranked(scores, Of(st, ForDigest, pending))
    requires multiset(chosen) <= multiset(Of(st, ForDigest, pending)) && |chosen| == |r.sent|
    ensures Total(scores, chosen) <= Total(scores, r.sent)
  {
    var ranked := Ranked(scores, Of(st, ForDigest, pending));
    RankedDescends(scores, Of(st, ForDigest, pending));
    HeadIsBest(scores, ranked, chosen);
    assert ranked[..|r.sent|] == r.sent;
  }
}
