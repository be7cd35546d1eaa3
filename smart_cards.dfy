/** `GET /api/cards/smart`: every card of a deck tagged with its mastery level,
    shuffled with Fisher–Yates and cut to a limit, plus a small stats object.

    `Math.random()` is injected: `rand[i]` is the value it returns at the step
    that fills position `i`, a real in [0, 1). */
module SmartCards {
  import opened Base
  import Evaluate

  datatype MasteryLevel = New | Red | Yellow | Green

  /** `getMasteryLevel`. */
  function MasteryOf(lastScore: Option<real>): (m: MasteryLevel)
    ensures m == New <==> lastScore.None?
    ensures m == Red <==> lastScore.Some? && lastScore.value < 5.0
    ensures m == Yellow <==> lastScore.Some? && 5.0 <= lastScore.value < 8.0
    ensures m == Green <==> lastScore.Some? && lastScore.value >= 8.0
  {
    if lastScore.None? then New
    else if lastScore.value < 5.0 then Red
    else if lastScore.value < 8.0 then Yellow
    else Green
  }

  /** The mastery buckets and the scheduling bands share their thresholds: a red card is one
      whose last evaluation reset the interval to 0, a green one is in review, and a yellow
      one is in learning with an interval of one to three days. */
  lemma {:induction false} MasteryMatchesSchedule(ease: int, interval: int, score: real)
    requires interval >= 0
    ensures var r := Evaluate.SipUpdate(ease, interval, score);
      && (MasteryOf(Some(score)) == Red <==> r.interval == 0)
      && (MasteryOf(Some(score)) == Green <==> r.state == Evaluate.Review)
      && (MasteryOf(Some(score)) == Yellow <==> r.state == Evaluate.Learning && 1 <= r.interval <= 3)
  {
    if Evaluate.FailBelow <= score < Evaluate.PassFrom {
      Evaluate.PartialShortens(ease, interval, score);
    }
  }

  // ---------------------------------------------------------------------------
  // shuffleArray

  predicate RandomDraws(rand: seq<real>, n: nat) {
    |rand| >= n && forall k :: 0 <= k < |rand| ==> 0.0 <= rand[k] < 1.0
  }

  /** `Math.floor(Math.random() * (i + 1))`: a partner index between 0 and i. */
  function Partner(rand: seq<real>, i: nat): (j: nat)
    requires i < |rand| && 0.0 <= rand[i] < 1.0
    ensures j <= i
  {
    var x := rand[i] * (i + 1) as real;
    assert 0.0 <= x < (i + 1) as real by {
      ProductBelow(rand[i], (i + 1) as real);
    }
    x.Floor
  }

  lemma ProductBelow(r: real, b: real)
    requires 0.0 <= r < 1.0 && b > 0.0
    ensures 0.0 <= r * b < b
  {
  }

  function SwapAt<T>(s: seq<T>, i: nat, j: nat): (r: seq<T>)
    requires i < |s| && j < |s|
    ensures |r| == |s|
  {
    s[i := s[j]][j := s[i]]
  }

  lemma SwapPermutes<T>(s: seq<T>, i: nat, j: nat)
    requires i < |s| && j < |s|
    ensures multiset(SwapAt(s, i, j)) == multiset(s)
  {
  }

  /** Partner indices for positions 0 to n-1, each at most its own position. */
  predicate PartnersFor(p: seq<nat>, n: nat) {
    |p| == n && forall k :: 0 <= k < n ==> p[k] <= k
  }

  /** The partner drawn for every position. */
  function Partners(rand: seq<real>, n: nat): (p: seq<nat>)
    requires RandomDraws(rand, n)
    ensures PartnersFor(p, n)
    ensures forall k :: 0 <= k < n ==> p[k] == Partner(rand, k)
  {
    seq(n, k requires 0 <= k < n => Partner(rand, k))
  }

  /** The Fisher–Yates steps for positions i, i-1, ..., 1 applied to `s`, with the
      partners `p`. */
  function ShuffledFrom<T>(s: seq<T>, i: int, p: seq<nat>): (r: seq<T>)
    requires i < |s| && PartnersFor(p, |s|)
    ensures |r| == |s|
    decreases i
  {
    if i <= 0 then s else ShuffledFrom(SwapAt(s, i, p[i]), i - 1, p)
  }

  function Shuffled<T>(s: seq<T>, rand: seq<real>): (r: seq<T>)
    requires RandomDraws(rand, |s|)
  {
    ShuffledFrom(s, |s| - 1, Partners(rand, |s|))
  }

  /** The shuffle is a permutation: same length, same elements, each as often. */
  lemma {:induction false} ShuffledFromPermutation<T>(s: seq<T>, i: int, p: seq<nat>)
    requires i < |s| && PartnersFor(p, |s|)
    ensures multiset(ShuffledFrom(s, i, p)) == multiset(s)
    decreases i
  {
    if i > 0 {
      SwapPermutes(s, i, p[i]);
      ShuffledFromPermutation(SwapAt(s, i, p[i]), i - 1, p);
    }
  }

  /** `shuffleArray`: works on a copy (the argument is a value and stays as it is) and swaps
      in place from the last position down to position 1. */
  method Shuffle<T>(items: seq<T>, rand: seq<real>) returns (result: seq<T>)
    requires RandomDraws(rand, |items|)
    ensures result == Shuffled(items, rand)
    ensures |result| == |items| && multiset(result) == multiset(items)
  {
    var a := new T[|items|](k requires 0 <= k < |items| => items[k]);
    assert a[..] == items;
    ghost var partners := Partners(rand, |items|);
    var i := |items| - 1;
    while i > 0
      invariant -1 <= i < |items| && a.Length == |items|
      invariant ShuffledFrom(a[..], i, partners) == Shuffled(items, rand)
      decreases i
    {
      var j := Partner(rand, i);
      assert j == partners[i];
      ghost var before := a[..];
      a[i], a[j] := a[j], a[i];
      assert a[..] == SwapAt(before, i, j);
      i := i - 1;
    }
    result := a[..];
    ShuffledFromPermutation(items, |items| - 1, partners);
  }

  // ---------------------------------------------------------------------------
  // The review map and the SmartCard list

  /** A row of `reviews` as selected here: card_id, last_score, next_review_at. */
  datatype ReviewRow = ReviewRow(cardId: Id, lastScore: Option<real>, nextReviewAt: string)

  datatype ReviewInfo = ReviewInfo(lastScore: Option<real>, nextReviewAt: string)

  function InfoOf(r: ReviewRow): ReviewInfo {
    ReviewInfo(r.lastScore, r.nextReviewAt)
  }

  /** The map `reviews.forEach(r => reviewMap.set(r.card_id, ...))` leaves behind. */
  function ReviewIndex(rows: seq<ReviewRow>): map<Id, ReviewInfo>
  {
    if rows == [] then map[]
    else ReviewIndex(rows[..|rows| - 1])[rows[|rows| - 1].cardId := InfoOf(rows[|rows| - 1])]
  }

  method BuildReviewMap(rows: seq<ReviewRow>) returns (m: map<Id, ReviewInfo>)
    ensures m == ReviewIndex(rows)
  {
    m := map[];
    var k := 0;
    while k < |rows|
      invariant 0 <= k <= |rows|
      invariant m == ReviewIndex(rows[..k])
    {
      assert rows[..k + 1][..k] == rows[..k];
      m := m[rows[k].cardId := InfoOf(rows[k])];
      k := k + 1;
    }
    assert rows[..|rows|] == rows;
  }

  /** The map holds a card exactly when some review is for it, and then holds the LAST such
      review (a later `set` overwrites an earlier one). */
  lemma {:induction false} ReviewIndexLatest(rows: seq<ReviewRow>, id: Id)
    ensures id in ReviewIndex(rows) <==> exists i :: 0 <= i < |rows| && rows[i].cardId == id
    ensures id in ReviewIndex(rows) ==>
      exists i ::
        && 0 <= i < |rows| && rows[i].cardId == id
        && ReviewIndex(rows)[id] == InfoOf(rows[i])
        && (forall j :: i < j < |rows| ==> rows[j].cardId != id)
  {
    if rows != [] {
      var init := rows[..|rows| - 1];
      ReviewIndexLatest(init, id);
      if rows[|rows| - 1].cardId != id {
        if id in ReviewIndex(init) {
          var i :| 0 <= i < |init| && init[i].cardId == id &&
            ReviewIndex(init)[id] == InfoOf(init[i]) && forall j :: i < j < |init| ==> init[j].cardId != id;
          assert rows[i] == init[i];
        }
        if exists i :: 0 <= i < |rows| && rows[i].cardId == id {
          var i :| 0 <= i < |rows| && rows[i].cardId == id;
          assert init[i] == rows[i];
        }
      }
    }
  }

  datatype SmartCard = SmartCard(card: Card, mastery: MasteryLevel, lastScore: Option<real>, nextReviewAt: Option<string>)

  /** `cardsList.map(...)`: each card with its review's score and due date, or as a new card. */
  function ToSmartCards(cards: seq<Card>, reviews: map<Id, ReviewInfo>): (r: seq<SmartCard>)
    ensures |r| == |cards|
    ensures forall k :: 0 <= k < |cards| ==> r[k].card == cards[k]
    ensures forall k :: 0 <= k < |cards| && cards[k].id in reviews ==>
      && r[k].lastScore == reviews[cards[k].id].lastScore
      && r[k].mastery == MasteryOf(r[k].lastScore)
      && r[k].nextReviewAt == Some(reviews[cards[k].id].nextReviewAt)
    ensures forall k :: 0 <= k < |cards| && cards[k].id !in reviews ==>
      r[k].mastery == New && r[k].lastScore.None? && r[k].nextReviewAt.None?
  {
    seq(|cards|, k requires 0 <= k < |cards| =>
      if cards[k].id in reviews then
        var info := reviews[cards[k].id];
        SmartCard(cards[k], MasteryOf(info.lastScore), info.lastScore, Some(info.nextReviewAt))
      else SmartCard(cards[k], New, None, None))
  }

  // ---------------------------------------------------------------------------
  // The limit and `slice(0, limit)`

  /** The `limit` query parameter: absent (or empty), a parsed integer, or NaN. */
  datatype LimitParam = NoLimit | LimitValue(n: int) | LimitNaN

  const DefaultLimit: int := 1000

  /** Where `slice(0, end)` stops on a list of length n: NaN counts as 0 and a negative end
      counts from the back. */
  function SliceEnd(n: nat, limit: LimitParam): (e: nat)
    ensures e <= n
    ensures limit.NoLimit? ==> e == Min(n, DefaultLimit)
    ensures limit.LimitValue? && limit.n >= 0 ==> e == Min(n, limit.n)
    ensures limit.LimitValue? && limit.n < 0 ==> e == Max(0, n + limit.n)
    ensures limit.LimitNaN? ==> e == 0
  {
    match limit
    case NoLimit => Min(n, DefaultLimit)
    case LimitNaN => 0
    case LimitValue(v) => if v >= 0 then Min(n, v) else Max(0, n + v)
  }

  // ---------------------------------------------------------------------------
  // Stats

  function CountWhere(cs: seq<SmartCard>, p: MasteryLevel -> bool): (c: nat)
    ensures c <= |cs|
  {
    if cs == [] then 0 else (if p(cs[0].mastery) then 1 else 0) + CountWhere(cs[1..], p)
  }

  predicate IsNew(m: MasteryLevel) { m == New }
  /** `mastery_level !== 'new' && mastery_level !== 'green'`. */
  predicate IsDue(m: MasteryLevel) { m != New && m != Green }
  predicate IsGreen(m: MasteryLevel) { m == Green }

  datatype Stats = Stats(total: nat, due: nat, newCount: nat, returned: nat)

  /** The new, due and green counts partition the cards. */
  lemma {:induction false} StatsPartition(cs: seq<SmartCard>)
    ensures CountWhere(cs, IsNew) + CountWhere(cs, IsDue) + CountWhere(cs, IsGreen) == |cs|
  {
    if cs != [] {
      StatsPartition(cs[1..]);
    }
  }

  /** Due counts exactly the red and yellow cards. */
  lemma DueIsRedOrYellow(m: MasteryLevel)
    ensures IsDue(m) <==> m == Red || m == Yellow
  {
  }

  // ---------------------------------------------------------------------------
  // The handler

  datatype DeckInfo = DeckInfo(id: Id, title: string)

  datatype SmartError = Unauthorized | DeckIdRequired | DeckNotFound | CardsFetchFailed

  datatype SmartResponse =
    | SmartFailed(httpStatus: int, error: SmartError)
    | SmartOk(deck: DeckInfo, cards: seq<SmartCard>, stats: Stats)

  /** `deck` is the ownership lookup (None: not found or not the user's), `cards` the deck's
      cards (None: the query failed) and `reviews` the user's reviews of them (None: the
      query failed, which is not fatal). */
  method Get(authenticated: bool, deckId: Option<Id>, limit: LimitParam, deck: Option<DeckInfo>,
             cards: Option<seq<Card>>, reviews: Option<seq<ReviewRow>>, rand: seq<real>)
    returns (resp: SmartResponse)
    requires cards.Some? ==> RandomDraws(rand, |cards.value|)
    ensures !authenticated ==> resp == SmartFailed(401, Unauthorized)
    ensures authenticated && !Truthy(deckId) ==> resp == SmartFailed(400, DeckIdRequired)
    ensures authenticated && Truthy(deckId) && deck.None? ==> resp == SmartFailed(404, DeckNotFound)
    ensures authenticated && Truthy(deckId) && deck.Some? && cards.None? ==> resp == SmartFailed(500, CardsFetchFailed)
    ensures resp.SmartOk? <==> authenticated && Truthy(deckId) && deck.Some? && cards.Some?
    ensures resp.SmartOk? ==>
      var all := ToSmartCards(cards.value, if reviews.Some? then ReviewIndex(reviews.value) else map[]);
      && resp.deck == deck.value
      && resp.cards == Shuffled(all, rand)[..SliceEnd(|all|, limit)]
      && |resp.cards| == SliceEnd(|all|, limit)
      && multiset(resp.cards) <= multiset(all)
      && resp.stats == Stats(|all|, CountWhere(all, IsDue), CountWhere(all, IsNew), |resp.cards|)
  {
    if !authenticated {
      return SmartFailed(401, Unauthorized);
    }
    if !Truthy(deckId) {
      return SmartFailed(400, DeckIdRequired);
    }
    if deck.None? {
      return SmartFailed(404, DeckNotFound);
    }
    if cards.None? {
      return SmartFailed(500, CardsFetchFailed);
    }
    var reviewMap: map<Id, ReviewInfo> := map[];
    if reviews.Some? {
      reviewMap := BuildReviewMap(reviews.value);
    }
    var smart := ToSmartCards(cards.value, reviewMap);
    var shuffled := Shuffle(smart, rand);
    var end := SliceEnd(|shuffled|, limit);
    var result := shuffled[..end];
    assert shuffled == result + shuffled[end..];
    assert multiset(shuffled) == multiset(result) + multiset(shuffled[end..]);
    var stats := Stats(|smart|, CountWhere(smart, IsDue), CountWhere(smart, IsNew), |result|);
    resp := SmartOk(deck.value, result, stats);
  }
}
