/** `GET /api/vault/cards/practice`: the user's reviewed cards, optionally restricted to a
    score band and a deck, oldest review first, flattened to card records.

    The reviews query is an oracle returning all of the user's reviews (None: it failed);
    the filters and the ascending order the query asks the database for are modelled
    here. */
module Practice {
  import opened Base
  import Sorting
  import VaultCards

  /** The joined `cards` row. */
  datatype PracticeCardRow = PracticeCardRow(
    id: Id, concept: string, contextHint: Option<string>, anchors: seq<Anchor>,
    deckId: Id, createdAt: string)

  datatype PracticeRow = PracticeRow(cardId: Id, lastScore: real, lastReviewedAt: int, card: PracticeCardRow)

  /** A flattened card with the score of its review. */
  datatype PracticeCard = PracticeCard(
    id: Id, concept: string, contextHint: Option<string>, anchors: seq<Anchor>,
    deckId: Id, createdAt: string, lastScore: real)

  /** The score filter: none for a falsy level, a band for a band name, and [0, 10] for any
      other level. */
  function RangeFor(level: Option<string>): (rg: Option<VaultCards.Range>)
    ensures rg.None? <==> !Truthy(level)
    ensures level == Some("critical") ==> rg == Some(VaultCards.Range(0.0, 4.99))
    ensures level == Some("refining") ==> rg == Some(VaultCards.Range(5.0, 7.99))
    ensures level == Some("mastered") ==> rg == Some(VaultCards.Range(8.0, 10.0))
    ensures Truthy(level) && level.value !in ["critical", "refining", "mastered"] ==>
      rg == Some(VaultCards.Range(0.0, 10.0))
  {
    if !Truthy(level) then None
    else
      var (minScore, maxScore) :=
        if level.value == "critical" then (0.0, 4.99)
        else if level.value == "refining" then (5.0, 7.99)
        else if level.value == "mastered" then (8.0, 10.0)
        else (0.0, 10.0);
      Some(VaultCards.Range(minScore, maxScore))
  }

  /** For the three band names the filter is the grouping route's band. */
  lemma RangeForAgreesWithVault(level: Option<string>)
    requires VaultCards.ParseLevel(level).Some?
    ensures RangeFor(level) == Some(VaultCards.RangeOf(VaultCards.ParseLevel(level).value))
  {
  }

  /** A row passes the filters the query applies. */
  predicate Passes(r: PracticeRow, level: Option<string>, deckId: Option<Id>) {
    && (RangeFor(level).Some? ==> VaultCards.InRange(RangeFor(level).value, r.lastScore))
    && (Truthy(deckId) ==> r.card.deckId == deckId.value)
  }

  function ReviewedAt(r: PracticeRow): int { r.lastReviewedAt }

  /** The rows the query returns: those passing the filters, oldest review first. */
  function Selected(all: seq<PracticeRow>, level: Option<string>, deckId: Option<Id>): seq<PracticeRow> {
    Sorting.SortByKey(Filter(all, (r: PracticeRow) => Passes(r, level, deckId)), ReviewedAt)
  }

  /** The selected rows are exactly the rows passing the filters, in ascending review time;
      equally old rows keep their input order. */
  lemma SelectedRows(all: seq<PracticeRow>, level: Option<string>, deckId: Option<Id>)
    ensures Sorting.SortedBy(Selected(all, level, deckId), ReviewedAt)
    ensures multiset(Selected(all, level, deckId)) == multiset(Filter(all, (r: PracticeRow) => Passes(r, level, deckId)))
    ensures forall i :: 0 <= i < |Selected(all, level, deckId)| ==>
      Selected(all, level, deckId)[i] in all && Passes(Selected(all, level, deckId)[i], level, deckId)
    ensures forall i :: 0 <= i < |all| && Passes(all[i], level, deckId) ==> all[i] in Selected(all, level, deckId)
  {
    Sorting.SortedFilter(all, (r: PracticeRow) => Passes(r, level, deckId), ReviewedAt);
  }

  /** Without a level or a deck, every row is selected. */
  lemma NoFilters(all: seq<PracticeRow>)
    ensures multiset(Selected(all, None, None)) == multiset(all)
  {
    var p := (r: PracticeRow) => Passes(r, None, None);
    FilterKeepsAll(all, p);
    Sorting.SortByKeyPermutation(all, ReviewedAt);
  }

  lemma {:induction false} FilterKeepsAll<T>(s: seq<T>, p: T -> bool)
    requires forall i :: 0 <= i < |s| ==> p(s[i])
    ensures Filter(s, p) == s
  {
    if s != [] {
      FilterKeepsAll(s[1..], p);
    }
  }

  /** `data.map(...)`: one card per row, in order, with the card's fields and the score. */
  function Flatten(rows: seq<PracticeRow>): (cs: seq<PracticeCard>)
    ensures |cs| == |rows|
    ensures forall i :: 0 <= i < |rows| ==>
      var c := rows[i].card;
      cs[i] == PracticeCard(c.id, c.concept, c.contextHint, c.anchors, c.deckId, c.createdAt, rows[i].lastScore)
  {
    seq(|rows|, i requires 0 <= i < |rows| =>
      var c := rows[i].card;
      PracticeCard(c.id, c.concept, c.contextHint, c.anchors, c.deckId, c.createdAt, rows[i].lastScore))
  }

  datatype PracticeError = Unauthorized | FetchFailed

  datatype PracticeResponse =
    | PracticeFailed(httpStatus: int, error: PracticeError)
    | PracticeOk(cards: seq<PracticeCard>)

  method Get(authenticated: bool, level: Option<string>, deckId: Option<Id>, reviews: Option<seq<PracticeRow>>)
    returns (resp: PracticeResponse)
    ensures !authenticated ==> resp == PracticeFailed(401, Unauthorized)
    ensures authenticated && reviews.None? ==> resp == PracticeFailed(500, FetchFailed)
    ensures resp.PracticeOk? <==> authenticated && reviews.Some?
    ensures resp.PracticeOk? ==>
      && resp.cards == Flatten(Selected(reviews.value, level, deckId))
      && |resp.cards| == |Filter(reviews.value, (r: PracticeRow) => Passes(r, level, deckId))|
  {
    if !authenticated {
      return PracticeFailed(401, Unauthorized);
    }
    if reviews.None? {
      return PracticeFailed(500, FetchFailed);
    }
    var rows := Selected(reviews.value, level, deckId);
    resp := PracticeOk(Flatten(rows));
  }
}
