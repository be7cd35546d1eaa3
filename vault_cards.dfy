/** `GET /api/vault/cards?level=…`: the user's reviews in one score band, grouped by the
    deck of their card in first-seen order.

    The reviews query is an oracle returning all of the user's reviews (None: it failed);
    the band filter and the descending order the query asks the database for are
    modelled here. */
module VaultCards {
  import opened Base
  import Sorting
  import SmartCards

  datatype Level = Critical | Refining | Mastered

  /** The `level` parameter: only the three band names are accepted. */
  function ParseLevel(level: Option<string>): (r: Option<Level>)
    ensures r.None? <==> level.None? || level.value !in ["critical", "refining", "mastered"]
    ensures r == Some(Critical) <==> level == Some("critical")
    ensures r == Some(Refining) <==> level == Some("refining")
    ensures r == Some(Mastered) <==> level == Some("mastered")
  {
    if level == Some("critical") then Some(Critical)
    else if level == Some("refining") then Some(Refining)
    else if level == Some("mastered") then Some(Mastered)
    else None
  }

  /** An inclusive score range, as `.gte(min).lte(max)` selects. */
  datatype Range = Range(lo: real, hi: real)

  predicate InRange(rg: Range, s: real) {
    rg.lo <= s <= rg.hi
  }

  function RangeOf(l: Level): (rg: Range)
    ensures rg.lo <= rg.hi && 0.0 <= rg.lo && rg.hi <= 10.0
  {
    match l
    case Critical => Range(0.0, 4.99)
    case Refining => Range(5.0, 7.99)
    case Mastered => Range(8.0, 10.0)
  }

  /** The mastery level a band is named after. */
  function MasteryFor(l: Level): SmartCards.MasteryLevel {
    match l
    case Critical => SmartCards.Red
    case Refining => SmartCards.Yellow
    case Mastered => SmartCards.Green
  }

  /** Scores strictly between 4.99 and 5, or between 7.99 and 8, are in no band. */
  lemma LevelGaps(l: Level, s: real)
    requires 4.99 < s < 5.0 || 7.99 < s < 8.0
    ensures !InRange(RangeOf(l), s)
  {
  }

  /** No score is in two bands. */
  lemma BandsDisjoint(l1: Level, l2: Level, s: real)
    requires InRange(RangeOf(l1), s) && InRange(RangeOf(l2), s)
    ensures l1 == l2
  {
  }

  /** Away from the two gaps, a valid score is in a band exactly when its mastery level is
      the one the band is named after. */
  lemma BandsAgreeWithMastery(l: Level, s: real)
    requires ScoreInRange(s) && !(4.99 < s < 5.0) && !(7.99 < s < 8.0)
    ensures InRange(RangeOf(l), s) <==> SmartCards.MasteryOf(Some(s)) == MasteryFor(l)
  {
  }

  // ---------------------------------------------------------------------------
  // Rows and groups

  datatype DeckRef = DeckRef(id: Id, title: string)

  /** The joined `cards` row, with its joined `decks` row. */
  datatype JoinedCard = JoinedCard(
    id: Id, concept: string, contextHint: Option<string>, anchors: seq<Anchor>,
    deckId: Id, deck: Option<DeckRef>)

  /** A `reviews` row; `lastReviewedAt` is the review time as a number. */
  datatype VaultRow = VaultRow(
    cardId: Id, lastScore: real, lastReviewedAt: int, lastUserInput: string,
    lastFeedback: string, card: Option<JoinedCard>)

  /** A row the grouping loop does not skip. */
  predicate Usable(r: VaultRow) {
    r.card.Some? && r.card.value.deck.Some?
  }

  function DeckOf(r: VaultRow): Id
    requires Usable(r)
  {
    r.card.value.deckId
  }

  datatype TopicCard = TopicCard(
    id: Id, concept: string, contextHint: Option<string>, anchors: seq<Anchor>,
    lastScore: real, lastReviewedAt: int)

  function CardOf(r: VaultRow): TopicCard
    requires Usable(r)
  {
    var c := r.card.value;
    TopicCard(c.id, c.concept, c.contextHint, c.anchors, r.lastScore, r.lastReviewedAt)
  }

  datatype Topic = Topic(topic: string, deckId: Id, cards: seq<TopicCard>)

  /** A JavaScript `Map`: its entries and the order in which their keys were first set. */
  datatype TopicsMap = TopicsMap(keys: seq<Id>, entries: map<Id, Topic>)

  predicate Valid(tm: TopicsMap) {
    && (forall i, j :: 0 <= i < j < |tm.keys| ==> tm.keys[i] != tm.keys[j])
    && tm.entries.Keys == set k | k in tm.keys
  }

  /** One iteration of the grouping loop. */
  function AddRow(tm: TopicsMap, r: VaultRow): TopicsMap {
    if !Usable(r) then tm
    else
      var d := DeckOf(r);
      var tm1 := if d in tm.entries then tm
                 else TopicsMap(tm.keys + [d], tm.entries[d := Topic(r.card.value.deck.value.title, d, [])]);
      TopicsMap(tm1.keys, tm1.entries[d := tm1.entries[d].(cards := tm1.entries[d].cards + [CardOf(r)])])
  }

  /** The map the loop leaves behind after `rows`. */
  function Grouped(rows: seq<VaultRow>): (tm: TopicsMap)
    ensures Valid(tm)
  {
    if rows == [] then TopicsMap([], map[]) else AddRow(Grouped(rows[..|rows| - 1]), rows[|rows| - 1])
  }

  /** `Array.from(topicsMap.values())`. */
  function Values(tm: TopicsMap): (ts: seq<Topic>)
    requires forall k :: k in tm.keys ==> k in tm.entries
    ensures |ts| == |tm.keys|
  {
    seq(|tm.keys|, i requires 0 <= i < |tm.keys| => tm.entries[tm.keys[i]])
  }

  method GroupByDeck(rows: seq<VaultRow>) returns (topics: seq<Topic>)
    ensures Valid(Grouped(rows)) && topics == Values(Grouped(rows))
  {
    var keys: seq<Id> := [];
    var entries: map<Id, Topic> := map[];
    for k := 0 to |rows|
      invariant TopicsMap(keys, entries) == Grouped(rows[..k])
    {
      assert rows[..k + 1][..k] == rows[..k];
      var r := rows[k];
      if !Usable(r) {
        continue;
      }
      var d := r.card.value.deckId;
      if d !in entries {
        entries := entries[d := Topic(r.card.value.deck.value.title, d, [])];
        keys := keys + [d];
      }
      entries := entries[d := entries[d].(cards := entries[d].cards + [CardOf(r)])];
    }
    assert rows[..|rows|] == rows;
    topics := Values(TopicsMap(keys, entries));
  }

  /** The index of the first usable row for deck `d`, or -1 when there is none. */
  function FirstAt(rows: seq<VaultRow>, d: Id): (i: int)
    ensures -1 <= i < |rows|
    ensures i >= 0 ==> Usable(rows[i]) && DeckOf(rows[i]) == d
    ensures forall j :: 0 <= j < |rows| && (i < 0 || j < i) ==> !(Usable(rows[j]) && DeckOf(rows[j]) == d)
  {
    if rows == [] then -1
    else
      var f := FirstAt(rows[..|rows| - 1], d);
      if f >= 0 then f
      else if Usable(rows[|rows| - 1]) && DeckOf(rows[|rows| - 1]) == d then |rows| - 1
      else -1
  }

  /** The cards of the usable rows for deck `d`, in input order. */
  function CardsOf(rows: seq<VaultRow>, d: Id): seq<TopicCard> {
    if rows == [] then []
    else
      var last := rows[|rows| - 1];
      CardsOf(rows[..|rows| - 1], d) + (if Usable(last) && DeckOf(last) == d then [CardOf(last)] else [])
  }

  /** There is a group for a deck exactly when some usable row is for it; the group carries
      that deck's id, the title of the first such row, and the cards of all such rows in
      input order. */
  lemma {:induction false} GroupContents(rows: seq<VaultRow>, d: Id)
    ensures d in Grouped(rows).entries <==> FirstAt(rows, d) >= 0
    ensures d in Grouped(rows).entries ==>
      var g := Grouped(rows).entries[d];
      && g.deckId == d
      && g.topic == rows[FirstAt(rows, d)].card.value.deck.value.title
      && g.cards == CardsOf(rows, d)
  {
    if rows != [] {
      var init := rows[..|rows| - 1];
      var r := rows[|rows| - 1];
      GroupContents(init, d);
      var tm := Grouped(init);
      if FirstAt(init, d) >= 0 {
        assert rows[FirstAt(init, d)] == init[FirstAt(init, d)];
      }
      if Usable(r) && DeckOf(r) == d {
        assert CardsOf(rows, d) == CardsOf(init, d) + [CardOf(r)];
        if d !in tm.entries {
          assert CardsOf(init, d) == [] by { NoCardsBeforeFirst(init, d); }
        }
      } else {
        assert CardsOf(rows, d) == CardsOf(init, d);
        assert Grouped(rows).entries.Keys == tm.entries.Keys + (if Usable(r) then {DeckOf(r)} else {});
        if d in tm.entries {
          assert Grouped(rows).entries[d] == tm.entries[d];
        }
      }
    }
  }

  lemma {:induction false} NoCardsBeforeFirst(rows: seq<VaultRow>, d: Id)
    requires FirstAt(rows, d) < 0
    ensures CardsOf(rows, d) == []
  {
    if rows != [] {
      NoCardsBeforeFirst(rows[..|rows| - 1], d);
    }
  }

  /** Groups come in the order in which their decks first appear. */
  lemma {:induction false} GroupOrder(rows: seq<VaultRow>)
    ensures forall a, b :: 0 <= a < b < |Grouped(rows).keys| ==>
      0 <= FirstAt(rows, Grouped(rows).keys[a]) < FirstAt(rows, Grouped(rows).keys[b])
  {
    if rows != [] {
      var init := rows[..|rows| - 1];
      var r := rows[|rows| - 1];
      GroupOrder(init);
      var keys := Grouped(rows).keys;
      var ik := Grouped(init).keys;
      assert keys == Grouped(rows).keys;
      forall k | 0 <= k < |ik|
        ensures FirstAt(rows, ik[k]) == FirstAt(init, ik[k]) >= 0
      {
        GroupContents(init, ik[k]);
      }
      if Usable(r) && DeckOf(r) !in Grouped(init).entries {
        var d := DeckOf(r);
        assert keys == ik + [d];
        GroupContents(init, d);
        assert FirstAt(rows, d) == |rows| - 1;
        forall a, b | 0 <= a < b < |keys|
          ensures 0 <= FirstAt(rows, keys[a]) < FirstAt(rows, keys[b])
        {
          if b == |ik| {
            assert keys[a] == ik[a];
            assert FirstAt(init, ik[a]) < |init|;
          } else {
            assert keys[a] == ik[a] && keys[b] == ik[b];
          }
        }
      } else {
        assert keys == ik;
        forall a, b | 0 <= a < b < |keys|
          ensures 0 <= FirstAt(rows, keys[a]) < FirstAt(rows, keys[b])
        {
          assert FirstAt(init, ik[a]) < FirstAt(init, ik[b]);
        }
        assert forall a, b :: 0 <= a < b < |Grouped(rows).keys| ==>
          0 <= FirstAt(rows, Grouped(rows).keys[a]) < FirstAt(rows, Grouped(rows).keys[b]);
      }
    } else {
      assert Grouped(rows).keys == [];
    }
  }

  // ---------------------------------------------------------------------------
  // Group sizes

  function SizeOf(e: map<Id, Topic>, k: Id): nat {
    if k in e then |e[k].cards| else 0
  }

  function SumOver(keys: seq<Id>, e: map<Id, Topic>): nat {
    if keys == [] then 0 else SumOver(keys[..|keys| - 1], e) + SizeOf(e, keys[|keys| - 1])
  }

  function SumSizes(ts: seq<Topic>): nat {
    if ts == [] then 0 else SumSizes(ts[..|ts| - 1]) + |ts[|ts| - 1].cards|
  }

  function CountUsable(rows: seq<VaultRow>): (c: nat)
    ensures c <= |rows|
  {
    if rows == [] then 0 else CountUsable(rows[..|rows| - 1]) + (if Usable(rows[|rows| - 1]) then 1 else 0)
  }

  lemma {:induction false} SumOverOther(keys: seq<Id>, e: map<Id, Topic>, d: Id, t: Topic)
    requires d !in keys
    ensures SumOver(keys, e[d := t]) == SumOver(keys, e)
  {
    if keys != [] {
      SumOverOther(keys[..|keys| - 1], e, d, t);
    }
  }

  lemma {:induction false} SumOverBump(keys: seq<Id>, e: map<Id, Topic>, d: Id, t: Topic)
    requires forall i, j :: 0 <= i < j < |keys| ==> keys[i] != keys[j]
    requires d in keys && d in e && |t.cards| == |e[d].cards| + 1
    ensures SumOver(keys, e[d := t]) == SumOver(keys, e) + 1
  {
    var init := keys[..|keys| - 1];
    if keys[|keys| - 1] == d {
      assert d !in init;
      SumOverOther(init, e, d, t);
    } else {
      assert d in init;
      SumOverBump(init, e, d, t);
    }
  }

  lemma {:induction false} SumOfValues(tm: TopicsMap)
    requires forall k :: k in tm.keys ==> k in tm.entries
    ensures SumSizes(Values(tm)) == SumOver(tm.keys, tm.entries)
    decreases |tm.keys|
  {
    if tm.keys != [] {
      var init := TopicsMap(tm.keys[..|tm.keys| - 1], tm.entries);
      SumOfValues(init);
      assert Values(tm)[..|tm.keys| - 1] == Values(init);
    }
  }

  lemma {:induction false} GroupedSizes(rows: seq<VaultRow>)
    ensures SumOver(Grouped(rows).keys, Grouped(rows).entries) == CountUsable(rows)
  {
    if rows != [] {
      var init := rows[..|rows| - 1];
      GroupedSizes(init);
      AddRowSize(Grouped(init), rows[|rows| - 1]);
    }
  }

  /** A usable row adds one card to the total, any other row none. */
  lemma AddRowSize(tm: TopicsMap, r: VaultRow)
    requires Valid(tm)
    ensures SumOver(AddRow(tm, r).keys, AddRow(tm, r).entries)
      == SumOver(tm.keys, tm.entries) + (if Usable(r) then 1 else 0)
  {
    if Usable(r) {
      var d := DeckOf(r);
      if d in tm.entries {
        SumOverBump(tm.keys, tm.entries, d, tm.entries[d].(cards := tm.entries[d].cards + [CardOf(r)]));
      } else {
        var e1 := tm.entries[d := Topic(r.card.value.deck.value.title, d, [])];
        var t := e1[d].(cards := e1[d].cards + [CardOf(r)]);
        SumOverOther(tm.keys, tm.entries, d, t);
        assert e1[d := t] == tm.entries[d := t];
        assert (tm.keys + [d])[..|tm.keys|] == tm.keys;
      }
    }
  }

  /** Every grouped card comes from a distinct usable row, so the group sizes add up to the
      number of usable rows, which is at most the `total` reported. */
  lemma GroupSizesBound(rows: seq<VaultRow>)
    ensures Valid(Grouped(rows))
    ensures SumSizes(Values(Grouped(rows))) == CountUsable(rows) <= |rows|
  {
    SumOfValues(Grouped(rows));
    GroupedSizes(rows);
  }

  // ---------------------------------------------------------------------------
  // The handler

  /** The rows the query selects: those in the band, most recently reviewed first. */
  function Selected(all: seq<VaultRow>, l: Level): (r: seq<VaultRow>)
  {
    Sorting.SortByKey(Filter(all, (x: VaultRow) => InRange(RangeOf(l), x.lastScore)), (x: VaultRow) => -x.lastReviewedAt)
  }

  /** The selected rows are exactly the band's rows, each once, latest first. */
  lemma SelectedRows(all: seq<VaultRow>, l: Level)
    ensures Sorting.SortedBy(Selected(all, l), (x: VaultRow) => -x.lastReviewedAt)
    ensures multiset(Selected(all, l)) == multiset(Filter(all, (x: VaultRow) => InRange(RangeOf(l), x.lastScore)))
    ensures forall i :: 0 <= i < |Selected(all, l)| ==>
      Selected(all, l)[i] in all && InRange(RangeOf(l), Selected(all, l)[i].lastScore)
    ensures forall i :: 0 <= i < |all| && InRange(RangeOf(l), all[i].lastScore) ==> all[i] in Selected(all, l)
  {
    Sorting.SortedFilter(all, (x: VaultRow) => InRange(RangeOf(l), x.lastScore), (x: VaultRow) => -x.lastReviewedAt);
  }

  datatype VaultError = Unauthorized | InvalidLevel | FetchFailed

  datatype VaultResponse =
    | VaultFailed(httpStatus: int, error: VaultError)
    | VaultOk(level: Level, topics: seq<Topic>, total: nat)

  method Get(authenticated: bool, level: Option<string>, reviews: Option<seq<VaultRow>>)
    returns (resp: VaultResponse)
    ensures !authenticated ==> resp == VaultFailed(401, Unauthorized)
    ensures authenticated && ParseLevel(level).None? ==> resp == VaultFailed(400, InvalidLevel)
    ensures authenticated && ParseLevel(level).Some? && reviews.None? ==> resp == VaultFailed(500, FetchFailed)
    ensures resp.VaultOk? <==> authenticated && ParseLevel(level).Some? && reviews.Some?
    ensures resp.VaultOk? ==>
      var rows := Selected(reviews.value, resp.level);
      && Some(resp.level) == ParseLevel(level)
      && resp.topics == Values(Grouped(rows))
      && resp.total == |rows|
      && SumSizes(resp.topics) <= resp.total
  {
    if !authenticated {
      return VaultFailed(401, Unauthorized);
    }
    var l := ParseLevel(level);
    if l.None? {
      return VaultFailed(400, InvalidLevel);
    }
    if reviews.None? {
      return VaultFailed(500, FetchFailed);
    }
    var rows := Selected(reviews.value, l.value);
    var topics := GroupByDeck(rows);
    GroupSizesBound(rows);
    resp := VaultOk(l.value, topics, |rows|);
  }
}
