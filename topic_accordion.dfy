/** The vault's per-deck accordion: which topics are expanded, the colour of a card's score
    badge, and the one-line preview of a card. */
module TopicAccordion {
  import opened Base
  import SmartCards

  /** The expanded set after toggling one deck: the deck flips, every other deck keeps its
      state. */
  function Toggled(expanded: set<Id>, deckId: Id): (r: set<Id>)
    ensures deckId in r <==> deckId !in expanded
    ensures forall d :: d != deckId ==> (d in r <==> d in expanded)
  {
    if deckId in expanded then expanded - {deckId} else expanded + {deckId}
  }

  /** Toggling the same deck twice restores the set. */
  lemma ToggleTwice(expanded: set<Id>, deckId: Id)
    ensures Toggled(Toggled(expanded, deckId), deckId) == expanded
  {
  }

  /** Toggles on different decks commute. */
  lemma TogglesCommute(expanded: set<Id>, a: Id, b: Id)
    ensures Toggled(Toggled(expanded, a), b) == Toggled(Toggled(expanded, b), a)
  {
  }

  class Accordion {
    var expanded: set<Id>

    constructor()
      ensures expanded == {}
    {
      expanded := {};
    }

    /** A copy of the current set is updated and then installed. */
    method Toggle(deckId: Id)
      modifies this
      ensures expanded == Toggled(old(expanded), deckId)
    {
      var newExpanded := expanded;
      if deckId in newExpanded {
        newExpanded := newExpanded - {deckId};
      } else {
        newExpanded := newExpanded + {deckId};
      }
      expanded := newExpanded;
    }
  }

  /** The badge colour of a score. */
  datatype BadgeColor = RedBadge | AmberBadge | EmeraldBadge

  function ScoreColor(score: real): (c: BadgeColor)
    ensures c == RedBadge <==> score < 5.0
    ensures c == AmberBadge <==> 5.0 <= score < 8.0
    ensures c == EmeraldBadge <==> score >= 8.0
  {
    if score < 5.0 then RedBadge
    else if score < 8.0 then AmberBadge
    else EmeraldBadge
  }

  /** The badge colours are the mastery buckets of a scored card. */
  lemma ScoreColorIsMastery(score: real)
    ensures ScoreColor(score) == RedBadge <==> SmartCards.MasteryOf(Some(score)) == SmartCards.Red
    ensures ScoreColor(score) == AmberBadge <==> SmartCards.MasteryOf(Some(score)) == SmartCards.Yellow
    ensures ScoreColor(score) == EmeraldBadge <==> SmartCards.MasteryOf(Some(score)) == SmartCards.Green
  {
  }

  /** The preview of a card: its first anchor's text, cut to 50 characters and marked when
      longer; with no anchors (a missing list included), the first 30 characters of the
      concept, always marked. */
  function PreviewText(concept: string, anchors: Option<seq<Anchor>>): (p: string)
    ensures anchors.Some? && |anchors.value| > 0 && |anchors.value[0].text| > 50 ==>
      p == anchors.value[0].text[..50] + "..."
    ensures anchors.Some? && |anchors.value| > 0 && |anchors.value[0].text| <= 50 ==>
      p == anchors.value[0].text
    ensures anchors.None? || |anchors.value| == 0 ==>
      |concept| >= 30 ==> p == concept[..30] + "..."
    ensures anchors.None? || |anchors.value| == 0 ==>
      |concept| < 30 ==> p == concept + "..."
    ensures |p| <= 53
  {
    if anchors.Some? && |anchors.value| > 0 then
      var text := anchors.value[0].text;
      if |text| > 50 then Prefix(text, 50) + "..." else text
    else Prefix(concept, 30) + "..."
  }
}
