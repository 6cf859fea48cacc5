/** The game search: `filterGames` (script.js:187-203) and the two handlers
    that `setupSearch` installs on the search button and the search input
    (script.js:157-182). The page's `.game-card` elements are an array of
    card records; the filter rewrites each record in place. */
module Search {
  import opened Wrappers
  import opened Text

  /** The card's inline `style.display`: never written yet, `'block'` or `'none'`. */
  datatype Display = Unset | Shown | Hidden

  /** A `.game-card`. A text field is `None` when the card has no
      `.game-title` (`.game-category`, `.game-description`) child; otherwise
      it holds that child's `textContent`. `fadeIn` records that the card's
      `style.animation` was set to the fade-in cue. */
  datatype GameCard = GameCard(
    title: Option<string>,
    category: Option<string>,
    description: Option<string>,
    display: Display,
    fadeIn: bool)

  /** All three text children exist, so reading their `textContent` does not throw. */
  predicate Readable(card: GameCard)
  {
    card.title.Some? && card.category.Some? && card.description.Some?
  }

  /** The index of the first card the filter cannot read, or `|cards|` when
      every card is readable. */
  function FirstUnreadable(cards: seq<GameCard>): (k: nat)
    ensures k <= |cards|
    ensures forall j :: 0 <= j < k ==> Readable(cards[j])
    ensures k < |cards| ==> !Readable(cards[k])
  {
    if cards == [] || !Readable(cards[0]) then 0 else 1 + FirstUnreadable(cards[1..])
  }

  /** The test of script.js:189-196: the lower-cased query is included in a lower-cased field. */
  predicate Matches(card: GameCard, query: string)
    requires Readable(card)
  {
    var q := Lower(query);
    Includes(Lower(card.title.value), q)
    || Includes(Lower(card.category.value), q)
    || Includes(Lower(card.description.value), q)
  }

  /** What the loop body of `filterGames` does to one readable card. */
  function Filtered(card: GameCard, query: string): GameCard
    requires Readable(card)
  {
    if Matches(card, query) then card.(display := Shown, fadeIn := true)
    else card.(display := Hidden)
  }

  /** The reference meaning of a hit: the lower-cased query is a substring of
      at least one lower-cased field. */
  ghost predicate IsHit(card: GameCard, query: string)
    requires Readable(card)
  {
    IsSubstring(Lower(query), Lower(card.title.value))
    || IsSubstring(Lower(query), Lower(card.category.value))
    || IsSubstring(Lower(query), Lower(card.description.value))
  }

  /** A filtered card is shown exactly when it is a hit and hidden exactly when
      it is not; its text is untouched and the fade-in cue is set on every
      shown card and left as it was on every hidden one. */
  lemma FilteredShownIffHit(card: GameCard, query: string)
    requires Readable(card)
    ensures Filtered(card, query).display == Shown <==> IsHit(card, query)
    ensures Filtered(card, query).display == Hidden <==> !IsHit(card, query)
    ensures Filtered(card, query).fadeIn == (IsHit(card, query) || card.fadeIn)
    ensures Filtered(card, query).(display := card.display, fadeIn := card.fadeIn) == card
  {
    var q := Lower(query);
    IncludesIsSubstring(Lower(card.title.value), q);
    IncludesIsSubstring(Lower(card.category.value), q);
    IncludesIsSubstring(Lower(card.description.value), q);
  }

  /** The match is case-insensitive in the query: lower-casing it first changes nothing. */
  lemma MatchIgnoresQueryCase(card: GameCard, query: string)
    requires Readable(card)
    ensures Filtered(card, Lower(query)) == Filtered(card, query)
  {
    LowerIdempotent(query);
  }

  /** Filtering again with the same query changes nothing more. */
  lemma FilterIdempotent(card: GameCard, query: string)
    requires Readable(card)
    ensures Readable(Filtered(card, query))
    ensures Filtered(Filtered(card, query), query) == Filtered(card, query)
  {
  }

  /** The outcome of one `filterGames(query)` call that reported `thrown`:
      cards before the first unreadable one are filtered, each by its own
      fields only; that card and every later one are as they were; and
      `thrown` is raised exactly when an unreadable card exists. */
  twostate predicate FilterOutcome(cards: array<GameCard>, query: string, thrown: bool)
    reads cards
  {
    var k := FirstUnreadable(old(cards[..]));
    thrown == (k < cards.Length)
    && (forall i :: 0 <= i < k ==> Readable(old(cards[i])) && cards[i] == Filtered(old(cards[i]), query))
    && (forall i :: k <= i < cards.Length ==> cards[i] == old(cards[i]))
  }

  /** `filterGames(query)`. Reading the missing child of an unreadable card
      throws a TypeError (`thrown`), which ends the loop there. */
  method FilterGames(cards: array<GameCard>, query: string) returns (thrown: bool)
    modifies cards
    ensures FilterOutcome(cards, query, thrown)
  {
    ghost var k := FirstUnreadable(cards[..]);
    var i := 0;
    while i < cards.Length
      invariant 0 <= i <= cards.Length && i <= k
      invariant forall j :: 0 <= j < i ==> Readable(old(cards[j])) && cards[j] == Filtered(old(cards[j]), query)
      invariant forall j :: i <= j < cards.Length ==> cards[j] == old(cards[j])
    {
      assert old(cards[..])[i] == cards[i];
      if !Readable(cards[i]) {
        return true;
      }
      cards[i] := Filtered(cards[i], query);
      i := i + 1;
    }
    return false;
  }

  /** The part the two handlers share: trim the input's value and filter only
      when something is left (script.js:163-168 and 174-177). */
  method Search(cards: array<GameCard>, inputValue: string) returns (thrown: bool)
    modifies cards
    ensures Trim(inputValue) == [] ==> !thrown && cards[..] == old(cards[..])
    ensures Trim(inputValue) != [] ==> FilterOutcome(cards, Trim(inputValue), thrown)
  {
    var query := Trim(inputValue);
    thrown := false;
    if query != [] {
      thrown := FilterGames(cards, query);
    }
  }

  /** The click listener on `.search-btn`. */
  method OnSearchClick(cards: array<GameCard>, inputValue: string) returns (thrown: bool)
    modifies cards
    ensures Trim(inputValue) == [] ==> !thrown && cards[..] == old(cards[..])
    ensures Trim(inputValue) != [] ==> FilterOutcome(cards, Trim(inputValue), thrown)
  {
    thrown := Search(cards, inputValue);
  }

  /** The keypress listener on `.search-input`: only the Enter key searches. */
  method OnSearchKeyPress(cards: array<GameCard>, inputValue: string, key: string) returns (thrown: bool)
    modifies cards
    ensures key != "Enter" || Trim(inputValue) == [] ==> !thrown && cards[..] == old(cards[..])
    ensures key == "Enter" && Trim(inputValue) != [] ==> FilterOutcome(cards, Trim(inputValue), thrown)
  {
    thrown := false;
    if key == "Enter" {
      thrown := Search(cards, inputValue);
    }
  }

  /** The worked example: the query "strategy" shows a card titled
      "Dune Empire" in category "Strategy" (a category hit). */
  lemma CategoryHitExample()
    ensures var card := GameCard(Some("Dune Empire"), Some("Strategy"), Some("build and conquer"), Unset, false);
      Filtered(card, "strategy").display == Shown
  {
    var card := GameCard(Some("Dune Empire"), Some("Strategy"), Some("build and conquer"), Unset, false);
    var lowered := Lower("Strategy");
    assert forall i :: 0 <= i < 8 ==> lowered[i] == "strategy"[i];
    assert lowered == "strategy";
    var q := Lower("strategy");
    assert forall i :: 0 <= i < 8 ==> q[i] == "strategy"[i];
    assert q == "strategy";
    assert Includes(lowered, q);
  }
}
