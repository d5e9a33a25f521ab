/**
 The product page's category buttons and search box. Each handler walks
 over all product cards and sets every card's display; the model returns
 the new `display: block` flags as a sequence, one per card.
 */
module ProductFilter {
  import opened Text

  datatype Option<T> = None | Some(value: T)

  /**
   A product card: the text of its name and description elements and its
   `data-category` attribute (`None` when the attribute is absent, which
   `getAttribute` reports as `null`).
   */
  datatype Card = Card(name: string, description: string, category: Option<string>)

  /**
   The category test `filter === 'all' || category === filter`: the `all`
   button matches every card, and any other filter exactly the cards whose
   category equals it.
   */
  predicate CategoryMatches(filter: Option<string>, card: Card): (b: bool)
    ensures filter == Some("all") ==> b
    ensures filter != Some("all") ==> (b <==> card.category == filter)
  {
    filter == Some("all") || card.category == filter
  }

  /**
   The search test on the lowercased name, description and term. An empty
   term matches every card, and a card matches whenever its name or its
   description equals the term up to the case of ASCII letters.
   */
  predicate SearchMatches(term: string, card: Card): (b: bool)
    ensures term == "" ==> b
    ensures ToLower(card.name) == ToLower(term) || ToLower(card.description) == ToLower(term) ==> b
  {
    assert term == "" ==> ToLower(term) == [];
    Contains(ToLower(card.name), ToLower(term)) || Contains(ToLower(card.description), ToLower(term))
  }

  /**
   A click on filter button `clicked` (whose `data-filter` is
   `filters[clicked]`): every button loses `active`, the clicked one gets it,
   and each card is shown exactly when it matches the filter.
   */
  method ClickFilter(filters: seq<Option<string>>, wasActive: seq<bool>, clicked: nat, cards: seq<Card>)
    returns (active: seq<bool>, visible: seq<bool>)
    requires clicked < |filters| && |wasActive| == |filters|
    ensures |active| == |filters|
    ensures forall b :: 0 <= b < |active| ==> (active[b] <==> b == clicked)
    ensures |visible| == |cards|
    ensures forall c :: 0 <= c < |cards| ==> (visible[c] <==> CategoryMatches(filters[clicked], cards[c]))
  {
    var filter := filters[clicked];
    active := wasActive;
    var b := 0;
    while b < |active|
      invariant 0 <= b <= |active| == |filters|
      invariant forall k :: 0 <= k < b ==> !active[k]
    {
      active := active[b := false];
      b := b + 1;
    }
    active := active[clicked := true];

    visible := [];
    var c := 0;
    while c < |cards|
      invariant 0 <= c <= |cards| && |visible| == c
      invariant forall k :: 0 <= k < c ==> (visible[k] <==> CategoryMatches(filter, cards[k]))
    {
      var category := cards[c].category;
      if filter == Some("all") || category == filter {
        visible := visible + [true];
      } else {
        visible := visible + [false];
      }
      c := c + 1;
    }
  }

  /** An `input` event on the search box: each card is shown exactly when it matches the term. */
  method Search(value: string, cards: seq<Card>) returns (visible: seq<bool>)
    ensures |visible| == |cards|
    ensures forall c :: 0 <= c < |cards| ==> (visible[c] <==> SearchMatches(value, cards[c]))
  {
    var searchTerm := ToLower(value);
    visible := [];
    var c := 0;
    while c < |cards|
      invariant 0 <= c <= |cards| && |visible| == c
      invariant forall k :: 0 <= k < c ==> (visible[k] <==> SearchMatches(value, cards[k]))
    {
      var productName := ToLower(cards[c].name);
      var productDesc := ToLower(cards[c].description);
      if Contains(productName, searchTerm) || Contains(productDesc, searchTerm) {
        visible := visible + [true];
      } else {
        visible := visible + [false];
      }
      c := c + 1;
    }
  }

  /** The search ignores the case of the term. */
  lemma SearchIgnoresTermCase(term: string, card: Card)
    ensures SearchMatches(ToLower(term), card) == SearchMatches(term, card)
  {
    ToLowerIdempotent(term);
  }

  /** Typing more characters can only hide cards: a card matching `t + u` matches `t`. */
  lemma LongerTermShowsFewer(t: string, u: string, card: Card)
    requires SearchMatches(t + u, card)
    ensures SearchMatches(t, card)
  {
    ToLowerAppend(t, u);
    if Contains(ToLower(card.name), ToLower(t + u)) {
      ContainsPrefix(ToLower(card.name), ToLower(t), ToLower(u));
    } else {
      ContainsPrefix(ToLower(card.description), ToLower(t), ToLower(u));
    }
  }
}
