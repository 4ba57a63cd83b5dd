/** The flash-card page: the category filter, the card shown, the cyclic
    next/previous navigation, and the category toggles. The card list comes
    from a request, which is a parameter here. */
module Flashcards {
  import opened Common
  import opened Seqs

  datatype Card = Card(id: string, question: string, answer: string, category: string)

  /** The pseudo-category of the "All" chip. */
  const AllChip: string := "all"

  function CategoryList(cards: seq<Card>): (r: seq<string>)
    ensures |r| == |cards| && forall i :: 0 <= i < |cards| ==> r[i] == cards[i].category
  {
    if cards == [] then [] else [cards[0].category] + CategoryList(cards[1..])
  }

  /** The chips: the distinct categories of the loaded cards, first seen first. */
  function Categories(cards: seq<Card>): (r: seq<string>)
    ensures NoDuplicates(r)
    ensures forall c :: c in r <==> exists i :: 0 <= i < |cards| && cards[i].category == c
  {
    var all := CategoryList(cards);
    var r := Distinct(all);
    assert forall c :: c in all <==> exists i :: 0 <= i < |cards| && cards[i].category == c by {
      forall c ensures c in all <==> exists i :: 0 <= i < |cards| && cards[i].category == c {
        if c in all {
          var i :| 0 <= i < |all| && all[i] == c;
          assert cards[i].category == c;
        }
      }
    }
    r
  }

  function InCategories(selected: seq<string>): Card -> bool
  {
    (c: Card) => c.category in selected
  }

  /** `filteredCards`: everything when showing all, else the cards of the
      selected categories, in order. */
  function Shown(cards: seq<Card>, showAll: bool, selected: seq<string>): (r: seq<Card>)
    ensures showAll ==> r == cards
    ensures !showAll ==> forall c :: c in r <==> c in cards && c.category in selected
    ensures |r| <= |cards|
  {
    if showAll then cards else Filter(cards, InCategories(selected))
  }

  /** With the filter on and nothing selected no card is shown. */
  lemma NothingSelectedShowsNothing(cards: seq<Card>)
    ensures Shown(cards, false, []) == []
  {
    FilterNone(cards, InCategories([]));
  }

  lemma ShownCard(cards: seq<Card>, showAll: bool, selected: seq<string>, i: int)
    requires 0 <= i < |Shown(cards, showAll, selected)|
    ensures i % |Shown(cards, showAll, selected)| == i
    ensures Shown(cards, showAll, selected)[i] in cards
  {
    var shown := Shown(cards, showAll, selected);
    assert shown[i] in shown;
  }

  /** Successor and predecessor on 0..n-1, cyclic. */
  function NextIndex(i: int, n: int): (j: int)
    requires n > 0 && 0 <= i
    ensures 0 <= j < n
    ensures i < n - 1 ==> j == i + 1
    ensures i == n - 1 ==> j == 0
  {
    (i + 1) % n
  }

  function PrevIndex(i: int, n: int): (j: int)
    requires n > 0 && 0 <= i < n
    ensures 0 <= j < n
    ensures i > 0 ==> j == i - 1
    ensures i == 0 ==> j == n - 1
  {
    if i == 0 then n - 1 else i - 1
  }

  /** Previous undoes next and next undoes previous. */
  lemma NextPrevInverse(i: int, n: int)
    requires 0 <= i < n
    ensures PrevIndex(NextIndex(i, n), n) == i
    ensures NextIndex(PrevIndex(i, n), n) == i
  {
  }

  /** The filter state after `toggleCategory(category)`. */
  datatype Filtering = Filtering(showAll: bool, selected: seq<string>)

  function Toggled(f: Filtering, category: string): (g: Filtering)
    ensures category == AllChip ==> g == Filtering(!f.showAll, [])
    ensures category != AllChip && f.showAll ==> g == Filtering(false, [category])
    ensures category != AllChip && !f.showAll && category !in f.selected ==>
              g == Filtering(false, f.selected + [category])
    ensures category != AllChip && !f.showAll && category in f.selected ==>
              category !in g.selected
              && (forall c :: c in g.selected <==> c in f.selected && c != category)
              && (g.showAll <==> g.selected == [])
  {
    if category == AllChip then Filtering(!f.showAll, [])
    else if f.showAll then Filtering(false, [category])
    else if category in f.selected then
      var rest := Filter(f.selected, Unequal(category));
      Filtering(rest == [], rest)
    else Filtering(false, f.selected + [category])
  }

  /** Toggling "all" twice restores the mode with nothing selected; toggling
      an unselected category twice in filtered mode restores the filter. */
  lemma ToggledTwice(f: Filtering, category: string)
    ensures Toggled(Toggled(f, AllChip), AllChip) == Filtering(f.showAll, [])
    ensures category != AllChip && !f.showAll && f.selected != [] && category !in f.selected ==>
              Toggled(Toggled(f, category), category) == f
  {
    if category != AllChip && !f.showAll && f.selected != [] && category !in f.selected {
      var p := Unequal(category);
      FilterAppend(f.selected, [category], p);
      FilterAllPass(f.selected, p);
      assert Filter([category], p) == [];
      assert Filter(f.selected + [category], p) == f.selected;
    }
  }

  class FlashcardsPage {
    var cards: seq<Card>
    var categories: seq<string>
    var showAll: bool
    var selected: seq<string>
    var index: int
    var isFlipped: bool
    var error: Option<string>

    /** The card index is a position in the shown list, or 0 when it is empty. */
    ghost predicate Valid()
      reads this
    {
      0 <= index && (index == 0 || index < |Shown(cards, showAll, selected)|)
    }

    function Filtered(): seq<Card>
      reads this
    {
      Shown(cards, showAll, selected)
    }

    /** `currentCard`: the card at the index modulo the list length. */
    function CurrentCard(): (c: Option<Card>)
      reads this
      requires Valid()
      ensures Filtered() == [] <==> c.None?
      ensures c.Some? ==> c.value == Filtered()[index] && c.value in cards
    {
      var shown := Filtered();
      if |shown| > 0 then
        ShownCard(cards, showAll, selected, index);
        Some(shown[index % |shown|])
      else None
    }

    constructor ()
      ensures Valid() && cards == [] && categories == [] && showAll && selected == []
      ensures index == 0 && !isFlipped && error.None?
    {
      cards, categories, showAll, selected := [], [], true, [];
      index, isFlipped, error := 0, false, None;
    }

    /** A successful fetch: the error cleared when the fetch began, the new
        cards, their categories, and a reset view. */
    method Loaded(data: seq<Card>)
      modifies this
      ensures Valid() && cards == data && categories == Categories(data)
      ensures showAll && selected == [] && index == 0 && !isFlipped && error.None?
    {
      error := None;
      cards := data;
      categories := Categories(data);
      index := 0;
      isFlipped := false;
      selected := [];
      showAll := true;
    }

    /** A failed fetch records its message and keeps the cards. */
    method LoadFailed(message: string)
      requires Valid()
      modifies this
      ensures Valid() && error == Some(message)
      ensures cards == old(cards) && showAll == old(showAll) && selected == old(selected) && index == old(index)
      ensures categories == old(categories) && isFlipped == old(isFlipped)
    {
      error := Some(message);
    }

    method NextCard()
      requires Valid()
      modifies this
      ensures cards == old(cards) && showAll == old(showAll) && selected == old(selected)
      ensures categories == old(categories) && error == old(error)
      ensures Valid() && !isFlipped
      ensures Filtered() == [] ==> index == old(index)
      ensures Filtered() != [] ==> index == NextIndex(old(index), |Filtered()|)
    {
      isFlipped := false;
      var n := |Filtered()|;
      if n > 0 {
        index := (index + 1) % n;
      }
    }

    method PrevCard()
      requires Valid()
      modifies this
      ensures cards == old(cards) && showAll == old(showAll) && selected == old(selected)
      ensures categories == old(categories) && error == old(error)
      ensures Valid() && !isFlipped
      ensures Filtered() == [] ==> index == old(index)
      ensures Filtered() != [] ==> index == PrevIndex(old(index), |Filtered()|)
    {
      isFlipped := false;
      var n := |Filtered()|;
      if n > 0 {
        index := if index == 0 then n - 1 else index - 1;
      }
    }

    method Flip()
      modifies this
      ensures isFlipped == !old(isFlipped)
      ensures cards == old(cards) && showAll == old(showAll) && selected == old(selected) && index == old(index)
      ensures categories == old(categories) && error == old(error)
    {
      isFlipped := !isFlipped;
    }

    /** `toggleCategory`: the filter changes as `Toggled` says, and the view
        goes back to the first card, face up. */
    method ToggleCategory(category: string)
      modifies this
      ensures Valid() && Filtering(showAll, selected) == Toggled(Filtering(old(showAll), old(selected)), category)
      ensures index == 0 && !isFlipped
      ensures cards == old(cards) && categories == old(categories) && error == old(error)
    {
      if category == AllChip {
        showAll := !showAll;
        selected := [];
      } else if showAll {
        showAll := false;
        selected := [category];
      } else if category in selected {
        var rest := Filter(selected, Unequal(category));
        if rest == [] {
          showAll := true;
        }
        selected := rest;
      } else {
        selected := selected + [category];
      }
      index := 0;
      isFlipped := false;
    }
  }
}
