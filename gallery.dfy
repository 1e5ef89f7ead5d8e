/**
 * The public gallery page: a category filter over a fixed list of artworks and
 * a lightbox that steps through the filtered list.
 */
module Gallery {
  import opened Wrappers
  import opened Seqs

  /** An artwork as the gallery page lists it; `image` names the bundled asset. */
  datatype Artwork = Artwork(
    id: int,
    image: string,
    title: string,
    year: string,
    category: string,
    description: string)

  function ArtworkId(a: Artwork): int { a.id }

  const Artworks: seq<Artwork> := [
    Artwork(1, "sculpture-1.jpg", "Emergence I", "2024", "Biomechanical",
      "A meditation on organic and mechanical fusion, exploring the boundaries between flesh and machine."),
    Artwork(2, "sculpture-2.jpg", "Vessel of Shadows", "2024", "Organic Forms",
      "Inspired by deep-sea creatures, this piece captures the mystery of unexplored depths."),
    Artwork(3, "sculpture-3.jpg", "Silent Sentinel", "2023", "Figurative",
      "A guardian figure emerging from primordial darkness, watching over realms unseen."),
    Artwork(4, "sculpture-4.jpg", "Nocturne", "2024", "Abstract",
      "Pure form dancing with shadow, an exploration of negative space and presence."),
    Artwork(5, "sculpture-1.jpg", "Metamorphosis", "2023", "Biomechanical",
      "The eternal cycle of transformation, frozen in a moment of becoming."),
    Artwork(6, "sculpture-2.jpg", "Whispers of Bone", "2022", "Organic Forms",
      "Skeletal structures reimagined as architectural poetry."),
    Artwork(7, "sculpture-3.jpg", "The Dreamer", "2023", "Figurative",
      "A figure lost in eternal reverie, suspended between worlds."),
    Artwork(8, "sculpture-4.jpg", "Void Echo", "2024", "Abstract",
      "Sound made visible, silence given form.")
  ]

  /** The filter buttons, in display order; "All" switches the filter off. */
  const Categories: seq<string> := ["All", "Biomechanical", "Organic Forms", "Figurative", "Abstract"]

  /** The test `item.category === category` of the filter. */
  function InCategory(category: string): Artwork -> bool {
    (a: Artwork) => a.category == category
  }

  /** The artworks listed under `category`. */
  function FilteredItems(items: seq<Artwork>, category: string): (r: seq<Artwork>)
    ensures category == "All" ==> r == items
    ensures |r| <= |items|
    ensures category != "All" ==> forall i :: 0 <= i < |r| ==> r[i] in items && r[i].category == category
    ensures forall i :: 0 <= i < |items| && (category == "All" || items[i].category == category) ==> items[i] in r
  {
    if category == "All" then items else Filter(items, InCategory(category))
  }

  /** The filter distributes over concatenation, so it keeps the artworks in their order. */
  lemma FilteredAppend(a: seq<Artwork>, b: seq<Artwork>, category: string)
    ensures FilteredItems(a + b, category) == FilteredItems(a, category) + FilteredItems(b, category)
  {
    if category != "All" {
      FilterAppend(a, b, InCategory(category));
    }
  }

  /** No two artworks share an id, under any filter. */
  lemma FilteredIdsUnique(category: string)
    ensures UniqueKeys(Artworks, ArtworkId)
    ensures UniqueKeys(FilteredItems(Artworks, category), ArtworkId)
  {
    if category != "All" {
      FilterUnique(Artworks, InCategory(category), ArtworkId);
    }
  }

  /** Every category button past "All" matches at least one artwork, so no filter shows an empty grid. */
  lemma NoEmptyCategory()
    ensures Categories[0] == "All"
    ensures forall c :: 1 <= c < |Categories| ==> FilteredItems(Artworks, Categories[c]) != []
  {
    forall c | 1 <= c < |Categories| ensures FilteredItems(Artworks, Categories[c]) != [] {
      assert Artworks[c - 1].category == Categories[c];
    }
  }

  /** The position of the open artwork in the filtered list: the first index with its id, or -1. */
  function CurrentIndex(filtered: seq<Artwork>, selected: Option<Artwork>): (ci: int)
    ensures -1 <= ci < |filtered|
    ensures selected == None ==> ci == -1
    ensures 0 <= ci ==> selected.Some? && filtered[ci].id == selected.value.id
    ensures 0 <= ci ==> forall j :: 0 <= j < ci ==> filtered[j].id != selected.value.id
    ensures selected.Some? && ci == -1 ==> !HasKey(filtered, ArtworkId, selected.value.id)
  {
    match selected
    case None => -1
    case Some(a) => FindKey(filtered, ArtworkId, a.id)
  }

  /** The previous-arrow is shown. */
  predicate ShowPrev(filtered: seq<Artwork>, selected: Option<Artwork>) {
    CurrentIndex(filtered, selected) > 0
  }

  /** The next-arrow is shown. */
  predicate ShowNext(filtered: seq<Artwork>, selected: Option<Artwork>) {
    CurrentIndex(filtered, selected) < |filtered| - 1
  }

  /** The selection after `goToNext`: the following artwork if there is one, else unchanged. */
  function NextSelection(filtered: seq<Artwork>, selected: Option<Artwork>): Option<Artwork> {
    var ci := CurrentIndex(filtered, selected);
    if ci < |filtered| - 1 then Some(filtered[ci + 1]) else selected
  }

  /** The selection after `goToPrev`: the preceding artwork if there is one, else unchanged. */
  function PrevSelection(filtered: seq<Artwork>, selected: Option<Artwork>): Option<Artwork> {
    var ci := CurrentIndex(filtered, selected);
    if ci > 0 then Some(filtered[ci - 1]) else selected
  }

  /** With unique ids, `goToNext` advances the current index by exactly one, or stays at the end. */
  lemma NextAdvances(filtered: seq<Artwork>, selected: Option<Artwork>)
    requires UniqueKeys(filtered, ArtworkId)
    ensures var ci := CurrentIndex(filtered, selected);
      CurrentIndex(filtered, NextSelection(filtered, selected)) == if ci < |filtered| - 1 then ci + 1 else ci
  {
    var ci := CurrentIndex(filtered, selected);
    if ci < |filtered| - 1 {
      FindKeyOfUnique(filtered, ArtworkId, ci + 1);
    }
  }

  /** With unique ids, `goToPrev` moves the current index back by exactly one, or stays at the start. */
  lemma PrevRetreats(filtered: seq<Artwork>, selected: Option<Artwork>)
    requires UniqueKeys(filtered, ArtworkId)
    ensures var ci := CurrentIndex(filtered, selected);
      CurrentIndex(filtered, PrevSelection(filtered, selected)) == if ci > 0 then ci - 1 else ci
  {
    var ci := CurrentIndex(filtered, selected);
    if ci > 0 {
      FindKeyOfUnique(filtered, ArtworkId, ci - 1);
    }
  }

  /** With unique ids, the next-arrow is shown exactly when `goToNext` changes the selection. */
  lemma NextArrowMoves(filtered: seq<Artwork>, selected: Option<Artwork>)
    requires UniqueKeys(filtered, ArtworkId)
    ensures ShowNext(filtered, selected) <==> NextSelection(filtered, selected) != selected
  {
    var ci := CurrentIndex(filtered, selected);
    if ci < |filtered| - 1 && selected.Some? {
      assert filtered[ci + 1].id != selected.value.id;
    }
  }

  /** With unique ids, the previous-arrow is shown exactly when `goToPrev` changes the selection. */
  lemma PrevArrowMoves(filtered: seq<Artwork>, selected: Option<Artwork>)
    requires UniqueKeys(filtered, ArtworkId)
    ensures ShowPrev(filtered, selected) <==> PrevSelection(filtered, selected) != selected
  {
    var ci := CurrentIndex(filtered, selected);
    if ci > 0 {
      assert filtered[ci - 1].id != filtered[ci].id;
    }
  }

  /** Stepping forward and then back returns to the artwork the lightbox started on. */
  lemma NextThenPrev(filtered: seq<Artwork>, i: int)
    requires UniqueKeys(filtered, ArtworkId) && 0 <= i < |filtered| - 1
    ensures PrevSelection(filtered, NextSelection(filtered, Some(filtered[i]))) == Some(filtered[i])
  {
    FindKeyOfUnique(filtered, ArtworkId, i);
    FindKeyOfUnique(filtered, ArtworkId, i + 1);
  }

  /** The state of the gallery page. */
  class GalleryPage {
    /** The artworks the page lists. */
    const items: seq<Artwork>
    var selectedCategory: string
    var selectedItem: Option<Artwork>

    /** The artworks under the chosen filter. */
    function Filtered(): seq<Artwork>
      reads this
    {
      FilteredItems(items, selectedCategory)
    }

    constructor ()
      ensures items == Artworks
      ensures selectedCategory == "All" && selectedItem == None
      ensures Filtered() == Artworks
    {
      items := Artworks;
      selectedCategory := "All";
      selectedItem := None;
    }

    method SelectCategory(c: string)
      modifies this`selectedCategory
      ensures selectedCategory == c
    {
      selectedCategory := c;
    }

    /** A click on an artwork opens the lightbox on it. */
    method Open(a: Artwork)
      modifies this`selectedItem
      ensures selectedItem == Some(a)
    {
      selectedItem := Some(a);
    }

    /** The close button or a click on the backdrop. */
    method Close()
      modifies this`selectedItem
      ensures selectedItem == None
    {
      selectedItem := None;
    }

    method GoToNext()
      modifies this`selectedItem
      ensures selectedItem == NextSelection(Filtered(), old(selectedItem))
    {
      var filtered := Filtered();
      var ci := CurrentIndex(filtered, selectedItem);
      if ci < |filtered| - 1 {
        selectedItem := Some(filtered[ci + 1]);
      }
    }

    method GoToPrev()
      modifies this`selectedItem
      ensures selectedItem == PrevSelection(Filtered(), old(selectedItem))
    {
      var filtered := Filtered();
      var ci := CurrentIndex(filtered, selectedItem);
      if ci > 0 {
        selectedItem := Some(filtered[ci - 1]);
      }
    }
  }
}
