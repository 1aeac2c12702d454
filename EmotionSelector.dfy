/** The selection highlighting of src/components/EmotionSelector.tsx. */
module EmotionSelector {
  import opened Types
  import opened Emotions

  /** One rendered catalog item and whether it is drawn as selected. */
  datatype SelectorItem = SelectorItem(emotion: Emotion, isSelected: bool)

  /** `selectedEmotion?.id === emotion.id`: an undefined selection matches nothing. */
  predicate Matches(selected: Option<Emotion>, emotion: Emotion) {
    selected.Some? && selected.value.id == emotion.id
  }

  /** One item per catalog emotion, in catalog order, each flagged by an id comparison. */
  function SelectorItems(selected: Option<Emotion>): (items: seq<SelectorItem>)
    ensures |items| == |Catalog|
    ensures forall i :: 0 <= i < |items| ==> items[i].emotion == Catalog[i]
    ensures forall i :: 0 <= i < |items| ==> (items[i].isSelected <==> Matches(selected, Catalog[i]))
  {
    seq(|Catalog|, i requires 0 <= i < |Catalog| => SelectorItem(Catalog[i], Matches(selected, Catalog[i])))
  }

  /** Nothing is highlighted while no emotion is chosen. */
  lemma NoneSelectedWhenUndefined()
    ensures forall item :: item in SelectorItems(None) ==> !item.isSelected
  {
  }

  /** Because catalog ids are unique, at most one item is highlighted. */
  lemma AtMostOneSelected(selected: Option<Emotion>, i: int, j: int)
    requires 0 <= i < j < |Catalog|
    ensures !(SelectorItems(selected)[i].isSelected && SelectorItems(selected)[j].isSelected)
  {
    CatalogShape();
  }

  /**
   * Matching is by id only: a copy of an emotion read back from storage, whatever its other
   * fields, highlights exactly the catalog item with its id.
   */
  lemma CopyHighlightsCatalogItem(copy: Emotion)
    requires 1 <= copy.id <= 6
    ensures SelectorItems(Some(copy)) == SelectorItems(Some(Catalog[copy.id - 1]))
    ensures forall i :: 0 <= i < |Catalog| ==> (SelectorItems(Some(copy))[i].isSelected <==> i == copy.id - 1)
  {
    CatalogShape();
    var a, b := SelectorItems(Some(copy)), SelectorItems(Some(Catalog[copy.id - 1]));
    assert forall i :: 0 <= i < |a| ==> a[i] == b[i];
  }
}
