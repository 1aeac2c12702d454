/** The mood catalog of src/utils/emotions.ts and its lookup by id. */
module Emotions {
  import opened Types

  /** The six moods, in display order, ids 1 to 6. */
  const Catalog: seq<Emotion> := [
    Emotion(1, "행복", "#fdce17", "😄"),
    Emotion(2, "좋음", "#9dd772", "😊"),
    Emotion(3, "보통", "#74c0fc", "😐"),
    Emotion(4, "나쁨", "#a5a1a1", "😔"),
    Emotion(5, "슬픔", "#6741d9", "😢"),
    Emotion(6, "화남", "#fa5252", "😡")
  ]

  /** Catalog ids are pairwise distinct. */
  predicate UniqueIds(emotions: seq<Emotion>) {
    forall i, j :: 0 <= i < j < |emotions| ==> emotions[i].id != emotions[j].id
  }

  /** The catalog holds six entries whose ids are 1..6 in ascending order, hence unique. */
  lemma CatalogShape()
    ensures |Catalog| == 6
    ensures forall i :: 0 <= i < |Catalog| ==> Catalog[i].id == i + 1
    ensures UniqueIds(Catalog)
  {
  }

  /** `emotions.find(e => e.id === id)` over any list, with `undefined` as `None`. */
  function FindEmotion(emotions: seq<Emotion>, id: int): (r: Option<Emotion>)
    ensures r.None? <==> forall i :: 0 <= i < |emotions| ==> emotions[i].id != id
    ensures r.Some? ==> r.value.id == id
    ensures r.Some? ==> exists i ::
      && 0 <= i < |emotions| && emotions[i] == r.value
      && forall j :: 0 <= j < i ==> emotions[j].id != id
  {
    if emotions == [] then None
    else if emotions[0].id == id then Some(emotions[0])
    else
      var r := FindEmotion(emotions[1..], id);
      assert forall i :: 1 <= i < |emotions| ==> emotions[i] == emotions[1..][i - 1];
      r
  }

  /** `getEmotionById`: the catalog entry with that id for 1..6, `undefined` otherwise. */
  function GetEmotionById(id: int): (r: Option<Emotion>)
    ensures 1 <= id <= 6 ==> r == Some(Catalog[id - 1])
    ensures !(1 <= id <= 6) ==> r == None
    ensures r.Some? ==> r.value.id == id && r.value in Catalog
  {
    CatalogShape();
    FindEmotion(Catalog, id)
  }
}
