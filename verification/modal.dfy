/** The collection modal (CollectionModal.jsx): what it shows for a station
    (NFT image, story, description) and the guard that lets the collect button
    report to the application at most once. */
module Modal {
  import opened Common
  import Catalog
  import Inventory
  import Narration

  /** The modal's own image table, with the labels as the source file spells
      them (double-encoded; the URLs are opaque strings to the app). */
  const ModalImages: map<string, string> := map[
    "G4" := "https://via.placeholder.com/300x200/da251d/ffffff?text=G4+-+Báº£n+Äá»“+BÃ\U{00AD}+Máº\U{00AD}t",
    "G5" := "https://via.placeholder.com/300x200/ffd700/000000?text=G5+-+SÃºng+TrÆ°á»ng+Cá»•",
    "G6" := "https://via.placeholder.com/300x200/da251d/ffffff?text=G6+-+ÄÃ i+LiÃªn+Láº¡c",
    "G7" := "https://via.placeholder.com/300x200/ffd700/000000?text=G7+-+Bá»™+Dá»¥ng+Cá»¥+Y+Táº¿",
    "G8" := "https://via.placeholder.com/300x200/da251d/ffffff?text=G8+-+Ná»“i+Äá»“ng+Truyá»n+Thá»‘ng",
    "G9" := "https://via.placeholder.com/300x200/ffd700/000000?text=G9+-+Chiáº¿u+Cá»+DÃ¢n+Gian",
    "G10" := "https://via.placeholder.com/300x200/da251d/ffffff?text=G10+-+BÃ n+Há»p+Truyá»n+Thá»‘ng"
  ]

  /** `getNFTImage` of the modal: the table entry, or G4's for any other
      code. */
  function ModalNftImage(code: string): (r: string)
    ensures r in ModalImages.Values
    ensures code in ModalImages ==> r == ModalImages[code]
  {
    Inventory.ImageFrom(ModalImages, Some(code))
  }

  /** The modal's table holds exactly the seven codes, and no two codes share
      an image: the character after "text=G" tells them apart. */
  lemma ModalImagesDistinct()
    ensures forall c :: c in ModalImages <==> c in Inventory.Codes
    ensures forall a, b :: a in ModalImages && b in ModalImages && a != b ==> ModalImages[a] != ModalImages[b]
  {
    ModalImagesMarked();
    Inventory.MarkedIsInjective(ModalImages);
  }

  lemma ModalImagesMarked()
    ensures Inventory.Marked(ModalImages)
  {
    forall c | c in ModalImages ensures ModalMarked(c) {
      if c == "G4" || c == "G5" || c == "G6" { ModalMarkedFront(c); } else { ModalMarkedBack(c); }
    }
  }

  /** The image of `c` carries the marker of `c`. */
  predicate ModalMarked(c: string)
    requires c in ModalImages
  {
    Inventory.MarkerIndex < |ModalImages[c]| && ModalImages[c][Inventory.MarkerIndex] in Inventory.MarkerOwner &&
    Inventory.MarkerOwner[ModalImages[c][Inventory.MarkerIndex]] == c
  }

  lemma ModalMarkedFront(c: string)
    requires c == "G4" || c == "G5" || c == "G6"
    ensures ModalMarked(c)
  {
    if c == "G4" {} else if c == "G5" {} else {}
  }

  lemma ModalMarkedBack(c: string)
    requires c == "G7" || c == "G8" || c == "G9" || c == "G10"
    ensures ModalMarked(c)
  {
    if c == "G7" {} else if c == "G8" {} else if c == "G9" {} else {}
  }


  /** Each of the seven codes shows its own image in the modal, and any other
      code shows G4's. */
  lemma ModalImageTable(code: string)
    ensures code in Inventory.Codes ==> code in ModalImages && ModalNftImage(code) == ModalImages[code]
    ensures code !in Inventory.Codes ==> ModalNftImage(code) == ModalImages["G4"]
  {
    ModalImagesDistinct();
  }

  /** What the modal shows for a station. */
  datatype View = View(image: string, story: Narration.Story, description: Narration.Description)

  function ViewOf(s: Station): (r: View)
    ensures r.image == ModalNftImage(s.nftImage)
    ensures r.story == Narration.HistoricalStory(s.name, s.item)
    ensures r.description == Narration.ItemDescription(s.item, s.name)
  {
    View(ModalNftImage(s.nftImage), Narration.HistoricalStory(s.name, s.item), Narration.ItemDescription(s.item, s.name))
  }

  /** Every catalog station's modal shows its own image; as written, its
      story and description are the templated defaults, which name the
      station and (for the story) its item. */
  lemma CatalogViews(k: nat)
    requires k < |Catalog.Stations|
    ensures ViewOf(Catalog.Stations[k]).image == ModalImages[Inventory.Codes[k]]
    ensures ViewOf(Catalog.Stations[k]).story.DefaultStory?
    ensures Includes(ViewOf(Catalog.Stations[k]).story.text, Catalog.Stations[k].name)
    ensures Includes(ViewOf(Catalog.Stations[k]).story.text, Catalog.Stations[k].item)
    ensures ViewOf(Catalog.Stations[k]).description.DefaultDescription?
    ensures OccursAt(ViewOf(Catalog.Stations[k]).description.text, Catalog.Stations[k].name,
                     |Narration.DescriptionOpeningAsWritten|)
  {
    assert Catalog.Stations[k].nftImage == Inventory.Codes[k];
    ModalImageTable(Catalog.Stations[k].nftImage);
    Narration.AsWrittenTablesMiss(k);
  }

  // ---------------------------------------------------------------------
  // Collect guard

  /** The modal's collecting state: `isCollecting`, `isSpeaking`, the number
      of collect timers still pending and the number of `onCollect` calls
      made. */
  datatype ModalState = ModalState(collecting: bool, speaking: bool, pending: nat, delivered: nat)

  /** The modal as opened: not collecting, nothing scheduled or reported. */
  const Opened: ModalState := ModalState(false, false, 0, 0)

  datatype ModalEvent = CollectPressed | CollectTimerFired | SpeechStarted | SpeechEnded

  /** `handleCollect`: the button is disabled while collecting; otherwise the
      story stops, collecting starts and one `onCollect` is scheduled. */
  function Press(st: ModalState): (r: ModalState)
    ensures st.collecting ==> r == st
    ensures !st.collecting ==> r.collecting && !r.speaking && r.pending == st.pending + 1 && r.delivered == st.delivered
  {
    if st.collecting then st
    else ModalState(true, false, st.pending + 1, st.delivered)
  }

  /** A scheduled timer firing: one `onCollect` call. */
  function Fire(st: ModalState): (r: ModalState)
    ensures st.pending == 0 ==> r == st
    ensures st.pending > 0 ==> r.pending == st.pending - 1 && r.delivered == st.delivered + 1
    ensures r.collecting == st.collecting && r.speaking == st.speaking
    ensures r.pending + r.delivered == st.pending + st.delivered
  {
    if st.pending == 0 then st
    else st.(pending := st.pending - 1, delivered := st.delivered + 1)
  }

  function ModalStep(st: ModalState, e: ModalEvent): ModalState {
    match e
    case CollectPressed => Press(st)
    case CollectTimerFired => Fire(st)
    case SpeechStarted => st.(speaking := true)
    case SpeechEnded => st.(speaking := false)
  }

  function ModalRun(st: ModalState, events: seq<ModalEvent>): ModalState
    decreases |events|
  {
    if |events| == 0 then st else ModalRun(ModalStep(st, events[0]), events[1..])
  }

  /** At most one collection is ever scheduled or made, and one is exactly
      when the modal is collecting. */
  predicate GuardInvariant(st: ModalState) {
    st.pending + st.delivered <= 1 && (st.collecting <==> st.pending + st.delivered == 1)
  }

  /** Whatever the user does, the modal calls `onCollect` at most once, and
      only after the collect button was pressed. */
  lemma {:induction false} CollectAtMostOnce(st: ModalState, events: seq<ModalEvent>)
    requires GuardInvariant(st)
    ensures GuardInvariant(ModalRun(st, events))
    ensures ModalRun(st, events).delivered <= 1
    ensures !st.collecting && !ModalRun(st, events).collecting ==> ModalRun(st, events).delivered == 0
    decreases |events|
  {
    if |events| > 0 {
      var next := ModalStep(st, events[0]);
      assert GuardInvariant(next);
      assert next.collecting ==> st.collecting || events[0] == CollectPressed;
      CollectAtMostOnce(next, events[1..]);
      if !st.collecting && next.collecting {
        assert ModalRun(next, events[1..]).collecting by { CollectingStays(next, events[1..]); }
      }
    }
  }

  /** Once collecting, the modal stays collecting (until it is closed). */
  lemma {:induction false} CollectingStays(st: ModalState, events: seq<ModalEvent>)
    requires st.collecting
    ensures ModalRun(st, events).collecting
    decreases |events|
  {
    if |events| > 0 {
      CollectingStays(ModalStep(st, events[0]), events[1..]);
    }
  }

  /** From the freshly opened modal: a press followed by its timer delivers
      exactly one collection, and further presses add none. */
  lemma PressThenFire()
    ensures ModalRun(Opened, [CollectPressed, CollectTimerFired]).delivered == 1
    ensures ModalRun(Opened, [CollectPressed, CollectPressed, CollectTimerFired, CollectPressed]).delivered == 1
  {
    assert [CollectPressed, CollectTimerFired][1..] == [CollectTimerFired];
    assert [CollectPressed, CollectPressed, CollectTimerFired, CollectPressed][1..] == [CollectPressed, CollectTimerFired, CollectPressed];
    assert [CollectPressed, CollectTimerFired, CollectPressed][1..] == [CollectTimerFired, CollectPressed];
    assert [CollectTimerFired, CollectPressed][1..] == [CollectPressed];
  }
}
