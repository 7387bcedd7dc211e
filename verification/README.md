# CODE THE ROOTS — a Dafny model of the scavenger-hunt logic

CODE THE ROOTS is a browser scavenger hunt set in the Phú Thọ Hòa tunnels.
There is a fixed catalog of seven stations. Each visit draws three of them as
the session. The player walks a normalised 100×100 map, either by arrow
buttons or by tilting and shaking the phone. Stations within 15 units are
"nearby". A station can be collected in two ways:

- from the map, through a confirmation modal that reads a story aloud. Any
  session station can be opened this way; being nearby only changes how it
  is drawn;
- from the AR camera view, by tapping its floating AR item. Only nearby
  stations have AR items, so this path depends on proximity.

Collected records form the ledger. The ledger is mirrored into local storage
and shown on the inventory page.

The model is functional: immutable records and sequences, and pure functions
with contracts. The modules follow the program's concerns rather than its
files: the map view's logic lives in `Proximity` and `App`, and shared
helpers and tables have modules of their own.

- `Common` (common.dfy) holds the shared types. These are stations, collected
  records (`Item`, whose `nftImage` may be absent), points, and JavaScript's
  `includes` and `toLowerCase` (ASCII and Latin-1 letters).
- `Catalog` (catalog.dfy) holds the seven stations, copied field by field.
- `Ledger` (ledger.dfy) has three parts:
  - the guarded append `Collect`, with the first-match `FindById`;
  - the storage map;
  - the start-up `Load` and the write-through `Save`.
- `App` (app.dfy) models the top-level component:
  - session selection over an arbitrary permutation (the random shuffle);
  - the start-up effect;
  - the four handlers that reach the ledger;
  - an event-sequence invariant: ids stay distinct, records come from the
    catalog, storage mirrors the ledger, and the ledger only grows.
- `Proximity` (proximity.dfy) models the position updates and the nearby
  filter. MapView.jsx and CameraView.jsx contain this code twice; it is
  modelled once. Distances are compared squared (`< 225`), so no square root
  is needed.
- `Camera` (camera.dfy) models the AR view:
  - the configuration table with its `PT1` fallback;
  - AR items derived from the nearby stations;
  - the click/complete flow that reports a record and removes the AR item;
  - the animation style.
- `Inventory` (inventory.dfy) models progress, the empty / completed /
  remaining summary, the NFT image table with its `G4` fallback, and the
  cards.
- `Narration` (narration.dfy) models the story and description tables of the
  collection modal, with their templated defaults. The program's lookups use
  the tables as the file spells them; the `Intended…` lookups use the
  evidently intended spelling.
- `Voices` (voices.dfy) models the seven-tier voice cascade of
  `startHistoricalStory` and the utterance settings.
- `Modal` (modal.dfy) models what the collection modal shows and the
  `isCollecting` guard, which reports a collection at most once.

Inputs the program takes from the browser are parameters of the model:

| browser input | how the model takes it |
|---|---|
| storage | a map |
| the shuffle | a permutation |
| sensor readings | optional reals |
| the speech engine's voice list | a sequence |
| its availability | a boolean |

Timers are sequential steps.

## Model

| member | source | states |
|---|---|---|
| Common.Snapshot | src/App.jsx:62 | the record appended for a collected station is a full copy of it, NFT code included |
| Common.Includes | src/components/CollectionModal.jsx:87-88 | `includes`: the empty string occurs in every string, a string occurs in itself, and nothing longer than a string occurs in it |
| Common.LowerChar | src/components/CollectionModal.jsx:88 | every upper-case letter of ASCII and Latin-1, and the Kelvin sign, goes to its lower-case partner (an ASCII letter moves by 32); every other character is kept; no upper-case letter results |
| Common.ToLower | src/components/CollectionModal.jsx:88 | `toLowerCase` lowers each character in place, keeps characters without a partner, and leaves no upper-case letter |
| Common.ToLowerIdempotent | src/components/CollectionModal.jsx:88 | lowering a lowered name changes nothing |
| Catalog.WellFormed | src/App.jsx:19-27 | the catalog has seven stations with pairwise distinct ids, all among PT1..PT7, every position inside [0,100]² |
| Ledger.FindById | src/App.jsx:61 | `find` by id: finds a record iff one carries the id, and returns the first such record |
| Ledger.Collect | src/App.jsx:61-62 | an id already present leaves the ledger unchanged; an absent one appends exactly that record at the end with every earlier entry kept |
| Ledger.CollectKeepsUnique | src/App.jsx:77-80 | the guarded append preserves pairwise-distinct ids, never shrinks the ledger, keeps its prefix and leaves the id present |
| Ledger.CollectIdempotent | src/App.jsx:78-79 | collecting the same record twice equals collecting it once |
| Ledger.Load | src/App.jsx:30-34 | the ledger starts empty and is replaced only when the items key holds a truthy value; a stored text that is not a serialised ledger is reported, not recovered |
| Ledger.Save | src/App.jsx:50-53 | the write-through stores the ledger under the items key, touches no other key, and loading afterwards yields exactly that ledger |
| App.SelectSession | src/App.jsx:40-41 | for any permutation, the session has min(k, 7) stations, all from the catalog, with distinct ids when the catalog's are |
| App.Startup | src/App.jsx:29-53 | start-up fails exactly on an unparsable stored ledger; otherwise it gives the loaded ledger, a session of three distinct catalog stations and a closed modal; the visited flag becomes "true" only on a first visit; storage mirrors the ledger |
| App.SessionIgnoresVisitedFlag | src/App.jsx:37-47 | first and return visits with the same permutation draw the same session; a return visit keeps the stored flag |
| App.HandleStationClick | src/App.jsx:55-58 | clicking selects the station and opens the modal; the ledger, session and storage are untouched |
| App.HandleCollectItem | src/App.jsx:60-66 | always closes the modal and clears the selection; with no selection or an already-collected id the ledger is unchanged; otherwise the station's copy is appended; storage keeps mirroring the ledger |
| App.HandleCloseModal | src/App.jsx:72-75 | closing clears the selection and the modal and leaves ledger and storage as they are |
| App.HandleCameraStationFound | src/App.jsx:77-81 | the camera callback appends the reported record iff its id is absent; selection and modal are untouched; storage keeps mirroring the ledger |
| App.Step | src/App.jsx:55-81 | one event either leaves the ledger alone or appends one record at its end; clicks and closes touch neither ledger nor storage; a click opens the modal on the station, and confirming or closing leaves it closed with nothing selected |
| App.Run | src/App.jsx:55-81 | over any event sequence the session is fixed and the ledger grows only at its end, by at most one record per event |
| App.StartupValid | src/App.jsx:29-53 | start-up from a readable store gives a state satisfying the ledger invariant iff the stored ledger has distinct catalog ids |
| App.FirstVisitStaysValid | src/App.jsx:29-81 | from a first visit with nothing stored, any sequence of catalog events keeps the invariant, and the ledger never holds more than seven records |
| App.StepKeepsValid | src/App.jsx:55-81 | one catalog event keeps the ledger invariant (distinct catalog ids, storage mirror) and keeps the old ledger as a prefix |
| App.CollectItemKeepsValid | src/App.jsx:60-66 | confirming a collection keeps the ledger invariant and the old ledger as a prefix |
| App.CameraFoundKeepsValid | src/App.jsx:77-81 | a camera report of a catalog station keeps the ledger invariant and the old ledger as a prefix |
| App.CollectKeepsFromCatalog | src/App.jsx:61-62 | the guarded append of a catalog record keeps every record a catalog station's |
| App.RunKeepsValid | src/App.jsx:50-81 | across any sequence of catalog events the ids stay pairwise distinct, storage mirrors the ledger, and the ledger never shrinks and only grows at its end |
| App.LedgerAtMostCatalog | src/App.jsx:19-27 | a ledger of distinct catalog ids has at most seven records |
| App.IdsCount | src/App.jsx:60-62 | a ledger with distinct ids has exactly as many distinct ids as records |
| App.SubsetCard | src/App.jsx:19-27 | a subset of the catalog ids is no larger than the catalog id set |
| Proximity.Clamp | src/components/MapView.jsx:74-75 | `max(0, min(100, v))` is the nearest point of [0,100]: in-range values are kept, values below 0 map to 0 and values above 100 map to 100 |
| Proximity.ManualMove | src/components/MapView.jsx:150-168 | a step of 5 on exactly one axis, clamped at the edge it approaches; an unknown direction changes nothing; a position inside the map stays inside |
| Proximity.MoveAtEdgeIsNoOp | src/components/MapView.jsx:155-162 | moving towards an edge the position already sits on is a no-op |
| Proximity.OppositeMovesCancel | src/components/MapView.jsx:155-162 | away from the edges, opposite moves cancel |
| Proximity.MotionUpdate | src/components/MapView.jsx:62-79 | the motion handler moves only when the squared acceleration exceeds 225; each coordinate then becomes twice its acceleration component added and clamped into [0,100], so an in-range move is exact and an overshoot stops at the edge |
| Proximity.OrientationUpdate | src/components/MapView.jsx:96-113 | y becomes the previous y plus 0.8·beta, clamped into [0,100]; x less 0.3·alpha is the previous x plus 0.8·gamma, clamped |
| Proximity.OrientationLeavesMap | src/components/MapView.jsx:107-112 | the alpha term added after the clamp can carry x outside the map (from the centre with alpha 180, x becomes 104) |
| Proximity.IsNear | src/components/MapView.jsx:137-141 | a station at the player's position is near, and every near station lies strictly within 15 of it on each axis |
| Proximity.Nearby | src/components/MapView.jsx:135-146 | the nearby list is an order-preserving subsequence of the stations holding every station, and only the stations, strictly within 15 |
| Proximity.NearbySingleton | src/components/MapView.jsx:141 | a station is nearby iff its squared distance is below 225; one at distance exactly 15 is excluded |
| Proximity.NearbyAllOrNone | src/components/CameraView.jsx:235-241 | a list of only near stations is kept whole, and a list of only far ones gives nothing |
| Proximity.NearbyAppend | src/components/CameraView.jsx:235-241 | filtering a concatenation is the concatenation of the filtered parts |
| Camera.ConfigFor | src/components/CameraView.jsx:255 | the configuration is the table entry for a known id and PT1's otherwise, always a row of the table |
| Camera.ArItemsOf | src/components/CameraView.jsx:245-258 | one AR item per station in the same order, carrying its id, name, item, icon and position, its configuration, and not discovered or pulsing |
| Camera.DeriveArItems | src/components/CameraView.jsx:232-263 | the AR items are those of the nearby stations, index by index and in the stations' order; each comes from a station strictly within 15, and every such station has its item |
| Camera.DeriveArItemsAppend | src/components/CameraView.jsx:232-258 | the AR items of a concatenation of stations are those of each part, in order |
| Camera.RemoveById | src/components/CameraView.jsx:277 | removal drops every item with the id and keeps all others, in order |
| Camera.RemoveAbsentId | src/components/CameraView.jsx:277 | removing an id no item carries changes nothing |
| Camera.RemoveIdempotent | src/components/CameraView.jsx:277 | removing the same id twice equals removing it once |
| Camera.RemoveKeepsCopies | src/components/CameraView.jsx:277 | every item with another id keeps exactly as many copies as it had |
| Camera.RemoveAppend | src/components/CameraView.jsx:277 | removing from a concatenation is the concatenation of the removals |
| Camera.RemoveSingleton | src/components/CameraView.jsx:277 | a single item is kept iff its id differs from the removed one |
| Camera.Mount | src/components/CameraView.jsx:5 | the view starts at (50, 50), inside the map, with the items derived there and nothing being collected |
| Camera.Move | src/components/CameraView.jsx:284-304 | a move in one of the four directions puts the player where `ManualMove` says (a clamped 5-unit step), keeps the location in the map and re-derives the AR items; any other direction changes nothing at all, AR items included; the collection state is never touched |
| Camera.UnknownDirectionKeepsItems | src/components/CameraView.jsx:232-263 | with one station at (50, 50) and its AR item already removed, an unknown direction keeps the view without AR items, while a move up re-derives the station's item |
| Camera.Click | src/components/CameraView.jsx:265-268 | clicking selects the AR item and sets the collecting flag |
| Camera.AfterCollect | src/components/CameraView.jsx:273-277 | after the timer the selection and the collecting flag are cleared, and the AR items with the id are dropped while all others stay, in order |
| Camera.Complete | src/components/CameraView.jsx:270-277 | as written, completion reports one record: the clicked AR item's id, name, item and icon, with no NFT code; the view is left as `AfterCollect` says |
| Camera.CompleteCorrected | src/components/CameraView.jsx:270-277 | with the corrected report, the record is the copy of the session station with the clicked id, NFT code included, when one exists |
| Camera.ReportedAsWritten | src/components/CameraView.jsx:505 | the record reported as written carries the AR item's id and display fields but no NFT code |
| Camera.Reported | src/components/CameraView.jsx:272 | the corrected report is the full copy of a session station with the clicked id, when one exists |
| Camera.ReportedById | src/components/CameraView.jsx:265-272 | in a session with distinct ids, the corrected report for an id is the full copy of the one station carrying it, NFT code included |
| Camera.AnimationStyle | src/components/CameraView.jsx:335-367 | the size is twice the scale; the glow is present iff configured; each of the seven names gets its keyframe string and any other name gets the base style only |
| Camera.EveryConfigAnimated | src/components/CameraView.jsx:20-84 | every configuration, the fallback included, names one of the seven animations, so every AR item is animated |
| Camera.ConfigAnimationsDistinct | src/components/CameraView.jsx:20-84 | the animation determines the station: no two stations share one |
| Inventory.Progress | src/components/Inventory.jsx:4 | progress·total = 100·collected; it lies in [0,100] when collected ≤ total and equals 100 when all are collected; there is no value for an empty catalog |
| Inventory.ProgressMonotone | src/components/Inventory.jsx:4 | progress never decreases as records are added |
| Inventory.SummaryOf | src/components/Inventory.jsx:217-252 | the empty state shows iff nothing is collected; otherwise the completion message shows iff collected = total, and the remaining count is total − collected |
| Inventory.SummaryOfValidLedger | src/components/Inventory.jsx:246-248 | for any reachable ledger, the remaining count shown is positive and progress lies in [0,100] |
| Inventory.NftImage | src/components/Inventory.jsx:7-18 | the image shown is always one of the table's images |
| Inventory.ImageFrom | src/components/Inventory.jsx:17 | `nftImages[code] \|\| nftImages['G4']`: the entry for a code in the table; G4's entry for an absent code or none |
| Inventory.NftImageTable | src/components/Inventory.jsx:7-18 | the table holds exactly G4..G10; each maps to its own image and no two share one; any other code, or none, maps to G4's |
| Inventory.MarkedIsInjective | src/components/Inventory.jsx:8-16 | a table whose every image carries its own code's marker character maps different codes to different images |
| Inventory.ImagesMarked | src/components/Inventory.jsx:8-16 | the inventory table holds exactly the seven codes, and each image carries its code after "text=G" |
| Inventory.Cards | src/components/Inventory.jsx:98-120 | one card per ledger record, in ledger order, keyed by its id and showing its item, name and NFT image |
| Inventory.CardKeysUnique | src/components/Inventory.jsx:98-100 | the card keys are distinct iff the ledger's ids are |
| Inventory.MapCollectedShowsOwnImage | src/components/Inventory.jsx:118 | a catalog station collected from the map shows its own NFT image |
| Inventory.CameraCollectedShowsFallback | src/components/CameraView.jsx:505 | as written, PT3 (code G6) collected through the camera at (75, 25) shows G4's image, which differs from G6's |
| Inventory.CameraReportShowsFallback | src/components/CameraView.jsx:505 | as written, every record the camera view reports shows G4's image |
| Inventory.CameraCollectedShowsOwnImage | src/components/Inventory.jsx:118 | with the corrected report, a station of a session with distinct catalog ids, collected through the camera from an AR item carrying its id, shows its own NFT image |
| Narration.IndexOf | src/components/CollectionModal.jsx:223 | the lookup finds the first entry equal to the key, and finds one iff the key is in the table |
| Narration.DefaultStoryText | src/components/CollectionModal.jsx:223 | the default story embeds the station name right after the opening text and the item name right after the middle text |
| Narration.StoryFrom | src/components/CollectionModal.jsx:206-224 | a station name among the keys gets its scripted entry; any other name gets the default story embedding both names |
| Narration.HistoricalStory | src/components/CollectionModal.jsx:206-224 | `getHistoricalStory` as written: a name equal to one of the file's (double-encoded) keys gets that entry; any other gets the file's default text with the station name after its opening and the item name further on |
| Narration.IntendedHistoricalStory | src/components/CollectionModal.jsx:206-224 | with the keys and text as intended, a catalog station name gets its own entry and any other name gets the default embedding both names |
| Narration.DescriptionFrom | src/components/CollectionModal.jsx:226-237 | an item name among the keys gets its scripted entry for the station; any other name gets the default description, the station name between the opening and the closing text |
| Narration.ItemDescription | src/components/CollectionModal.jsx:226-237 | `getItemDescription` as written: an item equal to one of the file's (double-encoded) keys gets that entry; any other gets the file's default text with the station name after its opening |
| Narration.IntendedItemDescription | src/components/CollectionModal.jsx:226-237 | with the keys and text as intended, a catalog item gets its own entry and any other gets the default naming the station |
| Narration.StoryKeysMissCatalog | src/components/CollectionModal.jsx:207-222 | no catalog station name equals a story key as the file spells it |
| Narration.ItemKeysMissCatalog | src/components/CollectionModal.jsx:227-235 | no catalog item name equals a description key as the file spells it, character for character |
| Narration.AsWrittenTablesMiss | src/components/CollectionModal.jsx:206-237 | as written, every catalog station gets the default story and the default description, in the file's double-encoded text |
| Narration.IntendedTablesHit | src/components/CollectionModal.jsx:206-237 | with the keys as intended, catalog station k gets scripted story k and scripted description k |
| Narration.AsWrittenKeysDistinct | src/components/CollectionModal.jsx:206-235 | the keys of both tables, as the file spells them, are pairwise distinct |
| Narration.AsWrittenKeysHit | src/components/CollectionModal.jsx:206-237 | as written, a name spelled exactly like the file's k-th story or description key gets the k-th scripted entry |
| Voices.FindTier | src/components/CollectionModal.jsx:86-89 | `voices.find(tier)`: returns the first index whose voice passes the tier, or reports that none does |
| Voices.Tier | src/components/CollectionModal.jsx:86-137 | tiers 1-2 pass only Vietnamese voices and tiers 3-4 only English ones; tier 3 needs a female mark; from tier 6 on a voice marked male fails, and tier 7 passes every other voice |
| Voices.TierNesting | src/components/CollectionModal.jsx:101-137 | tier 3 implies tier 5, and tier 6 implies tier 7 |
| Voices.UpperCaseFemaleWordMatches | src/components/CollectionModal.jsx:86-89 | a Vietnamese voice named "NÁ»¯", the tier-1 word with its first two letters in upper case, passes tier 1 |
| Voices.SelectFrom | src/components/CollectionModal.jsx:86-138 | the cascade picks a voice iff the list is non-empty; the pick is in the list, and it is either the first match of the earliest matching tier or the first voice when no tier matches |
| Voices.SelectVoice | src/components/CollectionModal.jsx:86-138 | a voice is selected iff the list is non-empty, and it is one of the listed voices |
| Voices.EarliestTierWins | src/components/CollectionModal.jsx:86-131 | when tier t is the earliest tier with a match, the chosen voice is tier t's first match in list order |
| Voices.FallsBackToFirst | src/components/CollectionModal.jsx:135-138 | with no tier matching, the first voice is chosen; in particular, an all-male list that fails tiers 1 to 6 falls back to voices[0] |
| Voices.StartStory | src/components/CollectionModal.jsx:64-170 | nothing happens without speech; otherwise the utterance carries the story `getHistoricalStory` gives as written and the chosen voice (present iff voices exist). Its language is the voice's, or `en-US` when there is no voice. Rate, pitch and volume are 0.85, 1.4 and 1.0 |
| Modal.ModalNftImage | src/components/CollectionModal.jsx:12-23 | the modal's image is always one of its table's images, and is the table entry for a known code |
| Modal.ModalImagesDistinct | src/components/CollectionModal.jsx:13-21 | the modal table has exactly the seven codes, with pairwise different images |
| Modal.ModalImagesMarked | src/components/CollectionModal.jsx:13-21 | each image of the modal table carries its code after "text=G" |
| Modal.ModalImageTable | src/components/CollectionModal.jsx:12-23 | each of the seven codes shows its own image in the modal, and any other code shows G4's |
| Modal.ViewOf | src/components/CollectionModal.jsx:278-312 | the modal shows the station's NFT image and, as written, its story and its item description |
| Modal.CatalogViews | src/components/CollectionModal.jsx:206-237 | as written, each catalog station's modal shows its own image, and a default story naming the station and its item and a default description naming the station |
| Modal.Press | src/components/CollectionModal.jsx:239-246 | a press while collecting is ignored; otherwise collecting starts, speech stops and exactly one report is scheduled |
| Modal.Fire | src/components/CollectionModal.jsx:242-245 | a firing timer turns one scheduled report into a delivered one and changes nothing else |
| Modal.CollectAtMostOnce | src/components/CollectionModal.jsx:239-246 | whatever the sequence of presses, timers and speech events, at most one report is ever scheduled or delivered, and one exists iff the modal is collecting |
| Modal.CollectingStays | src/components/CollectionModal.jsx:241 | once collecting, the modal stays collecting for the rest of its life |
| Modal.PressThenFire | src/components/CollectionModal.jsx:239-246 | a press and its timer deliver exactly one report; further presses add none |

## Left out

- Rendering, styling, navigation, the QR modal (QRCodeModal.jsx), camera
  stream start/switch/stop, permission requests and listener registration.
  These are browser plumbing with no decision logic.
- Speech `speak`/`cancel` and the utterance event handlers are left out. The
  model stops at the utterance that would be spoken (`Voices.StartStory`) and
  at the `isSpeaking` flag. The one-second auto-start timer of the modal is
  left out too.
- `JSON.parse`/`JSON.stringify` are left out. A stored ledger is either a
  serialised ledger or some other text, and any other text is reported as
  `Unparsed` (`App.Startup` gives no state). For text that is not JSON
  this matches the app, which parses it without error handling. Text that
  is JSON but not a ledger, such as `5` or `{}`, parses, and the app starts
  with a ledger that is not an array; that state is not modelled.
- `Math.random`: the shuffle is any permutation, and the AR items' random
  depth is not modelled.
- Floating point: coordinates, progress and sensor readings are exact reals.
  The square root of the distance test is replaced by comparing squares.
- Timers are sequential steps. The camera path can race: it checks the
  render-time ledger but appends to the latest one. That race is left out,
  and the check-then-append is atomic (`Ledger.Collect`).
- The modal's collect timer (CollectionModal.jsx:243-244) calls the
  `handleCollectItem` of the render in which the button was pressed
  (App.jsx:60-62), so that call still sees the station selected at the
  press. Closing the modal within the 1.5 s therefore still collects the
  station. The model's `CollectConfirmed` reads the current selection, so
  `ModalClosed` followed by `CollectConfirmed` collects nothing there.
- `Item` keeps the id, name, item, icon, position and NFT code of a
  collected record. The camera record spreads the whole AR item (App.jsx:79),
  so it also carries `config`, `discovered`, `pulse` and the depth `z`. No
  part of the program reads these, so they are dropped.
- `collectedAt` is read by the inventory but never written, so it is not
  modelled. The hard-coded "/7" labels are display only.
- Proximity.OrientationUpdate: no bounds claim for x. The source adds the
  alpha term after clamping, so x can leave the map; the lemma
  `OrientationLeavesMap` shows this.
- Common.ToLower: lowers the upper-case letters of ASCII and Latin-1 and the
  Kelvin sign; other letters keep their case. The voice tiers look for ASCII
  words and the double-encoded word "ná»¯". For these words the model agrees
  with `toLowerCase`, because no other character lowers to one of their
  letters. The one exception is "İ", which lowers to "i" followed by a
  combining dot, and none of the words contains that pair.
- Narration.HistoricalStory: the scripted stories and descriptions are
  represented by their table index, not by their prose. The templated
  defaults are spelled out.
- Voices.StartStory: voices are records with a string `lang`. A voice
  without `lang`, where `includes` would throw, is not modelled.
- The camera view's motion and orientation handlers are the same code as the
  map view's and are modelled once (`Proximity`).
- Keys that a plain object inherits from its prototype are not modelled.
  Examples are `toString` and `constructor`. This affects the object-literal
  tables: the NFT image tables, the story and description tables and the AR
  configurations. A name or code equal to such a key would find the
  inherited member instead of taking the default.

## Findings

| source | as written | input that shows it | evidently intended | confidence | as-written member | corrected member |
|---|---|---|---|---|---|---|
| src/components/CameraView.jsx:505 | the AR item's click handler passes the AR item itself to `handleStationClick`, so `onStationFound` receives an object with no `nftImage`, and App.jsx:79 stores `nftImage: undefined` | collect PT3 (code G6) from the camera at (75, 25): the inventory card shows G4's image | report the session station itself, with its NFT code | high; not executed | Inventory.CameraCollectedShowsFallback | Inventory.CameraCollectedShowsOwnImage |
| src/components/CollectionModal.jsx:206-237 | the story and description table keys are stored double-encoded (UTF-8 read as Windows-1252, with some bytes lost), so they never equal the catalog's names and items | open the modal for PT1 "CỔNG ĐỊA ĐẠO PHÚ THỌ HÒA": the default story and default description are shown | key the tables by the catalog's names and items, so each station gets its scripted story and description | medium; not executed | Narration.AsWrittenTablesMiss | Narration.IntendedTablesHit |

The double encoding affects more than the keys. It also affects the default
story and description texts at CollectionModal.jsx:223 and :236, the tier-1
voice word at line 88 and the modal's image labels at lines 14-20. All of
these are modelled as the file spells them: `Narration.AsWritten`,
`Voices.FemaleWordAsWritten` and `Modal.ModalImages`. The program's own
lookups (`Narration.HistoricalStory`, `Narration.ItemDescription`,
`Modal.ViewOf`, `Voices.StartStory`) use the texts as written. The intended
texts are used only by `Narration.IntendedHistoricalStory` and
`Narration.IntendedItemDescription`. The image labels cannot change which
branch runs. A Vietnamese voice named with "nữ" does not match tier 1.
