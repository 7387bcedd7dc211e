/** The texts of the collection modal (CollectionModal.jsx): the historical
    story read aloud for a station and the description of its item. Each
    comes from a table keyed by name, with a templated default. The seven
    hand-written stories and descriptions are represented by their table
    entry; the templated defaults are spelled out. */
module Narration {
  import opened Common
  import Catalog

  /** The first index of `x` in `keys` (an object-property lookup). */
  function IndexOf(keys: seq<string>, x: string): (r: Option<nat>)
    ensures r.Some? ==> r.value < |keys| && keys[r.value] == x && forall j :: 0 <= j < r.value ==> keys[j] != x
    ensures r.None? <==> x !in keys
    decreases |keys|
  {
    if |keys| == 0 then None
    else if keys[0] == x then Some(0)
    else match IndexOf(keys[1..], x)
      case None => None
      case Some(k) => Some(k + 1)
  }

  /** A story: the hand-written entry of the table, or the templated default. */
  datatype Story = ScriptedStory(entry: nat) | DefaultStory(text: string)

  /** The story table's keys as the source file spells them: its text is
      stored double-encoded (UTF-8 read back as Windows-1252), so the keys are
      not the station names. */
  const StoryKeysAsWritten: seq<string> := [
    "Cá»”NG Äá»ŠA Äáº O PHÃš THá»Œ HÃ’A",
    "KHU TRÆ¯NG BÃ€Y VÅ¨ KHÃ",
    "Háº¦M CHá»ˆ HUY",
    "Háº¦M Y Táº¾",
    "Háº¦M Báº¾P",
    "Háº¦M NGá»¦",
    "KHU Vá»°C Há»ŒP"
  ]

  /** The story table's keys as evidently intended: the catalog's station
      names, in catalog order. */
  const StoryKeys: seq<string> := [
    "CỔNG ĐỊA ĐẠO PHÚ THỌ HÒA", "KHU TRƯNG BÀY VŨ KHÍ", "HẦM CHỈ HUY", "HẦM Y TẾ",
    "HẦM BẾP", "HẦM NGỦ", "KHU VỰC HỌP"
  ]

  /** The templated defaults' fixed text, as the source file spells it
      (double-encoded like the keys). */
  const StoryOpeningAsWritten: string := "Xin chÃ\U{00A0}o! TÃ´i lÃ\U{00A0} hÆ°á»›ng dáº«n viÃªn cá»§a báº¡n. ChÃ\U{00A0}o má»«ng báº¡n Ä‘áº¿n vá»›i "
  const StoryMiddleAsWritten: string := "! ÄÃ¢y lÃ\U{00A0} má»™t Ä‘á»‹a Ä‘iá»ƒm lá»‹ch sá»\U{00AD} quan trá»ng trong há»‡ thá»‘ng Ä‘á»‹a Ä‘áº¡o PhÃº Thá» HÃ²a. "
  const StoryClosingAsWritten: string := " mÃ\U{00A0} báº¡n khÃ¡m phÃ¡ Ä‘Æ°á»£c lÃ\U{00A0} hiá»‡n váº\U{00AD}t quÃ½ giÃ¡, chá»©a Ä‘á»±ng nhá»¯ng cÃ¢u chuyá»‡n vá» lÃ²ng dÅ©ng cáº£m vÃ\U{00A0} tinh tháº§n báº¥t khuáº¥t cá»§a nhÃ¢n dÃ¢n Viá»‡t Nam trong thá»i ká»³ khÃ¡ng chiáº¿n."
  const DescriptionOpeningAsWritten: string := "Má»™t hiá»‡n váº\U{00AD}t bÃ\U{00AD} áº©n tá»« "
  const DescriptionClosingAsWritten: string := " thuá»™c há»‡ thá»‘ng Äá»‹a Äáº¡o PhÃº Thá» HÃ²a."

  /** The same fixed text as evidently intended, in Vietnamese. */
  const StoryOpening: string := "Xin chào! Tôi là hướng dẫn viên của bạn. Chào mừng bạn đến với "
  const StoryMiddle: string := "! Đây là một địa điểm lịch sử quan trọng trong hệ thống địa đạo Phú Thọ Hòa. "
  const StoryClosing: string := " mà bạn khám phá được là hiện vật quý giá, chứa đựng những câu chuyện về lòng dũng cảm và tinh thần bất khuất của nhân dân Việt Nam trong thời kỳ kháng chiến."
  const DescriptionOpening: string := "Một hiện vật bí ẩn từ "
  const DescriptionClosing: string := " thuộc hệ thống Địa Đạo Phú Thọ Hòa."

  /** One spelling of the two lookups: the tables' keys and the fixed text of
      the templated defaults. */
  datatype Texts = Texts(storyKeys: seq<string>, storyOpening: string, storyMiddle: string, storyClosing: string,
                         itemKeys: seq<string>, descriptionOpening: string, descriptionClosing: string)

  /** The texts as the source file holds them. */
  const AsWritten: Texts := Texts(StoryKeysAsWritten, StoryOpeningAsWritten, StoryMiddleAsWritten, StoryClosingAsWritten,
                                  ItemKeysAsWritten, DescriptionOpeningAsWritten, DescriptionClosingAsWritten)

  /** The texts as evidently intended. */
  const Intended: Texts := Texts(StoryKeys, StoryOpening, StoryMiddle, StoryClosing,
                                 ItemKeys, DescriptionOpening, DescriptionClosing)

  /** The templated default story, naming the station and then the item. */
  function DefaultStoryText(t: Texts, stationName: string, itemName: string): (r: string)
    ensures OccursAt(r, stationName, |t.storyOpening|)
    ensures OccursAt(r, itemName, |t.storyOpening| + |stationName| + |t.storyMiddle|)
    ensures Includes(r, stationName) && Includes(r, itemName)
  {
    var r := t.storyOpening + stationName + t.storyMiddle + itemName + t.storyClosing;
    assert r[|t.storyOpening|..|t.storyOpening| + |stationName|] == stationName;
    OccursIncludes(r, stationName, |t.storyOpening|);
    var k := |t.storyOpening| + |stationName| + |t.storyMiddle|;
    assert r[k..k + |itemName|] == itemName;
    OccursIncludes(r, itemName, k);
    r
  }

  /** `stories[stationName] || default`. */
  function StoryFrom(t: Texts, stationName: string, itemName: string): (r: Story)
    ensures stationName in t.storyKeys ==> r.ScriptedStory? && r.entry < |t.storyKeys| && t.storyKeys[r.entry] == stationName
    ensures stationName !in t.storyKeys ==> r == DefaultStory(DefaultStoryText(t, stationName, itemName))
  {
    match IndexOf(t.storyKeys, stationName)
    case Some(k) => ScriptedStory(k)
    case None => DefaultStory(DefaultStoryText(t, stationName, itemName))
  }

  /** `getHistoricalStory` as written. */
  function HistoricalStory(stationName: string, itemName: string): (r: Story)
    ensures stationName !in StoryKeysAsWritten ==>
              r.DefaultStory? && OccursAt(r.text, stationName, |StoryOpeningAsWritten|) && Includes(r.text, itemName)
    ensures stationName in StoryKeysAsWritten ==>
              r.ScriptedStory? && r.entry < |StoryKeysAsWritten| && StoryKeysAsWritten[r.entry] == stationName
  {
    StoryFrom(AsWritten, stationName, itemName)
  }

  /** `getHistoricalStory` with the evidently intended keys and text. */
  function IntendedHistoricalStory(stationName: string, itemName: string): (r: Story)
    ensures stationName !in StoryKeys ==>
              r.DefaultStory? && OccursAt(r.text, stationName, |StoryOpening|) && Includes(r.text, itemName)
    ensures stationName in StoryKeys ==> r.ScriptedStory? && r.entry < |StoryKeys| && StoryKeys[r.entry] == stationName
  {
    StoryFrom(Intended, stationName, itemName)
  }

  /** A description: the hand-written entry of the table (which embeds the
      station name), or the templated default. */
  datatype Description = ScriptedDescription(entry: nat, stationName: string) | DefaultDescription(text: string)

  /** The description table's keys as the source file spells them. */
  const ItemKeysAsWritten: seq<string> := [
    "Báº£n Äá»“ BÃ\U{00AD} Máº\U{00AD}t",
    "SÃºng TrÆ°á»ng Cá»•",
    "ÄÃ\U{00A0}i LiÃªn Láº¡c",
    "Bá»™ Dá»¥ng Cá»¥ Y Táº¿",
    "Ná»“i Äá»“ng Truyá»n Thá»‘ng",
    "Chiáº¿u Cá» DÃ¢n Gian",
    "BÃ\U{00A0}n Há»p Truyá»n Thá»‘ng"
  ]

  /** The description table's keys as evidently intended: the catalog's item
      names, in catalog order. */
  const ItemKeys: seq<string> := [
    "Bản Đồ Bí Mật", "Súng Trường Cổ", "Đài Liên Lạc", "Bộ Dụng Cụ Y Tế",
    "Nồi Đồng Truyền Thống", "Chiếu Cỏ Dân Gian", "Bàn Họp Truyền Thống"
  ]

  /** `descriptions[itemName] || default`. */
  function DescriptionFrom(t: Texts, itemName: string, stationName: string): (r: Description)
    ensures itemName in t.itemKeys ==> r.ScriptedDescription? && r.stationName == stationName && r.entry < |t.itemKeys| && t.itemKeys[r.entry] == itemName
    ensures itemName !in t.itemKeys ==> r.DefaultDescription? && OccursAt(r.text, stationName, |t.descriptionOpening|)
    ensures itemName !in t.itemKeys ==> |r.text| == |t.descriptionOpening| + |stationName| + |t.descriptionClosing|
  {
    match IndexOf(t.itemKeys, itemName)
    case Some(k) => ScriptedDescription(k, stationName)
    case None =>
      var text := t.descriptionOpening + stationName + t.descriptionClosing;
      assert text[|t.descriptionOpening|..|t.descriptionOpening| + |stationName|] == stationName;
      DefaultDescription(text)
  }

  /** `getItemDescription` as written. */
  function ItemDescription(itemName: string, stationName: string): (r: Description)
    ensures itemName !in ItemKeysAsWritten ==>
              r.DefaultDescription? && OccursAt(r.text, stationName, |DescriptionOpeningAsWritten|)
    ensures itemName in ItemKeysAsWritten ==>
              r.ScriptedDescription? && r.entry < |ItemKeysAsWritten| && ItemKeysAsWritten[r.entry] == itemName && r.stationName == stationName
  {
    DescriptionFrom(AsWritten, itemName, stationName)
  }

  /** `getItemDescription` with the evidently intended keys and text. */
  function IntendedItemDescription(itemName: string, stationName: string): (r: Description)
    ensures itemName !in ItemKeys ==> r.DefaultDescription? && OccursAt(r.text, stationName, |DescriptionOpening|)
    ensures itemName in ItemKeys ==> r.ScriptedDescription? && r.entry < |ItemKeys| && ItemKeys[r.entry] == itemName && r.stationName == stationName
  {
    DescriptionFrom(Intended, itemName, stationName)
  }

  /** No catalog station name is a key of the story table as written: each key holds, at the index given, a character no station name has there. */
  lemma StoryKeysMissCatalog(k: nat)
    requires k < |Catalog.Stations|
    ensures Catalog.Stations[k].name !in StoryKeysAsWritten
  {
    if k < 4 { StoryKeysMissCatalogFront(k); } else { StoryKeysMissCatalogBack(k); }
  }

  // The two halves below share one body, a distinguishing character for each
  // key; the split over the stations only keeps each proof obligation small.

  lemma StoryKeysMissCatalogFront(k: nat)
    requires k < 4
    ensures Catalog.Stations[k].name !in StoryKeysAsWritten
  {
    var n := Catalog.Stations[k].name;
    var keys := StoryKeysAsWritten;
    assert keys[0][1] != n[1];
    assert keys[1][6] != n[6];
    assert keys[2][1] != n[1];
    assert keys[3][1] != n[1];
    assert keys[4][1] != n[1];
    assert keys[5][1] != n[1];
    assert keys[6][5] != n[5];
  }

  lemma StoryKeysMissCatalogBack(k: nat)
    requires 4 <= k < |Catalog.Stations|
    ensures Catalog.Stations[k].name !in StoryKeysAsWritten
  {
    var n := Catalog.Stations[k].name;
    var keys := StoryKeysAsWritten;
    assert keys[0][1] != n[1];
    assert keys[1][6] != n[6];
    assert keys[2][1] != n[1];
    assert keys[3][1] != n[1];
    assert keys[4][1] != n[1];
    assert keys[5][1] != n[1];
    assert keys[6][5] != n[5];
  }

  /** No catalog item name is a key of the description table as written. */
  lemma ItemKeysMissCatalog(k: nat)
    requires k < |Catalog.Stations|
    ensures Catalog.Stations[k].item !in ItemKeysAsWritten
  {
    if k < 4 { ItemKeysMissCatalogFront(k); } else { ItemKeysMissCatalogBack(k); }
  }

  // Split over the stations like the story keys above.

  lemma ItemKeysMissCatalogFront(k: nat)
    requires k < 4
    ensures Catalog.Stations[k].item !in ItemKeysAsWritten
  {
    var n := Catalog.Stations[k].item;
    var keys := ItemKeysAsWritten;
    assert keys[0][1] != n[1];
    assert keys[1][1] != n[1];
    assert keys[2][0] != n[0];
    assert keys[3][1] != n[1];
    assert keys[4][1] != n[1];
    assert keys[5][3] != n[3];
    assert keys[6][1] != n[1];
  }

  lemma ItemKeysMissCatalogBack(k: nat)
    requires 4 <= k < |Catalog.Stations|
    ensures Catalog.Stations[k].item !in ItemKeysAsWritten
  {
    var n := Catalog.Stations[k].item;
    var keys := ItemKeysAsWritten;
    assert keys[0][1] != n[1];
    assert keys[1][1] != n[1];
    assert keys[2][0] != n[0];
    assert keys[3][1] != n[1];
    assert keys[4][1] != n[1];
    assert keys[5][3] != n[3];
    assert keys[6][1] != n[1];
  }

  /** As written, no catalog station finds its story or its item's
      description: every one gets the templated defaults, in the file's
      double-encoded text, naming the station and the item. */
  lemma AsWrittenTablesMiss(k: nat)
    requires k < |Catalog.Stations|
    ensures HistoricalStory(Catalog.Stations[k].name, Catalog.Stations[k].item) ==
              DefaultStory(DefaultStoryText(AsWritten, Catalog.Stations[k].name, Catalog.Stations[k].item))
    ensures ItemDescription(Catalog.Stations[k].item, Catalog.Stations[k].name) ==
              DefaultDescription(DescriptionOpeningAsWritten + Catalog.Stations[k].name + DescriptionClosingAsWritten)
  {
    StoryKeysMissCatalog(k);
    ItemKeysMissCatalog(k);
  }

  /** The intended keys are pairwise distinct. */
  lemma StoryKeysDistinct()
    ensures forall i, j :: 0 <= i < j < |StoryKeys| ==> StoryKeys[i] != StoryKeys[j]
  {
    var k := StoryKeys;
    assert |k[0]| != |k[1]|;
    assert |k[0]| != |k[2]|;
    assert |k[0]| != |k[3]|;
    assert |k[0]| != |k[4]|;
    assert |k[0]| != |k[5]|;
    assert |k[0]| != |k[6]|;
    assert |k[1]| != |k[2]|;
    assert |k[1]| != |k[3]|;
    assert |k[1]| != |k[4]|;
    assert |k[1]| != |k[5]|;
    assert |k[1]| != |k[6]|;
    assert |k[2]| != |k[3]|;
    assert |k[2]| != |k[4]|;
    assert |k[2]| != |k[5]|;
    assert k[2][0] != k[6][0];
    assert |k[3]| != |k[4]|;
    assert |k[3]| != |k[5]|;
    assert |k[3]| != |k[6]|;
    assert k[4][4] != k[5][4];
    assert |k[4]| != |k[6]|;
    assert |k[5]| != |k[6]|;
  }

  /** The intended item keys are pairwise distinct. */
  lemma ItemKeysDistinct()
    ensures forall i, j :: 0 <= i < j < |ItemKeys| ==> ItemKeys[i] != ItemKeys[j]
  {
    var k := ItemKeys;
    assert |k[0]| != |k[1]|;
    assert |k[0]| != |k[2]|;
    assert |k[0]| != |k[3]|;
    assert |k[0]| != |k[4]|;
    assert |k[0]| != |k[5]|;
    assert |k[0]| != |k[6]|;
    assert |k[1]| != |k[2]|;
    assert |k[1]| != |k[3]|;
    assert |k[1]| != |k[4]|;
    assert |k[1]| != |k[5]|;
    assert |k[1]| != |k[6]|;
    assert |k[2]| != |k[3]|;
    assert |k[2]| != |k[4]|;
    assert |k[2]| != |k[5]|;
    assert |k[2]| != |k[6]|;
    assert |k[3]| != |k[4]|;
    assert |k[3]| != |k[5]|;
    assert |k[3]| != |k[6]|;
    assert |k[4]| != |k[5]|;
    assert |k[4]| != |k[6]|;
    assert |k[5]| != |k[6]|;
  }

  /** The keys as the file spells them are pairwise distinct. */
  lemma AsWrittenKeysDistinct()
    ensures forall i, j :: 0 <= i < j < |StoryKeysAsWritten| ==> StoryKeysAsWritten[i] != StoryKeysAsWritten[j]
    ensures forall i, j :: 0 <= i < j < |ItemKeysAsWritten| ==> ItemKeysAsWritten[i] != ItemKeysAsWritten[j]
  {
    var s := StoryKeysAsWritten;
    assert s[2][0] != s[6][0];
    assert s[4][6] != s[5][6];
    var t := ItemKeysAsWritten;
    assert |t[0]| == 20 && |t[1]| == 19 && |t[2]| == 16 && |t[3]| == 23;
    assert |t[4]| == 28 && |t[5]| == 21 && |t[6]| == 25;
  }

  /** As written, a name spelled exactly like the file's k-th key does find
      the k-th entry: the tables work, only for names no station has. */
  lemma AsWrittenKeysHit(k: nat, other: string)
    requires k < 7
    ensures HistoricalStory(StoryKeysAsWritten[k], other) == ScriptedStory(k)
    ensures ItemDescription(ItemKeysAsWritten[k], other) == ScriptedDescription(k, other)
  {
    AsWrittenKeysDistinct();
    IndexOfDistinct(StoryKeysAsWritten, k);
    IndexOfDistinct(ItemKeysAsWritten, k);
  }

  /** In a table with distinct keys, every key is found at its own index. */
  lemma IndexOfDistinct(keys: seq<string>, k: nat)
    requires k < |keys|
    requires forall i, j :: 0 <= i < j < |keys| ==> keys[i] != keys[j]
    ensures IndexOf(keys, keys[k]) == Some(k)
  {
  }

  /** With the intended keys, the k-th catalog station gets the k-th story and
      the k-th description. */
  lemma IntendedTablesHit(k: nat)
    requires k < |Catalog.Stations|
    ensures IntendedHistoricalStory(Catalog.Stations[k].name, Catalog.Stations[k].item) == ScriptedStory(k)
    ensures IntendedItemDescription(Catalog.Stations[k].item, Catalog.Stations[k].name) == ScriptedDescription(k, Catalog.Stations[k].name)
  {
    assert StoryKeys[k] == Catalog.Stations[k].name && ItemKeys[k] == Catalog.Stations[k].item;
    StoryKeysDistinct();
    ItemKeysDistinct();
    IndexOfDistinct(StoryKeys, k);
    IndexOfDistinct(ItemKeys, k);
  }
}
