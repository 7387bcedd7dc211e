/** Voice selection of the collection modal's story reader
    (`startHistoricalStory`, CollectionModal.jsx): seven predicates tried in
    priority order, each taking the first matching voice of the list, with
    the list's first voice as the final fallback. The speech engine itself is
    not modelled. */
module Voices {
  import opened Common
  import Narration

  /** A speech-synthesis voice; `gender` is absent on most platforms. */
  datatype Voice = Voice(name: string, lang: string, gender: Option<string>)

  /** The lower-cased name contains `part`. */
  predicate NameHas(v: Voice, part: string) {
    Includes(ToLower(v.name), part)
  }

  predicate GenderIs(v: Voice, g: string) {
    v.gender == Some(g)
  }

  predicate IsVietnamese(v: Voice) {
    Includes(v.lang, "vi") || Includes(v.lang, "VN") || Includes(v.lang, "Vietnamese")
  }

  predicate IsEnglish(v: Voice) {
    Includes(v.lang, "en")
  }

  /** The word for "female" that the first tier looks for, as the source file
      spells it (double-encoded; see the README). */
  const FemaleWordAsWritten: string := "ná»¯"

  predicate FemaleMarked(v: Voice) {
    NameHas(v, "female") || GenderIs(v, "female") || NameHas(v, "woman") || NameHas(v, "girl")
  }

  /** The seven tiers, highest priority first. The first two want a
      Vietnamese voice and the next two an English one; tier 3 wants a voice
      marked female; from tier 6 on, a voice marked male never passes, and
      tier 7 takes every other voice. */
  predicate Tier(t: int, v: Voice): (r: bool)
    ensures r && (t == 1 || t == 2) ==> IsVietnamese(v)
    ensures r && (t == 3 || t == 4) ==> IsEnglish(v)
    ensures r && t == 3 ==> FemaleMarked(v)
    ensures r && t >= 6 ==> !GenderIs(v, "male")
    ensures t >= 7 ==> (r <==> !GenderIs(v, "male"))
  {
    if t == 1 then
      IsVietnamese(v) && (NameHas(v, "female") || NameHas(v, FemaleWordAsWritten) || GenderIs(v, "female"))
    else if t == 2 then
      IsVietnamese(v) && (NameHas(v, "girl") || NameHas(v, "woman") || NameHas(v, "lady") ||
                          NameHas(v, "samantha") || NameHas(v, "victoria"))
    else if t == 3 then
      IsEnglish(v) && FemaleMarked(v)
    else if t == 4 then
      IsEnglish(v) && (NameHas(v, "samantha") || NameHas(v, "victoria") || NameHas(v, "karen") ||
                       NameHas(v, "alex") || NameHas(v, "lisa") || NameHas(v, "sarah"))
    else if t == 5 then
      FemaleMarked(v) || NameHas(v, "lady")
    else if t == 6 then
      !NameHas(v, "male") && !NameHas(v, "david") && !NameHas(v, "john") && !NameHas(v, "mike") &&
      !NameHas(v, "tom") && !NameHas(v, "james") && !GenderIs(v, "male")
    else
      !GenderIs(v, "male")
  }

  const LastTier: nat := 7

  /** Later tiers widen earlier ones: an English voice marked female (tier 3)
      also passes tier 5, and tier 6 implies tier 7. */
  lemma TierNesting(v: Voice)
    ensures Tier(3, v) ==> Tier(5, v)
    ensures Tier(6, v) ==> Tier(7, v)
  {
  }

  /** `toLowerCase` reaches the tier-1 word through an upper-case first
      vowel: a Vietnamese voice named "NÁ»¯" passes tier 1. */
  lemma UpperCaseFemaleWordMatches()
    ensures Tier(1, Voice("NÁ»¯", "vi-VN", None))
  {
    var v := Voice("NÁ»¯", "vi-VN", None);
    assert ToLower(v.name) == FemaleWordAsWritten;
    assert OccursAt(v.lang, "vi", 0);
  }

  /** `i` is the first index of `voices` whose voice satisfies tier `t`. */
  predicate FirstOfTier(voices: seq<Voice>, t: int, i: int) {
    0 <= i < |voices| && Tier(t, voices[i]) && forall j :: 0 <= j < i ==> !Tier(t, voices[j])
  }

  /** No voice satisfies any tier in `lo .. hi - 1`. */
  predicate NoTierMatches(voices: seq<Voice>, lo: int, hi: int) {
    forall t, j :: lo <= t < hi && 0 <= j < |voices| ==> !Tier(t, voices[j])
  }

  /** `voices.find(tier t)` from index `from` on, as an index. */
  function FindTier(voices: seq<Voice>, t: nat, from: nat): (r: Option<nat>)
    requires from <= |voices|
    requires forall j :: 0 <= j < from ==> !Tier(t, voices[j])
    ensures r.Some? ==> FirstOfTier(voices, t, r.value)
    ensures r.None? ==> forall j :: 0 <= j < |voices| ==> !Tier(t, voices[j])
    decreases |voices| - from
  {
    if from == |voices| then None
    else if Tier(t, voices[from]) then Some(from)
    else FindTier(voices, t, from + 1)
  }

  /** The cascade from tier `t` on: the first match of the earliest tier with
      any match, else the first voice (`|| voices[0]`), else nothing. */
  function SelectFrom(voices: seq<Voice>, t: nat): (r: Option<Voice>)
    requires 1 <= t
    ensures r.Some? <==> |voices| > 0
    ensures r.Some? ==> r.value in voices
    ensures r.Some? ==>
              (exists tier, i :: t <= tier <= LastTier && NoTierMatches(voices, t, tier) &&
                                FirstOfTier(voices, tier, i) && r.value == voices[i]) ||
              (NoTierMatches(voices, t, LastTier + 1) && r.value == voices[0])
    decreases LastTier + 1 - t
  {
    if t > LastTier then
      if |voices| > 0 then Some(voices[0]) else None
    else match FindTier(voices, t, 0)
      case Some(i) =>
        assert NoTierMatches(voices, t, t);
        Some(voices[i])
      case None =>
        var r := SelectFrom(voices, t + 1);
        assert r.Some? ==>
                 (exists tier, i :: t <= tier <= LastTier && NoTierMatches(voices, t, tier) &&
                                   FirstOfTier(voices, tier, i) && r.value == voices[i]) ||
                 (NoTierMatches(voices, t, LastTier + 1) && r.value == voices[0]) by {
          if r.Some? && exists tier, i :: t + 1 <= tier <= LastTier && NoTierMatches(voices, t + 1, tier) &&
                                          FirstOfTier(voices, tier, i) && r.value == voices[i] {
            var tier, i :| t + 1 <= tier <= LastTier && NoTierMatches(voices, t + 1, tier) &&
                           FirstOfTier(voices, tier, i) && r.value == voices[i];
            assert NoTierMatches(voices, t, tier);
          }
        }
        r
  }

  /** The voice chosen by `startHistoricalStory`. */
  function SelectVoice(voices: seq<Voice>): (r: Option<Voice>)
    ensures r.Some? <==> |voices| > 0
    ensures r.Some? ==> r.value in voices
  {
    SelectFrom(voices, 1)
  }

  /** The chosen voice is the first voice, in list order, of the earliest tier
      that any voice satisfies. */
  lemma EarliestTierWins(voices: seq<Voice>, t: int, i: int)
    requires 1 <= t <= LastTier
    requires NoTierMatches(voices, 1, t)
    requires FirstOfTier(voices, t, i)
    ensures SelectVoice(voices) == Some(voices[i])
  {
    var r := SelectFrom(voices, 1);
    if !NoTierMatches(voices, 1, LastTier + 1) {
      var tier, k :| 1 <= tier <= LastTier && NoTierMatches(voices, 1, tier) &&
                     FirstOfTier(voices, tier, k) && r.value == voices[k];
    }
  }

  /** When no voice satisfies any tier the first voice is chosen; in
      particular, once tiers 1 to 6 find nothing, a list of voices all marked
      male falls back to its first voice. */
  lemma FallsBackToFirst(voices: seq<Voice>)
    requires |voices| > 0
    ensures NoTierMatches(voices, 1, LastTier + 1) ==> SelectVoice(voices) == Some(voices[0])
    ensures NoTierMatches(voices, 1, LastTier) && (forall j :: 0 <= j < |voices| ==> GenderIs(voices[j], "male")) ==>
              SelectVoice(voices) == Some(voices[0])
  {
    var r := SelectFrom(voices, 1);
    if NoTierMatches(voices, 1, LastTier + 1) {
      if exists tier, k :: 1 <= tier <= LastTier && NoTierMatches(voices, 1, tier) &&
                           FirstOfTier(voices, tier, k) && r.value == voices[k] {
        var tier, k :| 1 <= tier <= LastTier && NoTierMatches(voices, 1, tier) &&
                       FirstOfTier(voices, tier, k) && r.value == voices[k];
      }
    }
  }

  /** The utterance handed to the speech engine. */
  datatype Utterance = Utterance(story: Narration.Story, voice: Option<Voice>, lang: string,
                                 rate: real, pitch: real, volume: real)

  /** `startHistoricalStory`: nothing when speech is unavailable; otherwise
      the story with the chosen voice, its language (`en-US` when no voice or
      an empty language) and the fixed rate, pitch and volume. */
  function StartStory(speechAvailable: bool, voices: seq<Voice>, stationName: string, itemName: string): (r: Option<Utterance>)
    ensures !speechAvailable <==> r.None?
    ensures r.Some? ==> r.value.story == Narration.HistoricalStory(stationName, itemName)
    ensures r.Some? ==> (r.value.voice.Some? <==> |voices| > 0)
    ensures r.Some? && r.value.voice.Some? ==> r.value.voice.value in voices
    ensures r.Some? && |voices| == 0 ==> r.value.lang == "en-US"
    ensures r.Some? && r.value.voice.Some? && r.value.voice.value.lang != "" ==> r.value.lang == r.value.voice.value.lang
    ensures r.Some? ==> r.value.rate == 0.85 && r.value.pitch == 1.4 && r.value.volume == 1.0
  {
    if !speechAvailable then None
    else
      var voice := SelectVoice(voices);
      var lang := if voice.Some? && voice.value.lang != "" then voice.value.lang else "en-US";
      Some(Utterance(Narration.HistoricalStory(stationName, itemName), voice, lang, 0.85, 1.4, 1.0))
  }
}
