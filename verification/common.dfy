/** Shared vocabulary of the scavenger-hunt model: optional values, points in
    the normalised map space, stations, collected records and the small string
    helpers the components rely on. */
module Common {

  /** A value that may be absent (JavaScript's `undefined`/`null`). */
  datatype Option<+T> = None | Some(value: T)

  /** A point of the normalised map space; both axes nominally run 0..100. */
  datatype Point = Point(x: real, y: real)

  predicate InBounds(p: Point) {
    0.0 <= p.x <= 100.0 && 0.0 <= p.y <= 100.0
  }

  /** A catalog station: identity, display metadata, map position and the code
      of its NFT image. */
  datatype Station = Station(id: string, name: string, item: string, icon: string,
                             position: Point, nftImage: string)

  /** A collected record: the fields of the object handed to the collect
      operation, copied into a fresh record. `nftImage` is `None` when the
      object had no such field. */
  datatype Item = Item(id: string, name: string, item: string, icon: string,
                       position: Point, nftImage: Option<string>)

  /** The record appended when a station itself is collected: a full copy. */
  function Snapshot(s: Station): (r: Item)
    ensures r.id == s.id && r.name == s.name && r.item == s.item && r.icon == s.icon
    ensures r.position == s.position && r.nftImage == Some(s.nftImage)
  {
    Item(s.id, s.name, s.item, s.icon, s.position, Some(s.nftImage))
  }

  /** No two stations of `s` share an id. */
  predicate DistinctIds(s: seq<Station>) {
    forall i, j :: 0 <= i < j < |s| ==> s[i].id != s[j].id
  }

  /** No two records of `l` share an id. */
  predicate UniqueItemIds(l: seq<Item>) {
    forall i, j :: 0 <= i < j < |l| ==> l[i].id != l[j].id
  }

  /** `sub` occurs in `s` (JavaScript's `String.prototype.includes`): the
      empty string occurs everywhere, and nothing longer than `s` occurs in
      it. */
  predicate Includes(s: string, sub: string): (r: bool)
    ensures |sub| == 0 ==> r
    ensures r ==> |sub| <= |s|
    ensures s == sub ==> r
  {
    assert |sub| == 0 ==> OccursAt(s, sub, 0);
    assert s == sub ==> s[0..|sub|] == sub && OccursAt(s, sub, 0);
    exists i | 0 <= i <= |s| - |sub| :: OccursAt(s, sub, i)
  }

  /** `sub` occurs in `s` starting at index `i`. */
  predicate OccursAt(s: string, sub: string, i: int) {
    0 <= i && i + |sub| <= |s| && s[i..i + |sub|] == sub
  }

  lemma OccursIncludes(s: string, sub: string, i: int)
    requires OccursAt(s, sub, i)
    ensures Includes(s, sub)
  {
  }

  /** Upper-case letters of ASCII and of the Latin-1 block (the
      multiplication sign excepted), and the Kelvin sign. */
  predicate IsUpper(c: char) {
    'A' <= c <= 'Z' || ('\U{00C0}' <= c <= '\U{00DE}' && c != '\U{00D7}') || c == '\U{212A}'
  }

  /** The lower-case partner of an upper-case letter; any other character is
      its own. */
  function LowerChar(c: char): (r: char)
    ensures !IsUpper(r)
    ensures !IsUpper(c) ==> r == c
    ensures 'A' <= c <= 'Z' ==> 'a' <= r <= 'z' && r as int - c as int == 32
  {
    if c == '\U{212A}' then 'k'
    else if IsUpper(c) then (c as int + 32) as char
    else c
  }

  /** `String.prototype.toLowerCase` over the letters `IsUpper` names: every
      character is lowered in place, characters without a partner are kept,
      and no upper-case letter remains. */
  function ToLower(s: string): (r: string)
    ensures |r| == |s|
    ensures forall i :: 0 <= i < |s| ==> r[i] == LowerChar(s[i])
    ensures forall i :: 0 <= i < |s| && !IsUpper(s[i]) ==> r[i] == s[i]
    ensures forall i :: 0 <= i < |r| ==> !IsUpper(r[i])
  {
    seq(|s|, i requires 0 <= i < |s| => LowerChar(s[i]))
  }

  /** Lowering twice is lowering once. */
  lemma ToLowerIdempotent(s: string)
    ensures ToLower(ToLower(s)) == ToLower(s)
  {
  }
}
