/** The permanent mute key "<guildId> <userId>" and the startup split that
    turns it back into its two parts (`permanentId.split(' ')` destructured
    into `[guildId, userId]`). */
module Keys {
  import opened Wrappers

  /** A Discord snowflake id (guild or user), as a string. */
  type Id = string

  type Key = string

  /** `guildId + ' ' + userId`. */
  function MakeKey(guildId: Id, userId: Id): Key {
    guildId + " " + userId
  }

  /** Position of the first space of `s`. */
  function FirstSpace(s: string): (i: nat)
    requires ' ' in s
    ensures i < |s| && s[i] == ' '
    ensures forall j :: 0 <= j < i ==> s[j] != ' '
  {
    if s[0] == ' ' then 0 else 1 + FirstSpace(s[1..])
  }

  /** Rejoins parts with single spaces; the inverse of `SplitSpace`. */
  function JoinSpace(parts: seq<string>): string
    requires |parts| >= 1
  {
    if |parts| == 1 then parts[0] else parts[0] + " " + JoinSpace(parts[1..])
  }

  /** JavaScript's `s.split(' ')`: every space separates two parts, so empty
      parts appear between adjacent spaces and at either end. */
  function SplitSpace(s: string): (parts: seq<string>)
    ensures |parts| >= 1
    ensures forall i :: 0 <= i < |parts| ==> ' ' !in parts[i]
    ensures JoinSpace(parts) == s
    decreases |s|
  {
    if ' ' !in s then [s]
    else
      var i := FirstSpace(s);
      assert s == s[..i] + " " + s[i + 1..];
      [s[..i]] + SplitSpace(s[i + 1..])
  }

  /** The destructuring `[guildId, userId] = key.split(' ')`: parts beyond the
      second are dropped and a missing second part is `undefined`. */
  function KeyParts(k: Key): (string, Option<string>) {
    var parts := SplitSpace(k);
    (parts[0], if |parts| >= 2 then Some(parts[1]) else None)
  }

  /** `guildId + ' ' + userId` recomputed from the split parts, with
      `undefined` rendered as JavaScript's string concatenation renders it. */
  function Rebuild(k: Key): Key {
    var (g, u) := KeyParts(k);
    MakeKey(g, u.GetOr("undefined"))
  }

  /** A key with exactly one space: the shape `MakeKey` produces from
      space-free identifiers. */
  predicate WellFormed(k: Key) {
    |SplitSpace(k)| == 2
  }

  /** Splitting after a space-free first part peels that part off. */
  lemma SplitAfterFirst(first: string, rest: string)
    requires ' ' !in first
    ensures SplitSpace(first + " " + rest) == [first] + SplitSpace(rest)
  {
    var k := first + " " + rest;
    assert k[|first|] == ' ';
    assert forall j :: 0 <= j < |first| ==> k[j] == first[j];
    var i := FirstSpace(k);
    assert i == |first|;
    assert k[..i] == first;
    assert k[i + 1..] == rest;
  }

  /** The key round trip: splitting a key built from space-free identifiers
      gives back exactly those identifiers. */
  lemma KeyRoundTrip(guildId: Id, userId: Id)
    requires ' ' !in guildId && ' ' !in userId
    ensures SplitSpace(MakeKey(guildId, userId)) == [guildId, userId]
    ensures KeyParts(MakeKey(guildId, userId)) == (guildId, Some(userId))
    ensures WellFormed(MakeKey(guildId, userId))
  {
    SplitAfterFirst(guildId, userId);
  }

  /** Rebuilding a well-formed key gives the key itself, so the startup pass
      deletes the very key it examined. */
  lemma RebuildWellFormed(k: Key)
    requires WellFormed(k)
    ensures Rebuild(k) == k
  {
    var parts := SplitSpace(k);
    assert JoinSpace(parts[1..]) == parts[1];
  }

  /** Within one guild, different users get different keys. */
  lemma MakeKeyInjective(guildId: Id, u1: Id, u2: Id)
    requires MakeKey(guildId, u1) == MakeKey(guildId, u2)
    ensures u1 == u2
  {
    assert u1 == MakeKey(guildId, u1)[|guildId| + 1..];
    assert u2 == MakeKey(guildId, u2)[|guildId| + 1..];
  }

  /** A key with two spaces, `g + ' ' + u + ' ' + v`, loses its third part
      in the destructuring and is rebuilt into a different key. */
  lemma ExtraSpaceRebuildsOtherKey(g: Id, u: Id, v: Id)
    requires ' ' !in g && ' ' !in u && ' ' !in v
    ensures KeyParts(MakeKey(g, MakeKey(u, v))) == (g, Some(u))
    ensures Rebuild(MakeKey(g, MakeKey(u, v))) == MakeKey(g, u)
    ensures MakeKey(g, u) != MakeKey(g, MakeKey(u, v))
  {
    var k := MakeKey(g, MakeKey(u, v));
    assert k == g + " " + MakeKey(u, v);
    SplitAfterFirst(g, MakeKey(u, v));
    KeyRoundTrip(u, v);
    assert SplitSpace(k) == [g, u, v];
    assert |MakeKey(g, u)| < |k|;
  }
}
