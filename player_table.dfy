/** The controller's registry of connected players: one entry per name, each
    with a display colour and the channel the player is reached on, and the
    paint bucket that hands out the colours. */
module Registry {
  import opened Types

  /** The channel a player is reached on, as an opaque id. */
  type ChannelId = nat

  /** One registered player. */
  datatype PlayerInfo = PlayerInfo(name: string, color: Color, tx: ChannelId)

  /** The colour everybody gets once the palette has run out. */
  const Gray: Color := Rgb8(128, 128, 128)

  /** The 21 colours of a new paint bucket; they are handed out from the end. */
  const Palette: seq<Color> := [
    Rgb8(0, 0, 0), Rgb8(128, 128, 128), Rgb8(0, 0, 128),
    Rgb8(255, 215, 180), Rgb8(128, 128, 0), Rgb8(170, 255, 195),
    Rgb8(128, 0, 0), Rgb8(255, 250, 200), Rgb8(170, 110, 40),
    Rgb8(220, 190, 255), Rgb8(0, 128, 128), Rgb8(250, 190, 212),
    Rgb8(210, 245, 60), Rgb8(240, 50, 230), Rgb8(70, 240, 240),
    Rgb8(145, 30, 180), Rgb8(245, 130, 48), Rgb8(0, 130, 200),
    Rgb8(255, 225, 25), Rgb8(60, 180, 75), Rgb8(230, 25, 75)]

  /** No colour appears twice in the palette. */
  lemma PaletteDistinct()
    ensures |Palette| == 21 && DistinctColors(Palette)
  {
    PaletteApart();
    forall i, j | 0 <= i < j < |Palette|
      ensures Palette[i] != Palette[j]
    {
      var a := if i < 7 then 0 else if i < 14 then 7 else 14;
      var c := if j < 7 then 0 else if j < 14 then 7 else 14;
      assert Apart(Palette, a, a + 7, c, c + 7);
    }
  }

  /** No colour of `palette[a..b]` recurs later in `palette[c..d]`. */
  predicate Apart(palette: seq<Color>, a: nat, b: nat, c: nat, d: nat)
    requires a <= b <= |palette| && c <= d <= |palette|
  {
    forall i, j :: a <= i < b && c <= j < d && i < j ==> palette[i] != palette[j]
  }

  /** The palette's thirds, compared with themselves and with each other. */
  lemma PaletteApart()
    ensures |Palette| == 21
    ensures Apart(Palette, 0, 7, 0, 7) && Apart(Palette, 0, 7, 7, 14) && Apart(Palette, 0, 7, 14, 21)
    ensures Apart(Palette, 7, 14, 7, 14) && Apart(Palette, 7, 14, 14, 21) && Apart(Palette, 14, 21, 14, 21)
  {
    Apart00(); Apart01(); Apart02(); Apart11(); Apart12(); Apart22();
  }

  lemma Apart00() ensures |Palette| == 21 && Apart(Palette, 0, 7, 0, 7) {}
  lemma Apart01() ensures |Palette| == 21 && Apart(Palette, 0, 7, 7, 14) {}
  lemma Apart02() ensures |Palette| == 21 && Apart(Palette, 0, 7, 14, 21) {}
  lemma Apart11() ensures |Palette| == 21 && Apart(Palette, 7, 14, 7, 14) {}
  lemma Apart12() ensures |Palette| == 21 && Apart(Palette, 7, 14, 14, 21) {}
  lemma Apart22() ensures |Palette| == 21 && Apart(Palette, 14, 21, 14, 21) {}

  // ---------------------------------------------------------------------------
  // The paint bucket

  /** The bucket as a value: the colours still free, and the colour every name
      has been given so far. */
  datatype Bucket = Bucket(free: seq<Color>, taken: map<string, Color>)

  /** PaintBucket::get on the value: a name keeps the colour it was first given;
      a new name takes the last free colour, or Gray when none is left, and the
      choice is remembered. */
  function GetOn(b: Bucket, name: string): (Bucket, Color) {
    if name in b.taken then (b, b.taken[name])
    else
      var c := if b.free == [] then Gray else b.free[|b.free| - 1];
      var free := if b.free == [] then [] else b.free[..|b.free| - 1];
      (Bucket(free, b.taken[name := c]), c)
  }

  /** Asking again for a name returns its recorded colour and changes nothing;
      a new name gets the last free colour (or Gray when the palette is spent),
      which is recorded, and the palette shrinks by that one colour. */
  lemma GetOnSpec(b: Bucket, name: string)
    ensures var (b', c) := GetOn(b, name);
            && (name in b.taken ==> b' == b && c == b.taken[name])
            && (name !in b.taken && b.free != [] ==>
                  c == b.free[|b.free| - 1] && b'.free + [c] == b.free)
            && (name !in b.taken && b.free == [] ==> c == Gray && b'.free == [])
            && (name !in b.taken ==>
                  b'.taken.Keys == b.taken.Keys + {name} && b'.taken[name] == c &&
                  forall n :: n in b.taken ==> b'.taken[n] == b.taken[n])
  {
    var (b', c) := GetOn(b, name);
    if name !in b.taken && b.free != [] {
      assert b.free[..|b.free| - 1] + [b.free[|b.free| - 1]] == b.free;
    }
  }

  /** Once a name has a colour it keeps it: the next request for it returns the
      same colour and leaves the bucket alone. */
  lemma ColourIsForever(b: Bucket, name: string)
    ensures var (b', c) := GetOn(b, name);
            GetOn(b', name) == (b', c)
  {
  }

  /** No colour appears twice in `palette`. */
  predicate DistinctColors(palette: seq<Color>) {
    forall i, j :: 0 <= i < j < |palette| ==> palette[i] != palette[j]
  }

  /** While `palette` lasts, the colours handed out are its tail, one name per
      colour. */
  ghost predicate FairlyShared(b: Bucket, palette: seq<Color>) {
    && |b.free| <= |palette|
    && b.free == palette[..|b.free|]
    && (b.free != [] ==>
          && (forall n :: n in b.taken ==> b.taken[n] in palette[|b.free|..])
          && (forall n, m :: n in b.taken && m in b.taken && n != m ==> b.taken[n] != b.taken[m]))
  }

  /** A new bucket shares fairly. */
  lemma NewBucketFair()
    ensures DistinctColors(Palette) && FairlyShared(Bucket(Palette, map[]), Palette)
  {
    PaletteDistinct();
  }

  /** The colour a new name takes while the palette lasts is nobody else's. */
  lemma NewColourIsUnshared(b: Bucket, name: string, palette: seq<Color>)
    requires DistinctColors(palette) && FairlyShared(b, palette)
    requires name !in b.taken && b.free != []
    ensures forall n :: n in b.taken ==> b.taken[n] != GetOn(b, name).1
  {
    var k := |b.free| - 1;
    var c := GetOn(b, name).1;
    assert c == palette[k];
    forall n | n in b.taken
      ensures b.taken[n] != c
    {
      var j :| |b.free| <= j < |palette| && palette[j] == b.taken[n] by {
        var t := palette[|b.free|..];
        var j' :| 0 <= j' < |t| && t[j'] == b.taken[n];
        assert palette[|b.free| + j'] == b.taken[n];
      }
      assert palette[k] != palette[j];
    }
  }

  /** While the palette lasts, a new name's colour is nobody else's, and every
      request keeps the sharing fair. */
  lemma GetOnKeepsFair(b: Bucket, name: string, palette: seq<Color>)
    requires DistinctColors(palette) && FairlyShared(b, palette)
    ensures var (b', c) := GetOn(b, name);
            && FairlyShared(b', palette)
            && (name !in b.taken && b.free != [] ==> forall n :: n in b.taken ==> b.taken[n] != c)
  {
    var (b', c) := GetOn(b, name);
    if name !in b.taken && b.free != [] {
      var k := |b.free| - 1;
      NewColourIsUnshared(b, name, palette);
      assert b'.free == palette[..k];
      if b'.free != [] {
        forall n | n in b'.taken
          ensures b'.taken[n] in palette[k..]
        {
          if n == name {
            assert palette[k..][0] == c;
          } else {
            assert b.taken[n] in palette[|b.free|..];
            assert palette[|b.free|..] == palette[k..][1..];
          }
        }
      }
    }
  }

  /** A colour dispenser: a new name gets the next free colour. */
  class PaintBucket {
    var freePaints: seq<Color>
    var takenPaints: map<string, Color>

    /** The bucket as a value. */
    function State(): Bucket
      reads this
    {
      Bucket(freePaints, takenPaints)
    }

    /** PaintBucket::new: the full palette and nobody coloured yet. */
    constructor ()
      ensures State() == Bucket(Palette, map[])
    {
      freePaints := Palette;
      takenPaints := map[];
    }

    /** PaintBucket::get: the name's colour, chosen the first time it is asked. */
    method Get(name: string) returns (c: Color)
      modifies this
      ensures (State(), c) == GetOn(old(State()), name)
    {
      if name in takenPaints {
        c := takenPaints[name];
      } else {
        if freePaints == [] {
          c := Gray;
        } else {
          c := freePaints[|freePaints| - 1];
          freePaints := freePaints[..|freePaints| - 1];
        }
        takenPaints := takenPaints[name := c];
      }
    }
  }

  // ---------------------------------------------------------------------------
  // The player table

  /** Some entry of `ps` is named `name`. */
  predicate HasEntry(ps: seq<PlayerInfo>, name: string) {
    exists i :: 0 <= i < |ps| && ps[i].name == name
  }

  /** No two entries share a name. */
  predicate UniqueEntries(ps: seq<PlayerInfo>) {
    forall i, j :: 0 <= i < j < |ps| ==> ps[i].name != ps[j].name
  }

  /** `ps` without the entries named `name`, the others in their order. */
  function WithoutEntry(ps: seq<PlayerInfo>, name: string): (r: seq<PlayerInfo>)
    ensures |r| <= |ps|
    ensures forall p :: p in r <==> p in ps && p.name != name
    ensures !HasEntry(r, name)
    ensures HasEntry(ps, name) <==> |r| < |ps|
  {
    if ps == [] then []
    else if ps[0].name == name then WithoutEntry(ps[1..], name)
    else [ps[0]] + WithoutEntry(ps[1..], name)
  }

  /** Removing a name from a table with unique names keeps the names unique. */
  lemma {:induction false} WithoutEntryUnique(ps: seq<PlayerInfo>, name: string)
    requires UniqueEntries(ps)
    ensures UniqueEntries(WithoutEntry(ps, name))
  {
    if ps != [] {
      var tail := ps[1..];
      assert UniqueEntries(tail) by {
        forall i, j | 0 <= i < j < |tail|
          ensures tail[i].name != tail[j].name
        {
          assert tail[i] == ps[i + 1] && tail[j] == ps[j + 1];
        }
      }
      WithoutEntryUnique(tail, name);
      if ps[0].name != name {
        var rest := WithoutEntry(tail, name);
        forall q | q in rest
          ensures q.name != ps[0].name
        {
          var k :| 0 <= k < |tail| && tail[k] == q;
          assert tail[k] == ps[k + 1];
        }
        ConsUnique(ps[0], rest);
      }
    }
  }

  /** An entry whose name the rest lacks can go in front of it. */
  lemma ConsUnique(p: PlayerInfo, rest: seq<PlayerInfo>)
    requires UniqueEntries(rest)
    requires forall q :: q in rest ==> q.name != p.name
    ensures UniqueEntries([p] + rest)
  {
    var r := [p] + rest;
    forall i, j | 0 <= i < j < |r|
      ensures r[i].name != r[j].name
    {
      assert r[j] == rest[j - 1];
      if i > 0 {
        assert r[i] == rest[i - 1];
      }
    }
  }

  /** The first entry named `name`, if any. */
  function FirstEntry(ps: seq<PlayerInfo>, name: string): (r: Option<PlayerInfo>)
    ensures r.None? <==> !HasEntry(ps, name)
    ensures r.Some? ==> exists i :: 0 <= i < |ps| && ps[i] == r.value && r.value.name == name &&
                          forall k :: 0 <= k < i ==> ps[k].name != name
  {
    if ps == [] then None
    else if ps[0].name == name then Some(ps[0])
    else
      var r := FirstEntry(ps[1..], name);
      assert HasEntry(ps, name) ==> HasEntry(ps[1..], name) by {
        if HasEntry(ps, name) {
          var i :| 0 <= i < |ps| && ps[i].name == name;
          assert ps[1..][i - 1].name == name;
        }
      }
      assert r.Some? ==> HasEntry(ps, name) by {
        if r.Some? {
          var i :| 0 <= i < |ps[1..]| && ps[1..][i] == r.value && r.value.name == name &&
                   forall k :: 0 <= k < i ==> ps[1..][k].name != name;
          assert ps[i + 1] == r.value;
          assert forall k :: 0 <= k < i + 1 ==> ps[k].name != name by {
            forall k | 0 <= k < i + 1
              ensures ps[k].name != name
            {
              if k > 0 {
                assert ps[k] == ps[1..][k - 1];
              }
            }
          }
        }
      }
      r
  }

  /** The table after add_new_player: the old entries under other names, in
      order, then the new entry. */
  function AddedEntries(ps: seq<PlayerInfo>, info: PlayerInfo): seq<PlayerInfo> {
    WithoutEntry(ps, info.name) + [info]
  }

  /** After add_new_player exactly one entry carries the name, and it is the
      last; the entries under other names are kept, in their order, and names
      stay unique. */
  lemma AddedIsOnlyEntry(ps: seq<PlayerInfo>, info: PlayerInfo)
    ensures var r := AddedEntries(ps, info);
            && r[|r| - 1] == info
            && r[..|r| - 1] == WithoutEntry(ps, info.name)
            && (forall i :: 0 <= i < |r| - 1 ==> r[i].name != info.name)
            && FirstEntry(r, info.name) == Some(info)
            && (UniqueEntries(ps) ==> UniqueEntries(r))
  {
    var r := AddedEntries(ps, info);
    var rest := WithoutEntry(ps, info.name);
    assert r[..|r| - 1] == rest;
    forall i | 0 <= i < |r| - 1
      ensures r[i].name != info.name
    {
      assert r[i] == rest[i];
    }
    if UniqueEntries(ps) {
      WithoutEntryUnique(ps, info.name);
    }
  }

  /** Removing one name keeps the entries under every other name. */
  lemma WithoutEntryKeepsOthers(ps: seq<PlayerInfo>, name: string, other: string)
    requires HasEntry(ps, other) && other != name
    ensures HasEntry(WithoutEntry(ps, name), other)
  {
    var i :| 0 <= i < |ps| && ps[i].name == other;
    var r := WithoutEntry(ps, name);
    assert ps[i] in r;
    var j :| 0 <= j < |r| && r[j] == ps[i];
  }

  /** add_new_player keeps the entries under every other name. */
  lemma AddedKeepsOthers(ps: seq<PlayerInfo>, info: PlayerInfo, other: string)
    requires HasEntry(ps, other) && other != info.name
    ensures HasEntry(AddedEntries(ps, info), other)
  {
    WithoutEntryKeepsOthers(ps, info.name, other);
    var t := WithoutEntry(ps, info.name);
    var i :| 0 <= i < |t| && t[i].name == other;
    assert AddedEntries(ps, info)[i] == t[i];
  }

  /** The registry. */
  class PlayerTable {
    var players: seq<PlayerInfo>
    var paintBucket: PaintBucket

    /** PlayerTable::new: no entries and a full paint bucket. */
    constructor ()
      ensures players == [] && paintBucket.State() == Bucket(Palette, map[])
      ensures fresh(paintBucket)
    {
      players := [];
      paintBucket := new PaintBucket();
    }

    /** is_empty: nobody is registered. */
    function IsEmpty(): (r: bool)
      reads this
      ensures r <==> |players| == 0
    {
      players == []
    }

    /** remove_player: drops every entry named `name`, keeping the others in
      order, and reports whether there was any. The bucket is not touched. */
    method RemovePlayer(name: string) returns (wasRemoved: bool)
      modifies this
      ensures players == WithoutEntry(old(players), name)
      ensures wasRemoved <==> HasEntry(old(players), name)
      ensures paintBucket == old(paintBucket) && paintBucket.State() == old(paintBucket.State())
    {
      var ps := players;
      var newPlayers: seq<PlayerInfo> := [];
      wasRemoved := false;
      var i := 0;
      while i < |ps|
        invariant 0 <= i <= |ps| && players == ps && paintBucket == old(paintBucket)
        invariant newPlayers == WithoutEntry(ps[..i], name)
        invariant wasRemoved <==> HasEntry(ps[..i], name)
      {
        var player := ps[i];
        WithoutEntryStep(ps, i, name);
        if player.name == name {
          wasRemoved := true;
        } else {
          newPlayers := newPlayers + [player];
        }
        i := i + 1;
      }
      assert ps[..i] == ps;
      players := newPlayers;
    }

    /** add_new_player: replaces any entry under the name with a new last entry
      holding the name's colour from the bucket and the given channel. */
    method AddNewPlayer(name: string, channel: ChannelId) returns (info: PlayerInfo)
      modifies this, paintBucket
      ensures paintBucket == old(paintBucket)
      ensures (paintBucket.State(), info.color) == GetOn(old(paintBucket.State()), name)
      ensures info == PlayerInfo(name, info.color, channel)
      ensures players == AddedEntries(old(players), info)
    {
      var _ := RemovePlayer(name);
      var color := paintBucket.Get(name);
      info := PlayerInfo(name, color, channel);
      players := players + [info];
    }

    /** get: the first entry named `name`, if any. */
    function Get(name: string): (r: Option<PlayerInfo>)
      reads this
      ensures r.None? <==> !HasEntry(players, name)
      ensures r.Some? ==> r.value in players && r.value.name == name
      ensures r.Some? ==> exists i :: 0 <= i < |players| && players[i] == r.value &&
                            forall k :: 0 <= k < i ==> players[k].name != name
    {
      FirstEntry(players, name)
    }

    /** iter: the entries in order. */
    function Iter(): seq<PlayerInfo>
      reads this
    {
      players
    }
  }

  /** A player who leaves and comes back gets the colour they had, whatever
      happened in between on other names; the first two players of a new table
      get the last two palette colours. */
  method ReturningPlayerKeepsColour(name: string, other: string, ch1: ChannelId, ch2: ChannelId)
      returns (first: PlayerInfo, second: PlayerInfo, again: PlayerInfo)
    requires name != other
    ensures first.color == Palette[20] && second.color == Palette[19]
    ensures again.color == first.color && again.tx == ch2
  {
    var table := new PlayerTable();
    first := table.AddNewPlayer(name, ch1);
    second := table.AddNewPlayer(other, ch1);
    var _ := table.RemovePlayer(name);
    again := table.AddNewPlayer(name, ch2);
  }

  /** One more entry of `ps` scanned by remove_player. */
  lemma WithoutEntryStep(ps: seq<PlayerInfo>, i: nat, name: string)
    requires i < |ps|
    ensures WithoutEntry(ps[..i + 1], name) == WithoutEntry(ps[..i], name) + (if ps[i].name == name then [] else [ps[i]])
    ensures HasEntry(ps[..i + 1], name) <==> HasEntry(ps[..i], name) || ps[i].name == name
  {
    assert ps[..i + 1] == ps[..i] + [ps[i]];
    WithoutEntryAppend(ps[..i], ps[i], name);
  }

  /** Appending one entry extends the filtered table by it unless it carries
      the name, and extends the membership test by it. */
  lemma WithoutEntryAppend(ps: seq<PlayerInfo>, p: PlayerInfo, name: string)
    ensures WithoutEntry(ps + [p], name) == WithoutEntry(ps, name) + (if p.name == name then [] else [p])
    ensures HasEntry(ps + [p], name) <==> HasEntry(ps, name) || p.name == name
  {
    WithoutEntryConcat(ps, [p], name);
    assert WithoutEntry([p], name) == if p.name == name then [] else [p] by {
      assert [p][1..] == [];
    }
    if HasEntry(ps + [p], name) && p.name != name {
      var i :| 0 <= i < |ps + [p]| && (ps + [p])[i].name == name;
      assert ps[i].name == name;
    }
    if HasEntry(ps, name) {
      var i :| 0 <= i < |ps| && ps[i].name == name;
      assert (ps + [p])[i].name == name;
    }
    if p.name == name {
      assert (ps + [p])[|ps|].name == name;
    }
  }

  /** Filtering distributes over concatenation. */
  lemma {:induction false} WithoutEntryConcat(a: seq<PlayerInfo>, b: seq<PlayerInfo>, name: string)
    ensures WithoutEntry(a + b, name) == WithoutEntry(a, name) + WithoutEntry(b, name)
  {
    if a == [] {
      assert a + b == b;
    } else {
      assert (a + b)[1..] == a[1..] + b;
      WithoutEntryConcat(a[1..], b, name);
    }
  }
}
