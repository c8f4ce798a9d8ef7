/** The turn rotation every rule engine uses: an ordered list of users and the
    position of the user whose turn it last was. */
module TurnTracking {
  import opened Types

  /** Some user in `players` is called `name`. */
  predicate HasName(players: seq<User>, name: string) {
    exists k :: 0 <= k < |players| && players[k].name == name
  }

  /** No two users in `players` share a name. */
  predicate UniqueNames(players: seq<User>) {
    forall i, j :: 0 <= i < j < |players| ==> players[i].name != players[j].name
  }

  /** `players` with every user called `name` dropped; the others keep their order. */
  function Without(players: seq<User>, name: string): (r: seq<User>)
    ensures |r| <= |players|
    ensures forall u :: u in r <==> u in players && u.name != name
    ensures !HasName(r, name)
    ensures HasName(players, name) ==> |r| < |players|
  {
    if players == [] then []
    else if players[0].name == name then Without(players[1..], name)
    else [players[0]] + Without(players[1..], name)
  }

  /** The first position holding a user called `name` (the search that
      remove_player unwraps). */
  function FirstIndexOf(players: seq<User>, name: string): (i: nat)
    requires HasName(players, name)
    ensures i < |players| && players[i].name == name
    ensures forall j :: 0 <= j < i ==> players[j].name != name
  {
    if players[0].name == name then 0
    else
      assert HasName(players[1..], name) by {
        var k :| 0 <= k < |players| && players[k].name == name;
        assert players[1..][k - 1].name == name;
      }
      FirstIndexOf(players[1..], name) + 1
  }

  /** The index remove_player leaves behind, with the source's arithmetic: a
      removal at or before the index moves it one left, except that a removal at
      position 0 sets it to the OLD length minus one. (The source also has a
      branch for an empty list, which cannot run: the name was just found.) */
  function IndexAfterRemove(players: seq<User>, index: nat, name: string): nat
    requires HasName(players, name)
  {
    var i := FirstIndexOf(players, name);
    if i > index then index
    else if i == 0 then |players| - 1
    else index - 1
  }

  /** The position advance_player moves to from `index` in a rotation of `n`. */
  function NextIndex(index: nat, n: nat): (r: nat)
    requires n > 0
    ensures r < n
  {
    (index + 1) % n
  }

  /** advance_player from a position inside the rotation: one on, or back to 0. */
  lemma NextIndexInRange(index: nat, n: nat)
    requires index < n
    ensures NextIndex(index, n) == if index + 1 < n then index + 1 else 0
  {
  }

  /** advance_player from one past the end of a rotation of at least two. */
  lemma NextIndexPastEnd(n: nat)
    requires n >= 2
    ensures NextIndex(n, n) == 1
  {
    assert n + 1 == 1 * n + 1;
  }

  /** Removing a name nobody has changes nothing. */
  lemma {:induction false} WithoutAbsent(players: seq<User>, name: string)
    requires !HasName(players, name)
    ensures Without(players, name) == players
  {
    if players != [] {
      assert players[0].name != name;
      forall k | 0 <= k < |players[1..]|
        ensures players[1..][k].name != name
      {
        assert players[1..][k] == players[k + 1];
      }
      WithoutAbsent(players[1..], name);
    }
  }

  /** With unique names, a name occurs nowhere but at its own position. */
  lemma NameOnlyAt(players: seq<User>, i: nat)
    requires UniqueNames(players)
    requires i < |players|
    ensures !HasName(players[..i], players[i].name)
    ensures !HasName(players[i + 1..], players[i].name)
  {
    var before, after := players[..i], players[i + 1..];
    forall k | 0 <= k < |before|
      ensures before[k].name != players[i].name
    {
      assert before[k] == players[k];
    }
    forall k | 0 <= k < |after|
      ensures after[k].name != players[i].name
    {
      assert after[k] == players[i + 1 + k];
    }
  }

  /** With unique names, removal cuts out exactly the one position holding the name. */
  lemma {:induction false} WithoutUnique(players: seq<User>, i: nat)
    requires UniqueNames(players)
    requires i < |players|
    ensures Without(players, players[i].name) == players[..i] + players[i + 1..]
  {
    var name := players[i].name;
    var tail := players[1..];
    assert UniqueNames(tail) by {
      forall a, b | 0 <= a < b < |tail|
        ensures tail[a].name != tail[b].name
      {
        assert tail[a] == players[a + 1] && tail[b] == players[b + 1];
      }
    }
    if i == 0 {
      NameOnlyAt(players, 0);
      WithoutAbsent(tail, name);
      assert players[..0] + players[1..] == tail;
    } else {
      assert players[0].name != name;
      assert tail[i - 1] == players[i];
      WithoutUnique(tail, i - 1);
      assert Without(players, name) == [players[0]] + (tail[..i - 1] + tail[i..]);
      ConsCutOut(players, i);
    }
  }

  /** Cutting position `i` out of a sequence, seen from its tail. */
  lemma ConsCutOut<T>(s: seq<T>, i: nat)
    requires 0 < i < |s|
    ensures [s[0]] + (s[1..][..i - 1] + s[1..][i..]) == s[..i] + s[i + 1..]
  {
    assert [s[0]] + s[1..][..i - 1] == s[..i];
    assert s[1..][i..] == s[i + 1..];
  }

  /** With unique names, the first position of a name is its only position. */
  lemma FirstIndexUnique(players: seq<User>, i: nat)
    requires UniqueNames(players)
    requires i < |players|
    ensures HasName(players, players[i].name)
    ensures FirstIndexOf(players, players[i].name) == i
  {
    assert players[i].name == players[i].name;
  }

  /** When somebody other than the current player leaves, and not from position
      0, the index still points at the current player afterwards. */
  lemma OtherRemovalKeepsCurrent(players: seq<User>, index: nat, i: nat)
    requires UniqueNames(players)
    requires index < |players| && i < |players|
    requires i != index && i != 0
    ensures HasName(players, players[i].name)
    ensures var rest := Without(players, players[i].name);
            var k := IndexAfterRemove(players, index, players[i].name);
            k < |rest| && rest[k] == players[index]
  {
    FirstIndexUnique(players, i);
    WithoutUnique(players, i);
    var k := if i > index then index else index - 1;
    assert IndexAfterRemove(players, index, players[i].name) == k;
    CutOutAt(players, i, k);
  }

  /** When the current player leaves from a position other than 0, the next
      advance hands the turn to the user who followed them in the rotation. */
  lemma CurrentRemovalPassesTurnOn(players: seq<User>, index: nat)
    requires UniqueNames(players)
    requires 0 < index < |players|
    ensures HasName(players, players[index].name)
    ensures var rest := Without(players, players[index].name);
            var k := IndexAfterRemove(players, index, players[index].name);
            |rest| == |players| - 1 && rest[NextIndex(k, |rest|)] == players[NextIndex(index, |players|)]
  {
    FirstIndexUnique(players, index);
    WithoutUnique(players, index);
    assert IndexAfterRemove(players, index, players[index].name) == index - 1;
    CutOutNext(players, index);
  }

  /** Cutting out position `index` > 0 and stepping on from `index - 1` lands
      where stepping on from `index` did before the cut. */
  lemma CutOutNext<T>(s: seq<T>, index: nat)
    requires 0 < index < |s|
    ensures |s[..index] + s[index + 1..]| == |s| - 1
    ensures (s[..index] + s[index + 1..])[NextIndex(index - 1, |s| - 1)] == s[NextIndex(index, |s|)]
  {
    var n := |s|;
    NextIndexInRange(index - 1, n - 1);
    NextIndexInRange(index, n);
    if index + 1 < n {
      CutOutAt(s, index, index);
    } else {
      CutOutAt(s, index, 0);
    }
  }

  /** The position-0 quirk, when the first user holds the turn: removing them
      sets the index to the new length, so the next advance skips the user who
      followed them and lands two places on. */
  lemma FirstCurrentRemovalSkipsNext(players: seq<User>)
    requires UniqueNames(players)
    requires |players| >= 3
    ensures HasName(players, players[0].name)
    ensures var rest := Without(players, players[0].name);
            var k := IndexAfterRemove(players, 0, players[0].name);
            k == |rest| && rest[NextIndex(k, |rest|)] == players[2]
  {
    FirstIndexUnique(players, 0);
    WithoutUnique(players, 0);
    assert IndexAfterRemove(players, 0, players[0].name) == |players| - 1;
    CutOutFirstSkips(players);
  }

  /** Cutting out position 0 and stepping on from the new length lands on what
      was position 2. */
  lemma CutOutFirstSkips<T>(s: seq<T>)
    requires |s| >= 3
    ensures |s[..0] + s[1..]| == |s| - 1
    ensures (s[..0] + s[1..])[NextIndex(|s| - 1, |s| - 1)] == s[2]
  {
    NextIndexPastEnd(|s| - 1);
    CutOutAt(s, 0, 1);
  }

  /** The element at position `k` once position `i` is cut out. */
  lemma CutOutAt<T>(s: seq<T>, i: nat, k: nat)
    requires i < |s| && k < |s| - 1
    ensures |s[..i] + s[i + 1..]| == |s| - 1
    ensures (s[..i] + s[i + 1..])[k] == if k < i then s[k] else s[k + 1]
  {
  }

  /** The position-0 quirk, when a later user holds the turn: whichever
      position that is, the index is left one past the end, so the next advance
      goes to what was position 2. Holding position 1, the turn is unaffected
      (position 2 was next anyway); holding position 2, the same user moves
      again; holding a later position, the turn jumps back to old position 2. */
  lemma FirstOtherRemovalRepeatsCurrent(players: seq<User>, index: nat)
    requires UniqueNames(players)
    requires |players| >= 3 && 1 <= index < |players|
    ensures HasName(players, players[0].name)
    ensures var rest := Without(players, players[0].name);
            var k := IndexAfterRemove(players, index, players[0].name);
            k == |rest| && rest[NextIndex(k, |rest|)] == players[2]
  {
    FirstIndexUnique(players, 0);
    WithoutUnique(players, 0);
    assert IndexAfterRemove(players, index, players[0].name) == |players| - 1;
    CutOutFirstSkips(players);
  }

  /** The rotation of one engine: `players` in turn order and the position of the
      user whose turn it last was. */
  class TurnTracker {
    var players: seq<User>
    var currentPlayerIndex: nat

    /** A rotation over `players`, positioned at the first of them. */
    constructor (players: seq<User>)
      ensures this.players == players
      ensures currentPlayerIndex == 0
    {
      this.players := players;
      currentPlayerIndex := 0;
    }

    /** Drops every user called `username`, and moves the index as the source
      does. The name must be present: the source unwraps its search. */
    method RemovePlayer(username: string)
      requires HasName(players, username)
      modifies this
      ensures players == Without(old(players), username)
      ensures currentPlayerIndex == IndexAfterRemove(old(players), old(currentPlayerIndex), username)
    {
      var i := FirstIndexOf(players, username);
      if i <= currentPlayerIndex {
        if i == 0 {
          currentPlayerIndex := |players| - 1;
        } else {
          currentPlayerIndex := currentPlayerIndex - 1;
        }
      }
      players := Without(players, username);
    }

    /** Appends `user` at the end of the rotation. */
    method AddPlayer(user: User)
      modifies this
      ensures players == old(players) + [user]
      ensures currentPlayerIndex == old(currentPlayerIndex)
    {
      players := players + [user];
    }

    /** Moves to the next position, wrapping around, and returns the user there;
      on an empty rotation returns None and changes nothing. */
    method AdvancePlayer() returns (next: Option<User>)
      modifies this
      ensures players == old(players)
      ensures old(players) == [] ==> next == None && currentPlayerIndex == old(currentPlayerIndex)
      ensures old(players) != [] ==>
                currentPlayerIndex == NextIndex(old(currentPlayerIndex), |players|) &&
                next == Some(players[currentPlayerIndex])
    {
      if players == [] {
        return None;
      }
      currentPlayerIndex := NextIndex(currentPlayerIndex, |players|);
      next := Some(players[currentPlayerIndex]);
    }

    /** The number of users in the rotation. */
    function NumPlayers(): (n: nat)
      reads this
      ensures n == |players|
    {
      |players|
    }
  }

  /** A fresh rotation's first advance goes to position 1 (wrapping to 0 when it
      holds a single user): the user at position 0 does not start. */
  method FirstTurnOfFreshTracker(players: seq<User>) returns (first: Option<User>)
    ensures players == [] ==> first == None
    ensures |players| == 1 ==> first == Some(players[0])
    ensures |players| > 1 ==> first == Some(players[1])
  {
    var tracker := new TurnTracker(players);
    first := tracker.AdvancePlayer();
  }
}
