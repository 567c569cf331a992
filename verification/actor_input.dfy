/**
 The actor input system: each tick, every actor receives the world's
 inputs that belong to its player, appended to those it already holds.
 */
module ActorInput {
  import opened InputContexts

  /** The part of `ActorComponent` the system touches. */
  datatype Actor = Actor(playerId: nat, inputs: seq<GameInput>)

  /** The world inputs of player `id`, in world order. */
  function ForPlayer(world: seq<GameInput>, id: nat): (r: seq<GameInput>)
    ensures |r| <= |world|
    ensures forall k :: 0 <= k < |r| ==> r[k].playerId == id && r[k] in world
    decreases |world|
  {
    if |world| == 0 then []
    else (if world[0].playerId == id then [world[0]] else []) + ForPlayer(world[1..], id)
  }

  /** Filtering a concatenation filters each part and keeps their order. */
  lemma {:induction false} ForPlayerAppend(a: seq<GameInput>, b: seq<GameInput>, id: nat)
    ensures ForPlayer(a + b, id) == ForPlayer(a, id) + ForPlayer(b, id)
    decreases |a|
  {
    if |a| == 0 {
      assert a + b == b;
    } else {
      assert (a + b)[1..] == a[1..] + b;
      ForPlayerAppend(a[1..], b, id);
    }
  }

  /** An input belongs to the filtered list exactly when it is a world input of that player. */
  lemma {:induction false} ForPlayerMembers(world: seq<GameInput>, id: nat, g: GameInput)
    ensures g in ForPlayer(world, id) <==> g in world && g.playerId == id
    decreases |world|
  {
    if |world| > 0 {
      ForPlayerMembers(world[1..], id, g);
      assert world == [world[0]] + world[1..];
    }
  }

  /** When every world input is this player's, it gets them all; when none is, it gets nothing. */
  lemma {:induction false} ForPlayerExtremes(world: seq<GameInput>, id: nat)
    ensures (forall k :: 0 <= k < |world| ==> world[k].playerId == id) ==> ForPlayer(world, id) == world
    ensures (forall k :: 0 <= k < |world| ==> world[k].playerId != id) ==> ForPlayer(world, id) == []
    decreases |world|
  {
    if |world| > 0 {
      ForPlayerExtremes(world[1..], id);
      assert world == [world[0]] + world[1..];
    }
  }

  /** The filter loop of `run`: the world inputs of player `id`, collected in one pass. */
  method CollectForPlayer(world: seq<GameInput>, id: nat) returns (mine: seq<GameInput>)
    ensures mine == ForPlayer(world, id)
  {
    mine := [];
    var i := 0;
    while i < |world|
      invariant 0 <= i <= |world|
      invariant mine == ForPlayer(world[..i], id)
    {
      ForPlayerAppend(world[..i], [world[i]], id);
      assert world[..i + 1] == world[..i] + [world[i]];
      if world[i].playerId == id {
        mine := mine + [world[i]];
      }
      i := i + 1;
    }
    assert world[..i] == world;
  }

  /** The push loop of `run`: the collected inputs are pushed one by one after those already held. */
  method PushAll(inputs: seq<GameInput>, more: seq<GameInput>) returns (out: seq<GameInput>)
    ensures |out| == |inputs| + |more|
    ensures out[..|inputs|] == inputs && out[|inputs|..] == more
  {
    out := inputs;
    var j := 0;
    while j < |more|
      invariant 0 <= j <= |more|
      invariant out == inputs + more[..j]
    {
      out := out + [more[j]];
      j := j + 1;
      assert more[..j] == more[..j - 1] + [more[j - 1]];
    }
    assert more[..j] == more;
  }

  /**
   `run`: each actor's inputs grow by its player's world inputs, in world
   order; its own inputs stay as a prefix; the actors keep their order and
   ids.
   */
  method Run(world: seq<GameInput>, actors: seq<Actor>) returns (r: seq<Actor>)
    ensures |r| == |actors|
    ensures forall a :: 0 <= a < |actors| ==>
      && r[a].playerId == actors[a].playerId
      && r[a].inputs == actors[a].inputs + ForPlayer(world, actors[a].playerId)
  {
    r := [];
    var a := 0;
    while a < |actors|
      invariant 0 <= a <= |actors| && |r| == a
      invariant forall b :: 0 <= b < a ==>
        r[b].playerId == actors[b].playerId && r[b].inputs == actors[b].inputs + ForPlayer(world, actors[b].playerId)
    {
      var actor := actors[a];
      var mine := CollectForPlayer(world, actor.playerId);
      var inputs := PushAll(actor.inputs, mine);
      assert inputs == actor.inputs + mine;
      r := r + [Actor(actor.playerId, inputs)];
      a := a + 1;
    }
  }
}
