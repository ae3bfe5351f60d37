// Gameplay mechanics (src/game.rs): the key counter, collisions and a player's move.
//
// `Resolve`, `Scan`, `RemoveAll`, `Rebase` and `Move` say on plain values what one
// collision, the collision scan, the reverse-order removal of the collected actors and a
// whole move do; the methods `Collide` and `GameMove` do the same to a GameState and a
// Room in place and are proved to agree with them.
module Game {
  import opened Compass

  /** A facing: the index of its step in the compass (DIR_COMPASS) and of its routes bit. */
  type Dir = DirIdx

  /** The actors a room holds, as far as movement tells them apart. */
  datatype Actor = Player(facing: Dir) | Door | Key(facesRight: bool) | Other

  /** An actor with its position. */
  type Placed = (Actor, Pos)

  /** The game's state: where the player sits in its room's actor list, and the keys held. */
  class GameState {
    var playerIdx: nat
    var keys: nat

    constructor ()
      ensures playerIdx == 0 && keys == 0
    {
      playerIdx := 0;
      keys := 0;
    }
  }

  /** A room: its routes grid (indexed [y, x]) and its actors. */
  class Room {
    var routes: array2<bv8>
    var actors: seq<Placed>

    constructor (routes: array2<bv8>, actors: seq<Placed>)
      ensures this.routes == routes && this.actors == actors
    {
      this.routes := routes;
      this.actors := actors;
    }
  }

  // ---------------------------------------------------------------------------
  // One collision

  /** What a collision decides: stop the move, remove the actor run into, and the keys
      held afterwards. */
  datatype Outcome = Outcome(halt: bool, delete: bool, keys: nat)

  /** `from` runs into `into` while `keys` keys are held (game.rs, lines 15-31). */
  function Resolve(from: Actor, into: Actor, keys: nat): (r: Outcome)
    ensures r.halt <==> from.Player? && into.Door? && keys == 0
    ensures r.delete <==> from.Player? && (into.Key? || (into.Door? && keys > 0))
    ensures !(r.halt && r.delete)
    ensures r.keys == if from.Player? && into.Key? then keys + 1
                      else if r.delete then keys - 1 else keys
  {
    match (from, into)
    case (Player(_), Key(_)) => Outcome(false, true, keys + 1)
    case (Player(_), Door) => if keys > 0 then Outcome(false, true, keys - 1) else Outcome(true, false, keys)
    case _ => Outcome(false, false, keys)
  }

  /** game_collide: updates the key counter and answers (halt, delete). */
  method Collide(state: GameState, from: Actor, into: Actor, at: Pos) returns (halt: bool, delete: bool)
    modifies state`keys
    ensures Outcome(halt, delete, state.keys) == Resolve(from, into, old(state.keys))
  {
    match (from, into)
    case (Player(_), Key(_)) =>
      state.keys := state.keys + 1;
      halt, delete := false, true;
    case (Player(_), Door) =>
      if state.keys > 0 {
        state.keys := state.keys - 1;
        halt, delete := false, true;
      } else {
        halt, delete := true, false;
      }
    case _ =>
      halt, delete := false, false;
  }

  // ---------------------------------------------------------------------------
  // The collision scan

  /** Strictly increasing indices. */
  ghost predicate Increasing(ds: seq<nat>)
  {
    forall a, b :: 0 <= a < b < |ds| ==> ds[a] < ds[b]
  }

  /** What the scan of the actor list leaves: the indices to delete, in increasing order,
      the keys held, whether a collision halted the move, and the index it halted at
      (the length of the list when none did). */
  datatype Scanned = Scanned(deletes: seq<nat>, keys: nat, halted: bool, stop: nat)

  /** The scan from index `i` on: every actor standing on `want` is collided with in index
      order until a collision halts (game.rs, lines 41-48). */
  function Scan(actors: seq<Placed>, player: Actor, want: Pos, keys: nat, i: nat): (r: Scanned)
    requires i <= |actors|
    ensures i <= r.stop <= |actors| && (r.halted <==> r.stop < |actors|)
    ensures forall k :: 0 <= k < |r.deletes| ==> i <= r.deletes[k] < r.stop && actors[r.deletes[k]].1 == want
    ensures Increasing(r.deletes)
    ensures r.halted ==> actors[r.stop].1 == want && actors[r.stop].0.Door? && player.Player? && r.keys == 0
    decreases |actors| - i
  {
    if i == |actors| then Scanned([], keys, false, i)
    else if actors[i].1 != want then Scan(actors, player, want, keys, i + 1)
    else
      var o := Resolve(player, actors[i].0, keys);
      var mine := if o.delete then [i] else [];
      if o.halt then Scanned(mine, o.keys, true, i)
      else
        var rest := Scan(actors, player, want, o.keys, i + 1);
        Scanned(mine + rest.deletes, rest.keys, rest.halted, rest.stop)
  }

  /** The scan evaluates no actor after the one that halts it: lists that agree up to and
      including that actor are scanned alike. */
  lemma {:induction false} ScanStopsAtHalt(actors: seq<Placed>, other: seq<Placed>, player: Actor, want: Pos, keys: nat, i: nat)
    requires i <= |actors| && Scan(actors, player, want, keys, i).halted
    requires Scan(actors, player, want, keys, i).stop < |other|
    requires forall k :: i <= k <= Scan(actors, player, want, keys, i).stop ==> other[k] == actors[k]
    ensures Scan(other, player, want, keys, i) == Scan(actors, player, want, keys, i)
    decreases |actors| - i
  {
    var r := Scan(actors, player, want, keys, i);
    assert other[i] == actors[i];
    if actors[i].1 == want {
      var o := Resolve(player, actors[i].0, keys);
      if !o.halt {
        ScanStopsAtHalt(actors, other, player, want, o.keys, i + 1);
      }
    } else {
      ScanStopsAtHalt(actors, other, player, want, keys, i + 1);
    }
  }

  /** Keys picked up by deleting the actors at `ds`. */
  function KeysTaken(actors: seq<Placed>, ds: seq<nat>): nat
    requires forall k :: 0 <= k < |ds| ==> ds[k] < |actors|
  {
    if ds == [] then 0 else (if actors[ds[0]].0.Key? then 1 else 0) + KeysTaken(actors, ds[1..])
  }

  /** Doors opened by deleting the actors at `ds`. */
  function DoorsOpened(actors: seq<Placed>, ds: seq<nat>): nat
    requires forall k :: 0 <= k < |ds| ==> ds[k] < |actors|
  {
    if ds == [] then 0 else (if actors[ds[0]].0.Door? then 1 else 0) + DoorsOpened(actors, ds[1..])
  }

  /** The player's scan deletes only keys and doors. */
  lemma {:induction false} ScanConsumes(actors: seq<Placed>, facing: Dir, want: Pos, keys: nat, i: nat)
    requires i <= |actors|
    ensures forall k :: 0 <= k < |Scan(actors, Player(facing), want, keys, i).deletes| ==>
      var d := Scan(actors, Player(facing), want, keys, i).deletes[k];
      actors[d].0.Key? || actors[d].0.Door?
    decreases |actors| - i
  {
    if i < |actors| {
      if actors[i].1 != want {
        ScanConsumes(actors, facing, want, keys, i + 1);
      } else {
        var o := Resolve(Player(facing), actors[i].0, keys);
        if !o.halt {
          ScanConsumes(actors, facing, want, o.keys, i + 1);
        }
      }
    }
  }

  /** Every key and every door on the wanted cell before the stop is deleted: the scan
      only stops at a door it cannot open. */
  lemma {:induction false} ScanComplete(actors: seq<Placed>, facing: Dir, want: Pos, keys: nat, i: nat, k: nat)
    requires i <= |actors| && i <= k < Scan(actors, Player(facing), want, keys, i).stop
    requires actors[k].1 == want && (actors[k].0.Key? || actors[k].0.Door?)
    ensures k in Scan(actors, Player(facing), want, keys, i).deletes
    decreases |actors| - i
  {
    if actors[i].1 != want {
      ScanComplete(actors, facing, want, keys, i + 1, k);
    } else {
      var o := Resolve(Player(facing), actors[i].0, keys);
      if !o.halt && k > i {
        ScanComplete(actors, facing, want, o.keys, i + 1, k);
      }
    }
  }

  /** The player's keys balance over a scan: every key deleted adds one, every door
      deleted spends one. */
  lemma {:induction false} ScanKeys(actors: seq<Placed>, facing: Dir, want: Pos, keys: nat, i: nat)
    requires i <= |actors|
    ensures var r := Scan(actors, Player(facing), want, keys, i);
      r.keys + DoorsOpened(actors, r.deletes) == keys + KeysTaken(actors, r.deletes)
    decreases |actors| - i
  {
    var player := Player(facing);
    if i < |actors| {
      if actors[i].1 != want {
        ScanKeys(actors, facing, want, keys, i + 1);
      } else {
        var o := Resolve(player, actors[i].0, keys);
        if !o.halt {
          var rest := Scan(actors, player, want, o.keys, i + 1);
          ScanKeys(actors, facing, want, o.keys, i + 1);
          TallyCons(actors, if o.delete then [i] else [], rest.deletes);
        }
      }
    }
  }

  /** Keys taken and doors opened add up over concatenated deletions. */
  lemma TallyCons(actors: seq<Placed>, mine: seq<nat>, more: seq<nat>)
    requires |mine| <= 1
    requires forall k :: 0 <= k < |mine| ==> mine[k] < |actors|
    requires forall k :: 0 <= k < |more| ==> more[k] < |actors|
    ensures KeysTaken(actors, mine + more) == KeysTaken(actors, mine) + KeysTaken(actors, more)
    ensures DoorsOpened(actors, mine + more) == DoorsOpened(actors, mine) + DoorsOpened(actors, more)
  {
    if mine == [] {
      assert mine + more == more;
    } else {
      assert (mine + more)[1..] == more && mine[1..] == [];
    }
  }

  // ---------------------------------------------------------------------------
  // Removing the collected actors

  /** Vec::remove: the element at `t` is taken out and the later ones shift down. */
  function RemoveAt<T>(s: seq<T>, t: nat): (r: seq<T>)
    requires t < |s|
    ensures |r| == |s| - 1
    ensures forall k :: 0 <= k < |r| ==> r[k] == if k < t then s[k] else s[k + 1]
  {
    s[..t] + s[t + 1..]
  }

  /** Indices that can be removed from a list of `n` elements, last first. */
  ghost predicate Removable(ds: seq<nat>, n: nat)
  {
    Increasing(ds) && forall k :: 0 <= k < |ds| ==> ds[k] < n
  }

  /** The removal loop: the indices `ds` removed from the last to the first
      (game.rs, lines 53-54). */
  function RemoveAll<T>(s: seq<T>, ds: seq<nat>): seq<T>
    requires Removable(ds, |s|)
    decreases |ds|
  {
    if ds == [] then s else RemoveAll(RemoveAt(s, ds[|ds| - 1]), ds[..|ds| - 1])
  }

  /** The player index through the removal loop: whenever an index below it is removed it
      moves down by one (game.rs, line 55). */
  function Rebase(idx: nat, ds: seq<nat>): nat
    decreases |ds|
  {
    if ds == [] then idx else Rebase(if idx > ds[|ds| - 1] then idx - 1 else idx, ds[..|ds| - 1])
  }

  /** The number of indices in `ds` below `i`. */
  function Below(ds: seq<nat>, i: nat): nat
  {
    if ds == [] then 0 else Below(ds[..|ds| - 1], i) + (if ds[|ds| - 1] < i then 1 else 0)
  }

  /** The removal shrinks the list by exactly one element per index. */
  lemma {:induction false} RemoveAllLength<T>(s: seq<T>, ds: seq<nat>)
    requires Removable(ds, |s|)
    ensures |RemoveAll(s, ds)| == |s| - |ds|
    decreases |ds|
  {
    if ds != [] {
      RemoveStep(s, ds);
      RemoveAllLength(RemoveAt(s, ds[|ds| - 1]), ds[..|ds| - 1]);
    }
  }

  /** After removing the last index the rest can still be removed. */
  lemma RemoveStep<T>(s: seq<T>, ds: seq<nat>)
    requires Removable(ds, |s|) && ds != []
    ensures ds[|ds| - 1] < |s|
    ensures forall k :: 0 <= k < |ds| - 1 ==> ds[k] < ds[|ds| - 1]
    ensures Removable(ds[..|ds| - 1], |s| - 1)
  {
    assert ds[|ds| - 1] < |s|;
  }

  /** Every element whose index is not removed survives, at its rebased index. */
  lemma {:induction false} RemoveAllKeeps<T>(s: seq<T>, ds: seq<nat>, i: nat)
    requires Removable(ds, |s|) && i < |s| && forall k :: 0 <= k < |ds| ==> ds[k] != i
    ensures Rebase(i, ds) < |RemoveAll(s, ds)| && RemoveAll(s, ds)[Rebase(i, ds)] == s[i]
    decreases |ds|
  {
    if ds == [] {
    } else {
      var t := ds[|ds| - 1];
      var j := if i > t then i - 1 else i;
      RemoveStep(s, ds);
      assert RemoveAt(s, t)[j] == s[i];
      RemoveAllKeeps(RemoveAt(s, t), ds[..|ds| - 1], j);
    }
  }

  /** Survivors keep their relative order. */
  lemma {:induction false} RebaseOrder(ds: seq<nat>, i: nat, j: nat)
    requires Increasing(ds) && i < j
    requires forall k :: 0 <= k < |ds| ==> ds[k] != i && ds[k] != j
    ensures Rebase(i, ds) < Rebase(j, ds)
    decreases |ds|
  {
    if ds != [] {
      var t := ds[|ds| - 1];
      var i', j' := if i > t then i - 1 else i, if j > t then j - 1 else j;
      assert forall k :: 0 <= k < |ds| - 1 ==> ds[k] < t;
      RebaseOrder(ds[..|ds| - 1], i', j');
    }
  }

  /** A surviving index moves down by the number of removed indices below it. */
  lemma {:induction false} RebaseCounts(ds: seq<nat>, i: nat)
    requires Increasing(ds) && forall k :: 0 <= k < |ds| ==> ds[k] != i
    ensures Below(ds, i) <= i && Rebase(i, ds) == i - Below(ds, i)
    decreases |ds|
  {
    if ds != [] {
      var t := ds[|ds| - 1];
      var init := ds[..|ds| - 1];
      assert forall k :: 0 <= k < |init| ==> init[k] < t;
      if i > t {
        AllBelow(init, t, i - 1);
        AllBelow(init, t, i);
        RebaseCounts(init, i - 1);
      } else {
        RebaseCounts(init, i);
      }
    }
  }

  /** When every index is below `t`, all of them are below any `i >= t`. */
  lemma {:induction false} AllBelow(ds: seq<nat>, t: nat, i: nat)
    requires t <= i && forall k :: 0 <= k < |ds| ==> ds[k] < t
    ensures Below(ds, i) == |ds|
    decreases |ds|
  {
    if ds != [] {
      AllBelow(ds[..|ds| - 1], t, i);
    }
  }

  // ---------------------------------------------------------------------------
  // A whole move

  /** The part of the game a move reads and changes. */
  datatype World = World(actors: seq<Placed>, playerIdx: nat, keys: nat)

  /** The actor at playerIdx is the player, as game_move demands (game.rs, lines 34-35). */
  predicate HasPlayer(w: World)
  {
    w.playerIdx < |w.actors| && w.actors[w.playerIdx].0.Player?
  }

  /** game_move on values, for a player whose cell in the routes grid has mask `open`
      (game.rs, lines 33-62). */
  ghost function Move(w: World, open: bv8, dir: Dir): (r: World)
    requires HasPlayer(w)
    ensures HasPlayer(r) && r.actors[r.playerIdx].0 == Player(dir)
  {
    var at := w.actors[w.playerIdx].1;
    if dir != w.actors[w.playerIdx].0.facing || !Has(open, dir) then
      World(w.actors[w.playerIdx := (Player(dir), at)], w.playerIdx, w.keys)
    else
      Stepped(w, dir)
  }

  /** The step branch of game_move: scan, remove, rebase and put the player back. */
  ghost function Stepped(w: World, dir: Dir): (r: World)
    requires HasPlayer(w)
    ensures HasPlayer(r) && r.actors[r.playerIdx].0 == Player(dir)
  {
    var at := w.actors[w.playerIdx].1;
    var want := Neighbour(at, dir);
    var sc := Scan(w.actors, w.actors[w.playerIdx].0, want, w.keys, 0);
    RemoveAllKeeps(w.actors, sc.deletes, w.playerIdx);
    var rest := RemoveAll(w.actors, sc.deletes);
    var idx := Rebase(w.playerIdx, sc.deletes);
    World(rest[idx := (Player(dir), if sc.halted then at else want)], idx, sc.keys)
  }

  /** Turning: when `dir` is not the facing, only the facing changes. */
  lemma MoveTurns(w: World, open: bv8, dir: Dir)
    requires HasPlayer(w) && dir != w.actors[w.playerIdx].0.facing
    ensures var r := Move(w, open, dir);
      && r.playerIdx == w.playerIdx && r.keys == w.keys && |r.actors| == |w.actors|
      && r.actors[r.playerIdx] == (Player(dir), w.actors[w.playerIdx].1)
      && forall i :: 0 <= i < |w.actors| && i != w.playerIdx ==> r.actors[i] == w.actors[i]
  {
  }

  /** A step the routes grid does not open changes nothing. */
  lemma MoveBlocked(w: World, open: bv8, dir: Dir)
    requires HasPlayer(w) && dir == w.actors[w.playerIdx].0.facing && !Has(open, dir)
    ensures Move(w, open, dir) == w
  {
    assert w.actors[w.playerIdx := (Player(dir), w.actors[w.playerIdx].1)] == w.actors;
  }

  /** The pieces of a step, named. */
  lemma StepParts(w: World, dir: Dir) returns (sc: Scanned, rest: seq<Placed>, idx: nat)
    requires HasPlayer(w)
    ensures sc == Scan(w.actors, w.actors[w.playerIdx].0, Neighbour(w.actors[w.playerIdx].1, dir), w.keys, 0)
    ensures Removable(sc.deletes, |w.actors|)
    ensures forall k :: 0 <= k < |sc.deletes| ==> sc.deletes[k] != w.playerIdx
    ensures rest == RemoveAll(w.actors, sc.deletes) && idx == Rebase(w.playerIdx, sc.deletes)
    ensures idx < |rest|
    ensures Stepped(w, dir) == World(rest[idx := (Player(dir),
      if sc.halted then w.actors[w.playerIdx].1 else Neighbour(w.actors[w.playerIdx].1, dir))], idx, sc.keys)
  {
    var at := w.actors[w.playerIdx].1;
    sc := Scan(w.actors, w.actors[w.playerIdx].0, Neighbour(at, dir), w.keys, 0);
    forall k | 0 <= k < |sc.deletes| ensures sc.deletes[k] != w.playerIdx {
      assert w.actors[sc.deletes[k]].1 == Neighbour(at, dir) != at;
    }
    rest := RemoveAll(w.actors, sc.deletes);
    idx := Rebase(w.playerIdx, sc.deletes);
    RemoveAllKeeps(w.actors, sc.deletes, w.playerIdx);
  }

  /** A step: the actors collided with are removed (also those before a halt) and the list
      shrinks by their number; the player is never among them, and it ends up at its index
      less the removals below it, facing the same way, on the wanted cell unless a
      collision halted it. */
  lemma MoveSteps(w: World, open: bv8, dir: Dir)
    requires HasPlayer(w) && dir == w.actors[w.playerIdx].0.facing && Has(open, dir)
    ensures var at := w.actors[w.playerIdx].1;
      var sc := Scan(w.actors, w.actors[w.playerIdx].0, Neighbour(at, dir), w.keys, 0);
      var r := Move(w, open, dir);
      && (forall k :: 0 <= k < |sc.deletes| ==> sc.deletes[k] != w.playerIdx)
      && |r.actors| == |w.actors| - |sc.deletes|
      && r.keys == sc.keys
      && r.playerIdx == w.playerIdx - Below(sc.deletes, w.playerIdx)
      && r.actors[r.playerIdx] == (Player(dir), if sc.halted then at else Neighbour(at, dir))
  {
    var sc, rest, idx := StepParts(w, dir);
    RemoveAllLength(w.actors, sc.deletes);
    RebaseCounts(sc.deletes, w.playerIdx);
  }

  /** A step keeps every actor it does not remove, in the same relative order. */
  lemma MoveKeepsOthers(w: World, open: bv8, dir: Dir, i: nat)
    requires HasPlayer(w) && dir == w.actors[w.playerIdx].0.facing && Has(open, dir)
    requires var at := w.actors[w.playerIdx].1;
      var sc := Scan(w.actors, w.actors[w.playerIdx].0, Neighbour(at, dir), w.keys, 0);
      i < |w.actors| && i != w.playerIdx && forall k :: 0 <= k < |sc.deletes| ==> sc.deletes[k] != i
    ensures var at := w.actors[w.playerIdx].1;
      var sc := Scan(w.actors, w.actors[w.playerIdx].0, Neighbour(at, dir), w.keys, 0);
      var r := Move(w, open, dir);
      Rebase(i, sc.deletes) < |r.actors| && r.actors[Rebase(i, sc.deletes)] == w.actors[i]
  {
    var sc, rest, idx := StepParts(w, dir);
    RemoveAllKeeps(w.actors, sc.deletes, i);
    if i < w.playerIdx {
      RebaseOrder(sc.deletes, i, w.playerIdx);
    } else {
      RebaseOrder(sc.deletes, w.playerIdx, i);
    }
  }

  // ---------------------------------------------------------------------------
  // game_move on a GameState and a Room

  ghost function Now(state: GameState, room: Room): World
    reads state, room
  {
    World(room.actors, state.playerIdx, state.keys)
  }

  /** The routes mask of the player's cell (0 when the cell is off the grid). */
  ghost function PlayerCell(state: GameState, room: Room): bv8
    reads state, room, room.routes
    requires HasPlayer(Now(state, room))
  {
    var at := room.actors[state.playerIdx].1;
    if 0 <= at.1 < room.routes.Length0 && 0 <= at.0 < room.routes.Length1 then room.routes[at.1, at.0] else 0
  }

  /** A scan result with deletions `ds` collected before it. */
  function After(ds: seq<nat>, r: Scanned): Scanned
  {
    r.(deletes := ds + r.deletes)
  }

  /** One step of the scan at an actor standing on the wanted cell. */
  lemma ScanHit(actors: seq<Placed>, player: Actor, want: Pos, keys: nat, i: nat, ds: seq<nat>)
    requires i < |actors| && actors[i].1 == want
    ensures var o := Resolve(player, actors[i].0, keys);
      var mine := if o.delete then [i] else [];
      && (o.halt ==> After(ds, Scan(actors, player, want, keys, i)) == Scanned(ds + mine, o.keys, true, i))
      && (!o.halt ==> After(ds, Scan(actors, player, want, keys, i)) == After(ds + mine, Scan(actors, player, want, o.keys, i + 1)))
  {
    var o := Resolve(player, actors[i].0, keys);
    var mine := if o.delete then [i] else [];
    if !o.halt {
      var rest := Scan(actors, player, want, o.keys, i + 1);
      assert ds + (mine + rest.deletes) == (ds + mine) + rest.deletes;
    }
  }

  /** The 'collide block: the scan with its early exit (game.rs, lines 41-51). Returns the
      indices to delete and the player's new position. */
  method CollideAll(state: GameState, actors: seq<Placed>, player: Actor, at: Pos, want: Pos)
      returns (deletes: seq<nat>, playerAt: Pos)
    modifies state`keys
    ensures var sc := Scan(actors, player, want, old(state.keys), 0);
      deletes == sc.deletes && state.keys == sc.keys && playerAt == if sc.halted then at else want
  {
    ghost var total := Scan(actors, player, want, state.keys, 0);
    deletes := [];
    playerAt := at;
    assert total == After(deletes, total);
    label collide: {
      var idx := 0;
      while idx < |actors|
        invariant 0 <= idx <= |actors|
        invariant total == After(deletes, Scan(actors, player, want, state.keys, idx))
      {
        var actor, pos := actors[idx].0, actors[idx].1;
        if want == pos {
          ghost var before, collected := state.keys, deletes;
          ghost var o := Resolve(player, actor, before);
          ScanHit(actors, player, want, before, idx, collected);
          var halt, destroy := Collide(state, player, actor, want);
          assert halt == o.halt && destroy == o.delete && state.keys == o.keys;
          if destroy {
            deletes := deletes + [idx];
          }
          assert deletes == collected + if o.delete then [idx] else [];
          if halt {
            assert total == Scanned(deletes, state.keys, true, idx);
            break collide;
          }
          assert total == After(deletes, Scan(actors, player, want, state.keys, idx + 1));
        } else {
          assert Scan(actors, player, want, state.keys, idx) == Scan(actors, player, want, state.keys, idx + 1);
        }
        idx := idx + 1;
      }
      assert total == Scanned(deletes + [], state.keys, false, |actors|);
      assert deletes + [] == deletes;
      playerAt := want;
    }
  }

  /** The removal loop (game.rs, lines 53-56): the deleted actors are removed last first,
      the player index moving down past each one below it. */
  method RemoveDeleted(state: GameState, room: Room, deletes: seq<nat>)
    requires Removable(deletes, |room.actors|)
    modifies state`playerIdx, room`actors
    ensures room.actors == RemoveAll(old(room.actors), deletes)
    ensures state.playerIdx == Rebase(old(state.playerIdx), deletes)
  {
    var actors, playerIdx := room.actors, state.playerIdx;
    ghost var removed, rebased := RemoveAll(actors, deletes), Rebase(playerIdx, deletes);
    var j := |deletes|;
    ghost var pending := deletes;
    while j > 0
      invariant 0 <= j <= |deletes| && pending == deletes[..j]
      invariant Removable(pending, |actors|)
      invariant removed == RemoveAll(actors, pending)
      invariant rebased == Rebase(playerIdx, pending)
    {
      var target := deletes[j - 1];
      assert target == pending[|pending| - 1];
      RemoveStep(actors, pending);
      pending := pending[..j - 1];
      actors := RemoveAt(actors, target);
      if playerIdx > target {
        playerIdx := playerIdx - 1;
      }
      j := j - 1;
    }
    room.actors, state.playerIdx := actors, playerIdx;
  }

  /** The step branch of game_move (game.rs, lines 40-61): collide with everything on the
      wanted cell, remove what was deleted, and place the player. */
  method StepPlayer(state: GameState, room: Room, dir: Dir)
    requires HasPlayer(Now(state, room)) && dir == room.actors[state.playerIdx].0.facing
    modifies state, room`actors
    ensures Now(state, room) == Stepped(old(Now(state, room)), dir)
  {
    ghost var w := Now(state, room);
    ghost var sc, rest, idx := StepParts(w, dir);
    var player, at := room.actors[state.playerIdx].0, room.actors[state.playerIdx].1;
    var want := Neighbour(at, dir);
    var deletes, playerAt := CollideAll(state, room.actors, player, at, want);
    RemoveDeleted(state, room, deletes);
    assert room.actors == rest && state.playerIdx == idx && state.keys == sc.keys;
    room.actors := room.actors[state.playerIdx := (Player(dir), playerAt)];
  }

  /** game_move: turns the player, or steps it one cell in its facing when the routes grid
      opens that way, colliding with whatever stands there. */
  method GameMove(state: GameState, room: Room, dir: Dir)
    requires HasPlayer(Now(state, room))
    requires var at := room.actors[state.playerIdx].1;
      dir == room.actors[state.playerIdx].0.facing ==>
        0 <= at.1 < room.routes.Length0 && 0 <= at.0 < room.routes.Length1
    modifies state, room
    ensures room.routes == old(room.routes)
    ensures Now(state, room) == Move(old(Now(state, room)), old(PlayerCell(state, room)), dir)
  {
    ghost var w, open := Now(state, room), PlayerCell(state, room);
    var player, playerAt := room.actors[state.playerIdx].0, room.actors[state.playerIdx].1;
    if dir == player.facing {
      var cell := room.routes[playerAt.1, playerAt.0];
      assert cell == open;
      if cell & Bit(dir) != 0 {
        assert Move(w, open, dir) == Stepped(w, dir);
        StepPlayer(state, room, dir);
      } else {
        MoveBlocked(w, open, dir);
        room.actors := room.actors[state.playerIdx := (Player(dir), playerAt)];
      }
    } else {
      room.actors := room.actors[state.playerIdx := (Player(dir), playerAt)];
    }
  }
}
