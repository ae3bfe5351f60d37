// Randomised depth-first carving of the connectivity grid `routes`
// (src/room.rs, room_push_fill_random, lines 42-78).
//
// The carving loop is modelled twice: `CarveRoutes` is the imperative loop over a
// 2-D array and an explicit stack of frames, and `Step` is the same loop body as a
// function on an abstract state, on which the invariants are proved.
module Carving {
  import opened Constants
  import opened Compass

  /** Extent of the connectivity grid, routes_bound. */
  const BOUND: Pos := (TILES, TILES)
  /** The cell carving starts from, routes_bound / 2. */
  const ROOT: Pos := (TILES / 2, TILES / 2)

  /** An order in which a frame tries the four directions: four distinct directions, so a
      permutation of COMPASS_IDX, each direction at exactly one position (OrderCovers). */
  type Order = o: seq<DirIdx> | |o| == 4 && o[0] != o[1] && o[0] != o[2] && o[0] != o[3] &&
    o[1] != o[2] && o[1] != o[3] && o[2] != o[3] witness [2, 1, 0, 3]

  /** The root frame's fixed order. */
  const COMPASS_IDX: Order := [2, 1, 0, 3]

  /** A stack frame: the cell, its direction order and the next position in that order. */
  datatype Frame = Frame(at: Pos, order: Order, cursor: nat)

  /** A value view of the routes array: cell (x, y) maps to its direction mask. */
  type Grid = map<Pos, bv8>

  predicate InGrid(p: Pos)
  {
    Within(p, BOUND)
  }

  ghost const AllCells: set<Pos> := set x: int, y: int | 0 <= x < TILES && 0 <= y < TILES :: (x, y)

  ghost predicate IsGrid(g: Grid)
  {
    forall p :: p in g <==> InGrid(p)
  }

  /** The state of the carving loop: the grid, the stack, and (for the proof) every
      cell that has had a frame pushed for it, in push order, the root first. */
  datatype Carving = Carving(grid: Grid, stack: seq<Frame>, visits: seq<Pos>)

  ghost function Start(): (s: Carving)
  {
    Carving(map p | p in AllCells :: 0, [Frame(ROOT, COMPASS_IDX, 0)], [ROOT])
  }

  ghost predicate Shaped(s: Carving)
  {
    && IsGrid(s.grid)
    && |s.visits| > 0 && s.visits[0] == ROOT
    && (forall i :: 0 <= i < |s.visits| ==> InGrid(s.visits[i]))
    && (forall i, j :: 0 <= i < j < |s.visits| ==> s.visits[i] != s.visits[j])
    && (forall i :: 0 <= i < |s.stack| ==> s.stack[i].cursor < 4 && s.stack[i].at in s.visits)
  }

  function Top(s: Carving): Frame
    requires s.stack != []
  {
    s.stack[|s.stack| - 1]
  }

  /** The direction the top frame tries now, compass_order[compass_order_idx]. */
  function Tried(s: Carving): DirIdx
    requires s.stack != [] && Top(s).cursor < 4
  {
    Top(s).order[Top(s).cursor]
  }

  /** The candidate cell, at + COMPASS[compass_idx]. */
  function Target(s: Carving): Pos
    requires s.stack != [] && Top(s).cursor < 4
  {
    Neighbour(Top(s).at, Tried(s))
  }

  /** A cell whose mask is `v` answers a step toward it in direction `d` when it is still
      free or already open back toward the stepping cell (room.rs, line 73). */
  predicate Answers(v: bv8, d: DirIdx)
  {
    v == 0 || Has(v, Opposite(d))
  }

  /** This step pushes a fresh frame for the candidate (room.rs, lines 64-71). */
  ghost predicate Pushes(s: Carving)
    requires s.stack != [] && Top(s).cursor < 4
  {
    Target(s) in s.grid && s.grid[Target(s)] == 0
  }

  /** This step opens the top cell toward the candidate (room.rs, lines 73-75). */
  ghost predicate Links(s: Carving)
    requires s.stack != [] && Top(s).cursor < 4
  {
    Target(s) in s.grid && Answers(s.grid[Target(s)], Tried(s))
  }

  /** The stack after popping the top frame and re-pushing it with cursor + 1 while
      cursor < 3 (room.rs, lines 53-59). */
  function Resumed(stack: seq<Frame>): (r: seq<Frame>)
    requires stack != []
  {
    var top := stack[|stack| - 1];
    if top.cursor < 3 then stack[..|stack| - 1] + [top.(cursor := top.cursor + 1)] else stack[..|stack| - 1]
  }

  /** One iteration of the carving loop; `shuffles(i)` is the order the i-th fresh frame gets. */
  ghost function Step(s: Carving, shuffles: nat -> Order): Carving
    requires Shaped(s) && s.stack != []
  {
    var top := Top(s);
    var resumed := Resumed(s.stack);
    Carving(
      if Links(s) then s.grid[top.at := s.grid[top.at] | Bit(Tried(s))] else s.grid,
      if Pushes(s) then resumed + [Frame(Target(s), shuffles(|s.visits| - 1), 0)] else resumed,
      if Pushes(s) then s.visits + [Target(s)] else s.visits)
  }

  /** Frame `f` is at cell `p` and has direction `e` at or after its cursor. */
  predicate Pending(f: Frame, p: Pos, e: DirIdx)
  {
    && f.at == p
    && ((f.cursor <= 0 && f.order[0] == e) || (f.cursor <= 1 && f.order[1] == e) ||
        (f.cursor <= 2 && f.order[2] == e) || (f.cursor <= 3 && f.order[3] == e))
  }

  /** Some frame on the stack has direction `e` still to try at cell `p`. */
  ghost predicate WillTry(stack: seq<Frame>, p: Pos, e: DirIdx)
  {
    exists i :: 0 <= i < |stack| && Pending(stack[i], p, e)
  }

  /** Every mask holds only the four direction bits. */
  ghost predicate InRange(g: Grid)
  {
    forall p :: p in g ==> IsMask(g[p])
  }

  /** No open direction points off the map. */
  ghost predicate StaysOnMap(g: Grid)
  {
    forall p, d: DirIdx :: p in g && Has(g[p], d) ==> Neighbour(p, d) in g
  }

  /** Every edge open from one side only will be reciprocated: a frame of the other side
      still has the opposite direction to try. */
  ghost predicate Answered(s: Carving)
  {
    forall p, d: DirIdx :: p in s.grid && Has(s.grid[p], d) && Neighbour(p, d) in s.grid ==>
      Has(s.grid[Neighbour(p, d)], Opposite(d)) || WillTry(s.stack, Neighbour(p, d), Opposite(d))
  }

  /** Every neighbour of a visited cell is visited or still to be tried from it. */
  ghost predicate Explored(s: Carving)
  {
    forall i, d: DirIdx :: 0 <= i < |s.visits| && Neighbour(s.visits[i], d) in s.grid ==>
      Neighbour(s.visits[i], d) in s.visits || WillTry(s.stack, s.visits[i], d)
  }

  /** Only visited cells have a non-zero mask. */
  ghost predicate MarkedVisited(s: Carving)
  {
    forall p :: p in s.grid && s.grid[p] != 0 ==> p in s.visits
  }

  /** The top frame still has a direction whose candidate answers it. */
  ghost predicate TopCanLink(s: Carving)
    requires s.stack != []
  {
    var top := Top(s);
    exists k :: top.cursor <= k < 4 && Neighbour(top.at, top.order[k]) in s.grid &&
      Answers(s.grid[Neighbour(top.at, top.order[k])], top.order[k])
  }

  /** A visited cell can still be free only while it is the top frame's cell, and then it
      is sure to be linked before its frame is exhausted. */
  ghost predicate OnlyTopFree(s: Carving)
  {
    forall p :: p in s.visits && p in s.grid && s.grid[p] == 0 ==>
      s.stack != [] && Top(s).at == p && TopCanLink(s)
  }

  /** The i-th visited cell was reached from an earlier visited cell that is open toward it. */
  ghost predicate Parent(g: Grid, vs: seq<Pos>, i: nat)
    requires i < |vs|
  {
    exists j, d: DirIdx :: 0 <= j < i && vs[j] in g && Has(g[vs[j]], d) && Neighbour(vs[j], d) == vs[i]
  }

  /** Every visited cell but the root has a parent: the links of the carving tree. */
  ghost predicate Linked(s: Carving)
  {
    forall i :: 0 < i < |s.visits| ==> Parent(s.grid, s.visits, i)
  }

  ghost predicate Inv(s: Carving)
  {
    Shaped(s) && InRange(s.grid) && StaysOnMap(s.grid) && Answered(s) && Explored(s) &&
    MarkedVisited(s) && OnlyTopFree(s) && Linked(s)
  }

  /** Every in-bounds neighbour of a open direction answers it: edges are open from both
      ends or from neither. */
  ghost predicate Reciprocal(g: Grid)
  {
    forall p, d: DirIdx :: p in g && Neighbour(p, d) in g ==>
      (Has(g[p], d) <==> Has(g[Neighbour(p, d)], Opposite(d)))
  }

  /** What the carving guarantees about the finished grid. */
  ghost predicate Carved(g: Grid)
  {
    IsGrid(g) && InRange(g) && StaysOnMap(g) && Reciprocal(g) && (forall p :: p in g ==> g[p] != 0)
  }

  /** The remaining work of a stack: the number of pops still to come from its frames. */
  function Work(stack: seq<Frame>): nat
  {
    if stack == [] then 0 else Work(stack[..|stack| - 1]) + Pops(stack[|stack| - 1])
  }

  /** The pops still to come from one frame. */
  function Pops(f: Frame): nat
  {
    if f.cursor < 4 then 4 - f.cursor else 0
  }

  ghost function Visited(s: Carving): set<Pos>
  {
    set p | p in s.visits
  }

  // ---------------------------------------------------------------------------
  // Facts about one step

  /** Every direction named by an order is tried by it at some position. */
  lemma OrderCovers(o: Order, e: DirIdx)
    ensures exists k :: 0 <= k < 4 && o[k] == e
  {
    if o[0] != e && o[1] != e && o[2] != e {
      assert o[3] == e;
    }
  }

  /** The top frame's cell is on the grid. */
  lemma TopInGrid(s: Carving)
    requires Shaped(s) && s.stack != []
    ensures Top(s).at in s.visits && Top(s).at in s.grid
  {
    assert Top(s).at in s.visits;
  }

  /** The grid keeps its cells. */
  lemma StepGridKeys(s: Carving, shuffles: nat -> Order)
    requires Shaped(s) && s.stack != []
    ensures IsGrid(Step(s, shuffles).grid)
  {
    TopInGrid(s);
  }

  /** Masks only grow, and only the top cell's mask changes. */
  lemma StepGridGrows(s: Carving, shuffles: nat -> Order)
    requires Shaped(s) && s.stack != []
    ensures forall q :: q in s.grid ==> s.grid[q] & Step(s, shuffles).grid[q] == s.grid[q]
    ensures forall q :: q in s.grid && q != Top(s).at ==> Step(s, shuffles).grid[q] == s.grid[q]
  {
    TopInGrid(s);
    if Links(s) {
      GridOrGrows(s.grid, Top(s).at, Tried(s));
    } else {
      GridSame(s.grid);
    }
  }

  /** The only direction bit a step sets is the tried direction at the top cell, and only
      when the candidate answers. */
  lemma StepGridHas(s: Carving, shuffles: nat -> Order)
    requires Shaped(s) && s.stack != []
    ensures Links(s) ==> forall q, e: DirIdx :: q in s.grid ==>
      (Has(Step(s, shuffles).grid[q], e) <==> Has(s.grid[q], e) || (q == Top(s).at && e == Tried(s)))
    ensures !Links(s) ==> forall q :: q in s.grid ==> Step(s, shuffles).grid[q] == s.grid[q]
  {
    TopInGrid(s);
    if Links(s) {
      GridOrHas(s.grid, Top(s).at, Tried(s));
    }
  }

  /** A mask that is zero after a step was zero before and was not linked. */
  lemma StepGridZero(s: Carving, shuffles: nat -> Order)
    requires Shaped(s) && s.stack != []
    ensures forall q :: q in s.grid && Step(s, shuffles).grid[q] == 0 ==>
      s.grid[q] == 0 && !(Links(s) && q == Top(s).at)
  {
    TopInGrid(s);
    if Links(s) {
      SetBit(s.grid[Top(s).at], Tried(s));
    }
  }

  /** Masks stay within the four direction bits. */
  lemma StepGridRange(s: Carving, shuffles: nat -> Order)
    requires Shaped(s) && s.stack != [] && InRange(s.grid)
    ensures InRange(Step(s, shuffles).grid)
  {
    TopInGrid(s);
    if Links(s) {
      SetBit(s.grid[Top(s).at], Tried(s));
    }
  }

  lemma GridSame(g: Grid)
    ensures forall q :: q in g ==> g[q] & g[q] == g[q]
  {
    forall q | q in g ensures g[q] & g[q] == g[q] {
      SameMask(g[q]);
    }
  }

  lemma SameMask(m: bv8)
    ensures m & m == m
  {
  }

  /** Or-ing a direction bit into one cell keeps every mask's bits. */
  lemma GridOrGrows(g: Grid, at: Pos, d: DirIdx)
    requires at in g
    ensures forall q :: q in g ==> g[q] & g[at := g[at] | Bit(d)][q] == g[q]
  {
    var g' := g[at := g[at] | Bit(d)];
    SetBit(g[at], d);
    forall q | q in g ensures g[q] & g'[q] == g[q] {
      if q != at {
        SameMask(g[q]);
      }
    }
  }

  /** Or-ing a direction bit into one cell sets exactly that bit of that cell. */
  lemma GridOrHas(g: Grid, at: Pos, d: DirIdx)
    requires at in g
    ensures forall q, e: DirIdx :: q in g ==>
      (Has(g[at := g[at] | Bit(d)][q], e) <==> Has(g[q], e) || (q == at && e == d))
  {
    var g' := g[at := g[at] | Bit(d)];
    SetBit(g[at], d);
    forall q, e: DirIdx | q in g ensures Has(g'[q], e) <==> Has(g[q], e) || (q == at && e == d) {
      if q != at {
        assert g'[q] == g[q];
      }
    }
  }

  /** The stack after one step. */
  lemma StepStackIs(s: Carving, shuffles: nat -> Order)
    requires Shaped(s) && s.stack != []
    ensures Step(s, shuffles).stack ==
      if Pushes(s) then Resumed(s.stack) + [Frame(Target(s), shuffles(|s.visits| - 1), 0)] else Resumed(s.stack)
    ensures Step(s, shuffles).visits == if Pushes(s) then s.visits + [Target(s)] else s.visits
  {
  }

  /** A direction still to be tried stays to be tried after the top frame is popped and
      resumed, unless it is the one the top frame tries now. */
  lemma ResumedTries(stack: seq<Frame>, p: Pos, e: DirIdx)
    requires stack != [] && WillTry(stack, p, e)
    ensures var top := stack[|stack| - 1];
      WillTry(Resumed(stack), p, e) || (top.cursor < 4 && p == top.at && e == top.order[top.cursor])
  {
    var n := |stack|;
    var top := stack[n - 1];
    var i :| 0 <= i < n && Pending(stack[i], p, e);
    var r := Resumed(stack);
    if i < n - 1 {
      assert r[i] == stack[i];
      assert Pending(r[i], p, e);
    } else if !(top.cursor < 4 && e == top.order[top.cursor]) {
      assert r[n - 1] == top.(cursor := top.cursor + 1);
      assert Pending(r[n - 1], p, e);
    }
  }

  /** Pushing a frame keeps every pending try. */
  lemma PushKeepsTries(stack: seq<Frame>, f: Frame, p: Pos, e: DirIdx)
    requires WillTry(stack, p, e)
    ensures WillTry(stack + [f], p, e)
  {
    var i :| 0 <= i < |stack| && Pending(stack[i], p, e);
    assert (stack + [f])[i] == stack[i];
  }

  /** A direction still to be tried stays to be tried, unless it is the one tried now. */
  lemma TriesSurvive(s: Carving, shuffles: nat -> Order, p: Pos, e: DirIdx)
    requires Shaped(s) && s.stack != [] && WillTry(s.stack, p, e)
    ensures WillTry(Step(s, shuffles).stack, p, e) || (p == Top(s).at && e == Tried(s))
  {
    var resumed := Resumed(s.stack);
    StepStackIs(s, shuffles);
    ResumedTries(s.stack, p, e);
    if Pushes(s) {
      var f := Frame(Target(s), shuffles(|s.visits| - 1), 0);
      assert Step(s, shuffles).stack == resumed + [f];
      if WillTry(resumed, p, e) {
        PushKeepsTries(resumed, f, p, e);
      }
    } else {
      assert Step(s, shuffles).stack == resumed;
    }
  }

  /** A pushed frame has every direction still to try. */
  lemma FreshFrameTries(stack: seq<Frame>, f: Frame, e: DirIdx)
    requires f.cursor == 0
    ensures WillTry(stack + [f], f.at, e)
  {
    OrderCovers(f.order, e);
    var k :| 0 <= k < 4 && f.order[k] == e;
    assert k == 0 || k == 1 || k == 2 || k == 3;
    assert (stack + [f])[|stack|] == f;
  }

  /** The candidate of a push is a new cell. */
  lemma PushIsNew(s: Carving)
    requires Shaped(s) && OnlyTopFree(s) && s.stack != [] && Pushes(s)
    ensures Target(s) !in s.visits && InGrid(Target(s))
  {
    assert Target(s) != Top(s).at;
  }

  /** The frames of the resumed stack are frames of the old stack, the top one with its
      cursor advanced below 4. */
  lemma ResumedShaped(s: Carving)
    requires Shaped(s) && s.stack != []
    ensures forall i :: 0 <= i < |Resumed(s.stack)| ==>
      Resumed(s.stack)[i].cursor < 4 && Resumed(s.stack)[i].at in s.visits
  {
    var n := |s.stack|;
    var top := Top(s);
    var popped := s.stack[..n - 1];
    if top.cursor < 3 {
      assert Resumed(s.stack) == popped + [top.(cursor := top.cursor + 1)];
    } else {
      assert Resumed(s.stack) == popped;
    }
  }

  lemma StepShaped(s: Carving, shuffles: nat -> Order)
    requires Shaped(s) && OnlyTopFree(s) && s.stack != []
    ensures Shaped(Step(s, shuffles))
  {
    var s' := Step(s, shuffles);
    StepGridKeys(s, shuffles);
    StepStackIs(s, shuffles);
    ResumedShaped(s);
    var resumed := Resumed(s.stack);
    if Pushes(s) {
      PushIsNew(s);
      var t := Target(s);
      var f := Frame(t, shuffles(|s.visits| - 1), 0);
      assert s'.visits == s.visits + [t];
      forall i | 0 <= i < |s'.visits| ensures InGrid(s'.visits[i]) {
        if i < |s.visits| {
          assert s'.visits[i] == s.visits[i];
        }
      }
      forall i, j | 0 <= i < j < |s'.visits| ensures s'.visits[i] != s'.visits[j] {
        assert s'.visits[i] == s.visits[i];
        if j < |s.visits| {
          assert s'.visits[j] == s.visits[j];
        }
      }
      forall i | 0 <= i < |s'.stack| ensures s'.stack[i].cursor < 4 && s'.stack[i].at in s'.visits {
        if i < |resumed| {
          assert s'.stack[i] == resumed[i];
        } else {
          assert s'.stack[i] == f;
        }
      }
    }
  }

  lemma StepStaysOnMap(s: Carving, shuffles: nat -> Order)
    requires Shaped(s) && StaysOnMap(s.grid) && s.stack != []
    ensures StaysOnMap(Step(s, shuffles).grid)
  {
    StepGridKeys(s, shuffles);
    StepGridHas(s, shuffles);
  }

  lemma StepAnswered(s: Carving, shuffles: nat -> Order)
    requires Shaped(s) && Answered(s) && s.stack != []
    ensures Answered(Step(s, shuffles))
  {
    var s' := Step(s, shuffles);
    StepGridKeys(s, shuffles);
    StepGridHas(s, shuffles);
    StepStackIs(s, shuffles);
    var top := Top(s);
    forall p, e: DirIdx | p in s'.grid && Has(s'.grid[p], e) && Neighbour(p, e) in s'.grid
      ensures Has(s'.grid[Neighbour(p, e)], Opposite(e)) || WillTry(s'.stack, Neighbour(p, e), Opposite(e))
    {
      var n := Neighbour(p, e);
      StepBack(p, e);
      if Links(s) && p == top.at && e == Tried(s) {
        if Pushes(s) {
          FreshFrameTries(Resumed(s.stack), Frame(Target(s), shuffles(|s.visits| - 1), 0), Opposite(e));
        } else {
          assert Has(s.grid[n], Opposite(e));
        }
      } else {
        assert Has(s.grid[p], e);
        if !Has(s.grid[n], Opposite(e)) {
          TriesSurvive(s, shuffles, n, Opposite(e));
          if n == top.at && Opposite(e) == Tried(s) {
            assert Target(s) == p;
            assert Links(s);
          }
        }
      }
    }
  }

  lemma StepExplored(s: Carving, shuffles: nat -> Order)
    requires Shaped(s) && Explored(s) && MarkedVisited(s) && s.stack != []
    ensures Explored(Step(s, shuffles))
  {
    var s' := Step(s, shuffles);
    StepGridKeys(s, shuffles);
    StepStackIs(s, shuffles);
    forall i, e: DirIdx | 0 <= i < |s'.visits| && Neighbour(s'.visits[i], e) in s'.grid
      ensures Neighbour(s'.visits[i], e) in s'.visits || WillTry(s'.stack, s'.visits[i], e)
    {
      var p := s'.visits[i];
      if i == |s.visits| {
        FreshFrameTries(Resumed(s.stack), Frame(Target(s), shuffles(|s.visits| - 1), 0), e);
      } else {
        assert p == s.visits[i];
        if Neighbour(p, e) !in s.visits {
          TriesSurvive(s, shuffles, p, e);
        }
      }
    }
  }

  lemma StepMarkedVisited(s: Carving, shuffles: nat -> Order)
    requires Shaped(s) && MarkedVisited(s) && s.stack != []
    ensures MarkedVisited(Step(s, shuffles))
  {
    StepGridKeys(s, shuffles);
    StepGridGrows(s, shuffles);
    StepStackIs(s, shuffles);
    TopInGrid(s);
  }

  /** After a push the only free visited cell is the fresh one, and the fresh frame can
      link back to the cell it came from. */
  lemma OnlyTopFreePush(s: Carving, shuffles: nat -> Order)
    requires Shaped(s) && OnlyTopFree(s) && s.stack != [] && Pushes(s)
    ensures OnlyTopFree(Step(s, shuffles))
  {
    var s' := Step(s, shuffles);
    StepGridZero(s, shuffles);
    StepGridHas(s, shuffles);
    StepStackIs(s, shuffles);
    PushIsNew(s);
    var top := Top(s);
    var t := Target(s);
    var f := Frame(t, shuffles(|s.visits| - 1), 0);
    assert Top(s') == f;
    OrderCovers(f.order, Opposite(Tried(s)));
    var k :| 0 <= k < 4 && f.order[k] == Opposite(Tried(s));
    StepBack(top.at, Tried(s));
    assert Neighbour(f.at, f.order[k]) == top.at;
    assert Has(s'.grid[top.at], Tried(s));
    assert TopCanLink(s');
    forall p | p in s'.visits && p in s'.grid && s'.grid[p] == 0
      ensures s'.stack != [] && Top(s').at == p && TopCanLink(s')
    {
      assert p !in s.visits;
    }
  }

  /** Without a push the top frame, if its cell is still free, did not link, so a later
      direction of its order is still to be tried. */
  lemma OnlyTopFreeNoPush(s: Carving, shuffles: nat -> Order)
    requires Shaped(s) && OnlyTopFree(s) && s.stack != [] && !Pushes(s)
    ensures OnlyTopFree(Step(s, shuffles))
  {
    var s' := Step(s, shuffles);
    StepGridZero(s, shuffles);
    StepGridHas(s, shuffles);
    StepStackIs(s, shuffles);
    var top := Top(s);
    forall p | p in s'.visits && p in s'.grid && s'.grid[p] == 0
      ensures s'.stack != [] && Top(s').at == p && TopCanLink(s')
    {
      assert p in s.visits && s.grid[p] == 0;
      assert top.at == p && TopCanLink(s);
      var k :| top.cursor <= k < 4 && Neighbour(top.at, top.order[k]) in s.grid &&
        Answers(s.grid[Neighbour(top.at, top.order[k])], top.order[k]);
      assert !Links(s);
      assert k != top.cursor;
      assert Top(s') == top.(cursor := top.cursor + 1);
      assert s'.grid[Neighbour(top.at, top.order[k])] == s.grid[Neighbour(top.at, top.order[k])];
    }
  }

  lemma StepOnlyTopFree(s: Carving, shuffles: nat -> Order)
    requires Shaped(s) && OnlyTopFree(s) && s.stack != []
    ensures OnlyTopFree(Step(s, shuffles))
  {
    if Pushes(s) {
      OnlyTopFreePush(s, shuffles);
    } else {
      OnlyTopFreeNoPush(s, shuffles);
    }
  }

  /** Masks only grow, so a parent link survives a step. */
  lemma ParentSurvives(s: Carving, shuffles: nat -> Order, i: nat)
    requires Shaped(s) && s.stack != [] && 0 < i < |s.visits| && Parent(s.grid, s.visits, i)
    ensures i < |Step(s, shuffles).visits| && Parent(Step(s, shuffles).grid, Step(s, shuffles).visits, i)
  {
    var g', vs' := Step(s, shuffles).grid, Step(s, shuffles).visits;
    StepStackIs(s, shuffles);
    StepGridHas(s, shuffles);
    var j, d: DirIdx :| 0 <= j < i && s.visits[j] in s.grid && Has(s.grid[s.visits[j]], d) &&
      Neighbour(s.visits[j], d) == s.visits[i];
    assert vs'[j] == s.visits[j] && vs'[i] == s.visits[i];
    assert vs'[j] in g' && Has(g'[vs'[j]], d);
  }

  /** A pushed cell's parent is the top frame's cell, which the same step opens toward it. */
  lemma PushHasParent(s: Carving, shuffles: nat -> Order)
    requires Shaped(s) && s.stack != [] && Top(s).cursor < 4 && Pushes(s)
    ensures |Step(s, shuffles).visits| == |s.visits| + 1
    ensures Parent(Step(s, shuffles).grid, Step(s, shuffles).visits, |s.visits|)
  {
    var g', vs' := Step(s, shuffles).grid, Step(s, shuffles).visits;
    StepStackIs(s, shuffles);
    StepGridHas(s, shuffles);
    TopInGrid(s);
    assert Links(s);
    var j :| 0 <= j < |s.visits| && s.visits[j] == Top(s).at;
    assert vs'[j] == Top(s).at && vs'[|s.visits|] == Target(s);
    assert vs'[j] in g' && Has(g'[vs'[j]], Tried(s));
  }

  lemma StepLinked(s: Carving, shuffles: nat -> Order)
    requires Shaped(s) && Linked(s) && s.stack != []
    ensures Linked(Step(s, shuffles))
  {
    var vs' := Step(s, shuffles).visits;
    StepStackIs(s, shuffles);
    forall i | 0 < i < |vs'| ensures Parent(Step(s, shuffles).grid, vs', i) {
      if i < |s.visits| {
        ParentSurvives(s, shuffles, i);
      } else {
        PushHasParent(s, shuffles);
      }
    }
  }

  lemma WorkAppend(stack: seq<Frame>, f: Frame)
    ensures Work(stack + [f]) == Work(stack) + Pops(f)
  {
    var t := stack + [f];
    assert t[..|t| - 1] == stack;
  }

  /** Popping and resuming the top frame uses up one of its pops. */
  lemma WorkResumed(stack: seq<Frame>)
    requires stack != [] && stack[|stack| - 1].cursor < 4
    ensures Work(Resumed(stack)) == Work(stack) - 1
  {
    var n := |stack|;
    var top := stack[n - 1];
    var popped := stack[..n - 1];
    assert Work(stack) == Work(popped) + Pops(top);
    if top.cursor < 3 {
      WorkAppend(popped, top.(cursor := top.cursor + 1));
    } else {
      assert Resumed(stack) == popped;
    }
  }

  /** The number of cells that have not had a frame yet. */
  ghost function Unvisited(s: Carving): nat
  {
    |AllCells - Visited(s)|
  }

  /** Visiting a new cell of the grid shrinks the set of cells still unvisited. */
  lemma VisitShrinks(vs: seq<Pos>, t: Pos)
    requires InGrid(t) && t !in vs
    ensures |AllCells - (set p | p in vs + [t])| < |AllCells - (set p | p in vs)|
  {
    var before := AllCells - (set p | p in vs);
    var after := AllCells - (set p | p in vs + [t]);
    assert t in AllCells;
    assert before == after + {t};
  }

  /** Each step either visits a new cell or uses up one pop of the stack: the loop's
      termination measure decreases. */
  lemma StepProgress(s: Carving, shuffles: nat -> Order)
    requires Shaped(s) && OnlyTopFree(s) && s.stack != []
    ensures var s' := Step(s, shuffles);
      || Unvisited(s') < Unvisited(s)
      || (Unvisited(s') == Unvisited(s) && Work(s'.stack) < Work(s.stack))
  {
    StepStackIs(s, shuffles);
    if Pushes(s) {
      PushIsNew(s);
      VisitShrinks(s.visits, Target(s));
    } else {
      WorkResumed(s.stack);
    }
  }

  lemma StepKeepsInv(s: Carving, shuffles: nat -> Order)
    requires Inv(s) && s.stack != []
    ensures Inv(Step(s, shuffles))
  {
    StepShaped(s, shuffles);
    StepGridRange(s, shuffles);
    StepStaysOnMap(s, shuffles);
    StepAnswered(s, shuffles);
    StepExplored(s, shuffles);
    StepMarkedVisited(s, shuffles);
    StepOnlyTopFree(s, shuffles);
    StepLinked(s, shuffles);
  }

  /** The states the carving invariant holds of. The loop carries membership in this set
      rather than the invariant's conjuncts, which keeps its proof obligations small. */
  ghost const Sound: iset<Carving> := iset s | Inv(s)

  /** What the carving loop needs from one step: the invariant is kept, the measure
      decreases and the step is the plain-value one the loop body performs. */
  lemma StepOk(s: Carving, shuffles: nat -> Order, next: Order) returns (s': Carving)
    requires s in Sound && s.stack != [] && next == shuffles(|s.visits| - 1)
    ensures s' in Sound && s' == Step(s, shuffles)
    ensures IsGrid(s.grid)
    ensures Unvisited(s') < Unvisited(s) || (Unvisited(s') == Unvisited(s) && Work(s'.stack) < Work(s.stack))
    ensures s.stack[|s.stack| - 1].cursor < 4 && s.stack[|s.stack| - 1].at in s.grid
    ensures forall q :: q in s'.grid ==>
      q in Advanced(s.grid, s.stack, next).0 &&
      s'.grid[q] == Advanced(s.grid, s.stack, next).0[q]
    ensures s'.stack == Advanced(s.grid, s.stack, next).1
    ensures |s'.visits| == if Advanced(s.grid, s.stack, next).2 then |s.visits| + 1 else |s.visits|
  {
    s' := Step(s, shuffles);
    StepKeepsInv(s, shuffles);
    StepProgress(s, shuffles);
    StepIsAdvanced(s, shuffles);
    assert Inv(s');
  }

  lemma StartShaped()
    ensures Shaped(Start()) && Start().grid == map p | p in AllCells :: 0
  {
    assert forall p :: p in AllCells <==> InGrid(p);
  }

  lemma StartInv()
    ensures Inv(Start())
  {
    var s := Start();
    StartShaped();
    var top := Top(s);
    assert Neighbour(ROOT, top.order[0]) in s.grid;
    assert TopCanLink(s);
    forall i, d: DirIdx | 0 <= i < |s.visits| && Neighbour(s.visits[i], d) in s.grid
      ensures Neighbour(s.visits[i], d) in s.visits || WillTry(s.stack, s.visits[i], d)
    {
      FreshFrameTries([], s.stack[0], d);
    }
  }

  // ---------------------------------------------------------------------------
  // What an empty stack means

  ghost predicate Closed(vs: set<Pos>)
  {
    forall p, d: DirIdx :: p in vs && InGrid(Neighbour(p, d)) ==> Neighbour(p, d) in vs
  }

  lemma {:induction false} ReachRow(vs: set<Pos>, x: int)
    requires ROOT in vs && Closed(vs) && 0 <= x < TILES
    ensures (x, ROOT.1) in vs
    decreases if x < ROOT.0 then ROOT.0 - x else x - ROOT.0
  {
    if x < ROOT.0 {
      ReachRow(vs, x + 1);
      assert Neighbour((x + 1, ROOT.1), LEFT) == (x, ROOT.1);
    } else if x > ROOT.0 {
      ReachRow(vs, x - 1);
      assert Neighbour((x - 1, ROOT.1), RIGHT) == (x, ROOT.1);
    }
  }

  lemma {:induction false} ReachCell(vs: set<Pos>, x: int, y: int)
    requires ROOT in vs && Closed(vs) && InGrid((x, y))
    ensures (x, y) in vs
    decreases if y < ROOT.1 then ROOT.1 - y else y - ROOT.1
  {
    if y < ROOT.1 {
      ReachCell(vs, x, y + 1);
      assert Neighbour((x, y + 1), UP) == (x, y);
    } else if y > ROOT.1 {
      ReachCell(vs, x, y - 1);
      assert Neighbour((x, y - 1), DOWN) == (x, y);
    } else {
      ReachRow(vs, x);
    }
  }

  /** Once the stack is empty every cell has been visited and is open in some direction,
      and every edge is open from both ends. */
  lemma Finished(s: Carving)
    requires Inv(s) && s.stack == []
    ensures Carved(s.grid)
    ensures Visited(s) == AllCells
  {
    var vs := Visited(s);
    forall p, d: DirIdx | p in vs && InGrid(Neighbour(p, d)) ensures Neighbour(p, d) in vs {
      var i :| 0 <= i < |s.visits| && s.visits[i] == p;
    }
    assert ROOT in vs;
    forall c | c in AllCells ensures c in vs {
      ReachCell(vs, c.0, c.1);
    }
    forall p | p in s.grid ensures s.grid[p] != 0 {
      ReachCell(vs, p.0, p.1);
    }
    forall p, d: DirIdx | p in s.grid && Neighbour(p, d) in s.grid
      ensures Has(s.grid[p], d) <==> Has(s.grid[Neighbour(p, d)], Opposite(d))
    {
      StepBack(p, d);
    }
  }

  /** `ps` is a walk through open passages of `g`, taking direction `ds[k]` from `ps[k]`. */
  ghost predicate Walk(g: Grid, ps: seq<Pos>, ds: seq<DirIdx>)
  {
    && |ps| == |ds| + 1
    && forall k :: 0 <= k < |ds| ==> ps[k] in g && Has(g[ps[k]], ds[k]) && Neighbour(ps[k], ds[k]) == ps[k + 1]
  }

  /** Every cell can be reached from the root by a walk through open passages. */
  ghost predicate Connected(g: Grid)
  {
    forall c :: c in g ==> exists ps, ds :: Walk(g, ps, ds) && ps[0] == ROOT && ps[|ps| - 1] == c
  }

  /** A walk extends by one open passage from its last cell. */
  lemma WalkExtend(g: Grid, ps: seq<Pos>, ds: seq<DirIdx>, d: DirIdx)
    requires Walk(g, ps, ds) && ps[|ps| - 1] in g && Has(g[ps[|ps| - 1]], d)
    ensures Walk(g, ps + [Neighbour(ps[|ps| - 1], d)], ds + [d])
  {
    var ps', ds' := ps + [Neighbour(ps[|ps| - 1], d)], ds + [d];
    forall k | 0 <= k < |ds'| ensures ps'[k] in g && Has(g[ps'[k]], ds'[k]) && Neighbour(ps'[k], ds'[k]) == ps'[k + 1] {
      if k < |ds| {
        assert ps'[k] == ps[k] && ds'[k] == ds[k] && ps'[k + 1] == ps[k + 1];
      }
    }
  }

  /** Following parent links back gives a walk from the root to every visited cell. */
  lemma {:induction false} WalkTo(s: Carving, i: nat) returns (ps: seq<Pos>, ds: seq<DirIdx>)
    requires Shaped(s) && Linked(s) && i < |s.visits|
    ensures Walk(s.grid, ps, ds) && ps[0] == ROOT && ps[|ps| - 1] == s.visits[i]
    decreases i
  {
    if i == 0 {
      ps, ds := [ROOT], [];
    } else {
      assert Parent(s.grid, s.visits, i);
      var j, d: DirIdx :| 0 <= j < i && s.visits[j] in s.grid && Has(s.grid[s.visits[j]], d) &&
        Neighbour(s.visits[j], d) == s.visits[i];
      ps, ds := WalkTo(s, j);
      WalkExtend(s.grid, ps, ds, d);
      ps, ds := ps + [s.visits[i]], ds + [d];
    }
  }

  /** When every cell has been visited, every cell is reachable from the root. */
  lemma Spans(s: Carving)
    requires Shaped(s) && Linked(s) && Visited(s) == AllCells
    ensures Connected(s.grid)
  {
    forall c | c in s.grid ensures exists ps, ds :: Walk(s.grid, ps, ds) && ps[0] == ROOT && ps[|ps| - 1] == c {
      assert c in AllCells;
      var i :| 0 <= i < |s.visits| && s.visits[i] == c;
      var ps, ds := WalkTo(s, i);
    }
  }

  // ---------------------------------------------------------------------------
  // The carving loop over the routes array

  /** The routes array read as a grid value. */
  ghost function Snapshot(routes: array2<bv8>): (g: Grid)
    requires routes.Length0 == TILES && routes.Length1 == TILES
    reads routes
    ensures IsGrid(g)
  {
    map p | p in AllCells :: routes[p.1, p.0]
  }

  /** The routes array holds the grid `g`. */
  ghost predicate Mirrors(routes: array2<bv8>, g: Grid)
    reads routes
  {
    && routes.Length0 == TILES && routes.Length1 == TILES
    && forall p :: p in g && InGrid(p) ==> routes[p.1, p.0] == g[p]
  }

  /** A routes array mirroring a grid reads back as that grid. */
  lemma SnapshotIs(routes: array2<bv8>, g: Grid)
    requires IsGrid(g) && Mirrors(routes, g)
    ensures Snapshot(routes) == g
  {
    var r := Snapshot(routes);
    assert forall p :: p in AllCells <==> InGrid(p);
    assert r.Keys == g.Keys;
    forall p | p in g ensures r[p] == g[p] {
    }
  }

  /** A zeroed routes array mirrors the starting grid. */
  lemma StartMirrors(routes: array2<bv8>)
    requires routes.Length0 == TILES && routes.Length1 == TILES
    requires forall y, x :: 0 <= y < TILES && 0 <= x < TILES ==> routes[y, x] == 0
    ensures Mirrors(routes, Start().grid)
  {
  }

  /** An array mirroring a grid mirrors every grid that agrees with it on its own cells. */
  lemma MirrorsAgree(routes: array2<bv8>, g: Grid, h: Grid)
    requires Mirrors(routes, g)
    requires forall q :: q in h ==> q in g && h[q] == g[q]
    ensures Mirrors(routes, h)
  {
  }

  /** Opening direction `d` at cell `at` of the routes array keeps it a mirror of the grid
      with that bit or-ed in. */
  lemma MirrorsOr(routes: array2<bv8>, g: Grid, at: Pos, d: DirIdx, before: bv8)
    requires at in g && InGrid(at) && routes.Length0 == TILES && routes.Length1 == TILES
    requires before == g[at] && routes[at.1, at.0] == before | Bit(d)
    requires forall p :: p in g && InGrid(p) && p != at ==> routes[p.1, p.0] == g[p]
    ensures Mirrors(routes, g[at := before | Bit(d)])
  {
  }

  /** One iteration of the carving loop on plain values: the new grid, the new stack and
      whether a fresh frame (taking order `next`) was pushed. */
  ghost function Advanced(g: Grid, stack: seq<Frame>, next: Order): (Grid, seq<Frame>, bool)
    requires stack != [] && stack[|stack| - 1].cursor < 4 && stack[|stack| - 1].at in g
  {
    var top := stack[|stack| - 1];
    var d := top.order[top.cursor];
    var cand := Neighbour(top.at, d);
    var push := cand in g && g[cand] == 0;
    var link := cand in g && Answers(g[cand], d);
    (if link then g[top.at := g[top.at] | Bit(d)] else g,
     if push then Resumed(stack) + [Frame(cand, next, 0)] else Resumed(stack),
     push)
  }

  lemma StepIsAdvanced(s: Carving, shuffles: nat -> Order)
    requires Shaped(s) && s.stack != []
    ensures Top(s).cursor < 4 && Top(s).at in s.grid
    ensures forall q :: q in Step(s, shuffles).grid ==>
      q in Advanced(s.grid, s.stack, shuffles(|s.visits| - 1)).0 &&
      Step(s, shuffles).grid[q] == Advanced(s.grid, s.stack, shuffles(|s.visits| - 1)).0[q]
    ensures Step(s, shuffles).stack == Advanced(s.grid, s.stack, shuffles(|s.visits| - 1)).1
    ensures |Step(s, shuffles).visits| == if Advanced(s.grid, s.stack, shuffles(|s.visits| - 1)).2 then |s.visits| + 1 else |s.visits|
  {
    TopInGrid(s);
    StepStackIs(s, shuffles);
  }

  /** One iteration of the carving loop on the routes array and the stack
      (room.rs, lines 52-77). */
  method Advance(routes: array2<bv8>, stack: seq<Frame>, pushes: nat, next: Order, ghost g: Grid)
      returns (stack': seq<Frame>, pushes': nat)
    requires stack != [] && stack[|stack| - 1].cursor < 4 && stack[|stack| - 1].at in g
    requires IsGrid(g) && Mirrors(routes, g)
    modifies routes
    ensures stack' == Advanced(g, stack, next).1
    ensures pushes' == if Advanced(g, stack, next).2 then pushes + 1 else pushes
    ensures Mirrors(routes, Advanced(g, stack, next).0)
  {
    var top := stack[|stack| - 1];
    stack' := stack[..|stack| - 1];
    if top.cursor < 3 {
      stack' := stack' + [Frame(top.at, top.order, top.cursor + 1)];
    }
    assert stack' == Resumed(stack);
    pushes' := pushes;
    var d := top.order[top.cursor];
    var cand := Neighbour(top.at, d);
    if Within(cand, BOUND) {
      var value := routes[cand.1, cand.0];
      var free := value == 0;
      if free {
        stack' := stack' + [Frame(cand, next, 0)];
        pushes' := pushes + 1;
      }
      if free || Has(value, Opposite(d)) {
        ghost var before := routes[top.at.1, top.at.0];
        routes[top.at.1, top.at.0] := routes[top.at.1, top.at.0] | Bit(d);
        MirrorsOr(routes, g, top.at, d, before);
      }
    }
  }

  /** One round of the carving loop, with its ghost state: the invariant is kept, the
      routes array keeps mirroring the grid and the termination measure decreases. */
  method Round(routes: array2<bv8>, stack: seq<Frame>, pushes: nat, ghost s: Carving, shuffles: nat -> Order)
      returns (stack': seq<Frame>, pushes': nat, ghost s': Carving)
    requires s in Sound && s.stack == stack && stack != [] && |s.visits| == pushes + 1
    requires Mirrors(routes, s.grid)
    modifies routes
    ensures s' in Sound && s' == Step(s, shuffles)
    ensures s'.stack == stack' && |s'.visits| == pushes' + 1 && Mirrors(routes, s'.grid)
    ensures Unvisited(s') < Unvisited(s) || (Unvisited(s') == Unvisited(s) && Work(s'.stack) < Work(s.stack))
  {
    var next := shuffles(pushes);
    s' := StepOk(s, shuffles, next);
    stack', pushes' := Advance(routes, stack, pushes, next, s.grid);
    MirrorsAgree(routes, Advanced(s.grid, stack, next).0, s'.grid);
  }

  /** What the loop's exit state gives the carving's caller. */
  lemma Exit(routes: array2<bv8>, s: Carving)
    requires s in Sound && s.stack == [] && Mirrors(routes, s.grid)
    ensures Carved(Snapshot(routes)) && Connected(Snapshot(routes))
    ensures s.visits != [] && s.visits[0] == ROOT && (set p | p in s.visits) == AllCells
    ensures forall i, j :: 0 <= i < j < |s.visits| ==> s.visits[i] != s.visits[j]
  {
    Finished(s);
    Spans(s);
    SnapshotIs(routes, s.grid);
  }

  /** Carves the routes grid. The i-th frame pushed after the root's takes the order
      `shuffles(i)`; `visits` lists the cells that got a frame, in push order. */
  method CarveRoutes(shuffles: nat -> Order) returns (routes: array2<bv8>, ghost visits: seq<Pos>)
    ensures fresh(routes) && routes.Length0 == TILES && routes.Length1 == TILES
    ensures Carved(Snapshot(routes)) && Connected(Snapshot(routes))
    ensures visits != [] && visits[0] == ROOT && (set p | p in visits) == AllCells
    ensures forall i, j :: 0 <= i < j < |visits| ==> visits[i] != visits[j]
  {
    routes := new bv8[TILES, TILES]((y, x) => 0);
    var stack := [Frame(ROOT, COMPASS_IDX, 0)];
    var pushes: nat := 0;
    ghost var s := Start();
    StartInv();
    assert Start() in Sound;
    StartMirrors(routes);
    while stack != []
      invariant s in Sound && s.stack == stack && |s.visits| == pushes + 1
      invariant Mirrors(routes, s.grid)
      decreases Unvisited(s), Work(s.stack)
    {
      stack, pushes, s := Round(routes, stack, pushes, s, shuffles);
    }
    Exit(routes, s);
    visits := s.visits;
  }
}
