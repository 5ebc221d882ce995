/**
 * One step of the snake animation: age the trail, stamp the head, then
 * either take a new target (on a hit), step the head one voxel, or, when
 * boxed in, restart from a blank cube; finally mark the target.
 *
 * The firmware draws its randomness from `rand()`; here the raw values it
 * would return are an explicit sequence `draws` of `Roll`s, one per random
 * position (three calls: x, then y, then z), each value reduced `% 5` as in
 * the source.
 */
module Snake {

  import opened Bits
  import opened Voxels
  import opened Options

  /** The animation state: the age buffer, the head `cur`, the target `tgt` and the trail length `len`. */
  datatype State = State(field: Field, cur: Pos, tgt: Pos, len: U8)

  /** `len++` on a `uint8_t`: one more, except that 255 wraps around to 0. */
  function Inc(n: U8): (m: U8)
    ensures m == (n + 1) % 256
  {
    if n == 255 then 0 else n + 1
  }

  /** Head and target address the buffer. */
  predicate Valid(s: State) {
    InGrid(s.cur) && InGrid(s.tgt)
  }

  /** The state `main` enters its loop with: a dark cube, head and target both at the origin, `len` 0. */
  function Start(): (s: State)
    ensures Valid(s) && s.cur == Pos(0, 0, 0) && s.tgt == s.cur && s.len == 0
    ensures forall p | InGrid(p) :: At(s.field, p) == 0
  {
    State(Blank(), Pos(0, 0, 0), Pos(0, 0, 0), 0)
  }

  // ---------------------------------------------------------------------
  // Directions

  /** The six axis moves of the head. */
  datatype Dir = XUp | XDown | YUp | YDown | ZUp | ZDown

  /** The order in which the firmware tries the moves: +x, -x, +y, -y, +z, -z. */
  const Priority: seq<Dir> := [XUp, XDown, YUp, YDown, ZUp, ZDown]

  /** The voxel one step from `p` in direction `d` (possibly outside the cube). */
  function Neighbour(p: Pos, d: Dir): Pos {
    match d
    case XUp => p.(x := p.x + 1)
    case XDown => p.(x := p.x - 1)
    case YUp => p.(y := p.y + 1)
    case YDown => p.(y := p.y - 1)
    case ZUp => p.(z := p.z + 1)
    case ZDown => p.(z := p.z - 1)
  }

  /** The bounds guard of a fallback move: `cur.x < 4`, `cur.x > 0`, and so on. */
  predicate Inside(p: Pos, d: Dir) {
    match d
    case XUp => p.x < Side - 1
    case XDown => p.x > 0
    case YUp => p.y < Side - 1
    case YDown => p.y > 0
    case ZUp => p.z < Side - 1
    case ZDown => p.z > 0
  }

  /** The target guard of a greedy move: `tgt.x > cur.x`, `tgt.x < cur.x`, and so on. */
  predicate Toward(p: Pos, t: Pos, d: Dir) {
    match d
    case XUp => t.x > p.x
    case XDown => t.x < p.x
    case YUp => t.y > p.y
    case YDown => t.y < p.y
    case ZUp => t.z > p.z
    case ZDown => t.z < p.z
  }

  /** A step inside the cube lands inside the cube; a step toward an in-cube target is such a step. */
  lemma StepsStayInGrid(p: Pos, t: Pos, d: Dir)
    requires InGrid(p) && InGrid(t)
    ensures Toward(p, t, d) ==> Inside(p, d)
    ensures Inside(p, d) <==> InGrid(Neighbour(p, d))
  {
  }

  function Abs(n: int): nat {
    if n < 0 then -n else n
  }

  /** Manhattan distance between two voxels. */
  function Dist(p: Pos, q: Pos): nat {
    Abs(p.x - q.x) + Abs(p.y - q.y) + Abs(p.z - q.z)
  }

  // ---------------------------------------------------------------------
  // Random positions

  /** The raw results of the three `rand()` calls that make one random position, in call order. */
  datatype Roll = Roll(x: nat, y: nat, z: nat)

  /** The `j`-th random position: each coordinate is its raw value reduced `% 5`. */
  function Attempt(draws: seq<Roll>, j: nat): (p: Pos)
    requires j < |draws|
    ensures InGrid(p)
  {
    Pos(draws[j].x % Side, draws[j].y % Side, draws[j].z % Side)
  }

  /**
   * The rejection sampling of a new target, from try `j` on: the index of
   * the first try that lands on an unlit voxel, or `None` when the rolls
   * run out first.  The firmware loops until it succeeds; nothing bounds
   * how many tries that takes, so a finite `draws` may not suffice.
   */
  function PickFrom(f: Field, draws: seq<Roll>, j: nat): (r: Option<nat>)
    decreases |draws| - j
    ensures r.Some? ==> (j <= r.value < |draws|
                         && At(f, Attempt(draws, r.value)) == 0
                         && forall k | j <= k < r.value :: At(f, Attempt(draws, k)) != 0)
    ensures r.None? ==> forall k | j <= k < |draws| :: At(f, Attempt(draws, k)) != 0
  {
    if |draws| <= j then None
    else if At(f, Attempt(draws, j)) == 0 then Some(j)
    else PickFrom(f, draws, j + 1)
  }

  // ---------------------------------------------------------------------
  // Moving the head

  /** The head can step in direction `d`: the step passes the bounds guard and lands on an unlit voxel. */
  predicate Open(f: Field, c: Pos, d: Dir)
    requires InGrid(c)
  {
    Inside(c, d) && At(f, Neighbour(c, d)) == 0
  }

  /**
   * The firmware's movement chain, as the direction it applies to `cur`:
   * the first greedy move (toward the target, onto an unlit voxel) in the
   * order +x, -x, +y, -y, +z, -z; failing that the first move onto any
   * unlit in-cube neighbour in the same order; failing that `None` (stuck).
   */
  function Advance(f: Field, c: Pos, t: Pos): (r: Option<Dir>)
    requires InGrid(c) && InGrid(t)
    ensures r.Some? ==> Open(f, c, r.value)
  {
    if Toward(c, t, XUp) && Open(f, c, XUp) then Some(XUp)
    else if Toward(c, t, XDown) && Open(f, c, XDown) then Some(XDown)
    else if Toward(c, t, YUp) && Open(f, c, YUp) then Some(YUp)
    else if Toward(c, t, YDown) && Open(f, c, YDown) then Some(YDown)
    else if Toward(c, t, ZUp) && Open(f, c, ZUp) then Some(ZUp)
    else if Toward(c, t, ZDown) && Open(f, c, ZDown) then Some(ZDown)
    else if Open(f, c, XUp) then Some(XUp)
    else if Open(f, c, XDown) then Some(XDown)
    else if Open(f, c, YUp) then Some(YUp)
    else if Open(f, c, YDown) then Some(YDown)
    else if Open(f, c, ZUp) then Some(ZUp)
    else if Open(f, c, ZDown) then Some(ZDown)
    else None
  }

  /** Whether the head may move in direction `d`: it is open, and toward the target when `greedy`. */
  predicate Allowed(f: Field, c: Pos, t: Pos, d: Dir, greedy: bool)
    requires InGrid(c)
  {
    (greedy ==> Toward(c, t, d)) && Open(f, c, d)
  }

  /** The first index from `j` on at which `Priority` holds an allowed move, or 6 when there is none. */
  function FirstAllowed(f: Field, c: Pos, t: Pos, greedy: bool, j: nat): (k: nat)
    requires InGrid(c) && j <= |Priority|
    decreases |Priority| - j
    ensures j <= k <= |Priority|
    ensures k < |Priority| ==> Allowed(f, c, t, Priority[k], greedy)
    ensures forall i | j <= i < k :: !Allowed(f, c, t, Priority[i], greedy)
  {
    if j == |Priority| then j
    else if Allowed(f, c, t, Priority[j], greedy) then j
    else FirstAllowed(f, c, t, greedy, j + 1)
  }

  /** The head is boxed in: every in-cube neighbour is lit. */
  predicate Stuck(f: Field, c: Pos)
    requires InGrid(c)
  {
    forall d: Dir :: !Open(f, c, d)
  }

  /**
   * The movement chain takes the first allowed greedy move in priority
   * order, else the first allowed move of any kind, and is stuck exactly
   * when every in-cube neighbour is lit.
   */
  lemma AdvanceByPriority(f: Field, c: Pos, t: Pos)
    requires InGrid(c) && InGrid(t)
    ensures var g := FirstAllowed(f, c, t, true, 0);
            var a := FirstAllowed(f, c, t, false, 0);
            Advance(f, c, t) ==
              if g < |Priority| then Some(Priority[g])
              else if a < |Priority| then Some(Priority[a])
              else None
    ensures Advance(f, c, t).None? <==> Stuck(f, c)
  {
    var g := FirstAllowed(f, c, t, true, 0);
    var a := FirstAllowed(f, c, t, false, 0);
    assert Priority == [XUp, XDown, YUp, YDown, ZUp, ZDown];
    if Stuck(f, c) {
      assert a == |Priority|;
    }
    if a == |Priority| {
      forall d: Dir
        ensures !Open(f, c, d)
      {
        match d
        case XUp => assert !Allowed(f, c, t, Priority[0], false);
        case XDown => assert !Allowed(f, c, t, Priority[1], false);
        case YUp => assert !Allowed(f, c, t, Priority[2], false);
        case YDown => assert !Allowed(f, c, t, Priority[3], false);
        case ZUp => assert !Allowed(f, c, t, Priority[4], false);
        case ZDown => assert !Allowed(f, c, t, Priority[5], false);
      }
    }
  }

  /** An open step is a single unit step along one axis that stays in the cube. */
  lemma OpenStep(f: Field, c: Pos, d: Dir)
    requires InGrid(c) && Open(f, c, d)
    ensures InGrid(Neighbour(c, d)) && Dist(c, Neighbour(c, d)) == 1
  {
  }

  /** A step toward the target brings the head one closer; any other step takes it one further away. */
  lemma StepDistance(c: Pos, t: Pos, d: Dir)
    ensures Toward(c, t, d) ==> Dist(Neighbour(c, d), t) == Dist(c, t) - 1
    ensures !Toward(c, t, d) ==> Dist(Neighbour(c, d), t) == Dist(c, t) + 1
  {
  }

  // ---------------------------------------------------------------------
  // The step

  /** A tick's result: the next state and how many `Roll`s it consumed. */
  datatype Step = Step(next: State, used: nat)

  /** The buffer after ageing every voxel and stamping the head with `len`. */
  function Placed(s: State): (g: Field)
    requires Valid(s)
    ensures At(g, s.cur) == s.len
    ensures forall p | InGrid(p) && p != s.cur :: At(g, p) == Dec(At(s.field, p))
  {
    Put(Decay(s.field), s.cur, s.len)
  }

  /** The hit branch: `len++`, then rejection-sample a target unlit in `f`, then light it. */
  function Retarget(s: State, f: Field, draws: seq<Roll>): (r: Option<Step>)
    requires Valid(s)
    ensures r.None? <==> forall k | 0 <= k < |draws| :: At(f, Attempt(draws, k)) != 0
    ensures r.Some? ==>
              var n := r.value.next;
              && 1 <= r.value.used <= |draws| && n.tgt == Attempt(draws, r.value.used - 1)
              && At(f, n.tgt) == 0
              && (forall k | 0 <= k < r.value.used - 1 :: At(f, Attempt(draws, k)) != 0)
              && n.cur == s.cur && n.len == Inc(s.len)
              && At(n.field, n.tgt) == 1
              && forall p | InGrid(p) && p != n.tgt :: At(n.field, p) == At(f, p)
  {
    match PickFrom(f, draws, 0)
    case None => None
    case Some(k) =>
      var t := Attempt(draws, k);
      Some(Step(State(Put(f, t, 1), s.cur, t, Inc(s.len)), k + 1))
  }

  /** The move branch: step the head in direction `d`, then light the target. */
  function Moved(s: State, f: Field, d: Dir): (n: State)
    requires Valid(s) && Inside(s.cur, d)
    ensures Valid(n) && Dist(s.cur, n.cur) == 1 && n.tgt == s.tgt && n.len == s.len
    ensures At(n.field, s.tgt) == 1
    ensures forall p | InGrid(p) && p != s.tgt :: At(n.field, p) == At(f, p)
  {
    State(Put(f, s.tgt, 1), Neighbour(s.cur, d), s.tgt, s.len)
  }

  /** The stuck branch: a random head, `len = 1`, a cleared cube, then the target lit. */
  function Restart(s: State, draws: seq<Roll>): (r: Option<Step>)
    requires Valid(s)
    ensures r.None? <==> |draws| == 0
    ensures r.Some? ==>
              var n := r.value.next;
              && r.value.used == 1 && Valid(n) && n.cur == Attempt(draws, 0) && n.len == 1 && n.tgt == s.tgt
              && forall p | InGrid(p) :: At(n.field, p) == (if p == s.tgt then 1 else 0)
  {
    if |draws| == 0 then None
    else Some(Step(State(Put(Blank(), s.tgt, 1), Attempt(draws, 0), s.tgt, 1), 1))
  }

  /**
   * One pass of the animation loop, up to rendering.  The result is `None`
   * only when `draws` runs out before the firmware's `rand()` calls would be
   * satisfied.  A tick keeps head and target in the cube, and always leaves
   * the target voxel at age 1.
   */
  function Tick(s: State, draws: seq<Roll>): (r: Option<Step>)
    requires Valid(s)
    ensures r.Some? ==> Valid(r.value.next) && r.value.used <= |draws|
    ensures r.Some? ==> At(r.value.next.field, r.value.next.tgt) == 1
  {
    var f := Placed(s);
    if s.tgt == s.cur then Retarget(s, f, draws)
    else
      match Advance(f, s.cur, s.tgt)
      case Some(d) => Some(Step(Moved(s, f, d), 0))
      case None => Restart(s, draws)
  }

  // ---------------------------------------------------------------------
  // What a tick does, branch by branch

  /**
   * A hit: the trail grows by one (wrapping at 256 like a `uint8_t`), the
   * head stays, and the new target is the first random try that lands on a
   * voxel left unlit by ageing and head placement (it is made of the last
   * `Roll` consumed, every earlier try having been lit); it is then lit
   * at age 1.  When `len` was at least 1 the head voxel is lit, so the new
   * target lies elsewhere.  The tick fails only when every try is lit.
   */
  lemma TickHit(s: State, draws: seq<Roll>)
    requires Valid(s) && s.cur == s.tgt
    ensures Tick(s, draws).None? <==>
              forall k | 0 <= k < |draws| :: At(Placed(s), Attempt(draws, k)) != 0
    ensures Tick(s, draws).Some? ==>
              var st := Tick(s, draws).value;
              var n := st.next;
              && n.len == (s.len + 1) % 256
              && (s.len < 255 ==> n.len == s.len + 1)
              && n.cur == s.cur
              && 1 <= st.used <= |draws|
              && n.tgt == Attempt(draws, st.used - 1)
              && At(Placed(s), n.tgt) == 0
              && (forall k | 0 <= k < st.used - 1 :: At(Placed(s), Attempt(draws, k)) != 0)
              && (s.len >= 1 ==> n.tgt != s.cur)
              && n.field == Put(Placed(s), n.tgt, 1)
  {
    var f := Placed(s);
    assert Tick(s, draws) == Retarget(s, f, draws);
    var r := PickFrom(f, draws, 0);
    if r.Some? {
      var k := r.value;
      assert Tick(s, draws).value.used == k + 1;
      if s.len >= 1 {
        assert At(f, s.cur) == s.len;
      }
    }
  }

  /**
   * A move (no hit, not boxed in): no rolls are used, target and `len` stay,
   * the head takes one unit step onto an unlit voxel in the direction chosen
   * by priority (first greedy move, else first free move), the old head
   * keeps its fresh age `len`, and the target is lit at age 1.
   */
  lemma TickMove(s: State, draws: seq<Roll>)
    requires Valid(s) && s.cur != s.tgt && !Stuck(Placed(s), s.cur)
    ensures Tick(s, draws).Some?
    ensures var st := Tick(s, draws).value;
            var n := st.next;
            var g := FirstAllowed(Placed(s), s.cur, s.tgt, true, 0);
            var a := FirstAllowed(Placed(s), s.cur, s.tgt, false, 0);
            && st.used == 0 && n.tgt == s.tgt && n.len == s.len
            && a < |Priority|
            && n.cur == Neighbour(s.cur, if g < |Priority| then Priority[g] else Priority[a])
            && Dist(s.cur, n.cur) == 1 && At(Placed(s), n.cur) == 0
            && n.field == Put(Placed(s), s.tgt, 1)
            && At(n.field, s.cur) == s.len
  {
    var f := Placed(s);
    AdvanceByPriority(f, s.cur, s.tgt);
    var d := Advance(f, s.cur, s.tgt).value;
    assert Tick(s, draws) == Some(Step(Moved(s, f, d), 0));
    OpenStep(f, s.cur, d);
    var g := FirstAllowed(f, s.cur, s.tgt, true, 0);
    if g < |Priority| {
      var a := FirstAllowed(f, s.cur, s.tgt, false, 0);
      assert Allowed(f, s.cur, s.tgt, Priority[g], false);
      assert a <= g;
    }
  }

  /** When a greedy move is open, the head gets one step closer to the target. */
  lemma GreedyMoveApproaches(s: State, draws: seq<Roll>)
    requires Valid(s) && s.cur != s.tgt
    requires FirstAllowed(Placed(s), s.cur, s.tgt, true, 0) < |Priority|
    ensures Tick(s, draws).Some?
    ensures Dist(Tick(s, draws).value.next.cur, s.tgt) == Dist(s.cur, s.tgt) - 1
  {
    var f := Placed(s);
    var g := FirstAllowed(f, s.cur, s.tgt, true, 0);
    assert Allowed(f, s.cur, s.tgt, Priority[g], true);
    TickMove(s, draws);
    StepDistance(s.cur, s.tgt, Priority[g]);
  }

  /**
   * When no greedy move is open but the head is not boxed in, the fallback
   * move leads one step away from the target: every direction toward it is
   * closed, so the first open one points away.
   */
  lemma FallbackMoveRecedes(s: State, draws: seq<Roll>)
    requires Valid(s) && s.cur != s.tgt && !Stuck(Placed(s), s.cur)
    requires FirstAllowed(Placed(s), s.cur, s.tgt, true, 0) == |Priority|
    ensures Tick(s, draws).Some?
    ensures Dist(Tick(s, draws).value.next.cur, s.tgt) == Dist(s.cur, s.tgt) + 1
  {
    TickMove(s, draws);
    var f := Placed(s);
    var a := FirstAllowed(f, s.cur, s.tgt, false, 0);
    var d := Priority[a];
    assert Allowed(f, s.cur, s.tgt, d, false);
    assert !Allowed(f, s.cur, s.tgt, Priority[a], true);
    StepDistance(s.cur, s.tgt, d);
  }

  /**
   * Boxed in: the head jumps to the first random position, `len` restarts at
   * 1, and the cube is dark except for the target at age 1.  The tick
   * fails only when no `Roll` remains.
   */
  lemma TickStuck(s: State, draws: seq<Roll>)
    requires Valid(s) && s.cur != s.tgt && Stuck(Placed(s), s.cur)
    ensures Tick(s, draws).None? <==> |draws| == 0
    ensures Tick(s, draws).Some? ==>
              var st := Tick(s, draws).value;
              var n := st.next;
              && st.used == 1 && n.cur == Attempt(draws, 0) && n.len == 1 && n.tgt == s.tgt
              && forall p | InGrid(p) :: At(n.field, p) == (if p == s.tgt then 1 else 0)
  {
    AdvanceByPriority(Placed(s), s.cur, s.tgt);
    assert Tick(s, draws) == Restart(s, draws);
  }

  /**
   * Apart from the old head and the new target, no voxel gets brighter in a
   * tick, and outside a reset each of them ages by exactly one step.
   */
  lemma TickAgesTheRest(s: State, draws: seq<Roll>, p: Pos)
    requires Valid(s) && InGrid(p) && Tick(s, draws).Some?
    requires p != s.cur && p != Tick(s, draws).value.next.tgt
    ensures At(Tick(s, draws).value.next.field, p) <= At(s.field, p)
    ensures s.cur == s.tgt || !Stuck(Placed(s), s.cur) ==>
              At(Tick(s, draws).value.next.field, p) == Dec(At(s.field, p))
  {
    if s.cur == s.tgt {
      TickHit(s, draws);
    } else if Stuck(Placed(s), s.cur) {
      TickStuck(s, draws);
    } else {
      TickMove(s, draws);
    }
  }

  /**
   * The first tick from `Start` (or from any dark cube with head on target
   * and `len` 0) is a hit: nothing is lit after head placement, so the
   * first random try becomes the target (possibly the head voxel itself)
   * and `len` becomes 1.
   */
  lemma FirstTick(s: State, draws: seq<Roll>)
    requires Valid(s) && s.cur == s.tgt && s.len == 0
    requires forall p | InGrid(p) :: At(s.field, p) == 0
    ensures Tick(s, draws).None? <==> |draws| == 0
    ensures Tick(s, draws).Some? ==>
              var st := Tick(s, draws).value;
              && st.used == 1 && st.next.cur == s.cur && st.next.len == 1
              && st.next.tgt == Attempt(draws, 0)
  {
    var f := Placed(s);
    assert Tick(s, draws) == Retarget(s, f, draws);
    if |draws| > 0 {
      assert At(f, Attempt(draws, 0)) == 0;
      assert PickFrom(f, draws, 0) == Some(0);
    }
  }

  /**
   * Head at the origin, target at (3, 0, 0), and (1, 0, 0) at most at age 1
   * (so unlit once aged): the greedy +x move wins.  The head steps to
   * (1, 0, 0) without using any roll, the origin keeps the age `len`, the
   * target is lit at age 1 and the new head voxel is not lit until the next
   * tick stamps it.
   */
  lemma StraightRun(s: State, draws: seq<Roll>)
    requires s.cur == Pos(0, 0, 0) && s.tgt == Pos(3, 0, 0)
    requires At(s.field, Pos(1, 0, 0)) <= 1
    ensures var r := Tick(s, draws);
            && r.Some? && r.value.used == 0
            && r.value.next.cur == Pos(1, 0, 0) && r.value.next.tgt == s.tgt && r.value.next.len == s.len
            && At(r.value.next.field, Pos(0, 0, 0)) == s.len
            && At(r.value.next.field, Pos(3, 0, 0)) == 1
            && At(r.value.next.field, Pos(1, 0, 0)) == 0
  {
    var f := Placed(s);
    assert At(f, Pos(1, 0, 0)) == 0;
    assert Open(f, s.cur, XUp);
    assert Advance(f, s.cur, s.tgt) == Some(XUp);
    assert Tick(s, draws) == Some(Step(Moved(s, f, XUp), 0));
  }

  // ---------------------------------------------------------------------
  // Many ticks

  /**
   * `n` passes of the animation loop, each taking its rolls where the
   * previous one stopped; `None` when the rolls run out.  Head and target
   * stay in the cube throughout, and after at least one tick the target is
   * lit at age 1.
   */
  function Run(s: State, draws: seq<Roll>, n: nat): (r: Option<State>)
    requires Valid(s)
    decreases n
    ensures r.Some? ==> Valid(r.value)
    ensures r.Some? && n > 0 ==> At(r.value.field, r.value.tgt) == 1
  {
    if n == 0 then Some(s)
    else match Tick(s, draws)
      case None => None
      case Some(st) => Run(st.next, draws[st.used..], n - 1)
  }
}
