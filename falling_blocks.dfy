/**
 * The falling-blocks dodging game: one animation-frame tick of the
 * simulation, the three-phase state machine around it and the guard that
 * decides whether the final score is submitted.
 *
 * The pure functions (MovePlayer, Spawn, Sweep, Ramp, Tick) specify one tick;
 * the class Game holds the mutable state and its method Step performs the
 * tick in place and is proved equal to Tick.
 */
module FallingBlocks {
  import opened Wrappers

  // Play-field geometry (pixels).
  const W: real := 400.0
  const H: real := 600.0
  const PLAYER_W: real := 40.0
  const PLAYER_H: real := 20.0
  const PLAYER_SPEED: real := 6.0
  const BLOCK_W: real := 40.0
  const BLOCK_H: real := 20.0

  // Difficulty settings.
  const INITIAL_SPAWN_INTERVAL: int := 700
  const BLOCK_SPEED_INCREASE: real := 0.5
  const SPAWN_RATE_DECREASE: int := 100
  const MIN_SPAWN_INTERVAL: int := 300

  /** The player's fixed vertical position, H - PLAYER_H - 10. */
  const PLAYER_Y: real := H - PLAYER_H - 10.0
  /** The player's starting horizontal position, W / 2 - PLAYER_W / 2. */
  const START_X: real := W / 2.0 - PLAYER_W / 2.0
  /** The right-most position the player may occupy. */
  const MAX_X: real := W - PLAYER_W

  /** The game's name as reported to the score service. */
  const GAME_NAME: string := "FallingBlocks"

  /** Ready is the start overlay, GameOver the end overlay. */
  datatype Phase = Ready | Running | GameOver

  datatype Block = Block(x: real, y: real, speed: real)

  datatype Rect = Rect(x: real, y: real, w: real, h: real)

  function Max(a: int, b: int): int { if a >= b then a else b }

  // ---------------------------------------------------------------------
  // Player movement
  // ---------------------------------------------------------------------

  /** The horizontal step the held arrow keys ask for. */
  function KeyStep(left: bool, right: bool): real
  {
    (if left then -PLAYER_SPEED else 0.0) + (if right then PLAYER_SPEED else 0.0)
  }

  /** Move the player by the held keys, then clamp into the field. */
  function MovePlayer(x: real, left: bool, right: bool): (r: real)
    ensures 0.0 <= r <= MAX_X
    ensures 0.0 <= x + KeyStep(left, right) <= MAX_X ==> r == x + KeyStep(left, right)
    ensures x + KeyStep(left, right) < 0.0 ==> r == 0.0
    ensures x + KeyStep(left, right) > MAX_X ==> r == MAX_X
    ensures left == right && 0.0 <= x <= MAX_X ==> r == x
  {
    var x1 := if left then x - PLAYER_SPEED else x;
    var x2 := if right then x1 + PLAYER_SPEED else x1;
    var x3 := if x2 < 0.0 then 0.0 else x2;
    if x3 > MAX_X then MAX_X else x3
  }

  // ---------------------------------------------------------------------
  // Collision
  // ---------------------------------------------------------------------

  /** Strict axis-aligned overlap of two rectangles on both axes. */
  predicate Overlaps(a: Rect, b: Rect)
  {
    a.x < b.x + b.w && a.x + a.w > b.x && a.y < b.y + b.h && a.y + a.h > b.y
  }

  /** The point p lies strictly inside r. */
  predicate Inside(px: real, py: real, r: Rect)
  {
    r.x < px < r.x + r.w && r.y < py < r.y + r.h
  }

  function BlockRect(b: Block): Rect { Rect(b.x, b.y, BLOCK_W, BLOCK_H) }

  function PlayerRect(x: real): Rect { Rect(x, PLAYER_Y, PLAYER_W, PLAYER_H) }

  /** The hit test of one block against the player at horizontal position px. */
  predicate Hits(b: Block, px: real)
  {
    Overlaps(BlockRect(b), PlayerRect(px))
  }

  function RMin(a: real, b: real): real { if a <= b then a else b }
  function RMax(a: real, b: real): real { if a >= b then a else b }

  /**
   * For rectangles of positive size, the strict overlap test holds exactly
   * when some point lies in the interior of both; hence it is symmetric.
   */
  lemma OverlapsIffCommonPoint(a: Rect, b: Rect)
    requires a.w > 0.0 && a.h > 0.0 && b.w > 0.0 && b.h > 0.0
    ensures Overlaps(a, b) <==> exists px, py :: Inside(px, py, a) && Inside(px, py, b)
    ensures Overlaps(a, b) == Overlaps(b, a)
  {
    if Overlaps(a, b) {
      var px := (RMax(a.x, b.x) + RMin(a.x + a.w, b.x + b.w)) / 2.0;
      var py := (RMax(a.y, b.y) + RMin(a.y + a.h, b.y + b.h)) / 2.0;
      assert Inside(px, py, a) && Inside(px, py, b);
    }
  }

  /** The block hit test is the symmetric interior-overlap relation. */
  lemma HitsIffCommonPoint(b: Block, px: real)
    ensures Hits(b, px) <==> exists qx, qy :: Inside(qx, qy, BlockRect(b)) && Inside(qx, qy, PlayerRect(px))
    ensures Hits(b, px) == Overlaps(PlayerRect(px), BlockRect(b))
  {
    OverlapsIffCommonPoint(BlockRect(b), PlayerRect(px));
  }

  // ---------------------------------------------------------------------
  // Spawning
  // ---------------------------------------------------------------------

  datatype Spawned = Spawned(blocks: seq<Block>, timer: real)

  /**
   * Given the spawn timer with this tick's dt already added: when it exceeds
   * the interval, reset it and append one block at x = rnd * (W - BLOCK_W),
   * just above the field, falling at the current block speed.
   * rnd stands for Math.random(), a value in [0, 1).
   */
  function Spawn(blocks: seq<Block>, timer: real, interval: int, speed: real, rnd: real): (r: Spawned)
    requires 0.0 <= rnd < 1.0
    ensures |r.blocks| >= |blocks| && r.blocks[..|blocks|] == blocks
    ensures timer > interval as real ==>
      && r.timer == 0.0
      && |r.blocks| == |blocks| + 1
      && r.blocks[|blocks|].y == -BLOCK_H
      && 0.0 <= r.blocks[|blocks|].x < W - BLOCK_W
      && r.blocks[|blocks|].speed == speed
    ensures timer <= interval as real ==> r.timer == timer && r.blocks == blocks
  {
    if timer > interval as real then
      Spawned(blocks + [Block(rnd * (W - BLOCK_W), -BLOCK_H, speed)], 0.0)
    else
      Spawned(blocks, timer)
  }

  // ---------------------------------------------------------------------
  // Moving, hit-testing and removing blocks
  // ---------------------------------------------------------------------

  /** A block after it has fallen by its own speed. */
  function Fall(b: Block): Block { b.(y := b.y + b.speed) }

  /** Survivors, removed blocks (as moved) and whether any moved block hit the player. */
  datatype Swept = Swept(kept: seq<Block>, gone: seq<Block>, hit: bool)

  /**
   * One pass of the `forEach` over the blocks that moves each block, tests
   * it against the player, and splices it out when it has passed the bottom
   * edge. Splicing inside `forEach` shifts the array, so the block right
   * after a removed one is neither moved nor tested in that pass.
   */
  function Sweep(bs: seq<Block>, px: real): Swept
    decreases |bs|
  {
    if bs == [] then Swept([], [], false)
    else
      var b := Fall(bs[0]);
      if b.y > H then
        if |bs| == 1 then Swept([], [b], Hits(b, px))
        else
          var rest := Sweep(bs[2..], px);
          Swept([bs[1]] + rest.kept, [b] + rest.gone, Hits(b, px) || rest.hit)
      else
        var rest := Sweep(bs[1..], px);
        Swept([b] + rest.kept, rest.gone, Hits(b, px) || rest.hit)
  }

  /** Every block is either kept or removed: none is lost or duplicated. */
  lemma {:induction false} SweepConserves(bs: seq<Block>, px: real)
    ensures |Sweep(bs, px).kept| + |Sweep(bs, px).gone| == |bs|
    decreases |bs|
  {
    if |bs| >= 2 && Fall(bs[0]).y > H {
      SweepConserves(bs[2..], px);
    } else if bs != [] && Fall(bs[0]).y <= H {
      SweepConserves(bs[1..], px);
    }
  }

  /** What the pass never changes about a block: its x and its speed. */
  datatype Lane = Lane(x: real, speed: real)

  function LaneOf(b: Block): Lane { Lane(b.x, b.speed) }

  /** The (x, speed) pairs of bs, counted with multiplicity. */
  function LaneBag(bs: seq<Block>): multiset<Lane>
    decreases |bs|
  {
    if bs == [] then multiset{} else multiset{LaneOf(bs[0])} + LaneBag(bs[1..])
  }

  lemma LaneBagCons(b: Block, bs: seq<Block>)
    ensures LaneBag([b] + bs) == multiset{LaneOf(b)} + LaneBag(bs)
  {
    assert ([b] + bs)[1..] == bs;
  }

  /**
   * The pass is one-to-one on blocks and only changes y: the kept and the
   * removed blocks together carry exactly the (x, speed) pairs of the blocks
   * the pass started with, each as often as it occurred.
   */
  lemma {:induction false} SweepPermutesLanes(bs: seq<Block>, px: real)
    ensures LaneBag(Sweep(bs, px).kept) + LaneBag(Sweep(bs, px).gone) == LaneBag(bs)
    decreases |bs|
  {
    if bs != [] {
      var b := Fall(bs[0]);
      assert LaneOf(b) == LaneOf(bs[0]);
      if b.y <= H {
        var rest := Sweep(bs[1..], px);
        SweepPermutesLanes(bs[1..], px);
        assert Sweep(bs, px).kept == [b] + rest.kept && Sweep(bs, px).gone == rest.gone;
        LaneBagCons(b, rest.kept);
      } else if |bs| == 1 {
        assert Sweep(bs, px).kept == [] && Sweep(bs, px).gone == [b];
        LaneBagCons(b, []);
      } else {
        var rest := Sweep(bs[2..], px);
        SweepPermutesLanes(bs[2..], px);
        assert Sweep(bs, px).kept == [bs[1]] + rest.kept && Sweep(bs, px).gone == [b] + rest.gone;
        LaneBagCons(bs[1], rest.kept);
        LaneBagCons(b, rest.gone);
        assert bs[1..][1..] == bs[2..];
      }
    }
  }

  /** Only blocks that passed the bottom edge are removed. */
  lemma {:induction false} SweepRemovesOnlyBelow(bs: seq<Block>, px: real)
    ensures forall g :: g in Sweep(bs, px).gone ==> g.y > H
    decreases |bs|
  {
    if |bs| >= 2 && Fall(bs[0]).y > H {
      SweepRemovesOnlyBelow(bs[2..], px);
    } else if bs != [] && Fall(bs[0]).y <= H {
      SweepRemovesOnlyBelow(bs[1..], px);
    }
  }

  /** A hit is only reported for a block that, once moved, overlaps the player. */
  lemma {:induction false} SweepHitWitness(bs: seq<Block>, px: real)
    ensures Sweep(bs, px).hit ==> SomeHits(bs, px)
    decreases |bs|
  {
    if bs == [] {
    } else if Hits(Fall(bs[0]), px) {
    } else if |bs| >= 2 && Fall(bs[0]).y > H {
      SweepHitWitness(bs[2..], px);
      if Sweep(bs[2..], px).hit {
        var i :| 0 <= i < |bs[2..]| && Hits(Fall(bs[2..][i]), px);
        assert Hits(Fall(bs[i + 2]), px);
      }
    } else if Fall(bs[0]).y <= H {
      SweepHitWitness(bs[1..], px);
      if Sweep(bs[1..], px).hit {
        var i :| 0 <= i < |bs[1..]| && Hits(Fall(bs[1..][i]), px);
        assert Hits(Fall(bs[i + 1]), px);
      }
    }
  }

  /**
   * The pass only ever changes a block's y: every kept block has the x and
   * the speed of a block the pass started with.
   */
  lemma {:induction false} SweepKeepsXAndSpeed(bs: seq<Block>, px: real)
    ensures forall b :: b in Sweep(bs, px).kept ==> exists a :: a in bs && a.x == b.x && a.speed == b.speed
    decreases |bs|
  {
    if bs == [] {
    } else if |bs| >= 2 && Fall(bs[0]).y > H {
      SweepKeepsXAndSpeed(bs[2..], px);
      assert bs[1] in bs;
      assert forall a :: a in bs[2..] ==> a in bs;
    } else if Fall(bs[0]).y <= H {
      SweepKeepsXAndSpeed(bs[1..], px);
      assert bs[0] in bs;
      assert forall a :: a in bs[1..] ==> a in bs;
    }
  }

  /** Every block moved by its own speed. */
  function FallAll(bs: seq<Block>): (r: seq<Block>)
    ensures |r| == |bs| && forall i :: 0 <= i < |bs| ==> r[i] == Fall(bs[i])
  {
    seq(|bs|, i requires 0 <= i < |bs| => Fall(bs[i]))
  }

  /** No block of bs leaves the field once moved. */
  predicate NoneLeave(bs: seq<Block>)
  {
    forall i :: 0 <= i < |bs| ==> Fall(bs[i]).y <= H
  }

  /** Some block of bs, once moved, overlaps the player. */
  predicate SomeHits(bs: seq<Block>, px: real)
  {
    exists i :: 0 <= i < |bs| && Hits(Fall(bs[i]), px)
  }

  /** A non-empty bs is its first block followed by the rest, for both predicates. */
  lemma SplitFirst(bs: seq<Block>, px: real)
    requires bs != []
    ensures NoneLeave(bs) ==> NoneLeave(bs[1..])
    ensures SomeHits(bs, px) <==> Hits(Fall(bs[0]), px) || SomeHits(bs[1..], px)
  {
    var t := bs[1..];
    if SomeHits(t, px) {
      var i :| 0 <= i < |t| && Hits(Fall(t[i]), px);
      assert bs[i + 1] == t[i];
    }
    if SomeHits(bs, px) {
      var i :| 0 <= i < |bs| && Hits(Fall(bs[i]), px);
      if i > 0 {
        assert t[i - 1] == bs[i];
      }
    }
  }

  /**
   * When no block leaves the field in this tick the pass behaves like a
   * plain map: every block is moved, none is removed, and the hit flag is
   * exactly "some moved block overlaps the player".
   */
  lemma {:induction false} SweepWithoutRemoval(bs: seq<Block>, px: real)
    requires NoneLeave(bs)
    ensures Sweep(bs, px).kept == FallAll(bs)
    ensures Sweep(bs, px).gone == []
    ensures Sweep(bs, px).hit <==> SomeHits(bs, px)
    decreases |bs|
  {
    if bs != [] {
      var t := bs[1..];
      SplitFirst(bs, px);
      SweepWithoutRemoval(t, px);
      var rest := Sweep(t, px);
      assert Sweep(bs, px) == Swept([Fall(bs[0])] + rest.kept, rest.gone, Hits(Fall(bs[0]), px) || rest.hit);
      assert FallAll(bs) == [Fall(bs[0])] + FallAll(t);
    }
  }

  /**
   * The splice quirk: when a block is removed, the block right behind it is
   * kept exactly as it was, unmoved and untested, whatever its position.
   */
  lemma SweepSkipsNext(b1: Block, b2: Block, rest: seq<Block>, px: real)
    requires Fall(b1).y > H
    ensures Sweep([b1, b2] + rest, px).kept == [b2] + Sweep(rest, px).kept
    ensures Sweep([b1, b2] + rest, px).gone == [Fall(b1)] + Sweep(rest, px).gone
    ensures Sweep([b1, b2] + rest, px).hit == (Hits(Fall(b1), px) || Sweep(rest, px).hit)
  {
    assert ([b1, b2] + rest)[2..] == rest;
  }

  /**
   * Two blocks that have both reached the bottom: only the first is removed
   * and scored in this tick; the second stays where it was.
   */
  lemma SweepSkipExample()
    ensures var s := Sweep([Block(0.0, 599.0, 5.0), Block(100.0, 599.0, 5.0)], 180.0);
      s.kept == [Block(100.0, 599.0, 5.0)] && |s.gone| == 1 && !s.hit
  {
    var bs := [Block(0.0, 599.0, 5.0), Block(100.0, 599.0, 5.0)];
    assert bs[2..] == [];
  }

  // ---------------------------------------------------------------------
  // Difficulty ramp
  // ---------------------------------------------------------------------

  datatype Difficulty = Difficulty(speed: real, interval: int)

  /** The ramp condition: the score is a positive multiple of 10. */
  predicate RampDue(score: nat) { score > 0 && score % 10 == 0 }

  /** Raise the speed by 0.5 and shorten the interval by 100, floored at 300. */
  function Ramp(score: nat, d: Difficulty): (r: Difficulty)
    ensures RampDue(score) ==> r.speed == d.speed + BLOCK_SPEED_INCREASE
    ensures RampDue(score) ==> r.interval == Max(d.interval - SPAWN_RATE_DECREASE, MIN_SPAWN_INTERVAL)
    ensures !RampDue(score) ==> r == d
    ensures r.speed >= d.speed
    ensures d.interval >= MIN_SPAWN_INTERVAL ==> MIN_SPAWN_INTERVAL <= r.interval <= d.interval
  {
    if RampDue(score) then
      Difficulty(d.speed + BLOCK_SPEED_INCREASE, Max(d.interval - SPAWN_RATE_DECREASE, MIN_SPAWN_INTERVAL))
    else d
  }

  /** The difficulty after k ticks during which the score stays at `score`. */
  function RampTimes(k: nat, score: nat, d: Difficulty): Difficulty
  {
    if k == 0 then d else Ramp(score, RampTimes(k - 1, score, d))
  }

  /**
   * The ramp fires on every tick its condition holds: k ticks at a positive
   * multiple of 10 add 0.5 * k to the speed and take 100 * k off the
   * interval, floored at 300.
   */
  lemma {:induction false} RampRepeats(k: nat, score: nat, d: Difficulty)
    requires RampDue(score)
    requires d.interval >= MIN_SPAWN_INTERVAL
    ensures RampTimes(k, score, d) ==
      Difficulty(d.speed + BLOCK_SPEED_INCREASE * k as real,
                 Max(d.interval - SPAWN_RATE_DECREASE * k, MIN_SPAWN_INTERVAL))
  {
    if k > 0 {
      RampRepeats(k - 1, score, d);
      var prev := RampTimes(k - 1, score, d);
      assert prev.interval == Max(d.interval - SPAWN_RATE_DECREASE * (k - 1), MIN_SPAWN_INTERVAL);
      assert Max(prev.interval - SPAWN_RATE_DECREASE, MIN_SPAWN_INTERVAL)
          == Max(d.interval - SPAWN_RATE_DECREASE * k, MIN_SPAWN_INTERVAL);
      assert prev.speed + BLOCK_SPEED_INCREASE == d.speed + BLOCK_SPEED_INCREASE * k as real;
      assert RampTimes(k, score, d) == Ramp(score, prev);
    }
  }

  // ---------------------------------------------------------------------
  // One tick
  // ---------------------------------------------------------------------

  /** The state the tick reads and writes. */
  datatype World = World(phase: Phase, x: real, blocks: seq<Block>, spawnTimer: real,
                         score: nat, difficulty: Difficulty)

  /**
   * One frame: dt is the elapsed time, left/right the held arrow keys and
   * rnd the Math.random() value used if a block spawns.
   */
  datatype Input = Input(dt: real, left: bool, right: bool, rnd: real)

  /**
   * Whether a frame changes something the loop's effect depends on
   * (isGameOver, score, blockSpeed): React then tears the loop down and,
   * while the game runs, starts a new one whose spawn timer begins at 0.
   */
  predicate RestartsLoop(hit: bool, gone: seq<Block>, score: nat)
  {
    hit || gone != [] || RampDue(score)
  }

  /**
   * One tick of the game loop. Outside Running nothing advances. Otherwise:
   * move the player, accumulate the timer and maybe spawn, sweep the blocks,
   * and at the end apply the state updates: one point per removed block,
   * the ramp (judged on the score the tick started with) and game over on
   * a hit. A hit does not stop the sweep. A tick that changes any of these
   * restarts the loop, and with it the spawn timer.
   */
  function Tick(w: World, i: Input): World
    requires 0.0 <= i.rnd < 1.0
  {
    if w.phase != Running then w
    else
      var x := MovePlayer(w.x, i.left, i.right);
      var sp := Spawn(w.blocks, w.spawnTimer + i.dt, w.difficulty.interval, w.difficulty.speed, i.rnd);
      var sw := Sweep(sp.blocks, x);
      World(if sw.hit then GameOver else Running, x, sw.kept,
            if RestartsLoop(sw.hit, sw.gone, w.score) then 0.0 else sp.timer,
            w.score + |sw.gone|, Ramp(w.score, w.difficulty))
  }

  /** A running tick, spelled out step by step. */
  lemma TickRunning(w: World, i: Input, x: real, sp: Spawned, sw: Swept)
    requires 0.0 <= i.rnd < 1.0
    requires w.phase == Running
    requires x == MovePlayer(w.x, i.left, i.right)
    requires sp == Spawn(w.blocks, w.spawnTimer + i.dt, w.difficulty.interval, w.difficulty.speed, i.rnd)
    requires sw == Sweep(sp.blocks, x)
    ensures Tick(w, i) == World(if sw.hit then GameOver else Running, x, sw.kept,
                                if RestartsLoop(sw.hit, sw.gone, w.score) then 0.0 else sp.timer,
                                w.score + |sw.gone|, Ramp(w.score, w.difficulty))
  {
  }

  /**
   * The spawn timer survives a running tick only when the tick leaves the
   * phase, the score and the difficulty alone; any change to one of them
   * starts the next frame's timer at 0.
   */
  lemma TickTimer(w: World, i: Input)
    requires 0.0 <= i.rnd < 1.0
    requires w.phase == Running
    ensures var w1 := Tick(w, i);
      var sp := Spawn(w.blocks, w.spawnTimer + i.dt, w.difficulty.interval, w.difficulty.speed, i.rnd);
      if w1.phase == w.phase && w1.score == w.score && w1.difficulty == w.difficulty
      then w1.spawnTimer == sp.timer
      else w1.spawnTimer == 0.0
  {
    var x := MovePlayer(w.x, i.left, i.right);
    var sp := Spawn(w.blocks, w.spawnTimer + i.dt, w.difficulty.interval, w.difficulty.speed, i.rnd);
    var sw := Sweep(sp.blocks, x);
    TickRunning(w, i, x, sp, sw);
    if RampDue(w.score) {
      assert Tick(w, i).difficulty.speed > w.difficulty.speed;
    }
  }

  /** The blocks after spawning and before the sweep, in a running tick. */
  function SpawnedBlocks(w: World, i: Input): seq<Block>
    requires 0.0 <= i.rnd < 1.0
  {
    Spawn(w.blocks, w.spawnTimer + i.dt, w.difficulty.interval, w.difficulty.speed, i.rnd).blocks
  }

  /** A block that is in the field: spawned inside it, not yet past the bottom. */
  predicate BlockValid(b: Block, initialSpeed: real)
  {
    0.0 <= b.x < W - BLOCK_W && b.y <= H && b.speed >= initialSpeed
  }

  /** The invariant every reachable state keeps (initialSpeed is in [2, 4)). */
  predicate WorldValid(w: World, initialSpeed: real)
  {
    && 2.0 <= initialSpeed < 4.0
    && 0.0 <= w.x <= MAX_X
    && (forall b :: b in w.blocks ==> BlockValid(b, initialSpeed))
    && w.difficulty.speed >= initialSpeed
    && MIN_SPAWN_INTERVAL <= w.difficulty.interval <= INITIAL_SPAWN_INTERVAL
  }

  /** Blocks that start in the field stay in it after the sweep. */
  lemma {:induction false} SweepKeepsValid(bs: seq<Block>, px: real, s: real)
    requires forall b :: b in bs ==> BlockValid(b, s)
    ensures forall b :: b in Sweep(bs, px).kept ==> BlockValid(b, s)
    decreases |bs|
  {
    if |bs| >= 2 && Fall(bs[0]).y > H {
      assert bs[1] in bs;
      SweepKeepsValid(bs[2..], px, s);
    } else if bs != [] && Fall(bs[0]).y <= H {
      assert bs[0] in bs;
      SweepKeepsValid(bs[1..], px, s);
    }
  }

  /** Every tick keeps the invariant. */
  lemma TickKeepsValid(w: World, i: Input, initialSpeed: real)
    requires 0.0 <= i.rnd < 1.0
    requires WorldValid(w, initialSpeed)
    ensures WorldValid(Tick(w, i), initialSpeed)
  {
    if w.phase == Running {
      var x := MovePlayer(w.x, i.left, i.right);
      var sb := SpawnedBlocks(w, i);
      assert forall b :: b in sb ==> BlockValid(b, initialSpeed) by {
        forall b | b in sb ensures BlockValid(b, initialSpeed) {
          var k :| 0 <= k < |sb| && sb[k] == b;
          if k < |w.blocks| {
            assert sb[..|w.blocks|][k] == b;
          }
        }
      }
      SweepKeepsValid(sb, x, initialSpeed);
    }
  }

  /**
   * The score grows by exactly the number of blocks removed in the tick
   * (blocks present after spawning minus blocks left), so it never
   * decreases, and it changes only when some block is removed.
   */
  lemma TickScore(w: World, i: Input)
    requires 0.0 <= i.rnd < 1.0
    requires w.phase == Running
    ensures Tick(w, i).score == w.score + |SpawnedBlocks(w, i)| - |Tick(w, i).blocks|
    ensures Tick(w, i).score >= w.score
    ensures Tick(w, i).score != w.score ==> exists b :: b in Sweep(SpawnedBlocks(w, i), Tick(w, i).x).gone
  {
    var sw := Sweep(SpawnedBlocks(w, i), Tick(w, i).x);
    SweepConserves(SpawnedBlocks(w, i), Tick(w, i).x);
    if sw.gone != [] {
      assert sw.gone[0] in sw.gone;
    }
  }

  /**
   * A tick ends in GameOver exactly when the sweep reported a hit, and any
   * hit comes from a block (after moving) overlapping the player's
   * rectangle at its new position. Removal and scoring still happen.
   */
  lemma TickGameOver(w: World, i: Input)
    requires 0.0 <= i.rnd < 1.0
    requires w.phase == Running
    ensures Tick(w, i).phase == GameOver <==> Sweep(SpawnedBlocks(w, i), Tick(w, i).x).hit
    ensures Tick(w, i).phase == GameOver ==> SomeHits(SpawnedBlocks(w, i), Tick(w, i).x)
    ensures Tick(w, i).phase != GameOver ==> Tick(w, i).phase == Running
  {
    SweepHitWitness(SpawnedBlocks(w, i), Tick(w, i).x);
  }

  /**
   * The ramp as written can stall the game. With the score at a positive
   * multiple of 10 and no block in flight, a frame no longer than the
   * shortest interval spawns nothing, scores nothing and ramps again, and
   * the restarted loop leaves the same situation for the next frame.
   */
  lemma RampStalls(w: World, i: Input)
    requires 0.0 <= i.rnd < 1.0
    requires w.phase == Running && w.blocks == [] && w.spawnTimer == 0.0
    requires RampDue(w.score) && w.difficulty.interval >= MIN_SPAWN_INTERVAL
    requires 0.0 <= i.dt <= MIN_SPAWN_INTERVAL as real
    ensures var w1 := Tick(w, i);
      && w1.phase == Running && w1.blocks == [] && w1.spawnTimer == 0.0 && w1.score == w.score
      && w1.difficulty.speed == w.difficulty.speed + BLOCK_SPEED_INCREASE
      && w1.difficulty.interval >= MIN_SPAWN_INTERVAL
  {
    var x := MovePlayer(w.x, i.left, i.right);
    var sp := Spawn(w.blocks, w.spawnTimer + i.dt, w.difficulty.interval, w.difficulty.speed, i.rnd);
    assert sp == Spawned([], i.dt);
    assert Sweep([], x) == Swept([], [], false);
    TickRunning(w, i, x, sp, Sweep([], x));
  }

  /** Outside Running the tick changes nothing: the simulation is halted. */
  lemma TickHalted(w: World, i: Input)
    requires 0.0 <= i.rnd < 1.0
    requires w.phase != Running
    ensures Tick(w, i) == w
  {
  }

  /**
   * Starting at speed 3 and interval 700 without keys, ticks that bring the
   * timer to exactly 700 spawn nothing (the test is strict); the next
   * positive dt spawns one block at y = -BLOCK_H, which then falls to -17.
   */
  lemma SpawnScenario(rnd: real)
    requires 0.0 <= rnd < 1.0
    ensures var w0 := World(Running, START_X, [], 0.0, 0, Difficulty(3.0, 700));
      var w1 := Tick(w0, Input(700.0, false, false, rnd));
      var w2 := Tick(w1, Input(16.0, false, false, rnd));
      && w1.blocks == [] && w1.spawnTimer == 700.0
      && w2.blocks == [Block(rnd * (W - BLOCK_W), -BLOCK_H + 3.0, 3.0)]
      && w2.spawnTimer == 0.0 && w2.x == START_X && w2.phase == Running
  {
    var w0 := World(Running, START_X, [], 0.0, 0, Difficulty(3.0, 700));
    var w1 := Tick(w0, Input(700.0, false, false, rnd));
    assert Spawn([], 700.0, 700, 3.0, rnd) == Spawned([], 700.0);
    assert Sweep([], START_X) == Swept([], [], false);
    assert w1 == World(Running, START_X, [], 700.0, 0, Difficulty(3.0, 700));
    var nb := Block(rnd * (W - BLOCK_W), -BLOCK_H, 3.0);
    assert Spawn([], 716.0, 700, 3.0, rnd).blocks == [nb];
    assert !Hits(Fall(nb), START_X);
    assert [nb][1..] == [];
    assert Sweep([nb], START_X) == Swept([Fall(nb)], [], false);
  }

  /**
   * A block at (0, 580) with speed 5 and the player at x = 0: the block
   * moves to y = 585, overlaps the player's rectangle (y from 570 to 590)
   * and the game is over.
   */
  lemma CollisionScenario()
    ensures var w := World(Running, 0.0, [Block(0.0, 580.0, 5.0)], 0.0, 0, Difficulty(3.0, 700));
      var w1 := Tick(w, Input(16.0, false, false, 0.0));
      w1.phase == GameOver && w1.blocks == [Block(0.0, 585.0, 5.0)] && w1.score == 0
  {
  }

  // ---------------------------------------------------------------------
  // Score submission
  // ---------------------------------------------------------------------

  datatype Submission = Submission(game: string, nickname: string, score: nat)

  // ---------------------------------------------------------------------
  // The pass over the blocks, one index at a time
  // ---------------------------------------------------------------------

  /**
   * The state of the `forEach` pass at index i over the current array bs:
   * the indices below i are final, and the pass still has to run over the
   * rest (an index past the end of the shrunken array is not visited).
   */
  function Pending(bs: seq<Block>, i: nat, px: real): Swept
  {
    var k := if i <= |bs| then i else |bs|;
    var rest := Sweep(bs[k..], px);
    rest.(kept := bs[..k] + rest.kept)
  }

  /** The result of a pass that has already collected `hit` and `gone` before the part p. */
  function Absorb(hit: bool, gone: seq<Block>, p: Swept): Swept
  {
    Swept(p.kept, gone + p.gone, hit || p.hit)
  }

  lemma AbsorbTwice(h1: bool, g1: seq<Block>, h2: bool, g2: seq<Block>, p: Swept)
    ensures Absorb(h1, g1, Absorb(h2, g2, p)) == Absorb(h1 || h2, g1 + g2, p)
  {
    assert g1 + (g2 + p.gone) == (g1 + g2) + p.gone;
  }

  /** Visiting index i and splicing the block out there. */
  lemma PendingAfterRemoval(bs: seq<Block>, i: nat, px: real)
    requires i < |bs| && Fall(bs[i]).y > H
    ensures var after := Pending(bs[..i] + bs[i + 1..], i + 1, px);
      && Pending(bs, i, px).kept == after.kept
      && Pending(bs, i, px).gone == [Fall(bs[i])] + after.gone
      && Pending(bs, i, px).hit == (Hits(Fall(bs[i]), px) || after.hit)
  {
    var cut := bs[..i] + bs[i + 1..];
    if i + 1 < |bs| {
      assert bs[i..][2..] == cut[i + 1..];
      assert cut[..i + 1] == bs[..i] + [bs[i + 1]];
    } else {
      assert cut == bs[..i];
      assert bs[i..] == [bs[i]];
    }
  }

  /** Visiting index i and writing back the moved block. */
  lemma PendingAfterMove(bs: seq<Block>, i: nat, px: real)
    requires i < |bs| && Fall(bs[i]).y <= H
    ensures var after := Pending(bs[i := Fall(bs[i])], i + 1, px);
      && Pending(bs, i, px).kept == after.kept
      && Pending(bs, i, px).gone == after.gone
      && Pending(bs, i, px).hit == (Hits(Fall(bs[i]), px) || after.hit)
  {
    var moved := bs[i := Fall(bs[i])];
    assert bs[i..][1..] == moved[i + 1..];
    assert moved[..i + 1] == bs[..i] + [Fall(bs[i])];
  }

  // ---------------------------------------------------------------------
  // The game object
  // ---------------------------------------------------------------------

  class Game {
    var phase: Phase
    /** The player's horizontal position. */
    var x: real
    var blocks: seq<Block>
    var spawnTimer: real
    var score: nat
    var blockSpeed: real
    var spawnInterval: int
    /** The module-level initial speed, drawn once from [2, 4). */
    const initialBlockSpeed: real
    /** The player's vertical position; nothing writes it. */
    const playerY: real

    /** The state as a value, for the specification of Step. */
    function State(): World
      reads this
    {
      World(phase, x, blocks, spawnTimer, score, Difficulty(blockSpeed, spawnInterval))
    }

    ghost predicate Valid()
      reads this
    {
      WorldValid(State(), initialBlockSpeed) && playerY == PLAYER_Y
    }

    /** A fresh game shows the start overlay; initialSpeed stands for 2 + Math.random() * 2. */
    constructor (initialSpeed: real)
      requires 2.0 <= initialSpeed < 4.0
      ensures Valid()
      ensures phase == Ready && x == START_X && playerY == PLAYER_Y
      ensures blocks == [] && spawnTimer == 0.0 && score == 0
      ensures initialBlockSpeed == initialSpeed && blockSpeed == initialSpeed
      ensures spawnInterval == INITIAL_SPAWN_INTERVAL
    {
      initialBlockSpeed := initialSpeed;
      playerY := PLAYER_Y;
      phase := Ready;
      x := START_X;
      blocks := [];
      spawnTimer := 0.0;
      score := 0;
      blockSpeed := initialSpeed;
      spawnInterval := INITIAL_SPAWN_INTERVAL;
    }

    /**
     * The start button: score 0, no blocks, initial difficulty, Running.
     * The loop starts afresh with its timer at 0; the player stays put.
     */
    method Start()
      requires Valid()
      modifies this
      ensures Valid()
      ensures phase == Running && score == 0 && blocks == [] && spawnTimer == 0.0
      ensures blockSpeed == initialBlockSpeed && spawnInterval == INITIAL_SPAWN_INTERVAL
      ensures x == old(x)
    {
      score := 0;
      phase := Running;
      blockSpeed := initialBlockSpeed;
      spawnInterval := INITIAL_SPAWN_INTERVAL;
      blocks := [];
      spawnTimer := 0.0;
    }

    /** The restart button; it does exactly what Start does, from any state. */
    method Restart()
      requires Valid()
      modifies this
      ensures Valid()
      ensures phase == Running && score == 0 && blocks == [] && spawnTimer == 0.0
      ensures blockSpeed == initialBlockSpeed && spawnInterval == INITIAL_SPAWN_INTERVAL
      ensures x == old(x)
    {
      score := 0;
      phase := Running;
      blockSpeed := initialBlockSpeed;
      spawnInterval := INITIAL_SPAWN_INTERVAL;
      blocks := [];
      spawnTimer := 0.0;
    }

    /**
     * One animation frame of the loop, performed in place: the player's x
     * is updated, a block may be pushed, and the blocks are moved and
     * spliced one index at a time as `forEach` visits them.
     */
    method Step(dt: real, left: bool, right: bool, rnd: real)
      requires Valid()
      requires 0.0 <= rnd < 1.0
      modifies this
      ensures Valid()
      ensures State() == Tick(old(State()), Input(dt, left, right, rnd))
    {
      if phase != Running {
        return;
      }
      ghost var w := State();
      ghost var inp := Input(dt, left, right, rnd);
      BeginFrame(dt, left, right, rnd);
      ghost var x1, sp := x, Spawned(blocks, spawnTimer);
      var hit, removed := MoveBlocks(x);
      EndFrame(hit, removed);
      TickRunning(w, inp, x1, sp, Sweep(sp.blocks, x1));
      TickKeepsValid(w, inp, initialBlockSpeed);
    }

    /** The part of a frame before the pass over the blocks: timer, player, spawning. */
    method BeginFrame(dt: real, left: bool, right: bool, rnd: real)
      requires 0.0 <= rnd < 1.0
      modifies this`x, this`blocks, this`spawnTimer
      ensures x == MovePlayer(old(x), left, right)
      ensures Spawned(blocks, spawnTimer) == Spawn(old(blocks), old(spawnTimer) + dt, spawnInterval, blockSpeed, rnd)
    {
      spawnTimer := spawnTimer + dt;
      MovePlayerStep(left, right);
      SpawnStep(rnd);
    }

    /**
     * The state updates the frame has queued, applied together at its end:
     * the ramp (tested on the score the frame started with), the points for
     * removed blocks, and the game over on a hit. Any of these restarts the
     * loop's effect, whose new closure starts its spawn timer at 0.
     */
    method EndFrame(hit: bool, removed: nat)
      modifies this`blockSpeed, this`spawnInterval, this`score, this`phase, this`spawnTimer
      ensures Difficulty(blockSpeed, spawnInterval) == Ramp(old(score), Difficulty(old(blockSpeed), old(spawnInterval)))
      ensures score == old(score) + removed
      ensures phase == if hit then GameOver else old(phase)
      ensures spawnTimer == if hit || removed > 0 || RampDue(old(score)) then 0.0 else old(spawnTimer)
    {
      if hit || removed > 0 || (score > 0 && score % 10 == 0) {
        spawnTimer := 0.0;
      }
      if score > 0 && score % 10 == 0 {
        blockSpeed := blockSpeed + BLOCK_SPEED_INCREASE;
        spawnInterval := Max(spawnInterval - SPAWN_RATE_DECREASE, MIN_SPAWN_INTERVAL);
      }
      score := score + removed;
      if hit {
        phase := GameOver;
      }
    }

    /** Apply the held arrow keys to the player's x and clamp it. */
    method MovePlayerStep(left: bool, right: bool)
      modifies this`x
      ensures x == MovePlayer(old(x), left, right)
    {
      if left { x := x - PLAYER_SPEED; }
      if right { x := x + PLAYER_SPEED; }
      if x < 0.0 { x := 0.0; }
      if x > MAX_X { x := MAX_X; }
    }

    /** Push a block when the timer has passed the interval, and reset the timer. */
    method SpawnStep(rnd: real)
      requires 0.0 <= rnd < 1.0
      modifies this`blocks, this`spawnTimer
      ensures Spawned(blocks, spawnTimer) == Spawn(old(blocks), old(spawnTimer), spawnInterval, blockSpeed, rnd)
    {
      if spawnTimer > spawnInterval as real {
        spawnTimer := 0.0;
        blocks := blocks + [Block(rnd * (W - BLOCK_W), -BLOCK_H, blockSpeed)];
      }
    }

    /**
     * The `forEach` over the blocks: each visited block falls by its speed
     * and is hit-tested; one past the bottom edge is spliced out. The loop
     * runs over the indices of the array as it was when the pass began.
     */
    method MoveBlocks(px: real) returns (hit: bool, removed: nat)
      modifies this`blocks
      ensures blocks == Sweep(old(blocks), px).kept
      ensures removed == |Sweep(old(blocks), px).gone|
      ensures hit == Sweep(old(blocks), px).hit
    {
      ghost var start := blocks;
      var n := |blocks|;
      var i := 0;
      removed := 0;
      hit := false;
      ghost var gone: seq<Block> := [];
      assert blocks[..0] == [] && blocks[0..] == blocks;
      while i < n
        invariant 0 <= i <= n
        invariant |blocks| + removed == n
        invariant removed == |gone|
        invariant Absorb(hit, gone, Pending(blocks, i, px)) == Sweep(start, px)
      {
        if i < |blocks| {
          ghost var b;
          var hitHere, out;
          hitHere, out, b := VisitBlock(i, px);
          ghost var now := if out then [b] else [];
          AbsorbTwice(hit, gone, hitHere, now, Pending(blocks, i + 1, px));
          hit := hit || hitHere;
          gone := gone + now;
          if out {
            removed := removed + 1;
          }
        } else {
          assert Pending(blocks, i + 1, px) == Pending(blocks, i, px);
        }
        i := i + 1;
      }
      assert blocks[|blocks|..] == [] && blocks[..|blocks|] == blocks;
    }

    /**
     * The `forEach` callback at index i: the block falls by its speed, is
     * tested against the player, and is spliced out once past the bottom.
     */
    method VisitBlock(i: nat, px: real) returns (hitHere: bool, out: bool, ghost b: Block)
      requires i < |blocks|
      modifies this`blocks
      ensures b == Fall(old(blocks)[i]) && hitHere == Hits(b, px) && out == (b.y > H)
      ensures |blocks| == |old(blocks)| - (if out then 1 else 0)
      ensures blocks == if out then old(blocks)[..i] + old(blocks)[i + 1..] else old(blocks)[i := b]
      ensures Pending(old(blocks), i, px) == Absorb(hitHere, if out then [b] else [], Pending(blocks, i + 1, px))
    {
      var blk := blocks[i];
      blk := blk.(y := blk.y + blk.speed);
      b := blk;
      hitHere := Hits(blk, px);
      out := blk.y > H;
      if out {
        PendingAfterRemoval(blocks, i, px);
        blocks := blocks[..i] + blocks[i + 1..];
      } else {
        PendingAfterMove(blocks, i, px);
        blocks := blocks[i := blk];
      }
    }

    /**
     * The save-score effect: the score is submitted only once the game is
     * over, with a positive score and a non-empty nickname; otherwise no
     * call is made. The call's outcome never affects the game.
     */
    method ScoreToSubmit(nickname: string) returns (call: Option<Submission>)
      ensures call.Some? <==> phase == GameOver && score > 0 && nickname != ""
      ensures call.Some? ==> call.value == Submission(GAME_NAME, nickname, score)
    {
      if phase != GameOver {
        return None;
      }
      if score <= 0 {
        return None;
      }
      if nickname == "" {
        return None;
      }
      return Some(Submission(GAME_NAME, nickname, score));
    }
  }
}
