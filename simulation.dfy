/**
 * The game simulation as a state machine over values: one function per
 * procedure that changes the game state, the frame tick that runs them in
 * order, the key handler, and the invariants these preserve.
 */
module Simulation {
  import opened Entities
  import opened Sequences

  /** Everything one frame of the game reads and writes. */
  datatype State = State(bird: Bird, obstacles: seq<Obstacle>, clouds: seq<Cloud>,
                         mountains: seq<Mountain>, trees: seq<Tree>,
                         frameCount: nat, score: nat,
                         isGameOver: bool, isGameStarted: bool)

  datatype Key = Space | OtherKey

  /** The state before the first game is started. */
  function Initial(): State
  {
    State(StartBird, [], [], [], [], 0, 0, false, false)
  }

  /** A new game: fresh bird, no items, counters at zero; started stays as it was. */
  function Reset(s: State): State
  {
    State(StartBird, [], [], [], [], 0, 0, false, s.isGameStarted)
  }

  /** The item spawned on this frame if the frame is due for one, else nothing. */
  function Due<T>(frameCount: nat, every: nat, item: T): seq<T>
    requires every > 0
  {
    if frameCount % every == 0 then [item] else []
  }

  /** Clouds: maybe one new cloud at the right edge, all move left, the gone ones are dropped. */
  function UpdateClouds(s: State, W: int, cloudY: real, radius: real): State
  {
    var born := Due(s.frameCount, CloudEvery, Cloud(W, cloudY, radius));
    s.(clouds := Scroll(s.clouds, born, MoveCloud, CloudOnScreen))
  }

  /** Mountains and trees, each on its own cadence, scrolled and culled like clouds. */
  function UpdateBackground(s: State, W: int, mountainHeight: real, treeHeight: real): State
  {
    var newMountains := Due(s.frameCount, MountainEvery, Mountain(W, mountainHeight));
    var newTrees := Due(s.frameCount, TreeEvery, Tree(W, treeHeight));
    s.(mountains := Scroll(s.mountains, newMountains, MoveMountain, MountainOnScreen),
       trees := Scroll(s.trees, newTrees, MoveTree, TreeOnScreen))
  }

  /** Gravity, then the move, then the boundary check, which can only set game over. */
  function UpdateBird(s: State, H: int): (r: State)
    ensures r == s.(bird := r.bird, isGameOver := r.isGameOver)
    ensures r.bird.dy == s.bird.dy + Gravity && r.bird.y == s.bird.y + r.bird.dy
    ensures r.bird.x == s.bird.x && r.bird.radius == s.bird.radius
    ensures r.isGameOver <==> s.isGameOver || OutOfField(r.bird, H)
  {
    var falling := s.bird.(dy := s.bird.dy + Gravity);
    var moved := falling.(y := falling.y + falling.dy);
    s.(bird := moved, isGameOver := if OutOfField(moved, H) then true else s.isGameOver)
  }

  /**
   * Obstacles: every 90 frames a new pair at the right edge and one more point,
   * then all move left by 3 and the ones past the left edge are dropped.
   */
  function UpdateObstacles(s: State, W: int, H: int, h: int): State
    requires ValidField(W, H) && 0 <= h < H - Gap
  {
    var due := s.frameCount % ObstacleEvery == 0;
    var born := if due then SpawnPair(W, H, h) else [];
    s.(obstacles := Scroll(s.obstacles, born, MoveObstacle, ObstacleOnScreen),
       score := if due then s.score + 1 else s.score)
  }

  /** Whether the bird overlaps any of the obstacles, checked one after another. */
  function AnyOverlap(b: Bird, obstacles: seq<Obstacle>): (hit: bool)
    ensures hit <==> exists i :: 0 <= i < |obstacles| && Overlaps(b, obstacles[i])
  {
    obstacles != [] && (Overlaps(b, obstacles[0]) || AnyOverlap(b, obstacles[1..]))
  }

  /** Sets game over when the bird overlaps an obstacle; never clears it. */
  function CheckCollision(s: State): (r: State)
    ensures r == s.(isGameOver := r.isGameOver)
    ensures r.isGameOver <==>
      s.isGameOver || exists i :: 0 <= i < |s.obstacles| && Overlaps(s.bird, s.obstacles[i])
  {
    s.(isGameOver := s.isGameOver || AnyOverlap(s.bird, s.obstacles))
  }

  /**
   * The updates of one running frame, in the order the frame runs them:
   * clouds, background, bird, obstacles, collisions.
   */
  function Updates(s: State, W: int, H: int, d: Draws): (r: State)
    requires ValidField(W, H) && ValidDraws(d, H)
    ensures r.frameCount == s.frameCount && r.isGameStarted == s.isGameStarted
    ensures r.score == s.score + (if s.frameCount % ObstacleEvery == 0 then 1 else 0)
    ensures s.isGameOver ==> r.isGameOver
  {
    var s1 := UpdateClouds(s, W, d.cloudY, d.cloudRadius);
    var s2 := UpdateBackground(s1, W, d.mountainHeight, d.treeHeight);
    var s3 := UpdateBird(s2, H);
    var s4 := UpdateObstacles(s3, W, H, d.obstacleTop);
    CheckCollision(s4)
  }

  /**
   * One frame. A finished game is frozen; otherwise the updates run and the
   * frame counter of a started game advances, even when this very frame
   * ended the game.
   */
  function Tick(s: State, W: int, H: int, d: Draws): (r: State)
    requires ValidField(W, H) && ValidDraws(d, H)
    ensures s.isGameOver ==> r == s
    ensures !s.isGameOver ==>
      r.frameCount == s.frameCount + (if s.isGameStarted then 1 else 0)
    ensures !s.isGameOver ==>
      r.score == s.score + (if s.frameCount % ObstacleEvery == 0 then 1 else 0)
    ensures r.isGameStarted == s.isGameStarted
  {
    if s.isGameOver then s
    else
      var u := Updates(s, W, H, d);
      if u.isGameStarted then u.(frameCount := u.frameCount + 1) else u
  }

  /** The frames the scheduler runs, one per element of ds. */
  function Run(s: State, W: int, H: int, ds: seq<Draws>): (r: State)
    requires ValidField(W, H) && forall i :: 0 <= i < |ds| ==> ValidDraws(ds[i], H)
    ensures r.isGameStarted == s.isGameStarted
    ensures r.score >= s.score && r.frameCount >= s.frameCount
    decreases |ds|
  {
    if ds == [] then s else Run(Tick(s, W, H, ds[0]), W, H, ds[1..])
  }

  /** Reset followed at once by the first frame of the new game. */
  function Restart(s: State, W: int, H: int, d: Draws): State
    requires ValidField(W, H) && ValidDraws(d, H)
  {
    Tick(Reset(s), W, H, d)
  }

  /** Starting a game marks it started, then restarts it. */
  function Start(s: State, W: int, H: int, d: Draws): (r: State)
    requires ValidField(W, H) && ValidDraws(d, H)
    ensures r.isGameStarted && r.score == 1 && r.frameCount == 1 && Inv(r, W, H)
  {
    RestartBeginsFresh(s.(isGameStarted := true), W, H, d);
    Restart(s.(isGameStarted := true), W, H, d)
  }

  /** Space flaps while the game runs and restarts a finished game; other keys do nothing. */
  function HandleKeyDown(s: State, key: Key, W: int, H: int, d: Draws): (r: State)
    requires ValidField(W, H) && ValidDraws(d, H)
    ensures key != Space ==> r == s
    ensures key == Space && !s.isGameOver ==> r == s.(bird := s.bird.(dy := Lift))
    ensures key == Space && s.isGameOver ==> r == Restart(s, W, H, d)
  {
    if key == Space && !s.isGameOver then s.(bird := s.bird.(dy := Lift))
    else if s.isGameOver && key == Space then Restart(s, W, H, d)
    else s
  }

  // ---------------------------------------------------------------------
  // Invariants

  /** The obstacles form consecutive top/bottom pairs. */
  predicate Paired(obstacles: seq<Obstacle>, H: int)
    decreases |obstacles|
  {
    if obstacles == [] then true
    else |obstacles| >= 2 && IsPair(obstacles[0], obstacles[1], H) && Paired(obstacles[2..], H)
  }

  /** Number of frames among 0 .. n-1 on which an obstacle pair is spawned. */
  function SpawnsBefore(n: nat): nat
  {
    if n == 0 then 0 else SpawnsBefore(n - 1) + (if (n - 1) % ObstacleEvery == 0 then 1 else 0)
  }

  /** Obstacles come in pairs, reach into the field and are in screen order. */
  predicate ObstaclesInPlace(obstacles: seq<Obstacle>, W: int, H: int)
  {
    && Paired(obstacles, H)
    && (forall i :: 0 <= i < |obstacles| ==> ObstacleOnScreen(obstacles[i]))
    && OrderedUpTo(obstacles, ObstacleX, W)
  }

  predicate CloudsInPlace(clouds: seq<Cloud>, W: int)
  {
    (forall i :: 0 <= i < |clouds| ==> CloudOnScreen(clouds[i])) && OrderedUpTo(clouds, CloudX, W)
  }

  predicate MountainsInPlace(mountains: seq<Mountain>, W: int)
  {
    (forall i :: 0 <= i < |mountains| ==> MountainOnScreen(mountains[i])) && OrderedUpTo(mountains, MountainX, W)
  }

  predicate TreesInPlace(trees: seq<Tree>, W: int)
  {
    (forall i :: 0 <= i < |trees| ==> TreeOnScreen(trees[i])) && OrderedUpTo(trees, TreeX, W)
  }

  /** The geometry every frame keeps: bird shape, pairs, items on screen and in screen order. */
  predicate Layout(s: State, W: int, H: int)
  {
    && s.bird.x == StartBird.x && s.bird.radius == StartBird.radius
    && ObstaclesInPlace(s.obstacles, W, H)
    && CloudsInPlace(s.clouds, W)
    && MountainsInPlace(s.mountains, W)
    && TreesInPlace(s.trees, W)
  }

  /** Layout, and once the game is started the score counts the spawns so far. */
  predicate Inv(s: State, W: int, H: int)
  {
    Layout(s, W, H) && (s.isGameStarted ==> s.score == SpawnsBefore(s.frameCount))
  }

  // ---------------------------------------------------------------------
  // Lemmas

  /** The score formula: one point for every started block of 90 frames. */
  lemma {:induction false} SpawnsBeforeClosedForm(n: nat)
    ensures SpawnsBefore(n) == (n + ObstacleEvery - 1) / ObstacleEvery
  {
    if n > 0 {
      SpawnsBeforeClosedForm(n - 1);
      var q := (n - 1) / ObstacleEvery;
      var m := (n - 1) % ObstacleEvery;
      assert n - 1 == ObstacleEvery * q + m;
      if m == 0 {
        assert (n - 1 + ObstacleEvery - 1) / ObstacleEvery == q;
        assert (n + ObstacleEvery - 1) / ObstacleEvery == q + 1;
      } else {
        assert (n - 1 + ObstacleEvery - 1) / ObstacleEvery == q + 1;
        assert (n + ObstacleEvery - 1) / ObstacleEvery == q + 1;
      }
    }
  }

  lemma {:induction false} PairedAppend(a: seq<Obstacle>, b: seq<Obstacle>, H: int)
    requires Paired(a, H) && Paired(b, H)
    ensures Paired(a + b, H)
    decreases |a|
  {
    if a == [] {
      assert a + b == b;
    } else {
      assert (a + b)[2..] == a[2..] + b;
      PairedAppend(a[2..], b, H);
    }
  }

  lemma {:induction false} PairedMove(obstacles: seq<Obstacle>, H: int)
    requires Paired(obstacles, H)
    ensures Paired(Map(obstacles, MoveObstacle), H)
    decreases |obstacles|
  {
    if obstacles != [] {
      var moved := Map(obstacles, MoveObstacle);
      assert moved[0] == MoveObstacle(obstacles[0]) && moved[1] == MoveObstacle(obstacles[1]);
      assert moved[2..] == Map(obstacles[2..], MoveObstacle);
      PairedMove(obstacles[2..], H);
    }
  }

  /** Both pieces of a pair share their column, so culling removes pairs whole. */
  lemma {:induction false} PairedCull(obstacles: seq<Obstacle>, H: int)
    requires Paired(obstacles, H)
    ensures Paired(Filter(obstacles, ObstacleOnScreen), H)
    decreases |obstacles|
  {
    if obstacles != [] {
      var pair, rest := obstacles[..2], obstacles[2..];
      assert obstacles == pair + rest;
      FilterConcat(pair, rest, ObstacleOnScreen);
      PairedCull(rest, H);
      if ObstacleOnScreen(pair[0]) {
        FilterAllKept(pair, ObstacleOnScreen);
        var r := pair + Filter(rest, ObstacleOnScreen);
        assert r[0] == obstacles[0] && r[1] == obstacles[1];
        assert r[2..] == Filter(rest, ObstacleOnScreen);
      } else {
        assert pair[1] == obstacles[1] && !ObstacleOnScreen(pair[1]);
        FilterNoneKept(pair, ObstacleOnScreen);
        assert [] + Filter(rest, ObstacleOnScreen) == Filter(rest, ObstacleOnScreen);
      }
    }
  }

  /**
   * A cloud update changes only the clouds: the old ones move left by 2 and
   * those gone past the left edge are dropped, and on every 100th frame a new
   * cloud is appended, already moved once from the right edge.
   */
  lemma UpdateCloudsSpawnsAndScrolls(s: State, W: int, cloudY: real, radius: real)
    requires W >= 0 && 20.0 <= radius < 50.0
    ensures var r := UpdateClouds(s, W, cloudY, radius);
      && r == s.(clouds := r.clouds)
      && r.clouds == Filter(Map(s.clouds, MoveCloud), CloudOnScreen)
                     + (if s.frameCount % CloudEvery == 0 then [Cloud(W - ScenerySpeed, cloudY, radius)] else [])
  {
    var born := Due(s.frameCount, CloudEvery, Cloud(W, cloudY, radius));
    ScrollSplit(s.clouds, born, MoveCloud, CloudOnScreen);
    assert Map(born, MoveCloud) == if s.frameCount % CloudEvery == 0 then [Cloud(W - ScenerySpeed, cloudY, radius)] else [];
  }

  /** The same for mountains (every 200th frame) and trees (every 150th frame). */
  lemma UpdateBackgroundSpawnsAndScrolls(s: State, W: int, mountainHeight: real, treeHeight: real)
    requires W >= 0
    ensures var r := UpdateBackground(s, W, mountainHeight, treeHeight);
      && r == s.(mountains := r.mountains, trees := r.trees)
      && r.mountains == Filter(Map(s.mountains, MoveMountain), MountainOnScreen)
                        + (if s.frameCount % MountainEvery == 0 then [Mountain(W - ScenerySpeed, mountainHeight)] else [])
      && r.trees == Filter(Map(s.trees, MoveTree), TreeOnScreen)
                    + (if s.frameCount % TreeEvery == 0 then [Tree(W - ScenerySpeed, treeHeight)] else [])
  {
    var newMountains := Due(s.frameCount, MountainEvery, Mountain(W, mountainHeight));
    var newTrees := Due(s.frameCount, TreeEvery, Tree(W, treeHeight));
    ScrollSplit(s.mountains, newMountains, MoveMountain, MountainOnScreen);
    ScrollSplit(s.trees, newTrees, MoveTree, TreeOnScreen);
    if s.frameCount % MountainEvery == 0 {
      assert Map(newMountains, MoveMountain) == [Mountain(W - ScenerySpeed, mountainHeight)];
    } else {
      assert Map(newMountains, MoveMountain) == [];
    }
    if s.frameCount % TreeEvery == 0 {
      assert Map(newTrees, MoveTree) == [Tree(W - ScenerySpeed, treeHeight)];
    } else {
      assert Map(newTrees, MoveTree) == [];
    }
  }

  /**
   * An obstacle update changes only the obstacles and the score. On every
   * 90th frame a new pair is appended, already moved once from the right
   * edge, and the score goes up by exactly one; otherwise nothing is appended
   * and the score stays. The old obstacles move left by 3 and those gone past
   * the left edge are dropped.
   */
  lemma UpdateObstaclesSpawnsAndScrolls(s: State, W: int, H: int, h: int)
    requires ValidField(W, H) && 0 <= h < H - Gap
    ensures var r := UpdateObstacles(s, W, H, h);
      && r == s.(obstacles := r.obstacles, score := r.score)
      && r.score == s.score + (if s.frameCount % ObstacleEvery == 0 then 1 else 0)
      && r.obstacles == Filter(Map(s.obstacles, MoveObstacle), ObstacleOnScreen)
                        + (if s.frameCount % ObstacleEvery == 0 then Map(SpawnPair(W, H, h), MoveObstacle) else [])
  {
    var born := if s.frameCount % ObstacleEvery == 0 then SpawnPair(W, H, h) else [];
    ScrollSplit(s.obstacles, born, MoveObstacle, ObstacleOnScreen);
    assert Map(born, MoveObstacle) ==
      if s.frameCount % ObstacleEvery == 0 then Map(SpawnPair(W, H, h), MoveObstacle) else [];
  }

  lemma UpdateCloudsKeepsLayout(s: State, W: int, H: int, cloudY: real, radius: real)
    requires ValidField(W, H) && 20.0 <= radius < 50.0 && Layout(s, W, H)
    ensures Layout(UpdateClouds(s, W, cloudY, radius), W, H)
  {
    var born := Due(s.frameCount, CloudEvery, Cloud(W, cloudY, radius));
    ScrollOrdered(s.clouds, born, MoveCloud, CloudOnScreen, CloudX, ScenerySpeed, W);
  }

  lemma UpdateBackgroundKeepsLayout(s: State, W: int, H: int, mountainHeight: real, treeHeight: real)
    requires ValidField(W, H) && Layout(s, W, H)
    ensures Layout(UpdateBackground(s, W, mountainHeight, treeHeight), W, H)
  {
    var newMountains := Due(s.frameCount, MountainEvery, Mountain(W, mountainHeight));
    var newTrees := Due(s.frameCount, TreeEvery, Tree(W, treeHeight));
    ScrollOrdered(s.mountains, newMountains, MoveMountain, MountainOnScreen, MountainX, ScenerySpeed, W);
    ScrollOrdered(s.trees, newTrees, MoveTree, TreeOnScreen, TreeX, ScenerySpeed, W);
  }

  lemma UpdateObstaclesKeepsLayout(s: State, W: int, H: int, h: int)
    requires ValidField(W, H) && 0 <= h < H - Gap && Layout(s, W, H)
    ensures Layout(UpdateObstacles(s, W, H, h), W, H)
  {
    var born := if s.frameCount % ObstacleEvery == 0 then SpawnPair(W, H, h) else [];
    assert Paired(born, H) by {
      if born != [] { assert born[2..] == []; }
    }
    PairedAppend(s.obstacles, born, H);
    PairedMove(s.obstacles + born, H);
    PairedCull(Map(s.obstacles + born, MoveObstacle), H);
    ScrollOrdered(s.obstacles, born, MoveObstacle, ObstacleOnScreen, ObstacleX, ObstacleSpeed, W);
  }

  /** The updates of a frame keep the layout. */
  lemma UpdatesKeepLayout(s: State, W: int, H: int, d: Draws)
    requires ValidField(W, H) && ValidDraws(d, H) && Layout(s, W, H)
    ensures Layout(Updates(s, W, H, d), W, H)
  {
    var s1 := UpdateClouds(s, W, d.cloudY, d.cloudRadius);
    UpdateCloudsKeepsLayout(s, W, H, d.cloudY, d.cloudRadius);
    var s2 := UpdateBackground(s1, W, d.mountainHeight, d.treeHeight);
    UpdateBackgroundKeepsLayout(s1, W, H, d.mountainHeight, d.treeHeight);
    var s3 := UpdateBird(s2, H);
    assert Layout(s3, W, H);
    UpdateObstaclesKeepsLayout(s3, W, H, d.obstacleTop);
  }

  /** Every frame keeps the invariant, including the score/frame relation. */
  lemma TickPreservesInv(s: State, W: int, H: int, d: Draws)
    requires ValidField(W, H) && ValidDraws(d, H) && Inv(s, W, H)
    ensures Inv(Tick(s, W, H, d), W, H)
  {
    if !s.isGameOver {
      UpdatesKeepLayout(s, W, H, d);
    }
  }

  /** The first frame of a new game spawns every kind of item and scores its first point. */
  lemma RestartBeginsFresh(s: State, W: int, H: int, d: Draws)
    requires ValidField(W, H) && ValidDraws(d, H)
    ensures var r := Restart(s, W, H, d);
      && r.isGameStarted == s.isGameStarted
      && r.score == 1 && r.frameCount == (if s.isGameStarted then 1 else 0)
      && r.bird == StartBird.(y := StartBird.y + Gravity, dy := Gravity)
      && |r.obstacles| == 2 && |r.clouds| == 1 && |r.mountains| == 1 && |r.trees| == 1
      && Inv(r, W, H)
  {
    var s0 := Reset(s);
    assert s0.frameCount == 0 && !s0.isGameOver;
    var s1 := UpdateClouds(s0, W, d.cloudY, d.cloudRadius);
    UpdateCloudsSpawnsAndScrolls(s0, W, d.cloudY, d.cloudRadius);
    assert Map(s0.clouds, MoveCloud) == [];
    assert |s1.clouds| == 1;
    var s2 := UpdateBackground(s1, W, d.mountainHeight, d.treeHeight);
    UpdateBackgroundSpawnsAndScrolls(s1, W, d.mountainHeight, d.treeHeight);
    assert s1.frameCount == 0 && s1.mountains == [] && s1.trees == [];
    assert Map(s1.mountains, MoveMountain) == [] && Map(s1.trees, MoveTree) == [];
    assert |s2.mountains| == 1 && |s2.trees| == 1;
    var s3 := UpdateBird(s2, H);
    assert s3.bird == StartBird.(y := StartBird.y + Gravity, dy := Gravity);
    var s4 := UpdateObstacles(s3, W, H, d.obstacleTop);
    UpdateObstaclesSpawnsAndScrolls(s3, W, H, d.obstacleTop);
    assert Map(s3.obstacles, MoveObstacle) == [];
    assert |s4.obstacles| == 2;
    var s5 := CheckCollision(s4);
    assert Updates(s0, W, H, d) == s5;
    ResetEstablishesInv(s, W, H);
    TickPreservesInv(s0, W, H, d);
  }

  lemma ResetEstablishesInv(s: State, W: int, H: int)
    ensures Inv(Reset(s), W, H)
  {
  }

  /** A reset keeps nothing of the game before it but whether a game was started. */
  lemma ResetForgetsHistory(s: State, t: State)
    requires s.isGameStarted == t.isGameStarted
    ensures Reset(s) == Reset(t)
  {
  }

  /** A second collision check in the same frame changes nothing. */
  lemma CheckCollisionIdempotent(s: State)
    ensures CheckCollision(CheckCollision(s)) == CheckCollision(s)
  {
  }

  /**
   * Starting a game wipes out any key press that came before it, so a press
   * made before the key handler is attached leaves no trace in the game.
   */
  lemma StartForgetsEarlierKeys(s: State, key: Key, W: int, H: int, before: Draws, d: Draws)
    requires ValidField(W, H) && ValidDraws(before, H) && ValidDraws(d, H)
    ensures Start(HandleKeyDown(s, key, W, H, before), W, H, d) == Start(s, W, H, d)
  {
    var pressed := HandleKeyDown(s, key, W, H, before);
    ResetForgetsHistory(pressed.(isGameStarted := true), s.(isGameStarted := true));
  }

  /** Both kinds of key press keep the invariant. */
  lemma HandleKeyDownPreservesInv(s: State, key: Key, W: int, H: int, d: Draws)
    requires ValidField(W, H) && ValidDraws(d, H) && Inv(s, W, H)
    ensures Inv(HandleKeyDown(s, key, W, H, d), W, H)
  {
    if key == Space && s.isGameOver {
      RestartBeginsFresh(s, W, H, d);
    }
  }

  /** Any number of frames keeps the invariant. */
  lemma {:induction false} RunPreservesInv(s: State, W: int, H: int, ds: seq<Draws>)
    requires ValidField(W, H) && forall i :: 0 <= i < |ds| ==> ValidDraws(ds[i], H)
    requires Inv(s, W, H)
    ensures Inv(Run(s, W, H, ds), W, H)
    decreases |ds|
  {
    if ds != [] {
      TickPreservesInv(s, W, H, ds[0]);
      RunPreservesInv(Tick(s, W, H, ds[0]), W, H, ds[1..]);
    }
  }

  /** After game over no frame changes anything. */
  lemma {:induction false} RunFrozen(s: State, W: int, H: int, ds: seq<Draws>)
    requires ValidField(W, H) && forall i :: 0 <= i < |ds| ==> ValidDraws(ds[i], H)
    requires s.isGameOver
    ensures Run(s, W, H, ds) == s
    decreases |ds|
  {
    if ds != [] {
      RunFrozen(Tick(s, W, H, ds[0]), W, H, ds[1..]);
    }
  }

  /**
   * In a started game that is still running after n frames, every one of
   * them advanced the frame counter.
   */
  lemma {:induction false} RunCountsFrames(s: State, W: int, H: int, ds: seq<Draws>)
    requires ValidField(W, H) && forall i :: 0 <= i < |ds| ==> ValidDraws(ds[i], H)
    requires s.isGameStarted && !Run(s, W, H, ds).isGameOver
    ensures Run(s, W, H, ds).frameCount == s.frameCount + |ds|
    decreases |ds|
  {
    if ds != [] {
      var next := Tick(s, W, H, ds[0]);
      if next.isGameOver {
        RunFrozen(next, W, H, ds[1..]);
        assert false;
      }
      RunCountsFrames(next, W, H, ds[1..]);
    }
  }

  /**
   * A started game that is still running after n frames from a reset has
   * scored one point per started block of 90 frames: (n + 89) / 90.
   */
  lemma ScoreAfterFrames(s: State, W: int, H: int, ds: seq<Draws>)
    requires ValidField(W, H) && forall i :: 0 <= i < |ds| ==> ValidDraws(ds[i], H)
    requires s.isGameStarted && !Run(Reset(s), W, H, ds).isGameOver
    ensures Run(Reset(s), W, H, ds).frameCount == |ds|
    ensures Run(Reset(s), W, H, ds).score == (|ds| + ObstacleEvery - 1) / ObstacleEvery
  {
    var s0 := Reset(s);
    ResetEstablishesInv(s, W, H);
    RunPreservesInv(s0, W, H, ds);
    RunCountsFrames(s0, W, H, ds);
    var r := Run(s0, W, H, ds);
    assert r.frameCount == |ds|;
    assert r.score == SpawnsBefore(|ds|);
    SpawnsBeforeClosedForm(|ds|);
  }
}
