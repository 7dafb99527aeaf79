/**
 * The game as the program keeps it: one object whose fields are the game
 * state and whose methods change them in place. Each method is proved to
 * leave exactly the state that the matching function of Simulation describes.
 */
module GameState {
  import opened Entities
  import opened Sequences
  import Simulation

  class Game {
    // Size of the canvas, fixed for the life of the game
    const W: int
    const H: int

    var bird: Bird
    var obstacles: seq<Obstacle>
    var clouds: seq<Cloud>
    var mountains: seq<Mountain>
    var trees: seq<Tree>
    var frameCount: nat
    var score: nat
    var isGameOver: bool
    var isGameStarted: bool

    /** The fields as one value of the simulation's state. */
    function Snapshot(): Simulation.State
      reads this
    {
      Simulation.State(bird, obstacles, clouds, mountains, trees,
                       frameCount, score, isGameOver, isGameStarted)
    }

    /** The state the page loads with, before any game is started. */
    constructor (width: int, height: int)
      requires ValidField(width, height)
      ensures W == width && H == height
      ensures Snapshot() == Simulation.Initial()
      ensures Simulation.Inv(Snapshot(), W, H)
    {
      W, H := width, height;
      bird := StartBird;
      obstacles, clouds, mountains, trees := [], [], [], [];
      frameCount, score := 0, 0;
      isGameOver, isGameStarted := false, false;
    }

    method ResetGame()
      modifies this
      ensures Snapshot() == Simulation.Reset(old(Snapshot()))
      ensures bird == StartBird && obstacles == [] && clouds == [] && mountains == [] && trees == []
      ensures frameCount == 0 && score == 0 && !isGameOver && isGameStarted == old(isGameStarted)
    {
      bird := StartBird;
      isGameOver := false;
      obstacles := [];
      clouds := [];
      mountains := [];
      trees := [];
      frameCount := 0;
      score := 0;
    }

    method UpdateClouds(cloudY: real, radius: real)
      requires ValidField(W, H) && 20.0 <= radius < 50.0
      modifies this`clouds
      ensures Snapshot() == Simulation.UpdateClouds(old(Snapshot()), W, cloudY, radius)
    {
      ghost var born := Simulation.Due(frameCount, CloudEvery, Cloud(W, cloudY, radius));
      if frameCount % CloudEvery == 0 {
        clouds := clouds + [Cloud(W, cloudY, radius)];
      }
      assert clouds == old(clouds) + born;
      clouds := MoveEach(clouds, MoveCloud);
      clouds := KeepWhere(clouds, CloudOnScreen);
    }

    method UpdateBackground(mountainHeight: real, treeHeight: real)
      requires ValidField(W, H)
      modifies this`mountains, this`trees
      ensures Snapshot() == Simulation.UpdateBackground(old(Snapshot()), W, mountainHeight, treeHeight)
    {
      ghost var newMountains := Simulation.Due(frameCount, MountainEvery, Mountain(W, mountainHeight));
      ghost var newTrees := Simulation.Due(frameCount, TreeEvery, Tree(W, treeHeight));
      if frameCount % MountainEvery == 0 {
        mountains := mountains + [Mountain(W, mountainHeight)];
      }
      if frameCount % TreeEvery == 0 {
        trees := trees + [Tree(W, treeHeight)];
      }
      ghost var pushedMountains, pushedTrees := mountains, trees;
      assert pushedMountains == old(mountains) + newMountains;
      assert pushedTrees == old(trees) + newTrees;
      mountains := MoveEach(mountains, MoveMountain);
      trees := MoveEach(trees, MoveTree);
      mountains := KeepWhere(mountains, MountainOnScreen);
      trees := KeepWhere(trees, TreeOnScreen);
      assert mountains == Filter(Map(pushedMountains, MoveMountain), MountainOnScreen);
      assert trees == Filter(Map(pushedTrees, MoveTree), TreeOnScreen);
    }

    method UpdateBird()
      modifies this`bird, this`isGameOver
      ensures Snapshot() == Simulation.UpdateBird(old(Snapshot()), H)
    {
      bird := bird.(dy := bird.dy + Gravity);
      bird := bird.(y := bird.y + bird.dy);
      if OutOfField(bird, H) {
        isGameOver := true;
      }
    }

    method UpdateObstacles(h: int)
      requires ValidField(W, H) && 0 <= h < H - Gap
      modifies this`obstacles, this`score
      ensures Snapshot() == Simulation.UpdateObstacles(old(Snapshot()), W, H, h)
    {
      ghost var born := if frameCount % ObstacleEvery == 0 then SpawnPair(W, H, h) else [];
      if frameCount % ObstacleEvery == 0 {
        obstacles := obstacles + [Obstacle(W, 0, ObstacleWidth, h)];
        obstacles := obstacles + [Obstacle(W, h + Gap, ObstacleWidth, H - h - Gap)];
        score := score + 1;
      }
      assert obstacles == old(obstacles) + born;
      obstacles := MoveEach(obstacles, MoveObstacle);
      obstacles := KeepWhere(obstacles, ObstacleOnScreen);
    }

    method CheckCollision()
      modifies this`isGameOver
      ensures Snapshot() == Simulation.CheckCollision(old(Snapshot()))
    {
      var i := 0;
      while i < |obstacles|
        invariant 0 <= i <= |obstacles|
        invariant isGameOver <==> old(isGameOver) || exists j :: 0 <= j < i && Overlaps(bird, obstacles[j])
      {
        if Overlaps(bird, obstacles[i]) {
          isGameOver := true;
        }
        i := i + 1;
      }
    }

    /** The update half of one frame; a finished game is left untouched. */
    method GameLoop(d: Draws)
      requires ValidField(W, H) && ValidDraws(d, H)
      modifies this
      ensures Snapshot() == Simulation.Tick(old(Snapshot()), W, H, d)
      ensures Simulation.Inv(old(Snapshot()), W, H) ==> Simulation.Inv(Snapshot(), W, H)
    {
      if Simulation.Inv(Snapshot(), W, H) {
        Simulation.TickPreservesInv(Snapshot(), W, H, d);
      }
      if !isGameOver {
        ghost var s0 := Snapshot();
        UpdateClouds(d.cloudY, d.cloudRadius);
        ghost var s1 := Snapshot();
        UpdateBackground(d.mountainHeight, d.treeHeight);
        ghost var s2 := Snapshot();
        UpdateBird();
        ghost var s3 := Snapshot();
        UpdateObstacles(d.obstacleTop);
        ghost var s4 := Snapshot();
        CheckCollision();
        assert s1 == Simulation.UpdateClouds(s0, W, d.cloudY, d.cloudRadius);
        assert s2 == Simulation.UpdateBackground(s1, W, d.mountainHeight, d.treeHeight);
        assert s3 == Simulation.UpdateBird(s2, H);
        assert s4 == Simulation.UpdateObstacles(s3, W, H, d.obstacleTop);
        assert Snapshot() == Simulation.Updates(s0, W, H, d);
        if isGameStarted {
          frameCount := frameCount + 1;
        }
      }
    }

    method RestartGame(d: Draws)
      requires ValidField(W, H) && ValidDraws(d, H)
      modifies this
      ensures Snapshot() == Simulation.Restart(old(Snapshot()), W, H, d)
    {
      ResetGame();
      GameLoop(d);
    }

    method StartGame(d: Draws)
      requires ValidField(W, H) && ValidDraws(d, H)
      modifies this
      ensures Snapshot() == Simulation.Start(old(Snapshot()), W, H, d)
    {
      isGameStarted := true;
      ResetGame();
      GameLoop(d);
    }

    method HandleKeyDown(key: Simulation.Key, d: Draws)
      requires ValidField(W, H) && ValidDraws(d, H)
      modifies this
      ensures Snapshot() == Simulation.HandleKeyDown(old(Snapshot()), key, W, H, d)
    {
      if key == Simulation.Space && !isGameOver {
        bird := bird.(dy := Lift);
      } else if isGameOver && key == Simulation.Space {
        RestartGame(d);
      }
    }
  }
}
