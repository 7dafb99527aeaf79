/**
 * The things on the game field: the bird, the obstacle pieces and the three
 * kinds of scenery, with the fixed constants of the simulation and the
 * geometric tests the simulation applies to them.
 */
module Entities {

  // Physics of the bird
  const Gravity: real := 0.5
  const Lift: real := -10.0

  // Obstacles: a top and a bottom piece with a fixed vertical gap between them
  const Gap: int := 150
  const ObstacleWidth: int := 40
  const ObstacleSpeed: int := 3
  const ObstacleEvery: nat := 90

  // Scenery: clouds, mountains and trees all scroll at the same speed
  const ScenerySpeed: int := 2
  const CloudEvery: nat := 100
  const TreeEvery: nat := 150
  const MountainEvery: nat := 200
  const MountainWidth: int := 100
  const TreeWidth: int := 40

  datatype Bird = Bird(x: real, y: real, radius: real, dy: real)

  /** The bird of a new game. */
  const StartBird: Bird := Bird(50.0, 300.0, 10.0, 0.0)

  datatype Obstacle = Obstacle(x: int, y: int, width: int, height: int)
  datatype Cloud = Cloud(x: int, y: real, radius: real)
  datatype Mountain = Mountain(x: int, height: real)
  datatype Tree = Tree(x: int, height: real)

  /** A field of width W and height H has room for the gap. */
  predicate ValidField(W: int, H: int)
  {
    W >= 0 && H > Gap
  }

  /**
   * The random values one frame may draw: the height of a new top obstacle,
   * the vertical position and radius of a new cloud, and the heights of a new
   * mountain and a new tree, each within the range it is drawn from.
   */
  datatype Draws = Draws(obstacleTop: int, cloudY: real, cloudRadius: real,
                         mountainHeight: real, treeHeight: real)

  predicate ValidDraws(d: Draws, H: int)
  {
    && 0 <= d.obstacleTop < H - Gap
    && 0.0 <= d.cloudY < H as real / 2.0
    && 20.0 <= d.cloudRadius < 50.0
    && 50.0 <= d.mountainHeight < 150.0
    && 20.0 <= d.treeHeight < 60.0
  }

  /** The bird sticks out above or below the field. */
  predicate OutOfField(b: Bird, H: int)
  {
    b.y + b.radius > H as real || b.y - b.radius < 0.0
  }

  /** Strict overlap of the bird's bounding box with an obstacle. */
  predicate Overlaps(b: Bird, o: Obstacle)
  {
    && b.x - b.radius < (o.x + o.width) as real
    && b.x + b.radius > o.x as real
    && b.y - b.radius < (o.y + o.height) as real
    && b.y + b.radius > o.y as real
  }

  // One frame of scrolling, per kind of item
  function MoveObstacle(o: Obstacle): Obstacle { o.(x := o.x - ObstacleSpeed) }
  function MoveCloud(c: Cloud): Cloud { c.(x := c.x - ScenerySpeed) }
  function MoveMountain(m: Mountain): Mountain { m.(x := m.x - ScenerySpeed) }
  function MoveTree(t: Tree): Tree { t.(x := t.x - ScenerySpeed) }

  // Whether an item still reaches into the field from its left edge
  predicate ObstacleOnScreen(o: Obstacle) { o.x + o.width > 0 }
  predicate CloudOnScreen(c: Cloud) { c.x as real + c.radius > 0.0 }
  predicate MountainOnScreen(m: Mountain) { m.x + MountainWidth > 0 }
  predicate TreeOnScreen(t: Tree) { t.x + TreeWidth > 0 }

  // Horizontal positions, the key by which items are ordered on screen
  function ObstacleX(o: Obstacle): int { o.x }
  function CloudX(c: Cloud): int { c.x }
  function MountainX(m: Mountain): int { m.x }
  function TreeX(t: Tree): int { t.x }

  /**
   * A top piece and a bottom piece that form one gapped obstacle: same column,
   * the top one hangs from the ceiling, the bottom one starts a gap below it
   * and reaches the floor.
   */
  predicate IsPair(top: Obstacle, bottom: Obstacle, H: int)
  {
    && top.y == 0 && top.height >= 0
    && top.width == ObstacleWidth && bottom.width == ObstacleWidth
    && bottom.x == top.x
    && bottom.y == top.height + Gap
    && top.height + Gap + bottom.height == H
  }

  /** The two pieces pushed at the right edge when an obstacle is due. */
  function SpawnPair(W: int, H: int, h: int): (pair: seq<Obstacle>)
    requires H > Gap && 0 <= h < H - Gap
    ensures |pair| == 2 && IsPair(pair[0], pair[1], H)
    ensures pair[0].x == W && pair[0].height == h
    ensures pair[1].height >= 1
  {
    [Obstacle(W, 0, ObstacleWidth, h), Obstacle(W, h + Gap, ObstacleWidth, H - h - Gap)]
  }
}
