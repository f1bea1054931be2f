/** The values the game scene works with: animation keys, the player's body
    as the per-frame resolver sees it, stars, bombs, the input of one frame,
    and the fixed constants of the scene. Positions and velocities the code
    sets are integer constants; what the physics engine does to them between
    callbacks is outside the model. */
module Entities {

  datatype Option<+T> = None | Some(value: T)

  /** The animation keys the scene registers. NoAnim stands for a sprite that
      has never played anything (its current animation is still unset). */
  datatype Anim = NoAnim | RunRight | RunLeft | JumpUp | Crouch | Die | NotMoving

  /** The clips defined with repeat 0 (jumpUp, die, notMoving): the engine
      ends them on its own. The running and crouching clips loop forever. */
  predicate OneShot(a: Anim)
  {
    a == JumpUp || a == Die || a == NotMoving
  }

  /** The player's body and animation state that update() writes. */
  datatype Player = Player(
    vx: int,
    vy: int,
    flipX: bool,
    sizeW: int,
    sizeH: int,
    offX: int,
    offY: int,
    anim: Anim,
    animPlaying: bool)

  /** A collectable star; collecting disables its body (active becomes false). */
  datatype Star = Star(x: int, y: int, active: bool)

  /** A bomb as dropBombs configures it. */
  datatype Bomb = Bomb(
    x: int,
    y: int,
    bounce: int,
    collideWorldBounds: bool,
    vx: int,
    vy: int,
    /** The `allowGravity` property dropBombs assigns on the sprite itself,
        not on its physics body. */
    allowGravity: bool)

  /** The two random integers drawn for one bomb: its spawn x and its
      horizontal velocity. */
  datatype BombDraw = BombDraw(x: int, vx: int)

  /** What update() samples at the start of a frame: whether the body touches
      the ground, and which arrow keys are held. */
  datatype Frame = Frame(grounded: bool, up: bool, down: bool, left: bool, right: bool)

  // Scoring and star layout
  const ScorePerStar: int := 10
  const NumStars: nat := 12
  const StarStartX: int := 12
  const StarStepX: int := 70

  // Player movement
  const RunSpeed: int := 160
  const JumpVelocity: int := -355
  const HardDropVelocity: int := 230
  const BodyWidth: int := 35
  const BodyHeight: int := 65

  // Bomb spawning
  const FieldMid: int := 350
  const FieldWidth: int := 800
  const BombSpawnY: int := 16
  const BombBounce: int := 1
  const BombMaxSpeedX: int := 200
  const BombFallVelocity: int := 20
}
