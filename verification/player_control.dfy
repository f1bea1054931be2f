/** The per-frame player resolver: from the frame's input and the player's
    current animation it decides velocity, facing, hitbox and animation.
    `Resolved` is the decision table; `Resolve` performs the source's
    sequence of setter calls and is proved to produce the table's result. */
module PlayerControl {
  import opened Entities

  /** setSize(35, 65, true) followed by setOffset(ox, oy). */
  function WithHitbox(p: Player, ox: int, oy: int): Player
  {
    p.(sizeW := BodyWidth, sizeH := BodyHeight, offX := ox, offY := oy)
  }

  /** anims.play(key, ...): afterwards key is the current animation and it
      is playing (a key that is already playing is left running, any other
      starts). */
  function Play(p: Player, key: Anim): Player
  {
    p.(anim := key, animPlaying := true)
  }

  /** The body is already in its jump animation, so the airborne entry
      transition does not fire. */
  predicate InJump(p: Player)
  {
    p.animPlaying && p.anim == JumpUp
  }

  /** Airborne, down held and no horizontal key: the hard drop. */
  predicate HardDrop(f: Frame)
  {
    !f.grounded && f.down && !f.left && !f.right
  }

  /** The decision table: the player at the end of a frame that starts in
      state p with input f (and no game over). */
  function Resolved(p: Player, f: Frame): Player
  {
    if f.grounded then
      if f.up then Play(WithHitbox(p.(vx := 0, vy := JumpVelocity), 45, 65), JumpUp)
      else if f.left then Play(WithHitbox(p.(vx := -RunSpeed, flipX := true), 55, 55), RunLeft)
      else if f.right then Play(WithHitbox(p.(vx := RunSpeed, flipX := false), 30, 55), RunRight)
      else if f.down then Play(p.(vx := 0), Crouch)
      else Play(p.(vx := 0), NotMoving)
    else
      var moved := p.(
        vx := if f.left then -RunSpeed else if f.right then RunSpeed else 0,
        flipX := if f.left then true else if f.right then false else p.flipX,
        vy := if HardDrop(f) then HardDropVelocity else p.vy);
      var boxed := if !InJump(p) || f.left || HardDrop(f) then WithHitbox(moved, 45, 55) else moved;
      Play(boxed, if HardDrop(f) then Crouch else JumpUp)
  }

  /** One call of update() on a live player: the setter calls in the order
      the scene makes them. The ground flag is read once, so exactly one of
      the grounded and airborne blocks runs. */
  method Resolve(p: Player, f: Frame) returns (q: Player)
    ensures q == Resolved(p, f)
  {
    q := p.(vx := 0);
    if f.grounded {
      if f.up {
        q := q.(vy := JumpVelocity);
        q := Play(q, JumpUp);
        q := WithHitbox(q, 45, 65);
      } else {
        if f.left {
          q := q.(vx := -RunSpeed);
          q := Play(q, RunLeft);
          q := q.(flipX := true);
          q := WithHitbox(q, 55, 55);
        } else if f.right {
          q := q.(vx := RunSpeed);
          q := Play(q, RunRight);
          q := q.(flipX := false);
          q := WithHitbox(q, 30, 55);
        } else if f.down {
          q := Play(q, Crouch);
        } else {
          q := Play(q, NotMoving);
        }
      }
    }
    if !f.grounded {
      if !q.animPlaying || q.anim != JumpUp {
        q := Play(q, JumpUp);
        q := WithHitbox(q, 45, 55);
      }
      if f.left {
        q := q.(vx := -RunSpeed);
        q := q.(flipX := true);
        q := WithHitbox(q, 45, 55);
      } else if f.right {
        q := q.(vx := RunSpeed);
        q := q.(flipX := false);
      }
      if f.down && !f.left && !f.right {
        q := q.(vy := HardDropVelocity);
        q := WithHitbox(q, 45, 55);
        q := Play(q, Crouch);
      }
    }
  }

  /** On the ground with up held the frame is a jump, and left, right and
      down make no difference to any part of the result. */
  lemma JumpBeatsOtherKeys(p: Player, f: Frame, down: bool, left: bool, right: bool)
    requires f.grounded && f.up
    ensures var r := Resolved(p, f);
      && r.vy == JumpVelocity && r.vx == 0 && r.flipX == p.flipX
      && r.anim == JumpUp && r.animPlaying
      && r.sizeW == 35 && r.sizeH == 65 && r.offX == 45 && r.offY == 65
    ensures Resolved(p, f.(down := down, left := left, right := right)) == Resolved(p, f)
  {
  }

  /** On the ground without up: left beats right, right beats down, down
      beats standing still; the vertical velocity is left to the engine. */
  lemma GroundedPriority(p: Player, f: Frame)
    requires f.grounded && !f.up
    ensures var r := Resolved(p, f);
      && r.vy == p.vy && r.animPlaying
      && (f.left ==>
            r.vx == -RunSpeed && r.flipX && r.anim == RunLeft
            && r.sizeW == 35 && r.sizeH == 65 && r.offX == 55 && r.offY == 55)
      && (!f.left && f.right ==>
            r.vx == RunSpeed && !r.flipX && r.anim == RunRight
            && r.sizeW == 35 && r.sizeH == 65 && r.offX == 30 && r.offY == 55)
      && (!f.left && !f.right && f.down ==>
            r == p.(vx := 0, anim := Crouch, animPlaying := true))
      && (!f.left && !f.right && !f.down ==>
            r == p.(vx := 0, anim := NotMoving, animPlaying := true))
  {
  }

  /** In the air: the jump animation and the air hitbox are applied only on
      entry (when the jump animation is not already playing); left and right
      still steer, left first; with neither the body stops horizontally. */
  lemma AirborneSteering(p: Player, f: Frame)
    requires !f.grounded
    ensures var r := Resolved(p, f);
      && r.animPlaying
      && (!HardDrop(f) ==> r.anim == JumpUp)
      && (!InJump(p) ==> r.sizeW == 35 && r.sizeH == 65 && r.offX == 45 && r.offY == 55)
      && (InJump(p) && !f.left && !HardDrop(f) ==>
            r.sizeW == p.sizeW && r.sizeH == p.sizeH && r.offX == p.offX && r.offY == p.offY)
      && (f.left ==>
            r.vx == -RunSpeed && r.flipX && r.sizeW == 35 && r.sizeH == 65 && r.offX == 45 && r.offY == 55)
      && (!f.left && f.right ==> r.vx == RunSpeed && !r.flipX)
      && (!f.left && !f.right ==> r.vx == 0 && r.flipX == p.flipX)
  {
  }

  /** The hard drop is the only way update() changes the vertical velocity
      in the air: with it the body falls at 230 in the crouch animation and
      the air hitbox; without it the velocity is the engine's. */
  lemma HardDropRule(p: Player, f: Frame)
    requires !f.grounded
    ensures var r := Resolved(p, f);
      && (HardDrop(f) ==>
            r.vy == HardDropVelocity && r.vx == 0 && r.anim == Crouch
            && r.sizeW == 35 && r.sizeH == 65 && r.offX == 45 && r.offY == 55)
      && (!HardDrop(f) ==> r.vy == p.vy && r.anim == JumpUp)
  {
  }

  /** Horizontal velocity is reset every frame: the previous frame's
      velocity has no influence on the result. */
  lemma NoInertia(p: Player, f: Frame, vx: int)
    ensures Resolved(p.(vx := vx), f) == Resolved(p, f)
  {
  }

  /** The resolved horizontal velocity is one of the three run speeds, and
      a moving body faces the way it moves. */
  lemma FacingFollowsMotion(p: Player, f: Frame)
    ensures var r := Resolved(p, f);
      && (r.vx == -RunSpeed || r.vx == 0 || r.vx == RunSpeed)
      && (r.vx < 0 ==> r.flipX)
      && (r.vx > 0 ==> !r.flipX)
  {
  }

  /** Holding the same input for another frame changes nothing more: the
      resolver settles at once, so with no engine event between the two
      frames a held key cannot make the animation or the hitbox flicker. */
  lemma ResolvedSettles(p: Player, f: Frame)
    ensures Resolved(Resolved(p, f), f) == Resolved(p, f)
  {
  }

  /** The four hitbox offsets the scene ever sets, always on a 35 by 65 body. */
  predicate KnownHitbox(p: Player)
  {
    && p.sizeW == BodyWidth && p.sizeH == BodyHeight
    && ((p.offX, p.offY) == (55, 55) || (p.offX, p.offY) == (30, 55)
        || (p.offX, p.offY) == (45, 65) || (p.offX, p.offY) == (45, 55))
  }

  /** The body size never changes and the offset stays one of the four. */
  lemma HitboxStaysKnown(p: Player, f: Frame)
    requires KnownHitbox(p)
    ensures KnownHitbox(Resolved(p, f))
  {
  }
}
