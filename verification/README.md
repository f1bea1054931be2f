# Star Grabber game rules in Dafny

Star Grabber is a small platformer built on the Phaser engine. The engine
does the rendering, the arcade physics, collision detection and the game
loop. This project models the game-rule logic the repository writes itself,
all of it in `src/GameScene.js`:

- the per-frame player resolver (`update`). From the frame's ground contact,
  the four arrow keys and the animation now playing, it decides the player's
  velocity, facing, hitbox and animation key;
- the score, wave and bomb state machine. This covers `collectStar`,
  `dropBombs`, `hitBomb`, `restartGame` and the SPACE-key listener that
  `hitBomb` registers;
- the scene's own fields (constructor) and what `create` builds: the player
  body, the cursor keys, an empty bomb group and the row of twelve stars at
  x = 12 + 70·i.

The engine is reduced to plain state and parameters. Ground contact and the
keys are a `Frame` value given to `Update`. The player's x is a `real`
parameter of `CollectStar` and `DropBombs`. Each `Phaser.Math.Between` result
is a parameter (`BombDraw`) whose range `DrawInRange` states. The engine calls
the overlap callback only for stars whose body is enabled, so `CollectStar`
requires the star to be active.

Layout:

- `entities.dfy` (module `Entities`): the value types `Player`, `Star`, `Bomb`,
  `BombDraw`, `Frame` and `Anim`, plus the scene's constants.
- `player_control.dfy` (module `PlayerControl`): `Resolved`, the decision
  table, and `Resolve`, which makes the source's setter calls in the source's
  order and is proved to produce the table. The lemmas state the rules of the
  table.
- `waves.dfy` (module `Waves`): the star layout, `CountActive`, the wave
  respawn (an in-place loop over the star array), spawning bombs from draws,
  and the bomb cadence `BombsAfter` with its closed form.
- `game_scene.dfy` (module `Scene`): class `GameScene` with the scene's
  fields and callbacks, the engine event that ends a non-repeating clip
  (`ClipEnded`), and client methods for the two restart paths and for a
  jump that outlasts its clip.

`GameScene.Valid()` is the object invariant that every callback keeps:

- score is 10 × starsCollected, and score ≤ highScore;
- a paused physics world implies game over;
- a player body is always 35×65 at one of the four offsets the scene sets;
- once `create` has run, the stars keep their columns and
  12 − starsCollected mod 12 of them are active;
- the bomb group holds exactly `BombsAfter(starsCollected)` bombs, which is
  starsCollected/2 + starsCollected/12.

The code reproduces one quirk as written. `restartGame` never clears
`gameOver`, and `scene.restart()` does not re-run the constructor. So a
restart through the "Try Again" prompt rebuilds the scene while the game
stays over, and every later `update` is a no-op. Only the SPACE listener
clears the flag (src/GameScene.js:369-375).

## Model

| member | source | states |
|---|---|---|
| PlayerControl.Resolve | src/GameScene.js:233-300 | the setter calls of one live frame give exactly the decision table `Resolved` |
| PlayerControl.JumpBeatsOtherKeys | src/GameScene.js:244-249 | grounded with up held: vy = -355, vx = 0, anim jumpUp, size (35,65), offset (45,65), facing kept; left, right and down change nothing in the result |
| PlayerControl.GroundedPriority | src/GameScene.js:250-269 | grounded without up: left (vx -160, flipped, offset (55,55)) beats right (vx 160, not flipped, offset (30,55)) beats down (crouch, vx 0, hitbox kept) beats idle (notMoving, vx 0); vy is untouched |
| PlayerControl.AirborneSteering | src/GameScene.js:273-292 | airborne: jumpUp and offset (45,55) only on entry (jump animation not already playing), otherwise hitbox kept unless left; left gives vx -160, flipped, offset (45,55); right gives vx 160, not flipped; neither gives vx 0 with facing kept |
| PlayerControl.HardDropRule | src/GameScene.js:293-299 | airborne down with no horizontal key: vy = 230, vx = 0, final animation crouch, offset (45,55); otherwise vy is untouched and the animation is jumpUp |
| PlayerControl.NoInertia | src/GameScene.js:233-234 | horizontal velocity is reset every frame: the previous vx has no effect on the result |
| PlayerControl.FacingFollowsMotion | src/GameScene.js:252-292 | the resolved vx is -160, 0 or 160, and a moving body faces its direction of motion |
| PlayerControl.ResolvedSettles | src/GameScene.js:272-281 | the entry-only jump transition makes the resolver idempotent: a second frame with the same input, and no engine event in between, changes nothing |
| PlayerControl.HitboxStaysKnown | src/GameScene.js:244-299 | starting from a 35×65 body at one of the offsets the scene sets, a frame keeps the body size and leaves the offset one of (55,55), (30,55), (45,65), (45,55) |
| Waves.CountActive | src/GameScene.js:325 | the number of enabled stars never exceeds the number of stars |
| Waves.CountActiveZero | src/GameScene.js:325 | the count is zero exactly when every star is disabled |
| Waves.CountActiveDisable | src/GameScene.js:308 | disabling one active star lowers the count by exactly one |
| Waves.InitialStarsLaidOut | src/GameScene.js:175-179 | the initial row has all twelve stars active at x = 12 + 70·i |
| Waves.RespawnedRefills | src/GameScene.js:327-329 | a wave respawn makes every star active again and keeps every star's x |
| Waves.RespawnStars | src/GameScene.js:327-329 | the in-place loop re-enables every star at its own x with y = 0 |
| Waves.SpawnedAt | src/GameScene.js:342-353 | the k-th bomb spawned is built from the k-th draw, one bomb per draw |
| Waves.SpawnedAway | src/GameScene.js:343-352 | every bomb from admissible draws lies in [350,800] if the player's x < 350, else in [0,350]; y 16, bounce 1, bounded by the world, vx in [-200,200], vy 20, and `allowGravity = false` set on the bomb sprite (not on its body) |
| Waves.BombsAfterClosedForm | src/GameScene.js:324-338 | n collections since a (re)start drop n/2 parity bombs plus one bomb per full wave of twelve |
| Scene.InitialPlayer | src/GameScene.js:105-112 | the sprite create builds has the 35×65 body at offset (55,55), one of the known hitboxes |
| Scene.GameScene.constructor | src/GameScene.js:7-21 | score, high score and counter are zero, the game is not over, and there is no player, cursor keys, stars or bombs yet |
| Scene.GameScene.Create | src/GameScene.js:104-179 | builds the initial player, the cursor keys, an empty bomb group and the initial star row; keeps the high score and the game-over flag; establishes the invariant |
| Scene.GameScene.Update | src/GameScene.js:229-305 | with game over, or without a player or cursor keys, nothing changes; otherwise the player becomes `Resolved(player, frame)` |
| Scene.GameScene.DropBombs | src/GameScene.js:341-354 | appends exactly one bomb per draw; earlier bombs are unchanged and every new bomb is away from the player |
| Scene.GameScene.CollectStar | src/GameScene.js:307-339 | disables the star; score +10, counter +1, highScore = max(highScore, score); respawns the wave exactly when the count reaches a multiple of 12; appends (wave cleared ? 1 : 0) + (count even ? 1 : 0) bombs; keeps the invariant |
| Scene.GameScene.WaveAndParityBombs | src/GameScene.js:324-338 | respawns the stars exactly when none is active; appends one bomb for that, plus one more when the counter is even, taking the draws in that order |
| Scene.GameScene.HitBomb | src/GameScene.js:356-361 | physics paused, death animation playing, game over |
| Scene.GameScene.ClipEnded | src/GameScene.js:134-168 | the engine ending a playing jumpUp, die or notMoving clip (the repeat-0 clips) leaves the key current and not playing; nothing else changes |
| Scene.GameScene.RestartGame | src/GameScene.js:378-382 | score and counter zero, scene rebuilt, high score and game-over flag unchanged |
| Scene.GameScene.OnSpaceKey | src/GameScene.js:372-375 | restart as above, then the game is no longer over |
| Scene.PointerRestartKeepsGameOver | src/GameScene.js:369-382 | death then the "Try Again" click: the scene is rebuilt, the game stays over and the next frame leaves the new player as create built it |
| Scene.LongJumpReentersJump | src/GameScene.js:244-281 | a ground jump whose clip ends while still airborne: the next airborne frame without horizontal keys or down re-enters jumpUp and moves the offset from (45,65) to (45,55) |
| Scene.SpaceRestartResumes | src/GameScene.js:372-382 | death then SPACE: the game resumes and the next frame resolves the new player |

## Left out

- Asset discovery and loading in `preload` (src/GameScene.js:24-71): file and bundler I/O.
- The gradient background (src/GameScene.js:77-96): floating-point colour interpolation and drawing.
- Platforms, colliders and overlap registration (src/GameScene.js:98-103, 113, 184-205): this is engine collision detection. Only the callbacks it triggers are modelled.
- Animation definitions and frame playback (src/GameScene.js:116-168). Only the key and whether it is playing are kept. Playing a key that is already running and restarting it look the same at this level. Playback timing is not modelled: the engine ending a non-repeating clip is the separate event `GameScene.ClipEnded`, which may come between any two frames.
- Physics integration: gravity, positions and velocities between frames, the player's and stars' bounce (src/GameScene.js:111, 181). The engine changes these between callbacks. Velocities and the star and bomb coordinates the code sets are integers; engine positions are not modelled.
- The score and high-score texts, the "Try Again" text, its interactive wiring, and the SPACE `console.log` (src/GameScene.js:208-222, 302-304, 364-371): user interface only.
- Keyboard listener registration and any accumulation of `once` listeners across deaths (src/GameScene.js:224-226, 372). `OnSpaceKey` models the listener's body only.
- `scene.restart()` (src/GameScene.js:381) is modelled as an immediate call of `Create`. The engine defers it to its next step, and nothing in between reads the state it rebuilds.
- The pulse fields (src/GameScene.js:10-12) are never read.
- `this.starsCollected = this.starsCollected || 0` (src/GameScene.js:321) leaves a number unchanged, so it is not modelled.
- JavaScript numbers are doubles. Scores are unbounded integers here; they would need more than 2^53 / 10 collections to differ.
- The physical effect of `bomb.allowGravity = false` (src/GameScene.js:351). The assignment is made on the sprite, not on its arcade body, so the body keeps the world gravity (src/App.js:16). The model records the assignment as written in `Bomb.allowGravity`; bomb motion is not modelled.
- src/App.js: the React mount and the engine configuration, with no game logic.
