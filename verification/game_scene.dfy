/** The game scene: its counters and flags, the player, the star array and
    the bomb group, with the engine's callbacks (create, update, the star
    overlap, the bomb collision, the restart paths) as methods. The object
    invariant Valid() ties the counters to the stars and bombs: score is ten
    per collected star, the high score never falls below it, the active
    stars tell where the current wave stands, and the bomb group holds
    exactly the bombs the cadence has dropped since the last (re)start. */
module Scene {
  import opened Entities
  import opened PlayerControl
  import opened Waves

  /** The player sprite as create sets it up: a 35 by 65 body at offset
      (55, 55), at rest, facing right, no animation yet. */
  function InitialPlayer(): (p: Player)
    ensures KnownHitbox(p)
    ensures p.sizeW == 35 && p.sizeH == 65 && p.offX == 55 && p.offY == 55
  {
    Player(0, 0, false, BodyWidth, BodyHeight, 55, 55, NoAnim, false)
  }

  class GameScene {
    var score: int
    var highScore: int
    var starsCollected: int
    var gameOver: bool
    /** physics.pause() was called and the world has not been rebuilt since. */
    var physicsPaused: bool
    /** None until create has made the sprite. */
    var player: Option<Player>
    /** The cursor keys exist (create has run). */
    var cursorsReady: bool
    var stars: array<Star>
    var bombs: seq<Bomb>

    /** create has run: the player, the cursor keys and the twelve stars exist. */
    ghost predicate Created()
      reads this
    {
      player.Some? && cursorsReady && stars.Length == NumStars
    }

    ghost predicate Valid()
      reads this, stars
    {
      && 0 <= starsCollected
      && score == ScorePerStar * starsCollected
      && score <= highScore
      && (physicsPaused ==> gameOver)
      && (player.Some? ==> KnownHitbox(player.value))
      && |bombs| == BombsAfter(starsCollected)
      && (Created() ==>
            LaidOut(stars[..]) && CountActive(stars[..]) == NumStars - starsCollected % NumStars)
      && (!Created() ==> starsCollected == 0)
    }

    /** The scene object before create: counters zero, nothing built yet. */
    constructor ()
      ensures Valid() && !Created()
      ensures score == 0 && highScore == 0 && starsCollected == 0
      ensures !gameOver && !physicsPaused
      ensures player == None && !cursorsReady && stars.Length == 0 && bombs == []
    {
      score := 0;
      highScore := 0;
      starsCollected := 0;
      gameOver := false;
      physicsPaused := false;
      player := None;
      cursorsReady := false;
      stars := new Star[0];
      bombs := [];
    }

    /** create: the player, the cursor keys, an empty bomb group and the row
        of twelve stars. It runs on scene start and on scene.restart(), and
        the only caller of scene.restart() zeroes the counters first. The
        physics world is built afresh, so it is not paused. The counters and
        the game-over flag belong to the scene object and are kept. */
    method Create()
      requires score == 0 && starsCollected == 0 && 0 <= highScore
      modifies this
      ensures Valid() && Created()
      ensures player == Some(InitialPlayer()) && cursorsReady
      ensures fresh(stars) && stars[..] == InitialStars() && bombs == []
      ensures !physicsPaused
      ensures score == 0 && starsCollected == 0
      ensures highScore == old(highScore) && gameOver == old(gameOver)
    {
      player := Some(InitialPlayer());
      cursorsReady := true;
      bombs := [];
      stars := new Star[NumStars](i => Star(StarX(i), 0, true));
      physicsPaused := false;
      assert stars[..] == InitialStars();
      InitialStarsLaidOut();
    }

    /** update(): nothing happens while the game is over or before the player
        and the cursor keys exist; otherwise the player is resolved for the
        frame. */
    method Update(f: Frame)
      requires Valid()
      modifies this`player
      ensures Valid()
      ensures old(player).None? || !cursorsReady || gameOver ==> player == old(player)
      ensures old(player).Some? && cursorsReady && !gameOver ==>
                player == Some(Resolved(old(player).value, f))
    {
      if player.None? || !cursorsReady || gameOver {
        return;
      }
      var next := Resolve(player.value, f);
      HitboxStaysKnown(player.value, f);
      player := Some(next);
    }

    /** dropBombs(count, player): one bomb per draw, appended to the group;
        the earlier bombs are untouched. */
    method DropBombs(count: nat, playerX: real, draws: seq<BombDraw>)
      requires |draws| == count
      requires forall k :: 0 <= k < count ==> DrawInRange(draws[k], playerX)
      modifies this`bombs
      ensures bombs == old(bombs) + Spawned(draws)
      ensures forall k :: |old(bombs)| <= k < |bombs| ==> SpawnedAwayFrom(bombs[k], playerX)
    {
      for i := 0 to count
        invariant bombs == old(bombs) + Spawned(draws[..i])
      {
        assert draws[..i + 1] == draws[..i] + [draws[i]];
        SpawnedAppend(draws[..i], [draws[i]]);
        bombs := bombs + [SpawnBomb(draws[i])];
      }
      assert draws[..count] == draws;
      SpawnedAway(draws, playerX);
    }

    /** collectStar(player, star) for the i-th star, which the overlap only
        reports while its body is enabled. The star is disabled, the score
        rises by ten and raises the high score when it passes it, the counter
        rises by one; a cleared wave is respawned and drops a bomb, and every
        even count drops one more. The random draws are consumed in order. */
    method CollectStar(i: int, playerX: real, draws: seq<BombDraw>)
      requires Valid() && Created()
      requires 0 <= i < NumStars && stars[i].active
      requires |draws| == 2 && DrawInRange(draws[0], playerX) && DrawInRange(draws[1], playerX)
      modifies this, stars
      ensures Valid() && Created() && stars == old(stars)
      ensures score == old(score) + ScorePerStar
      ensures highScore == if score > old(highScore) then score else old(highScore)
      ensures starsCollected == old(starsCollected) + 1
      ensures var cleared := old(stars[..])[i := old(stars[i]).(active := false)];
        && (CountActive(cleared) == 0 <==> starsCollected % NumStars == 0)
        && stars[..] == if CountActive(cleared) == 0 then Respawned(cleared) else cleared
      ensures bombs == old(bombs) + Spawned(draws[..BombsDue(starsCollected)])
      ensures player == old(player) && cursorsReady == old(cursorsReady)
      ensures gameOver == old(gameOver) && physicsPaused == old(physicsPaused)
    {
      ghost var c := starsCollected;
      ghost var before := stars[..];
      stars[i] := stars[i].(active := false);
      assert stars[..] == before[i := before[i].(active := false)];
      CollectOne(before, i, c);

      score := score + ScorePerStar;
      if score > highScore {
        highScore := score;
      }
      starsCollected := starsCollected + 1;

      WaveAndParityBombs(playerX, draws);
      SpawnedAt(draws[..BombsDue(starsCollected)]);
      RespawnedRefills(old(stars[..])[i := old(stars[i]).(active := false)]);
    }

    /** The tail of collectStar, once the counter has been raised: a wave
        with no active star left is respawned and drops one bomb, and an even
        counter drops one more; the draws are consumed in that order. */
    method WaveAndParityBombs(playerX: real, draws: seq<BombDraw>)
      requires 0 <= starsCollected
      requires CountActive(stars[..]) == 0 <==> starsCollected % NumStars == 0
      requires |draws| == 2 && DrawInRange(draws[0], playerX) && DrawInRange(draws[1], playerX)
      modifies this`bombs, stars
      ensures stars[..] == if CountActive(old(stars[..])) == 0 then Respawned(old(stars[..])) else old(stars[..])
      ensures bombs == old(bombs) + Spawned(draws[..BombsDue(starsCollected)])
    {
      var used := 0;
      if CountActive(stars[..]) == 0 {
        RespawnStars(stars);
        DropBombs(1, playerX, draws[..1]);
        used := 1;
      }
      if starsCollected % 2 == 0 {
        DropBombs(1, playerX, draws[used..used + 1]);
        assert draws[..used] + draws[used..used + 1] == draws[..used + 1];
        SpawnedAppend(draws[..used], draws[used..used + 1]);
      }
    }

    /** hitBomb(player, bomb): physics freezes, the death animation starts
        and the game is over. */
    method HitBomb()
      requires Valid() && player.Some?
      modifies this`physicsPaused, this`gameOver, this`player
      ensures Valid()
      ensures physicsPaused && gameOver
      ensures player == Some(Play(old(player).value, Die))
    {
      physicsPaused := true;
      player := Some(Play(player.value, Die));
      gameOver := true;
    }

    /** The engine finishes a playing clip that does not repeat: its key
        stays the current animation but is no longer playing, which is what
        update() then reads as isPlaying being false. */
    method ClipEnded()
      requires Valid() && player.Some?
      requires player.value.animPlaying && OneShot(player.value.anim)
      modifies this`player
      ensures Valid()
      ensures player == Some(old(player).value.(animPlaying := false))
    {
      player := Some(player.value.(animPlaying := false));
    }

    /** restartGame(), the path the "Try Again" prompt takes: score and
        counter go to zero, the scene is rebuilt; the high score and the
        game-over flag are left as they were. */
    method RestartGame()
      requires Valid()
      modifies this
      ensures Valid() && Created()
      ensures score == 0 && starsCollected == 0
      ensures highScore == old(highScore) && gameOver == old(gameOver)
      ensures player == Some(InitialPlayer()) && cursorsReady
      ensures fresh(stars) && stars[..] == InitialStars() && bombs == []
      ensures !physicsPaused
    {
      score := 0;
      starsCollected := 0;
      Create();
    }

    /** The SPACE listener hitBomb registers: a restart that also clears the
        game-over flag. */
    method OnSpaceKey()
      requires Valid()
      modifies this
      ensures Valid() && Created()
      ensures score == 0 && starsCollected == 0 && highScore == old(highScore)
      ensures !gameOver
      ensures player == Some(InitialPlayer()) && cursorsReady
      ensures fresh(stars) && stars[..] == InitialStars() && bombs == []
      ensures !physicsPaused
    {
      RestartGame();
      gameOver := false;
    }
  }

  /** Death followed by a click on "Try Again": the scene is rebuilt but the
      game stays over, so the next frame leaves the new player frozen. */
  method PointerRestartKeepsGameOver(s: GameScene, f: Frame)
    requires s.Valid() && s.player.Some?
    modifies s
    ensures s.Valid() && s.gameOver && s.score == 0
    ensures s.player == Some(InitialPlayer())
  {
    s.HitBomb();
    s.RestartGame();
    s.Update(f);
  }

  /** Death followed by SPACE: the scene is rebuilt and play resumes, so the
      next frame resolves the new player. */
  method SpaceRestartResumes(s: GameScene, f: Frame)
    requires s.Valid() && s.player.Some?
    modifies s
    ensures s.Valid() && !s.gameOver && s.score == 0
    ensures s.player == Some(Resolved(InitialPlayer(), f))
  {
    s.HitBomb();
    s.OnSpaceKey();
    s.Update(f);
  }

  /** A jump from the ground outlasts its clip: jumpUp (ten frames at five per
      second, no repeat) ends while the body is still in the air, and the
      next airborne frame without horizontal keys or down re-enters the jump
      and moves the offset from (45, 65) to the air offset (45, 55). */
  method LongJumpReentersJump(s: GameScene, air: Frame)
    requires s.Valid() && s.player.Some? && s.cursorsReady && !s.gameOver
    requires !air.grounded && !air.down && !air.left && !air.right
    modifies s
    ensures s.Valid() && s.player.Some?
    ensures s.player.value.anim == JumpUp && s.player.value.animPlaying
    ensures s.player.value.offX == 45 && s.player.value.offY == 55
  {
    s.Update(Frame(true, true, false, false, false));
    assert s.player.Some? && s.player.value.anim == JumpUp && s.player.value.offY == 65;
    s.ClipEnded();
    s.Update(air);
  }
}
