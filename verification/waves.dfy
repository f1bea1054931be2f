/** Stars, bombs and the bomb cadence: the star layout, counting active
    stars, the wave respawn, spawning bombs from random draws, and the number
    of bombs a run of collections drops. */
module Waves {
  import opened Entities

  /** The x of the i-th star of the row laid out by create. */
  function StarX(i: int): int
  {
    StarStartX + StarStepX * i
  }

  /** The twelve stars as create lays them out: all active, at the top. */
  function InitialStars(): seq<Star>
  {
    seq(NumStars, i => Star(StarX(i), 0, true))
  }

  /** Every star still sits at its column of the initial layout. */
  predicate LaidOut(s: seq<Star>)
  {
    |s| == NumStars && forall i :: 0 <= i < |s| ==> s[i].x == StarX(i)
  }

  /** The number of stars whose body is enabled (countActive(true)). */
  function CountActive(s: seq<Star>): (n: nat)
    ensures n <= |s|
  {
    if s == [] then 0 else (if s[0].active then 1 else 0) + CountActive(s[1..])
  }

  lemma {:induction false} CountActiveZero(s: seq<Star>)
    ensures CountActive(s) == 0 <==> forall i :: 0 <= i < |s| ==> !s[i].active
  {
    if s != [] {
      CountActiveZero(s[1..]);
      assert forall i :: 1 <= i < |s| ==> s[i] == s[1..][i - 1];
    }
  }

  lemma {:induction false} CountActiveFull(s: seq<Star>)
    ensures CountActive(s) == |s| <==> forall i :: 0 <= i < |s| ==> s[i].active
  {
    if s != [] {
      CountActiveFull(s[1..]);
      assert forall i :: 1 <= i < |s| ==> s[i] == s[1..][i - 1];
    }
  }

  /** Disabling one active star lowers the count by exactly one. */
  lemma {:induction false} CountActiveDisable(s: seq<Star>, i: int)
    requires 0 <= i < |s| && s[i].active
    ensures CountActive(s[i := s[i].(active := false)]) == CountActive(s) - 1
  {
    var t := s[i := s[i].(active := false)];
    if i == 0 {
      assert t[1..] == s[1..];
    } else {
      assert t[1..] == s[1..][i - 1 := s[i].(active := false)];
      CountActiveDisable(s[1..], i - 1);
    }
  }

  /** The initial layout has all twelve stars active. */
  lemma InitialStarsLaidOut()
    ensures LaidOut(InitialStars())
    ensures CountActive(InitialStars()) == NumStars
  {
    CountActiveFull(InitialStars());
  }

  /** Every star re-enabled at its own x and at the top (y = 0). */
  function Respawned(s: seq<Star>): seq<Star>
  {
    seq(|s|, i requires 0 <= i < |s| => Star(s[i].x, 0, true))
  }

  /** A wave respawn makes every star active again and keeps the layout. */
  lemma RespawnedRefills(s: seq<Star>)
    ensures |Respawned(s)| == |s| && CountActive(Respawned(s)) == |s|
    ensures LaidOut(s) ==> LaidOut(Respawned(s))
  {
    CountActiveFull(Respawned(s));
  }

  /** stars.children.iterate(child => child.enableBody(true, child.x, 0, true, true)),
      in place on the star array. */
  method RespawnStars(stars: array<Star>)
    modifies stars
    ensures stars[..] == Respawned(old(stars[..]))
  {
    for j := 0 to stars.Length
      invariant forall k :: 0 <= k < j ==> stars[k] == Star(old(stars[k]).x, 0, true)
      invariant forall k :: j <= k < stars.Length ==> stars[k] == old(stars[k])
    {
      stars[j] := Star(stars[j].x, 0, true);
    }
  }

  /** What Phaser.Math.Between may return for one bomb: an x in the half of
      the field away from the player (350..800 when the player is left of
      350, else 0..350, both inclusive) and a horizontal speed in -200..200. */
  predicate DrawInRange(d: BombDraw, playerX: real)
  {
    && (if playerX < FieldMid as real then FieldMid <= d.x <= FieldWidth else 0 <= d.x <= FieldMid)
    && -BombMaxSpeedX <= d.vx <= BombMaxSpeedX
  }

  /** The bomb created from one draw. */
  function SpawnBomb(d: BombDraw): Bomb
  {
    Bomb(d.x, BombSpawnY, BombBounce, true, d.vx, BombFallVelocity, false)
  }

  /** The bombs created, in order, from a run of draws. */
  function Spawned(ds: seq<BombDraw>): seq<Bomb>
  {
    if ds == [] then [] else Spawned(ds[..|ds| - 1]) + [SpawnBomb(ds[|ds| - 1])]
  }

  lemma {:induction false} SpawnedAt(ds: seq<BombDraw>)
    ensures |Spawned(ds)| == |ds|
    ensures forall k :: 0 <= k < |ds| ==> Spawned(ds)[k] == SpawnBomb(ds[k])
  {
    if ds != [] {
      SpawnedAt(ds[..|ds| - 1]);
    }
  }

  lemma {:induction false} SpawnedAppend(a: seq<BombDraw>, b: seq<BombDraw>)
    ensures Spawned(a + b) == Spawned(a) + Spawned(b)
  {
    if b == [] {
      assert a + b == a;
    } else {
      assert (a + b)[..|a + b| - 1] == a + b[..|b| - 1];
      SpawnedAppend(a, b[..|b| - 1]);
    }
  }

  /** A bomb as dropBombs leaves it for a player at playerX: on the other
      half of the field, 16 from the top, fully bouncy, bounded by the
      world, moving sideways at most 200 and down at 20, and with
      `allowGravity = false` set on the bomb sprite (not on its body). */
  predicate SpawnedAwayFrom(b: Bomb, playerX: real)
  {
    && (playerX < FieldMid as real ==> FieldMid <= b.x <= FieldWidth)
    && (playerX >= FieldMid as real ==> 0 <= b.x <= FieldMid)
    && b.y == BombSpawnY && b.bounce == BombBounce && b.collideWorldBounds
    && -BombMaxSpeedX <= b.vx <= BombMaxSpeedX && b.vy == BombFallVelocity
    && !b.allowGravity
  }

  /** Every bomb spawned from admissible draws is away from the player. */
  lemma SpawnedAway(ds: seq<BombDraw>, playerX: real)
    requires forall k :: 0 <= k < |ds| ==> DrawInRange(ds[k], playerX)
    ensures |Spawned(ds)| == |ds|
    ensures forall k :: 0 <= k < |ds| ==> SpawnedAwayFrom(Spawned(ds)[k], playerX)
  {
    SpawnedAt(ds);
  }

  /** Bombs dropped by the n-th collection of a run: one when it empties the
      wave (every twelfth), one more when n is even. */
  function BombsDue(n: nat): nat
  {
    (if n % NumStars == 0 then 1 else 0) + (if n % 2 == 0 then 1 else 0)
  }

  /** Bombs dropped in all by collections 1..n since the last (re)start. */
  function BombsAfter(n: nat): nat
  {
    if n == 0 then 0 else BombsAfter(n - 1) + BombsDue(n)
  }

  /** Collecting one active star from a laid-out row where c stars have been
      collected (so 12 - c % 12 are active): the row stays laid out, it is
      empty exactly when c + 1 is a multiple of twelve, and otherwise it has
      12 - (c + 1) % 12 active stars. */
  lemma CollectOne(s: seq<Star>, i: int, c: nat)
    requires LaidOut(s) && CountActive(s) == NumStars - c % NumStars
    requires 0 <= i < |s| && s[i].active
    ensures var t := s[i := s[i].(active := false)];
      && LaidOut(t)
      && (CountActive(t) == 0 <==> (c + 1) % NumStars == 0)
      && (CountActive(t) != 0 ==> CountActive(t) == NumStars - (c + 1) % NumStars)
  {
    CountActiveDisable(s, i);
    assert NumStars - c % NumStars - 1 == 0 <==> (c + 1) % NumStars == 0;
  }

  /** Closed form of the cadence: floor(n/2) parity bombs plus one bomb per
      full wave. */
  lemma {:induction false} BombsAfterClosedForm(n: nat)
    ensures BombsAfter(n) == n / 2 + n / NumStars
  {
    if n > 0 {
      BombsAfterClosedForm(n - 1);
      assert n / 2 == (n - 1) / 2 + (if n % 2 == 0 then 1 else 0);
      assert n / 12 == (n - 1) / 12 + (if n % 12 == 0 then 1 else 0);
    }
  }
}
