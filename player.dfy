/**
 * The bookkeeping of a player (library/player.c): its statistics, its three
 * cooldowns and its four power-up counters, and how ticking, eating,
 * being hit and respawning change them. The player's bodies are kept as the
 * list the hit test searches; rendering, sound, the score tag's text and the
 * velocity update of player_update_pu are not part of this model.
 */
module Players {
  import opened Bodies

  /** DEFAULT_DASH_CD, DEFAULT_PLAYER_COLLIDE_CD and DEFAULT_BULLET_CD. */
  const DashCooldown: real := 1.24
  const CollideCooldown: real := 0.1
  const BulletCooldown: real := 1.0
  /** CD_COLLISION_INITIAL: the collision cooldown a respawned player starts with. */
  const CollisionCooldownInitial: real := 3.0
  /** TICK_PERIODIC_DT: the period of the score tag refresh. */
  const PeriodicDt: real := 1.0
  /** CRITICAL_BODIES: a hit on one of the first this many bodies kills. */
  const CriticalBodies: nat := 5
  /** SCORE_KILL and SCORE_FOOD. */
  const ScoreKill: nat := 100
  const ScoreFood: nat := 10

  /** The four configured keys (st_left_key, st_right_key, st_boost_key, st_shoot_key). */
  datatype Keys = Keys(left: char, right: char, boost: char, shoot: char)

  /** player_moves_on_key: the key is one of the four configured keys. */
  predicate MovesOnKey(k: Keys, key: char)
  {
    key == k.left || key == k.right || key == k.boost || key == k.shoot
  }

  /**
   * Players configured with no key in common never react to the same key,
   * so a key press drives at most one of them.
   */
  lemma DisjointKeysNotShared(k1: Keys, k2: Keys, key: char)
    requires {k1.left, k1.right, k1.boost, k1.shoot} !! {k2.left, k2.right, k2.boost, k2.shoot}
    ensures !(MovesOnKey(k1, key) && MovesOnKey(k2, key))
  {
  }

  /** The power-up counters pu_base_speed, pu_bullet_speed, pu_rotate_rate and pu_dash_boost. */
  datatype PowerUps = PowerUps(baseSpeed: nat, bulletSpeed: nat, rotateRate: nat, dashBoost: nat)

  /** The sum of the counters: how many power-ups the player holds. */
  function Held(p: PowerUps): nat
  {
    p.baseSpeed + p.bulletSpeed + p.rotateRate + p.dashBoost
  }

  /** The food tags that grant a power-up. */
  predicate IsPowerUp(tag: string)
  {
    tag == "pu_base_speed" || tag == "pu_bullet_speed" || tag == "pu_rotate_rate" || tag == "pu_dash_boost"
  }

  /**
   * The counters after eating food of the given power-up tag: exactly the
   * counter the tag names grows by one; an unknown tag changes none.
   */
  function Boosted(p: PowerUps, tag: string): (r: PowerUps)
    ensures r.baseSpeed == p.baseSpeed + (if tag == "pu_base_speed" then 1 else 0)
    ensures r.bulletSpeed == p.bulletSpeed + (if tag == "pu_bullet_speed" then 1 else 0)
    ensures r.rotateRate == p.rotateRate + (if tag == "pu_rotate_rate" then 1 else 0)
    ensures r.dashBoost == p.dashBoost + (if tag == "pu_dash_boost" then 1 else 0)
    ensures Held(r) == Held(p) + (if IsPowerUp(tag) then 1 else 0)
  {
    if tag == "pu_base_speed" then p.(baseSpeed := p.baseSpeed + 1)
    else if tag == "pu_bullet_speed" then p.(bulletSpeed := p.bulletSpeed + 1)
    else if tag == "pu_rotate_rate" then p.(rotateRate := p.rotateRate + 1)
    else if tag == "pu_dash_boost" then p.(dashBoost := p.dashBoost + 1)
    else p
  }

  /**
   * A cooldown after a tick of dt: it drops by dt and is clamped at zero.
   * The result is never negative, and it is zero (the action is ready)
   * exactly when dt covered what was left.
   */
  function Cooled(c: real, dt: real): (r: real)
    ensures r >= 0.0
    ensures r == 0.0 <==> c <= dt
    ensures r > 0.0 ==> r == c - dt
  {
    if c - dt < 0.0 then 0.0 else c - dt
  }

  /** Two ticks of a and b cool a cooldown as far as one tick of a + b. */
  lemma CooledTwice(c: real, a: real, b: real)
    requires a >= 0.0 && b >= 0.0
    ensures Cooled(Cooled(c, a), b) == Cooled(c, a + b)
  {
    if c - a < 0.0 {
      assert Cooled(c, a) == 0.0;
      assert c - (a + b) < 0.0;
    }
  }

  /** The fields of player_t that the bookkeeping reads and writes. */
  datatype PlayerState = PlayerState(
    aliveTime: real,
    periodicTick: real,
    kills: nat,
    food: nat,
    dying: bool,
    cdDash: real,
    cdShoot: real,
    cdCollide: real,
    powerUps: PowerUps)

  /** The number player_get_score prints: 100 per kill and 10 per food. */
  function Score(s: PlayerState): nat
  {
    ScoreKill * s.kills + ScoreFood * s.food
  }

  /**
   * player_tick: the alive time and the periodic counter grow by dt; the
   * counter falls back to zero once it passes the period, so it never
   * exceeds it afterwards; each cooldown cools by dt. Kills, food, the dying
   * flag and the power-ups are kept.
   */
  function Ticked(s: PlayerState, dt: real): (r: PlayerState)
    ensures r.aliveTime == s.aliveTime + dt
    ensures r.periodicTick <= PeriodicDt
    ensures r.periodicTick == 0.0 <==> s.periodicTick + dt > PeriodicDt || s.periodicTick + dt == 0.0
    ensures r.periodicTick != 0.0 ==> r.periodicTick == s.periodicTick + dt
    ensures r.cdDash >= 0.0 && r.cdShoot >= 0.0 && r.cdCollide >= 0.0
    ensures (r.cdDash == 0.0 <==> s.cdDash <= dt) && (r.cdShoot == 0.0 <==> s.cdShoot <= dt)
    ensures r.cdCollide == 0.0 <==> s.cdCollide <= dt
    ensures r.kills == s.kills && r.food == s.food && r.dying == s.dying && r.powerUps == s.powerUps
    ensures Score(r) == Score(s)
  {
    var periodic := s.periodicTick + dt;
    s.(aliveTime := s.aliveTime + dt,
       periodicTick := if periodic > PeriodicDt then 0.0 else periodic,
       cdDash := Cooled(s.cdDash, dt),
       cdShoot := Cooled(s.cdShoot, dt),
       cdCollide := Cooled(s.cdCollide, dt))
  }

  /**
   * player_respawn: the score, the dash cooldown and the power-ups return
   * to zero, the collision cooldown to its initial value, and the player is
   * no longer dying; the alive time, the periodic counter and the shooting
   * cooldown are kept.
   */
  function Respawned(s: PlayerState): (r: PlayerState)
    ensures Score(r) == 0 && Held(r.powerUps) == 0
    ensures !r.dying && r.cdDash == 0.0 && r.cdCollide == CollisionCooldownInitial
    ensures r.aliveTime == s.aliveTime && r.periodicTick == s.periodicTick && r.cdShoot == s.cdShoot
  {
    s.(kills := 0, food := 0, cdDash := 0.0, cdCollide := CollisionCooldownInitial,
       powerUps := PowerUps(0, 0, 0, 0), dying := false)
  }

  /**
   * player_eat: a body whose info tag is not "food" changes nothing; food
   * adds one to the food count, so ten to the score, and one to the
   * power-up counter its second tag names.
   */
  function Ate(s: PlayerState, bodyTag: string, powerUpTag: string): (r: PlayerState)
    ensures bodyTag != "food" ==> r == s
    ensures bodyTag == "food" ==> r.food == s.food + 1 && Score(r) == Score(s) + ScoreFood
    ensures bodyTag == "food" ==> r.powerUps == Boosted(s.powerUps, powerUpTag)
    ensures bodyTag == "food" ==> Held(r.powerUps) == Held(s.powerUps) + (if IsPowerUp(powerUpTag) then 1 else 0)
    ensures r.kills == s.kills && r.dying == s.dying && r.aliveTime == s.aliveTime
    ensures r.cdDash == s.cdDash && r.cdShoot == s.cdShoot && r.cdCollide == s.cdCollide
  {
    if bodyTag != "food" then s
    else s.(food := s.food + 1, powerUps := Boosted(s.powerUps, powerUpTag))
  }

  /**
   * The index player_hit finds for the body hit: the last position of the
   * body in the list, or 0 when the body is not there.
   */
  function HitIndex(bs: seq<Body>, body: Body): (i: nat)
    ensures body in bs ==> i < |bs| && bs[i] == body && forall j :: i < j < |bs| ==> bs[j] != body
    ensures body !in bs ==> i == 0
  {
    if bs == [] then 0
    else if bs[|bs| - 1] == body then |bs| - 1
    else HitIndex(bs[..|bs| - 1], body)
  }

  /** Whether a hit on `body` kills the player whose bodies are `bs`. */
  predicate Critical(bs: seq<Body>, body: Body)
  {
    HitIndex(bs, body) <= CriticalBodies - 1
  }

  /**
   * A hit kills exactly when the body is not one of the player's, or its
   * last occurrence is among the first CRITICAL_BODIES bodies.
   */
  lemma CriticalIff(bs: seq<Body>, body: Body)
    ensures Critical(bs, body) <==>
              body !in bs || exists i :: 0 <= i < CriticalBodies && i < |bs| && bs[i] == body && forall j :: i < j < |bs| ==> bs[j] != body
  {
    if body in bs && !Critical(bs, body) {
      forall i | 0 <= i < CriticalBodies && i < |bs| && bs[i] == body
        ensures exists j :: i < j < |bs| && bs[j] == body
      {
        assert i < HitIndex(bs, body);
      }
    }
  }

  /** The search loop of player_hit: the last index of `body` in `bs`, 0 when absent. */
  method FindHitIndex(bs: seq<Body>, body: Body) returns (index: nat)
    ensures index == HitIndex(bs, body)
  {
    index := 0;
    var i := 0;
    while i < |bs|
      invariant 0 <= i <= |bs|
      invariant index == HitIndex(bs[..i], body)
    {
      assert bs[..i + 1][..i] == bs[..i];
      if bs[i] == body {
        index := i;
      }
      i := i + 1;
    }
    assert bs[..|bs|] == bs;
  }

  class Player {
    var keys: Keys
    /** meta_bodies: the head first, then the tail segments. */
    var bodies: seq<Body>
    var aliveTime: real
    var periodicTick: real
    var kills: nat
    var food: nat
    var dying: bool
    var cdDash: real
    var cdShoot: real
    var cdCollide: real
    var powerUps: PowerUps

    ghost function State(): PlayerState
      reads this
    {
      PlayerState(aliveTime, periodicTick, kills, food, dying, cdDash, cdShoot, cdCollide, powerUps)
    }

    /** player_tick, without the refresh of the score tag. */
    method Tick(dt: real)
      modifies this
      ensures State() == Ticked(old(State()), dt)
      ensures keys == old(keys) && bodies == old(bodies)
    {
      periodicTick := periodicTick + dt;
      if periodicTick > PeriodicDt {
        periodicTick := 0.0;
      }
      aliveTime := aliveTime + dt;
      cdDash := cdDash - dt;
      cdShoot := cdShoot - dt;
      cdCollide := cdCollide - dt;
      if cdDash < 0.0 {
        cdDash := 0.0;
      }
      if cdShoot < 0.0 {
        cdShoot := 0.0;
      }
      if cdCollide < 0.0 {
        cdCollide := 0.0;
      }
    }

    /** player_refresh_cd_collide_player: the collision cooldown restarts. */
    method RefreshCollideCooldown()
      modifies this
      ensures State() == old(State()).(cdCollide := CollideCooldown)
      ensures keys == old(keys) && bodies == old(bodies)
    {
      cdCollide := CollideCooldown;
    }

    /** player_refresh_cd_dash: the dash cooldown restarts. */
    method RefreshDashCooldown()
      modifies this
      ensures State() == old(State()).(cdDash := DashCooldown)
      ensures keys == old(keys) && bodies == old(bodies)
    {
      cdDash := DashCooldown;
    }

    /** player_refresh_cd_bullet: the shooting cooldown restarts. */
    method RefreshBulletCooldown()
      modifies this
      ensures State() == old(State()).(cdShoot := BulletCooldown)
      ensures keys == old(keys) && bodies == old(bodies)
    {
      cdShoot := BulletCooldown;
    }

    /** player_eat, on the two tags of the food body's info list. */
    method Eat(bodyTag: string, powerUpTag: string)
      modifies this
      ensures State() == Ate(old(State()), bodyTag, powerUpTag)
      ensures keys == old(keys) && bodies == old(bodies)
    {
      if bodyTag != "food" {
        return;
      }
      food := food + 1;
      if powerUpTag == "pu_base_speed" {
        powerUps := powerUps.(baseSpeed := powerUps.baseSpeed + 1);
      } else if powerUpTag == "pu_bullet_speed" {
        powerUps := powerUps.(bulletSpeed := powerUps.bulletSpeed + 1);
      } else if powerUpTag == "pu_rotate_rate" {
        powerUps := powerUps.(rotateRate := powerUps.rotateRate + 1);
      } else if powerUpTag == "pu_dash_boost" {
        powerUps := powerUps.(dashBoost := powerUps.dashBoost + 1);
      }
    }

    /**
     * player_respawn, on the player's fields: the statistics it resets.
     * Moving the head bodies to random spawn points and dropping the tail
     * bodies from the list and the scene are not part of this model, so
     * nothing is stated about `bodies`.
     */
    method Respawn()
      modifies this
      ensures State() == Respawned(old(State()))
      ensures keys == old(keys)
    {
      kills := 0;
      food := 0;
      cdDash := 0.0;
      cdCollide := CollisionCooldownInitial;
      powerUps := PowerUps(0, 0, 0, 0);
      dying := false;
    }
  }

  /**
   * player_hit, its statistics: a critical hit on the prey marks it dying
   * and credits the predator with one kill and leaves the body lists as they
   * were; any other hit changes neither statistic. No other statistic,
   * cooldown, power-up counter or key of either player changes. A hit on the tail also
   * drops tail bodies from the prey's list and the scene; that removal is
   * not part of this model, so nothing is stated about the lists then.
   * The two players may be the same one.
   */
  method Hit(predator: Player, prey: Player, body: Body)
    modifies predator, prey
    ensures Critical(old(prey.bodies), body) ==> prey.dying && predator.kills == old(predator.kills) + 1
    ensures !Critical(old(prey.bodies), body) ==> prey.dying == old(prey.dying) && predator.kills == old(predator.kills)
    ensures Critical(old(prey.bodies), body) ==> prey.bodies == old(prey.bodies) && predator.bodies == old(predator.bodies)
    ensures predator != prey ==> predator.State() == old(predator.State()).(kills := predator.kills)
    ensures predator != prey ==> prey.State() == old(prey.State()).(dying := prey.dying)
    ensures predator == prey ==> prey.State() == old(prey.State()).(kills := prey.kills, dying := prey.dying)
    ensures predator.keys == old(predator.keys) && prey.keys == old(prey.keys)
  {
    var index := FindHitIndex(prey.bodies, body);
    if index <= CriticalBodies - 1 {
      prey.dying := true;
      predator.kills := predator.kills + 1;
    }
  }
}
