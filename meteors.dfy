/**
 * `Meteor` of src/meteor.ts: a sphere spawned on a hemisphere of radius 800
 * around the island, aimed at a random point of the island, flying at speed
 * 200 along its mesh's heading until it touches anything or falls below
 * y = -250.
 *
 * `Math.random`, `Math.sqrt`, `Math.cos` and `Math.sin` are drawn by the
 * caller and passed in as a `Draws` record; `mesh.lookAt(target)` gives an
 * orientation passed in as a quaternion, and `applyQuaternion` is a
 * `Rotation` parameter.
 */
module Meteors {
  import opened Base

  /**
   * The random values `_Init` consumes: the radius draw, the direction
   * `(x, y, z)` with its length `norm` (the `Math.sqrt`), the distance
   * `ring` from the island's centre divided by 75 (the `Math.sqrt` of a
   * draw), and the cosine and sine of the random angle.
   */
  datatype Draws = Draws(size: real, x: real, y: real, z: real, norm: real, ring: real, cos: real, sin: real)

  /** What `Math.random` and the `Math` functions guarantee about those values. */
  predicate Drawn(d: Draws) {
    0.0 <= d.size < 1.0 &&
    -0.5 <= d.x < 0.5 && 0.2 <= d.y < 1.0 && -0.5 <= d.z < 0.5 &&
    d.norm > 0.0 && d.norm * d.norm == d.x * d.x + d.y * d.y + d.z * d.z &&
    0.0 <= d.ring < 1.0 && d.cos * d.cos + d.sin * d.sin == 1.0
  }

  /** `Math.floor(Math.random() * 10 + 5)`. */
  function Radius(size: real): int {
    Floor(size * 10.0 + 5.0)
  }

  lemma RadiusRange(size: real)
    requires 0.0 <= size < 1.0
    ensures 5 <= Radius(size) <= 14
  {
  }

  /** The spawn point: the direction scaled to length 800. */
  function Start(d: Draws): Vec3
    requires d.norm > 0.0
  {
    Vec3(800.0 * d.x / d.norm, 800.0 * d.y / d.norm, 800.0 * d.z / d.norm)
  }

  function Length2(v: Vec3): real {
    v.x * v.x + v.y * v.y + v.z * v.z
  }

  /** Meteors start 800 from the island's centre, above the horizon. */
  lemma {:induction false} StartOnHemisphere(d: Draws)
    requires Drawn(d)
    ensures Length2(Start(d)) == 640000.0 && Start(d).y > 0.0
  {
    var k := 800.0 / d.norm;
    Quotient(800.0, k, d.norm);
    ScaledQuotient(d.x, d.norm);
    ScaledQuotient(d.y, d.norm);
    ScaledQuotient(d.z, d.norm);
    assert Start(d) == Vec3(d.x, d.y, d.z).Scaled(k);
    ScaledLength(Vec3(d.x, d.y, d.z), k);
    assert Length2(Vec3(d.x, d.y, d.z)) == d.norm * d.norm;
    Product(k, d.norm, 800.0);
    Positive(k, d.y);
  }

  /** `800 * x / n` is `x` scaled by `800 / n`. */
  lemma ScaledQuotient(x: real, n: real)
    requires n != 0.0
    ensures 800.0 * x / n == (800.0 / n) * x
  {
  }

  lemma ScaledLength(v: Vec3, k: real)
    ensures Length2(v.Scaled(k)) == (k * k) * Length2(v)
  {
  }

  lemma Product(q: real, n: real, a: real)
    requires q * n == a
    ensures a * a == (q * q) * (n * n)
  {
  }

  lemma Quotient(t: real, q: real, d: real)
    requires d != 0.0
    ensures t == q * d <==> t / d == q
  {
  }

  lemma Positive(a: real, b: real)
    requires a > 0.0 && b > 0.0
    ensures a * b > 0.0
  {
  }

  lemma Nonnegative(a: real, b: real)
    requires a >= 0.0 && b >= 0.0
    ensures a * b >= 0.0
  {
  }

  /** The aim point: on the island, `75 * ring` from the centre, at the meteor's own radius. */
  function Target(d: Draws, radius: int): Vec3 {
    var r := 75.0 * d.ring;
    Vec3(r * d.cos, radius as real, r * d.sin)
  }

  /** The aim point lies within the disc of radius 75 at height `radius`. */
  lemma {:induction false} TargetOnIsland(d: Draws, radius: int)
    requires Drawn(d)
    ensures var t := Target(d, radius); t.x * t.x + t.z * t.z < 5625.0 && t.y == radius as real
  {
    var r := 75.0 * d.ring;
    var t := Target(d, radius);
    assert t.x * t.x + t.z * t.z == r * r * (d.cos * d.cos + d.sin * d.sin);
    assert r * r * (d.cos * d.cos + d.sin * d.sin) == r * r;
    assert r * r < 5625.0 by {
      Nonnegative(r, 75.0 - r);
      Positive(75.0, 75.0 - r);
      assert r * (75.0 - r) >= 0.0;
    }
  }

  /** The flags and physical state of a meteor. */
  datatype MeteorState = MeteorState(
    crash: bool, hitPlayer: bool, bodyInWorld: bool, meshInScene: bool,
    bodyPos: Vec3, bodyVel: Vec3, meshPos: Vec3)

  /** The speed along the mesh's heading. */
  const Cruise: Vec3 := Vec3(0.0, 0.0, 200.0)

  /** Below this height a meteor counts as crashed. */
  const FloorY: real := -250.0

  /** `delete`: the body leaves the physics world and the mesh the scene. */
  function Deleted(s: MeteorState): MeteorState {
    s.(bodyInWorld := false, meshInScene := false)
  }

  /**
   * `update`: a meteor below the floor crashes; a crashed meteor is
   * deleted and nothing else happens; otherwise its velocity is reset to
   * 200 along its heading and the mesh is moved to the body.
   */
  function Updated(s: MeteorState, heading: Quat, rotate: Rotation): MeteorState {
    var crash := s.crash || s.bodyPos.y < FloorY;
    if crash then Deleted(s.(crash := true))
    else s.(bodyVel := rotate(heading, Cruise), meshPos := s.bodyPos)
  }

  /** The `collide` listener: any contact crashes the meteor; it hit the player if the player is `bj`. */
  function Collided(s: MeteorState, c: Contact, player: BodyId): MeteorState {
    s.(crash := true, hitPlayer := s.hitPlayer || c.bj == player)
  }

  /** A meteor that hit the player has crashed. */
  predicate Consistent(s: MeteorState) {
    s.hitPlayer ==> s.crash
  }

  /**
   * `update` keeps `hitPlayer`, never clears `crash`, removes a crashed
   * meteor from world and scene, and otherwise leaves it flying at the
   * cruise velocity with the mesh on the body. It keeps `Consistent`.
   */
  lemma UpdateRule(s: MeteorState, heading: Quat, rotate: Rotation)
    ensures var n := Updated(s, heading, rotate);
      n.hitPlayer == s.hitPlayer && n.bodyPos == s.bodyPos &&
      (n.crash <==> s.crash || s.bodyPos.y < -250.0) &&
      (n.crash ==> !n.bodyInWorld && !n.meshInScene) &&
      (!n.crash ==>
         n.bodyVel == rotate(heading, Cruise) && n.meshPos == s.bodyPos &&
         n.bodyInWorld == s.bodyInWorld && n.meshInScene == s.meshInScene) &&
      (Consistent(s) ==> Consistent(n))
  {
  }

  /** With the physics not stepped in between, a second `update` changes nothing. */
  lemma UpdateIdempotent(s: MeteorState, heading: Quat, rotate: Rotation)
    ensures Updated(Updated(s, heading, rotate), heading, rotate) == Updated(s, heading, rotate)
  {
  }

  /** A contact always crashes the meteor, and keeps `Consistent`. */
  lemma CollideRule(s: MeteorState, c: Contact, player: BodyId)
    ensures var n := Collided(s, c, player);
      n.crash && (n.hitPlayer <==> s.hitPlayer || c.bj == player) && Consistent(n)
      && n.bodyPos == s.bodyPos && n.bodyInWorld == s.bodyInWorld
  {
  }

  /**
   * The listener only recognises the player when the engine lists the
   * player as `bj`: a contact with the player as `bi` crashes the meteor
   * without registering the hit.
   */
  lemma PlayerAsBiMissed(s: MeteorState, meteor: BodyId, player: BodyId, ni: Vec3)
    requires meteor != player && !s.hitPlayer
    ensures var n := Collided(s, Contact(player, meteor, ni), player); n.crash && !n.hitPlayer
  {
  }

  class Meteor {
    const radius: int
    const start: Vec3
    const target: Vec3
    /** The mesh's orientation, fixed by `lookAt(target)` at creation. */
    const heading: Quat
    /** `_params.playerBody.id`. */
    const playerId: BodyId
    var crash: bool
    var hitPlayer: bool
    var bodyInWorld: bool
    var meshInScene: bool
    var bodyPos: Vec3
    var bodyVel: Vec3
    var meshPos: Vec3

    function State(): MeteorState
      reads this
    {
      MeteorState(crash, hitPlayer, bodyInWorld, meshInScene, bodyPos, bodyVel, meshPos)
    }

    ghost predicate Valid()
      reads this
    {
      Consistent(State())
    }

    /**
     * `_Init`: neither crashed nor hit, radius from the draw, mesh and body
     * at the start point facing the target, both added to scene and world.
     */
    constructor (d: Draws, heading: Quat, playerId: BodyId)
      requires d.norm > 0.0
      ensures Valid() && !crash && !hitPlayer && bodyInWorld && meshInScene
      ensures radius == Radius(d.size) && start == Start(d) && target == Target(d, radius)
      ensures meshPos == start && bodyPos == start && bodyVel == Zero
      ensures this.heading == heading && this.playerId == playerId
    {
      hitPlayer := false;
      crash := false;
      var rad := Floor(d.size * 10.0 + 5.0);
      radius := rad;
      var p := Vec3(800.0 * d.x / d.norm, 800.0 * d.y / d.norm, 800.0 * d.z / d.norm);
      start := p;
      var r := 75.0 * d.ring;
      target := Vec3(r * d.cos, rad as real, r * d.sin);
      this.heading := heading;
      this.playerId := playerId;
      meshPos := p;
      meshInScene := true;
      bodyPos := meshPos;
      bodyVel := Zero;
      bodyInWorld := true;
    }

    /** The body's `collide` listener. */
    method OnCollide(c: Contact)
      requires Valid()
      modifies this
      ensures Valid() && State() == Collided(old(State()), c, playerId)
    {
      crash := true;
      if c.bj == playerId {
        hitPlayer := true;
      }
    }

    method Delete()
      modifies this
      ensures State() == Deleted(old(State()))
    {
      bodyInWorld := false;
      meshInScene := false;
    }

    method Update(rotate: Rotation)
      requires Valid()
      modifies this
      ensures Valid() && State() == Updated(old(State()), heading, rotate)
    {
      if bodyPos.y < FloorY {
        crash := true;
      }
      if crash {
        Delete();
        return;
      }
      bodyVel := rotate(heading, Vec3(0.0, 0.0, 200.0));
      meshPos := bodyPos;
    }
  }
}
