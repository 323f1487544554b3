/**
 * `Meteor` of built/meteor.js, the compiled copy of an older meteor. It differs
 * from src/meteor.ts in two places: the radius is drawn from 10 to 19, and
 * the `collide` listener recognises the player as either body of the
 * contact. Spawn geometry and `update` are the same and come from
 * `Meteors`.
 */
module BuiltMeteors {
  import opened Base
  import M = Meteors

  /** `Math.floor(Math.random() * 10 + 10)`. */
  function Radius(size: real): int {
    Floor(size * 10.0 + 10.0)
  }

  lemma RadiusRange(size: real)
    requires 0.0 <= size < 1.0
    ensures 10 <= Radius(size) <= 19
  {
  }

  /** The `collide` listener: any contact crashes the meteor; it hit the player if the player is either body. */
  function Collided(s: M.MeteorState, c: Contact, player: BodyId): M.MeteorState {
    s.(crash := true, hitPlayer := s.hitPlayer || c.bi == player || c.bj == player)
  }

  /**
   * The hit is registered whichever way round the engine lists the two
   * bodies, and only when the player is one of them; the crash always is.
   */
  lemma CollideSymmetric(s: M.MeteorState, c: Contact, player: BodyId)
    ensures Collided(s, Contact(c.bj, c.bi, c.ni.Negated()), player) == Collided(s, c, player)
    ensures var n := Collided(s, c, player);
      n.crash && (n.hitPlayer <==> s.hitPlayer || c.bi == player || c.bj == player) && M.Consistent(n)
  {
  }

  /** Where src/meteor.ts misses a hit (the player listed as `bi`), this listener registers it. */
  lemma PlayerAsBiRegistered(s: M.MeteorState, meteor: BodyId, player: BodyId, ni: Vec3)
    ensures Collided(s, Contact(player, meteor, ni), player).hitPlayer
  {
  }

  class Meteor {
    const radius: int
    const start: Vec3
    const target: Vec3
    /** The mesh's orientation, fixed by `lookAt(target)` at creation. */
    const heading: Quat
    /** `_params.playerBody.id`. */
    const playerId: BodyId
    var crash: bool
    var hitPlayer: bool
    var bodyInWorld: bool
    var meshInScene: bool
    var bodyPos: Vec3
    var bodyVel: Vec3
    var meshPos: Vec3

    function State(): M.MeteorState
      reads this
    {
      M.MeteorState(crash, hitPlayer, bodyInWorld, meshInScene, bodyPos, bodyVel, meshPos)
    }

    ghost predicate Valid()
      reads this
    {
      M.Consistent(State())
    }

    /** `_Init`: as in src/meteor.ts but with the radius drawn from 10 to 19. */
    constructor (d: M.Draws, heading: Quat, playerId: BodyId)
      requires d.norm > 0.0
      ensures Valid() && !crash && !hitPlayer && bodyInWorld && meshInScene
      ensures radius == Radius(d.size) && start == M.Start(d) && target == M.Target(d, radius)
      ensures meshPos == start && bodyPos == start && bodyVel == Zero
      ensures this.heading == heading && this.playerId == playerId
    {
      hitPlayer := false;
      crash := false;
      var rad := Floor(d.size * 10.0 + 10.0);
      radius := rad;
      var p := Vec3(800.0 * d.x / d.norm, 800.0 * d.y / d.norm, 800.0 * d.z / d.norm);
      start := p;
      var r := 75.0 * d.ring;
      target := Vec3(r * d.cos, rad as real, r * d.sin);
      this.heading := heading;
      this.playerId := playerId;
      meshPos := p;
      meshInScene := true;
      bodyPos := meshPos;
      bodyVel := Zero;
      bodyInWorld := true;
    }

    /** The body's `collide` listener. */
    method OnCollide(c: Contact)
      requires Valid()
      modifies this
      ensures Valid() && State() == Collided(old(State()), c, playerId)
    {
      crash := true;
      if c.bi == playerId || c.bj == playerId {
        hitPlayer := true;
      }
    }

    method Delete()
      modifies this
      ensures State() == M.Deleted(old(State()))
    {
      bodyInWorld := false;
      meshInScene := false;
    }

    method Update(rotate: Rotation)
      requires Valid()
      modifies this
      ensures Valid() && State() == M.Updated(old(State()), heading, rotate)
    {
      if bodyPos.y < M.FloorY {
        crash := true;
      }
      if crash {
        Delete();
        return;
      }
      bodyVel := rotate(heading, Vec3(0.0, 0.0, 200.0));
      meshPos := bodyPos;
    }
  }
}
