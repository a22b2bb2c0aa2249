/** The projectile demo of src/main.rs: a projectile whose position and velocity `tick`
    updates in place under an environment's gravity and wind, and the loop of `main` that
    ticks until the projectile is no longer above the ground. */
module Simulation {
  import Points
  import Vectors

  /** `Projectile`: updated in place by `tick`, so a class with the two fields. */
  class Projectile {
    var pos: Points.Point
    var vel: Vectors.Vector

    /** `Projectile::new(pos, vel)`. */
    constructor (pos: Points.Point, vel: Vectors.Vector)
      ensures Pos() == pos && Vel() == vel
    {
      this.pos := pos;
      this.vel := vel;
    }

    /** The accessor `pos()`. */
    function Pos(): Points.Point
      reads this
    {
      pos
    }

    /** The accessor `vel()`. */
    function Vel(): Vectors.Vector
      reads this
    {
      vel
    }
  }

  /** `Environment`: only ever read, so a value; the destructors are the accessors
      `gravity()` and `wind()`. */
  datatype Environment = Environment(gravity: Vectors.Vector, wind: Vectors.Vector)

  /** `Environment::new(gravity, wind)`: the accessors give back the two arguments. */
  function NewEnvironment(gravity: Vectors.Vector, wind: Vectors.Vector): (e: Environment)
    ensures e.gravity == gravity && e.wind == wind
  {
    Environment(gravity, wind)
  }

  /** `tick`: the position moves by the old velocity, then the velocity gains gravity and
      wind. The velocity update reads `vel`, which the position update did not touch. */
  method Tick(p: Projectile, env: Environment)
    modifies p
    ensures p.Pos() == Points.Add(old(p.Pos()), old(p.Vel()))
    ensures p.Vel() == Vectors.Plus(Vectors.Plus(old(p.Vel()), env.gravity), env.wind)
  {
    p.pos := Points.Add(p.Pos(), p.Vel());
    p.vel := Vectors.Plus(Vectors.Plus(p.Vel(), env.gravity), env.wind);
  }

  /** The values `main` starts from. */
  const START_POS: Points.Point := Points.New(0.0, 1.0, 0.0)
  const START_VEL: Vectors.Vector := Vectors.New(1.0, 1.0, 0.0)
  const GRAVITY: Vectors.Vector := Vectors.New(0.0, -0.1, 0.0)
  const WIND: Vectors.Vector := Vectors.New(-0.01, 0.0, 0.0)

  /** Under `main`'s environment, one velocity update lowers the vertical speed by exactly
      0.1, the horizontal speed by 0.01, and keeps the depth speed as it was. */
  lemma MainEnvironmentStep(vel: Vectors.Vector)
    ensures Vectors.Plus(Vectors.Plus(vel, GRAVITY), WIND)
         == Vectors.New(vel.x - 0.01, vel.y - 0.1, vel.z)
  {}

  /** Twenty times the height, and two hundred times the horizontal distance, after `n`
      ticks of `main`'s projectile. */
  function HeightTimes20(n: nat): int
  {
    20 + 21 * n - n * n
  }

  function DistanceTimes200(n: nat): int
  {
    201 * n - n * n
  }

  /** Closed form of `main`'s projectile after `n` ticks, in exact arithmetic. */
  function PosAfter(n: nat): Points.Point
  {
    Points.New(DistanceTimes200(n) as real / 200.0, HeightTimes20(n) as real / 20.0, 0.0)
  }

  function VelAfter(n: nat): Vectors.Vector
  {
    Vectors.New(1.0 - n as real / 100.0, 1.0 - n as real / 10.0, 0.0)
  }

  /** One `tick` under `main`'s environment takes the closed form after `n` ticks to the
      closed form after `n + 1`. */
  lemma TickFollowsClosedForm(n: nat)
    ensures Points.Add(PosAfter(n), VelAfter(n)) == PosAfter(n + 1)
    ensures Vectors.Plus(Vectors.Plus(VelAfter(n), GRAVITY), WIND) == VelAfter(n + 1)
  {
    assert HeightTimes20(n + 1) == HeightTimes20(n) + 20 - 2 * n;
    assert DistanceTimes200(n + 1) == DistanceTimes200(n) + 200 - 2 * n;
    MainEnvironmentStep(VelAfter(n));
  }

  /** The projectile is above the ground after exactly the first 22 ticks. */
  lemma AboveGroundUntil22(n: nat)
    ensures PosAfter(n).y > 0.0 <==> n <= 21
  {
    if n <= 21 {
      assert n * (21 - n) >= 0;
    } else {
      assert n * n >= 22 * n by {
        assert n * (n - 22) >= 0;
      }
    }
    assert HeightTimes20(n) > 0 <==> n <= 21;
  }

  /** The loop of `main`: tick while the height is positive. The result is the sequence of
      positions the loop looks at (those `main` prints): every one before the last is above
      the ground, the last is not, and in exact arithmetic it is reached after 22 ticks,
      every position following the closed form. */
  method Simulate() returns (path: seq<Points.Point>)
    ensures |path| == 23 && path[0] == START_POS
    ensures forall i :: 0 <= i < |path| ==> path[i] == PosAfter(i)
    ensures forall i :: 0 <= i < |path| - 1 ==> path[i].y > 0.0
    ensures path[|path| - 1].y <= 0.0
    ensures path[|path| - 1] == Points.New(19.69, -0.1, 0.0)
  {
    var p := new Projectile(START_POS, START_VEL);
    var e := NewEnvironment(GRAVITY, WIND);
    var ticks: nat := 0;
    path := [p.Pos()];
    var y := p.Pos().y;
    while y > 0.0
      invariant ticks <= 22
      invariant |path| == ticks + 1 && path[0] == START_POS && path[ticks] == p.pos
      invariant forall i :: 0 <= i <= ticks ==> path[i] == PosAfter(i)
      invariant forall i :: 0 <= i < ticks ==> path[i].y > 0.0
      invariant y == p.pos.y
      invariant p.pos == PosAfter(ticks) && p.vel == VelAfter(ticks)
      decreases 22 - ticks
    {
      AboveGroundUntil22(ticks);
      TickFollowsClosedForm(ticks);
      Tick(p, e);
      ticks := ticks + 1;
      y := p.Pos().y;
      path := path + [p.Pos()];
    }
    AboveGroundUntil22(ticks);
    assert PosAfter(22) == Points.New(19.69, -0.1, 0.0);
  }
}
