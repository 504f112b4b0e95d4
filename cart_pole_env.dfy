/**
 * The cart-pole environment: fixed physical constants, the one stored
 * snapshot, and the two operations that replace it (step and reset).
 * Numbers are reals; the trigonometric functions are supplied at
 * construction and only known to lie in [-1, 1].
 */
module Env {
  import opened EnvStatus

  /** The range of cosine and sine. */
  type UnitReal = r: real | -1.0 <= r <= 1.0

  /** A value in [-1, 1], such as a cosine, has its square in [0, 1]. */
  lemma SquareBounds(c: real)
    requires -1.0 <= c <= 1.0
    ensures 0.0 <= c * c <= 1.0
  {
    if c >= 0.0 {
      assert c * c <= c * 1.0;
    } else {
      assert c * c <= (-c) * 1.0;
    }
  }

  /** Multiplying by a positive number keeps the sign. */
  lemma ProductSign(u: real, d: real)
    requires d > 0.0
    ensures u * d < 0.0 <==> u < 0.0
    ensures u * d > 0.0 <==> u > 0.0
  {
    if u > 0.0 {
      assert u * d > 0.0;
    } else if u < 0.0 {
      assert (-u) * d > 0.0;
    }
  }

  class CartPoleEnv {
    const pi: real
    const gravity: real
    const masspole: real
    const totalMass: real
    const length: real
    const polemassLength: real
    const forceMag: real
    const tau: real
    const thetaThresholdRadians: real
    const xThreshold: real
    const actionSpace: int
    const observationSpace: int

    /** The trigonometric functions the integration calls. */
    const cos: real -> UnitReal
    const sin: real -> UnitReal

    /** The one snapshot the environment holds and hands out. */
    var state: Status

    /** The constants have the values the constructor gives them. */
    ghost predicate Valid() {
      && pi == 3.141592653589793
      && gravity == 9.8
      && masspole == 0.1
      && totalMass == masspole + 1.0
      && length == 0.5
      && polemassLength == masspole * length
      && forceMag == 10.0
      && tau == 0.02
      && thetaThresholdRadians == 12.0 * 2.0 * pi / 360.0
      && xThreshold == 2.4
      && actionSpace == 2
      && observationSpace == 4
    }

    /** A fresh environment holds the placeholder snapshot until its first reset. */
    constructor (cos: real -> UnitReal, sin: real -> UnitReal)
      ensures Valid()
      ensures this.cos == cos && this.sin == sin
      ensures state == Placeholder
    {
      var masscart := 1.0;
      var masspole := 0.1;
      var length := 0.5;
      var pi := 3.141592653589793;
      this.cos := cos;
      this.sin := sin;
      this.pi := pi;
      this.gravity := 9.8;
      this.masspole := masspole;
      this.totalMass := masspole + masscart;
      this.length := length;
      this.polemassLength := masspole * length;
      this.forceMag := 10.0;
      this.tau := 0.02;
      this.thetaThresholdRadians := 12.0 * 2.0 * pi / 360.0;
      this.xThreshold := 2.4;
      this.actionSpace := 2;
      this.observationSpace := 4;
      this.state := Placeholder;
    }

    /** The number of discrete actions (push left, push right). */
    function GetActionSpace(): (n: int)
      requires Valid()
      ensures n == 2
    {
      actionSpace
    }

    /** The number of observed values (x, xDot, theta, thetaDot). */
    function GetObservationSpace(): (n: int)
      requires Valid()
      ensures n == 4
    {
      observationSpace
    }

    /** The derived constants and the thresholds. */
    lemma DerivedConstants()
      requires Valid()
      ensures totalMass == 1.1 && polemassLength == 0.05 && xThreshold == 2.4
      ensures thetaThresholdRadians == pi / 15.0
      ensures 0.2094 < thetaThresholdRadians < 0.2095
    {
    }

    /** The signed force: right for action 1, left for every other integer. */
    function Force(action: int): (f: real)
      requires Valid()
      ensures f == 10.0 <==> action == 1
      ensures f == -10.0 <==> action != 1
    {
      if action == 1 then forceMag else -forceMag
    }

    /** The divisor of the angular acceleration. */
    function Divisor(costheta: real): (d: real)
      requires Valid()
    {
      length * (4.0 / 3.0 - masspole * costheta * costheta / totalMass)
    }

    /** For every cosine the divisor is bounded away from zero, so the angular acceleration is defined. */
    lemma DivisorBounds(costheta: UnitReal)
      requires Valid()
      ensures 41.0 / 66.0 <= Divisor(costheta) <= 2.0 / 3.0
    {
      SquareBounds(costheta);
    }

    /** The force term shared by both accelerations, per unit of total mass. */
    function Tmp(force: real, theta: real, thetaDot: real): (t: real)
      requires Valid()
    {
      (force + polemassLength * thetaDot * thetaDot * sin(theta)) / totalMass
    }

    /** The angular acceleration of the pole. */
    function ThetaAcc(force: real, theta: real, thetaDot: real): (a: real)
      requires Valid()
    {
      DivisorBounds(cos(theta));
      (gravity * sin(theta) - cos(theta) * Tmp(force, theta, thetaDot)) / Divisor(cos(theta))
    }

    /** The linear acceleration of the cart. */
    function XAcc(force: real, theta: real, thetaDot: real): (a: real)
      requires Valid()
    {
      Tmp(force, theta, thetaDot) - polemassLength * ThetaAcc(force, theta, thetaDot) * cos(theta) / totalMass
    }

    /**
     * The two accelerations solve the coupled equations of motion of the cart
     * and the pole: the pole's equation, in which the cart's acceleration
     * appears, and total mass times the cart's acceleration equal to the force
     * plus the pole's reaction, in which the pole's acceleration appears.
     */
    lemma EquationsOfMotion(force: real, theta: real, thetaDot: real)
      requires Valid()
      ensures 4.0 / 3.0 * length * ThetaAcc(force, theta, thetaDot)
              == gravity * sin(theta) - cos(theta) * XAcc(force, theta, thetaDot)
      ensures XAcc(force, theta, thetaDot) * totalMass
              == force + polemassLength * (thetaDot * thetaDot * sin(theta) - ThetaAcc(force, theta, thetaDot) * cos(theta))
    {
      var c: real := cos(theta);
      var d := Divisor(c);
      DivisorBounds(c);
      var tmp := Tmp(force, theta, thetaDot);
      var n := gravity * sin(theta) - c * tmp;
      var a := ThetaAcc(force, theta, thetaDot);
      assert a == n / d;
      assert a * d == n;
      assert d == length * (4.0 / 3.0) - polemassLength * c * c / totalMass;
      var xacc := XAcc(force, theta, thetaDot);
      assert xacc == tmp - polemassLength * a * c / totalMass;
      assert c * xacc == c * tmp - polemassLength * c * c * a / totalMass;
      assert gravity * sin(theta) - c * xacc == a * d + polemassLength * c * c * a / totalMass;
    }

    /** Termination: the cart or the pole has left its closed interval. */
    function OutOfBounds(x: real, theta: real): (out: bool)
      requires Valid()
      ensures !out <==> -2.4 <= x <= 2.4 && -thetaThresholdRadians <= theta <= thetaThresholdRadians
    {
      x < -xThreshold || x > xThreshold || theta < -thetaThresholdRadians || theta > thetaThresholdRadians
    }

    /** The snapshot one step produces from s: explicit Euler with the velocities from before the step. */
    function Next(s: Status, action: int): (r: Status)
      requires Valid()
      ensures r.x == s.x + 0.02 * s.xDot && r.theta == s.theta + 0.02 * s.thetaDot
      ensures r.done <==> OutOfBounds(r.x, r.theta)
      ensures Coupled(r)
    {
      var force := Force(action);
      var x := s.x + tau * s.xDot;
      var xDot := s.xDot + tau * XAcc(force, s.theta, s.thetaDot);
      var theta := s.theta + tau * s.thetaDot;
      var thetaDot := s.thetaDot + tau * ThetaAcc(force, s.theta, s.thetaDot);
      var done := OutOfBounds(x, theta);
      Status(x, xDot, theta, thetaDot, RewardFor(done), done)
    }

    /**
     * Advances the stored snapshot by one time step under the given action
     * and returns the new one, which replaces the old. A terminal snapshot
     * is integrated like any other.
     */
    method Step(action: int) returns (s: Status)
      requires Valid()
      modifies this
      ensures s == state && state == Next(old(state), action)
      ensures state.x == old(state.x) + tau * old(state.xDot)
      ensures state.xDot == old(state.xDot) + tau * XAcc(Force(action), old(state.theta), old(state.thetaDot))
      ensures state.theta == old(state.theta) + tau * old(state.thetaDot)
      ensures state.thetaDot == old(state.thetaDot) + tau * ThetaAcc(Force(action), old(state.theta), old(state.thetaDot))
      ensures state.done <==> OutOfBounds(state.x, state.theta)
      ensures Coupled(state)
    {
      var x := state.x;
      var xDot := state.xDot;
      var theta := state.theta;
      var thetaDot := state.thetaDot;

      var force := if action == 1 then forceMag else -forceMag;
      var costheta := cos(theta);
      var sintheta := sin(theta);
      DivisorBounds(costheta);

      var tmp := (force + polemassLength * thetaDot * thetaDot * sintheta) / totalMass;
      var thetaacc := (gravity * sintheta - costheta * tmp) / Divisor(costheta);
      var xacc := tmp - polemassLength * thetaacc * costheta / totalMass;

      x := x + tau * xDot;
      xDot := xDot + tau * xacc;
      theta := theta + tau * thetaDot;
      thetaDot := thetaDot + tau * thetaacc;

      var done := false;
      if x < -xThreshold || x > xThreshold || theta < -thetaThresholdRadians || theta > thetaThresholdRadians {
        done := true;
      }

      var reward := if done then 0 else 1;

      state := Status(x, xDot, theta, thetaDot, reward, done);
      s := state;
    }

    /** Puts the stored snapshot back to the reset values and returns it. */
    method Reset() returns (s: Status)
      modifies this
      ensures state == ResetSnapshot && s == state
    {
      state := ResetSnapshot;
      s := state;
    }

    /** Every action other than 1, 0 and 2 included, acts as a push to the left. */
    lemma OtherActionsPushLeft(s: Status, action: int)
      requires Valid()
      requires action != 1
      ensures Next(s, action) == Next(s, 0)
    {
    }

    /** The step reads only the four physical values: the previous reward and termination flag change nothing. */
    lemma StepIgnoresPreviousOutcome(s: Status, reward: int, done: bool, action: int)
      requires Valid()
      ensures Next(s.(reward := reward, done := done), action) == Next(s, action)
    {
    }

    /** Pushing right always leaves the cart strictly faster than pushing left. */
    lemma PushRightFaster(s: Status)
      requires Valid()
      ensures Next(s, 1).xDot > Next(s, 0).xDot
    {
      var c: real := cos(s.theta);
      var d := Divisor(c);
      DivisorBounds(c);
      var a1 := ThetaAcc(10.0, s.theta, s.thetaDot);
      var a0 := ThetaAcc(-10.0, s.theta, s.thetaDot);
      ThetaAccDifference(s);
      var u := a1 - a0;
      assert c * u * d == -(c * c) * (20.0 / 1.1);
      SquareBounds(c);
      ProductSign(c * u, d);
      assert c * u <= 0.0;
      var x1 := XAcc(10.0, s.theta, s.thetaDot);
      var x0 := XAcc(-10.0, s.theta, s.thetaDot);
      EquationsOfMotion(10.0, s.theta, s.thetaDot);
      EquationsOfMotion(-10.0, s.theta, s.thetaDot);
      assert (x1 - x0) * 1.1 == 20.0 - 0.05 * (c * u);
      assert x1 > x0;
    }

    /** How the force changes the angular acceleration: by -cos(theta) times the change in the shared term, over the divisor. */
    lemma ThetaAccDifference(s: Status)
      requires Valid()
      ensures (ThetaAcc(10.0, s.theta, s.thetaDot) - ThetaAcc(-10.0, s.theta, s.thetaDot)) * Divisor(cos(s.theta))
              == -cos(s.theta) * (20.0 / 1.1)
    {
      var c: real := cos(s.theta);
      var d := Divisor(c);
      DivisorBounds(c);
      var t1 := Tmp(10.0, s.theta, s.thetaDot);
      var t0 := Tmp(-10.0, s.theta, s.thetaDot);
      assert t1 - t0 == 20.0 / 1.1;
      var a1 := ThetaAcc(10.0, s.theta, s.thetaDot);
      var a0 := ThetaAcc(-10.0, s.theta, s.thetaDot);
      EquationsOfMotion(10.0, s.theta, s.thetaDot);
      EquationsOfMotion(-10.0, s.theta, s.thetaDot);
      assert a1 * d - a0 * d == -c * (t1 - t0);
      assert (a1 - a0) * d == a1 * d - a0 * d;
    }

    /** Pushing right turns the pole against the sign of cos(theta): less angular velocity when cos(theta) > 0. */
    lemma PushRightTurnsPole(s: Status)
      requires Valid()
      ensures cos(s.theta) > 0.0 ==> Next(s, 1).thetaDot < Next(s, 0).thetaDot
      ensures cos(s.theta) < 0.0 ==> Next(s, 1).thetaDot > Next(s, 0).thetaDot
      ensures cos(s.theta) == 0.0 ==> Next(s, 1).thetaDot == Next(s, 0).thetaDot
    {
      var c: real := cos(s.theta);
      var d := Divisor(c);
      DivisorBounds(c);
      ThetaAccDifference(s);
      var u := ThetaAcc(10.0, s.theta, s.thetaDot) - ThetaAcc(-10.0, s.theta, s.thetaDot);
      assert u * d == -c * (20.0 / 1.1);
      ProductSign(u, d);
      if c > 0.0 {
        assert u < 0.0;
      } else if c < 0.0 {
        assert u > 0.0;
      } else {
        assert u * d == 0.0;
      }
    }

    /** The two actions lead from one snapshot to two different snapshots. */
    lemma ActionsDiverge(s: Status)
      requires Valid()
      ensures Next(s, 1) != Next(s, 0)
    {
      PushRightFaster(s);
    }

    /** From the reset snapshot the pole already leans past the threshold, so the first step ends the episode. */
    lemma StepFromResetEndsEpisode(action: int)
      requires Valid()
      ensures Next(ResetSnapshot, action).theta == 1.02 && Next(ResetSnapshot, action).x == 1.02
      ensures Next(ResetSnapshot, action).done && Next(ResetSnapshot, action).reward == 0
    {
      DerivedConstants();
    }

    /** A terminal snapshot does not block the step: the cart can come back inside and the episode goes on. */
    lemma StepAfterDoneContinues(action: int)
      requires Valid()
      ensures Coupled(Status(2.5, -10.0, 0.0, 0.0, 0, true))
      ensures OutOfBounds(2.5, 0.0)
      ensures !Next(Status(2.5, -10.0, 0.0, 0.0, 0, true), action).done
      ensures Next(Status(2.5, -10.0, 0.0, 0.0, 0, true), action).reward == 1
    {
      DerivedConstants();
    }
  }
}
