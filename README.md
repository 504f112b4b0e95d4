# Cart-pole environment — a verified Dafny model

This project models the simulation core of a cart-pole reinforcement-learning
environment, the Java class `CartPoleEnv`. A cart moves on a frictionless track
with a pole hinged on top. At each discrete step a controller picks an action,
the environment turns it into a fixed-magnitude push left or right, and it
advances the four physical values (cart position `x`, cart velocity `xDot`,
pole angle `theta`, angular velocity `thetaDot`) by one explicit-Euler step of
length `tau`. It then decides whether the episode is over and returns the new
snapshot, which replaces the one it holds.

Files:

- `status.dfy` (module `EnvStatus`): the snapshot `Status` (four reals, an
  integer reward, a termination flag), the pre-reset placeholder, the reset
  snapshot, the reward rule and the reward/termination coupling `Coupled`.
- `cart_pole_env.dfy` (module `Env`): the class `CartPoleEnv`. Its physical
  constants are `const` fields that the constructor assigns one by one. `Valid()`
  ties them to their values: gravity 9.8, pole mass 0.1, total mass = pole mass
  + 1.0, half-length 0.5, pole-mass-length = pole mass × half-length, force 10,
  tau 0.02, angle threshold 12·2·π/360 and position threshold 2.4. The stored
  snapshot is the field `state`. `Step` follows the Java method statement by
  statement (locals read from the state, force, cos/sin, `tmp`, the two
  accelerations, four in-place updates, the threshold test, the reward, the
  store) and is proved equal to the specification function `Next`. The lemmas
  about what a step does are stated about `Next`.

Modelling choices:

- `double` becomes `real`. `Math.PI` becomes 3.141592653589793, the printed
  value of the `double` it denotes, read as an exact real.
- `Math.cos` and `Math.sin` are arbitrary functions into `UnitReal`, the reals
  in [-1, 1]. They are given to the constructor and stored as `const` fields.
  Nothing else about them is assumed. Every property proved therefore holds for
  any such pair. One consequence is that the divisor of the angular
  acceleration is proved to lie in [41/66, 2/3] for every cosine value, so the
  division is always defined.
- `Status` belongs to the same package (CartPoleEnv.java uses it at lines 38
  and 100 without an import), but its code is not part of this model. It
  becomes a datatype. Its `reset()` is taken to produce (1, 1, 1, 1, reward 1,
  not done): that is the constant `ResetSnapshot`, not verified code.
- Every action other than 1 pushes left and is not rejected
  (`OtherActionsPushLeft`).
- A step taken after termination keeps integrating (`StepAfterDoneContinues`,
  `StepIgnoresPreviousOutcome`).
- The pre-reset placeholder is done with reward 1. The reward/termination
  coupling therefore holds for every snapshot a step produces, but not for the
  placeholder (`PlaceholderNotCoupled`).
- Pushing right always gives a strictly larger cart velocity than pushing left
  (`PushRightFaster`). The angular velocity moves against the sign of cos θ,
  and does not change when cos θ = 0 (`PushRightTurnsPole`).
- From the reset snapshot, θ' = 1.02 is beyond the ≈0.2094 rad threshold, so
  whichever action is taken, the first step ends the episode
  (`StepFromResetEndsEpisode`).

## Model

| member | source | states |
|---|---|---|
| `Env.CartPoleEnv.constructor` | src/main/java/ru/dutov/cartpole/env/CartPoleEnv.java:38-67 | the constants take their fixed values (`Valid()`), and the environment holds the placeholder snapshot (1,1,1,1, reward 1, done) |
| `Env.CartPoleEnv.GetActionSpace` | src/main/java/ru/dutov/cartpole/env/CartPoleEnv.java:34-36 | always 2; the constants cannot change, so neither step nor reset affects it |
| `Env.CartPoleEnv.GetObservationSpace` | src/main/java/ru/dutov/cartpole/env/CartPoleEnv.java:30-32 | always 4; the constants cannot change, so neither step nor reset affects it |
| `Env.CartPoleEnv.DerivedConstants` | src/main/java/ru/dutov/cartpole/env/CartPoleEnv.java:52-63 | total mass 1.1, pole-mass-length 0.05, position threshold 2.4, angle threshold π/15, which lies in (0.2094, 0.2095) |
| `Env.CartPoleEnv.Force` | src/main/java/ru/dutov/cartpole/env/CartPoleEnv.java:80 | the force is +10 exactly when the action is 1, and -10 exactly when it is any other integer |
| `Env.CartPoleEnv.OtherActionsPushLeft` | src/main/java/ru/dutov/cartpole/env/CartPoleEnv.java:80 | every action other than 1, 2 included, steps exactly as action 0 does |
| `Env.CartPoleEnv.Divisor` | src/main/java/ru/dutov/cartpole/env/CartPoleEnv.java:85 | the source's divisor of `thetaacc` at that line: length·(4/3 − pole mass·cos²θ / total mass) |
| `Env.CartPoleEnv.DivisorBounds` | src/main/java/ru/dutov/cartpole/env/CartPoleEnv.java:85 | for every cosine in [-1, 1] that divisor lies in [41/66, 2/3], so it is strictly positive and the angular acceleration is always defined |
| `Env.CartPoleEnv.Tmp` | src/main/java/ru/dutov/cartpole/env/CartPoleEnv.java:84 | the source's expression `tmp` at that line: force plus pole-mass-length·θ̇²·sin θ, over total mass |
| `Env.CartPoleEnv.ThetaAcc` | src/main/java/ru/dutov/cartpole/env/CartPoleEnv.java:85 | the source's expression `thetaacc` at that line, divided by `Divisor` |
| `Env.CartPoleEnv.XAcc` | src/main/java/ru/dutov/cartpole/env/CartPoleEnv.java:86 | the source's expression `xacc` at that line |
| `Env.CartPoleEnv.EquationsOfMotion` | src/main/java/ru/dutov/cartpole/env/CartPoleEnv.java:84-86 | the closed forms solve the coupled equations of motion: (4/3)·length·θ̈ = g·sin θ − cos θ·ẍ (the pole, with the cart's acceleration in it), and total mass·ẍ = force + pole-mass-length·(θ̇²·sin θ − θ̈·cos θ) (the cart, with the pole's acceleration in it) |
| `Env.CartPoleEnv.OutOfBounds` | src/main/java/ru/dutov/cartpole/env/CartPoleEnv.java:93-96 | not terminated exactly when x lies in the closed interval [-2.4, 2.4] and θ in the closed interval [-threshold, threshold] |
| `EnvStatus.RewardFor` | src/main/java/ru/dutov/cartpole/env/CartPoleEnv.java:98 | the reward is 0 or 1, and it is 0 exactly when the snapshot is terminal |
| `Env.CartPoleEnv.Next` | src/main/java/ru/dutov/cartpole/env/CartPoleEnv.java:74-102 | positions advance by 0.02 × the velocities from before the step; `done` holds exactly when the new position or angle is out of bounds; the produced snapshot satisfies the reward/termination coupling |
| `Env.CartPoleEnv.Step` | src/main/java/ru/dutov/cartpole/env/CartPoleEnv.java:74-102 | the stored snapshot becomes `Next(old snapshot, action)` and the same value is returned; x and θ advance by tau × the old velocities, and the velocities by tau × the accelerations computed from the old angle and angular velocity; done iff out of bounds; reward coupled to done |
| `Env.CartPoleEnv.Reset` | src/main/java/ru/dutov/cartpole/env/CartPoleEnv.java:109-112 | the stored snapshot becomes the reset snapshot, and that stored value is what is returned; repeated resets give the same snapshot |
| `EnvStatus.PlaceholderNotCoupled` | src/main/java/ru/dutov/cartpole/env/CartPoleEnv.java:38 | the reset snapshot satisfies the reward/termination coupling; the pre-reset placeholder is done with reward 1 and does not |
| `Env.CartPoleEnv.StepIgnoresPreviousOutcome` | src/main/java/ru/dutov/cartpole/env/CartPoleEnv.java:75-78 | a step depends only on the four physical values of the stored snapshot; its old reward and termination flag change nothing |
| `Env.CartPoleEnv.StepAfterDoneContinues` | src/main/java/ru/dutov/cartpole/env/CartPoleEnv.java:74-102 | from the terminal snapshot (2.5, -10, 0, 0, reward 0, done), a step under any action gives a non-terminal snapshot with reward 1: a finished episode is not blocked |
| `Env.CartPoleEnv.StepFromResetEndsEpisode` | src/main/java/ru/dutov/cartpole/env/CartPoleEnv.java:88-98 | from the reset snapshot, any action gives x' = θ' = 1.02, done, reward 0 |
| `Env.CartPoleEnv.ThetaAccDifference` | src/main/java/ru/dutov/cartpole/env/CartPoleEnv.java:84-85 | changing the force from -10 to +10 changes the angular acceleration by −cos θ·(20/1.1)/divisor |
| `Env.CartPoleEnv.PushRightFaster` | src/main/java/ru/dutov/cartpole/env/CartPoleEnv.java:80-89 | from every snapshot, action 1 gives a strictly larger new cart velocity than action 0 |
| `Env.CartPoleEnv.PushRightTurnsPole` | src/main/java/ru/dutov/cartpole/env/CartPoleEnv.java:80-91 | action 1 gives a smaller new angular velocity than action 0 when cos θ > 0, a larger one when cos θ < 0, and the same one when cos θ = 0 |
| `Env.CartPoleEnv.ActionsDiverge` | src/main/java/ru/dutov/cartpole/env/CartPoleEnv.java:80-91 | the two actions lead from any snapshot to two different snapshots |

## Left out

- `GatewayServer` and `Start()` (CartPoleEnv.java lines 40-47) are left out: they are the network bridge to the Python controller, which is I/O.
- `agent_client.py` is left out. It is the learning agent: foreign library calls, randomness and floating-point training.
- IEEE-754 rounding of `double` is left out. Every value is an exact real, so golden floating-point trajectories are not reproduced.
- Overflow, infinities and NaN are left out. If the state keeps growing after termination, θ̇ can overflow, and `Math.sin` of an infinity is NaN. A NaN position or angle fails every comparison at line 94, so the source then reports not done with reward 1. Reals have no such values.
- The actual values of `Math.cos` and `Math.sin` are left out. The model assumes only that they map into [-1, 1]; the identity sin² + cos² = 1 is not assumed.
- The `Status` class is not part of this model. Its `reset()` is taken to produce (1, 1, 1, 1, reward 1, not done).
- Env.CartPoleEnv.Reset: the source resets the stored `Status` object in place and returns that object. A caller still holding the object from the last `step` therefore sees it change too. The model replaces a value, so this aliasing is not captured.
- Env.CartPoleEnv.constructor: the source constructor takes no arguments. Here it takes the two trigonometric functions as parameters, because the model treats them as abstract.
- Concurrent calls on one environment are left out: the source gives no synchronisation.
