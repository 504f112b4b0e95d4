/**
 * The snapshot the cart-pole environment hands to its controller: four
 * physical values, the reward of the step that produced it and the
 * termination flag.
 */
module EnvStatus {

  /** One snapshot of the simulated world. */
  datatype Status = Status(x: real, xDot: real, theta: real, thetaDot: real, reward: int, done: bool)

  /** The snapshot an environment holds before its first reset: a placeholder, not a physical state. */
  const Placeholder: Status := Status(1.0, 1.0, 1.0, 1.0, 1, true)

  /** What a snapshot's own reset turns it into: every value and the reward 1, not done. */
  const ResetSnapshot: Status := Status(1.0, 1.0, 1.0, 1.0, 1, false)

  /** The reward encodes survival and nothing else: it is 0 or 1, and 0 exactly on a terminal snapshot. */
  predicate Coupled(s: Status) {
    (s.reward == 0 || s.reward == 1) && (s.reward == 0 <==> s.done)
  }

  /** The reward a step assigns to a snapshot with the given termination flag. */
  function RewardFor(done: bool): (r: int)
    ensures r == 0 || r == 1
    ensures r == 0 <==> done
  {
    if done then 0 else 1
  }

  /** The reset snapshot obeys the coupling; the pre-reset placeholder does not (done, yet rewarded). */
  lemma PlaceholderNotCoupled()
    ensures Coupled(ResetSnapshot)
    ensures !Coupled(Placeholder)
    ensures Placeholder.done && Placeholder.reward == 1
  {
  }
}
