/** Gate: a one-shot action and/or a stability check held over a window, polled once a tick. */
module Gates {
  import opened Conditions

  /** What a procedure declares about a gate. */
  datatype GateSpec = GateSpec(hasCheck: bool, windowS: real, hasAction: bool)

  /** One reading of a check, or the exception it raised. */
  datatype Answer = Holding | NotHolding | Raises

  datatype Outcome = Satisfied | Waiting | Raised

  datatype Poll = Poll(at: real, holding: bool)

  /** The longest run of holding polls that ends at the newest poll. */
  function Streak(polls: seq<Poll>): seq<Poll> {
    if polls == [] || !polls[|polls| - 1].holding then []
    else Streak(polls[..|polls| - 1]) + [polls[|polls| - 1]]
  }

  lemma {:induction false} StreakIsLongest(polls: seq<Poll>)
    ensures var r := Streak(polls);
      && |r| <= |polls| && r == polls[|polls| - |r|..]
      && (forall i :: 0 <= i < |r| ==> r[i].holding)
      && (|r| < |polls| ==> !polls[|polls| - |r| - 1].holding)
  {
    if polls != [] && polls[|polls| - 1].holding {
      var before := polls[..|polls| - 1];
      StreakIsLongest(before);
      var r, s := Streak(polls), Streak(before);
      assert r == s + [polls[|polls| - 1]];
      assert r == polls[|polls| - |r|..];
      assert |s| < |before| ==> before[|before| - |s| - 1] == polls[|polls| - |r| - 1];
    }
  }

  lemma StreakGrows(polls: seq<Poll>, poll: Poll)
    ensures Streak(polls + [poll]) == if poll.holding then Streak(polls) + [poll] else []
  {
    assert (polls + [poll])[..|polls|] == polls;
  }

  /** The check held at every poll over a span of at least the window, up to `now`. */
  predicate HeldFor(polls: seq<Poll>, windowS: real, now: real) {
    Streak(polls) != [] && now - Streak(polls)[0].at >= windowS
  }

  /** From some poll on, at least the window ago, every poll found the check holding. */
  ghost predicate HeldThroughout(polls: seq<Poll>, windowS: real, now: real) {
    exists i: nat :: i < |polls| && now - polls[i].at >= windowS && forall j :: i <= j < |polls| ==> polls[j].holding
  }

  /** Over a clock that does not run backwards the two say the same. */
  lemma HeldForIsThroughout(polls: seq<Poll>, windowS: real, now: real)
    ensures HeldFor(polls, windowS, now) ==> HeldThroughout(polls, windowS, now)
    ensures (forall i, j :: 0 <= i < j < |polls| ==> polls[i].at <= polls[j].at) ==>
      (HeldFor(polls, windowS, now) <==> HeldThroughout(polls, windowS, now))
  {
    StreakIsLongest(polls);
    hide Streak;
    var r := Streak(polls);
    var first := |polls| - |r|;
    if r != [] {
      assert polls[first] == r[0];
      forall j | first <= j < |polls| ensures polls[j].holding {
        assert polls[j] == r[j - first];
      }
    }
    if HeldThroughout(polls, windowS, now) {
      var i: nat :| i < |polls| && now - polls[i].at >= windowS && forall j :: i <= j < |polls| ==> polls[j].holding;
      assert first <= i;
    }
  }

  class Gate {
    const hasCheck: bool
    const windowS: real
    const hasAction: bool
    var actionDone: bool
    var stableSince: Option<real>
    ghost var polls: seq<Poll>
    ghost var actionRuns: nat

    ghost predicate Valid()
      reads this
    {
      && actionRuns == (if actionDone && hasAction then 1 else 0)
      && (polls != [] ==> hasCheck && actionDone)
      && stableSince == (if Streak(polls) == [] then None else Some(Streak(polls)[0].at))
    }

    /** The check has not yet held for its window. */
    ghost predicate StillWaiting(now: real)
      reads this
    {
      hasCheck && !HeldFor(polls, windowS, now)
    }

    constructor (spec: GateSpec)
      ensures Valid() && polls == [] && !actionDone
      ensures hasCheck == spec.hasCheck && windowS == spec.windowS && hasAction == spec.hasAction
    {
      hasCheck, windowS, hasAction := spec.hasCheck, spec.windowS, spec.hasAction;
      actionDone, stableSince := false, None;
      polls, actionRuns := [], 0;
    }

    /** One tick of the gate: run the action if it has not run, then poll the check. A raised
        action leaves the gate untouched, so it is the only action run that may be repeated. */
    method Step(now: real, actionOk: bool, answer: Answer) returns (outcome: Outcome)
      requires Valid()
      modifies this
      ensures Valid()
      ensures outcome.Raised? <==>
        (!old(actionDone) && hasAction && !actionOk) || (hasCheck && answer.Raises?)
      ensures outcome.Satisfied? <==>
        !(!old(actionDone) && hasAction && !actionOk) && (hasCheck ==> !answer.Raises? && HeldFor(polls, windowS, now))
      ensures outcome.Satisfied? && hasAction ==> actionRuns == 1
      ensures outcome.Waiting? ==> StillWaiting(now)
      ensures polls == old(polls) +
        (if hasCheck && !answer.Raises? && actionDone then [Poll(now, answer.Holding?)] else [])
      ensures actionDone == (old(actionDone) || !hasAction || actionOk)
    {
      if !actionDone {
        if hasAction {
          if !actionOk {
            return Raised;
          }
          actionRuns := actionRuns + 1;
        }
        actionDone := true;
      }
      if !hasCheck {
        return Satisfied;
      }
      if answer.Raises? {
        return Raised;
      }
      outcome := PollCheck(now, answer.Holding?);
    }

    method PollCheck(now: real, holding: bool) returns (outcome: Outcome)
      requires Valid() && hasCheck && actionDone
      modifies this`polls, this`stableSince
      ensures Valid() && polls == old(polls) + [Poll(now, holding)]
      ensures outcome == if HeldFor(polls, windowS, now) then Satisfied else Waiting
    {
      StreakGrows(polls, Poll(now, holding));
      polls := polls + [Poll(now, holding)];
      if !holding {
        stableSince := None;
        return Waiting;
      }
      if stableSince.None? {
        stableSince := Some(now);
      }
      outcome := if now - stableSince.value >= windowS then Satisfied else Waiting;
    }

    /** The finish-time reading: action once, then the check read once, no window. */
    method CheckOnce(actionOk: bool, answer: Answer) returns (outcome: Outcome)
      requires Valid()
      modifies this`actionDone, this`actionRuns
      ensures Valid()
      ensures outcome.Raised? <==>
        (!old(actionDone) && hasAction && !actionOk) || (hasCheck && answer.Raises?)
      ensures outcome.Satisfied? ==>
        (hasAction ==> actionRuns == 1) && (hasCheck ==> answer.Holding?)
      ensures outcome.Waiting? ==> hasCheck && answer.NotHolding?
    {
      if !actionDone {
        if hasAction {
          if !actionOk {
            return Raised;
          }
          actionRuns := actionRuns + 1;
        }
        actionDone := true;
      }
      if !hasCheck {
        return Satisfied;
      }
      outcome := if answer.Raises? then Raised else if answer.Holding? then Satisfied else Waiting;
    }
  }

  /** A gate says of itself that it stays satisfied on every later call: from one poll to the next it
      does exactly if its check still holds. */
  lemma SatisfactionLasts(polls: seq<Poll>, windowS: real, now: real, later: real, holding: bool)
    requires HeldFor(polls, windowS, now) && now <= later
    ensures HeldFor(polls + [Poll(later, holding)], windowS, later) <==> holding
  {
    StreakGrows(polls, Poll(later, holding));
  }

  /** The window is wall-clock: what counts is the time since the streak began, whether or not the
      gate was polled in between. */
  lemma WindowIsWallClock(polls: seq<Poll>, windowS: real, at: real)
    requires Streak(polls) != []
    ensures HeldFor(polls + [Poll(at, true)], windowS, at) <==> at - Streak(polls)[0].at >= windowS
  {
    StreakGrows(polls, Poll(at, true));
  }
}
