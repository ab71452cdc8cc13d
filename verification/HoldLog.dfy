/** The safety-hold enforcement contract, judged from a log of what was done to held instruments. */
module HoldLog {
  import opened Conditions

  /** An attempt names the hold it enforces, and how long the log of acknowledgements and the history of
      conditions were then. */
  datatype Event =
    | Attempt(vi: Name, at: real, hold: Key, acks: nat, moment: nat)  // standby() issued on a VI that is away
    | Failure(vi: Name)                                               // ... and it raised
    | Escalation(vi: Name)                                            // the critical report
    | Release(vi: Name)      // no longer held, or no longer away: the episode is over

  datatype Ledger =
    | Broken
    | Ledger(last: map<Name, real>, failures: map<Name, nat>, escalated: set<Name>)

  const FRESH := Ledger(map[], map[], {})

  datatype Limits = Limits(intervalS: real, maxAttempts: int)

  function Failures(failures: map<Name, nat>, vi: Name): nat {
    if vi in failures then failures[vi] else 0
  }

  function Accept(l: Ledger, e: Event, lim: Limits): Ledger {
    if l.Broken? then Broken
    else match e
      case Attempt(vi, at, _, _, _) =>
        if vi in l.last ==> at - l.last[vi] >= lim.intervalS then l.(last := l.last[vi := at]) else Broken
      case Failure(vi) =>
        if vi in l.last then l.(failures := l.failures[vi := Failures(l.failures, vi) + 1]) else Broken
      case Escalation(vi) =>
        if vi !in l.escalated && vi in l.failures && l.failures[vi] >= lim.maxAttempts
        then l.(escalated := l.escalated + {vi}) else Broken
      case Release(vi) => Ledger(l.last - {vi}, l.failures - {vi}, l.escalated - {vi})
  }

  function Replay(log: seq<Event>, lim: Limits): Ledger {
    if log == [] then FRESH else Accept(Replay(log[..|log| - 1], lim), log[|log| - 1], lim)
  }

  lemma ReplayAppend(log: seq<Event>, e: Event, lim: Limits)
    ensures Replay(log + [e], lim) == Accept(Replay(log, lim), e, lim)
  {
    assert (log + [e])[..|log|] == log;
  }

  lemma {:induction false} PrefixAccepted(log: seq<Event>, n: nat, lim: Limits)
    requires n <= |log| && Replay(log, lim).Ledger?
    ensures Replay(log[..n], lim).Ledger?
  {
    if n == |log| {
      assert log[..n] == log;
    } else {
      assert log[..|log| - 1][..n] == log[..n];
      PrefixAccepted(log[..|log| - 1], n, lim);
    }
  }

  // ---- what an accepted log says, without the ledger ----------------------------------------

  /** Two attempts on one instrument with no release of it in between. */
  ghost predicate SameEpisode(log: seq<Event>, i: nat, j: nat)
    requires i < j < |log|
  {
    && log[i].Attempt? && log[j].Attempt? && log[i].vi == log[j].vi
    && forall k :: i < k < j ==> log[k] != Release(log[i].vi)
  }

  /** The times a standby raised on the instrument since its last release. */
  function FailuresSinceRelease(log: seq<Event>, vi: Name): nat {
    if log == [] || log[|log| - 1] == Release(vi) then 0
    else FailuresSinceRelease(log[..|log| - 1], vi) + if log[|log| - 1] == Failure(vi) then 1 else 0
  }

  lemma {:induction false} LastAttemptIsNoEarlier(log: seq<Event>, vi: Name, i: nat, n: nat, lim: Limits)
    requires Replay(log, lim).Ledger? && i < n <= |log| && log[i].Attempt? && log[i].vi == vi && lim.intervalS >= 0.0
    requires forall k :: i < k < n ==> log[k] != Release(vi)
    ensures Replay(log[..n], lim).Ledger? && vi in Replay(log[..n], lim).last
    ensures Replay(log[..n], lim).last[vi] >= log[i].at
  {
    PrefixAccepted(log, n, lim);
    assert log[..n] == log[..n - 1] + [log[n - 1]];
    ReplayAppend(log[..n - 1], log[n - 1], lim);
    if n > i + 1 {
      LastAttemptIsNoEarlier(log, vi, i, n - 1, lim);
    }
  }

  /** Any two attempts on one instrument within one episode are at least the interval apart. */
  lemma AttemptsAreSpaced(log: seq<Event>, i: nat, j: nat, lim: Limits)
    requires Replay(log, lim).Ledger? && i < j < |log| && SameEpisode(log, i, j) && lim.intervalS >= 0.0
    ensures log[j].at - log[i].at >= lim.intervalS
  {
    LastAttemptIsNoEarlier(log, log[i].vi, i, j, lim);
    PrefixAccepted(log, j + 1, lim);
    assert log[..j + 1] == log[..j] + [log[j]];
    ReplayAppend(log[..j], log[j], lim);
  }

  lemma {:induction false} EscalationIsRemembered(log: seq<Event>, vi: Name, i: nat, n: nat, lim: Limits)
    requires Replay(log, lim).Ledger? && i < n <= |log| && log[i] == Escalation(vi)
    requires forall k :: i < k < n ==> log[k] != Release(vi)
    ensures Replay(log[..n], lim).Ledger? && vi in Replay(log[..n], lim).escalated
  {
    PrefixAccepted(log, n, lim);
    assert log[..n] == log[..n - 1] + [log[n - 1]];
    ReplayAppend(log[..n - 1], log[n - 1], lim);
    if n > i + 1 {
      EscalationIsRemembered(log, vi, i, n - 1, lim);
    }
  }

  lemma {:induction false} FailuresAreCounted(log: seq<Event>, vi: Name, lim: Limits)
    requires Replay(log, lim).Ledger?
    ensures Failures(Replay(log, lim).failures, vi) == FailuresSinceRelease(log, vi)
  {
    if log != [] {
      FailuresAreCounted(log[..|log| - 1], vi, lim);
    }
  }

  /** An escalation comes only after the allowed number of failures in the episode, and only once
      per episode. */
  lemma EscalatesOncePerEpisode(log: seq<Event>, i: nat, lim: Limits)
    requires Replay(log, lim).Ledger? && i < |log| && log[i].Escalation?
    ensures FailuresSinceRelease(log[..i], log[i].vi) >= lim.maxAttempts
    ensures forall j :: 0 <= j < i && log[j] == log[i] ==> exists k :: j < k < i && log[k] == Release(log[i].vi)
  {
    var vi := log[i].vi;
    PrefixAccepted(log, i + 1, lim);
    assert log[..i + 1] == log[..i] + [log[i]];
    ReplayAppend(log[..i], log[i], lim);
    FailuresAreCounted(log[..i], vi, lim);
    forall j | 0 <= j < i && log[j] == log[i] ensures exists k :: j < k < i && log[k] == Release(vi) {
      if forall k :: j < k < i ==> log[k] != Release(vi) {
        EscalationIsRemembered(log, vi, j, i, lim);
      }
    }
  }
}
