/** Who may move an instrument by hand, judged from a log of acknowledgements, emergencies and
    admitted actions. */
module AccessLog {
  import opened Conditions

  /** The state of the machine as far as manual access is concerned. */
  datatype Mode = Quiet | Running | InError | InEmergency

  /** What is true of the instrument at the moment an action on it is admitted. */
  datatype Facts = Facts(mode: Mode, commFault: bool, hold: Option<Key>, claimed: bool)

  datatype Event =
    | Acknowledged(at: real, keys: set<Key>)     // acknowledge() outside EMERGENCY
    | EmergencyAcknowledged(at: real)            // acknowledge() in EMERGENCY
    | EmergencyEntered                           // _enter_emergency()
    | StandbyAll                                 // its blanket shutdown is issued
    | EmergencyCleared                           // acknowledged back to IDLE
    | Admitted(vi: Name, at: real, facts: Facts)

  datatype Ledger =
    | Broken
    | Ledger(keyAcks: map<Key, real>, emergencyAck: Option<real>, shutdownDue: bool)

  const FRESH := Ledger(map[], None, false)

  /** Made by now, and less than the timeout ago. */
  predicate Fresh(ack: real, at: real, timeout: real) {
    ack <= at < ack + timeout
  }

  predicate EmergencyOpen(l: Ledger, at: real, timeout: real) {
    l.Ledger? && l.emergencyAck.Some? && Fresh(l.emergencyAck.value, at, timeout)
  }

  predicate HoldOpen(l: Ledger, key: Key, at: real, timeout: real) {
    l.Ledger? && key in l.keyAcks && Fresh(l.keyAcks[key], at, timeout)
  }

  /** No acknowledgement of this condition is less than the timeout old. */
  ghost predicate Lapsed(l: Ledger, key: Key, at: real, timeout: real) {
    l.Ledger? && (key in l.keyAcks ==> l.keyAcks[key] + timeout <= at)
  }

  /** The admission rules: a comm fault is never overridden; a hold is overridden only by a live
      acknowledgement; EMERGENCY and ERROR only by a live EMERGENCY acknowledgement (and ERROR
      only for a held instrument); a claim only together with a hold. */
  predicate Justified(l: Ledger, at: real, f: Facts, timeout: real) {
    && !f.commFault
    && (f.hold.Some? ==>
          EmergencyOpen(l, at, timeout)
           || ((f.mode.Quiet? || f.mode.Running?) && HoldOpen(l, f.hold.value, at, timeout)))
    && (f.mode.InEmergency? ==> EmergencyOpen(l, at, timeout))
    && (f.mode.InError? ==> f.hold.Some?)
    && (f.claimed ==> f.hold.Some?)
  }

  /** What ERROR admits, exactly: a held instrument that answers, while an EMERGENCY override is open. */
  lemma ErrorAdmitsExactly(l: Ledger, at: real, f: Facts, timeout: real)
    requires f.mode.InError?
    ensures Justified(l, at, f, timeout) <==> !f.commFault && f.hold.Some? && EmergencyOpen(l, at, timeout)
  {
  }

  function Accept(l: Ledger, e: Event, timeout: real): Ledger {
    if l.Broken? then Broken
    else if l.shutdownDue then (if e.StandbyAll? then l.(shutdownDue := false) else Broken)
    else match e
      case Acknowledged(at, keys) =>
        if forall k :: k in keys && k in l.keyAcks ==> l.keyAcks[k] <= at
        then l.(keyAcks := l.keyAcks + map k | k in keys :: at) else Broken
      case EmergencyAcknowledged(at) => l.(emergencyAck := Some(at))
      case EmergencyEntered => Ledger(map[], None, true)
      case StandbyAll => Broken
      case EmergencyCleared => l.(emergencyAck := None)
      case Admitted(vi, at, facts) => if Justified(l, at, facts, timeout) then l else Broken
  }

  function Replay(log: seq<Event>, timeout: real): Ledger {
    if log == [] then FRESH else Accept(Replay(log[..|log| - 1], timeout), log[|log| - 1], timeout)
  }

  lemma ReplayAppend(log: seq<Event>, e: Event, timeout: real)
    ensures Replay(log + [e], timeout) == Accept(Replay(log, timeout), e, timeout)
  {
    assert (log + [e])[..|log|] == log;
  }

  // ---- what an accepted log says, without the ledger ----------------------------------------

  ghost predicate NoEmergencyAfter(log: seq<Event>, i: nat) {
    forall j :: i < j < |log| ==> !log[j].EmergencyEntered?
  }

  /** The EMERGENCY acknowledged at `i` neither began anew nor was cleared since. */
  ghost predicate SameEmergencyAfter(log: seq<Event>, i: nat) {
    forall j :: i < j < |log| ==> !log[j].EmergencyEntered? && !log[j].EmergencyCleared?
  }

  /** The condition was acknowledged, less than `timeout` ago, and no EMERGENCY came since. */
  ghost predicate HoldAcknowledgedBefore(log: seq<Event>, key: Key, at: real, timeout: real) {
    exists i :: 0 <= i < |log| && log[i].Acknowledged? && key in log[i].keys
      && at - timeout < log[i].at <= at && NoEmergencyAfter(log, i)
  }

  /** acknowledge() was called in the last EMERGENCY, less than `timeout` ago, and that EMERGENCY has
      not been cleared by an acknowledgement since. */
  ghost predicate EmergencyAcknowledgedBefore(log: seq<Event>, at: real, timeout: real) {
    exists i :: 0 <= i < |log| && log[i].EmergencyAcknowledged?
      && at - timeout < log[i].at <= at && SameEmergencyAfter(log, i)
  }

  lemma {:induction false} KeyAckHasWitness(log: seq<Event>, key: Key, timeout: real)
    requires Replay(log, timeout).Ledger? && key in Replay(log, timeout).keyAcks
    ensures exists i :: (0 <= i < |log| && log[i].Acknowledged? && key in log[i].keys
                         && log[i].at == Replay(log, timeout).keyAcks[key] && NoEmergencyAfter(log, i))
  {
    var n := |log| - 1;
    if log[n].Acknowledged? && key in log[n].keys {
      assert NoEmergencyAfter(log, n);
    } else {
      var before := log[..n];
      KeyAckHasWitness(before, key, timeout);
      var i :| 0 <= i < n && before[i].Acknowledged? && key in before[i].keys
        && before[i].at == Replay(before, timeout).keyAcks[key] && NoEmergencyAfter(before, i);
      assert log[i] == before[i];
      assert NoEmergencyAfter(log, i) by {
        forall j | i < j < |log| ensures !log[j].EmergencyEntered? {
          if j < n { assert log[j] == before[j]; }
        }
      }
    }
  }

  /** The clock of acknowledgements does not run back, so a newer one never hides an older one. */
  lemma {:induction false} AckIsRemembered(log: seq<Event>, i: nat, key: Key, timeout: real)
    requires Replay(log, timeout).Ledger? && i < |log| && log[i].Acknowledged? && key in log[i].keys
    requires NoEmergencyAfter(log, i)
    ensures key in Replay(log, timeout).keyAcks && Replay(log, timeout).keyAcks[key] >= log[i].at
  {
    var n := |log| - 1;
    if i < n {
      assert NoEmergencyAfter(log[..n], i) by {
        forall j | i < j < n ensures !log[..n][j].EmergencyEntered? {
          assert log[..n][j] == log[j];
        }
      }
      AckIsRemembered(log[..n], i, key, timeout);
    }
  }

  lemma {:induction false} EmergencyAckHasWitness(log: seq<Event>, timeout: real)
    requires Replay(log, timeout).Ledger? && Replay(log, timeout).emergencyAck.Some?
    ensures exists i :: (0 <= i < |log| && log[i].EmergencyAcknowledged?
                         && log[i].at == Replay(log, timeout).emergencyAck.value && SameEmergencyAfter(log, i))
  {
    var n := |log| - 1;
    if log[n].EmergencyAcknowledged? {
      assert SameEmergencyAfter(log, n);
    } else {
      var before := log[..n];
      EmergencyAckHasWitness(before, timeout);
      var i :| 0 <= i < n && before[i].EmergencyAcknowledged?
        && before[i].at == Replay(before, timeout).emergencyAck.value && SameEmergencyAfter(before, i);
      assert log[i] == before[i];
      assert SameEmergencyAfter(log, i) by {
        forall j | i < j < |log| ensures !log[j].EmergencyEntered? && !log[j].EmergencyCleared? {
          if j < n { assert log[j] == before[j]; }
        }
      }
    }
  }

  lemma {:induction false} PrefixAccepted(log: seq<Event>, n: nat, timeout: real)
    requires n <= |log| && Replay(log, timeout).Ledger?
    ensures Replay(log[..n], timeout).Ledger?
  {
    if n == |log| {
      assert log[..n] == log;
    } else {
      assert log[..|log| - 1][..n] == log[..n];
      PrefixAccepted(log[..|log| - 1], n, timeout);
    }
  }

  /** The access guarantee over a whole history: no admitted action on a comm-faulted instrument;
      on a held one only under an acknowledgement of its condition or of the EMERGENCY that is less
      than the timeout old and has not been closed since, by an EMERGENCY or by clearing it; in
      EMERGENCY only under one made since that EMERGENCY began; in ERROR only on a held one, under
      such an EMERGENCY acknowledgement; on a claimed one only if it is also held. */
  lemma EveryAdmissionIsJustified(log: seq<Event>, n: nat, timeout: real)
    requires Replay(log, timeout).Ledger? && n < |log| && log[n].Admitted?
    ensures var e, past := log[n], log[..n];
      && !e.facts.commFault
      && (e.facts.hold.Some? ==>
            || EmergencyAcknowledgedBefore(past, e.at, timeout)
            || HoldAcknowledgedBefore(past, e.facts.hold.value, e.at, timeout))
      && (e.facts.mode.InEmergency? ==> EmergencyAcknowledgedBefore(past, e.at, timeout))
      && (e.facts.mode.InError? ==> e.facts.hold.Some? && EmergencyAcknowledgedBefore(past, e.at, timeout))
      && (e.facts.claimed ==> e.facts.hold.Some?)
  {
    var e, past := log[n], log[..n];
    PrefixAccepted(log, n + 1, timeout);
    assert log[..n + 1] == past + [e];
    ReplayAppend(past, e, timeout);
    var l := Replay(past, timeout);
    assert Justified(l, e.at, e.facts, timeout);
    if EmergencyOpen(l, e.at, timeout) {
      EmergencyAckHasWitness(past, timeout);
    }
    if e.facts.hold.Some? && HoldOpen(l, e.facts.hold.value, e.at, timeout) {
      KeyAckHasWitness(past, e.facts.hold.value, timeout);
    }
  }

  lemma EmptyReplay(timeout: real)
    ensures Replay([], timeout) == FRESH
  {
  }

  /** Every EMERGENCY entry is followed at once by its one blanket shutdown, and there is no other. */
  lemma OneShutdownPerEmergency(log: seq<Event>, n: nat, timeout: real)
    requires Replay(log, timeout).Ledger? && !Replay(log, timeout).shutdownDue && n < |log|
    ensures log[n].EmergencyEntered? ==> n + 1 < |log| && log[n + 1].StandbyAll?
    ensures log[n].StandbyAll? ==> n > 0 && log[n - 1].EmergencyEntered?
  {
    hide Replay, Justified;
    EmptyReplay(timeout);
    assert log[..0] == [];
    PrefixAccepted(log, n + 1, timeout);
    assert log[..n + 1] == log[..n] + [log[n]] && log[..|log|] == log;
    ReplayAppend(log[..n], log[n], timeout);
    if log[n].EmergencyEntered? && n + 1 < |log| {
      PrefixAccepted(log, n + 2, timeout);
      assert log[..n + 2] == log[..n + 1] + [log[n + 1]];
      ReplayAppend(log[..n + 1], log[n + 1], timeout);
    }
    if log[n].StandbyAll? {
      assert n > 0;
      assert log[..n] == log[..n - 1] + [log[n - 1]];
      ReplayAppend(log[..n - 1], log[n - 1], timeout);
    }
  }
}
