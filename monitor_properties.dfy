/**
 * Properties of the alert state machine: the invariant every reachable state
 * keeps, the correspondence between alerts and status changes, the absence
 * of duplicate alerts, and the concrete traces of the monitor's defaults.
 */
module MonitorProperties {
  import opened Wrappers
  import opened Monitor

  /** One cycle keeps the invariant. */
  lemma TransitionKeepsInv(ups: int, downs: int, s: MonitorState, isUp: bool)
    requires Inv(s)
    ensures Inv(Transition(ups, downs, s, isUp).state)
  {
  }

  /**
   * From a state satisfying the invariant, a cycle emits an alert exactly
   * when it changes the status, and the alert announces the new status; in
   * particular the `sentDown` test fires exactly on the cycle that enters DOWN.
   */
  lemma AlertIffStatusChange(ups: int, downs: int, s: MonitorState, isUp: bool)
    requires Inv(s)
    ensures var t := Transition(ups, downs, s, isUp);
      (t.alert.Some? <==> t.state.status != s.status) &&
      (t.alert.Some? ==> t.state.status == Announced(t.alert.value)) &&
      (t.alert == Some(DownAlert) <==> s.status != Down && t.state.status == Down)
  {
  }

  /** Any run from a state satisfying the invariant ends in one. */
  lemma {:induction false} RunKeepsInv(ups: int, downs: int, s: MonitorState, obs: seq<bool>)
    requires Inv(s)
    ensures Inv(Run(ups, downs, s, obs).final)
    decreases |obs|
  {
    if obs != [] {
      RunKeepsInv(ups, downs, s, obs[..|obs| - 1]);
      TransitionKeepsInv(ups, downs, Run(ups, downs, s, obs[..|obs| - 1]).final, obs[|obs| - 1]);
    }
  }

  /** Within any run, an UP alert only ever follows a success and a DOWN alert only a failure. */
  lemma {:induction false} AlertMatchesObservation(ups: int, downs: int, s: MonitorState, obs: seq<bool>, i: nat)
    requires i < |obs|
    ensures var a := Run(ups, downs, s, obs).alerts[i];
      (a == Some(UpAlert) ==> obs[i]) && (a == Some(DownAlert) ==> !obs[i])
    decreases |obs|
  {
    if i < |obs| - 1 {
      AlertMatchesObservation(ups, downs, s, obs[..|obs| - 1], i);
    }
  }

  /**
   * In every state the loop reaches, at most one counter is nonzero and the
   * two tests of the DOWN branch, "status is not DOWN" and "no DOWN alert
   * sent", agree.
   */
  lemma ReachableStates(ups: int, downs: int, obs: seq<bool>)
    ensures var s := Run(ups, downs, Init, obs).final;
      (s.consecUp == 0 || s.consecDown == 0) && ((s.status != Down) == !s.sentDown)
  {
    RunKeepsInv(ups, downs, Init, obs);
  }

  /**
   * Once the status is UP, any number of further successes emits nothing:
   * the status and `sentDown` stay, the UP counter keeps growing.
   */
  lemma {:induction false} StillUpIsSilent(ups: int, downs: int, s: MonitorState, obs: seq<bool>)
    requires s.status == Up
    requires forall i :: 0 <= i < |obs| ==> obs[i]
    ensures var r := Run(ups, downs, s, obs);
      (forall i :: 0 <= i < |obs| ==> r.alerts[i] == None) &&
      r.final == s.(consecUp := s.consecUp + |obs|, consecDown := if obs == [] then s.consecDown else 0)
    decreases |obs|
  {
    if obs != [] {
      StillUpIsSilent(ups, downs, s, obs[..|obs| - 1]);
    }
  }

  /**
   * Once a DOWN alert has been sent, any number of further failures emits
   * nothing: the status and `sentDown` stay, the DOWN counter keeps growing.
   */
  lemma {:induction false} DownAlertNotRepeated(ups: int, downs: int, s: MonitorState, obs: seq<bool>)
    requires s.status == Down && s.sentDown
    requires forall i :: 0 <= i < |obs| ==> !obs[i]
    ensures var r := Run(ups, downs, s, obs);
      (forall i :: 0 <= i < |obs| ==> r.alerts[i] == None) &&
      r.final == s.(consecUp := if obs == [] then s.consecUp else 0, consecDown := s.consecDown + |obs|)
    decreases |obs|
  {
    if obs != [] {
      DownAlertNotRepeated(ups, downs, s, obs[..|obs| - 1]);
    }
  }

  /** The alerts sent by a run, with the last cycle's alert appended. */
  lemma SentSnoc(alerts: seq<Option<Event>>, a: Option<Event>)
    ensures Sent(alerts + [a]) == if a.Some? then Sent(alerts) + [a.value] else Sent(alerts)
  {
    assert (alerts + [a])[..|alerts|] == alerts;
  }

  /**
   * Over any observation sequence from the initial state, the alerts sent
   * alternate between UP and DOWN (never two of a kind in a row, so at most
   * one per confirmed episode), and the last one announces the final status;
   * no alert at all leaves the status UNKNOWN.
   */
  lemma {:induction false} AlertsAlternate(ups: int, downs: int, obs: seq<bool>)
    ensures var r := Run(ups, downs, Init, obs);
      var es := Sent(r.alerts);
      Inv(r.final) && Alternating(es) &&
      (es == [] <==> r.final.status == Unknown) &&
      (es != [] ==> Announced(es[|es| - 1]) == r.final.status)
    decreases |obs|
  {
    if obs != [] {
      var prefix := obs[..|obs| - 1];
      AlertsAlternate(ups, downs, prefix);
      var prev := Run(ups, downs, Init, prefix);
      var t := Transition(ups, downs, prev.final, obs[|obs| - 1]);
      AlertIffStatusChange(ups, downs, prev.final, obs[|obs| - 1]);
      TransitionKeepsInv(ups, downs, prev.final, obs[|obs| - 1]);
      assert Run(ups, downs, Init, obs) == RunResult(t.state, prev.alerts + [t.alert]);
      SentSnoc(prev.alerts, t.alert);
      var es := Sent(prev.alerts);
      if t.alert.Some? {
        var es' := es + [t.alert.value];
        forall i | 0 < i < |es'| ensures es'[i - 1] != es'[i] {
          if i < |es| {
            assert es'[i - 1] == es[i - 1] && es'[i] == es[i];
          } else {
            assert Announced(es[i - 1]) == prev.final.status != t.state.status == Announced(es'[i]);
          }
        }
      }
    }
  }

  /** With an UP threshold of at most 1, a single success after DOWN confirms UP. */
  lemma SingleSuccessConfirmsUp(ups: int, downs: int, s: MonitorState)
    requires ups <= 1 && s.status == Down
    ensures Transition(ups, downs, s, true) == StepResult(MonitorState(Up, false, 0, 0), Some(UpAlert))
  {
  }

  /** With a DOWN threshold of at most 1, a single failure after UP confirms DOWN. */
  lemma SingleFailureConfirmsDown(ups: int, downs: int, s: MonitorState)
    requires downs <= 1 && Inv(s) && s.status == Up
    ensures Transition(ups, downs, s, false) == StepResult(MonitorState(Down, true, 0, s.consecDown + 1), Some(DownAlert))
  {
  }

  /**
   * Right after an UP transition both counters are zero, so "exactly one
   * counter is nonzero" does not hold; only "at most one" does.
   */
  lemma BothCountersZeroAfterUp()
    ensures Run(2, 1, Init, [true, true]) == RunResult(MonitorState(Up, false, 0, 0), [None, Some(UpAlert)])
  {
  }

  /**
   * Running one more cycle after a run with known result `prev`, where that
   * cycle's transition is `t`, appends `t` to the run.
   */
  lemma RunStep(ups: int, downs: int, obs: seq<bool>, b: bool, prev: RunResult, t: StepResult)
    requires Run(ups, downs, Init, obs) == prev
    requires Transition(ups, downs, prev.final, b) == t
    ensures Run(ups, downs, Init, obs + [b]) == RunResult(t.state, prev.alerts + [t.alert])
  {
    assert (obs + [b])[..|obs|] == obs;
  }

  /** Defaults (UP 2, DOWN 1): DOWN at cycle 1, UP at cycle 4. */
  lemma ScenarioDownThenRecover()
    ensures Run(2, 1, Init, [false, false, true, true, true]).alerts
         == [Some(DownAlert), None, None, Some(UpAlert), None]
  {
    var obs: seq<bool> := [];
    RunStep(2, 1, obs, false, RunResult(Init, []),
            StepResult(MonitorState(Down, true, 0, 1), Some(DownAlert)));
    obs := obs + [false];
    RunStep(2, 1, obs, false, RunResult(MonitorState(Down, true, 0, 1), [Some(DownAlert)]),
            StepResult(MonitorState(Down, true, 0, 2), None));
    obs := obs + [false];
    RunStep(2, 1, obs, true, RunResult(MonitorState(Down, true, 0, 2), [Some(DownAlert), None]),
            StepResult(MonitorState(Down, true, 1, 0), None));
    obs := obs + [true];
    RunStep(2, 1, obs, true, RunResult(MonitorState(Down, true, 1, 0), [Some(DownAlert), None, None]),
            StepResult(MonitorState(Up, false, 0, 0), Some(UpAlert)));
    obs := obs + [true];
    RunStep(2, 1, obs, true, RunResult(MonitorState(Up, false, 0, 0), [Some(DownAlert), None, None, Some(UpAlert)]),
            StepResult(MonitorState(Up, false, 1, 0), None));
    obs := obs + [true];
    assert obs == [false, false, true, true, true];
  }

  /** Defaults (UP 2, DOWN 1): UP at cycle 2, DOWN at cycle 4, UP at cycle 6. */
  lemma ScenarioFlap()
    ensures Run(2, 1, Init, [true, true, true, false, true, true]).alerts
         == [None, Some(UpAlert), None, Some(DownAlert), None, Some(UpAlert)]
  {
    var obs: seq<bool> := [];
    RunStep(2, 1, obs, true, RunResult(Init, []),
            StepResult(MonitorState(Unknown, false, 1, 0), None));
    obs := obs + [true];
    RunStep(2, 1, obs, true, RunResult(MonitorState(Unknown, false, 1, 0), [None]),
            StepResult(MonitorState(Up, false, 0, 0), Some(UpAlert)));
    obs := obs + [true];
    RunStep(2, 1, obs, true, RunResult(MonitorState(Up, false, 0, 0), [None, Some(UpAlert)]),
            StepResult(MonitorState(Up, false, 1, 0), None));
    obs := obs + [true];
    RunStep(2, 1, obs, false, RunResult(MonitorState(Up, false, 1, 0), [None, Some(UpAlert), None]),
            StepResult(MonitorState(Down, true, 0, 1), Some(DownAlert)));
    obs := obs + [false];
    RunStep(2, 1, obs, true, RunResult(MonitorState(Down, true, 0, 1), [None, Some(UpAlert), None, Some(DownAlert)]),
            StepResult(MonitorState(Down, true, 1, 0), None));
    obs := obs + [true];
    RunStep(2, 1, obs, true, RunResult(MonitorState(Down, true, 1, 0), [None, Some(UpAlert), None, Some(DownAlert), None]),
            StepResult(MonitorState(Up, false, 0, 0), Some(UpAlert)));
    obs := obs + [true];
    assert obs == [true, true, true, false, true, true];
  }

  /** UP 3, DOWN 2: the lone success resets the DOWN counter, so DOWN is confirmed only at cycle 4. */
  lemma ScenarioInterruptedDown()
    ensures Run(3, 2, Init, [false, true, false, false]).alerts
         == [None, None, None, Some(DownAlert)]
  {
    var obs: seq<bool> := [];
    RunStep(3, 2, obs, false, RunResult(Init, []),
            StepResult(MonitorState(Unknown, false, 0, 1), None));
    obs := obs + [false];
    RunStep(3, 2, obs, true, RunResult(MonitorState(Unknown, false, 0, 1), [None]),
            StepResult(MonitorState(Unknown, false, 1, 0), None));
    obs := obs + [true];
    RunStep(3, 2, obs, false, RunResult(MonitorState(Unknown, false, 1, 0), [None, None]),
            StepResult(MonitorState(Unknown, false, 0, 1), None));
    obs := obs + [false];
    RunStep(3, 2, obs, false, RunResult(MonitorState(Unknown, false, 0, 1), [None, None, None]),
            StepResult(MonitorState(Down, true, 0, 2), Some(DownAlert)));
    obs := obs + [false];
    assert obs == [false, true, false, false];
  }
}
