/**
 * The polling loop of `main()`: start from the initial state, then for each
 * cycle classify the probe's outcome and run one step of the monitor.  The
 * endless loop is modelled by a finite sequence of probe outcomes.
 */
module Loop {
  import opened Wrappers
  import opened Monitor
  import Probe
  import MonitorProperties

  /** The observation of every cycle: whether its probe found the endpoint up. */
  function Observations(probes: seq<Probe.ProbeResult>): (obs: seq<bool>)
    ensures |obs| == |probes|
    ensures forall i :: 0 <= i < |probes| ==> (obs[i] <==> probes[i].Response? && 200 <= probes[i].statusCode < 400)
  {
    seq(|probes|, i requires 0 <= i < |probes| => Probe.IsUp(probes[i]))
  }

  /**
   * Runs the monitor with thresholds `ups` and `downs` over the probe outcomes
   * and returns the alert of every cycle and the final state.  These are
   * exactly those of `Run`, so the alerts alternate between UP and DOWN.
   */
  method Watch(ups: int, downs: int, probes: seq<Probe.ProbeResult>)
    returns (alerts: seq<Option<Event>>, final: MonitorState)
    ensures RunResult(final, alerts) == Run(ups, downs, Init, Observations(probes))
    ensures Alternating(Sent(alerts))
    ensures Inv(final)
  {
    ghost var obs := Observations(probes);
    var m := new Monitor(ups, downs);
    alerts := [];
    var i := 0;
    while i < |probes|
      invariant 0 <= i <= |probes|
      invariant m.upsRequired == ups && m.downsRequired == downs && m.Valid()
      invariant RunResult(m.State(), alerts) == Run(ups, downs, Init, obs[..i])
    {
      var isUp := Probe.IsUp(probes[i]);
      var alert := m.Step(isUp);
      assert obs[..i + 1][..i] == obs[..i];
      alerts := alerts + [alert];
      i := i + 1;
    }
    assert obs[..i] == obs;
    final := m.State();
    MonitorProperties.AlertsAlternate(ups, downs, obs);
  }
}
