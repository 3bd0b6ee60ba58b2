/**
 * The debounced UP/DOWN alert state machine of the Bamboo monitor
 * (the body of the polling loop in `main()`).
 *
 * Each poll cycle consumes one boolean probe observation, updates the four
 * pieces of monitor state and emits at most one alert.  `Transition` is the
 * pure specification of one cycle and `Run` folds it over a finite sequence
 * of observations; the class `Monitor` holds the state as mutable fields and
 * its `Step` method performs one cycle in place, proved against `Transition`.
 */
module Monitor {
  import opened Wrappers

  /** The last confirmed (debounced) availability. */
  datatype Status = Unknown | Up | Down

  /** The alert a poll cycle may emit. */
  datatype Event = UpAlert | DownAlert

  /** The four variables the polling loop keeps between cycles. */
  datatype MonitorState = MonitorState(status: Status, sentDown: bool, consecUp: nat, consecDown: nat)

  /** The new state after one cycle and the alert that cycle emitted, if any. */
  datatype StepResult = StepResult(state: MonitorState, alert: Option<Event>)

  /** The final state after a sequence of cycles and the alert of every cycle, in order. */
  datatype RunResult = RunResult(final: MonitorState, alerts: seq<Option<Event>>)

  /** The state the loop starts from: status UNKNOWN, no DOWN alert sent, both counters zero. */
  const Init := MonitorState(Unknown, false, 0, 0)

  /** The status an alert announces. */
  function Announced(e: Event): Status
  {
    match e
    case UpAlert => Up
    case DownAlert => Down
  }

  /**
   * The invariant of every reachable state: at most one counter is nonzero,
   * and a DOWN alert has been sent exactly when the status is DOWN.
   */
  predicate Inv(s: MonitorState)
  {
    (s.consecUp == 0 || s.consecDown == 0) && (s.sentDown <==> s.status == Down)
  }

  /**
   * One poll cycle with thresholds `ups` (consecutive successes required to
   * confirm UP) and `downs` (consecutive failures required to confirm DOWN).
   * The DOWN branch keeps the two separate tests of the loop: the status
   * check and the `sentDown` check.
   */
  function Transition(ups: int, downs: int, s: MonitorState, isUp: bool): (r: StepResult)
    // a true observation zeroes the DOWN counter, a false one the UP counter
    ensures isUp ==> r.state.consecDown == 0
    ensures !isUp ==> r.state.consecUp == 0
    // a true observation never yields DOWN, a false one never yields UP
    ensures isUp ==> r.alert != Some(DownAlert)
    ensures !isUp ==> r.alert != Some(UpAlert)
    // the status changes only when the counter reaches its threshold on this cycle, and then always
    ensures isUp && s.consecUp + 1 >= ups ==> r.state.status == Up
    ensures !isUp && s.consecDown + 1 >= downs ==> r.state.status == Down && r.state.sentDown
    ensures isUp && s.consecUp + 1 < ups ==> r.state == s.(consecUp := s.consecUp + 1, consecDown := 0) && r.alert == None
    ensures !isUp && s.consecDown + 1 < downs ==> r.state == s.(consecUp := 0, consecDown := s.consecDown + 1) && r.alert == None
    // while already UP, a success only advances the UP counter (it is never reset there)
    ensures isUp && s.status == Up ==> r.state == s.(consecUp := s.consecUp + 1, consecDown := 0) && r.alert == None
    // a failure always advances the DOWN counter, also on the cycle that confirms DOWN
    ensures !isUp ==> r.state.consecDown == s.consecDown + 1
    // an UP alert is emitted exactly on the cycle that confirms UP from another status
    ensures r.alert == Some(UpAlert) <==> isUp && s.consecUp + 1 >= ups && s.status != Up
    ensures r.alert == Some(UpAlert) ==> r.state == MonitorState(Up, false, 0, 0)
    // a DOWN alert is emitted exactly on a confirmed failure while none has been sent
    ensures r.alert == Some(DownAlert) <==> !isUp && s.consecDown + 1 >= downs && !s.sentDown
  {
    if isUp then
      var up := s.consecUp + 1;
      if up >= ups then
        if s.status != Up then StepResult(MonitorState(Up, false, 0, 0), Some(UpAlert))
        else StepResult(MonitorState(s.status, s.sentDown, up, 0), None)
      else StepResult(MonitorState(s.status, s.sentDown, up, 0), None)
    else
      var down := s.consecDown + 1;
      if down >= downs then
        var status := if s.status != Down then Down else s.status;
        if !s.sentDown then StepResult(MonitorState(status, true, 0, down), Some(DownAlert))
        else StepResult(MonitorState(status, s.sentDown, 0, down), None)
      else StepResult(MonitorState(s.status, s.sentDown, 0, down), None)
  }

  /** The cycles of `obs`, in order, starting from `s`. */
  function Run(ups: int, downs: int, s: MonitorState, obs: seq<bool>): (r: RunResult)
    ensures |r.alerts| == |obs|
    decreases |obs|
  {
    if obs == [] then RunResult(s, [])
    else
      var prev := Run(ups, downs, s, obs[..|obs| - 1]);
      var t := Transition(ups, downs, prev.final, obs[|obs| - 1]);
      RunResult(t.state, prev.alerts + [t.alert])
  }

  /** The alerts actually sent, in order, with the silent cycles dropped. */
  function Sent(alerts: seq<Option<Event>>): (es: seq<Event>)
    ensures |es| <= |alerts|
    decreases |alerts|
  {
    if alerts == [] then []
    else
      var rest := Sent(alerts[..|alerts| - 1]);
      match alerts[|alerts| - 1]
      case Some(e) => rest + [e]
      case None => rest
  }

  /** No alert is immediately followed by another alert of the same kind. */
  predicate Alternating(es: seq<Event>)
  {
    forall i :: 0 < i < |es| ==> es[i - 1] != es[i]
  }

  /**
   * The polling loop's state, held in mutable fields that `Step` updates in
   * place, with the two thresholds fixed at construction.
   */
  class Monitor {
    const upsRequired: int
    const downsRequired: int
    var status: Status
    var sentDown: bool
    var consecUp: nat
    var consecDown: nat

    /** The current values of the four loop variables. */
    function State(): MonitorState
      reads this
    {
      MonitorState(status, sentDown, consecUp, consecDown)
    }

    /** The object invariant: the fields form a reachable state. */
    predicate Valid()
      reads this
    {
      Inv(State())
    }

    constructor (ups: int, downs: int)
      ensures upsRequired == ups && downsRequired == downs
      ensures State() == Init && Valid()
    {
      upsRequired, downsRequired := ups, downs;
      status, sentDown, consecUp, consecDown := Unknown, false, 0, 0;
    }

    /** One poll cycle on observation `isUp`; returns the alert to send, if any. */
    method Step(isUp: bool) returns (alert: Option<Event>)
      requires Valid()
      modifies this
      ensures Valid()
      ensures State() == Transition(upsRequired, downsRequired, old(State()), isUp).state
      ensures alert == Transition(upsRequired, downsRequired, old(State()), isUp).alert
    {
      if isUp {
        consecUp := consecUp + 1;
        consecDown := 0;
        if consecUp >= upsRequired {
          if status != Up {
            status := Up;
            sentDown := false;
            consecUp := 0;
            alert := Some(UpAlert);
          } else {
            alert := None;
          }
        } else {
          alert := None;
        }
      } else {
        consecUp := 0;
        consecDown := consecDown + 1;
        alert := None;
        if consecDown >= downsRequired {
          if status != Down {
            status := Down;
          }
          if !sentDown {
            alert := Some(DownAlert);
            sentDown := true;
          }
        }
      }
    }
  }
}
