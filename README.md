# Bamboo up/down monitor — Dafny model

The monitor polls one Bamboo REST endpoint
(`<base>/rest/api/latest/project/<key>?expand=plans&max-result=500`) at a
fixed interval and sends an alert when its availability changes. A
debounced state machine turns the individual probe results into confirmed
UP/DOWN transitions. It sends at most one alert per confirmed transition.

This project models:

- **the alert state machine** (the body of the polling loop in `main()`).
  `Monitor.Transition` is the pure specification of one poll cycle over the
  four loop variables `state`, `sent_down`, `consec_up` and `consec_down`.
  `Monitor.Run` folds it over a finite sequence of observations. The class
  `Monitor.Monitor` keeps the four variables as mutable fields; its `Step`
  method performs one cycle in place and is proved against `Transition`.
  `Loop.Watch` is the loop itself: it creates the state, classifies each
  probe outcome and steps the monitor once per cycle.
- **the probe** (`Probe`): how an HTTP outcome is classified as up or down,
  and how the request's credentials and headers are chosen.
- **start-up** (`Startup`): the checks that run before the loop starts, and
  the composition of the target URL.

The thresholds (`CONSECUTIVE_UPS_REQUIRED`, `CONSECUTIVE_DOWNS_REQUIRED`) are
unbounded `int`s, as the code parses them with `int(...)`; values of 1 or less
are allowed. The counters are unbounded naturals. In the stable-UP branch
`consec_up` keeps growing and is never reset.

Two facts about the code that are easy to misread:

- Both counters are zero at the start and right after an UP transition:
  the UP branch zeroes `consec_down` and then resets `consec_up` when it
  confirms UP. So "exactly one counter is nonzero" does not hold; only "at
  most one counter is nonzero" does (`ReachableStates`,
  `BothCountersZeroAfterUp`).
- With thresholds UP 3 / DOWN 2 over `[false, true, false, false]`, the
  success at cycle 2 resets `consec_down`, so DOWN is confirmed at cycle 4,
  not cycle 3 (`ScenarioInterruptedDown`).

## Model

| member | source | states |
|---|---|---|
| `Monitor.Transition` | bamboo_mointor.py:106-136 | a true observation zeroes `consec_down` and a false one zeroes `consec_up`; a true observation never gives DOWN and a false one never gives UP; the status becomes UP (DOWN) exactly when the UP (DOWN) counter reaches its threshold on this cycle; below the threshold only the counters change and nothing is sent; while already UP a success only increments `consec_up` (never reset there) and keeps `sent_down`; a failure always increments `consec_down`, also on the cycle that confirms DOWN; an UP alert is sent iff UP is confirmed from another status, and leaves (UP, no DOWN sent, 0, 0); a DOWN alert is sent iff DOWN is confirmed while none has been sent |
| `Monitor.Monitor.constructor` | bamboo_mointor.py:98-101 | the loop starts in (UNKNOWN, no DOWN sent, 0, 0) with the given thresholds, and that state satisfies the invariant |
| `Monitor.Monitor.Step` | bamboo_mointor.py:106-136 | updating the four fields in place yields exactly the state and alert of `Transition`, and keeps the invariant |
| `Monitor.Run` | bamboo_mointor.py:103-136 | the endless loop as a fold of `Transition` over a finite observation sequence: one alert slot per cycle; its behaviour is stated by `RunKeepsInv`, `AlertMatchesObservation`, `StillUpIsSilent`, `DownAlertNotRepeated`, `AlertsAlternate` and the scenario lemmas |
| `MonitorProperties.TransitionKeepsInv` | bamboo_mointor.py:106-132 | one cycle keeps "at most one counter nonzero" and "`sent_down` iff status is DOWN" |
| `MonitorProperties.AlertIffStatusChange` | bamboo_mointor.py:109-132 | from a state satisfying the invariant, a cycle sends an alert iff it changes the status, the alert announces the new status, and the `not sent_down` test fires iff this cycle enters DOWN |
| `MonitorProperties.RunKeepsInv` | bamboo_mointor.py:103-136 | any number of cycles from a state satisfying the invariant ends in a state satisfying it |
| `MonitorProperties.AlertMatchesObservation` | bamboo_mointor.py:106-132 | in any run, an UP alert is only ever sent on a success cycle and a DOWN alert only on a failure cycle |
| `MonitorProperties.ReachableStates` | bamboo_mointor.py:98-132 | in every state the loop reaches, at most one counter is nonzero, and the two DOWN-branch tests `state != "DOWN"` and `not sent_down` agree |
| `MonitorProperties.StillUpIsSilent` | bamboo_mointor.py:106-118 | from status UP, any run of successes sends nothing, keeps status and `sent_down`, zeroes `consec_down` and increases `consec_up` by the run length |
| `MonitorProperties.DownAlertNotRepeated` | bamboo_mointor.py:121-134 | once a DOWN alert has been sent, any run of failures sends nothing, keeps status and `sent_down`, zeroes `consec_up` and increases `consec_down` by the run length |
| `MonitorProperties.AlertsAlternate` | bamboo_mointor.py:98-136 | over any observation sequence from the start, the alerts sent alternate between UP and DOWN, so there is at most one per confirmed episode; the last one announces the final status; with no alert the status is still UNKNOWN |
| `MonitorProperties.SingleSuccessConfirmsUp` | bamboo_mointor.py:106-116 | with an UP threshold of at most 1, one success after DOWN confirms UP and sends the UP alert |
| `MonitorProperties.SingleFailureConfirmsDown` | bamboo_mointor.py:121-132 | with a DOWN threshold of at most 1, one failure after UP confirms DOWN and sends the DOWN alert |
| `MonitorProperties.BothCountersZeroAfterUp` | bamboo_mointor.py:107-113 | with the default thresholds, two successes from the start confirm UP and leave both counters zero |
| `MonitorProperties.ScenarioDownThenRecover` | bamboo_mointor.py:98-136 | thresholds 2/1 over `[F, F, T, T, T]`: DOWN alert at cycle 1, UP alert at cycle 4, nothing else |
| `MonitorProperties.ScenarioFlap` | bamboo_mointor.py:98-136 | thresholds 2/1 over `[T, T, T, F, T, T]`: UP at cycle 2, DOWN at cycle 4, UP at cycle 6, nothing else |
| `MonitorProperties.ScenarioInterruptedDown` | bamboo_mointor.py:98-136 | thresholds 3/2 over `[F, T, F, F]`: the lone success resets the DOWN counter; a single DOWN alert at cycle 4 |
| `Loop.Observations` | bamboo_mointor.py:104 | each cycle's observation is true iff its probe got a response with status code in 200..399 |
| `Loop.Watch` | bamboo_mointor.py:98-136 | the loop's alerts and final state are exactly those of `Run` over the classified probe outcomes; the alerts sent alternate and the final state satisfies the invariant |
| `Probe.IsUp` | bamboo_mointor.py:63-67 | the endpoint is up iff it answered with a 2xx or 3xx status code (hundreds digit 2 or 3); a transport exception counts as down |
| `Probe.SelectAuth` | bamboo_mointor.py:54-57 | a non-empty bearer token wins; otherwise basic auth iff both user and password are non-empty; otherwise no auth |
| `Probe.Encode` | bamboo_mointor.py:52-57 | the User-Agent header is always present; an `Authorization: Bearer <token>` header iff the mode is a bearer token; basic credentials `(user, password)` iff the mode is basic; no other header |
| `Probe.DecodeEncode` | bamboo_mointor.py:52-57 | the authentication mode can be read back from the credentials and headers built for it |
| `Probe.AuthAndHeaders` | bamboo_mointor.py:51-58 | the User-Agent header is always present; an `Authorization: Bearer <token>` header and no basic credentials iff a token is set; basic credentials `(user, password)` iff no token and both are set; no other header; the mode read back is `SelectAuth`'s |
| `Startup.RStrip` | bamboo_mointor.py:13 | the result is a prefix of the input, does not end in the stripped character, and only that character was removed |
| `Startup.RStripIgnoresTrailing` | bamboo_mointor.py:13 | appending any number of the stripped character does not change the result |
| `Startup.RStripIdempotent` | bamboo_mointor.py:13 | stripping twice is stripping once |
| `Startup.Lower` | bamboo_mointor.py:28 | the channel name is lower-cased character by character; no upper-case ASCII letter remains |
| `Startup.Display` | bamboo_mointor.py:39 | `str()` of a set address is the address itself; an unset address prints as "None", which never starts with "whatsapp:" |
| `Startup.TargetUrl` | bamboo_mointor.py:43-46 | the URL starts with the base followed by the project path, ends with the query, and the project key is exactly what lies between them |
| `Startup.Start` | bamboo_mointor.py:13-46 | start-up fails with a missing-target error iff the base URL (trailing '/' removed) or the project key is empty; otherwise it fails with a WhatsApp-address error iff the lower-cased channel (default "whatsapp") is "whatsapp" and `str(FROM)` or `str(TO)` does not start with "whatsapp:"; otherwise the target is the stripped base, which does not end in '/', followed by the project path, the key and the query |
| `Startup.TrailingSlashesIgnored` | bamboo_mointor.py:13-46 | trailing slashes on the configured base URL do not change the outcome of start-up |

## Left out

- The HTTP request itself (`requests.get` with headers, auth, timeout and redirects) is a network call. The model takes its outcome, a status code or a transport exception, as input.
- `send_alert`, the Twilio client and its delivery-status polling (six polls ten seconds apart) are external messaging I/O. An alert is the `Event` that a cycle returns.
- Loading `.env` and reading environment variables are environment I/O. `CHECK_INTERVAL_SECONDS` and `TIMEOUT_SECONDS` only feed `sleep` and the request timeout. The `int(...)` parsing of the thresholds, and its `ValueError`, are not modelled; the thresholds are `int` parameters.
- Timestamps (`now()`), message text, and all console logging are wall-clock reads and output. This includes the banner, with its floating-point interval in minutes.
- `time.sleep(CHECK_INTERVAL)` and the endless `while True` are not modelled. The loop runs over a finite sequence of probe outcomes.
- The Twilio account SID and auth token only gate `send_alert`, so they are not modelled.
- `Startup.Lower`: lower-cases ASCII letters only. Python's `str.lower()` also folds non-ASCII letters; this matters only for a channel name that is "whatsapp" after non-ASCII case folding.
