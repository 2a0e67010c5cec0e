# RailOptic simulation core in Dafny

This project models the simulation and arbitration logic of the `RailOptic`
React component (`App.js`): a list of trains advanced tick by tick along a
normalised track axis, a junction-conflict detector on track 1, an
accept/halt recommendation built from the contenders' priorities, the
effect of accepting or rejecting that recommendation, delay injection, the
key performance indicators, and the "MM:SS" clock display. Each of the
component's handlers is a pure function over an immutable `State` record
(`time`, `trains`, `pending` recommendation, `kpis`).

Modules:

- `Wrappers` (`wrappers.dfy`): `Option` and `Result`.
- `Trains` (`trains.dfy`): the `Train` record, `Status`, the invariant
  `WellFormed` (unique ids, non-negative speed and delay, position never
  beyond target), the roster relation `Evolves` (no position or delay
  ever decreases), and the initial train list.
- `Decimal` (`decimal.dfy`): `toString` and `padStart` on numbers, with a
  parser as their inverse.
- `Clock` (`clock.dfy`): `formatTime`.
- `TickEngine` (`tick.dfy`): `updateTrainPositions`.
- `Metrics` (`metrics.dfy`): `updateKPIs` and `Math.round`.
- `Arbitration` (`arbitration.dfy`): conflict detection,
  `getOptimalRecommendation`, and the train update of `acceptRecommendation`.
- `Disruption` (`disruption.dfy`): `createDisruption`.
- `Simulation` (`simulation.dfy`): the state, its five transitions (timer
  tick, request, accept, reject, disrupt), and the invariant along any run.
- `Scenarios` (`scenarios.dfy`): concrete arbitration and disruption cases.

Modelling choices:

- Positions and speeds are `real`, an idealisation of JavaScript doubles;
  the ×1.2 speed boost is exact. Delays and priorities are `int`.
- Every `Math.random()` call becomes a caller-supplied draw in [0, 1)
  (`Arbitration.Draws`, in call order), and the source's arithmetic on it is
  kept: `Math.round(u*10+5)`, `Math.floor(u*n)`, `u > 0.5`,
  `Math.round(u*8+2)`. The ranges 5..15, 0..n-1 and 2..10 are then proved.
- `Math.round` is `floor(x + 0.5)`: nearest integer, halves rounded up.
- `averageDelay` over an empty list is `0/0`, which is `NaN` in JavaScript;
  it is modelled as `None`.
- In the no-conflict branch an empty train list makes the source read
  `.id` of `undefined` and throw; the model returns `Err(NoTrains)` and the
  state is left unchanged.
- The accept button is only rendered while a recommendation is pending
  (App.js:319-356); `Simulation.Accept` with nothing pending is therefore a
  no-op rather than a crash.
- The request button is disabled while a recommendation is pending
  (App.js:312); `Simulation.Generate` is a no-op in that case.

Two behaviours of the code that a reader might not expect:

- Ties in arbitration are not broken by id: the source's `reduce` keeps the
  accumulator only on strictly greater priority, so the LAST
  maximal-priority contender in list order wins.
- Metrics are not recomputed when a recommendation is accepted; only the
  conflicts-averted counter changes.

## Model

| member | source | states |
|---|---|---|
| TickEngine.StepTrain | App.js:93-99 | only position changes; a non-moving or arrived train is returned identical; otherwise it advances by its speed or stops at the target, whichever is nearer; never beyond target, never backwards for non-negative speed |
| TickEngine.UpdateTrainPositions | App.js:90-102 | every train is stepped independently; length and order are kept |
| TickEngine.TickKeepsWellFormed | App.js:92-100 | a tick keeps unique ids and the per-train invariant, changes no id, name, priority, target, track or delay, and moves each train forward within its target |
| TickEngine.Ticks | App.js:81-83 | after any number of ticks every field but position is unchanged |
| TickEngine.TicksStayInBounds | App.js:93-96 | after any number of ticks a train is at or ahead of its start and never beyond its target |
| TickEngine.StoppedTrainStays | App.js:93 | a halted or delayed train is unchanged by any number of ticks |
| Metrics.Round | App.js:108 | `Math.round` yields the integer within half of x, halves going up |
| Metrics.ArrivedCount | App.js:107 | throughput lies in 0..n; it equals n exactly when all trains have arrived and 0 exactly when none has |
| Metrics.DelaySum | App.js:108-109 | the summed delay is non-negative when every delay is |
| Metrics.UpdateKpis | App.js:104-111 | throughput is the arrived count; average delay is NaN (None) exactly for an empty list and otherwise within half of sum/n; efficiency is the larger of 85 and 100 minus the sum; the conflicts counter is carried over |
| Metrics.KpisInRange | App.js:107-109 | for well-formed trains throughput is in 0..n, efficiency in 85..100 and average delay non-negative |
| Metrics.ArrivedCountMonotone | App.js:107 | if every arrived train stays arrived, the count cannot fall |
| Metrics.TickThroughputNonDecreasing | App.js:93-107 | a tick never lowers throughput |
| Metrics.DelaySumUpdate | App.js:108 | changing one train's delay changes the total by exactly the difference |
| Clock.FormatTime | App.js:113-117 | the display is digits, a colon three from the end, then two digits; it is exactly five characters iff the time is below 6000 seconds, and a longer minutes field has no leading zero |
| Clock.ParseFormatTime | App.js:113-117 | reading the display back as minutes*60 + seconds recovers the tick count |
| Clock.FormatTimeInjective | App.js:113-117 | distinct times display differently |
| Clock.FormatTimeShort | App.js:113-117 | below 6000 the display is "MM:SS" with ':' at index 2, SS below 60 and MM*60+SS equal to the time |
| Decimal.NatToString | App.js:116 | `toString` gives digits with no leading zero; one digit iff below 10, at most two iff below 100 |
| Decimal.ParseNatToString | App.js:116 | parsing the rendered digits gives back the number |
| Decimal.PadStart | App.js:116 | `padStart` prepends fill characters up to the width, keeps the string as a suffix, never truncates |
| Decimal.ParsePadded | App.js:116 | zero padding keeps the value |
| Decimal.IntToString | App.js:136 | the rendered priority starts with '-' exactly when negative, and the remaining characters are the decimal digits of its absolute value, with no leading zero |
| Arbitration.Contenders | App.js:121-123 | a train is a contender iff it is in the list, on track 1 and strictly between 70 and 85; boundary positions and other tracks are excluded |
| Arbitration.ContendersAppend | App.js:121-123 | detection distributes over concatenation, so contenders keep list order |
| Arbitration.ContendersUnique | App.js:121-123 | contenders of a list with unique ids have unique ids |
| Arbitration.WinnerIndex | App.js:126-128 | the reduce picks a contender of maximal priority, and every later contender has strictly lower priority (ties go to the later one) |
| Arbitration.WinnerIsLastMaximal | App.js:126-128 | any index with those two properties is the winner's, so the rule determines it uniquely |
| Arbitration.HaltIds | App.js:129-135 | an id is halted iff it is a contender's id other than the winner's |
| Arbitration.HaltIdsCount | App.js:129 | with unique ids exactly one contender is left out of the halt list |
| Arbitration.ChooseIndex | App.js:142 | `Math.floor(u*n)` is a valid list index |
| Arbitration.ConflictDelaySaved | App.js:131 | the conflict estimate is between 5 and 15 minutes |
| Arbitration.AdvisoryDelaySaved | App.js:149 | the advisory estimate is between 2 and 10 minutes |
| Arbitration.GetOptimalRecommendation | App.js:119-153 | fails only on an empty list; with two or more contenders the max-priority winner alone proceeds, the other contenders' ids halt, confidence 0.87; otherwise the drawn train is the single entry of proceed (draw > 0.5) or of halt, the other side empty, confidence 0.92 |
| Arbitration.ConflictPartition | App.js:125-139 | with unique ids proceed has one id, halt has one fewer than the contenders, no id is on both, and together they are exactly the contenders' ids |
| Arbitration.ApplyToTrain | App.js:157-164 | halt wins: a halted id stops with speed 0; else a proceed id moves at 1.2 times its speed; else the train is unchanged; only status and speed ever change |
| Arbitration.ApplyRecommendation | App.js:155-166 | every train is updated independently; length and order are kept |
| Arbitration.ApplyKeepsWellFormed | App.js:156-166 | accepting keeps the invariant and never changes position, delay or identity |
| Arbitration.ContenderIds | App.js:121-135 | with unique ids a train's id is a contender id iff the train is in the junction zone |
| Arbitration.AcceptResolvesConflict | App.js:125-166 | after accepting a conflict recommendation the winner moves, every other contender is halted at speed 0, and trains outside the zone are untouched |
| Disruption.CreateDisruption | App.js:182-193 | a no-op for an empty id, non-positive minutes or an unknown id; otherwise matching trains gain exactly the minutes and become delayed, all else unchanged |
| Disruption.Delay | App.js:184-190 | each train carrying the id is delayed, every other train is unchanged |
| Disruption.DisruptionKeepsWellFormed | App.js:184-190 | a disruption keeps the invariant and only grows delays |
| Disruption.DisruptionAddsExactly | App.js:187 | with unique ids the network's total delay rises by exactly the injected minutes |
| Disruption.DisruptedTrainStops | App.js:187 | the disrupted train is marked delayed, so any number of later ticks leaves it exactly as the disruption left it |
| Simulation.Tick | App.js:81-84 | the clock advances by one, the trains are moved by one position update, all indicators are recomputed from the moved trains with the counter kept, the pending recommendation is kept, and, when the stored throughput matches the trains (as the invariant keeps it), throughput does not fall |
| Simulation.Generate | App.js:119-153 | no-op while a recommendation is pending or the list is empty; otherwise only the pending recommendation changes |
| Simulation.Accept | App.js:155-175 | applies the pending recommendation, adds exactly 1 to the counter in either branch, clears it; no-op with nothing pending |
| Simulation.Reject | App.js:177-180 | clears the pending recommendation and changes nothing else |
| Simulation.Disrupt | App.js:182-193 | only the trains change, as the disruption prescribes |
| Simulation.StepKeepsInv | App.js:81-193 | every transition keeps the invariant (including a stored throughput equal to the arrived count) and the roster, and never lowers a position, a delay, the clock or the counter |
| Simulation.RunKeepsInv | App.js:81-193 | the same along any sequence of events: positions and delays never decrease |
| Simulation.RejectAfterAccept | App.js:173-180 | rejecting after accepting has no further effect |
| Simulation.ReachableKeepsInv | App.js:20-74 | every state reachable from the initial train list satisfies the invariant |
| Trains.InitialTrainsWellFormed | App.js:20-73 | the initial trains have unique ids, non-negative speeds and delays, and positions not beyond their targets |
| Scenarios.JunctionScenario | App.js:121-138 | trains at 72 (priority 9) and 78 (priority 5) on track 1: the first proceeds, the second halts |
| Scenarios.TieGoesToLater | App.js:126-128 | on equal priority the later contender proceeds |
| Scenarios.FreightDisruption | App.js:182-190 | five minutes on F205 take its delay from 5 to 10 and mark it delayed; zero minutes or id X999 change nothing |

## Left out

- JSX rendering, styling, colours, icons, the track visualisation and the KPI panels (App.js:195-497): presentation only.
- The `setInterval`/`useEffect` timer and start/pause toggling (App.js:77-88, 282-292): wall-clock scheduling; one tick is the explicit `Simulation.Tick`.
- Simulation.Tick: computes the indicators from the trains after the move, not from the stale `trains` captured by the interval's closure (App.js:84, 107-109), which in the source keeps reporting the list as it was when the timer started.
- The `reason` texts (App.js:136, 148) are built from the same templates but no property is stated about them.
- The disruption form's string input, `parseInt` and the string-versus-number comparison (App.js:183, 187, 401): minutes are an `int`; the form reset at App.js:191 is UI state.
- The `showExplanation` flag (App.js:174, 179) and the disabled-button guards beyond the pending check (App.js:408): UI state.
- Floating-point rounding of positions, speeds and `sum / n`: reals are exact.
- The train fields `type` and `color`: presentation only.
