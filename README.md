# BB84 key exchange and a quantum-repeater network, modelled in Dafny

This project models two small simulations and proves properties of them.

**BB84 (`QKD.py`, `run_simulation`).** The sender prepares ten photons, each
with a random bit and a random basis ('+' or 'x'). An eavesdropper, when
enabled, intercepts every photon at the midpoint. She measures it in a random
basis and resends what she read in that basis. The receiver measures each
photon in a random basis. The two sides then:

- sift the bits on basis agreement;
- reveal a random sample of about 30% of the sifted bits, distinct indices and
  at least one;
- count the errors in the sample;
- declare an eavesdropper when the error rate (the QBER) is strictly above
  0.15;
- keep the unsampled bits, in order, as the key.

**Repeater network (`quantum_repeters_simulation.py`).** Five nodes are joined
by four connections: the main tower, two repeaters and two receivers. Every
40 frames the tower emits a photon towards Repeater 1 or Repeater 2. In every
frame a photon's intensity decays by the attenuation rate, but never below
0.05, and its burst glow fades. A photon that reaches a repeater is boosted
and rerouted to that repeater's receiver. A photon that reaches a receiver
vanishes. The main loop counts frames. Unless paused, it spawns photons,
updates every photon and keeps the live ones. Pause and reset act on the
same state.

Files:

- `wrappers.dfy`: `Option`.
- `qkd.dfy` (module `QKD`): randomness enters as a `Draws` value: one real
  draw per photon and purpose for `randbit()` and `randbasis()`, and the
  `random()` draws of the sample selection in order. A draw whose call the
  source skips (a guess when the bases agree) goes unused. Specification
  functions cover each phase. Imperative methods follow the source loop by
  loop: `Transmit` overwrites the working arrays in place, and `Sift`,
  `ChooseSample`, `CountErrors`, `FinalKey`, `EstimateKey` and
  `RunSimulation` are the remaining loops. Each method is proved equal to its
  specification function.
- `qkd_properties.dfy` (module `QKDProperties`): lemmas about a whole run.
- `repeaters.dfy` (module `RepeaterNetwork`):
  - `update_photon` as the function `UpdateRule`.
  - The photon dictionary as the class `Photon`, whose method `Update`
    changes its fields in place.
  - The main loop's globals as the class `Simulation`, with `Step`,
    `TogglePause` and `Reset`.
  - The spawn and alive-filter step as the methods `Spawn`, `UpdateAll` and
    `Advance`, specified by the function `Survivors`.
- `repeater_journey.dfy` (module `RepeaterJourney`): a photon's whole path,
  tower to repeater to receiver, under repeated updates.

The model follows the code everywhere except the sifting step. There
`RunSimulation` and `Simulate` sift on the sender's own record, and the code
as written is kept as `AsWrittenEstimate` (see Findings).

## Model

| member | source | states |
|---|---|---|
| QKD.RandBit | QKD.py:37-38 | `randbit()` gives 0 exactly when its uniform draw is below one half, and 1 otherwise. |
| QKD.RandBasis | QKD.py:40-41 | `randbasis()` gives '+' exactly when its uniform draw is below one half, and 'x' otherwise. |
| QKD.Transmit | QKD.py:87-140 | The photon loop. With Eve on, each working-copy entry becomes Eve's basis. Her bit is the sender's bit when her basis matches, else a random bit. The receiver gets N bits: the forwarded bit where the bases agree, else a random bit. Eve's intercepts are 0..N-1 with Eve on and empty otherwise. |
| QKD.MatchPositions | QKD.py:145-153 | The match positions are strictly increasing and below N. An index is among them exactly when the two bases agree there. |
| QKD.Sift | QKD.py:145-153 | The sifting loop returns the match positions and two lists of that length. The lists hold each side's bits at exactly those positions, in order. |
| QKD.SampleSize | QKD.py:159-162 | The sample size is between 1 and L. It is exactly 1 when 3L < 10, and the floor of 3L/10 otherwise. |
| QKD.CandidateIndex | QKD.py:167 | `int(random() * L)` is an index below L: the floor of the scaled draw. |
| QKD.FirstOccurrences | QKD.py:164-169 | The values kept by the "append if not already chosen" rule are pairwise distinct. They are exactly the drawn values. |
| QKD.ChooseSample | QKD.py:163-169 | The selection loop returns the first `size` distinct candidates, in draw order. They are distinct, below L and exactly `size` of them. Finite draws that run out first give None. |
| QKD.ErrorCount | QKD.py:171-174 | At most the sample size. It is zero exactly when every sampled pair agrees, and equals the sample size exactly when every sampled pair differs. |
| QKD.CountErrors | QKD.py:171-174 | The error-count loop computes ErrorCount, which is at most the sample size. |
| QKD.Qber | QKD.py:175 | The QBER lies in [0, 1], and QBER times sample size equals the error count. |
| QKD.Detected | QKD.py:176 | Detection, written with the strict 0.15 threshold, holds exactly when 100·errors > 15·sampleSize. |
| QKD.Unsampled | QKD.py:178-182 | The indices below L that are not sampled, strictly increasing. |
| QKD.UnsampledLength | QKD.py:178-182 | With distinct sample indices below L, exactly L − sampleSize indices remain. |
| QKD.FinalKey | QKD.py:178-182 | The final-key loop returns the sifted bits at the unsampled indices, in order. For a distinct, in-range sample it has length L − sampleSize. |
| QKD.EstimateKey | QKD.py:155-182 | The tail of the run: early return when nothing is sifted, then sample size, sample, errors, QBER, detection and final key. It equals EstimateFrom. |
| QKD.AsWrittenEstimate | QKD.py:145-182 | The estimate with sifting on the forwarded bases and bits, as written: it returns early exactly when no forwarded basis matches the receiver's basis, and otherwise samples, counts errors, decides detection and forms the key as EstimateFrom does. |
| QKD.RunSimulation | QKD.py:65-182 | The whole run, loop by loop, with the in-place Eve step on working copies. It equals Simulate, which sifts on the sender's own record (see Findings). |
| QKDProperties.ChannelState | QKD.py:104-111 | With Eve on, the forwarded basis is Eve's basis, and the forwarded bit is the sender's bit when her basis matches the sender's. Without Eve the photon passes unchanged. The receiver reads the forwarded bit when the bases agree and a random bit otherwise. |
| QKDProperties.SiftedShape | QKD.py:145-153 | p2_bits has N entries, and the sifted lists and match positions have equal length. The positions are strictly increasing and are exactly the agreeing indices. The sifted entries are the bits at those positions. |
| QKDProperties.FaithfulWhereBasesAgree | QKD.py:130-134 | When sender and receiver bases agree, and Eve is off or shares the basis, the receiver reads the sender's bit. |
| QKDProperties.SiftedErrorMeansEve | QKD.py:104-111 | A sifted disagreement can only come from Eve measuring in the basis the sender did not use. |
| QKDProperties.NoEveNoErrors | QKD.py:171-176 | Without Eve the sifted lists are equal and there are no intercepts. Any estimate has zero errors, QBER 0 and no detection. |
| QKDProperties.EstimateFacts | QKD.py:155-182 | The estimate returns early exactly when L = 0. Otherwise the sample size is SampleSize(L), between 1 and L. The sample has that many distinct indices below L. The errors are at most the sample size and the QBER lies in [0, 1]. Detection holds iff 100·errors > 15·sampleSize. The final key has length L − sampleSize and is the in-order complement of the sample. |
| QKDProperties.AllSampledWrongIsDetected | QKD.py:171-176 | If every sifted pair disagrees, the error count equals the sample size and the run is detected. |
| QKDProperties.AsWrittenNeverDetects | QKD.py:149-153 | As written, sifting compares the forwarded state with the receiver. The sample then has zero errors and is never detected, whether or not Eve is on. |
| QKDProperties.EveDetectedOnlyWhenSiftingOnSenderRecord | QKD.py:145-176 | There are concrete draws with Eve on under which sifting on the sender's record detects her, while sifting as written does not. |
| QKDProperties.WrongBasisEveCorruptsAll | QKD.py:104-140 | Under those draws all N photons are sifted, and every sifted pair disagrees. |
| QKDProperties.MatchPositionsFull | QKD.py:149-153 | When the bases agree everywhere, the match positions are 0..n-1. |
| RepeaterNetwork.OnEdgeIsConnection | quantum_repeters_simulation.py:79 | A photon is "on an edge" exactly when its (current, next) pair is in `connections`. |
| RepeaterNetwork.Attenuated | quantum_repeters_simulation.py:160-162 | The attenuated intensity is at least 0.05 and at least intensity × rate, and it is one of the two. |
| RepeaterNetwork.UpdateRule | quantum_repeters_simulation.py:148-201 | A photon with no next node is dead and unchanged. Otherwise it is alive unless it arrived at a receiver. In flight it keeps its edge, its intensity is attenuated (at least 0.05) and its burst fades by 0.05 if positive. On arrival its current node is the next node. At a repeater its intensity becomes the boost, its burst becomes 1.0, and node 1 routes to 3, node 2 to 4. A live photon on an edge stays on an edge. |
| RepeaterNetwork.Photon.constructor | quantum_repeters_simulation.py:91-105 | A new photon has the given current and next node, intensity 1.0 and burst 0. |
| RepeaterNetwork.Photon.Update | quantum_repeters_simulation.py:148-201 | Mutates the photon's fields in place. The new state and the return value are UpdateRule of the old state. |
| RepeaterNetwork.Survivors | quantum_repeters_simulation.py:289-294 | The filter never lengthens the list. |
| RepeaterNetwork.StatesOfKept | quantum_repeters_simulation.py:289-294 | When every photon object holds its own update, the states of the photons kept by the outcomes are exactly Survivors of the old states. |
| RepeaterNetwork.KeptDistinct | quantum_repeters_simulation.py:289-294 | Keeping some photons of a list of distinct photon objects gives distinct photon objects. |
| RepeaterNetwork.SurvivorsOnEdge | quantum_repeters_simulation.py:289-294 | If every photon is on an edge, every survivor is on an edge. |
| RepeaterNetwork.UpdateAll | quantum_repeters_simulation.py:290-294 | The alive accumulator. Every photon object in the list is updated in place: its new state is UpdateRule of its own old state. The result is exactly the photons whose update returned true, in their list order (Filter by the outcomes). Their states are Survivors of the old states, and they are distinct. |
| RepeaterNetwork.Spawn | quantum_repeters_simulation.py:283-287 | On frames where step % 40 = 0, one new photon from node 0 to node 1 (coin < 0.5) or node 2 is appended. Otherwise the list is the same list of photon objects. The old photon objects always stay at the front, in order, and the spawned photon is the only new object. Every photon stays on an edge. |
| RepeaterNetwork.Advance | quantum_repeters_simulation.py:281-294 | Spawn, then filter. The result's states are Survivors of the old states plus the spawned one. Each old photon object holds UpdateRule of its own old state. The old photons whose update returned true come first, in order, followed by at most one more photon, which can only be new on a spawning frame. Every live photon is on an edge and they are distinct. |
| RepeaterNetwork.Simulation.constructor | quantum_repeters_simulation.py:16-18 | Initial globals: speed 0.15, attenuation 0.995 and boost 1.0 (lines 16-18), and no photons, step 0 and not paused (quantum_repeters_simulation.py:207-209). |
| RepeaterNetwork.Simulation.TogglePause | quantum_repeters_simulation.py:211-215 | `paused` is negated and nothing else changes. |
| RepeaterNetwork.Simulation.Reset | quantum_repeters_simulation.py:217-233 | No photons, step 0, speed, attenuation and boost at their initial values, `paused` unchanged. |
| RepeaterNetwork.Simulation.Step | quantum_repeters_simulation.py:277-294 | The frame counter goes up by one. When paused, the photon list is unchanged. Otherwise the new list's states are Survivors of the old states plus the photon spawned at this frame, each old photon object holds UpdateRule of its own old state, and the old photons whose update returned true come first, in order, followed by at most the spawned one. Validity (distinct photons, all on an edge) is preserved. A photon not in the old list is new and appears only on a spawning frame. |
| RepeaterNetwork.Simulation.AdvancePhotons | quantum_repeters_simulation.py:281-294 | The unpaused part of a frame on the simulation's own list: the same per-object update and in-order kept prefix as Advance, with validity preserved. |
| RepeaterJourney.FlyReachesReceiver | quantum_repeters_simulation.py:180-200 | A photon on an edge is delivered exactly when it has had as many arrivals as it has hops left. Delivery is always at the receiver on its side. Until then it stays on an edge. |
| RepeaterJourney.SpawnedReachesReceiver | quantum_repeters_simulation.py:283-287 | A spawned photon heading for repeater r is delivered after exactly two arrivals, at receiver r + 2. |

## Left out

- Rendering: VPython objects, colours, halo radius and opacity, trails and labels. `photon_color` and the narration/summary HTML text are display only.
- Animation timing: `rate(...)`, the 80-step position interpolation inside the photon loop, and the endless `while True`. The model is one run and one frame.
- Vector geometry: positions, velocities, `norm`/`mag` and `set_next_hop`'s direction are not modelled. Whether a photon reached its next node in a frame is a boolean input, so `photon_speed` is stored but used nowhere.
- Floating point: intensity, burst and QBER are exact reals. The sample size is `(3*L)/10` floored at 1, which equals `int(L*0.3)` for every L ≤ N = 10 that occurs.
- Random streams: each purpose has its own sequence of draws (sender bit, sender basis, receiver basis, Eve basis, Eve guess, receiver guess, sample). The source uses one interleaved stream. The draws are arbitrary inputs, so every sequence of values the single stream could deliver to these uses is covered.
- ChooseSample: the sample draws are a finite sequence. The source keeps drawing until the sample is full. The model returns `SampleExhausted` when the draws run out first, so the loop's termination is not modelled.
- Sliders and the Eve checkbox (`set_speed`, `set_attenuation`, `set_boost`, `eve_toggle`) are UI bindings. Their values are parameters: `eveOn`, and the simulation's fields. `eveOn` is fixed for the whole run, while the source reads the checkbox once per photon at the midpoint (QKD.py:102), so toggling it during a run, which the model does not capture, would give a partial list of intercepted photons.
- UpdateRule: requires that a present `next_node` indexes the node list. The source would raise an IndexError otherwise; this never happens for photons on a connection.
- Simulation.Step and Advance: state that a photon object not in the old list is new and appears only on a spawning frame, but not that there is at most one such object. Spawn's own contract states that there is at most one, and the photon states show one spawned state per spawning frame. Carrying the object-level clause through the filter made the proof too expensive.
- Survivors: its own contract states only the length bound. Staying on an edge is proved separately in SurvivorsOnEdge, and StatesOfKept relates it to the in-order list of kept photon objects that UpdateAll returns.

## Findings

| source | as written | input that shows it | evidently intended | confidence | as-written member | corrected member |
|---|---|---|---|---|---|---|
| QKD.py:149-153 | Sifting compares `p1_bases` with `p2_bases` and takes bits from `p1_bits`. These are the working copies Eve overwrote, which the receiver measured. Where those bases agree the receiver always read the forwarded bit, so both sifted lists are equal, the sample never has errors and Eve is never detected. | `QKDProperties.WrongBasisEve()` with Eve on: the sender sends 0 in '+', Eve measures in 'x' and resends in 'x', and the receiver measures in '+' and reads 1. Sifting on the sender's record keeps all ten bits, every pair differs, and Eve is detected. As written nothing is sifted, because Eve's 'x' never matches the receiver's '+', so nothing is detected. | Sift on the sender's own record, `p1_bases_initial` and `p1_bits_initial` (QKD.py:66-70), as BB84 prescribes. | high; not executed | QKDProperties.AsWrittenNeverDetects (on QKD.AsWrittenEstimate) | QKD.Simulate with QKDProperties.EveDetectedOnlyWhenSiftingOnSenderRecord |
