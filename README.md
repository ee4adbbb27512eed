# gif_cond_exp_multisynapse: the discrete control logic

This project models the control logic of NEST's generalized integrate-and-fire
neuron with conductance-based, exponentially decaying multi-receptor synapses,
`gif_cond_exp_multisynapse`. It covers everything around the ODE solver and the
random draw, and proves properties of it:

- Parameter validation in `Parameters_::set`.
- The copy-then-swap `set_status`.
- The `State_` constructors, `operator=` and `State_::set`.
- The state-vector layout (`StateVecElems`).
- `calibrate`: receptor ports, resizing, and the adaptation accumulators.
- The per-step state machine of `update`:
  - decay and summation of the stc/sfa accumulators;
  - additive synaptic input;
  - the refractory countdown and the clamp to `V_reset`;
  - the pending jump flag `add_stc_sfa_`;
  - the spike decision and its bookkeeping;
  - the external current and the data-logger record.
- The connection checks `handles_test_event`.
- Event routing in `handle`.

The node is split as in the source into `P_`, `S_`, `V_` and `B_`:

- `NodeModel.Node` holds the four parts as values.
- `GifNeuron.Neuron` is the object: a class with those four fields, whose methods update them in place.
- Every method of `Neuron` that changes the node is proved against a function of the node's value. For example:
  - `Calibrate` yields `Calibration.Calibration(old(Value()), ...)`;
  - `Update` yields `Dynamics.Run(old(Value()), ...)`;
  - `SetStatus` yields `StatusUpdate.SetStatusEffect`.
- The properties of the source are lemmas about those functions.

Numbers are `real`. What the model cannot compute comes in as parameters:

- The GSL integration over one resolution step is `Environment.flow`, a function of the state vector, `stc_` and `y0_`. It yields each element of the new vector, so it preserves the vector's length by construction.
- The status GSL reports is `Environment.status`.
- `std::exp` is `Environment.exp`, and the `exp` parameter in `calibrate`.
- The uniform number `rng_->drand()` returns at each step is `Environment.draw`.
- The resolution `h` and `RefractoryCounts_` are arguments of `Calibrate`.

The two recordables are `NeuronState.MembranePotential` and `NeuronState.AdaptiveThreshold`:

- `MembranePotential` is `get_y_elem_<V_M>`, that is `y_[0]`.
- `AdaptiveThreshold` is `get_E_sfa_`, that is `q_`.

Every step logs both, as `Dynamics.StepInput` states.

Two checks are narrower than their error messages suggest; the model follows the code:

- **The degenerate time-constant check.** The error for a synaptic time constant equal to `c_m / g_L` reads "Membrane and synapse time constant(s) must differ", a condition on the neuron's parameters as a whole. The code tests it only for a `taus_syn` list supplied in the same call, using that call's `c_m` and `g_L`. So changing `C_m` or `g_L` later can make an existing time constant equal to `c_m / g_L` without an error.
- **The "ports cannot shrink" check.** It sits inside the per-entry loop, so an empty `taus_syn` list passes it even on a connected neuron (`Parameters.EmptySynListRemovesPorts`).

## Model

| member | source | states |
|---|---|---|
| Parameters.DefaultParams | models/gif_cond_exp_multisynapse.cpp:120-142 | the default parameter set satisfies the parameter invariant, has no receptors and no connections |
| Parameters.Updated | models/gif_cond_exp_multisynapse.cpp:233-248 | updateValue: an absent key keeps the current value, a present one replaces it |
| Parameters.Merge | models/gif_cond_exp_multisynapse.cpp:233-248 | the unconditional overwrites touch neither taus_syn, the receptor count, the port list nor has_connections_, and an empty dictionary changes nothing; the entries themselves are stated by ParamsSetKeepsValid (omitted ones) and ParamsSetInstallsSupplied (supplied ones) |
| Parameters.ParamsSet | models/gif_cond_exp_multisynapse.cpp:230-306 | Parameters_::set on a copy: it throws exactly when a supplied taus_syn list fails its loop or the proposed set fails a later check, and otherwise yields the proposed set, which passes every check; ParamsSetSpec characterises acceptance through the parameter invariant |
| Parameters.FirstSynTauFaultNone | models/gif_cond_exp_multisynapse.cpp:253-267 | the per-entry taus_syn loop finds no fault exactly when every entry is positive and differs from c_m / g_L |
| Parameters.ParamsSetSpec | models/gif_cond_exp_multisynapse.cpp:230-306 | Parameters_::set accepts exactly when the proposed set is valid, a supplied taus_syn avoids c_m / g_L of the same call and does not shrink a connected neuron's ports; it then yields the proposed set |
| Parameters.ParamsSetKeepsValid | models/gif_cond_exp_multisynapse.cpp:230-306 | an accepted update keeps the parameter invariant, keeps has_connections_ and receptor_types_, and keeps each of the sixteen entries the dictionary omits (I_e, E_L, g_L, C_m, V_reset, delta_u, v_t_star, lambda0, t_ref, E_ex, E_in, tau_sfa, q_sfa, tau_stc, q_stc, and taus_syn with the receptor count) |
| Parameters.ParamsSetInstallsSupplied | models/gif_cond_exp_multisynapse.cpp:233-269 | an accepted update installs every entry the dictionary supplies, and a supplied taus_syn list sets the receptor count to its length |
| Parameters.MembraneTauRejected | models/gif_cond_exp_multisynapse.cpp:263-266 | a supplied synaptic time constant equal to c_m / g_L (values of the same call) makes set throw |
| Parameters.ConnectedPortsCannotShrink | models/gif_cond_exp_multisynapse.cpp:255-258 | a connected neuron rejects a non-empty shorter taus_syn list with the ports-reduced error |
| Parameters.EmptySynListRemovesPorts | models/gif_cond_exp_multisynapse.cpp:251-270 | an empty taus_syn list passes on a connected neuron and leaves zero receptors |
| Parameters.SfaSizeMismatchRejected | models/gif_cond_exp_multisynapse.cpp:273-278 | tau_sfa and q_sfa of different lengths are rejected, reporting both lengths |
| Parameters.StcSizeMismatchRejected | models/gif_cond_exp_multisynapse.cpp:280-285 | tau_stc and q_stc of different lengths are rejected, reporting both lengths |
| Parameters.DefaultMembraneTauScenario | models/gif_cond_exp_multisynapse.cpp:263-266 | with the defaults c_m = 80, g_L = 4, taus_syn = [20.0] is rejected as equal to the membrane time constant |
| Parameters.SfaLengthScenario | models/gif_cond_exp_multisynapse.cpp:273-278 | tau_sfa of length 2 against q_sfa of length 1 is rejected naming 2 and 1 |
| Parameters.SetParameters | models/gif_cond_exp_multisynapse.cpp:230-306 | the imperative set, with its validation loops, produces exactly the result or the exception of the specification ParamsSet |
| NeuronState.InitialState | models/gif_cond_exp_multisynapse.cpp:144-157 | State_(p) holds a one-element vector with V_m = E_L, empty accumulators, r_ref_ = 0 and both flags false |
| NeuronState.CopyState | models/gif_cond_exp_multisynapse.cpp:159-171 | the copy constructor empties the accumulators, and assigning the copy back with operator= restores the original state |
| NeuronState.AssignState | models/gif_cond_exp_multisynapse.cpp:173-188 | operator= keeps the target's accumulators and copies every other field of the source |
| NeuronState.StateSet | models/gif_cond_exp_multisynapse.cpp:316-321 | State_::set writes V_m and E_sfa when supplied, keeps the vector's other entries and its length, clears initialized_, and leaves every other field (y0_, stc_, r_ref_, add_stc_sfa_, the accumulators) as it was; with neither key it only clears initialized_ |
| NeuronState.MembranePotential | models/gif_cond_exp_multisynapse.h:362-368 | get_y_elem_<V_M> reads y_[V_M]; its value in each log record is stated by Dynamics.StepInput and after set_status by StatusUpdate.SetStatusAtomic |
| NeuronState.AdaptiveThreshold | models/gif_cond_exp_multisynapse.h:370-375 | get_E_sfa_ reads q_; its value in each log record is stated by Dynamics.StepInput and after set_status by StatusUpdate.SetStatusAtomic |
| NeuronState.StatusCopyKeepsAccumulators | models/gif_cond_exp_multisynapse.cpp:159-188 | copying, State_::set and assigning back writes V_m and E_sfa from the dictionary, clears initialized_, and keeps the accumulators and every other field |
| StateLayout.StateSize | models/gif_cond_exp_multisynapse.h:273-281 | the state vector for n receptors has 1 + 2n elements |
| StateLayout.ExcSlot | models/gif_cond_exp_multisynapse.h:273-279 | receptor i's excitatory slot G_EXC + 2i is not V_M, is excitatory, belongs to receptor i and lies in a vector for i + 1 receptors |
| StateLayout.InhSlot | models/gif_cond_exp_multisynapse.h:273-279 | receptor i's inhibitory slot G_INH + 2i is not V_M, is inhibitory, belongs to receptor i and lies in a vector for i + 1 receptors |
| StateLayout.SlotsTileStateVector | models/gif_cond_exp_multisynapse.h:273-279 | every index but V_M below 1 + 2n is exactly one receptor's excitatory or inhibitory slot, and both slots of each receptor i < n lie in that range |
| StateLayout.SlotsDistinct | models/gif_cond_exp_multisynapse.cpp:95-96 | no two receptor slots coincide |
| NodeModel.ReceptorTypes | models/gif_cond_exp_multisynapse.cpp:426-430 | receptor i is mapped to port i + 1 |
| NodeModel.Read | models/gif_cond_exp_multisynapse.cpp:540-546 | RingBuffer::get_value for a step: the summed input delivered for it, zero when none; specified through AddValue and Events.DeliverCurrentAdds |
| NodeModel.AddValue | models/gif_cond_exp_multisynapse.cpp:631-642 | RingBuffer::add_value raises the value read at its step by the amount and leaves every other step |
| NodeModel.Resize | models/gif_cond_exp_multisynapse.cpp:426-438 | std::vector::resize: the new length, the kept prefix and the fill for new elements |
| StatusUpdate.SetStatusAtomic | models/gif_cond_exp_multisynapse.h:439-456 | set_status changes nothing when it throws; it succeeds exactly when Parameters_::set and the base class accept, and then installs the validated parameters, writes V_m and E_sfa, clears initialized_, keeps accumulators, r_ref_, stc_, y0_, add_stc_sfa_, V_ and B_ (the new S_ is operator= of State_::set on a copy), and keeps the node invariant |
| StatusUpdate.SetStatusEffect | models/gif_cond_exp_multisynapse.h:439-456 | set_status returns the node unchanged whenever it throws, succeeds exactly when Parameters_::set and the base class accept, and never touches V_ or B_; SetStatusAtomic states the rest |
| Calibration.Calibration | models/gif_cond_exp_multisynapse.cpp:422-465 | calibrate (with the accumulators rebuilt from empty) leaves a calibrated node: sizes, ports and accumulators all match the parameters |
| Calibration.Resized | models/gif_cond_exp_multisynapse.cpp:426-446 | the part of calibrate before the accumulator block: ports numbered, y_ sized 1 + 2n, spike buffers sized n, h and RefractoryCounts_ taken, nothing else changed |
| Calibration.CalibrationSizes | models/gif_cond_exp_multisynapse.cpp:426-438 | ports numbered i + 1, y_ resized to 1 + 2n keeping its entries and zeroing new ones, both spike buffer lists resized to n keeping the existing buffers, the current buffer, r_ref_, add_stc_sfa_, q_, stc_ and y0_ kept, h and RefractoryCounts_ taken, no parameter but the ports changed |
| Calibration.CalibrationAccumulators | models/gif_cond_exp_multisynapse.cpp:449-464 | the accumulator block runs only when initialized_ is false, giving one factor exp(-h / tau) and one zero accumulator per time constant; otherwise the accumulators and factors stay |
| Calibration.CalibrationIdempotent | models/gif_cond_exp_multisynapse.cpp:422-465 | a second calibrate with the same resolution changes nothing |
| Calibration.RecalibrationDuplicatesAccumulators | models/gif_cond_exp_multisynapse.cpp:449-464 | as written, set_status then calibrate leaves two stc accumulators for one q_stc entry; the corrected calibrate leaves one |
| Calibration.CalibrationAsWritten | models/gif_cond_exp_multisynapse.cpp:449-464 | calibrate as written, when initialized_ is false, keeps the old sfa/stc accumulators and Q33_/Q44_ factors as a prefix and appends a zero accumulator and the factor exp(-h / tau) per time constant; when initialized_ is true it equals the corrected calibrate |
| Calibration.CalibrationAgreesWithoutAccumulators | models/gif_cond_exp_multisynapse.cpp:422-465 | on a node without accumulators or decay factors the source's calibrate and the corrected one agree, so they differ only in the re-calibration case |
| Events.CurrentPortTest | models/gif_cond_exp_multisynapse.h:414-420 | a current connection is accepted exactly on receptor 0, returning port 0; any other receptor is an unknown receptor type |
| Events.DataLoggingPortTest | models/gif_cond_exp_multisynapse.h:422-428 | a logging request is accepted exactly on receptor 0, returning the logger's port; any other receptor is rejected as an unknown receptor type |
| Events.SpikePortLocksPorts | models/gif_cond_exp_multisynapse.h:395-403 | a spike port is accepted exactly when 1 <= r <= n; acceptance only sets has_connections_, keeps the parameters valid, and from then on a non-empty shorter taus_syn is rejected |
| Events.AcceptedSpikePortHasBuffers | models/gif_cond_exp_multisynapse.h:395-403 | receptor 0 is rejected for spikes, and every accepted port has a buffer pair once calibrated |
| Events.SpikePortTest | models/gif_cond_exp_multisynapse.h:395-403 | the spike check accepts exactly 1 <= r <= n, then sets has_connections_ and nothing else, and otherwise throws IncompatibleReceptorType |
| Events.DeliverSpike | models/gif_cond_exp_multisynapse.cpp:626-643 | handle(SpikeEvent&) keeps the number of buffers and the current buffer, and touches only the inhibitory side for w <= 0 and only the excitatory side for w > 0; DeliverSpikeRoutesBySign states the amounts |
| Events.DeliverCurrent | models/gif_cond_exp_multisynapse.cpp:645-655 | handle(CurrentEvent&) leaves the spike buffers and adds w * c at its step; DeliverCurrentAdds states that other steps stay |
| Events.DeliverSpikeRoutesBySign | models/gif_cond_exp_multisynapse.cpp:626-643 | a spike adds the non-negative amount abs(w) * m to exactly one slot: port rport's excitatory buffer when w > 0, else its inhibitory buffer; everything else stays |
| Events.DeliverSpikeKeepsNonNegative | models/gif_cond_exp_multisynapse.cpp:631-642 | spike delivery keeps every buffered conductance jump non-negative |
| Events.DeliverCurrentAdds | models/gif_cond_exp_multisynapse.cpp:645-655 | a current event adds w * c at its step and changes nothing else |
| Dynamics.WithInputAddsToSlots | models/gif_cond_exp_multisynapse.cpp:540-546 | synaptic input is added to receptor i's slots 1 + 2i and 2 + 2i, never substituted; V_M and slots past the receptors stay |
| Dynamics.WithInputNext | models/gif_cond_exp_multisynapse.cpp:540-546 | one iteration of the input loop adds receptor i's two inputs to the vector holding the first i receptors' input |
| Dynamics.WithInput | models/gif_cond_exp_multisynapse.cpp:540-546 | the input loop keeps the vector's length; WithInputAddsToSlots states what each slot gains |
| Dynamics.Decayed | models/gif_cond_exp_multisynapse.cpp:483-503 | the decay phase changes only stc_, q_ and the two accumulator lists, keeping their lengths; StepAdaptation states the new values |
| Dynamics.Integrated | models/gif_cond_exp_multisynapse.cpp:521-537 | a successful integration step changes only y_ and keeps its length |
| Dynamics.Jumped | models/gif_cond_exp_multisynapse.cpp:553-581 | adding the pending jumps clears the flag, keeps the accumulator counts and leaves y_, r_ref_, y0_ and initialized_; StepAdaptation states the sums |
| Dynamics.Intensity | models/gif_cond_exp_multisynapse.cpp:583 | lambda = lambda0 * exp((V_m - q_) / delta_u) is zero when lambda0 is zero; StepSpikeDecision uses it for the spike condition |
| Dynamics.SpikeDrawn | models/gif_cond_exp_multisynapse.cpp:585-593 | the draw is at most -expm1(-lambda h / 1000); specified through StepSpikeDecision |
| Dynamics.Reacted | models/gif_cond_exp_multisynapse.cpp:548-607 | a spike needs r_ref_ == 0 and sets r_ref_ to RefractoryCounts_ and the pending flag; a refractory step never spikes, counts down, clamps V_m to V_reset and leaves the flag and the stc accumulators; sizes and initialized_ stay |
| Dynamics.Step | models/gif_cond_exp_multisynapse.cpp:480-622 | one iteration of the update loop keeps the state fitting the parameters (vector length 1 + 2n, accumulators matching, r_ref_ >= 0) |
| Dynamics.StepAdaptation | models/gif_cond_exp_multisynapse.cpp:483-581 | every step sets stc_ and q_ from the pre-decay sums and decays each accumulator; pending jumps are added only at a non-refractory step, clearing the flag; a spike sets it |
| Dynamics.StepRefractoryCounter | models/gif_cond_exp_multisynapse.cpp:550-607 | a spike only happens at r_ref_ == 0 and restarts the counter at RefractoryCounts_; otherwise it counts down to zero; a solver failure leaves it |
| Dynamics.StepRefractoryClamp | models/gif_cond_exp_multisynapse.cpp:595-599 | a step that starts refractory ends with V_m = V_reset, emits no spike and logs V_reset |
| Dynamics.StepSpikeDecision | models/gif_cond_exp_multisynapse.cpp:583-593 | a step spikes exactly when it starts non-refractory, lambda > 0 and the draw is at most -expm1(-lambda h / 1000) |
| Dynamics.StepSilentWithoutIntensity | models/gif_cond_exp_multisynapse.cpp:583-593 | with lambda0 = 0 no step spikes |
| Dynamics.StepInput | models/gif_cond_exp_multisynapse.cpp:540-621 | after a step each conductance slot holds the integrated value plus its buffered input, V_m the integrated value when free, y0_ the step's current, and the record holds V_m and E_sfa |
| Dynamics.StepSolverFailure | models/gif_cond_exp_multisynapse.cpp:523-537 | a step fails exactly when GSL reports a non-success status, after the decay phase |
| Dynamics.Run | models/gif_cond_exp_multisynapse.cpp:472-623 | the loop of update over [from, to) keeps the state fitting the parameters |
| Dynamics.RunAdvance | models/gif_cond_exp_multisynapse.cpp:480-622 | extending the run by one lag runs one step on the state the earlier steps left, sending a spike at origin + lag + 1 |
| Dynamics.RunStopsAtFailure | models/gif_cond_exp_multisynapse.cpp:535-536 | after a solver failure further lags change nothing: the exception ends update |
| Dynamics.RunLogsEveryStep | models/gif_cond_exp_multisynapse.cpp:620-621 | the log holds one record per completed step, in order, at step origin + lag; without failure it covers the whole range |
| Dynamics.RunSilentWithoutIntensity | models/gif_cond_exp_multisynapse.cpp:583-593 | a neuron with lambda0 = 0 never spikes over any range of steps |
| Dynamics.RunStepRefractory | models/gif_cond_exp_multisynapse.cpp:602-610 | one more lag either sends a spike at origin + lag + 1, allowed by r_ref_ == 0 and restarting it, or keeps the spike train with the counter unchanged, decremented or zero |
| Dynamics.RunRefractoryTracksLastSpike | models/gif_cond_exp_multisynapse.cpp:595-607 | the refractory counter is at least RefractoryCounts_ minus the steps since the last spike, or the initial count minus the elapsed steps before any spike |
| Dynamics.RunSpikesSpaced | models/gif_cond_exp_multisynapse.cpp:550-610 | consecutive spikes are more than RefractoryCounts_ steps apart and the first comes after the initial refractory count has run out |
| Dynamics.RunKeepsRefractoryBound | models/gif_cond_exp_multisynapse.cpp:595-607 | r_ref_ stays within [0, RefractoryCounts_] over any run |
| GifNeuron.DecayAll | models/gif_cond_exp_multisynapse.cpp:483-503 | the decay loop returns the sum of the accumulators before decay and every accumulator times its factor |
| GifNeuron.JumpAll | models/gif_cond_exp_multisynapse.cpp:559-580 | the jump loop adds q_i to accumulator i and returns the sum of the jumps used |
| GifNeuron.NumberPorts | models/gif_cond_exp_multisynapse.cpp:426-430 | the port loop numbers receptor i as port i + 1 |
| GifNeuron.DecayFactors | models/gif_cond_exp_multisynapse.cpp:449-462 | the push_back loop of calibrate yields exp(-h / tau) and a zero accumulator per time constant |
| GifNeuron.Neuron.constructor | models/gif_cond_exp_multisynapse.cpp:120-157 | a new node holds the default parameters and State_(P_), no receptors and no buffers, and satisfies the node invariant |
| GifNeuron.Neuron.SetStatus | models/gif_cond_exp_multisynapse.h:439-456 | the copy-then-swap set_status has exactly the effect SetStatusEffect specifies and keeps the node invariant |
| GifNeuron.Neuron.HandlesSpikeTest | models/gif_cond_exp_multisynapse.h:395-403 | the spike check throws for ports outside [1, n] leaving the node unchanged, otherwise sets has_connections_ and returns the port; the class invariant holds afterwards exactly when it held before |
| GifNeuron.Neuron.Calibrate | models/gif_cond_exp_multisynapse.cpp:422-465 | calibrate in place yields the node Calibration specifies, which is calibrated |
| GifNeuron.Neuron.DecayAdaptation | models/gif_cond_exp_multisynapse.cpp:483-503 | the decay phase in place yields Decayed of the old state |
| GifNeuron.Neuron.Integrate | models/gif_cond_exp_multisynapse.cpp:521-537 | returns GSL's status; y_ takes the integrated values on success |
| GifNeuron.Neuron.AddSynapticInput | models/gif_cond_exp_multisynapse.cpp:540-546 | the input loop in place yields WithInput of the old state vector |
| GifNeuron.Neuron.React | models/gif_cond_exp_multisynapse.cpp:548-614 | the refractory branch, jumps, spike decision and spike bookkeeping in place yield Reacted of the old state |
| GifNeuron.Neuron.UpdateStep | models/gif_cond_exp_multisynapse.cpp:480-622 | one loop iteration in place extends the run by one lag, reporting GSL's status |
| GifNeuron.Neuron.Update | models/gif_cond_exp_multisynapse.cpp:472-623 | update in place yields the state, the spike times, the log and the failure of Run, changes only S_, and leaves the node calibrated |
| GifNeuron.Neuron.HandleSpike | models/gif_cond_exp_multisynapse.cpp:626-643 | handle(SpikeEvent&) in place yields DeliverSpike of the old buffers, changes only B_ and keeps the class invariant as it was |
| GifNeuron.Neuron.HandleCurrent | models/gif_cond_exp_multisynapse.cpp:645-655 | handle(CurrentEvent&) in place yields DeliverCurrent of the old buffers, changes only B_ and keeps the class invariant as it was |

## Left out

- The GSL numerics are not modelled: `gif_cond_exp_multisynapse_dynamics`, the adaptive `gsl_odeiv_evolve_apply` loop, and solver allocation in `init_buffers_` and the destructor. One resolution step is the abstract `Environment.flow` with the status `Environment.status`.
- Dynamics.Integrated: the GSL step also depends on `B_.IntegrationStep_`, the step size carried over from the previous call (cpp:531); the abstract flow depends only on y_, stc_ and y0_, so that carried state is not represented.
- GifNeuron.Neuron.Integrate: on a solver failure, y_ is kept as it was before integration. A failing GSL call may already have changed part of it; the model does not capture that.
- Floating point is not modelled: `double` is `real`. `std::exp` and `numerics::expm1` are abstract, and the spike probability is written `-(exp(x) - 1)`.
- The random number generator is not modelled. The draw is a function of the absolute step, so the order in which the thread's stream is consumed is not represented.
- `Time::get_resolution()` and the rounding in `Time(...).get_steps()` are not modelled. `h` and `RefractoryCounts_` are given to `Calibrate`, and the step count is non-negative by its type.
- Buffers differ from `RingBuffer`:
  - Each buffer is a map from the absolute simulation step to the summed input.
  - Relative indexing by lag, the ring rotation, and the clearing of a slot after it is read are not modelled.
  - `update` reads each slot at step origin + lag.
- `UniversalDataLogger`, `RecordablesMap` and `event_delivery_manager.send` are represented only by their results. Spikes are the output list of spike times, with multiplicity 1. Logging is the output list of records.
- `set_spiketime` and the archiving of spike history are not modelled.
- Dictionary marshaling is not modelled: `Parameters_::get`, `State_::get`, `get_status`, and `updateValue`/`def`. `Parameters_::set` takes a record of optional entries.
- `Archiving_Node::set_status` is code outside this model. Whether it accepts the dictionary is the input `archivingAccepts`.
- GifNeuron.Neuron.Update does not state the source's assertion `from < min_delay`, because the minimum delay is kernel state.
- Dynamics.RunKeepsRefractoryBound: the bound [0, RefractoryCounts_] holds only for a run that starts inside it. `set_status` keeps r_ref_ (cpp:182) and a later calibrate with a smaller t_ref lowers RefractoryCounts_ (cpp:445), so a calibrated node can start above the bound, and the lemma says nothing about such a run.
- `handle(DataLoggingRequest&)` forwards to the logger and is not modelled.
- `init_state_`, `init_buffers_`, the copy constructor of the node and its destructor are not modelled; they are kernel bookkeeping.
- nestkernel/checkpoint_manager.h and nestkernel/checkpoint_manager.cpp are not part of this model. They only wrap Boost.Serialization archives.
- nestkernel/device_node.h and nestkernel/serialization.h are not part of this model. They hold only trivial accessors and includes.

## Findings

| source | as written | input that shows it | evidently intended | confidence | as-written member | corrected member |
|---|---|---|---|---|---|---|
| models/gif_cond_exp_multisynapse.cpp:449-464 | After `State_::set` clears `initialized_`, calibrate `push_back`s new decay factors onto `Q33_`/`Q44_` and new zero accumulators onto the accumulator lists without emptying them. The node's `S_ = stmp` (`operator=`, cpp:173-188) kept the old accumulators. | Create a node. Set tau_stc = [10], q_stc = [1]. Calibrate. Call `set_status` with an empty dictionary. Calibrate again. The node now holds two stc accumulators and two `Q44_` factors for one `q_stc` entry, so the jump loop of `update` reads `q_stc_[1]` out of range. | Rebuild the decay factors and accumulators from empty for the new parameter set, as the comment at cpp:320 says. | high, not executed | Calibration.CalibrationAsWritten (shown by Calibration.RecalibrationDuplicatesAccumulators) | Calibration.Calibration (proved by Calibration.CalibrationAccumulators and its Calibrated ensures) |
