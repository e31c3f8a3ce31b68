# sectarii — a Dafny model of the per-agent bookkeeping

sectarii is a Bevy artificial-life simulation. Agents ("sectarii") are small
triangular bodies, each driven by a NEAT controller from the `rusty_neat`
population. They sense the nearest food and the nearest rival, steal energy
by touching food or other agents, pay satiety and stamina to live and move,
and reproduce once they are well fed. Food regrows up to a soft cap. A
review timer sweeps the render handles of extinct species and alternates
the population between growth and pruning. Two one-shot timers raise the
controllers' input arity from 5 to 7 and then to 11. The input vector that
`evaluate_neat` builds has 11 entries from the start.

This project models the part of that simulation that is bookkeeping rather
than physics or rendering, and proves what each step does:

- `timer.dfy` (`Timers`): the Bevy `Timer`, in one-shot and repeating mode.
- `geometry.dfy` (`Geometry`): the modular fold of `angle_between_2d`.
- `ecs.dfy` (`Ecs`): the component storages (`World`), the agent and food
  records, the world invariant, and `Handlers`.
- `population.dfy` (`Controllers`): the state of the controller population
  that the systems read and write.
- `metabolism.dfy` (`Metabolism`): `hp_system`, `satiety_system` and
  `stamina_system`.
- `food.dfy` (`Food`): `setup_food`, `regrow_system` and
  `spawn_food`.
- `bioclock.dfy` (`BioClocks`): the two tri-state oscillators.
- `sight.dfy` (`Sight`): `sensor_sight`.
- `steal.dfy` (`Steal`): `sensor_steal`.
- `reproduction.dfy` (`Reproduction`): `reproduction_system` and
  `spawn_sectarian`.
- `schedule.dfy` (`Schedule`): `update_system` and `StartupProcedure`.
- `evaluate.dfy` (`Evaluate`): the input and output assembly of `evaluate_neat`.

Each system is a method on the shared `World`, `Population`, `Handlers`,
scheduler or clock objects. The rule it applies to one entity is a function
on values. Every system that visits entities one by one keeps a loop with its
invariants. In `sensor_sight`, `satiety_system`, `stamina_system` and the
output half of `evaluate_neat`, no entity's new value depends on another
entity's. There the model computes the new values first, and a loop writes
them back one entity at a time (`Sight.Overwrite`, `Metabolism.Store`,
`Evaluate.Apply`).

All quantities are `real`. PI (`avian2d::math::PI`, the f32 value of π,
3.1415927410125732421875) is the 18-digit decimal 3.14159274101257324, within
3·10⁻¹⁸ of it. Everything the simulation takes from outside becomes a
parameter:

- random draws, with the preconditions of the ranges they are drawn from;
- collisions, distances and headings produced by the physics engine;
- the network evaluation of `rusty_neat`;
- the handles returned by the asset stores.

Two behaviours of the code are easy to get wrong, and the model follows the
code in both:

- The fold in `angle_between_2d` lands in [-PI, PI), not (-PI, PI]. A target
  exactly behind the agent therefore reads -PI, not PI.
- A target at the agent's own position reads `0 - forward heading`. An
  unrotated agent gets -PI/2, not 0 (`Geometry.UprightBearings`).

Other facts the model makes explicit:

- In the encoding, the "nothing seen" reading (0, 0) of a channel is also
  what a food item at exactly 180 units dead ahead would produce
  (`Sight.SentinelAmbiguous`). The ambiguity belongs to the encoding only.
  The sight collider (src/sectarii.rs:342-346) is a triangle reaching
  (±60, 120) plus a circle of radius 32, so it reaches about 134 units. Food
  has radius 3, so no food the program senses is 180 units away.
- `evaluate_neat` always builds 11 inputs. That matches the controllers'
  arity only after the second growth step (`Evaluate.InputsMatchFinalArity`).

## Model

| member | source | states |
|---|---|---|
| Timers.FromSeconds | src/sectarii.rs:87-89 | a new timer has the given duration and mode, has not run, and has not finished |
| Timers.Tick | src/sectarii.rs:104 | a tick keeps duration and mode. It fires exactly when a repeating or unfinished timer reaches its duration. A one-shot timer saturates at its duration and is finished exactly when the accumulated time reaches it. A repeating timer keeps what is left after whole laps, which is below its duration |
| Timers.Reset | src/sectarii.rs:133 | a reset timer has run for 0 s and is not finished; duration and mode are kept |
| Timers.SetDuration | src/sectarii.rs:118 | only the duration of the repeating timer changes |
| Timers.OnceFiresAtMostOnce | src/sectarii.rs:129-143 | over any run of ticks a one-shot timer fires at most once, and never once it has finished; after that it stays as it is |
| Geometry.Trunc | src/main.rs:125 | rounding toward zero: the result lies between 0 and x, less than one away from x |
| Geometry.TruncRem | src/main.rs:125 | the float `%` by 2·PI has the sign of its operand, is smaller than 2·PI in magnitude, and differs from it by whole turns |
| Geometry.Fold | src/main.rs:123-128 | the folded difference lies in [-PI, PI) and differs from the raw difference by a whole number of turns |
| Geometry.FoldUnique | src/main.rs:123-128 | the fold is the unique representative in [-PI, PI) of the raw difference's class modulo 2·PI |
| Geometry.FoldPeriodic | src/main.rs:123-128 | whole turns added to the difference do not change the fold, and a difference already in [-PI, PI) is returned as it is |
| Geometry.AngleBetween | src/main.rs:117-129 | `angle_between_2d` on the two headings: a signed bearing in [-PI, PI) a whole number of turns from the heading difference, and 0 for a target straight along the axis |
| Geometry.HeadingTurns | src/main.rs:121-125 | headings that differ by whole turns give the same bearing, so the branch `atan2` works in does not matter |
| Geometry.UprightBearings | src/main.rs:117-128 | for an unrotated observer: ahead reads 0, right reads -PI/2, left reads PI/2, behind reads -PI, and the observer's own position reads -PI/2 |
| Ecs.NewBrain | src/sectarii.rs:45-49 | a new brain runs the given controller key with no fitness earned and no speed or spin cached |
| Ecs.World.Despawn | src/main.rs:31-33 | the despawned entities leave every component storage; everything else stays, and so does the world invariant |
| Ecs.Handlers.constructor | src/main.rs:111-115 | no species mesh or material handles and no food handles |
| Controllers.Population.constructor | src/sectarii.rs:14-17 | networks start with 5 inputs and no fitness, all keys below the key counter |
| Controllers.Population.AddInput | src/sectarii.rs:130-131 | the input arity grows by exactly one and nothing else changes |
| Controllers.Population.SetPruning | src/sectarii.rs:117 | the pruning flag and rate are set and nothing else changes |
| Controllers.Population.Offspring | src/sectarii.rs:160 | the child controller gets the key counter's value, a key never used before, with fitness 0; the counter grows by one; every other entry, the arity, the pruning settings and the species are kept |
| Controllers.Population.SpeciesAssign | src/sectarii.rs:161 | the assigned species joins the live species table |
| Metabolism.Clamp | src/main.rs:30 | the result is in [0, 2], equals x inside it, and is the nearer bound outside it |
| Metabolism.HpRule | src/main.rs:30-33 | Hp is clamped to [0, 2]; the entity is despawned exactly when the incoming Hp is at most 0, that is exactly when the clamped Hp is 0 |
| Metabolism.HpSystem | src/main.rs:25-35 | every entity with Hp gets its clamped Hp; exactly those at or below 0 are despawned from every storage; the allocation counter is unchanged |
| Metabolism.SatietyRule | src/main.rs:44-46 | satiety falls by dt/45 and is clamped to [0, 2]; a decremented satiety above 2, which stealing can produce, is cut to 2; Hp falls by exactly dt/15 exactly when the decremented satiety is at most 0, and is otherwise unchanged; stamina is untouched |
| Metabolism.Store | src/main.rs:39-67 | visiting the agents one at a time, each agent's Hp, satiety and stamina become its new values; food keeps its Hp |
| Metabolism.SatietySystem | src/main.rs:39-48 | every agent, and no food, takes one satiety step |
| Metabolism.SprintCost | src/main.rs:59 | the sprint cost (linvel − 9)²·dt·0.00075 is never negative |
| Metabolism.StaminaRule | src/main.rs:57-65 | slow: stamina recovers by dt, clamped, and nothing else changes. Fast: the cost comes out of stamina; a shortfall goes to satiety if satiety is positive and to Hp otherwise, never both; stamina ends in [0, 2] and never rises; with stamina at most 2 the three levels together lose exactly the cost |
| Metabolism.SprintWithinReserve | src/main.rs:58-65 | a sprint whose cost fits in the stamina left only lowers stamina by the cost |
| Metabolism.StaminaSystem | src/main.rs:52-67 | every agent takes one stamina step at the speed cached by the previous evaluation |
| Food.Regrown | src/food.rs:45-52 | one food item is added exactly when fewer than 6000 exist, otherwise none |
| Food.CapHolds | src/food.rs:45-52 | starting at or below 6000 food items, no run of eating and regrowth ever exceeds 6000 |
| Food.Refill | src/food.rs:45-52 | without eating, the count climbs by one per tick up to 6000 and stays there |
| Food.SpawnFood | src/food.rs:55-66 | a fresh entity carrying only Hp and a position becomes food; the food handles must exist |
| Food.RegrowSystem | src/food.rs:40-53 | a food item with Hp in [0.2, 0.5) at a point of [-8000, 8000)² is spawned exactly when fewer than 6000 exist. It takes the next free id, and the allocation counter grows by one. When nothing spawns, the world is unchanged |
| Food.SetupFood | src/food.rs:22-38 | the food handles are set, and exactly 1000 fresh food entities are added, each with its drawn Hp in [0.7, 0.9) and position in [-4000, 4000)²; every existing entity keeps its Hp and its position |
| BioClocks.Advance | src/sectarii.rs:257-262 | each firing moves a channel -1 → 0 → 1 → -1: to a different value of {-1, 0, 1}, one step up modulo 3 |
| BioClocks.AdvanceN | src/sectarii.rs:255-272 | after n firings the channel is still in {-1, 0, 1} and has moved n steps modulo 3 |
| BioClocks.SameState | src/sectarii.rs:255-272 | two firing counts give the same channel value exactly when they agree modulo 3; a channel is back at its start exactly after a multiple of 3 firings |
| BioClocks.BioClock.constructor | src/sectarii.rs:247-254 | both timers repeat with the given periods; the channels start at 0 and 1 |
| BioClocks.BioClock.Tick | src/sectarii.rs:255-272 | both timers are ticked, and each channel advances by exactly one step exactly when its own timer fired, independently of the other; the channels stay in {-1, 0, 1} |
| Sight.NearestIn | src/sectarii.rs:214-217 | no result exactly when no candidate is allowed; otherwise an allowed candidate whose distance is minimal, ahead of every earlier candidate at the same distance |
| Sight.Encode | src/sectarii.rs:223 | proximity `1 - d/180` with the bearing kept: at most 1 for a length, in [0, 1] within range, 0 exactly at 180 units, and the distance is recovered from it |
| Sight.Channel | src/sectarii.rs:213-225 | (0, 0) when nothing allowed collides; otherwise the nearest allowed entity encoded as (1 − d/180, bearing), with proximity at most 1 and bearing in [-PI, PI) |
| Sight.Rivals | src/sectarii.rs:228 | the rival candidates are the agents other than the sensor's parent |
| Sight.Sense | src/sectarii.rs:213-239 | one sensor's reading, from its view alone: both proximities at most 1 and both bearings in [-PI, PI) |
| Sight.BlindReadsDefault | src/sectarii.rs:62-66 | a sensor that sees neither food nor a rival reads `SensorSight::default`, ((0, 0), (0, 0)) |
| Sight.NeverSelf | src/sectarii.rs:228-231 | the chosen rival is an agent other than the parent, and the chosen food is food |
| Sight.AloneSeesNoRival | src/sectarii.rs:227-233 | when only the parent itself and no other agent collides, the rival reading is (0, 0) |
| Sight.SentinelAmbiguous | src/sectarii.rs:219-223 | in the encoding, a food item at exactly 180 units straight ahead would read (0, 0), the same as nothing seen; the sight collider never reaches that far |
| Sight.Overwrite | src/sectarii.rs:212-240 | visiting the agents one at a time, each agent's reading becomes its new reading and nothing else in it changes |
| Sight.Observe | src/sectarii.rs:212-240 | every agent's reading is recomputed from its view alone and nothing else in the agent changes |
| Sight.SightSystem | src/sectarii.rs:206-241 | every agent's sensor reading is overwritten, not accumulated; the rest of the world is unchanged |
| Steal.Delta | src/sectarii.rs:188-201 | one collision affects only its two parties; only the parent earns satiety, fitness and ledger credit, and never loses them; the food or victim only loses Hp; a collision with neither food nor a rival does nothing |
| Steal.Credit | src/sectarii.rs:189-199 | one collision changes only the parent's satiety and fitness, never stamina, species, reading, key or cached speeds |
| Steal.SumAppend | src/sectarii.rs:184-203 | the effects of a run of collisions add up over any split of the run |
| Steal.SelfContactInert | src/sectarii.rs:195 | a collision of an agent with itself changes nothing |
| Steal.FeedTransfers | src/sectarii.rs:188-194 | touching food: the food loses dt Hp; the parent gains dt satiety, dt/2 feeding fitness and dt in the ledger, and nothing else |
| Steal.HuntConserves | src/sectarii.rs:195-201 | touching a rival: the victim loses dt Hp, and the parent gains exactly dt in Hp and satiety together, 0.7·dt as Hp and 0.3·dt as satiety; its combat fitness and ledger entry gain dt/2, its feeding fitness nothing |
| Steal.LedgerSplit | src/sectarii.rs:188-201 | the ledger entry receives twice the feeding fitness plus the combat fitness, over any run of collisions |
| Steal.KeySumOfAgent | src/sectarii.rs:193-200 | with unique controller keys, an agent's ledger entry receives exactly what that agent earned |
| Steal.Credited | src/sectarii.rs:189-199 | stealing never touches stamina, species, sensor reading, controller key or cached speeds |
| Steal.HpAfter | src/sectarii.rs:188-198 | one collision changes every entity's Hp by exactly what that collision gives it |
| Steal.AgentsAfter | src/sectarii.rs:188-199 | one collision changes every agent's components by exactly what that collision gives it |
| Steal.LedgerAfter | src/sectarii.rs:193-200 | one collision credits only the parent's controller entry |
| Steal.KeySumUnowned | src/sectarii.rs:193-200 | a ledger entry that no agent runs receives nothing from any run of collisions |
| Steal.LedgerEntries | src/sectarii.rs:193-200 | in a credited ledger, each agent's controller entry has gained exactly what that agent earned, and an entry no agent runs is unchanged |
| Steal.CreditedKeysUnique | src/sectarii.rs:184-203 | stealing keeps the agents and their controller keys, so keys stay unique |
| Steal.ApplyContacts | src/sectarii.rs:184-203 | walking the collisions in order leaves each Hp, agent and ledger entry changed by the sum of all collisions' effects |
| Steal.StealSystem | src/sectarii.rs:176-204 | the Hp storage, the agents and the ledger are credited with the sum of all collisions. The food set, positions, allocation counter and the rest of the population are unchanged, and the world invariant holds |
| Reproduction.Debit | src/sectarii.rs:156-158 | an agent reproduces exactly when satiety is strictly above 1.75, and is then left with exactly 1.0 less, which is above 0.75; from at most 2 it is left with at most 1, too little to reproduce again |
| Reproduction.AfterTurn | src/sectarii.rs:156-158 | a turn changes only the agent's satiety and never raises it; a parent keeps more than 0.75, any other agent is unchanged |
| Reproduction.Newborn | src/sectarii.rs:316-321 | a newborn has satiety and stamina 1, fresh brain, its key and species, and nothing seen |
| Reproduction.NewbornWaits | src/sectarii.rs:156-158 | a newborn cannot reproduce at once: before its first birth stealing must credit it more than 0.75 satiety, even when a satiety step runs in between, and right after the steal that is also enough |
| Reproduction.InsertIfAbsent | src/sectarii.rs:162-165 | an existing handle is kept, a missing one is added, and no other entry changes |
| Reproduction.SpawnSectarian | src/sectarii.rs:315-324 | a fresh agent with Hp 1 and the newborn stats appears at the given position; the species' handles must exist |
| Reproduction.Birth | src/sectarii.rs:160-171 | a new controller, its species, the species' handles if missing, and a new agent running that controller |
| Reproduction.Reproduce | src/sectarii.rs:155-172 | one turn gives birth exactly when satiety exceeds the threshold; a birth debits the parent and adds one newborn, otherwise nothing changes |
| Reproduction.BirthTurns | src/sectarii.rs:155-156 | one birth turn is listed per birth of the pass |
| Reproduction.BirthTurnsSound | src/sectarii.rs:155-156 | every listed turn is a turn of the pass whose agent has satiety above 1.75 |
| Reproduction.BirthTurnsIncreasing | src/sectarii.rs:155-156 | the birth turns are listed in iteration order, each once |
| Reproduction.BirthTurnsComplete | src/sectarii.rs:155-156 | every turn whose agent has satiety above 1.75 is listed |
| Reproduction.BirthsCount | src/sectarii.rs:155-156 | in a pass that visits each agent once, the births are exactly as many as the agents whose satiety is above 1.75 |
| Reproduction.TurnedBirth | src/sectarii.rs:155-158 | after a birth turn, the agents already visited have each been debited once, the others are unchanged, and the child takes no turn of this pass |
| Reproduction.TurnedSkip | src/sectarii.rs:155-156 | a turn of an agent at or below 1.75 leaves it unchanged, as the pass requires |
| Reproduction.BroodBirth | src/sectarii.rs:160-171 | recording the next child keeps every earlier child's facts and gives the new one its id, newborn record, Hp 1, position, key of fitness 0, species and handles |
| Reproduction.SpawnedBirth | src/sectarii.rs:167-171 | spawning the next entity id keeps agents, Hp values and positions as the old entries plus exactly the ids spawned so far |
| Reproduction.DrawnBirth | src/sectarii.rs:160-165 | registering the next key with fitness 0 and its species' handles keeps fitness, handles and the species set as the old entries plus exactly the keys and species drawn so far |
| Reproduction.PassBegins | src/sectarii.rs:146-155 | before the first turn, the invariant of the pass holds with no children |
| Reproduction.SkipStep | src/sectarii.rs:155-156 | a turn at or below the threshold changes nothing and keeps the invariant of the pass for one more turn |
| Reproduction.BirthStep | src/sectarii.rs:156-171 | debiting the parent and adding the next child with the next entity id and the next key keeps the invariant of the pass for one more turn |
| Reproduction.PassEnds | src/sectarii.rs:146-174 | once every agent has had its turn, the invariant of the pass yields the final state that ReproductionSystem states |
| Reproduction.BirthTurn | src/sectarii.rs:156-171 | a turn of an agent above the threshold: it is debited once, and its child is recorded. The child takes the next entity id and the next key, of fitness 0 and species `assign(key)`, whose species has both handles, at this turn's position |
| Reproduction.TakeTurn | src/sectarii.rs:155-173 | one more agent has had exactly one turn. The m-th child so far has id `n0 + m` and is a newborn with Hp 1 running key `key0 + m`, of fitness 0 and species `assign(key0 + m)`, whose species has both handles. It stands at the position of the turn that bore it. The entity and key counters have grown by one per child. Agents, Hp values and positions gain exactly the new ids and keep every old entry, fitness gains exactly the new keys, and the species set and both handle maps gain exactly the species assigned to them |
| Reproduction.ReproductionSystem | src/sectarii.rs:146-174 | every agent has had exactly one turn, debited once if it reproduced. Children are exactly as many as the agents above the threshold. The m-th child has id `n0 + m`, is a newborn with Hp 1 running key `key0 + m` of fitness 0 and species `assign(key0 + m)`, and stands at the spawn position of the m-th birth turn. The entity and key counters have grown by the number of children. Agents, Hp values and positions gain exactly the children's ids, fitness gains exactly their keys, and the species set and both handle maps gain exactly their species; no entry that existed changes, and foods and inputs are untouched |
| Schedule.Review | src/sectarii.rs:115-126 | before the grace timer has finished, pruning is switched off for 90 s; afterwards the flag is negated, with 180 s after switching off and 20 s after switching on |
| Schedule.ReviewsAlternate | src/sectarii.rs:115-122 | once the grace period is over, reviews alternate: after n reviews the flag is flipped exactly when n is odd, and two reviews take 200 s |
| Schedule.Stale | src/sectarii.rs:105-107 | the swept species are material keys that the live species table does not list |
| Schedule.SweepSound | src/sectarii.rs:105-113 | after the sweep every species with a material handle is live, the swept ones have lost both handles, and every other handle is kept |
| Schedule.Sweep | src/sectarii.rs:105-113 | exactly the stale species are removed from both handle maps; each stale species must have a mesh handle |
| Schedule.Scheduler.constructor | src/sectarii.rs:25-91 | the 60 s repeating review timer (line 25) and the one-shot timers of 600 s, 2400 s and 720 s of `StartupProcedure::default` (lines 84-91), none started |
| Schedule.ArityStages | src/sectarii.rs:129-142 | the input arity is 5 before 600 s, 7 until 2400 s and 11 from then on |
| Schedule.OnceFinished | src/sectarii.rs:129-143 | a one-shot timer that has run for the saturated time since its start has finished exactly when that time has reached its duration |
| Schedule.GrowthTick | src/sectarii.rs:129-143 | a growth timer in step with the simulated time is finished exactly when that time has reached its duration, and fires exactly on the tick that crosses it |
| Schedule.StartupStep | src/sectarii.rs:129-143 | one step of the startup procedure keeps its timers in step with the simulated time, restarts the grace period at a growth, and grows the arity by the inputs of the timers that fired |
| Schedule.ReviewStep | src/sectarii.rs:104-127 | when the review timer fires, the stale handles are swept and pruning and the next period follow `Review`; otherwise only the timer advances |
| Schedule.Grow | src/sectarii.rs:129-142 | a growth firing adds exactly 2 (first) or 4 (second) inputs and resets the grace timer |
| Schedule.GrowthStep | src/sectarii.rs:129-143 | both growth timers and the grace timer are ticked; arity grows by what fired, and the grace period restarts at a growth |
| Schedule.UpdateSystem | src/sectarii.rs:93-144 | the review and then the startup procedure. A firing review sweeps the stale handles and sets pruning, rate and period by `Review`; otherwise the review timer only ticks and pruning and rate are kept. The growth and grace timers tick, the grace period restarts at a growth, and the arity grows by what fired |
| Evaluate.Inputs | src/sectarii.rs:292-298 | the input vector is exactly [food proximity, food bearing, rival proximity, rival bearing, stamina, short oscillator, long oscillator, Hp, satiety, cached speed, cached spin] |
| Evaluate.InputsMatchFinalArity | src/sectarii.rs:292-302 | the 11 inputs match the arity after both growth steps and neither earlier arity |
| Evaluate.SensedInputsBounded | src/sectarii.rs:292-298 | the channels fed by the sensor and the clock are bounded: proximities at most 1, bearings in [-PI, PI), oscillators -1, 0 or 1 |
| Evaluate.Actuate | src/sectarii.rs:306-308 | the force lies along the forward axis, with 3 times the magnitude of output 0 for a unit axis, pointing forward for a positive output 0 and backward for a negative one (its component along the axis is 3·o[0]·\|fwd\|²); the torque is 4 times output 1 |
| Evaluate.CollectInputs | src/sectarii.rs:290-300 | every agent's input vector is filed under its own controller key, and there is no other entry |
| Evaluate.Apply | src/sectarii.rs:305-311 | visiting the agents one at a time, each gets its force and torque, and its speed and spin are cached into its Brain |
| Evaluate.Drive | src/sectarii.rs:305-311 | every agent gets the force and torque of its controller's outputs, and its cached speed and spin are overwritten |
| Evaluate.Evaluation | src/sectarii.rs:290-311 | inputs for every agent, then the outputs applied to every agent |
| Evaluate.EvaluateSystem | src/sectarii.rs:276-312 | the clock ticks first: each oscillator advances exactly when its timer fires, and each fire counter grows by one exactly then, so the inputs carry the new oscillator values; force and torque follow the outputs; the cached speed and spin are replaced, and the cached speed is never negative |

## Left out

- `setup_sectarii` (src/sectarii.rs:365-387) is not part of this model. It
  creates the startup agents from `rusty_neat`'s initial population. Each of
  its spawns is `Reproduction.SpawnSectarian`.
- `rusty_neat` internals are not modelled: `NN::new`, `speciate`,
  `species_threshold_correct`, `check_integrity`, `forward`, `get_outputs`,
  `sort_layers` and `free_nodes_calc`. A network evaluation is the function
  parameter `net`, and the species an offspring is assigned is the function
  parameter `assign`. So the model neither checks nor asserts the arity that
  `check_integrity` is said to enforce.
- `Controllers.Population.SetPruning`: the pruning flag is one flag for the
  whole population. The source reads it from the first controller in
  iteration order and sets it on all of them.
- Physics is not modelled: collider shapes, collision enumeration, applying
  forces, damping, `atan2`, `normalize_or_zero` and vector lengths. They
  enter as parameters: collision lists, distances, headings, the unit forward
  axis, speeds and spins.
- Random draws are not modelled. They are parameters constrained to their
  ranges: food positions and Hp, spawn offsets and species hues.
- The spawn-offset geometry of `reproduction_system` (src/sectarii.rs:167-170)
  is not modelled. It needs a square root; the position is a parameter.
- f32 rounding, NaN and the panic of `partial_cmp().unwrap()` on NaN are not
  modelled, because quantities are exact reals.
- `par_iter_mut` is modelled as a sequential pass. Each agent's result does
  not depend on the order.
- The order of the systems within `FixedUpdate` is not modelled, because the
  source registers them there without ordering constraints
  (src/sectarii.rs:29-32). Each system is its own step. `evaluate_neat` runs
  in `FixedPostUpdate` (src/sectarii.rs:33), after all of them.
- Deferred commands: children spawned by `reproduction_system` are created
  immediately but take no turn in the same pass. Entities despawned by
  `hp_system` leave once the pass is over.
- The sensor children of an agent are not separate entities. The sight
  reading is stored on the agent, and a steal collision names the parent.
- Asset stores (`meshes.add`, `materials.add`, `remove_untracked`) are not
  modelled. Handles are opaque integers passed in.
- src/ui.rs (panels, SVG export, file writes, camera and picking) is not part
  of this model, because it is UI and I/O.
- `Reproduction.ReproductionSystem`: a handle added for a species is stated to
  exist, but its value is not stated. It is the handle passed for the first
  birth of that species in the pass. The model states only which species
  gain handles and that existing handles are kept.
- `Timers.Tick`: the timer ignores Bevy's `Duration` nanosecond granularity
  and does not count `times_finished_this_tick`.
- Whole-tick bounds are not claimed, because they do not hold. Hp, satiety
  and stamina are not kept in [0, 2] across a tick: `stamina_system` can push
  satiety below 0, and `sensor_steal` can push satiety or Hp above 2.
