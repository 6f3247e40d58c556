# Planets, waves and navigation of a p5.js portfolio, in Dafny

This project models the parts of a portfolio of p5.js sketches that hold
real logic, and proves what that logic does:

- **Planets 2** (`src/experiments/07-planets2.js`). Planets attract each
  other pair by pair through `gravitate` and `applyForce`. `update`
  integrates them with semi-implicit Euler. `collideEdges` clamps them to
  the canvas and bounces them off it. `collide` separates and bounces
  overlapping planets. Every impact spawns a burst of particles, and `draw`
  prunes the bursts in a reverse `splice` loop. A mouse planet joins the
  physics while the button is held, with a cooldown after a double click.
  A two-flag switch starts and mutes the sound.
  - The physics is stated on values in `Planets2Physics`.
  - Class `Planets2.Planet` updates its fields in place. Each of its
    methods is tied to one of those functions.
  - `Planets2.Sketch` holds the closure state and the event handlers.
  - The bursts are in `Planets2Effects`, the sound switch in
    `Planets2Audio`.
- **Planets** (`src/experiments/06-planets.js`). Each pull is applied at
  once through a velocity-capped `update`. A double click resets every
  planet but the last one. See module `Planets06`.
- **The first planet sketch** (`src/experiments/planets.js`). Planets keep
  a trail of their last 400 positions. `update` divides the shared force
  vector in place (see Findings). See module `PlanetsExample`.
- **Waves** (`public/experiments/05-waves.js`). Noise moves the parameters
  of six sine components, and the wave's point lists are captured into the
  `History` ring buffer. Recalling earlier slots draws fading echoes. See
  module `Waves05`.
- **The page's navigation** (`public/main.js`). It filters out disabled
  experiments and keeps the current index. The prev/next buttons wrap the
  index with `mod`, and `gotoExperiment` swaps the running sketch and the
  sound button. See module `Navigation`.

Shared modules:

- `Vectors`: p5 vectors as values. Square roots come in as a parameter.
- `Entropy`: the random draws, as given streams.
- `Pairs`: the visiting order of the nested `i < j` pair loops, as a fold
  over the list of pairs.
- `Common`: the cooldown and the integral mass.
- `JsNumbers`: JavaScript's truncated remainder and the `mod` idiom.
- `RealFacts`: small facts about products of reals.

JavaScript numbers are modelled as mathematical reals (coordinates,
masses, times) or integers (indices).

## Model

| member | source | states |
|---|---|---|
| Common.FloorMass | src/experiments/07-planets2.js:280 | Math.floor of a draw from random(1, 9) is an integral mass from 1 to 8, at most the draw and within 1 of it |
| Common.Tick | src/experiments/06-planets.js:152-154 | the cooldown drops by deltaTime only while it is positive; otherwise it stays |
| Common.CooldownExpires | src/experiments/07-planets2.js:387-393 | once the frames' deltaTimes add up to the cooldown, the cooldown is no longer positive, so a press takes effect again |
| Common.CooldownStaysExpired | src/experiments/07-planets2.js:387-393 | a cooldown that has run out stays where it is through any number of frames |
| Entropy.Rng.Random2D | src/experiments/07-planets2.js:277 | random2D returns the next direction of its stream, a unit vector, and consumes it |
| Entropy.Rng.Random | src/experiments/07-planets2.js:280-281 | random(lo, hi) is lo plus the next uniform times (hi - lo); it lies in [lo, hi) |
| JsNumbers.Rem | public/main.js:22 | JavaScript's `%`: strictly between -b and b; equals Euclidean `%` for a non-negative dividend, and `a % b - b` (or 0) for a negative one |
| JsNumbers.RemIsTruncatedDivision | public/main.js:22 | the remainder is what truncated division leaves over: a == b * trunc(a / b) + a % b |
| JsNumbers.Mod | public/main.js:21-23 | mod(a, b) lies in [0, b) |
| JsNumbers.ModAgrees | public/main.js:21-23 | mod(a, b) equals Dafny's Euclidean a % b (so it is congruent to a), and it is a itself when 0 <= a < b |
| Navigation.Filter | public/main.js:6 | the offered experiments are exactly the modules whose `disabled` is not true; none is added |
| Navigation.FilterKeepsOrder | public/main.js:6 | filtering distributes over concatenation, so the modules keep their original order |
| Navigation.FilterKeepsAllOffered | public/main.js:6 | the filter returns its input unchanged if and only if no module is disabled |
| Navigation.PrevTarget | public/main.js:25-27 | the prev button asks for (current - 1) mod length, an index in range |
| Navigation.NextTarget | public/main.js:29-31 | the next button asks for (current + 1) mod length, an index in range |
| Navigation.WrapAround | public/main.js:25-31 | prev from 0 goes to length - 1, next from length - 1 goes to 0, and otherwise each moves the index by one |
| Navigation.PrevUndoesNext | public/main.js:21-31 | prev after next comes back to the index it started from, reduced into the list |
| Navigation.Decimal | public/main.js:62 | the decimal string stored for an index is all digits and reads back as that index |
| Navigation.Loaded | public/main.js:16-17 | at page load the current index is the stored one read as a number, or 0 when nothing is stored |
| Navigation.ReloadThenNext | public/main.js:16-30 | read numerically, the stored index comes back as itself, so next after a reload goes to (index + 1) mod length |
| Navigation.NextTargetAsWritten | public/main.js:30 | next as written, where `+ 1` concatenates when current is the stored string; the result still lies in range |
| Navigation.NextAfterReloadAsWritten | public/main.js:16-30 | as written, the first next after a reload from index i goes to (10 i + 1) mod length |
| Navigation.NextAfterReloadSkips | public/main.js:16-30 | with seven experiments and index 2 stored, next shows experiment 0 as written, where 3 is intended |
| Navigation.Navigator.constructor | public/main.js:6-65 | page load: the filtered list and the loaded index; the experiment at that index runs if there is one, and nothing runs otherwise |
| Navigation.Navigator.GotoExperiment | public/main.js:35-63 | an index naming no experiment changes nothing; otherwise the experiment runs, the texts show it, the sound button is shown with a listener exactly for a sketch with sound, and idx becomes the current and the stored index |
| Navigation.Navigator.Prev | public/main.js:25-27 | the prev button moves to PrevTarget of the old index and runs that experiment; with no experiments nothing changes |
| Navigation.Navigator.Next | public/main.js:29-31 | the next button moves to NextTarget of the old index and runs that experiment; with no experiments nothing changes |
| Pairs.Row | src/experiments/07-planets2.js:374 | the inner loop from j = from visits n - from pairs when from < n, and none otherwise |
| Pairs.RowExactly | src/experiments/07-planets2.js:374-381 | row i from j = from holds exactly the pairs (i, j) with from <= j < n, each once |
| Pairs.PairsFromExactly | src/experiments/07-planets2.js:371-381 | the rows from i on hold exactly the pairs i <= a < b < n, each once |
| Pairs.EveryPairOnce | src/experiments/planets.js:88-96 | one frame visits every unordered pair of distinct planets exactly once, the smaller index first |
| Pairs.RowFoldIsFold | src/experiments/06-planets.js:166-175 | running the inner loop of row i applies the step to the pairs of that row, in order |
| Pairs.RowsFoldIsFold | src/experiments/06-planets.js:165-176 | running the outer loop applies the step to all the pairs, in the loops' order |
| Planets2Physics.NewBody | src/experiments/07-planets2.js:87-101 | a new planet is at rest at its start, with no acceleration, lastPos a copy of the start, and radius mass * 3 / 2 |
| Planets2Physics.GravityForce | src/experiments/07-planets2.js:125-127 | the force lies on the line through both planets, and its magnitude is G mA mB / r, since the difference is not normalised |
| Planets2Physics.Pull | src/experiments/06-planets.js:75-79 | what gravitate returns at any distance: the force above, or the zero difference when the planets coincide |
| Planets2Physics.PullNonZero | src/experiments/06-planets.js:75-79 | between planets at different places the pull is never zero |
| Planets2Physics.PullAntisymmetric | src/experiments/06-planets.js:172-174 | the pull B computes towards A is A's pull towards B negated, so B's update with -f is its own pull |
| Planets2Physics.GravityForcePointsToOther | src/experiments/07-planets2.js:126-127 | the force on A points towards B |
| Planets2Physics.Gravitate | src/experiments/07-planets2.js:124-135 | gravitate with both applyForce calls changes only accelerations, and none of an immovable planet |
| Planets2Physics.GravitateConservesMomentum | src/experiments/07-planets2.js:128-129 | with both planets movable, mA dAccA + mB dAccB == 0 |
| Planets2Physics.Integrate | src/experiments/07-planets2.js:137-143 | update leaves an immovable planet as it is; otherwise acc is cleared, lastPos takes the old position, and mass and radius stay |
| Planets2Physics.FreeFlight | src/experiments/07-planets2.js:137-143 | after one update a second update without new forces keeps the velocity; the two move the planet by vel (dt1 + dt2) |
| Planets2Physics.IntegrateUsesNewVelocity | src/experiments/07-planets2.js:139-141 | the velocity gains acc dt first, and the position moves by the new velocity times dt |
| Planets2Physics.EdgeAxis | src/experiments/07-planets2.js:147-155 | one axis hits exactly when out of [r, bound - r]; a hit clamps to r or bound - r and multiplies the speed by -0.6 whatever its sign; otherwise nothing changes |
| Planets2Physics.EdgeAxisClamps | src/experiments/07-planets2.js:147-155 | for a planet that fits, the coordinate ends in [r, bound - r] |
| Planets2Physics.CollideEdges | src/experiments/07-planets2.js:145-170 | collideEdges changes only position and velocity, axis by axis as EdgeAxis, and makes one burst of 20 particles at speed 5 at the clamped position exactly when an axis hit |
| Planets2Physics.CollideEdgesKeepsInside | src/experiments/07-planets2.js:145-170 | a planet that fits ends inside the canvas; one already inside is untouched and makes no burst |
| Planets2Physics.Collide | src/experiments/07-planets2.js:174-199 | collide changes only positions and velocities, and none of an immovable planet; planets that do not touch are left alone with no burst |
| Planets2Physics.Separate | src/experiments/07-planets2.js:178-181 | the same correction vector is subtracted from each movable planet's position |
| Planets2Physics.Bounce | src/experiments/07-planets2.js:183-197 | the bounce changes only velocities, and makes no burst exactly when the planets separate along the normal |
| Planets2Physics.CorrectionKeepsSeparation | src/experiments/07-planets2.js:178-181 | the overlap correction has magnitude overlap / 2 and leaves the separation of two movable planets unchanged |
| Planets2Physics.SeparatingBodiesDoNotBounce | src/experiments/07-planets2.js:183-185 | planets that separate along the normal are corrected but not bounced, and no burst is made |
| Planets2Physics.CollideIsSeparateThenBounce | src/experiments/07-planets2.js:174-199 | collide on touching planets is the correction followed by the bounce along the unit normal |
| Planets2Physics.BounceConservesMomentum | src/experiments/07-planets2.js:187-197 | a bounce between movable planets conserves momentum and makes one 15-particle burst at posA + n rA |
| Planets2Physics.BounceMomentum | src/experiments/07-planets2.js:187-195 | the bounce alone conserves the momentum of two movable planets |
| Planets2Physics.OppositeKicks | src/experiments/07-planets2.js:189-195 | kicks of -n k mB to mass mA and n k mA to mass mB cancel in momentum |
| Planets2Physics.BounceReversesNormalVelocity | src/experiments/07-planets2.js:187-195 | with the factor 1.2 the relative normal velocity after a bounce is -1.4 times what it was, so planets leave faster than they met |
| Planets2Physics.BounceNormalSpeed | src/experiments/07-planets2.js:187-195 | the same, for the bounce alone |
| Planets2Physics.ImpulseTotal | src/experiments/07-planets2.js:187 | the two kicks add up to 2.4 times the normal speed |
| Planets2Effects.NewParticle | src/experiments/07-planets2.js:203-211 | a new particle starts at the origin with the full lifespan of 150 and is alive |
| Planets2Effects.IsDead | src/experiments/07-planets2.js:235-237 | a particle is alive exactly while its lifespan is not negative, so a lifespan of exactly 0 is still alive |
| Planets2Effects.Step | src/experiments/07-planets2.js:213-218 | Particle.update lowers the lifespan by dt, and prevPos takes the old position |
| Planets2Effects.Survivors | src/experiments/07-planets2.js:249-256 | an update never adds particles |
| Planets2Effects.SurvivorsAlive | src/experiments/07-planets2.js:252-254 | every particle left after an update is alive |
| Planets2Effects.SurvivorsAppend | src/experiments/07-planets2.js:249-256 | updating works particle by particle, so the survivors keep their order |
| Planets2Effects.SurvivorsOfOne | src/experiments/07-planets2.js:251-254 | a particle is dropped exactly when its stepped lifespan is below zero; otherwise it is kept, stepped |
| Planets2Effects.SurvivorsLifespanBound | src/experiments/07-planets2.js:213-214 | every survivor's lifespan is dt below what it was |
| Planets2Effects.NoSurvivors | src/experiments/07-planets2.js:249-256 | when every lifespan runs out in this update, no particle is left |
| Planets2Effects.SpliceStep | src/experiments/07-planets2.js:250-255 | one pass of the reverse loop extends the updated suffix by one particle |
| Planets2Effects.UpdateEach | src/experiments/07-planets2.js:362-365 | every burst's particle list is updated as Survivors |
| Planets2Effects.BurstFinishes | src/experiments/07-planets2.js:213-266 | once the updates add up to more than every lifespan, the burst has no particle left and is finished |
| Planets2Effects.LifespanExactlySpentSurvives | src/experiments/07-planets2.js:235-237 | a particle whose lifespan is used up exactly (lifespan 0) is still alive and kept |
| Planets2Effects.Collision.constructor | src/experiments/07-planets2.js:241-247 | exactly numParticles particles, all at the origin with the full lifespan, each drawing one direction and one spread |
| Planets2Effects.Collision.IsFinished | src/experiments/07-planets2.js:264-266 | a burst is finished exactly when its particle list is empty |
| Planets2Effects.Collision.Update | src/experiments/07-planets2.js:249-256 | the reverse splice loop leaves exactly Survivors of the old particles: the dead removed, the living stepped and in order |
| Planets2Audio.Toggle | src/experiments/07-planets2.js:11-24 | toggleMuted never removes audioControl or stops the audio, and makes one call on audioControl exactly when it is installed |
| Planets2Audio.ToggleTimes | src/experiments/07-planets2.js:11-24 | n clicks make n calls when audioControl is installed, and none otherwise |
| Planets2Audio.ToggleHistory | src/experiments/07-planets2.js:11-24 | after n >= 1 clicks: started; start called exactly once and first; the k-th later call is setMuted(k is odd); muted exactly when n is even |
| Planets2Audio.ToggleWithoutControl | src/experiments/07-planets2.js:12 | without audioControl no number of clicks changes anything |
| Planets2Audio.Sound.constructor | src/experiments/07-planets2.js:5-7 | the flags start with no control, not started and muted |
| Planets2Audio.Sound.InstallControl | src/experiments/07-planets2.js:341-349 | setup installs audioControl and changes no flag |
| Planets2Audio.Sound.ToggleMuted | src/experiments/07-planets2.js:11-24 | the flags change as Toggle says |
| Planets2.Trail | src/experiments/07-planets2.js:103-117 | draw changes only lastPos: a visible planet's becomes its position, an invisible planet is untouched |
| Planets2.Offset | src/experiments/07-planets2.js:278-282 | each start offset of initPlanets lies 100 from CENTER |
| Planets2.StartState | src/experiments/07-planets2.js:277-284 | an initPlanets planet has an integral mass 1..8, is movable, lies 100 from CENTER, and has no acceleration |
| Planets2.OffsetsDistinct | src/experiments/07-planets2.js:278-282 | the four planets start on four distinct points |
| Planets2.Kept | src/experiments/07-planets2.js:362-369 | pruning never adds bursts |
| Planets2.KeptFrom | src/experiments/07-planets2.js:362-369 | every burst left after pruning was there before |
| Planets2.KeptExactly | src/experiments/07-planets2.js:362-369 | a burst is kept exactly when its updated particle list is not empty, and none is listed twice |
| Planets2.Pulled | src/experiments/07-planets2.js:124-131 | gravitate changes only accelerations, and none of an immovable planet |
| Planets2.Interaction | src/experiments/07-planets2.js:379-380 | gravitate then collide changes no mass, radius or immovability, and no immovable planet |
| Planets2.InteractionConservesMomentum | src/experiments/07-planets2.js:124-199 | one pair step of two movable planets conserves the momentum of their velocities and of their accelerations |
| Planets2.PulledConservesMomentum | src/experiments/07-planets2.js:124-131 | the pull on two movable planets changes their accelerations by opposite momenta |
| Planets2.CollideConservesMomentum | src/experiments/07-planets2.js:174-199 | collide on two movable planets changes their velocities by opposite momenta |
| Planets2.PairAt | src/experiments/07-planets2.js:375-380 | a pair step keeps the number of planets |
| Planets2.RowFrom | src/experiments/07-planets2.js:374-381 | the inner loop keeps the number of planets |
| Planets2.Turn | src/experiments/07-planets2.js:372-384 | a turn keeps the number of planets |
| Planets2.Edged | src/experiments/07-planets2.js:373 | collideEdges keeps the number of planets |
| Planets2.Finished | src/experiments/07-planets2.js:383-384 | update and draw keep the number of planets |
| Planets2.TurnsFrom | src/experiments/07-planets2.js:371-385 | the loop from planet i on keeps the number of planets |
| Planets2.Frame | src/experiments/07-planets2.js:371-385 | one frame of the planet loop keeps the number of planets |
| Planets2.PairAtFrame | src/experiments/07-planets2.js:375-380 | a pair step changes its two planets alone, no planet's kind, and never an intangible or immovable one |
| Planets2.RowFromFrame | src/experiments/07-planets2.js:374-381 | the rest of row i changes planet i and the later planets alone, and never an intangible or immovable one |
| Planets2.TurnFrame | src/experiments/07-planets2.js:372-384 | planet i's turn leaves the earlier planets alone; an inert planet i goes through collideEdges, update and draw alone; a movable one ends with zero acceleration, a visible one with lastPos at its position |
| Planets2.TurnsFromSteps | src/experiments/07-planets2.js:371-385 | the loop from planet i on: the per-planet facts of FrameSteps for the planets from i on |
| Planets2.FrameSteps | src/experiments/07-planets2.js:371-385 | per planet, one frame keeps its kind; an intangible planet only goes through collideEdges, update and draw; an immovable one is only clamped and drawn; a movable one ends with zero acceleration; a visible one with lastPos at its position |
| Planets2.Planet.constructor | src/experiments/07-planets2.js:87-101 | a new planet is NewBody with its visibility and tangibility flags |
| Planets2.Planet.ApplyForce | src/experiments/07-planets2.js:133-135 | the acceleration gains force / mass |
| Planets2.Planet.Gravitate | src/experiments/07-planets2.js:124-131 | returns GravityForce and changes the two planets as Planets2Physics.Gravitate |
| Planets2.Planet.Update | src/experiments/07-planets2.js:137-143 | the planet changes as Integrate |
| Planets2.Planet.CollideEdges | src/experiments/07-planets2.js:145-170 | the planet and the returned burst are as Planets2Physics.CollideEdges |
| Planets2.Planet.Collide | src/experiments/07-planets2.js:174-199 | the planets and the returned burst are as Planets2Physics.Collide, with the distance from the square root |
| Planets2.Planet.Separate | src/experiments/07-planets2.js:178-181 | the positions change as Planets2Physics.Separate |
| Planets2.Planet.Bounce | src/experiments/07-planets2.js:183-197 | the velocities and the burst are as Planets2Physics.Bounce |
| Planets2.Planet.Draw | src/experiments/07-planets2.js:103-117 | the planet changes as Trail |
| Planets2.Sketch.constructor | src/experiments/07-planets2.js:269-273 | no planets or bursts, cooldown 0, maxVelocity 1200, and an invisible, intangible, immovable mouse planet whose position is CENTER |
| Planets2.Sketch.InitPlanets | src/experiments/07-planets2.js:275-287 | four new planets as StartState around CENTER, drawing in the source's order, then the mouse planet last |
| Planets2.Sketch.NewPlanet | src/experiments/07-planets2.js:277-284 | one planet of initPlanets, as StartState of its draws; one direction and three uniforms consumed |
| Planets2.Sketch.PlaceAt | src/experiments/07-planets2.js:279-284 | the planet at CENTER + Offset(i), with velocity rand / mass |
| Planets2.Sketch.Setup | src/experiments/07-planets2.js:321-352 | setup installs audioControl and then runs initPlanets: four fresh, visible, tangible planets, each StartState of its draws around CENTER, then the mouse planet last; one direction and three uniforms per planet consumed |
| Planets2.Sketch.DoubleClicked | src/experiments/07-planets2.js:289-296 | the planet list is rebuilt as four fresh StartState planets around CENTER with the mouse planet last, drawing as initPlanets does, and the cooldown is set to 1000 |
| Planets2.Sketch.MovePointer | src/experiments/07-planets2.js:298-306 | the mouse planet, and with it CENTER, moves to the pointer |
| Planets2.Sketch.MousePressed | src/experiments/07-planets2.js:308-312 | ignored while the cooldown is positive; otherwise the mouse planet becomes tangible and maxVelocity 400 |
| Planets2.Sketch.MouseReleased | src/experiments/07-planets2.js:314-317 | the mouse planet becomes intangible and maxVelocity 800 |
| Planets2.Sketch.Spawn | src/experiments/07-planets2.js:167-169 | a reported burst appends one fresh Collision, Launched from it: at its origin, with its particle count, every particle at the origin with the full lifespan; no burst changes nothing |
| Planets2.Sketch.PruneEffects | src/experiments/07-planets2.js:362-369 | every burst is updated, and the bursts left are exactly the unfinished ones, in order |
| Planets2.Sketch.PruneAt | src/experiments/07-planets2.js:363-368 | one pass of the reverse pruning loop extends the pruned suffix by one burst |
| Planets2.Sketch.UpdateAt | src/experiments/07-planets2.js:364 | updating one burst changes no other burst's particles |
| Planets2.Sketch.StepPlanets | src/experiments/07-planets2.js:371-385 | the planet loop leaves the planets as Frame of their states before, and returns exactly the bursts Frame reports, in push order |
| Planets2.Sketch.StepOne | src/experiments/07-planets2.js:372-384 | one pass of the planet loop changes the planets and the bursts as Turn |
| Planets2.Sketch.PairsOf | src/experiments/07-planets2.js:374-381 | the inner loop of planet i changes the planets and the bursts as RowFrom from j = i + 1 |
| Planets2.Sketch.Interact | src/experiments/07-planets2.js:379-380 | the two planets and the burst are as Interaction of their states before; coincident exactly when they were on one point |
| Planets2.Sketch.Edges | src/experiments/07-planets2.js:373 | collideEdges on planet i changes the planets and the bursts as Edged |
| Planets2.Sketch.Pair | src/experiments/07-planets2.js:375-380 | one pass of the inner loop changes the planets and the bursts as PairAt: nothing unless both planets are tangible |
| Planets2.Sketch.Finish | src/experiments/07-planets2.js:383-384 | update and draw on planet i change the planets as Finished |
| Planets2.Sketch.SpawnAll | src/experiments/07-planets2.js:167-169 | one fresh Collision per burst that collideEdges or collide reported, in order, each Launched from its burst, after the bursts already there; the planets are unchanged |
| Planets2.Sketch.Simulate | src/experiments/07-planets2.js:362-385 | the pruning loop as PruneEffects, then the planet loop as Frame with dt = deltaTime / 1000 * TIMESCALE; tangibility unchanged |
| Planets2.Sketch.TickCooldown | src/experiments/07-planets2.js:387-393 | the cooldown changes as Tick |
| Planets2.Sketch.Draw | src/experiments/07-planets2.js:354-394 | draw updates every burst and keeps exactly the unfinished ones, appends one new burst Launched from each burst Frame reports, leaves the planets as Frame, keeps tangibility, and ticks the cooldown |
| Planets06.Move | src/experiments/06-planets.js:81-86 | update keeps mass and flags, caps the speed at maxVelocity, leaves an uncapped kick exact, and moves by the new velocity times deltaTime / 3000 |
| Planets06.PairStep | src/experiments/06-planets.js:166-175 | a pair step leaves the list length unchanged |
| Planets06.PairStepFrame | src/experiments/06-planets.js:165-175 | a pair step touches only its two planets, keeps mass and flags, does nothing unless both are tangible, and never moves an immovable planet |
| Planets06.Frame | src/experiments/06-planets.js:165-176 | the pair loop of one frame keeps the number of planets and every planet's mass and flags, leaves every intangible or immovable planet as it was, and leaves every other planet unchanged or within the velocity cap |
| Planets06.LoopLeavesInert | src/experiments/06-planets.js:165-176 | the pair loop leaves every intangible or immovable planet exactly as it was |
| Planets06.LoopCapsSpeed | src/experiments/06-planets.js:84 | after the pair loop every planet is either unchanged or within the velocity cap |
| Planets06.KickAddsForce | src/experiments/06-planets.js:82-83 | a kick by force f adds exactly f to the momentum |
| Planets06.PairConservesMomentumUnderCap | src/experiments/06-planets.js:172-174 | when the cap does not act, a tangible movable pair keeps its total momentum |
| Planets06.StartState | src/experiments/06-planets.js:139-145 | a setup planet has an integral mass 1..8, is tangible and movable, starts 100 ring(i) from CENTER, and has momentum dir * 180 |
| Planets06.StartsShareThreePoints | src/experiments/06-planets.js:143 | cos and sin of 120i degrees repeat every three planets, so planets i and i + 3 start on the same point |
| Planets06.Planet.constructor | src/experiments/06-planets.js:34-46 | a new planet at rest at its start, with lastPos a copy of it |
| Planets06.Planet.Gravitate | src/experiments/06-planets.js:75-79 | gravitate returns Pull and changes nothing |
| Planets06.Planet.Update | src/experiments/06-planets.js:81-86 | the planet changes as Move |
| Planets06.Planet.Draw | src/experiments/06-planets.js:48-68 | a visible planet's lastPos becomes its position; an invisible one keeps it |
| Planets06.Sketch.constructor | src/experiments/06-planets.js:89-91 | no planets, cooldown 0, maxVelocity 1200, and an invisible, intangible, immovable mouse planet of mass 4 at CENTER |
| Planets06.Sketch.Setup | src/experiments/06-planets.js:138-148 | eight new planets as StartState, drawing in the source's order, then the mouse planet last |
| Planets06.Sketch.NewPlanet | src/experiments/06-planets.js:139-145 | one setup planet, as StartState of its draws; one direction and three uniforms consumed |
| Planets06.Sketch.PlaceAt | src/experiments/06-planets.js:140-145 | the planet at 100 ring(i) + CENTER, with velocity rand / mass |
| Planets06.Sketch.DoubleClicked | src/experiments/06-planets.js:93-103 | every planet but the last is put at 80 ring(i) around the pointer with velocity 60 dir / mass; the last is untouched; the cooldown becomes 1000 |
| Planets06.Sketch.Scatter | src/experiments/06-planets.js:96-97 | one pass of doubleClicked's loop |
| Planets06.Sketch.MovePointer | src/experiments/06-planets.js:105-113 | the mouse planet, and with it CENTER, moves to the pointer |
| Planets06.Sketch.MousePressed | src/experiments/06-planets.js:115-119 | ignored while the cooldown is positive; otherwise the mouse planet becomes tangible and maxVelocity 300 |
| Planets06.Sketch.MouseReleased | src/experiments/06-planets.js:121-124 | the mouse planet becomes intangible and maxVelocity 800 |
| Planets06.Sketch.TickCooldown | src/experiments/06-planets.js:152-154 | the cooldown changes as Tick |
| Planets06.Sketch.Draw | src/experiments/06-planets.js:151-180 | draw ticks the cooldown, runs the pair loop as Frame, and brings every visible planet's lastPos to its position |
| Planets06.Sketch.StepPairs | src/experiments/06-planets.js:165-176 | the nested pair loop applies the pair step to every pair in order |
| Planets06.Sketch.PairsOf | src/experiments/06-planets.js:166-175 | the inner loop applies the pair step to row i |
| Planets06.Sketch.Pair | src/experiments/06-planets.js:167-174 | one pass of the inner loop is PairStep |
| Planets06.Sketch.InteractPlanets | src/experiments/06-planets.js:172-174 | a movable a is updated with the pull f and a movable b with -f |
| Planets06.Sketch.DrawAll | src/experiments/06-planets.js:179 | draw on every planet changes only lastPos |
| PlanetsExample.Window | src/experiments/planets.js:61-63 | the trail slice keeps the newest max entries, in order, and nothing else |
| PlanetsExample.WindowAppend | src/experiments/planets.js:60-63 | trimming after every push is trimming once at the end |
| PlanetsExample.WindowTwice | src/experiments/planets.js:61-63 | trimming a trimmed trail changes nothing |
| PlanetsExample.PushedIsWindow | src/experiments/planets.js:57-65 | after any run of updates a trail is the newest 400 of all the positions pushed onto it |
| PlanetsExample.Updated | src/experiments/planets.js:57-65 | update adds acc to the velocity and moves by the new velocity times deltaTime / 1000; a trail of 1 to 400 entries stays so |
| PlanetsExample.UpdatedTrail | src/experiments/planets.js:60-63 | the trail ends with the position before the move; a full trail drops its oldest entry, and any other grows by one |
| PlanetsExample.PairStep | src/experiments/planets.js:90-94 | the pair step as written leaves the list length unchanged |
| PlanetsExample.Interact | src/experiments/planets.js:92-94 | as written: a movable a gains momentum f, the pull towards b; a movable b loses momentum f / mA when a moved (the force object a divided in place) and f when a is immovable; immovable planets, masses and flags are kept |
| PlanetsExample.Frame | src/experiments/planets.js:88-96 | the pair loop of one frame keeps the number of planets, every mass and flag, every immovable planet, and every trail of 1 to 400 entries |
| PlanetsExample.IntendedPairStep | src/experiments/planets.js:92-94 | the pair step with the force copied leaves the list length unchanged |
| PlanetsExample.KickAddsForce | src/experiments/planets.js:58-59 | a velocity change of f / m adds exactly f to the momentum |
| PlanetsExample.PairStepMomentum | src/experiments/planets.js:92-94 | as written, a movable pair gains momentum f - f / mA |
| PlanetsExample.PairStepConservesIff | src/experiments/planets.js:92-94 | as written, momentum survives a pair step of planets at different places exactly when the first mass is 1 |
| PlanetsExample.PairStepCounterexample | src/experiments/planets.js:93-94 | masses 2 and 1 a unit apart: the step as written does not conserve momentum |
| PlanetsExample.IntendedConservesMomentum | src/experiments/planets.js:93-94 | with the copy, every pair step of two movable planets conserves their momentum |
| PlanetsExample.PairStepFrame | src/experiments/planets.js:90-94 | a pair step touches only its two planets, and no immovable one |
| PlanetsExample.LoopKeepsTrails | src/experiments/planets.js:88-96 | the pair loop keeps every trail 1 to 400 entries long, changes no mass or flag, and leaves immovable planets as they were |
| PlanetsExample.Force.DivBy | src/experiments/planets.js:58 | force.div(mass) divides the vector in place |
| PlanetsExample.Force.MulBy | src/experiments/planets.js:94 | force.mult(-1) scales the vector in place |
| PlanetsExample.Planet.constructor | src/experiments/planets.js:19-27 | a new planet at rest at its start, with a trail holding only the start |
| PlanetsExample.Planet.Gravitate | src/experiments/planets.js:51-55 | gravitate returns a new vector holding Pull and changes nothing |
| PlanetsExample.Planet.Update | src/experiments/planets.js:57-65 | the force is divided by the mass in place, and the planet changes as Updated with that quotient |
| PlanetsExample.Sketch.constructor | src/experiments/planets.js:68 | the sketch starts with no planets |
| PlanetsExample.Sketch.Setup | src/experiments/planets.js:70-83 | three planets as StartState, drawing three uniforms each |
| PlanetsExample.Sketch.NewPlanet | src/experiments/planets.js:77-81 | one setup planet, as StartState of its draw |
| PlanetsExample.Sketch.Draw | src/experiments/planets.js:85-97 | draw runs the pair loop as Frame, as written |
| PlanetsExample.Sketch.PairsOf | src/experiments/planets.js:89-95 | the inner loop applies the pair step to row i |
| PlanetsExample.Sketch.Pair | src/experiments/planets.js:90-94 | one pass of the inner loop is PairStep |
| PlanetsExample.Sketch.InteractPlanets | src/experiments/planets.js:92-94 | the two planets change as Interact: b is kicked through the force object a divided |
| PlanetsExample.StartState | src/experiments/planets.js:77-81 | a setup planet has an integral mass 1..8, is at rest and movable, has a trail of its start, and lies 100 ring(i) from the centre |
| Vectors.Normalize | src/experiments/07-planets2.js:184 | normalize divides by the magnitude; the zero vector is left as it is |
| Vectors.Limit | src/experiments/06-planets.js:84 | limit caps the squared magnitude at max squared, keeps a vector within the cap, and otherwise keeps its line and direction |
| Vectors.ScaledDirection | src/experiments/07-planets2.js:179 | setMag on a unit direction gives magnitude k on the same line, pointing the same way for k >= 0 |
| Waves05.Map | public/experiments/05-waves.js:73 | p5's map carries a to c and b to d |
| Waves05.MapOntoSpread | public/experiments/05-waves.js:66-68 | a noise value in [0, 1] maps into [-|w|, |w|] |
| Waves05.Varied | public/experiments/05-waves.js:65-69 | the amplitude of a component's frame parameters is at least 0.1 |
| Waves05.ParamsWithinVariation | public/experiments/05-waves.js:66-68 | with noise in [0, 1], frequency and phase move by at most their variation, and the amplitude stays between the floored bounds |
| Waves05.CurrentParams | public/experiments/05-waves.js:57-70 | one parameter set per component, each with amplitude at least 0.1 |
| Waves05.WaveSumBounded | public/experiments/05-waves.js:74-77 | with sin in [-1, 1], the sum stays within a fifth of the total amplitude |
| Waves05.TermBounded | public/experiments/05-waves.js:76 | one component's term stays within a fifth of its amplitude |
| Waves05.PointsSpanWidth | public/experiments/05-waves.js:79-82 | the points run from x = 0, strictly left to right, short of the window's right edge |
| Waves05.PointBuffer.Zeros | public/experiments/05-waves.js:97-100 | a new list of n points [0, 0] |
| Waves05.PointBuffer.Put | public/experiments/05-waves.js:79-82 | points[i] = p overwrites entry i, or appends when i is the length |
| Waves05.Waves.constructor | public/experiments/05-waves.js:23-28 | pointTotal is floor(innerWidth / resolution * 2), with no components and no parameters |
| Waves05.Waves.Init | public/experiments/05-waves.js:30-51 | exactly six components, component k made of draws 8k to 8k + 7 as Drawing says, each field in its range; 48 draws consumed |
| Waves05.Waves.DrawComponent | public/experiments/05-waves.js:33-49 | one component whose eight fields are, in the order written, random(lo, hi) of the next eight uniform draws (Drawing), the frequency variation from the wider range for component 0; eight draws consumed |
| Waves05.Waves.DrawingInRanges | public/experiments/05-waves.js:33-49 | with draws in [0, 1), every field of a drawn component lies in its range, the first component's frequency variation in [2, 6) and the others' in [0.5, 2) |
| Waves05.Waves.SumAt | public/experiments/05-waves.js:74-77 | the forEach adds every component's term, in order |
| Waves05.Waves.WritePoint | public/experiments/05-waves.js:73-82 | one pass of update's loop writes point i as WavePoint |
| Waves05.Waves.Update | public/experiments/05-waves.js:53-86 | the parameters are CurrentParams; exactly points 0..pointTotal are written, growing a shorter list to pointTotal + 1 and leaving later entries alone |
| Waves05.RecallIndex | public/experiments/05-waves.js:118 | the recalled slot ((idx - n) % size + size) % size is in range and equals (idx - n) mod size |
| Waves05.AdvancedByWraps | public/experiments/05-waves.js:107-109 | k advances from an index in range land k slots further on, around the ring |
| Waves05.RecallZeroIsNewest | public/experiments/05-waves.js:111-118 | recall(0) reads the slot just captured |
| Waves05.Echo | public/experiments/05-waves.js:107-118 | after k <= size - 1 captures, recall(k) reads the slot recall(0) read before them, and none of them rewrote it |
| Waves05.DrawRecallsInRange | public/experiments/05-waves.js:156-163 | the echo indices draw asks for lie in [0, size), so recall never throws |
| Waves05.History.constructor | public/experiments/05-waves.js:90-105 | size fresh lists, idx 0, each then filled by wave.update with the current frame's pointTotal + 1 points |
| Waves05.History.Advance | public/experiments/05-waves.js:107-109 | idx moves one slot on, wrapping at size, and stays in range |
| Waves05.History.Capture | public/experiments/05-waves.js:111-114 | capture advances idx, rewrites that slot with the current frame, and leaves every other slot unchanged |
| Waves05.History.Recall | public/experiments/05-waves.js:116-120 | recall(n) fails exactly when n >= size, and otherwise returns the slot (idx - n) mod size, negative n included |

## Left out

- Rendering: canvases, trail buffers, fading, blending, particle alpha, the
  cooldown overlay, the colours and the drawing of waves and echoes. Only
  the state that drawing changes (`lastPos`) is modelled.
- Audio: the PlanetSynth oscillators and gains behind audioControl are
  library calls. `start` and `setMuted` are recorded as calls in order.
  `PlanetSynth.update` is never called by the sketch.
- Randomness and noise: `random2D`, `random` and `noise` are given
  streams or functions, not modelled generators. `sin` in 05-waves.js is
  an opaque function. Its range [-1, 1] is only assumed by
  Waves05.WaveSumBounded, and noise's range [0, 1] only by
  Waves05.ParamsWithinVariation.
- Square roots: `dist`, `mag`, `setMag`, `normalize` and `limit` take the
  square root (or the division by the magnitude) as a parameter that is
  required to be one.
- Trigonometry: the offsets of 07-planets2.js are the exact values at
  multiples of 90 degrees. 06-planets.js and planets.js take
  (cos 120i, sin 120i) as a `ring` parameter.
- Floating point: numbers are exact reals or integers. No rounding,
  overflow or NaN is modelled beyond the cases below.
- Planets2.Planet.Gravitate requires a non-zero distance, since the source
  divides by the squared distance. Planets2.Sketch.Interact skips
  gravitate for two tangible planets on one point and reports it. There
  p5's `mult` ignores the non-finite factor, so the force is the zero
  vector and adds nothing.
- Planets2.Sketch.Draw makes the Collisions for the bursts of a frame
  after the planet loop, not during it as collideEdges and collide do.
  Nothing in the planet loop reads the collision list or draws random
  numbers, so the list and the draws come out the same.
- Navigation.Navigator.Prev and Navigation.Navigator.Next: with no
  experiments `mod` yields NaN, which names no experiment, so nothing
  changes. This is modelled as an early return.
- Navigation.Navigator keeps currentExperiment as a number. The stored
  string that main.js keeps after a reload is modelled separately (see
  Findings).
- JsNumbers.Rem and JsNumbers.Mod are defined only for positive divisors,
  the only ones the sketches use.
- Waves05.Waves.Update requires pointTotal > 0 and a window of non-zero
  width and height. Otherwise p5's `map` divides by zero and the points
  are NaN.
- Waves05.Waves.Update takes the point list as an argument. The default
  argument `new Array(pointTotal)` is the same as passing a fresh empty
  list, since holes are never read.
- Waves05.History.Advance, Capture and Recall require size > 0. With size
  0 the index becomes NaN.
- The DOM, event-listener wiring and the p5 instance of main.js are
  modelled as fields: the running experiment, the two texts, the sound
  button's visibility and its listener.
- `src/main.js`, the drawing-only sketches (`01-lines1.js`,
  `02-lines2.js`, `03-squares.js`, `04-squares2.js`, `lines.js`,
  `kaleidoscope.js`) and the unfinished `src/experiments/waves.js` are not
  part of this model.

## Findings

| source | as written | input that shows it | evidently intended | confidence | as-written member | corrected member |
|---|---|---|---|---|---|---|
| src/experiments/planets.js:93-94 | `a.update(force)` divides the force object in place, and `b.update(force.mult(-1))` reuses it, so b is kicked by -f / (mA mB) | masses 2 and 1, a unit apart, both at rest: the pair gains momentum f / 2 | b is kicked by -f / mB, as the later sketches do with `force.copy()`, so momentum is conserved | not executed | PlanetsExample.PairStepCounterexample | PlanetsExample.IntendedConservesMomentum |
| public/main.js:16-30 | after a reload currentExperiment is the string from localStorage, and `currentExperiment + 1` concatenates | index 2 stored, seven experiments: next computes mod("21", 7) = 0 and shows the first experiment | next goes to (2 + 1) mod 7 = 3 | not executed | Navigation.NextAfterReloadSkips | Navigation.ReloadThenNext |
