# Price-tag and road-tax animation: a Dafny model of its orchestration core

The Unity scene shows a short, timed sequence:

1. A price tag fades in, stays, then moves up while fading out.
2. Stars fall from the sky, bounce, rest and fade away.
3. Each star that disappears adds a segment to a road.
4. A road-tax label tells how many metres of road the amount maintains.

Falling leaves, a cherry-blossom particle effect, a star pool and a recording helper complete the scene.

The engine runs all of this as per-frame updates and coroutines. Each coroutine is modelled here as a stage datatype plus a `Tick(dt)` method. `Tick(dt)` advances the stage by one frame of `dt` seconds:

- While a stage has time left, it interpolates with its clamped progress.
- When its time is up, it snaps to its exact end value and hands over to the next stage.

Components whose fields the engine updates in place are classes:

- `RoadManager`, `StarSpawner`, `StarController`, `MasterController`, `PriceTagAnimator`;
- `FallingLeavesController` with `LeafFadeOut`;
- `RoadTaxTextAnimator`, `PerformanceOptimizer`, `CherryBlossomController`, `RecordingHelper`.

A destroyed game object is an object whose `alive` flag is down.

Pure code is modelled as functions with lemmas. This covers the number formats (`D3`, `F0`, `F2`), the reading of a price amount out of a price string, and the tax label.

Modules, one per file:

- `Tween`: clamped progress, interpolation, the two animation curves, and pending waits.
- `Format`: decimal, `D3`, `F0` and `F2` renderings.
- `PriceText` and `PriceTag`: the price string and the price tag.
- `Road`, `Star`, `Spawner` and `Master`: the road, one star, the spawner and the master sequence.
- `Leaves`: the falling leaves and their fade-out.
- `TaxText`: the road-tax label.
- `StarPool`: the star pool.
- `CherryBlossom`: the blossom effect.
- `Recording`: the recording helper.

Some behaviours of the code differ from what its comments and its other paths lead one to expect; the model follows the code as written:

- The spawner has no cap on live stars. Only the total spawned is bounded, and 0 means no bound.
- A star's disappearance extends the road whatever the sequence or the spawner is doing.
  - A reset does not cancel a star that is already fading out.
  - A star keeps its own sequence, so its notification still reaches the master when it ends.
- The master sequence is: optional delay, price tag, wait for the price tag's total duration, start the spawner, initialize the road.
  - It has no leaf stage and no tax-text stage. Those components are driven from outside it.
- A smooth extension does not move the road's cursor (Assets/Scripts/RoadManager.cs:227 creates the segment without advancing it, while the initial fade-in advances it by hand at line 107). Successive smooth extensions therefore stack at the same position; `Road.StackedSmoothExtensions` shows it.

## Model

The total-duration getters `PriceTag.PriceTagAnimator.GetTotalDuration`, `Star.StarController.GetTotalDuration`, `TaxText.RoadTaxTextAnimator.GetTotalDuration` and `CherryBlossom.CherryBlossomController.GetDuration` are plain definitions and have no row of their own. The first three are pinned down through the contracts of the `Tick` rows of the price tag, the star, the tax label and the master; the blossom's getter returns its configured duration and is used by no other member.

| member | source | states |
|---|---|---|
| Tween.ProgressMonotone | Assets/Scripts/StarController.cs:131-133 | clamped progress never decreases as elapsed time grows |
| Tween.ProgressComplete | Assets/Scripts/StarController.cs:131-133 | with a positive duration, progress is 1 once elapsed time reaches the duration |
| Tween.ProgressBelowOne | Assets/Scripts/StarController.cs:131-133 | while elapsed time is below a positive duration, progress is the plain ratio and is below 1 |
| Tween.Evaluate | Assets/Scripts/RoadManager.cs:38 | the default ease-in-out and linear fade curves stay within [0, 1] and take their end values at progress 0 and 1 |
| Tween.SmoothStepBounds | Assets/Scripts/RoadManager.cs:116-144 | the smooth-step polynomial that scales the initial segments keeps a progress in [0, 1] within [0, 1] |
| Tween.AdvanceWaits | Assets/Scripts/CherryBlossomController.cs:245-278 | waits that are advanced and not yet due are each below the wait, and there are no more of them than before |
| Tween.AdvanceWaitsNonnegative | Assets/Scripts/RecordingHelper.cs:93-117 | advancing non-negative waits by a non-negative step keeps them non-negative |
| Tween.AdvanceWaitsAll | Assets/Scripts/CherryBlossomController.cs:245-278 | all pending waits go on waiting if and only if none of them comes due in this frame |
| Format.NatToStringValue | Assets/Scripts/RoadTaxTextAnimator.cs:72 | reading the decimal rendering of n back as digits gives n |
| Format.NatToStringInjective | Assets/Scripts/RoadTaxTextAnimator.cs:72 | distinct numbers have distinct decimal renderings |
| Format.ZerosValue | Assets/Scripts/RoadManager.cs:289 | a run of zeros before a digit string does not change its value |
| Format.D3Value | Assets/Scripts/StarSpawner.cs:143 | the D3 rendering has at least three digits, exactly three below 1000, and reads back as the number |
| Format.NatToStringShort | Assets/Scripts/StarSpawner.cs:143 | a number below 1000 renders in at most three digits |
| Format.CounterNameInjective | Assets/Scripts/RoadManager.cs:289 | names made of a fixed prefix and a D3 counter identify the counter |
| Format.RoundHalfAway | Assets/Scripts/PriceTagAnimator.cs:259 | the rounded value is within one half of the real, with halves rounded up |
| Format.F0OfInteger | Assets/Scripts/RoadTaxTextAnimator.cs:72 | a whole number prints under F0 as its decimal rendering, with a minus sign exactly when negative |
| PriceText.LeftmostMatchIsFirstDigit | Assets/Scripts/PriceTagAnimator.cs:214-226 | the amount pattern matches exactly when the string holds a digit, and its group starts at the first digit |
| PriceText.NoDigitIsZero | Assets/Scripts/PriceTagAnimator.cs:219-225 | a price string without a digit reads as amount 0 |
| PriceText.AmountAtFirstDigit | Assets/Scripts/PriceTagAnimator.cs:217-221 | the amount is the number that starts at the first digit of the string |
| PriceText.FirstRunIsAmount | Assets/Scripts/PriceTagAnimator.cs:217-221 | a first digit run followed by neither a digit nor a point reads back as its own value |
| PriceText.FixedPointAmount | Assets/Scripts/PriceTagAnimator.cs:217-221 | a digit-free prefix followed by "q.rr" reads as q + rr/100 |
| PriceText.PriceRoundTrip | Assets/Scripts/PriceTagAnimator.cs:256-267 | the amount read back from a price printed by SetPrice is the price's magnitude rounded to cents, within half a cent for a non-negative price |
| PriceTag.PriceTagAnimator.GetPriceAmount | Assets/Scripts/PriceTagAnimator.cs:214-226 | the amount read is never negative, since the pattern captures no sign |
| PriceTag.PriceTagAnimator.constructor | Assets/Scripts/PriceTagAnimator.cs:52-65 | the configuration is stored and the label is hidden at its initial position, not animating |
| PriceTag.PriceTagAnimator.InitializeUI | Assets/Scripts/PriceTagAnimator.cs:70-92 | the text shows the price string, the label sits at its initial position, the move-up target is computed, and alpha is 0 |
| PriceTag.PriceTagAnimator.PlayAnimation | Assets/Scripts/PriceTagAnimator.cs:97-130 | a running animation is left alone; otherwise the flag rises and the fade-in starts |
| PriceTag.PriceTagAnimator.Tick | Assets/Scripts/PriceTagAnimator.cs:111-201 | each stage interpolates alpha and position while unfinished and ends on its exact end value; the flag falls only after the total duration has passed |
| PriceTag.PriceTagAnimator.ResetAnimation | Assets/Scripts/PriceTagAnimator.cs:231-238 | the routine stops, the flag falls and the UI is back in its initial state with the price string kept |
| PriceTag.PriceTagAnimator.UpdatePrice | Assets/Scripts/PriceTagAnimator.cs:243-251 | the price string is replaced verbatim and shown when there is a text |
| PriceTag.PriceTagAnimator.SetPrice | Assets/Scripts/PriceTagAnimator.cs:256-267 | the price string is "¥" and the F2 rendering, and the amount read back is the price rounded to cents |
| Road.SegmentNameInjective | Assets/Scripts/RoadManager.cs:288-289 | distinct segment counters give distinct segment names |
| Road.CenterIsMidpoint | Assets/Scripts/RoadManager.cs:481-496 | the centre of any road, the empty one included, is the midpoint between the origin and its far end, and each extra segment, the first one too, moves it by half a segment |
| Road.RoadManager.constructor | Assets/Scripts/RoadManager.cs:47-51 | the road starts empty, with a zero counter, and with no extension and no fade-in running |
| Road.RoadManager.CreateRoadSegment | Assets/Scripts/RoadManager.cs:260-301 | a fresh full-size segment named after the incremented counter is appended at the position; the cursor advances one segment length only when asked |
| Road.RoadManager.ClearAllRoads | Assets/Scripts/RoadManager.cs:451-463 | every listed segment is destroyed, the list is emptied and the counter zeroed; other objects are untouched |
| Road.RoadManager.Initialize | Assets/Scripts/RoadManager.cs:56-111 | the road is cleared, the cursor is at its initial position (the world origin in a WebGL player, the manager's position elsewhere), and with initial segments the first one is created there, shrunk, with its fade-in started |
| Road.RoadManager.ExtendRoad | Assets/Scripts/RoadManager.cs:186-217 | nothing changes when extension is disabled, the cap is reached, or a smooth extension runs; otherwise exactly one segment is appended at the cursor, the road never passes the cap, and only the instant mode advances the cursor |
| Road.RoadManager.ExtendRoadAnimated | Assets/Scripts/RoadManager.cs:222-232 | the flag rises and a shrunk segment is appended at the cursor without moving the cursor |
| Road.RoadManager.Tick | Assets/Scripts/RoadManager.cs:96-144 | one frame of both road coroutines: the fade-in segment grows along the smooth step and, when done, is full size, the cursor advances and the next initial segment starts; the extending segment grows along the extension curve and, when done, is full size with the flag down; the invariant holds |
| Road.RoadManager.TickFadeIn | Assets/Scripts/RoadManager.cs:96-144 | the fading segment grows along the smooth step; when done it is full size, the cursor advances one segment length and the next initial segment starts there |
| Road.RoadManager.FinishFadeInSegment | Assets/Scripts/RoadManager.cs:104-108 | the fading segment snaps to full size, the cursor advances, and the next initial segment is created if any is left |
| Road.RoadManager.CompleteFadeInSegment | Assets/Scripts/RoadManager.cs:104-108 | the fading segment is full size and the cursor has advanced one segment length |
| Road.RoadManager.FadeInNextSegment | Assets/Scripts/RoadManager.cs:98-102 | the next initial segment is appended shrunk at the cursor and its fade-in starts |
| Road.RoadManager.TickExtension | Assets/Scripts/RoadManager.cs:234-255 | the extending segment grows along the extension curve; when done it is full size and the flag falls |
| Road.RoadManager.GrowExtension | Assets/Scripts/RoadManager.cs:234-246 | a frame inside the extension: the segment's growth is the extension curve at the clamped progress, and nothing else on the road changes |
| Road.RoadManager.FinishExtension | Assets/Scripts/RoadManager.cs:250-254 | the extension's end: the segment is full size and the flag falls, and nothing else on the road changes |
| Road.StackedSmoothExtensions | Assets/Scripts/RoadManager.cs:222-228 | two smooth extensions, the first finished in between, put both new segments at the same position and leave the cursor where it was |
| Road.RoadManager.Reset | Assets/Scripts/RoadManager.cs:468-476 | every segment is destroyed, the road is empty with zero length, its centre is the origin, the cursor is at the origin and no animation runs |
| Star.StarController.constructor | Assets/Scripts/StarController.cs:52-73 | a new star has its settings and is not animating |
| Star.StarController.Initialize | Assets/Scripts/StarController.cs:78-92 | the star is placed at its start point, aims at its ground target, has scale 1 and alpha 1, and starts falling |
| Star.StarController.Tick | Assets/Scripts/StarController.cs:97-256 | the stages advance in order and end on exact end values (ground target, bounce scale, scale 1, alpha 0); the disappearance notice is raised exactly once, when the fade-out ends, and not before the total duration has passed |
| Star.StarController.FallDownStep | Assets/Scripts/StarController.cs:127-150 | while the fall is unfinished the star is on the ease-in-out curve from its start point to its target; when it ends it is exactly on the target and the bounce begins |
| Star.StarController.GrowStep | Assets/Scripts/StarController.cs:155-170 | the scale grows from 1 towards the bounce scale with the clamped progress, reaches the bounce scale when the half ends, and the shrinking half begins |
| Star.StarController.ShrinkStep | Assets/Scripts/StarController.cs:172-185 | the scale shrinks from the bounce scale towards 1, is exactly 1 when the half ends, and the rest begins |
| Star.StarController.RestStep | Assets/Scripts/StarController.cs:109-111 | the star rests for the land duration and then starts fading out; nothing visible changes |
| Star.StarController.FadeOutStep | Assets/Scripts/StarController.cs:191-208 | alpha follows the one-to-zero curve while the fade is unfinished and is exactly 0 when it ends, which is exactly when the star disappears |
| Spawner.StarNameInjective | Assets/Scripts/StarSpawner.cs:143 | distinct spawn counters give distinct star names |
| Spawner.StarSpawner.constructor | Assets/Scripts/StarSpawner.cs:48-55 | the spawner starts idle with a zero counter and no stars |
| Spawner.StarSpawner.GetSpawnInterval | Assets/Scripts/StarSpawner.cs:174-184 | the interval is the fixed one, or lies between the two random bounds |
| Spawner.StarSpawner.CalculateSpawnPosition | Assets/Scripts/StarSpawner.cs:159-169 | the spawn point lies within the x and z ranges around the spawn centre, at its height |
| Spawner.StarSpawner.SpawnStar | Assets/Scripts/StarSpawner.cs:121-154 | the counter rises by one, and a fresh star named after it is appended and starts its fall |
| Spawner.StarSpawner.LoopStep | Assets/Scripts/StarSpawner.cs:93-115 | while the total is unlimited or not reached, a star is spawned and an interval begins; otherwise the routine ends and the flag falls |
| Spawner.StarSpawner.StartSpawning | Assets/Scripts/StarSpawner.cs:60-71 | a running routine is left alone; otherwise the counter resets and the routine starts, spawning at once without a first delay |
| Spawner.StarSpawner.Tick | Assets/Scripts/StarSpawner.cs:91-116 | at most one star per frame; the routine ends only once the counter reaches a positive total, and never with total 0 |
| Spawner.StarSpawner.StopSpawning | Assets/Scripts/StarSpawner.cs:76-86 | the routine stops and the flag falls; the counter and stars are kept |
| Spawner.StarSpawner.SpawnSingleStar | Assets/Scripts/StarSpawner.cs:245-255 | in play mode exactly one star is spawned regardless of the total; otherwise nothing changes |
| Spawner.StarSpawner.Reset | Assets/Scripts/StarSpawner.cs:260-264 | the routine stops and the counter is zero |
| Master.MasterController.constructor | Assets/Scripts/MasterController.cs:24-48 | the collaborators are stored and no sequence runs |
| Master.MasterController.ValidateComponents | Assets/Scripts/MasterController.cs:53-76 | the check passes if and only if all three collaborators are present |
| Master.MasterController.Start | Assets/Scripts/MasterController.cs:24-48 | with a missing collaborator or no auto-play nothing changes; otherwise the sequence begins |
| Master.MasterController.StartAnimation | Assets/Scripts/MasterController.cs:81-90 | a running sequence is left alone; otherwise the flag rises and the sequence begins with its delay or with the price tag |
| Master.MasterController.PlayPriceTag | Assets/Scripts/MasterController.cs:107-114 | the price tag plays and its total duration is waited; without a price tag the sequence halts |
| Master.MasterController.StartSpawnerAndRoad | Assets/Scripts/MasterController.cs:116-122 | the spawner starts unless it has nothing to spawn, then the road is initialized at its initial cursor; the sequence halts exactly when a collaborator is missing, at its step |
| Master.MasterController.Tick | Assets/Scripts/MasterController.cs:95-126 | the flag never changes; a wait moves on only when its time is over; after the delay the sequence halts exactly when there is no price tag and otherwise waits for the playing tag's total duration; after that wait the spawner is started and the road initialized, and the sequence halts exactly when one of them is missing |
| Master.MasterController.ResetAnimation | Assets/Scripts/MasterController.cs:131-147 | the sequence is back at its start, the price tag is hidden and stopped, the spawner is stopped and the road is empty with its cursor at the origin |
| Master.MasterController.OnStarDisappeared | Assets/Scripts/MasterController.cs:152-158 | when extension is enabled, the cap is not reached and no animated extension runs, the road gains exactly one segment at the old cursor (shrunk when smooth, full otherwise); in the other cases the road and its cursor are unchanged |
| Master.MasterController.AdvanceStar | Assets/Scripts/StarController.cs:243-256 | the road is touched only when the star's fade-out ends and the star found the controller, and then it gains exactly one segment at the old cursor whenever the road manager accepts an extension |
| Master.MasterController.Update | Assets/Scripts/MasterController.cs:161-171 | the restart key resets everything and begins a fresh sequence |
| Leaves.SurvivorsMembers | Assets/Scripts/SimpleFallingLeavesController.cs:311-329 | pruning keeps exactly the existing leaves that are not below the despawn height |
| Leaves.ExistingMembers | Assets/Scripts/SimpleFallingLeavesController.cs:417-431 | dropping destroyed leaves keeps exactly the existing ones |
| Leaves.SurvivorsAppend | Assets/Scripts/SimpleFallingLeavesController.cs:311-329 | pruning works piecewise, so kept leaves keep their order |
| Leaves.ExistingAppend | Assets/Scripts/SimpleFallingLeavesController.cs:417-431 | dropping destroyed leaves works piecewise |
| Leaves.ExistingIdempotent | Assets/Scripts/SimpleFallingLeavesController.cs:417-431 | dropping destroyed leaves twice is the same as once |
| Leaves.SurvivorsIdempotent | Assets/Scripts/SimpleFallingLeavesController.cs:311-329 | pruning twice is the same as once |
| Leaves.SurvivorsDistinct | Assets/Scripts/SimpleFallingLeavesController.cs:311-329 | pruning a list of distinct leaves keeps them distinct |
| Leaves.ExistingDistinct | Assets/Scripts/SimpleFallingLeavesController.cs:417-431 | dropping destroyed leaves keeps a list distinct |
| Leaves.SurvivorsIsSelect | Assets/Scripts/SimpleFallingLeavesController.cs:311-329 | pruning is selection by each leaf's keep flag |
| Leaves.FadeProgress | Assets/Scripts/SimpleFallingLeavesController.cs:532-533 | fade progress lies in [0, 1] |
| Leaves.FadeCompleteWhenDurationPassed | Assets/Scripts/SimpleFallingLeavesController.cs:532-555 | with a positive duration the fade is complete exactly when the elapsed time reaches the duration |
| Leaves.SpawnWait | Assets/Scripts/SimpleFallingLeavesController.cs:334-341 | the spawn wait is one over the rate, and there is none (forever) for rate 0 |
| Leaves.StillWaiting | Assets/Scripts/SimpleFallingLeavesController.cs:417-431 | the advanced cleanups that are not due are each below their wait |
| Leaves.StillWaitingCount | Assets/Scripts/SimpleFallingLeavesController.cs:417-431 | every cleanup goes on waiting if and only if none comes due this frame |
| Leaves.AdvanceCleanups | Assets/Scripts/SimpleFallingLeavesController.cs:417-419 | the cleanups left are exactly the ones not due, with their time advanced, and the pass reports a due cleanup exactly when one comes due |
| Leaves.DropDestroyed | Assets/Scripts/SimpleFallingLeavesController.cs:422-428 | the backward removal pass leaves exactly the existing leaves, in order |
| Leaves.AttachFades | Assets/Scripts/SimpleFallingLeavesController.cs:401-408 | every existing leaf, in list order, gets one fresh fade-out of the duration with no time elapsed |
| Leaves.Leaf.constructor | Assets/Scripts/SimpleFallingLeavesController.cs:255-306 | a new leaf exists at its height with its fall speed |
| Leaves.Leaf.Fall | Assets/Scripts/SimpleFallingLeavesController.cs:468-473 | an existing leaf moves down by its fall speed times dt; a destroyed one stays |
| Leaves.Leaf.Destroy | Assets/Scripts/SimpleFallingLeavesController.cs:323-327 | an existing leaf is destroyed |
| Leaves.LeafFadeOut.constructor | Assets/Scripts/SimpleFallingLeavesController.cs:498-522 | the fade starts at full alpha with no time elapsed |
| Leaves.LeafFadeOut.Update | Assets/Scripts/SimpleFallingLeavesController.cs:524-556 | alpha follows 1 - progress; the leaf is destroyed once, when the fade completes or when it has no material |
| Leaves.PruneLeaf | Assets/Scripts/SimpleFallingLeavesController.cs:315-327 | a destroyed leaf goes, a leaf below the despawn height is destroyed and goes, and any other leaf stays |
| Leaves.PruneBelow | Assets/Scripts/SimpleFallingLeavesController.cs:311-329 | the pass keeps exactly the leaves whose keep flag held on entry, in order, and destroys the live ones below the despawn height |
| Leaves.FallingLeavesController.constructor | Assets/Scripts/SimpleFallingLeavesController.cs:67-98 | the controller starts stopped, with no leaves |
| Leaves.FallingLeavesController.SpawnLeaf | Assets/Scripts/SimpleFallingLeavesController.cs:255-306 | below the cap one fresh leaf is appended between the spawn height and two units above it; at the cap nothing changes |
| Leaves.FallingLeavesController.StartFallingLeaves | Assets/Scripts/SimpleFallingLeavesController.cs:346-357 | a running effect is left alone; otherwise it plays and the first leaf is spawned at once |
| Leaves.FallingLeavesController.StopFallingLeaves | Assets/Scripts/SimpleFallingLeavesController.cs:362-377 | spawning stops and the leaves stay |
| Leaves.FallingLeavesController.UpdateLeaves | Assets/Scripts/SimpleFallingLeavesController.cs:311-329 | the list becomes its survivors, in order, and the leaves below the despawn height are destroyed |
| Leaves.FallingLeavesController.Frame | Assets/Scripts/SimpleFallingLeavesController.cs:100-106 | one frame prunes the fallen and destroyed leaves while playing, then adds at most one fresh live leaf at the end, only when the spawn wait is over; due cleanups drop the destroyed leaves and the rest go on waiting; the playing flag is kept |
| Leaves.FallingLeavesController.SpawnAndClean | Assets/Scripts/SimpleFallingLeavesController.cs:334-341 | the spawn loop adds at most one fresh live leaf at the end, and a due cleanup then drops the destroyed leaves that were there before |
| Leaves.FallingLeavesController.TickSpawnLoop | Assets/Scripts/SimpleFallingLeavesController.cs:334-341 | a leaf is spawned only when the spawn wait is over, and the wait then starts again |
| Leaves.FallingLeavesController.PruneDestroyed | Assets/Scripts/SimpleFallingLeavesController.cs:422-430 | the list becomes its existing leaves, in order, and nothing is destroyed |
| Leaves.FallingLeavesController.TickCleanups | Assets/Scripts/SimpleFallingLeavesController.cs:417-431 | due cleanups drop the destroyed leaves, and the others go on waiting |
| Leaves.FallingLeavesController.FadeOutLeaves | Assets/Scripts/SimpleFallingLeavesController.cs:393-412 | spawning stops, every existing leaf gets a fade-out of the duration, and a cleanup is scheduled half a second after it |
| Leaves.FallingLeavesController.ClearAllLeaves | Assets/Scripts/SimpleFallingLeavesController.cs:436-447 | every existing leaf is destroyed and the list is empty |
| Leaves.FallingLeavesController.ResetFallingLeaves | Assets/Scripts/SimpleFallingLeavesController.cs:382-387 | spawning stops, every leaf is destroyed and the list is empty |
| TaxText.TaxLabelOfWholeAmount | Assets/Scripts/RoadTaxTextAnimator.cs:72 | for a whole amount n the label reads n, "元税款", a line break, "=", 2n and "米的道路养护" |
| TaxText.TaxLabelNumbersAgree | Assets/Scripts/RoadTaxTextAnimator.cs:65-72 | for a whole amount the second number on the label reads back as twice the first |
| TaxText.RoadTaxTextAnimator.constructor | Assets/Scripts/RoadTaxTextAnimator.cs:35-55 | the label starts hidden, with no amount and no sequence running |
| TaxText.RoadTaxTextAnimator.ShowTaxText | Assets/Scripts/RoadTaxTextAnimator.cs:60-78 | the amount is stored, the label text is set when there is a text, and the sequence starts from its delay |
| TaxText.RoadTaxTextAnimator.Tick | Assets/Scripts/RoadTaxTextAnimator.cs:83-152 | the delay, fade-in, stay and fade-out run in order; alpha follows the clamped progress and snaps to 1 and to 0; the sequence ends only after its total duration |
| TaxText.RoadTaxTextAnimator.ResetAnimation | Assets/Scripts/RoadTaxTextAnimator.cs:165-178 | the sequence stops, alpha is 0, the text is emptied and the amount is kept |
| StarPool.StarObject.Instantiate | Assets/Scripts/PerformanceOptimizer.cs:114-116 | the copy is a fresh, existing object with the original's active flag |
| StarPool.PerformanceOptimizer.constructor | Assets/Scripts/PerformanceOptimizer.cs:34-35 | the pool starts empty and has no prefab |
| StarPool.PerformanceOptimizer.GetStarFromPool | Assets/Scripts/PerformanceOptimizer.cs:103-120 | the oldest pooled star is dequeued and activated; an empty pool gives a fresh prefab copy, or nothing without a prefab |
| StarPool.PerformanceOptimizer.ReturnStarToPool | Assets/Scripts/PerformanceOptimizer.cs:125-136 | below the maximum size the star is deactivated and enqueued; otherwise it is destroyed and the pool is unchanged |
| StarPool.PerformanceOptimizer.ClearPool | Assets/Scripts/PerformanceOptimizer.cs:159-170 | the pool is empty and every star it held is destroyed |
| CherryBlossom.ParticleSystem.Scale | Assets/Scripts/CherryBlossomController.cs:115-128 | the emission rate is multiplied and the particle maximum is set |
| CherryBlossom.ScaleAll | Assets/Scripts/CherryBlossomController.cs:110-148 | every system's rate is multiplied once and its particle maximum set; nothing else changes |
| CherryBlossom.CherryBlossomController.constructor | Assets/Scripts/CherryBlossomController.cs:45-62 | the effect starts with no instance and not playing |
| CherryBlossom.CherryBlossomController.InstantiateSystems | Assets/Scripts/CherryBlossomController.cs:181-187 | fresh, distinct systems copy the prefab's rates and maximum, in order |
| CherryBlossom.CherryBlossomController.AdjustParticleDensity | Assets/Scripts/CherryBlossomController.cs:105-151 | each rate becomes the prefab's rate times the density multiplier, and each maximum the configured one |
| CherryBlossom.CherryBlossomController.PlayAll | Assets/Scripts/CherryBlossomController.cs:205-221 | every system emits and plays |
| CherryBlossom.CherryBlossomController.StartCherryBlossom | Assets/Scripts/CherryBlossomController.cs:156-226 | without a prefab or while playing nothing changes; the instance is built only once, its density is adjusted once, and every system plays |
| CherryBlossom.CherryBlossomController.CreateInstance | Assets/Scripts/CherryBlossomController.cs:173-200 | an instance is created whose systems match the prefab's one to one, with rates scaled by the density multiplier; nothing plays yet |
| CherryBlossom.CherryBlossomController.StopCherryBlossom | Assets/Scripts/CherryBlossomController.cs:231-240 | while playing, emission stops at once and one more fade-out wait begins |
| CherryBlossom.CherryBlossomController.DisableEmission | Assets/Scripts/CherryBlossomController.cs:250-258 | every system stops emitting and keeps playing |
| CherryBlossom.CherryBlossomController.StopAll | Assets/Scripts/CherryBlossomController.cs:266-273 | every system stops and is cleared |
| CherryBlossom.CherryBlossomController.RestartAll | Assets/Scripts/CherryBlossomController.cs:290-304 | every system is stopped and cleared with its emission re-enabled |
| CherryBlossom.CherryBlossomController.Tick | Assets/Scripts/CherryBlossomController.cs:245-278 | a fade-out wait that is over stops every system and lowers the flag; the others go on waiting |
| CherryBlossom.CherryBlossomController.ResetCherryBlossom | Assets/Scripts/CherryBlossomController.cs:283-314 | pending fade-outs are cancelled, the flag falls, every system is reset, the instance is destroyed and every reference is dropped |
| Recording.RestartMaster | Assets/Scripts/RecordingHelper.cs:106-112 | after at least one restart the master sequence has begun afresh |
| Recording.RecordingHelper.constructor | Assets/Scripts/RecordingHelper.cs:24-29 | the engine settings at wake-up are remembered and recording is off |
| Recording.RecordingHelper.PrepareForRecording | Assets/Scripts/RecordingHelper.cs:35-59 | unless recording already, the engine switches to the recording frame rate and, when asked, the matching fixed step |
| Recording.RecordingHelper.StopRecording | Assets/Scripts/RecordingHelper.cs:65-82 | while recording, the remembered settings are put back and recording is off |
| Recording.RecordingHelper.OnDestroy | Assets/Scripts/RecordingHelper.cs:119-126 | recording settings are not left behind |
| Recording.RecordingHelper.AutoRecordAnimation | Assets/Scripts/RecordingHelper.cs:88-91 | recording is prepared at once and one more start-delay wait begins |
| Recording.RecordingHelper.Tick | Assets/Scripts/RecordingHelper.cs:93-117 | each routine whose delay is over restarts the master sequence; the others go on waiting |

## Left out

- Rendering, materials, meshes, fonts, the camera and gizmos are engine-side and not part of this model. This includes the road's procedural geometry and the WebGL material fixes.
- Logging is not modelled.
- Frame-exact timing is simplified: a coroutine crosses at most one stage boundary per `Tick`, and every stage starts at elapsed 0. The engine discards a frame's leftover time too: each stage's loop starts its own elapsed time at 0. A stage may still begin one frame earlier or later than in the model, since the engine adds the resuming frame's time at once after a fixed wait, and starts a wait that follows a loop one frame later. The order of stages and their end values are modelled.
- Randomness is modelled as an arbitrary choice within the documented range: spawn positions, random intervals and leaf spawn positions.
- Engine lookups are not modelled. The master controller, the spawner's master reference and the recording helper's master get their collaborators as constructor parameters.
- The engine's global settings (frame rate, fixed time step) are an object passed to the recording helper.
- The road's automatic prefab-size detection is out of scope. The segment length is a configuration constant.
- A leaf's sideways sway and rotation are left out, since they never decide a leaf's fate. Only its height is modelled.
- Star material probing (how `SetAlpha` finds a colour property) is reduced to a flag saying whether the star has a material.
- The cherry-blossom effect's placement in front of the camera and its emitter-shape scaling are not modelled. Only the emission rate and the particle maximum are.
- Particle-system entries that the engine reports as null are not modelled.
- The frame-rate counter, the memory readout, the on-screen statistics and the quality presets of the performance component are left out.
- The pool initialization of the performance component is left out because it assigns nothing.
- The recording guide window and the package-manager shortcut are editor UI and not part of this model.
- Float arithmetic is modelled with exact reals. `F0`/`F2` round half away from zero on the exact value; the engine rounds the nearest binary float.
- Integers are unbounded: the D3 counters do not wrap.
- Star.StarController.Initialize: a call on a star whose sequence is already running restarts that sequence. The engine would start a second sequence beside the first; the first to end notifies the master and destroys the star, which stops the other, so the notice can come earlier than one full sequence after the last call. The only caller initializes a freshly created star, where both agree.
- TaxText.RoadTaxTextAnimator.ShowTaxText: a call while a sequence is running restarts the sequence. The engine would run a second sequence beside the first, and both would write the same alpha.
- Recording.RecordingHelper.constructor: requires a non-zero frame rate when the fixed step is used. The engine would compute an infinite step from a frame rate of 0.
- StarPool.PerformanceOptimizer.GetStarFromPool: requires that the head of the queue still exists. The engine throws on a destroyed pooled object.
- StarPool.PerformanceOptimizer.ReturnStarToPool: requires that the star still exists, for the same reason.
- Star.StarController.Tick: states the scale at the end of the growing half only for a positive bounce duration. With a zero duration the growing loop does not run, and the scale is kept.
- PriceText.LeftmostMatchIsFirstDigit: digits are the ASCII digits 0-9. The engine's regular expression `\d` also matches other Unicode decimal digits, so a string such as "x٣5" reads 0 there and 5 here.
- PriceText.AmountAtFirstDigit: the same ASCII-digit restriction as PriceText.LeftmostMatchIsFirstDigit.
- PriceText.FirstRunIsAmount: the same ASCII-digit restriction as PriceText.LeftmostMatchIsFirstDigit.
- PriceText.FixedPointAmount: the decimal separator is the point. The engine's number parsing follows the current culture, so under a culture whose separator is the comma a price such as "¥12,50" reads back as 12.
- PriceText.PriceRoundTrip: assumes the point as decimal separator for both the F2 rendering and the parsing; under another culture the round trip does not hold in the engine.
- PriceTag.PriceTagAnimator.SetPrice: the F2 rendering uses the point as separator; the engine renders with the current culture's separator.
- Spawner.StarSpawner.CalculateSpawnPosition: the spawn centre's local-to-world transform is modelled as a translation only. Its rotation and scale are dropped, so the bounds hold for an unrotated, unscaled spawn centre.
- Tween.Evaluate: the serialized animation curves (the price tag's movement and fade curves, the star's fall and fade-out curves, the road's extension curve) are fixed to the defaults the code assigns. A curve edited in the scene is not modelled.
- Master.MasterController.Tick: a step that meets a missing collaborator halts the sequence with the playing flag up. This mirrors a coroutine that ends by an exception; the exception itself is not modelled.
