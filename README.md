# Mage-Game rules, modelled in Dafny

Mage-Game is a small top-down action game built on the bevy engine and the
rapier physics engine. This project models the game's rule logic: the parts
that decide numbers and states, not the parts that draw or load assets. The
modelled parts are:

- **Health ledger.** A damage queue, clamped damage and healing, a `dead`
  flag that is never cleared, and damage-over-time (DOT) effects. A DOT is
  keyed by the id of the entity that caused it, ticks down and expires. The
  older health component is modelled too.
- **Defence multiplier.** Two copies, a newer and an older one.
- **Stat table.** Six stat slots, with timed changes that are undone when
  they expire.
- **Orc state machine.** Idle, Wander, Chase and Attack, each held as a
  marker tag. Tag changes are deferred insert/remove commands. Both
  revisions are modelled.
- **Steering.** AI agents are steered straight at the player.
- **Player abilities.** The ability table, cooldowns, the Q/E/R slot map,
  casting, the countdown that despawns projectiles, and the per-projectile
  record of enemies already hit.
- **Player.** Keyboard movement in both revisions, and the player's
  animator choice.
- **Animation.** The directional animator and the frame counters.
- **Health bar.** The bar's easing.

Each source file is one Dafny module, and an older revision of a file is a
separate module:

| module | source |
|---|---|
| `EntityDamage`, `LegacyDamage` | src/entity/damage.rs, src/damage/mod.rs |
| `EffectMaps` | src/entity/health.rs, src/entity/stats.rs |
| `Health` | src/entity/health.rs |
| `LegacyHealth` | src/damage/health.rs |
| `Stats` | src/entity/stats.rs |
| `OrcTags`, `OrcWorld`, `OrcBehaviour` | src/entity/enemy/orc.rs |
| `LegacyOrcBehaviour` | src/enemy/orc.rs |
| `Enemies` | src/entity/enemy/mod.rs |
| `Pathfinding` | src/pathfinding.rs |
| `Abilities` | src/abilities/abilities.rs |
| `DirectionalAnimation`, `LoopingAnimation` | src/animation/directional_animator.rs, src/animation/looping_animator.rs |
| `Player`, `LegacyPlayer` | src/player/playerplugin.rs, src/player/mod.rs |
| `HealthBar` | src/ui/healthbar.rs |

`Common` holds the shared values: vectors, keys, the engine's one-shot
`Timer` and sums of frame times. `EffectMaps` holds what the DOT map and the
stat-change map share: an iteration order over an id-keyed map, and removing
the finished ids one after the other.

The model maps the source's constructs as follows:

- **Floats.** `f32` becomes `real`, and `i32` defence becomes `int`.
- **Timers.**
  - A one-shot timer is `(elapsed, duration)`. It is finished when
    `elapsed >= duration`, and ticking caps `elapsed` at `duration`.
  - A repeating timer is reduced to whether it finished a period on this
    tick.
- **Single components.** A component the source changes through its own
  methods is a class: `Health`, `Stats`, `Ability`, `AbilitySystem` and
  `DirectionalAnimator`.
- **Queries.** A query over many entities is an array of records that the
  system updates in place. `health_update` is the exception: it is modelled
  on a sequence of values, and its result is returned.
- **Tags.** Marker tags (`OrcIdle` and the rest) and `AIPath` are sets per
  entity.
  - Each system returns the `Command`s it issues.
  - `OrcWorld.ApplyCommands` applies them in issue order.
  - `Added<T>` is the set of tags an entity gained since the tag's enter
    system last ran.
- **Map order.** A `HashMap`'s iteration order is given as a sequence of
  its keys.
- **Engine functions.** The random draws, `normalize`, `cos`, `sin`, the
  grid's `sample_position` and rapier's intersection test are all
  parameters.

Two of the source's behaviours look unintended, and the model follows the
code as written:

- The defence multiplier has a precedence slip. It makes every multiplier
  at least 1, so defence never lowers damage.
- `move_toward` overshoots its target instead of stepping towards it.

Both are proved as properties of the code (`EntityDamage.MultiplierFromDefence`,
`HealthBar.BarCanLeaveRange`). They are not corrected.

## Model

| member | source | states |
|---|---|---|
| EntityDamage.MultiplierFromDefence | src/entity/damage.rs:6-12 | the multiplier is `1 + defence` for positive defence (the division binds first), below 2 for non-positive defence, exactly 1 at 0, and never below 1, so defence never lowers damage |
| EntityDamage.MultiplierOrder | src/entity/damage.rs:6-12 | the multiplier falls as a non-positive defence rises towards 0, rises with positive defence, and every positive defence gives a larger multiplier than every non-positive one |
| LegacyDamage.MultiplierFromDefence | src/damage/mod.rs:1-7 | the older copy: `1 + defence` above 0, in [1, 2) at or below 0 |
| LegacyDamage.AgreesWithEntityDamage | src/damage/mod.rs:1-7 | the older and newer multipliers agree on every defence value |
| Health.Multiplier | src/entity/health.rs:173-179 | physical damage uses physical defence, magical damage uses magical defence, any other type multiplies by 1; never below 1 |
| Health.DamageData | src/entity/health.rs:154-162 | a dead or invulnerable entity is untouched; otherwise health drops by the scaled amount but not below 0, only health and `dead` change, `dead` is set exactly when it was set or health reached 0, and the ledger invariant (health >= 0, health 0 means dead) is kept |
| Health.ApplyDamages | src/entity/health.rs:112-114 | applying damage instances one after the other keeps `dead` once set, leaves an invulnerable living entity alone, never makes health negative or larger under non-negative damage, and keeps the ledger invariant |
| Health.HealData | src/entity/health.rs:164-167 | healing changes only health, never above the maximum, never below the old health when that was within the maximum, leaves `dead` alone and keeps the ledger invariant |
| Health.TickDot | src/entity/health.rs:128 | a DOT's duration drops by dt clamped at 0, reaching 0 exactly when no more than dt was left |
| Health.TickAll | src/entity/health.rs:127-133 | ticking the DOT map keeps every key and ticks every DOT |
| Health.RemainingDots | src/entity/health.rs:127-141 | the DOTs still running after a tick are exactly those with more than dt left, each with dt less |
| Health.DotInstancesAt | src/entity/health.rs:129 | entry i of the DOT damage is `tick_damage * dt` of the i-th DOT in iteration order |
| Health.FinishedIdsExact | src/entity/health.rs:130-132 | the ids reported finished are exactly the DOTs whose duration runs out within dt |
| Health.TickListedAll | src/entity/health.rs:127-133 | ticking the DOTs one at a time in iteration order equals ticking the whole map |
| EffectMaps.RemoveAllExact | src/entity/health.rs:139-141 | removing the listed ids, as `health_update` does with finished DOTs (and `update_stats` with expired changes at src/entity/stats.rs:101-105), keeps exactly the unlisted entries, unchanged |
| Health.RemoveFinished | src/entity/health.rs:125-141 | ticking the DOTs and then removing the finished ones leaves exactly the DOTs still running |
| Health.DotInstancesQuiet | src/entity/health.rs:129 | DOT damage never spawns damage particles |
| Health.ParticleAmountsExact | src/entity/health.rs:106-111 | a queue of pushed damage (all spawning particles) yields one damage event per instance, and a queue of DOT damage (none spawning particles) yields none |
| Health.Tag | src/entity/health.rs:108 | each damage event carries the entity's position in the query and the instance's amount |
| Health.ProcessSpecFacts | src/entity/health.rs:104-142 | one entity's step applies the leftover scratch list and then its queue, sends a death event exactly when it is dead afterwards, returns from the whole system exactly when it has no DOT, otherwise makes one particle-free instance per DOT both its new queue and the next scratch list and keeps only the running DOTs, changes no other field and keeps the ledger invariant |
| Health.SweepCarriesDots | src/entity/health.rs:112-137 | the scratch list is not cleared after the DOT pushes, so the entity after position k is first hit by entity k's DOT damage, and the system returns right after the first entity without a DOT |
| Health.SweepAfterStop | src/entity/health.rs:121-123 | once the system has returned, every later entity is left as it is and no further event is sent |
| Health.Health.constructor | src/entity/health.rs:146-148 | full health equal to the maximum, alive, vulnerable, empty queue and no DOT |
| Health.Health.PushDamage | src/entity/health.rs:150-152 | appends exactly one particle-spawning instance and changes nothing else, health included |
| Health.Health.Damage | src/entity/health.rs:154-162 | the component's new state is `DamageData` of the old one |
| Health.Health.Heal | src/entity/health.rs:164-167 | the component's new state is `HealData` of the old one |
| Health.Health.AddDot | src/entity/health.rs:169-171 | the DOT of that source id is set, replacing any earlier one, so there is at most one per id; nothing else changes |
| Health.Health.DefenceMultiplier | src/entity/health.rs:173-179 | the component's physical defence sets the physical multiplier, its magical defence the magical one, bypass damage multiplies by 1, and none is below 1 |
| Health.Health.GetPercent | src/entity/health.rs:181-183 | the fraction always lies in [0, 1], times the maximum gives back the health when health is within [0, max], and is 1 at full health |
| Health.ApplyQueue | src/entity/health.rs:106-116 | the scratch list then the queue are applied in order, a damage event is sent per particle-spawning queued instance, and the queue is cleared |
| Health.TickDots | src/entity/health.rs:125-133 | the DOT loop ticks every DOT in iteration order, collects one damage instance per DOT and the ids that reached 0 |
| Health.QueueInstances | src/entity/health.rs:135-137 | the DOT damage is appended to the queue in order |
| Health.RemoveDots | src/entity/health.rs:139-141 | the finished ids are removed one after the other |
| Health.ProcessEntity | src/entity/health.rs:104-142 | the loop body for one entity does exactly the step `ProcessSpecFacts` describes |
| Health.HealthUpdate | src/entity/health.rs:97-143 | the system's result is the sweep over the query in order: the components it leaves, the damage events and the death events it sends |
| LegacyHealth.Multiplier | src/damage/health.rs:28-34 | physical defence for physical damage, magical for magical, 1 for every other type; never below 1 |
| LegacyHealth.DamageFacts | src/damage/health.rs:19-26 | one `damage` call changes only health and `dead`, keeps the health of a dead or invulnerable entity, never makes it negative or larger under non-negative damage, sets `dead` exactly when it was set or health is 0, and never clears it |
| LegacyHealth.AgreesWithEntityHealth | src/damage/health.rs:19-26 | the older `damage` agrees with the newer one exactly when the entity is not invulnerable, alive and at health 0; the older code marks that entity dead although the guard skipped the damage |
| LegacyHealth.Health.constructor | src/damage/health.rs:15-17 | full health equal to the maximum, alive and vulnerable |
| LegacyHealth.Health.Damage | src/damage/health.rs:19-26 | the component's new state is the older damage rule applied to the old one |
| LegacyHealth.Health.DefenceMultiplier | src/damage/health.rs:28-34 | the older component's physical and magical defences set their multipliers, bypass damage multiplies by 1, and none is below 1 |
| Stats.FindStat | src/entity/stats.rs:32 | the slot found is the first of the type, and there is none exactly when no slot has the type |
| Stats.AddStatFacts | src/entity/stats.rs:31-34 | `add_stat` adds the amount to the named stat only, keeps every slot's type, and leaves the table equal to the old one when no slot has the type |
| Stats.AddStatUndo | src/entity/stats.rs:31-34 | adding an amount and then its negation restores the table |
| Stats.AddChangeFacts | src/entity/stats.rs:54-70 | an id already present changes nothing, so there is at most one change per id; a sign-preserving change to a missing stat records nothing; otherwise exactly that id is added with the given type and duration, and the stat grows by the recorded amount, which is the full amount when the sign may change and, when it may not, the full amount if the stat's sign survives it and 0 otherwise, so the stat keeps its sign |
| Stats.TickChange | src/entity/stats.rs:94 | a change's duration drops by dt clamped at 0, reaching 0 exactly when no more than dt was left |
| Stats.TickListedAt | src/entity/stats.rs:93-100 | ticking in iteration order ticks each listed change once and leaves the others |
| Stats.FinishedIdsExact | src/entity/stats.rs:93-100 | the ids reported finished are exactly the changes whose duration runs out within dt |
| Stats.UpdateKeepsRunning | src/entity/stats.rs:87-107 | after an update exactly the changes with more than dt left remain, each with dt less |
| Stats.ChangeExpiresRoundTrip | src/entity/stats.rs:54-107 | adding a timed change under a new id and then updating for at least its duration gives back the stats from before the change, while every other running change that outlasts the update only ticks |
| Stats.ChangeExpiresOverFrames | src/entity/stats.rs:54-107 | on a table without changes, adding a timed change and then updating once per frame until the frame times add up to its duration gives back the original table |
| Stats.StatsAfterUpdate | src/entity/stats.rs:87-107 | in an update where at most one change runs out, the stats change only by undoing that change's amount on its stat, and not at all when it keeps running |
| Stats.ExpiredChangeGone | src/entity/stats.rs:87-107 | after an update in which only an added change runs out, exactly the earlier changes remain, each with dt less time |
| Stats.FinishedAtMostOne | src/entity/stats.rs:93-100 | when only one change can run out, the finished list is that change alone if it runs out and empty otherwise |
| Stats.TableComplete | src/entity/stats.rs:72-84 | a table built by `new` or `default` has six slots, and `get_stat` finds every stat type with the value it was built with |
| Stats.Stats.constructor | src/entity/stats.rs:72-84 | the six slots in order with the given values, and no change |
| Stats.Stats.Default | src/entity/stats.rs:109-120 | health 100, defence 10, magic defence 10, speed 50, attack 25, magic 20, and no change |
| Stats.Stats.GetStatMut | src/entity/stats.rs:45-52 | the slot of the first entry of the type, or none |
| Stats.Stats.GetStat | src/entity/stats.rs:36-43 | the value of the first entry of the type, or none |
| Stats.Stats.AddStat | src/entity/stats.rs:31-34 | the slots become `add_stat`'s result |
| Stats.Stats.AddDurationChange | src/entity/stats.rs:54-70 | the component becomes `add_duration_change`'s result |
| Stats.Stats.Update | src/entity/stats.rs:88-106 | the component becomes one update's result: nothing without changes, else tick, undo and remove the finished ones |
| Stats.Stats.TickEffects | src/entity/stats.rs:92-100 | the first loop ticks every change and reports the finished ones in iteration order |
| Stats.Stats.RevertFinished | src/entity/stats.rs:101-105 | the second loop subtracts each finished change's recorded amount from its stat and removes the change |
| Stats.UpdateStats | src/entity/stats.rs:87-107 | every queried component is updated on its own and no other one changes |
| Pathfinding.Steer | src/pathfinding.rs:25-30 | an agent within follow range gets the unit direction to the player times its speed; one out of range keeps its velocity, not zeroed; only the linear velocity is written |
| Pathfinding.SteerMovesAtSpeed | src/pathfinding.rs:26-28 | with a unit direction, an agent in range moves at exactly its speed |
| Pathfinding.SpeedFromTable | src/pathfinding.rs:26 | the fallback speed 100 is never taken for stats built by `Stats::new` or `Stats::default` |
| Pathfinding.UpdateAiPaths | src/pathfinding.rs:19-31 | without exactly one player no agent changes; otherwise every agent is steered |
| Enemies.New | src/entity/enemy/mod.rs:25-27 | a new enemy is idle, with a 5 s action timer still running and a 0 s animation timer that its first tick finishes |
| Enemies.EnemySpawnInit | src/entity/enemy/mod.rs:36-46 | one `OrcIdle` insert per spawn event, in event order |
| Enemies.SpawnedOrcsIdle | src/entity/enemy/mod.rs:40-44 | every spawned orc carries `OrcIdle` once the commands are applied |
| Enemies.UpdateEnemyAnimations | src/entity/enemy/mod.rs:70-79 | a fast enough enemy walks and a slow one keeps its animation (Idle is never set); every enemy faces its velocity, even a slow one |
| Enemies.SpawnSpawners | src/entity/enemy/mod.rs:60-68 | one orc spawner spawning at most one orc, every second, from the single point (100, 10) |
| Enemies.SpawnIndexInRange | src/entity/enemy/mod.rs:60-68 | the spawner's random point index can only be 0, so it is always in range |
| DirectionalAnimation.Vec2ToDirection | src/animation/directional_animator.rs:11-17 | any horizontal component decides Right or Left; only a purely vertical vector faces Up or Down; the zero vector faces Left |
| DirectionalAnimation.Lookup | src/animation/directional_animator.rs:39-46 | the stored frame range for a kind and direction, or the default range when either key is missing |
| DirectionalAnimation.DirectionalAnimator.UpdateAnimation | src/animation/directional_animator.rs:29-32 | the old kind becomes the previous one and the argument the current one |
| DirectionalAnimation.DirectionalAnimator.UpdateDirection | src/animation/directional_animator.rs:34-37 | the old direction becomes the previous one and the argument the current one |
| DirectionalAnimation.DirectionalAnimator.GetAnimation | src/animation/directional_animator.rs:39-46 | the range for the current kind and direction, or the default |
| LoopingAnimation.New | src/animation/looping_animator.rs:33-42 | frames 0 to `last`, starting at frame 0 |
| LoopingAnimation.Advance | src/animation/looping_animator.rs:23-27 | at or past the last frame it wraps to the first, otherwise it moves one on, and the result stays in the range |
| LoopingAnimation.Frame | src/animation/looping_animator.rs:18-29 | the frame moves only on a tick where the timer finished, the sprite then shows it, and a frame in range stays in range |
| LoopingAnimation.IterateCounts | src/animation/looping_animator.rs:23-27 | from the first frame, k advances reach frame `first + k` while that is in range |
| LoopingAnimation.CycleLength | src/animation/looping_animator.rs:23-27 | exactly `last - first + 1` advances bring the first frame back, and no fewer |
| LoopingAnimation.StaysInRange | src/animation/looping_animator.rs:23-27 | after any positive number of advances the frame is in range, even from past the last frame |
| LoopingAnimation.UpdateLoopingAnimations | src/animation/looping_animator.rs:14-31 | every queried entity takes its frame step |
| OrcTags.Apply | src/entity/enemy/orc.rs:70 | an insert adds the tag and marks it newly added unless it was there, a remove drops it, a path removal clears the path flag |
| OrcTags.ApplyAllConcat | src/entity/enemy/orc.rs:104-121 | applying two command lists one after the other is applying their concatenation |
| OrcTags.SwapMoves | src/entity/enemy/orc.rs:70 | `remove::<From>().insert(To)` replaces one tag by the other and keeps the path flag |
| OrcWorld.Request | src/entity/enemy/orc.rs:55 | asking for an animation makes it current and the old one previous |
| OrcWorld.PlayerPos | src/entity/enemy/orc.rs:13-18 | a player position exists exactly when there is one player |
| OrcWorld.ApplyCommands | src/entity/enemy/orc.rs:70 | each orc gets the commands issued for it, in issue order, and nothing else changes |
| OrcBehaviour.ConsumeAll | src/entity/enemy/orc.rs:169-172 | without a single player, attack entry changes nothing but who counts as newly attacking |
| OrcBehaviour.SendIdle | src/entity/enemy/orc.rs:98-103 | without a single player, every orc in the state is sent to Idle |
| OrcBehaviour.IdleEnter | src/entity/enemy/orc.rs:48-59 | each newly idle orc is set Idle, gets its drawn timer in [3, 5), plays Idle and stops path finding |
| OrcBehaviour.IdleUpdateOne | src/entity/enemy/orc.rs:66-72 | an idle orc's timer ticks, and it goes to Wander exactly when the timer has finished |
| OrcBehaviour.IdleUpdate | src/entity/enemy/orc.rs:61-73 | every orc takes its idle step and gets exactly its own commands |
| OrcBehaviour.IdleLastsItsDuration | src/entity/enemy/orc.rs:48-73 | a fresh Idle is left on the first update exactly when the step reaches its drawn time, so never with a step under 3 s |
| OrcBehaviour.WanderEnterOne | src/entity/enemy/orc.rs:80-90 | a newly wandering orc path-finds, walks and is set Wander; its destination becomes the point the grid samples when there is one and stays put otherwise, and no other orc changes at all; its timer, position and stats are kept |
| OrcBehaviour.WanderEnter | src/entity/enemy/orc.rs:75-91 | every orc takes its wander entry with its own drawn angle, so every newly wandering orc aims at its own sampled point |
| OrcBehaviour.WanderUpdateOne | src/entity/enemy/orc.rs:93-122 | without a player a wanderer goes Idle; Chase is issued exactly when the player is within 5; Idle is issued exactly when there is no player or the destination is within 5; the path is removed exactly when the wanderer has one, there is a player, and the player or the destination is within 5; Wander is removed exactly when any command is issued, and no other command is |
| OrcBehaviour.WanderUpdate | src/entity/enemy/orc.rs:93-122 | every orc gets exactly its own wander commands, so every wanderer sent elsewhere loses Wander, and no orc changes |
| OrcBehaviour.WanderUpdateMarks | src/entity/enemy/orc.rs:93-122 | once its commands apply, a wanderer has Wander replaced by every state it was sent to (Chase, Idle or both), keeps Wander when sent nowhere, and loses its path exactly when there is a player and it was sent somewhere |
| OrcBehaviour.NoPlayerWanderersIdle | src/entity/enemy/orc.rs:98-103 | without a player every wanderer ends the update idle and no longer wandering |
| OrcBehaviour.WanderCanEnterTwoStates | src/entity/enemy/orc.rs:104-121 | with no `continue` after the chase branch, an orc near both the player and its destination ends with both the Chase and the Idle tag, and no path |
| OrcBehaviour.DropAndSwap | src/entity/enemy/orc.rs:107-110 | dropping the path and swapping a tag replaces the tag and clears the path if the orc had one |
| OrcBehaviour.ChaseEnter | src/entity/enemy/orc.rs:124-131 | each newly chasing orc path-finds and walks |
| OrcBehaviour.ChaseUpdateOne | src/entity/enemy/orc.rs:133-163 | without a player it goes Idle; beyond follow range it goes to Wander only with a path, and nothing else happens; Attack is issued exactly within follow and attack range; the path is removed exactly when, within follow range, the destination is 5 or more from the player, and then the destination becomes the grid point sampled at the player if there is one and stays otherwise; no other field changes |
| OrcBehaviour.ChaseUpdate | src/entity/enemy/orc.rs:133-163 | every orc takes its chase step and gets exactly its own commands |
| OrcBehaviour.ChaseWithoutPathStays | src/entity/enemy/orc.rs:147-152 | a chaser out of range without a path keeps its tags exactly |
| OrcBehaviour.ChaseKeepsOneState | src/entity/enemy/orc.rs:145-162 | a chaser with the single Chase tag ends the update with exactly one tag |
| OrcBehaviour.AttackHit | src/entity/enemy/orc.rs:177-178 | a newly attacking orc queues exactly one physical, particle-spawning hit of its Attack stat, or none without the stat |
| OrcBehaviour.AttackHits | src/entity/enemy/orc.rs:173-179 | at most one hit per orc |
| OrcBehaviour.AttackHitOfTable | src/entity/enemy/orc.rs:177 | an orc with the table of `Stats::new` always hits with exactly its attack value |
| OrcBehaviour.AttackEnter | src/entity/enemy/orc.rs:165-180 | without one player only the newly-attacking marks are consumed; otherwise each newly attacking orc is set Attack with a 1 s timer and queues its hit on the player, whose health component changes in nothing else |
| OrcBehaviour.AttackVisit | src/entity/enemy/orc.rs:173-179 | the loop body sets up orc i and appends its hit to the player's queue |
| OrcBehaviour.AttackUpdateOne | src/entity/enemy/orc.rs:187-192 | an attacking orc's timer ticks, and it goes back to Chase exactly when the timer has finished |
| OrcBehaviour.AttackUpdate | src/entity/enemy/orc.rs:182-193 | every orc takes its attack step and gets exactly its own commands |
| OrcBehaviour.AttackLastsOneSecond | src/entity/enemy/orc.rs:165-193 | a fresh attack goes back to Chase on its first update exactly when the step is at least 1 s |
| LegacyOrcBehaviour.WanderEnterOne | src/enemy/orc.rs:75-86 | a newly wandering orc path-finds, walks, is set Wander and aims at `(100 cos a, 100 sin a)` |
| LegacyOrcBehaviour.WanderTargetIgnoresPosition | src/enemy/orc.rs:81-82 | the wander target is 100 from the world origin and the same for every orc drawing the same angle |
| LegacyOrcBehaviour.WanderEnter | src/enemy/orc.rs:75-86 | every orc takes its older wander entry |
| LegacyOrcBehaviour.WanderUpdateOne | src/enemy/orc.rs:88-108 | without a player a wanderer goes Idle; Chase is issued exactly when the player is within 5; Idle is issued exactly when there is no player or the destination is within 5; Wander is removed exactly when any command is issued; no other command is, so no path is ever touched |
| LegacyOrcBehaviour.WanderUpdate | src/enemy/orc.rs:88-108 | every orc gets exactly its own older wander commands, so every wanderer sent elsewhere loses Wander |
| LegacyOrcBehaviour.WanderUpdateMarks | src/enemy/orc.rs:88-108 | once its commands apply, an older wanderer has Wander replaced by every state it was sent to, keeps Wander when sent nowhere, and keeps its path in every case |
| LegacyOrcBehaviour.ChaseUpdateOne | src/enemy/orc.rs:119-140 | without a player it goes Idle; beyond follow range it goes to Wander unconditionally; otherwise Attack is issued exactly within attack range |
| LegacyOrcBehaviour.ChaseUpdate | src/enemy/orc.rs:119-140 | every orc gets exactly its own older chase commands |
| LegacyOrcBehaviour.ChaseKeepsOneState | src/enemy/orc.rs:130-139 | a chaser with the single Chase tag ends with exactly one tag |
| LegacyOrcBehaviour.ChaseRulesDiffer | src/enemy/orc.rs:132-135 | a chaser out of range without a path goes to Wander under the older rule but keeps chasing under the newer one |
| LegacyOrcBehaviour.HitsFacts | src/enemy/orc.rs:150-156 | however many orcs hit the older health at once, only health and `dead` change, health stays in [0, old health] under non-negative attacks, and a dead player stays dead and unhurt |
| LegacyOrcBehaviour.AttackEnter | src/enemy/orc.rs:142-157 | without one player only the newly-attacking marks are consumed; otherwise every newly attacking orc is set up and damages the player at once, one after the other |
| LegacyOrcBehaviour.AttackVisit | src/enemy/orc.rs:150-156 | the loop body sets up orc i and applies its hit to the player's health directly |
| Abilities.FromType | src/abilities/abilities.rs:34-40 | the fixed table (FireBall 2/5/100, IceStorm 5/5/25, HealOrb 10/10/0) with the type echoed |
| Abilities.TicksFinish | src/abilities/abilities.rs:76-81 | a one-shot timer ticked by frame times finishes exactly when they add up to what was left |
| Abilities.Ability.constructor | src/abilities/abilities.rs:67-70 | the table's data, `done` set, and a fresh cooldown timer, so a new ability is not ready |
| Abilities.Ability.CanUse | src/abilities/abilities.rs:72-74 | ready exactly when the whole cooldown has elapsed |
| Abilities.Ability.UpdateAbility | src/abilities/abilities.rs:76-81 | the timer ticks; `done` is set once ready and never cleared |
| Abilities.Ability.ResetCooldown | src/abilities/abilities.rs:178-179 | the timer restarts over the cooldown, so the ability is not ready right after a cast |
| Abilities.ReadyAfterCooldown | src/abilities/abilities.rs:72-81 | after a cast the ability is ready again exactly when the frame times add up to its cooldown |
| Abilities.IsAbilityKey | src/abilities/abilities.rs:140-142 | Q, E and R, exactly the keys that have a slot |
| Abilities.GetAbilitySlot | src/abilities/abilities.rs:144-151 | Q, E and R map to slots 0, 1 and 2, every other key to none |
| Abilities.FirstAbilityKey | src/abilities/abilities.rs:162-164 | the first pressed ability key, or none exactly when no ability key was pressed |
| Abilities.SelectedSlot | src/abilities/abilities.rs:162-164 | a slot below 3 is selected exactly when some ability key was pressed |
| Abilities.Countdown | src/abilities/abilities.rs:406 | what is left drops by dt but not below 0, reaching 0 exactly when no more than dt was left |
| Abilities.CountdownsRemaining | src/abilities/abilities.rs:405-410 | over any run of frames what is left is the lifetime less the time passed, clamped at 0 |
| Abilities.AutoDestroyEntities | src/abilities/abilities.rs:399-415 | every lifetime counts down, and exactly the used-up ones are despawned, in query order |
| Abilities.DetonationTime | src/abilities/abilities.rs:383-394 | the detonation effect lasts 0.25 s for an ice storm and 0.125 s otherwise |
| Abilities.AutoDestroyAbilities | src/abilities/abilities.rs:369-397 | every ability's lifetime counts down, exactly the used-up ones are despawned, each leaving a detonation effect with its own fresh lifetime |
| Abilities.Spawn | src/abilities/abilities.rs:180-247 | nothing spawns without the sprite, or for a fire ball without its particles; a fire ball carries magical damage of its magnitude, an ice storm a DOT and slow of its magnitude, a heal orb heals its magnitude and stays put |
| Abilities.AbilitySystem.constructor | src/abilities/abilities.rs:310-320 | FireBall, IceStorm and HealOrb in slots 0, 1 and 2, none ready |
| Abilities.AbilitySystem.GetAbility | src/abilities/abilities.rs:85-87 | the ability in a slot exactly when the slot exists |
| Abilities.AbilitySystem.UpdateAbilities | src/abilities/abilities.rs:133-138 | every ability's cooldown ticks by dt and its data is kept |
| Abilities.AbilitySystem.CastAbility | src/abilities/abilities.rs:153-175 | only when the first pressed ability key selects an existing, ready ability is its cooldown restarted and its entity spawned; every other ability's timer is unchanged |
| Abilities.FirstHit | src/abilities/abilities.rs:271-278 | the projectile that hits an enemy is the first in query order that has not hit its index and touches it |
| Abilities.HitsOn | src/abilities/abilities.rs:270-279 | an enemy takes at most one projectile hit per tick, and one exactly when some projectile can hit it |
| Abilities.Victims | src/abilities/abilities.rs:275 | a projectile records only indices of queried enemies |
| Abilities.NeverHitsTwice | src/abilities/abilities.rs:272-275 | a projectile's record of hit indices never gains a repeat, so it damages each index at most once |
| Abilities.PlayerDamage | src/abilities/abilities.rs:265-280 | each enemy's queue gains exactly its hit, and each projectile's record gains exactly the enemies it hit, in query order |
| Abilities.HitEnemy | src/abilities/abilities.rs:271-278 | the inner loop for one enemy queues its hit and records it on the hitting projectile |
| Abilities.FindHit | src/abilities/abilities.rs:271-277 | the inner loop's search finds the first hitting projectile |
| Abilities.SameFirstHit | src/abilities/abilities.rs:272 | which projectile hits depends only on whether each has hit the index before |
| Player.Axis | src/player/playerplugin.rs:18-23 | an axis is 0 exactly when both or neither key is pressed, else 1 or -1 by which one |
| Player.InputVector | src/player/playerplugin.rs:18-23 | D minus A across, W minus S up |
| Player.IdleExactlyWithoutInput | src/player/playerplugin.rs:92-98 | the 0.01 threshold is passed exactly when some axis is pressed one way, and then the squared length is 1 or 2 |
| Player.PlayerMoveInput | src/player/playerplugin.rs:14-27 | the velocity is the raw input times the speed stat, or 50 without one |
| Player.DiagonalIsFaster | src/player/playerplugin.rs:24-26 | the input is not normalised: with default stats a diagonal moves at (50, 50), twice the squared speed |
| Player.AnimatePlayer | src/player/playerplugin.rs:88-106 | without one player nothing happens; no input selects Idle; input selects Walk and faces its direction, changing the previous direction only when the direction differs |
| Player.PlayerFramesComplete | src/player/playerplugin.rs:40-60 | every kind the player uses has a frame range per direction, inside the twelve-frame sheet, and an idle frame starts the walk of its direction |
| Player.SpawnPlayer | src/player/playerplugin.rs:29-86 | health 100 with defences 10 and 10, idling upwards on its frame table, at (50, 0, 1), at rest, with default stats and three abilities |
| LegacyPlayer.MovePlayer | src/player/mod.rs:9-22 | the translation moves by the input `(D - A, W - S, 0)` times dt times 100 |
| LegacyPlayer.MoveBound | src/player/mod.rs:14-21 | each coordinate moves by at most `100 dt`, an unpressed axis not at all, depth never |
| LegacyPlayer.Advance | src/player/mod.rs:58-62 | only the last frame itself wraps to the first; every other frame moves one on |
| LegacyPlayer.StaysInRange | src/player/mod.rs:58-62 | a frame inside its range stays inside it forever |
| LegacyPlayer.PastLastKeepsGrowing | src/player/mod.rs:58-62 | a frame past the last grows by one on every advance and never comes back |
| LegacyPlayer.AdvanceVersusLooping | src/player/mod.rs:58-62 | the two frame counters agree within the range and differ past it, where the looping one wraps |
| LegacyPlayer.Frame | src/player/mod.rs:56-63 | the frame changes only on a tick where the timer finished |
| LegacyPlayer.Spawned | src/player/mod.rs:30-35 | the spawned sprite idles on frames 0 to 8 from frame 0 |
| LegacyPlayer.AnimatePlayer | src/player/mod.rs:48-65 | every queried sprite takes its frame step |
| HealthBar.MoveToward | src/ui/healthbar.rs:75-80 | lands on the target exactly when within `max_delta` of it (always with `max_delta` 0); further away it jumps past the target, away from the start, by the gap times `max_delta` |
| HealthBar.SettlesWithinTwoFrames | src/ui/healthbar.rs:75-80 | between fractions in [0, 1] with a positive step, the bar reaches its target within two frames |
| HealthBar.UpdateHealthBarValue | src/ui/healthbar.rs:49-58 | each bar whose parent has a health eases towards its fraction by half the frame time; the others are skipped |
| HealthBar.BarCanLeaveRange | src/ui/healthbar.rs:75-80 | the shown value can leave [0, 1]: from empty to full over 0.02 s it shows 1.01 |
| HealthBar.SpawnedBarFirstFrames | src/player/playerplugin.rs:84 | the player's bar starts at 100, not 1, and at full health shows 0.01, then 1.0099, then 1 |

## Left out

- Grid, A* search, `AIPath` contents and asynchronous path tasks: these are not in the modelled files. `sample_position` is an uninterpreted parameter, and a path is a flag.
- Floating point: `f32` rounding, NaN and infinities are not modelled; values are exact reals. Examples are `normalize` of a zero vector, and the `sqrt` behind `distance`, which is compared through squares.
- Trigonometry and randomness: `cos`, `sin`, `to_radians`, `normalize` and the random draws are parameters. The drawn angle's range and its `to_radians` conversion are not modelled.
- Rapier intersection tests are a given predicate. Entity ids are query positions plus the given `ids`.
- `HashMap` iteration order is a parameter listing the keys; which order the engine picks is not modelled.
- Event payloads: `HealthDamageEvent` keeps the query position and amount, and drops the entity type and world position. `HealthDeathEvent` keeps the query position.
- Repeating timers (the looping animator's and the older player's frame timers) are reduced to a per-tick "just finished" flag. Their period arithmetic is not modelled.
- `AnimationIndices`' frame length is not modelled.
- The orc code asks for an `Attack` animation that the animation-kind enum lacks. Orc records keep their requested animation as their own current/previous pair instead of a `DirectionalAnimator`.
- src/player/playerplugin.rs is written against another revision:
  - It builds `Health::new` with four arguments from `damage::health`, modelled with the newer `Health` that takes four.
  - Its animator fields `animation`/`direction` are read as the shown animator's `current`/`current_dir`.
- Player.SpawnPlayer: the health bar child, the sprite sheet, rigid body and collider are not modelled. The health bar's start value is covered by `HealthBar.SpawnedBarFirstFrames`.
- `player_heal`, `player_dot` and `player_slow` are rapier glue around the modelled `Health.Health.Heal`, `Health.Health.AddDot` and `Stats.Stats.AddDurationChange`.
- Abilities.AbilitySystem.CastAbility: the mouse direction and the projectile's rotation are not modelled.
- Abilities.AbilitySystem.CastAbility: `single_mut()` at src/abilities/abilities.rs:161 panics unless exactly one entity has an ability system. The model takes that one system as the receiver, so the panic is excluded rather than modelled.
- Abilities.AbilitySystem.UpdateAbilities: `single_mut()` at src/abilities/abilities.rs:134 panics the same way, and is excluded the same way.
- Player.PlayerMoveInput: `single_mut()` at src/player/playerplugin.rs:24 panics unless exactly one player has a velocity and stats. The model takes that player's velocity and stats as arguments, so the panic is excluded rather than modelled.
- LegacyPlayer.MovePlayer: `single_mut()` at src/player/mod.rs:21 panics unless exactly one transform is queried. The model takes that transform as an argument, so the panic is excluded rather than modelled.
- LegacyPlayer.Frame: the `.unwrap()` calls at src/player/mod.rs:58-59 panic when the current animation has no frame range. `requires s.current in s.frames` excludes that case instead of modelling the panic, because a panic has no result to state.
- LegacyPlayer.AnimatePlayer: requires the same of every queried sprite, for the same `.unwrap()` calls.
- Common.Timer: bevy reports a one-shot timer finished only once a tick has reached its duration, so even a 0 s timer is unfinished before its first tick. The model reads "finished" as `elapsed >= duration`, so an unticked 0 s timer already counts as finished. The only 0 s timer is the `Enemy` animation timer, which no modelled system reads, and `Enemies.New` states it after its first tick.
- Abilities.Spawn: collider shapes, rigid-body kinds and particle effects are not modelled; the heal orb's particle `unwrap` is not modelled either.
- Abilities.AutoDestroyAbilities: detonation particles and despawn recursion are not modelled.
- Sprite drawing in `update_health_bar`, the pause UI, window and camera input, the map, the spawner update system and the asset tables are not part of this model.
- `Health::get_max` and `get_current` are plain getters.
- LegacyPlayer.Spawned: the older `Health::new(100.0, 10, 10)`, sprite sheet, scale and frame timer of the spawned player are not modelled; only its frame range and start frame are.
- `info!` logging and the `assert!` in `add_duration_change` are not modelled.
- System order within a frame is not modelled. Each system is a separate operation, and deferred commands are applied by `OrcWorld.ApplyCommands` when a caller chooses.
- The `Enemy` animation timer and the `Changed<Health>` filter of `health_update` are not modelled: the query is given as already filtered.
- The older orc revision's idle systems, `chase_enter` and `attack_update` are the same code as the newer ones, so `OrcBehaviour` serves both.
