# Battleship engine, search agents and Gym step, in Dafny

This project models the Battleship engine of a reinforcement-learning course repository and
proves properties of it:

- **The board.** A square integer grid where 0 is ocean, +k is an intact cell of ship k and
  −k is a hit cell of ship k. It also holds the list of ships and the torpedo counter.
- **Placement.** Ships are placed at random or from presets. A placement writes the ship's
  index into its footprint.
- **`torpedo`.** A shot flips the sign of a hit cell and takes one life point off its ship.
- **The folds.** `check_gameover` and `ships_afloat_count` are folds over ship health.
- **Two search agents.**
  - The trivial agent probes random unprobed cells.
  - The hunting agent also keeps a LIFO deque of neighbours of its hits and a `hunting` flag.
- **The Gym step.** It decodes an action index, fires, writes a −1/0/1 observation cell and
  computes a ±1 reward.

Every state the source updates in place is modelled as a class:

- `Board` keeps its grid as an `array2<int>`, its ships as a `seq<Ship>` and its counter as
  an `int`.
- `Ship`, `TrivialAgent`, `LessTrivialAgent` and `BattleshipEnv` are classes too.

Each class keeps a ghost value copy of its arrays, and its methods are proved against value
functions in modules `BoardRules`, `ProbeRules` and `GymEnv`:

- `ShotOutcome`, `Fire` and `FireFleet` say what a torpedo does.
- `Paint` and `Footprint` say what placement does.
- `Region` says what the agent queues.
- `Sound` relates the observation to the board.

The central invariant is `BoardRules.Encoded(cells, fleet)`:

- every grid value names a ship or ocean;
- ship k has exactly `life` cells equal to +k and `size` cells equal to ±k;
- those cells are exactly its footprint.

Every operation that changes the board keeps it.

Randomness is an input:

- `_spawn_ship_random` reads a sequence of `Draw`s. Each is a head cell and a `Shuffle`, a
  permutation of the four headings as `random.shuffle` leaves them.
- The agents read a sequence of sampled cells.
- Where the source would keep sampling forever, the model stops when the samples run out
  and says so in its result.

`ouch` (ship.py:51-56) has no floor of its own, and the model follows it. That health never
drops below 0 is proved instead as a property of every consistent board
(`LivesNonNegative`): the board only calls `ouch` on an intact cell.

An off-board torpedo *returns* an error value, as the source does (board.py:79), and leaves
the counter alone. Here that value is `InvalidCoordinates`. The Gym step turns it into a
raised `ValueError`.

Modules, one file each:

- `Grid`: coordinates, grids as values, counting.
- `Ships`: `Direction` and `Ship`.
- `BoardRules`: footprints, the encoding, torpedo effects, game over.
- `Boards`: the `Board` class.
- `ProbeRules`: the agents' probed grid.
- `TrivialAgents`, `LessTrivialAgents`: the two agents.
- `GymEnv`: the environment.

## Model

| member | source | states |
|---|---|---|
| Ships.Direction.Delta | Course_Material/battleship/ship.py:12-18 | each heading's step moves exactly one cell along one axis |
| Ships.DirectionsDistinct | Course_Material/battleship/ship.py:12-18 | there are exactly four headings and no two share a step |
| Ships.Ship.constructor | Course_Material/battleship/ship.py:35-48 | name, size, head and heading are stored as given with no board check; life starts equal to size |
| Ships.DefaultShip | Course_Material/battleship/ship.py:35-36 | the defaults are a destroyer of size 2 at (0, 0) heading north, with 2 life points |
| Ships.Ship.Ouch | Course_Material/battleship/ship.py:51-56 | life drops by exactly one with no floor; name, size, heading and head are unchanged |
| BoardRules.StepInDir | Course_Material/battleship/board.py:246-261 | one step lands one cell along the heading, never on the same cell |
| BoardRules.WalkIsOffset | Course_Material/battleship/board.py:222-227 | t repeated steps from the head land exactly t cells along the heading |
| BoardRules.WalkStep | Course_Material/battleship/board.py:224-225 | one more `_step_in_dir` extends the walk to the next cell along the heading |
| BoardRules.Footprint | Course_Material/battleship/board.py:217-227 | placement writes max(size, 1) cells: the head and then one cell per further step |
| BoardRules.FootprintMembership | Course_Material/battleship/board.py:219-227 | a cell is in the footprint iff it lies on the heading's line within that many cells of the head |
| BoardRules.PaintFootprint | Course_Material/battleship/board.py:214-227 | writing a footprint sets exactly the covered cells and leaves every other cell unchanged |
| BoardRules.ShotOutcome | Course_Material/battleship/board.py:69-109 | a torpedo reports the error iff the cell is off the grid and a hit iff the cell is an intact ship cell; otherwise a miss |
| BoardRules.FirePreservesEncoding | Course_Material/battleship/board.py:95-101 | a sign flip on the grid plus one life point off ship v keeps the grid/ship encoding of lines 17-21 |
| BoardRules.MissChangesNothing | Course_Material/battleship/board.py:83-92 | a shot at ocean, a hit cell or off the grid changes neither the grid nor any ship's health |
| BoardRules.RepeatedShotIsMiss | Course_Material/battleship/board.py:90-92 | a second shot at the same cell is a miss and changes neither grid nor fleet, so shooting is idempotent apart from the counter |
| BoardRules.FireTotalLife | Course_Material/battleship/board.py:95-101 | a hit takes exactly one point off the fleet's total health and a miss takes none |
| BoardRules.AllSunkIff | Course_Material/battleship/board.py:119-127 | with no negative health, total health is 0 iff every ship has 0 life (true for no ships) |
| BoardRules.GameOverIffNoLiveCell | Course_Material/battleship/board.py:119-127 | under the encoding, total health is 0 iff no intact ship cell is left on the grid |
| BoardRules.LivesNonNegative | Course_Material/battleship/board.py:97-99 | under the encoding every ship's health is between 0 and its size, since `ouch` is only called on an intact cell |
| BoardRules.FootprintsDisjoint | Course_Material/battleship/board.py:187-210 | under the encoding no cell belongs to the footprints of two ships |
| BoardRules.PlacePreservesEncoding | Course_Material/battleship/board.py:214-227 | writing `len(ships)+1` over an all-ocean footprint and appending the undamaged ship keeps the encoding |
| BoardRules.PaintKeepsLayout | Course_Material/battleship/board.py:171-176 | after one preset is placed, the presets after it still fit, each on ocean with no overlap |
| BoardRules.AfloatMatchesTotal | Course_Material/battleship/board.py:130-141 | the afloat total equals the total health; the afloat count is at most the number of ships and is 0 iff the total is 0 |
| BoardRules.FirstFitSpec | Course_Material/battleship/board.py:199-206 | the shuffled-heading loop picks the earliest heading whose cells are ocean, and finds none iff no heading works |
| BoardRules.ShuffledRoundFits | Course_Material/battleship/board.py:193-206 | since a round tries all four headings, it fails iff its head is not ocean or no heading at all fits there |
| BoardRules.DrawFitsGivesFit | Course_Material/battleship/board.py:191-210 | an accepted round (ocean head and a heading that works) gives a ship whose whole footprint is ocean |
| Boards.Plan | Course_Material/battleship/board.py:162-179 | the corrected configuration reading agrees with the source on every configuration except a non-empty sequence whose first element is not a Ship, which it rejects |
| Boards.UnrecognisedConfigStartsFinished | Course_Material/battleship/board.py:178-179 | as written, a non-empty sequence whose first element is not a Ship (such as 'random', or a list of (name, size) pairs) places no ships; that board is encoded and its total health is already 0 |
| Boards.PlanPlacesShips | Course_Material/battleship/board.py:162-176 | every configuration the corrected reading accepts places at least one ship: five of length ≥ 2, or a non-empty list |
| Boards.DefaultFleetLife | Course_Material/battleship/board.py:163-164 | the undamaged default fleet has 17 life points in total |
| Boards.WriteFootprint | Course_Material/battleship/board.py:219-227 | the placement loop writes the value into exactly the covered cells; every other array cell keeps its old value |
| Boards.Board.constructor | Course_Material/battleship/board.py:49-53 | a dim×dim all-ocean grid, no ships, zero torpedoes, consistent |
| Boards.Board.Create | Course_Material/battleship/board.py:39-55 | a fresh consistent board with zero torpedoes; with the default configuration the ships are the default fleet in order, each undamaged with its default name and size, all five (17 health) exactly when the spawn succeeded, a prefix when the draws ran out; presets are placed as given; a bad configuration places nothing |
| Boards.Board.IsPositionValid | Course_Material/battleship/board.py:267-274 | true iff 0 ≤ i < dim and 0 ≤ j < dim |
| Boards.Board.IsPositionValidOcean | Course_Material/battleship/board.py:277-282 | true iff the position is on the grid and that cell is 0 |
| Boards.Board.Score | Course_Material/battleship/board.py:113-116 | on a consistent board the score (the torpedo count) is never negative |
| Boards.Board.CheckGameover | Course_Material/battleship/board.py:119-127 | the game is over with no ships; while no health is negative, it is over iff every ship has 0 life |
| Boards.Board.GameoverIffAllSunk | Course_Material/battleship/board.py:119-127 | `check_gameover` holds iff every ship has 0 life, iff no grid cell is positive |
| Boards.Board.ShipsAfloatCount | Course_Material/battleship/board.py:130-141 | returns the number of ships with life > 0 and their total life; on a consistent board the total is the fleet's health and the count is 0 iff the game is over |
| Boards.Board.Torpedo | Course_Material/battleship/board.py:69-109 | returns the error off the grid, a miss on ocean or a hit cell, and a hit on an intact cell; only on-grid shots are counted; the grid and fleet become Fire/FireFleet of the old ones; total health drops by one exactly on a hit; no ship's name changes; the board stays consistent |
| Boards.Board.CountShot | Course_Material/battleship/board.py:81 | the counter goes up by exactly one and the board stays consistent |
| Boards.Board.Strike | Course_Material/battleship/board.py:95-101 | the intact cell changes sign and its ship, and only that ship, loses a point; no ship's name changes |
| Boards.Board.IsValidShipPlacement | Course_Material/battleship/board.py:231-242 | true iff each of the size−1 cells after the head along the heading is on the grid and ocean |
| Boards.Board.PlaceShipOnGrid | Course_Material/battleship/board.py:214-227 | the grid becomes the old grid with `len(ships)+1` written over exactly the footprint |
| Boards.Board.SpawnShipSpecified | Course_Material/battleship/board.py:181-184 | a ship that fits is written at index `len(ships)+1` and appended; the board stays consistent |
| Boards.Board.FindPlacement | Course_Material/battleship/board.py:191-206 | stops at the first round whose head is ocean and that has a working heading; every earlier round fails; that heading is the first one in shuffled order that works |
| Boards.Board.TryHeadings | Course_Material/battleship/board.py:199-206 | some heading of the round is taken iff one fits, and then it is the first fitting one in the shuffled order (FirstFit) |
| Boards.Board.SpawnShipRandom | Course_Material/battleship/board.py:187-210 | skips failing rounds, then appends a fresh undamaged ship at the first round that fits and paints its footprint; if the rounds run out, nothing changes |
| Boards.Board.SpawnDefaultShip | Course_Material/battleship/board.py:166-168 | default ship n, when placed, is fresh, appended, and has the default name and life = size = its default length |
| Boards.Board.SpawnDefaultFleet | Course_Material/battleship/board.py:162-169 | all five default ships are appended in order with their names and undamaged lengths, or fewer when the draws run out |
| Boards.Board.SpawnPresets | Course_Material/battleship/board.py:171-176 | the given ships are appended in order and the board stays consistent |
| Boards.Board.SpawnPresetAt | Course_Material/battleship/board.py:174-175 | one preset is appended and the presets after it still fit |
| Boards.Board.SpawnShips | Course_Material/battleship/board.py:155-179 | 'default' spawns the random fleet; a ship list is placed as given; an empty sequence is the index error, an unindexable value the type error and any other sequence the corrected error, and these leave the board unchanged |
| ProbeRules.ProbeSpends | Course_Material/battleship/trivial_agent.py:39-40 | marking the cell just fired at keeps every probed cell free of intact ship cells |
| ProbeRules.MarkCounts | Course_Material/battleship/trivial_agent.py:36-40 | marking moves a cell from unprobed to probed iff it was unprobed; marking a probed cell changes no count |
| ProbeRules.MarkKeepsOnlyMarks | Course_Material/battleship/less_trivial_agent.py:49 | a probe marks one cell or none, so probed cells only ever go from 0 to 1 |
| ProbeRules.LiveCellUnprobed | Course_Material/battleship/trivial_agent.py:25-27 | while the game is not over, some intact ship cell is still unprobed, so a useful probe always exists |
| ProbeRules.ProbedBound | Course_Material/battleship/trivial_agent.py:36-40 | at most dim·dim cells can be probed |
| TrivialAgents.TrivialAgent.constructor | Course_Material/battleship/trivial_agent.py:10-19 | takes over the given board, or makes a new 10×10 board with no shots whose ships are the default fleet in order (17 health when all five were placed); the probed grid is all zero |
| TrivialAgents.TrivialAgent.RandomProbe | Course_Material/battleship/trivial_agent.py:32-40 | an unprobed sample is fired at and marked; a probed sample changes nothing and fires nothing; the shot count stays equal to the count the agent started with plus the number of probed cells |
| TrivialAgents.TrivialAgent.Mark | Course_Material/battleship/trivial_agent.py:40 | exactly the sampled cell of the probed grid becomes 1 |
| TrivialAgents.TrivialAgent.PlayUntilCompletion | Course_Material/battleship/trivial_agent.py:21-29 | finished iff the game is over; the score is the torpedo count, the count before plus the number of probed cells, at most dim·dim more; probed cells only go 0→1 |
| LessTrivialAgents.Neighbours | Course_Material/battleship/less_trivial_agent.py:65-68 | four distinct cells, each exactly one cell away from the centre, i.e. the four cardinal neighbours |
| LessTrivialAgents.KeepUnexploredSpec | Course_Material/battleship/less_trivial_agent.py:71-74 | the filter keeps exactly the on-board unprobed cells and never more than it was given |
| LessTrivialAgents.KeepUnexploredConcat | Course_Material/battleship/less_trivial_agent.py:71-74 | the filter keeps order: filtering a concatenation concatenates the filtered parts |
| LessTrivialAgents.KeepOne | Course_Material/battleship/less_trivial_agent.py:72-74 | a single cell is kept iff it is on the board and unprobed |
| LessTrivialAgents.RegionSpec | Course_Material/battleship/less_trivial_agent.py:62-76 | a hit queues at most four cells; a cell is queued iff it is a neighbour, on the board and unprobed |
| LessTrivialAgents.RegionOrder | Course_Material/battleship/less_trivial_agent.py:68-74 | a hit queues its unexplored neighbours in the order right, left, down, up, so the last unexplored one of right, left, down, up is popped first |
| LessTrivialAgents.RegionOnBoard | Course_Material/battleship/less_trivial_agent.py:71-74 | queueing a region keeps every queued cell on the board |
| LessTrivialAgents.HuntingAfterProbe | Course_Material/battleship/less_trivial_agent.py:96-98 | corrected flag: after a hit, hunting iff the deque is non-empty (so a hit that queues cells starts a hunt, one that queues nothing does not); without a hit, "hunting iff the deque is non-empty" is kept |
| LessTrivialAgents.ProbeCanStrandHunt | Course_Material/battleship/less_trivial_agent.py:96-98 | on a reachable 2×2 board, a hit with no unexplored neighbour leaves the deque empty while a ship is afloat; as written the flag is set, corrected it is not |
| LessTrivialAgents.CellCanBeQueuedTwice | Course_Material/battleship/less_trivial_agent.py:43-53 | a cell can be queued by two hits, so `hunt`, which never checks the probed grid, can fire at it twice |
| LessTrivialAgents.LessTrivialAgent.constructor | Course_Material/battleship/less_trivial_agent.py:11-22 | takes over the given board, or makes a new 10×10 board with no shots whose ships are the default fleet in order (17 health when all five were placed); all-zero probed grid, empty deque, not hunting |
| LessTrivialAgents.LessTrivialAgent.AddRegionToDeque | Course_Material/battleship/less_trivial_agent.py:62-76 | the deque becomes the old deque followed by the region of the centre; queued cells stay on the board |
| LessTrivialAgents.LessTrivialAgent.Mark | Course_Material/battleship/less_trivial_agent.py:49 | exactly the given cell of the probed grid becomes 1 |
| LessTrivialAgents.LessTrivialAgent.Shoot | Course_Material/battleship/less_trivial_agent.py:48-49 | fires and marks; a cell probed before is a miss that changes no count, and an unprobed one leaves the unprobed count one lower |
| LessTrivialAgents.LessTrivialAgent.Hunt | Course_Material/battleship/less_trivial_agent.py:43-58 | pops the last queued cell, fires at it, marks it, and on a hit appends its region; either fewer cells are unprobed, or the same number and a shorter deque |
| LessTrivialAgents.LessTrivialAgent.QueueAfterHunt | Course_Material/battleship/less_trivial_agent.py:51-56 | a hit appends the region; hunting holds iff the deque is non-empty and queued cells stay on the board |
| LessTrivialAgents.LessTrivialAgent.FindUnprobed | Course_Material/battleship/less_trivial_agent.py:85-88 | stops at the first unprobed sample; every sample before it was probed |
| LessTrivialAgents.LessTrivialAgent.ProbeAt | Course_Material/battleship/less_trivial_agent.py:93-98 | fires at and marks an unprobed cell; on a hit appends its region; the flag follows the corrected rule |
| LessTrivialAgents.LessTrivialAgent.QueueAfterProbe | Course_Material/battleship/less_trivial_agent.py:96-98 | a hit appends the region; the flag is HuntingAfterProbe of the old flag, so "hunting iff queued" is kept |
| LessTrivialAgents.LessTrivialAgent.RandomProbe | Course_Material/battleship/less_trivial_agent.py:81-100 | the first unprobed sample is fired at and marked, the grid and fleet become Fire/FireFleet, and the unprobed count drops by one; on a hit its region is queued and the flag follows the corrected rule; if every sample was probed, nothing changes |
| LessTrivialAgents.LessTrivialAgent.PlayUntilCompletion | Course_Material/battleship/less_trivial_agent.py:27-39 | hunts always end (fewer unprobed cells or a shorter deque each step); finished iff the game is over; the score is the torpedo count; probed cells only go 0→1 |
| GymEnv.ActionCoord | Course_Material/BattleshipGymTemplate.py:35 | the row is always on the grid; the column is on the grid iff 0 ≤ action < 100; the action equals row + 10·column |
| GymEnv.ActionRoundTrip | Course_Material/BattleshipGymTemplate.py:20-22 | every cell of the 10×10 grid is the decoding of an action in 0..99, so the action space covers the board |
| GymEnv.Reward | Course_Material/BattleshipGymTemplate.py:55-58 | the reward is 1 iff the shot hit and −1 otherwise |
| GymEnv.FireKeepsSound | Course_Material/BattleshipGymTemplate.py:39 | a torpedo never invalidates an earlier observation |
| GymEnv.ObserveKeepsSound | Course_Material/BattleshipGymTemplate.py:41-44 | writing −1 for a miss or 1 for a hit keeps the observation sound: 1 only on hit ship cells, −1 only on cells with no intact ship |
| GymEnv.StepKeepsSound | Course_Material/BattleshipGymTemplate.py:39-46 | every outcome of a step keeps the observation sound |
| GymEnv.ReshotHitRecordedAsMiss | Course_Material/BattleshipGymTemplate.py:41-42 | firing again at a cell observed as a hit is a miss, and the step overwrites the 1 with −1 |
| GymEnv.BattleshipEnv.constructor | Course_Material/BattleshipGymTemplate.py:16-29 | a fresh 10×10 board with zero torpedoes whose ships are the default fleet in order (17 health when all five were placed); all-zero observation, which is sound; not done |
| GymEnv.BattleshipEnv.Reset | Course_Material/BattleshipGymTemplate.py:70-80 | replaces the board with a fresh 10×10 board with zero torpedoes whose ships are the default fleet in order (17 health when all five were placed), and the observation with a fresh all-zero array, which it returns; not done |
| GymEnv.BattleshipEnv.Step | Course_Material/BattleshipGymTemplate.py:32-63 | fires at the decoded cell; an off-board reply raises ValueError with nothing recorded; otherwise exactly that observation cell becomes −1 or 1, done is `check_gameover` after the shot and the reward is ±1; on a 10×10 board every action in 0..99 succeeds; soundness is kept |
| GymEnv.BattleshipEnv.Observe | Course_Material/BattleshipGymTemplate.py:41-58 | records a 0/1 reply, raising ValueError for any other reply and IndexError outside the 10×10 observation; sets done and the reward |
| GymEnv.BattleshipEnv.Record | Course_Material/BattleshipGymTemplate.py:42-44 | exactly one observation cell is overwritten |
| GymEnv.BattleshipEnv.OverwriteBoard | Course_Material/BattleshipGymTemplate.py:88-89 | the environment plays on the given board; the observation and done are kept |

## Left out

- Visualisation in board.py is not modelled: `_init_vis`, `_draw_ship`, `_draw_ships`, `_draw_torpedo`, `_button_press`, the `vis` branches of `torpedo`, `print`. It is rendering with no effect on the game state.
- The random generators (`np.random.randint`, `random.shuffle`) are inputs: sequences of draws and of sampled cells. The retry loops stop when the inputs run out, so the model does not capture that the source can loop forever, e.g. on a fleet that does not fit the board.
- `debug` printing in the agents and Gym plumbing (`gym.spaces`, `seed`, `render`, the empty `info` dict, the unused `np.copy` of the state) are left out. They do not affect the game.
- Course_Material/battleship/rl_agent.py, Course_Material/MyCustomEnv.py, Course_Material/MySimpleEnv.py, override_ant_random_points.py, noxfile.py and static_board_v1.py are not part of this model.
- Boards.Board.SpawnShips: presets must fit. Each preset ship must be distinct and not already on the board, at least one cell long, undamaged, on ocean cells inside the grid, and must not overlap the others. The source writes any preset unchecked. With bad presets it can wrap negative indices, raise IndexError or overwrite another ship.
- Boards.Board.Create: same precondition on presets as SpawnShips.
- Boards.Board.SpawnPresets: same precondition on presets as SpawnShips.
- Boards.Board.SpawnShipSpecified: requires the ship to fit on ocean, the same restriction for one preset.
- Boards.Board.PlaceShipOnGrid: requires the footprint to lie inside the grid, part of the same restriction.
- A configuration that is a mapping without key 0, so that `presets[0]` raises KeyError, is not modelled. The model's configurations are 'default', ship lists, other sequences and unindexable values. Nor is a list whose first element is a Ship but a later one is not: `_spawn_ship_specified` places the earlier ships and then fails with AttributeError on that element (board.py:171-176).
- Boards.Board.SpawnShipRandom: requires size ≥ 1. All sizes the source passes are 2 to 5.
- TrivialAgents.TrivialAgent.constructor and LessTrivialAgents.LessTrivialAgent.constructor: a board that is passed in must be consistent, as every board built by the constructor is.
- TrivialAgents.TrivialAgent.RandomProbe: sampled cells are required on the board, as `randint(0, dim)` guarantees.
- LessTrivialAgents.LessTrivialAgent.RandomProbe: same requirement on sampled cells.
- LessTrivialAgents.LessTrivialAgent.PlayUntilCompletion: does not state "torpedo count = number of probed cells". That is false for this agent, because `hunt` can fire at a cell twice (CellCanBeQueuedTwice).
- LessTrivialAgents.LessTrivialAgent.Hunt: requires the agent to be hunting, and the invariant makes that mean a non-empty deque. This holds because the model uses the corrected flag; the as-written crash is under Findings.
- GymEnv.BattleshipEnv.Step: returns the reward and `done`; the observation is the `state` field itself.
- GymEnv.BattleshipEnv.OverwriteBoard: requires the new board's grid to be a different array from the observation. It does not keep the observation sound, since the observation describes the old board, as in the source.
- `_step_in_dir` raising ValueError for an unknown orientation (board.py:263-264) is not modelled: `Direction` has exactly the four headings, so no such value exists.
- Integer widths: grid values fit easily in int32 and Python integers are unbounded, so no wrap-around is modelled.

## Findings

| source | as written | input that shows it | evidently intended | confidence | as-written member | corrected member |
|---|---|---|---|---|---|---|
| Course_Material/battleship/board.py:178-179 | a non-empty `ship_config` whose first element is not a Ship (such as the (name, size) list the Board docstring suggests at lines 31-34) builds a `ValueError` and drops it, so the board has no ships and `check_gameover` is true before the first shot | `Board(ship_config='random')`: `presets[0]` is `'r'`, not a Ship | raise the error | not executed; high | Boards.PlanAsWritten, Boards.UnrecognisedConfigStartsFinished | Boards.Plan, Boards.PlanPlacesShips |
| Course_Material/battleship/less_trivial_agent.py:96-98 | a random hit sets `hunting` even when `add_region_to_deque` queued nothing; the next `hunt` pops an empty deque (line 47). On a fresh board whose ships are all at least 2 cells long, the default game included, this input seems out of reach: a probed ship-mate of the hit cell would have queued it. Only a one-cell preset or a board passed in with earlier hits reaches it; the model does not prove that it is unreachable otherwise. | 2×2 board with one-cell ships at (0,0) and (1,1); random probes miss at (0,1) and (1,0), then hit (0,0) | hunt only when something is queued, as `hunt` itself does at lines 55-56 | not executed; high | LessTrivialAgents.HuntingAfterProbeAsWritten, LessTrivialAgents.ProbeCanStrandHunt | LessTrivialAgents.HuntingAfterProbe, LessTrivialAgents.LessTrivialAgent.QueueAfterProbe |
