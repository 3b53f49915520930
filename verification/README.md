# Chess Studio backend, modelled and proved

A Dafny model of the parts of the Chess Studio backend whose code must agree with a
simple specification over an unbounded domain, with proofs of that agreement.

`dafny verify dfyconfig.toml` checks everything.

| module | models |
|---|---|
| `Scores`, `Sorting`, `GameTree` | extended scores, stable move ordering, and the reference meaning of a search: plain depth-limited minimax over plain quiescence, on an abstract two-player game |
| `Mates` | what a search must answer where mate is forced and where nothing is happening, told from moves, turns, verdicts and evaluations alone |
| `SearchRun` | what the search computes when time does not run out, as functions, with nothing assumed about keys |
| `Search` | the alpha-beta search itself: a board that is pushed and popped, a shared transposition table, quiescence, a clock that may run out at any reading, root search, iterative deepening |
| `Transposition` | how far the search needs the boards of its root to be told apart by key and ply |
| `RootAnalysis` | full-window candidate analysis, principal variations read from the table, ranking, comparison of a played move with the best |
| `GridGraph`, `Breadth`, `Articulation`, `CycleRank` | cells, paths, breadth-first distances, articulation points by low links, cycle rank |
| `Maze`, `ExtraCells`, `DeadEndBound`, `LayoutGenerator` | the depth-first carve with its explicit stack, opening of extra cells, why at most half the cells are dead ends, exit placement |
| `Materialize`, `TopologyGate` | overlaying a layout on an authored manifest, and the quality gate that judges the result |
| `Text`, `MapCode` | the map code printer and parser |
| `AcceptSaga` | accepting a challenge: two documents, no transactions, any interleaving, crashes anywhere |
| `MatchLifecycle`, `MatchRequests` | one match under compare-and-set on its revision, presence writes that do not bump it, clocks, and the retrying requests |
| `Options`, `Integers` | small shared definitions |
| `SafeKeys`, `Telemetry`, `TelemetrySamples`, `TelemetryFlush`, `TelemetryStore` | field encoding, bucket trees, the recorders, and recorders interleaved with flushes |
| `TelemetryMeaning` | what every number of the telemetry counts, told path by path from the samples |

How the source's effects appear:

- Code that changes things step by step is imperative here too: `Search.Board`, `Search.Table`,
  `Articulation.Finder`, `Maze.Rng`, `AcceptSaga.Store`, `MatchRequests.Server`,
  `TelemetryStore.Aggregator` are classes; grids are two-dimensional arrays written in place.
- Concurrency is a state machine whose events are single store calls, in any order, by any
  number of clients, each of which may stop for good between two calls. `MatchRequests.Server`
  and `TelemetryStore.Aggregator` run whole requests in which everybody else acts at every wait.
- Pseudo-random numbers, hashes and coins are arbitrary choices, so results hold for every seed.
- A clock may advance by any amount between readings.
- Elapsed milliseconds may fall short of the exact time by a rounding of any given size, since the
  source truncates a binary fraction of seconds.

Findings about the code, each proved:

- The transposition key omits the move history, while a search looks at repetitions. The search
  is exact wherever the boards it may visit from its root, met after the same number of plies
  under the same key, are alike (`GameTree.Coherent`): finitely many boards, none of them further
  than the depth and the quiescence plies. Without that the root answer can be wrong:
  `Transposition.DiamondAnswer` gives, for a whole family of games whose two move orders meet two
  plies down, the score the search returns, `Transposition.RightIffFirstIsBest` when it is right,
  and `Transposition.CoherenceIsExact` that in this family the condition is also necessary.
- Of the generator's errors only one can happen to a valid recipe, and only for one shape of
  recipe (`LayoutGenerator.OnlyTheTightestRecipeFails`, with such a recipe in
  `LayoutGenerator.TheTightestRecipe`). The other failures are unreachable.
- An accepted challenge has its match as long as every attempt to accept it began in time
  (`AcceptSaga.AcceptedInTimeHasMatch`). For any attempt begun too late beside one in time, some
  run deletes the staged match between the first one's claim and its activation
  (`AcceptSaga.AcceptedWithoutMatch`); the next request repairs it (`AcceptSaga.RequestRecovers`).
- A client that stops after staging can leave a staged match whose challenge is then cancelled
  (`AcceptSaga.OrphanReached`). A staged match outlives a request by the opponent exactly when its
  challenge is neither pending nor accepted (`AcceptSaga.StagedOutlivesRequestIff`); a store-level
  retry would remove it (`AcceptSaga.RetrySettles`).
- The in-memory acceptance marks a challenge that has run out as expired, the database path does
  not (`AcceptSaga.Store.AcceptInMemory`).

## Model

| member | source | states |
|---|---|---|
| GameTree.KeyDeterminesValue | backend-python/chess_ai.py:300-338 | boards one root reaches in as many plies under one key have equal minimax values as deep as the search looks, provided the boards it may visit are told apart |
| GameTree.ValueFinite | backend-python/chess_ai.py:439-509 | plain minimax is a finite score for every position, depth and ply |
| GameTree.CoherentShallower | backend-python/chess_ai.py:583-615 | boards told apart for a deep search are told apart for every shallower one, so iterative deepening needs the condition once |
| Mates.MateWorth | backend-python/chess_ai.py:160-165 | a side that forces mate within n plies has, at any depth of at least n, a minimax value no worse for it than a hundred thousand less the plies |
| Mates.NoMateWorth | backend-python/chess_ai.py:439-509 | a side that cannot force mate within k plies is worth less than such a mate at every depth, if evaluations are smaller than mate scores |
| Mates.MatesFound | backend-python/chess_ai.py:439-546 | the exact root answer at a depth of at least n scores a mate first forced in n plies as 100000 - n for White and -100000 + n for Black, keeps to the fastest mate or avoids a faster one, and announces no mate that is not forced |
| Mates.MateInOneFound | backend-python/chess_ai.py:160-338 | if some root move mates, the answered move mates, with score 99999 for White and -99999 for Black |
| Mates.StaticMate | backend-python/chess_ai.py:562-580 | the move the fallback answers mates at once if any move does |
| Mates.QuietValue | backend-python/chess_ai.py:341-436 | quiescence scores drawn and mated boards, boards where nothing is happening, the best capture into quiet boards or standing pat, and the best evasion of a check, as told from evaluations alone |
| SearchRun.MinimaxRunFinite | backend-python/chess_ai.py:439-509 | the search never answers with an infinity, whatever finite scores it finds in the table |
| Scores.FailSoftMaxStep | backend-python/chess_ai.py:484-504 | searching one more move with the narrowed window extends the three-way fail-soft contract, for the maximising side |
| Scores.FailSoftMinStep | backend-python/chess_ai.py:484-504 | the same for the minimising side |
| Scores.NarrowedWindow | backend-python/chess_ai.py:462-477 | a result judged against a window narrowed by a sound bound still meets the contract for the original window |
| Search.Quiescence | backend-python/chess_ai.py:341-436 | unless time runs out the score relates to plain quiescence by the fail-soft contract and is the one `QRun` computes, and with the full window it is what evaluations alone say on mated, drawn and quiet boards; the board is restored either way, and a timeout means the deadline has come |
| Search.QuiescenceLoop | backend-python/chess_ai.py:406-436 | the window-narrowing loop over captures or evasions computes the best child up to that contract |
| Search.LastEvasions | backend-python/chess_ai.py:382-404 | at depth zero in check exactly one extra ply of evasions is scored, without a window |
| Search.Probe | backend-python/chess_ai.py:455-477 | a table hit answers or narrows as `ProbeRun` says, soundly where the table is trusted; a clean exact entry never narrows |
| Search.Minimax | backend-python/chess_ai.py:439-509 | a completed call computes what `MinimaxRun` says, for every game and table; from a trusted table it refines plain minimax (at or below alpha the score bounds from above, at or above beta from below, inside it is exact) and leaves it sound; the board is restored, a timeout stores nothing at this node and means the deadline has come |
| Search.MinimaxLoop | backend-python/chess_ai.py:479-500 | the move loop computes what `LoopRun` says and, trusted, keeps the contract; a move inside the window attains the score |
| Search.StoreSound | backend-python/chess_ai.py:501-509 | storing an entry proved for one board keeps the table sound for every board the root reaches in as many plies under the same key |
| Search.TwinEntry | backend-python/chess_ai.py:300-317 | an entry proved for a board holds for every board the same root reaches in as many plies under its key |
| Search.HitHasRequestedDepth | backend-python/chess_ai.py:455-477 | an entry deep enough to use has exactly the requested depth, because none looks past the root's horizon |
| Search.HitContract | backend-python/chess_ai.py:455-477 | what an exact, lower or upper hit allows, including closing the window |
| Search.EntryContract | backend-python/chess_ai.py:501-509 | the flag computed from the original window is sound even when a bound had narrowed the search |
| Search.RootSearch | backend-python/chess_ai.py:512-546 | a completed root pass computes what `RootRun` says, for every game; where the root's boards are told apart it is a true best move with its exact minimax value, and, evaluations being smaller than mate scores, mates are scored and answered as `Mates` tells them; a timeout means the deadline has come |
| Search.StaticBestMove | backend-python/chess_ai.py:562-580 | the fallback is the best legal move by one-ply static score, a mating one if there is one |
| Search.IterativeSearch | backend-python/chess_ai.py:583-615 | whenever the clock stops it a legal move is answered; it is that of the last completed depth, exact and attained where the root's boards are told apart and, evaluations being smaller than mate scores, answering forced mates as `Mates` tells them, or the static fallback, which mates if it can; the last depth is completed unless the budget has passed |
| Transposition.SecondVisitEchoes | backend-python/chess_ai.py:455-477 | once a board has left an exact entry, any board with its key and ply is answered by it whatever it is worth |
| Transposition.DiamondAnswer | backend-python/chess_ai.py:512-546 | where two move orders meet in boards alike in all but history, the root search answers the worth of the line it searched first |
| Transposition.TrueValue | backend-python/chess_ai.py:439-509 | plain minimax gives that root the better of the two lines |
| Transposition.RightIffFirstIsBest | backend-python/chess_ai.py:439-546 | so the root answer is right exactly when the line searched second is no better |
| Transposition.CoherentIffAlike | backend-python/chess_ai.py:300-338 | the boards of such a root are told apart exactly when repetition has struck on both ways or on neither |
| Transposition.CoherenceIsExact | backend-python/chess_ai.py:300-338 | the search of such a root is right for every evaluation and either move order exactly when its boards are told apart |
| Transposition.SearchDiamond | backend-python/chess_ai.py:512-546 | the search as it runs, clock and all, gives that answer whenever it completes |
| RootAnalysis.PrincipalVariation | backend-python/engine_analysis.py:108-154 | the recovered line is legal and at most as long as the search was deep; read from a sound table every later move comes from an exact entry of exactly the remaining depth |
| RootAnalysis.LineAttainsScore | backend-python/engine_analysis.py:108-154 | when no narrowed entry was read the line keeps the root move's value to its end |
| RootAnalysis.FullWindowChild | backend-python/engine_analysis.py:183-214 | a full-window call from a clean first ply is exact, and its reply attains the score |
| RootAnalysis.AnalyzeRootCandidates | backend-python/engine_analysis.py:157-214 | every legal root move with a number and, where the root's boards are told apart, its exact value, an optimal reply when one was searched, and a proved line |
| RootAnalysis.RankingSound | backend-python/engine_analysis.py:217-231 | ranking is a permutation, best first for the side to move |
| RootAnalysis.RankingRepeatsNone | backend-python/engine_analysis.py:217-231 | ranking keeps one candidate for each move |
| RootAnalysis.SecondIsRunnerUp | backend-python/engine_analysis.py:447-457 | the second ranked candidate is a different move from the first, worth no less than every remaining move, and their difference is that of the two greatest exact values over distinct moves |
| RootAnalysis.RootValueIsBest | backend-python/engine_analysis.py:217-231 | the root value bounds every candidate and one attains it |
| RootAnalysis.DriversAgree | backend-python/engine_analysis.py:157-231 | the top ranked candidate has exactly the value the root search returns |
| RootAnalysis.ComparisonParts | backend-python/engine_analysis.py:415-474 | best and played scores are exact at one depth, their difference is never negative, and zero exactly when the played move is optimal |
| RootAnalysis.CompareRootMove | backend-python/engine_analysis.py:415-474 | where the root's boards are told apart the reported loss is the exact minimax difference; the legal moves being listed once each, the second move is another than the best, no worse than any other but the best, and the gap is the exact difference between the two; a timeout means the deadline has come |
| RootAnalysis.CompareRootMoveIterative | backend-python/engine_analysis.py:477-514 | the answer is that of the deepest completed pass, never a mixture, exact under the same condition; the last depth is completed unless the budget has passed |
| RootAnalysis.AnalyzeRootIterative | backend-python/engine_analysis.py:259-295 | the deepest complete ranked pass within the budget, its first score the root value under the same condition |
| RootAnalysis.RankedPass | backend-python/engine_analysis.py:259-295 | ranking a complete pass leaves a complete pass |
| Breadth.DistancesUnique | backend-python/chronicles_map_generator.py:242-263 | reachable cells and shortest lengths determine the map, so all breadth-first searches agree |
| Breadth.Distances | backend-python/chronicles_topology_quality.py:126-141 | the map's domain is exactly the cells reachable from the start, its values the lengths of shortest paths |
| Breadth.GridDistances | backend-python/chronicles_manifest_procedural.py:255-277 | the same over a grid, the start counting as open |
| Breadth.NoShorterPath | backend-python/chronicles_topology_quality.py:126-141 | once every found cell is expanded no path is shorter than its distance |
| Articulation.Finder.Visit | backend-python/chronicles_topology_quality.py:156-177 | one recursive visit discovers just what is reachable without the stack, computes its low link, and marks its articulation points |
| Articulation.ArticulationPoints | backend-python/chronicles_topology_quality.py:144-184 | returns exactly the cells whose removal disconnects two connected cells, for every finite set |
| Articulation.CutDecided | backend-python/chronicles_topology_quality.py:164-177 | when a visit ends its cell is marked exactly if it is an articulation point |
| CycleRank.DegreeSumEven | backend-python/chronicles_topology_quality.py:340-349 | the sum of neighbour degrees is even, so halving it counts edges |
| CycleRank.RankNeverClamped | backend-python/chronicles_topology_quality.py:349-352 | on a connected set edges minus cells plus one is never negative |
| CycleRank.RankZeroIffAcyclic | backend-python/chronicles_topology_quality.py:349-358 | the reported rank is zero exactly when the layout has no cycle |
| Maze.CarveMaze | backend-python/chronicles_map_generator.py:144-176 | for every choice sequence the carve ends with a perfect maze: every room open, border solid, connected, acyclic, exactly the predicted number of cells |
| Maze.OpenRoom | backend-python/chronicles_map_generator.py:160-172 | carving to a new room keeps the open cells a tree |
| Maze.AllRoomsVisited | backend-python/chronicles_map_generator.py:152-174 | with the stack empty every room has been visited |
| Maze.RoomCount | backend-python/chronicles_map_generator.py:179-182 | there are exactly half-width times half-height rooms |
| Maze.InteriorCount | backend-python/chronicles_map_generator.py:185-188 | the interior has width less two times height less two cells |
| ExtraCells.ScanWalls | backend-python/chronicles_map_generator.py:206-230 | the scan lists exactly the closed interior cells beside one, or beside two, open cells |
| ExtraCells.SomeCandidate | backend-python/chronicles_map_generator.py:229-232 | while cells are missing some wall can be opened |
| ExtraCells.OpenExtraCells | backend-python/chronicles_map_generator.py:206-239 | never fails, keeps the layout connected and no more than half of it dead ends, and stops at exactly the target |
| DeadEndBound.PerfectMazeFew | backend-python/chronicles_map_generator.py:144-176 | at most half the cells of a finished carve are dead ends |
| DeadEndBound.LoopKeepsFew | backend-python/chronicles_map_generator.py:206-239 | a wall cell that closes a loop is no dead end and makes none |
| DeadEndBound.NoLoopNoDeadEnd | backend-python/chronicles_map_generator.py:206-239 | when no wall cell closes a loop any more, no open cell is a dead end |
| ExtraCells.PickKeepsLively | backend-python/chronicles_map_generator.py:229-237 | picking a loop while there is one, and any candidate otherwise, keeps dead ends to half the cells |
| LayoutGenerator.OnlyTheTightestRecipeFails | backend-python/chronicles_map_generator.py:122-203 | among valid recipes exactly the smallest map with everything at its maximum and four mechanism verbs asks for more cells than fit |
| LayoutGenerator.TheTightestRecipe | backend-python/chronicles_map_generator.py:122-203 | a valid recipe of that shape, which fails whatever density it asks for |
| LayoutGenerator.TargetReachable | backend-python/chronicles_map_generator.py:185-203 | the target is no less than the carve and no more than the interior |
| LayoutGenerator.TargetAsAsked | backend-python/chronicles_map_generator.py:122-203 | the target is refused exactly when the contents need more cells than the interior has; otherwise it has room for them, is as open as the density asks where that fits, has two cells more than the carve where they fit, and is one of these figures, or the whole interior when one exceeds it |
| LayoutGenerator.MechanismsCounted | backend-python/chronicles_map_generator.py:122-128 | one slot is kept in reserve and two are counted for each verb that is a mechanism |
| LayoutGenerator.Farthest | backend-python/chronicles_map_generator.py:292-296 | the exit is the greatest cell by distance, then row, then column |
| LayoutGenerator.FarCorner | backend-python/chronicles_map_generator.py:292-299 | the far corner room puts some cell at least eight steps away |
| LayoutGenerator.GenerateLayout | backend-python/chronicles_map_generator.py:274-312 | the only failures are an invalid recipe and contents that need more cells than the interior has; otherwise the layout is connected, at most half dead ends, with the exit farthest, and exactly as open as the contents, the density or the carve plus two cells call for |
| Materialize.PickLeast | backend-python/chronicles_manifest_procedural.py:219-226 | the least cell by key, then row, then column |
| Materialize.CarveLeg | backend-python/chronicles_manifest_procedural.py:232-244 | one leg of the corridor reaches its target coordinate, opens only connected cells, and digs no more cells than there are steps |
| Materialize.ConnectAnchor | backend-python/chronicles_manifest_procedural.py:209-244 | after connecting an anchor the open set is connected and holds it, nothing closed, and no more cells were opened than there are steps from the anchor to any open cell |
| Materialize.ConnectAnchors | backend-python/chronicles_manifest_procedural.py:453-461 | after all anchors the open set is connected and contains every one |
| Materialize.AnchorIff | backend-python/chronicles_manifest_procedural.py:129-190 | a cell is an anchor exactly if it is the start, a place or route of an enemy that is not placed anew, a cell content or an exit is pinned to, or a marked cell other than an exit mark once exits are seeded |
| Materialize.PlaceSeededExit | backend-python/chronicles_manifest_procedural.py:280-327 | the exit is a farthest free floor cell at least four steps away, off every anchor; it fails only when there is none |
| Materialize.PlaceOptionalEnemies | backend-python/chronicles_manifest_procedural.py:350-430 | placed enemies get pairwise distinct free cells, three steps or more from the start if that leaves room for all, each in turn the least by its key among those left, and nothing else changes; it fails exactly when there are too few cells |
| Materialize.Overlay | backend-python/chronicles_manifest_procedural.py:440-505 | without an exit cell no cell would do, without enemy cells the free ones are too few; otherwise the area is connected, holds every anchor and room, has one seeded exit and well placed enemies |
| Materialize.MaterializeRecipe | backend-python/chronicles_manifest_procedural.py:433-505 | the same for a whole recipe, which fails at the layout exactly when it is invalid or asks for too many slots |
| TopologyGate.CoverageIsConnectivity | backend-python/chronicles_topology_quality.py:291-302 | reached and walkable counts differ exactly when the cells are not all connected to the start |
| TopologyGate.CriticalAnchorIff | backend-python/chronicles_topology_quality.py:187-216 | a cell has to be reached exactly if it is the start, a place, route or position of an enemy, or a cell that content or an exit is pinned to or whose tile it shows |
| TopologyGate.Extremes | backend-python/chronicles_topology_quality.py:310-318 | least and greatest distance over the exits that were reached, none exactly when none was |
| TopologyGate.Evaluate | backend-python/chronicles_topology_quality.py:268-387 | the reasons are exactly those due by paths and shapes; every figure is what it says, articulation count and rank included |
| TopologyGate.SearchDecides | backend-python/chronicles_topology_quality.py:291-347 | each check made on distances is equivalent to its statement about paths |
| TopologyGate.RoomsAreAQuarter | backend-python/chronicles_topology_quality.py:335-338 | the rooms alone reach the least open ratio |
| TopologyGate.ConnectivityPasses | backend-python/chronicles_topology_quality.py:291-338 | a materialised area is never rejected for its start, its connectivity, an unreachable anchor or exit, or its open ratio |
| TopologyGate.SeededExitPasses | backend-python/chronicles_topology_quality.py:304-319 | with a seeded exit it is never rejected for a missing or close exit |
| TopologyGate.OnlyFixedEnemiesOverlap | backend-python/chronicles_topology_quality.py:326-331 | an enemy stands on the start exactly if an authored, fixed one does |
| TopologyGate.MaterializedAccepted | backend-python/chronicles_topology_quality.py:268-387 | such an area is accepted exactly unless a fixed enemy stands on the start or more than half its cells are dead ends |
| MapCode.ValidateNormalises | backend-python/chronicles_map_code.py:128-168 | validation yields a normal recipe, and leaves exactly the normal ones alone |
| MapCode.Parse | backend-python/chronicles_map_code.py:189-248 | the loop that fills the fields computes the specification of parsing, faults included |
| MapCode.FieldsExactly | backend-python/chronicles_map_code.py:204-219 | the fields are read exactly when every token is a known field given once |
| MapCode.ParseExactly | backend-python/chronicles_map_code.py:189-248 | a string parses to a recipe exactly when it denotes it, token by token |
| MapCode.RoundTrip | backend-python/chronicles_map_code.py:171-252 | every valid recipe prints within 256 characters and parses back to its validated self |
| MapCode.CanonicalIdempotent | backend-python/chronicles_map_code.py:251-252 | canonicalising an accepted string is possible, keeps its meaning, and twice is once |
| MapCode.RespelledCode | backend-python/chronicles_map_code.py:189-252 | field order and equivalent spellings, leading zeros of the numeric fields among them, do not change the recipe |
| MapCode.LetterCase | backend-python/chronicles_map_code.py:189-248 | letter case does not change whether a string parses, nor to what |
| MapCode.SurroundingSpace | backend-python/chronicles_map_code.py:189-196 | surrounding whitespace does not change the result |
| MapCode.PaddedToken | backend-python/chronicles_map_code.py:204-214 | whitespace around a field's name and value does not change its meaning |
| AcceptSaga.Store.CancelChallenge | backend-python/pvp_store.py:454-498 | cancels only a pending challenge of the caller in time, and answers the cancelled row however often asked |
| AcceptSaga.Store.DeclineChallenge | backend-python/pvp_store.py:501-528 | declines exactly a pending challenge addressed to the caller |
| AcceptSaga.Store.ExpireChallenges | backend-python/pvp_store.py:346-374 | marks exactly the pending challenges that have run out |
| AcceptSaga.Store.LeaveRoster | backend-python/pvp_store.py:168-190 | cancels exactly the pending challenges of the user |
| AcceptSaga.StagedIsNobodys | backend-python/pvp_store.py:629-644 | what players cannot read was never handed to any client, in any run |
| AcceptSaga.Store.AcceptChallenge | backend-python/pvp_store.py:572-626 | run alone it does just what its single store calls do one after the other |
| AcceptSaga.Store.AcceptInMemory | backend-python/pvp_store.py:546-569 | answers as the saga does and leaves the same documents, but for marking a challenge that has run out |
| AcceptSaga.StepKeeps | backend-python/pvp_store.py:531-626 | every single step of accept, cancel, decline, expire, leave, play or crash keeps the invariant and undoes nothing |
| AcceptSaga.PendingMoves | backend-python/pvp_store.py:168-626 | over all events, a pending challenge becomes declined exactly by its opponent declining, cancelled exactly by its challenger in time or by either user leaving, expired exactly when its time has run out, accepted exactly by a claim of its opponent drafted in time, and stays pending exactly otherwise |
| AcceptSaga.WhoDecided | backend-python/pvp_store.py:168-626 | in every run a challenge that is decided was moved there, while pending, by one of those events |
| AcceptSaga.WhoChallenged | backend-python/pvp_store.py:305-343 | in every run a challenge is from and to the users, and from the time, it was made with |
| AcceptSaga.PlayableBelongsToAccepted | backend-python/pvp_store.py:531-644 | after any run a playable match belongs to an accepted challenge pointing at it, between its two users |
| AcceptSaga.OneMatchPerChallenge | backend-python/pvp_store.py:531-644 | no challenge ever has two matches |
| AcceptSaga.NothingIsUndone | backend-python/pvp_store.py:454-626 | decided challenges stay as decided, playable matches stay playable with the same sides |
| AcceptSaga.EveryoneGetsTheSameMatch | backend-python/pvp_api.py:610-667 | all clients ever handed a match for a challenge were handed the same sides |
| AcceptSaga.RetrySettles | backend-python/pvp_store.py:531-626 | from any sound documents one uninterrupted store-level acceptance ends with the match playable, or refuses and leaves no staged match; it wins exactly when the challenge could be claimed or was already claimed |
| AcceptSaga.RequestRecovers | backend-python/pvp_api.py:610-667 | once a challenge is accepted one uninterrupted request by its opponent ends with the match playable, whatever happened before |
| AcceptSaga.AcceptedInTimeHasMatch | backend-python/pvp_store.py:572-617 | in every run in which all attempts on a challenge begin in time, it is never accepted without its match |
| AcceptSaga.NobodyTurnedAwayInTime | backend-python/pvp_store.py:612-622 | where that holds of every challenge no client that claimed one finds its match gone |
| AcceptSaga.AcceptedWithoutMatch | backend-python/pvp_store.py:588-617 | for every challenge, one attempt in time and one too late, some run ends with the challenge accepted, no match, and a client told so |
| AcceptSaga.OrphanReached | backend-python/pvp_store.py:454-586 | for every challenge some run leaves a staged match and the challenge cancelled |
| AcceptSaga.StagedOutlivesRequestIff | backend-python/pvp_api.py:610-667 | over all sound documents, a staged match is still staged after one uninterrupted request by the opponent exactly when its challenge is neither pending nor accepted |
| AcceptSaga.OrphanSurvivesRequests | backend-python/pvp_api.py:610-621 | a request of anybody leaves such a match, and all else, as it is |
| MatchLifecycle.PlayKeeps | backend-python/pvp_api.py:1040-1088 | a move appends one legal numbered ply, advances position and turn, and takes time only from the mover |
| MatchLifecycle.DecisionKeeps | backend-python/pvp_api.py:252-373 | whatever is decided from a sound snapshot is sound and follows it, and only the side to move loses time |
| MatchLifecycle.WriteKeeps | backend-python/pvp_store.py:732-751 | a compare-and-set with the current revision applies a decision made before any number of presence writes as if made now |
| MatchLifecycle.StepKeeps | backend-python/pvp_store.py:647-751 | every step of every client keeps the invariant and moves the match only forward |
| MatchLifecycle.EveryRunIsSound | backend-python/pvp_api.py:903-1097 | always: active means both ready, a result goes with being finished, position and turn are the replay of the history, every ply is numbered, legal, by the player to move, and no earlier than the start or the ply before; a match ended by timeout is won by the side not to move, the other clock at zero; only play ends in a draw |
| MatchLifecycle.NothingIsLost | backend-python/pvp_store.py:732-751 | between any two moments of a run the history is only appended to, ended matches stay as they ended, no clock gains |
| MatchLifecycle.OneStatusAtATime | backend-python/pvp_api.py:252-293 | each step goes from starting to active or cancelled, from active to finished, or nowhere |
| MatchLifecycle.LateWriteIgnored | backend-python/pvp_store.py:732-751 | of the writes decided on one revision only the first takes effect, whatever happens between |
| MatchLifecycle.PlayedOnce | backend-python/pvp_api.py:1061-1088 | a move that takes effect is appended to what was there and stays there |
| MatchLifecycle.ClockAccounting | backend-python/pvp_api.py:189-215 | while active, after k plies the time lost of the two half hours differs from the time since the start by at most k roundings; each clock has lost exactly the sum over its own plies, is positive and at most thirty minutes |
| MatchLifecycle.FlagIffOutOfTime | backend-python/pvp_api.py:252-272 | a flag falls exactly when the side to move has used all it had |
| MatchLifecycle.ForfeitIffGone | backend-python/pvp_api.py:337-373 | a forfeit may be claimed exactly when the opponent is a person unseen for more than twelve seconds whose grace began at least a minute ago |
| MatchLifecycle.DecisionMeans | backend-python/pvp_api.py:252-373 | who may take each decision, when, and what match it makes: the one who resigns or whose flag falls loses, the one who claims a forfeit wins, a hand-off is cancelled by a player or at its deadline, a second ready call starts the match five seconds later |
| MatchLifecycle.OutcomeOf | backend-python/pvp_api.py:252-1009 | a decision that still finds its revision when it is written, whatever others did since, has exactly that outcome |
| MatchLifecycle.HowItEnded | backend-python/pvp_api.py:252-1009 | in every run: a match that began did so five seconds after some ready call was decided; a cancelled one was called off by a player or at its deadline; one ended by resignation, disconnect or timeout was ended by a decision of that kind, lost by the one who resigned, won by the one who claimed, lost by the side to move |
| MatchRequests.PresentIffConnected | backend-python/pvp_api.py:300-305 | a person counts as recently present exactly when their opponent's requests would not count them as disconnected |
| MatchRequests.Server.UpdateMatch | backend-python/pvp_store.py:732-751 | after a wait the write is made on top of exactly what is stored, if the revision is still the snapshot's; otherwise somebody else wrote and nothing changes |
| MatchRequests.Server.TouchPresence | backend-python/pvp_store.py:647-689 | sets that player's last seen to the stamp and clears their grace, leaves the other side's presence and every gameplay field as stored, and answers the result |
| MatchRequests.Server.BeginGrace | backend-python/pvp_store.py:692-729 | in an active match, and only there, starts that side's grace at the stamp if asked to restart, if there was none or if it was later, and leaves everything else as stored |
| MatchRequests.Server.EnsureGrace | backend-python/pvp_api.py:308-334 | a disconnected opponent's grace is running in the answer, anew if the observer was away and untouched if they were there and it ran, unless the match was over when it was to be armed |
| MatchRequests.Server.ApplyLifecycle | backend-python/pvp_api.py:376-406 | a match answered as still active was neither out of time nor to be forfeited, unless somebody else wrote meanwhile; no move is played |
| MatchRequests.Server.PlayMove | backend-python/pvp_api.py:1013-1097 | a request answered as done has put its move into the history exactly once, any other has not, however the three attempts interleave with others |
| MatchRequests.Server.ResidentReply | backend-python/pvp_api.py:561-607 | a program's reply is written at most once, as the ply of the side to move |
| MatchRequests.Server.ResignMatch | backend-python/pvp_api.py:981-1009 | answered as done, the caller is one of the players, the match is finished by resignation, and the other side has won |
| MatchRequests.Server.ReadyMatch | backend-python/pvp_api.py:903-944 | whoever is shown the match is shown it active, cancelled, or starting with their own flag set |
| MatchRequests.Server.MarkVirtualReady | backend-python/pvp_api.py:534-558 | a program's side is ready in the answer, unless the match has left its start or somebody else wrote meanwhile |
| SafeKeys.RoundTrip | backend-python/observability_history.py:45-55 | decoding an encoded label gives the label back |
| SafeKeys.SafeKeysDiffer | backend-python/observability_history.py:45-47 | different labels never share a field |
| SafeKeys.NeverMax | backend-python/observability_history.py:45-47 | no encoded label ends like a maximum |
| Telemetry.OnlyMaximaLookLikeIt | backend-python/observability_history.py:325-326 | of all field names exactly the three maxima are treated as maxima |
| Telemetry.RestoreAt | backend-python/observability_history.py:125-137 | restoring a template of zeros changes no number, loses nothing and has all the template has |
| Telemetry.SubtractAt | backend-python/observability_history.py:329-349 | taking a snapshot off lowers every counter by exactly what was sent and keeps a maximum only if it rose since, at every path |
| Telemetry.MergeAt | backend-python/observability_history.py:495-505 | merging adds counters and keeps the larger maximum, at every path |
| Telemetry.MergeUndoesSubtract | backend-python/observability_history.py:329-505 | what was taken off and what is left merge back to what there was |
| Telemetry.ApplyAt | backend-python/observability_history.py:166-322 | an edit changes the number at its own path and no other |
| TelemetrySamples.EditsWork | backend-python/observability_history.py:166-322 | edits whose fields are there all succeed and change exactly the numbers they name |
| TelemetrySamples.HydratedIsGood | backend-python/observability_history.py:143-163 | making a pruned bucket whole changes no number and supplies every field the section's samples need |
| TelemetrySamples.SampleRecords | backend-python/observability_history.py:143-322 | every sample of every kind can be recorded into whatever a flush has left |
| TelemetrySamples.RequestCountsOnce | backend-python/observability_history.py:166-181 | a request raises the request counter by one and no other sample touches it |
| TelemetrySamples.PresencePeaks | backend-python/observability_history.py:266-275 | a presence sample raises the peak to at least its count and no other sample touches it |
| TelemetryFlush.StepConserves | backend-python/observability_history.py:402-440 | no step of a flush changes what is held; recording changes it by exactly the sample |
| TelemetryFlush.Conserved | backend-python/observability_history.py:166-440 | along every interleaving saved plus pending, less what is in doubt, is the total recorded; for a maximum the larger of the two is the greatest recorded |
| TelemetryFlush.NothingRefused | backend-python/observability_history.py:143-163 | in every reachable state every sample can be recorded |
| TelemetryFlush.QuietBalance | backend-python/observability_history.py:402-440 | with no write in doubt saved and pending share every counter without overlap |
| TelemetryFlush.EveryRequestOnce | backend-python/observability_history.py:166-440 | the request counter, saved and pending together, is the number of requests |
| TelemetryFlush.BusiestKept | backend-python/observability_history.py:266-275 | what is recorded at the presence peak is the greatest count seen |
| TelemetryMeaning.SampleMeans | backend-python/observability_history.py:166-322 | recording a sample moves every number, at every path, by what its table entry says: status families by the status, cloudflare or local, tokens, labels, the least latency bound not exceeded, rows of route, release, channel and metric, maxima to the reading; and no other number |
| TelemetryMeaning.SlotFalls | backend-python/observability_history.py:58-78 | the slot of a value is the least bound that it does not exceed, or the last one beyond all bounds |
| TelemetryMeaning.TotalMeans | backend-python/observability_history.py:166-322 | along every run the total at a counter is the sum of what the recorded samples add there, at a maximum the greatest of their readings |
| TelemetryMeaning.EveryNumberTold | backend-python/observability_history.py:166-440 | at rest every counter, saved and pending together, is the sum over the recorded samples, and every maximum the greatest reading |
| TelemetryMeaning.FamiliesTold | backend-python/observability_history.py:178-180 | at rest each of the three status counters is the number of requests recorded with a status of its hundred |
| TelemetryMeaning.AnswersTold | backend-python/observability_history.py:218-262 | at rest the provider and local counters and both token sums are those of the recorded answers |
| TelemetryMeaning.OnlineAndErrorsTold | backend-python/observability_history.py:266-322 | at rest the online sum and the browser error counter are those of the recorded samples |
| TelemetryMeaning.TrafficTold | backend-python/observability_history.py:185-216 | at rest the requests and server errors of any one route or release are those recorded for it |
| TelemetryMeaning.LatencyTold | backend-python/observability_history.py:58-78 | at rest each latency slot is the number of requests that fall into it |
| TelemetryMeaning.SlowestTold | backend-python/observability_history.py:166-216 | at rest the latency maximum, altogether and of any route, is the slowest request recorded |
| TelemetryStore.SubtractDelta | backend-python/observability_history.py:329-349 | the key-by-key loop computes the specified difference |
| TelemetryStore.MergeNumeric | backend-python/observability_history.py:495-505 | the key-by-key loop computes the specified merge |
| TelemetryStore.MongoUpdate | backend-python/observability_history.py:352-371 | the walk lists exactly the counters that are not zero and the positive maxima, by full path |
| TelemetryStore.UpdateIsWrite | backend-python/observability_history.py:352-371 | adding and raising what the walk listed writes the whole snapshot |
| TelemetryStore.Aggregator.RecordSample | backend-python/observability_history.py:166-322 | recording never misses a field, moves every pending number of its bucket by exactly what the sample adds to it or raises it to, touches no other bucket, and is one step of the interleaved run |
| TelemetryStore.Aggregator.FlushPending | backend-python/observability_history.py:402-440 | true means everything pending at the start is saved, once, whatever was recorded meanwhile |

## Left out

- Chess rules, SAN, FEN and the evaluation tables: the game is abstract, with any legal moves, any integer evaluation and any verdict on a move.
- Search.Minimax: exactness is stated for roots whose boards are told apart; that this is necessary is proved for the games of `Transposition`, not for every game, since pruning may hide a confusion.
- `get_cpu_move` and `analyze_move` (`backend-python/chess_ai.py:618-681`): random choice among moves and payloads.
- Payload builders, `score_root_move` and `top_root_candidates` in `engine_analysis.py`: single calls of what is modelled.
- Scores are compared as the source compares them, but its separate `-inf` and `inf` floats are the two infinite scores here.
- SHA-256 and xorshift bit patterns: arbitrary keys and words. Revision digests and layout hashes are not modelled.
- TargetWalkableCount: the open ratio is a float product; its rounded result is the parameter `density`, of which nothing is assumed.
- Materialize.MaterializeRecipe: the order of relocatable enemies by id is the parameter `order`; whether content varies is a flag of the enemy; anchors are required to lie inside the grid.
- proceduralize_chronicles_manifest and the choice of recipe for a manifest: which area is materialised, not how.
- TopologyGate.Evaluate: a ragged grid or a start that is no pair of integers cannot be written in the model; ratios are compared as fractions.
- compare_chronicles_topology: thresholds between two evaluations, single branches.
- TopologyGate.MaterializedAccepted: generated layouts never have more than half dead ends, but corridors to authored anchors may add some, so the ratio of a materialised area is left as a condition.
- MapCode: ASCII only; other digits and whitespace that Python accepts are not modelled.
- Roster, ratings, lobby chat, head-to-head and cooldown reads: plain queries. Checks before accepting that nobody is playing are reads that a client may fail at, which the model allows at any point.
- `pair_key` uniqueness when creating challenges: the model allows more challenges than the index does.
- Matches without a `challenge_id`, and `delete_user_data`: not part of the saga's invariant.
- AcceptSaga.Store.CreateChallenge: the pair index and the reuse of an existing pending challenge are not modelled.
- Rating settlement after a match: its guard and the floating-point formula are outside the model.
- MatchLifecycle.DecisionKeeps: a disconnect forfeit is decided on the presence in the snapshot; presence written since does not stop it, as in the source.
- MatchRequests.Server.PlayMove: malformed squares and rejected payloads end before the first store call and are not modelled.
- Storage retries and timeouts of the hand-off helpers: a failed call is a client that stops.
- Telemetry values are real numbers, so integers and floats are one kind; text clipping of labels is not modelled, and labels are UTF-8 bytes.
- Flush order: buckets are flushed in any order, of which sorted order is one. Losing the process loses what is pending, as in the source.
- Summaries and percentiles over the merged history, and the admin pages.
- HTTP routing, authentication, logging, database drivers and locks: a lock is the atomicity of a step.
