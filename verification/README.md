# The zone-map layout engine, its validator, and three neighbours

This project models the part of Ellmud that draws zone maps, and proves what it promises.

**The layout engine** (`computeLayout.ts`) turns a graph of rooms with compass exits into grid
positions. It places rooms by breadth-first search with collision search and rigid grid blocks, then
runs a long pipeline of local repairs: relaxation, swaps, diagonal cascades, direction repair,
alignment by union-find and domino pushes, crossing removal by single moves and by row or column
insertion, occlusion repair, and rigid group shifts. All of it works on two mutable structures,
the position of every room and the set of occupied cells of every floor, with hand-written undo.
Here they are the fields of `Boards.Board`, and each phase is a method on it.

**The topology validator** (`validateZoneTopology.ts`) decides whether a zone can be drawn at all,
up to its floors: a zone whose rooms are all reached can be drawn if and only if the validator accepts it,
its exits stay inside, and its rooms can be given floors that fit its exits (`Drawability.DrawableIff`).
The main theorem joins the two: for a zone that can be drawn the engine returns exactly the
validator's positions (`LayoutEngine.LayoutOfValidZone`). It rests on three results: placement follows
every embedding, a layout has score zero exactly when every exit is one step, and every phase is the
identity on such a layout. On every other zone the repair phases are proved, while the two
structures agree, to run until none of the moves they try would lower their score or count, or until
their cap: what a phase may try is a set of layouts, and its methods return either one of these below
the bound or the proof that there is none.

**Three neighbours**: the connection protocol of the load-test harness as atomic steps between awaits,
the translation of SGR escapes (section 8.3.117 of ECMA-48) to tags and segments, and the container
operations of the item system.

## How the files fit together

| file | about |
|---|---|
| `Sums`, `Zones` | finite sums; rooms, exits, directions, insertion-ordered room maps |
| `Diamond`, `Grid`, `FullGrids`, `Placement` | nearest-cell searches, grid clusters and what becomes of a full grid, phases 1 to 3 |
| `Scores`, `Guards`, `Segments`, `Isomorphism`, `VisualPaths` | the scores and counts the phases compare, and what they keep |
| `Measures` | what these scores and counts count, said of exits, rooms and cells alone |
| `Boards` | the two mutable structures, their agreement, tentative moves and undo |
| `Relax`, `Cascades`, `Violations` | phases 4, 5 and 5b |
| `AxisGroups`, `Dominoes`, `Align`, `AlignExamples` | union-find, alignment groups, domino pushes, phase 5c; floors with one group to align |
| `Crossings`, `Insertions` | phases 5d, 5e and the pass that phase 9 repeats |
| `Occlusions`, `Expansion` | phases 6 and 8, phase 7 |
| `Candidates`, `Orders` | which cells, shifts and groups the phases try and refuse, said of positions alone; in which order |
| `Rests` | which moves, written out on cells, no longer help where a phase ends |
| `Validator`, `Drawability`, `LayoutEngine` | the validator; what its verdict means; the pipeline and the main theorem |
| `Connections`, `Closing`, `Harness` | the protocol as a state machine over values, what closing leaves of it, and the protocol as mutable objects |
| `Ansi`, `Numerals`, `Tags`, `Stripping`, `Containers` | the text translation; what codes and tags are and mean; shown text against stripped text; container operations |

A map of the original is modelled as an insertion-ordered sequence with a finite map, because the
phases iterate in that order. Cell keys are pairs of integers. Self-loop exits, exits to unknown
rooms and unknown directions are all allowed. The search radius is a parameter `R`.

## Where the code and its description differ

The model follows the code.

- The validator's `delta` is documented as the distance of the most divergent positions; the code
  measures from the room's own position only. The two differ by at most a factor of two, do differ, and
  are the same exactly when that position lies at an end of the widest spread (`Validator.DeltaBoundsPairs`,
  `Validator.ValidateTangled`, `Validator.DeltaIsLargestIff`).
- Validator conflicts compare x and y, never z, so a zone that cannot be drawn can be accepted
  (`Drawability.SlantedIsAccepted`); an accepted, covered zone can be drawn exactly when floors fit it
  (`Drawability.DrawableIff`).
- The swap guard counts exits between the two swapped rooms twice; the move guard treats a self-loop as
  half repaired by any move along its axis. Both accept moves that leave more mismatches
  (`Guards.SwapGuardErrs`, `Guards.MoveGuardErrs`); when they are right is exact
  (`Guards.SwapVerdictRight`, `Guards.MoveVerdictRight`).
- Cardinal alignment is described as accepting a shift that lowers the layout score; the code compares
  the number of misaligned rooms, and the score can rise (`AlignExamples.AlignCorner`). Its batch is
  sorted to avoid collisions among its own rooms; with outliers on both sides they collide all the same,
  since a push can find a room that is off the occupied cells but still in the layout
  (`AlignExamples.AlignRow`, `Dominoes.ExactIffClean`).
- Expansion is described as shifting by one cell; the code also tries two (`Expansion.HeldMeans`).
- The last two shifts of a direction repair are described as going in the correct direction; for exits to
  the west and north whose target lies strictly on the wrong side they go the other way
  (`Candidates.RepairShiftsAstray`).
- A reconnect counts as a success even if the user was closed while it was joining
  (`Connections.SuccessesOvercount`, `Connections.SuccessWithoutRoom`).
- Stripping removes unknown tags, which the parser shows as text, and leaves known ones with a trailing
  slash, which the parser consumes; otherwise what is shown is what is left, unless removing a tag
  completes another (`Stripping.UnknownTagIsShown`, `Stripping.SlashedTagIsLeft`,
  `Stripping.ShownIsStripped`, `Stripping.StrayCompleted`).
- Removing a negative quantity adds items, past any weight limit (`Containers.NegativeRemovalAdds`,
  `Containers.NegativeRemovalOverloads`).

## Model

| member | source | states |
|---|---|---|
| LayoutEngine.LayoutOfValidZone | packages/client/src/map/computeLayout.ts:399-1000 | A zone whose rooms are all reached can be drawn exactly when the validator accepts it, its exits stay inside and its rooms can be given floors that fit (without up and down exits the verdict and the exits decide); the engine then returns exactly the positions the validator computed, and no floor of them has a visual crossing for phase 10 to resolve |
| Drawability.DrawableIff | packages/client/src/map/validateZoneTopology.ts:60-163 | A zone whose rooms are all reached has a map that satisfies every exit with distinct cells if and only if there is no conflict and no collision, the exits stay inside and fitting floors exist |
| Drawability.DrawableIsAccepted | packages/client/src/map/validateZoneTopology.ts:74-137 | A zone that has such a map is accepted, whatever part of it is reached, its exits stay inside and its floors fit |
| Drawability.CardinalDrawableIff | packages/client/src/map/validateZoneTopology.ts:44-51 | Without up and down exits a covered zone can be drawn exactly when it is accepted |
| Drawability.MapIsShifted | packages/client/src/map/validateZoneTopology.ts:74-137 | Every map of a zone is the one the search built, shifted |
| Drawability.LevelsAgreeIff | packages/client/src/map/validateZoneTopology.ts:94-96 | The floors of the computed positions agree with all exits exactly when the zone alone admits floors on which every exit changes the floor as its direction says |
| LayoutEngine.ComputeLayout | packages/client/src/map/computeLayout.ts:858-964 | Phases 1 to 9 in their order, each run to its own end: every room of the zone and no other is in the result, no phase after placement changes a room's floor, each group of phases keeps what it promises, and for every map that satisfies all exits with distinct cells the result is that map |
| Drawability.AcceptedIsEmbedding | packages/client/src/map/validateZoneTopology.ts:74-137 | Positions the validator accepts satisfy every exit of the zone, are distinct, and every room is reachable from the entry |
| Drawability.CardinalLevels | packages/client/src/map/validateZoneTopology.ts:44-51 | Without up and down exits every reachable room is on floor 0, so the floors agree |
| Drawability.SlantedIsAccepted | packages/client/src/map/validateZoneTopology.ts:94-96 | A zone of three rooms that the validator accepts although no floors fit it, so that it cannot be drawn |
| LayoutEngine.EmbeddingIsPerfect | packages/client/src/map/computeLayout.ts:1009-1058 | A layout that satisfies every exit by one step is perfect on every floor, so every later phase finds nothing to do |
| LayoutEngine.PerfectLooksClear | packages/client/src/map/computeLayout.ts:967-998 | A perfect floor has no crossing in visual mode either, so the last phase leaves it alone |
| LayoutEngine.FinalStep | packages/client/src/map/computeLayout.ts:943-962 | One round of phase 9 is an insertion, the occlusion fix after it, and the floor put back exactly when that leaves more than two new occlusions on it |
| LayoutEngine.FinalFloor | packages/client/src/map/computeLayout.ts:939-963 | Phase 9 on one floor: rounds follow one another until there is no crossing, a round stops or the cap is reached; new occlusions are bounded, and nothing happens on a floor without crossings |
| LayoutEngine.SpaceOut | packages/client/src/map/computeLayout.ts:915-930 | Phases 6 to 8 alternate as the source has them, never raise a floor's heavy score and keep agreement |
| Diamond.DiamondCandidates | packages/client/src/map/computeLayout.ts:164-180 | The generator yields the rings in order, and each ring column by column |
| Diamond.RingMembers | packages/client/src/map/computeLayout.ts:164-180 | The ring at distance r holds exactly the cells r steps away, each once |
| Diamond.RingsSize | packages/client/src/map/computeLayout.ts:164-180 | The rings 1 to R around a cell hold 2R^2 + 2R cells |
| Diamond.FindNearestUnoccupied | packages/client/src/map/computeLayout.ts:192-206 | Returns a free cell of least distance whenever one lies within the radius, and the asked cell otherwise |
| Diamond.FreeCellExists | packages/client/src/map/computeLayout.ts:192-206 | Below 2R^2 + 2R + 1 occupied cells the search succeeds |
| Diamond.FindNearestDirectional | packages/client/src/map/computeLayout.ts:217-275 | Returns the asked cell if it is free and off the exit lines; otherwise the nearest ring with an eligible free cell decides, cells off exit lines first and then the one furthest along the exit |
| Diamond.DirectionalSearchSucceeds | packages/client/src/map/computeLayout.ts:217-275 | Below (R+1)^2 occupied cells the result is a free cell strictly on the exit's side of the parent, with or without exit-line cells |
| Candidates.SearchSide | packages/client/src/map/computeLayout.ts:230-236 | The cells taken lie on the exit's side of the parent, and among them distance along the exit decides |
| Grid.FloodFill | packages/client/src/map/computeLayout.ts:335-366 | One flood fill gives distinct relative cells to distinct grid rooms, each led to from an earlier one; no exit of theirs leads to another grid room on a free relative cell; it follows every map that satisfies the exits |
| Grid.AddCluster | packages/client/src/map/computeLayout.ts:368-374 | A later cluster overwrites rooms of an earlier one and nothing else |
| Grid.OverwrittenInjective | packages/client/src/map/computeLayout.ts:368-374 | Relative cells stay distinct within every cluster after overwriting |
| Grid.DetectGridClusters | packages/client/src/map/computeLayout.ts:324-378 | Every cluster is a flood fill of at least nine rooms, written over the earlier ones; a room with the grid property is in no cluster only if its own fill is smaller; relative cells are distinct within a cluster and agree with every map that satisfies the exits |
| FullGrids.GridPropertyIff | packages/client/src/map/computeLayout.ts:292-314 | A room has the grid property exactly when two walks of two steps from it, one to the north or south and then east or west, the other in the other order, end in one room; each step takes the room's first exit in its direction, to a room with a name |
| FullGrids.FullGridIsCluster | packages/client/src/map/computeLayout.ts:324-378 | A full grid of at least three columns and rows, whose rooms no other room leads to, is one cluster of exactly its rooms, each at its own offset, whatever else the zone holds and in whatever order rooms and exits come |
| FullGrids.DetectFullGrid | packages/client/src/map/computeLayout.ts:324-378 | Detection on such a zone finds it |
| Placement.FreeShiftExists | packages/client/src/map/computeLayout.ts:476-504 | A block has a free shift within the radius when occupied cells times members stay below 2R^2 + 2R + 1 |
| Placement.PlaceGridCluster | packages/client/src/map/computeLayout.ts:455-516 | The whole block goes down rigidly, unshifted if that is free, otherwise by the first shift that is; it lands on free cells exactly when some shift within the radius would |
| Placement.PlaceMembers | packages/client/src/map/computeLayout.ts:506-513 | Every member lands on its target and nothing else moves; the cells stay exact |
| Placement.UpdateExitLines | packages/client/src/map/computeLayout.ts:539-568 | Adds exactly the free cells strictly inside straight exits of the placed room to placed neighbours |
| Placement.VisitExit | packages/client/src/map/computeLayout.ts:600-658 | One exit in the search: nothing to do, a floor to be visited later, a cluster as near as a shift takes it, or one room at what the directional search finds, with the exit lines that follow; an embedding is followed |
| Placement.Bfs | packages/client/src/map/computeLayout.ts:523-661 | The search is a run of such steps over a first-in first-out queue from the start room; it ends, places only new rooms, keeps the occupied cells exact, and leaves no exit of a placed room unsettled |
| Placement.PlaceDeferred | packages/client/src/map/computeLayout.ts:668-692 | Deferred exits are worked off first come, first served: one is passed over exactly if its target has a place by then, otherwise a search starts from the target at the cell of its source on its own floor, and the exits it defers join the end; the rounds end |
| Placement.PlaceDisconnected | packages/client/src/map/computeLayout.ts:694-705 | Every room of the zone is placed in the end; each search starts three columns past the rightmost room |
| Placement.PlaceRooms | packages/client/src/map/computeLayout.ts:399-705 | Phases 1 to 3: all rooms placed, occupied sets exact, no overlap when the radius is large enough for the zone, and an embedding reached from the entry is reproduced exactly |
| Boards.AppliedAgrees | packages/client/src/map/computeLayout.ts:1771-1778 | Moving a set of rooms onto distinct cells that are free or vacated keeps the occupied set equal to the rooms' cells, without overlap |
| Boards.AppliedBack | packages/client/src/map/computeLayout.ts:1785-1792 | Undoing such a move restores the layout, and the occupied cells if they agreed |
| Boards.SwappedAgrees | packages/client/src/map/computeLayout.ts:1540-1548 | Swapping two rooms keeps agreement although the occupied set is not touched |
| Boards.ShiftedAgrees | packages/client/src/map/computeLayout.ts:3000-3024 | A row or column insertion keeps agreement |
| Boards.ShiftedClears | packages/client/src/map/computeLayout.ts:3000-3024 | The inserted row or column is empty |
| Boards.Board.Relocate | packages/client/src/map/computeLayout.ts:1771-1778 | Clear all the old cells, then set all the new ones: the result is the simultaneous move |
| Boards.Board.TryRelocate | packages/client/src/map/computeLayout.ts:1771-1793 | A tentative move of several rooms is kept exactly when it brings the score below the bound, and is otherwise undone |
| Boards.Board.TryMove | packages/client/src/map/computeLayout.ts:1518-1531 | The same for one room and a free cell |
| Boards.Board.TrySwap | packages/client/src/map/computeLayout.ts:1540-1548 | The same for exchanging two rooms |
| Scores.ScoreZeroIffPerfect | packages/client/src/map/computeLayout.ts:1009-1126 | Either score is never negative, and zero exactly when every cardinal exit of the floor is one step in its direction |
| Measures.ScoreIsWeighted | packages/client/src/map/computeLayout.ts:1009-1058 | The layout score is the steps beyond the first over all cardinal exits of the floor, 20 for each diagonal, 50 for each direction mismatch, and the weight for each occlusion |
| Measures.TwoWeights | packages/client/src/map/computeLayout.ts:66-76 | The light weight is 3, and the heavy score exceeds the light one by 12 for each occlusion |
| Measures.RelaxationIsWeighted | packages/client/src/map/computeLayout.ts:1069-1120 | The relaxation score weighs a diagonal by how far it ends off its axis instead, and is otherwise the light score |
| Measures.DiagonalsCount | packages/client/src/map/computeLayout.ts:1463-1482 | The diagonals are the cardinal exits of the floor that run neither along a row nor along a column |
| Measures.MismatchesCount | packages/client/src/map/computeLayout.ts:1896-1916 | The mismatches are the cardinal exits of the floor whose target does not stand strictly on the side their direction names |
| Measures.OcclusionsCount | packages/client/src/map/computeLayout.ts:2849-2881 | The occlusions are the pairs of a cardinal exit and a room of the floor that stands strictly between its ends |
| Scores.BlockersSwap | packages/client/src/map/computeLayout.ts:1040-1053 | A swap leaves the number of rooms on an exit of two other rooms alone |
| Scores.AffectedRooms | packages/client/src/map/computeLayout.ts:1182-1204 | Exactly the changed rooms and the rooms of the floor that share a cardinal exit with one |
| Scores.SumContributions | packages/client/src/map/computeLayout.ts:1210-1221 | The sum of the rooms' exit costs |
| Scores.SwapDeltaExact | packages/client/src/map/computeLayout.ts:1127-1221 | For any two rooms and either score the change over the affected rooms is the change of the whole score |
| Scores.ScoreFrame | packages/client/src/map/computeLayout.ts:1009-1058 | A floor's score, mismatches and diagonals depend on that floor only |
| Guards.MoveGuardExact | packages/client/src/map/computeLayout.ts:724-787 | The move guard's local difference is the floor's difference in direction mismatches less a slack that only self-loops contribute |
| Guards.SwapGuardExact | packages/client/src/map/computeLayout.ts:844-861 | The swap guard's difference is the floor's difference plus that of the exits between the two rooms, which it counts twice |
| Guards.SwapGuardSound | packages/client/src/map/computeLayout.ts:844-861 | Without such exits the swap guard refuses exactly the swaps that raise the floor's mismatches |
| Guards.AlignmentGuardExact | packages/client/src/map/computeLayout.ts:795-842 | A move passes the alignment guard exactly when every cardinal exit of the room, either way, that was one step long and on its axis is still on its axis |
| Guards.MoveVerdictRight | packages/client/src/map/computeLayout.ts:776-787 | The move guard is right if and only if its own difference is positive, or still not positive with the slack added |
| Guards.SwapVerdictRight | packages/client/src/map/computeLayout.ts:844-861 | The swap guard is right if and only if its difference is positive exactly when it exceeds that of the exits between the two rooms |
| Guards.SwapGuardErrs | packages/client/src/map/computeLayout.ts:844-861 | Three rooms in a row on which the guard accepts a swap that leaves one mismatch more |
| Guards.MoveGuardErrs | packages/client/src/map/computeLayout.ts:776-787 | A room with a self-loop whose guard accepts a move that leaves one mismatch more |
| Relax.BestMove | packages/client/src/map/computeLayout.ts:1304-1328 | Every trial is taken back, and the reported candidate is the allowed one of least score below the bound |
| Candidates.ExitsInOrder | packages/client/src/map/computeLayout.ts:1892-1915 | A room's cardinal exits are taken in the order of its direction map, |
| Candidates.RoomsInOrder | packages/client/src/map/computeLayout.ts:1892-1915 | those of several rooms in the order of the rooms, |
| Candidates.FloorInOrder | packages/client/src/map/computeLayout.ts:1348-1356 | and the rooms of a floor in the order in which they were placed |
| Candidates.AllowedWhenAligned | packages/client/src/map/computeLayout.ts:1304-1310 | In phase 4 a cell is allowed exactly when it is free, another one, the room's mismatches do not grow and its exits of one step stay on their axes; the repairs of phase 5 are guarded likewise |
| Candidates.AllowedWhenStraight | packages/client/src/map/computeLayout.ts:3264-3271 | In phases 6 and 8 the last condition is that every exit of the room runs along a row or a column from the cell |
| Candidates.SwappedWhen | packages/client/src/map/computeLayout.ts:3311-3321 | A swap is allowed exactly when the guard's difference is not positive, and there also when the exits of both rooms run along rows and columns from their new cells |
| Candidates.WantsAreWanted | packages/client/src/map/computeLayout.ts:1239-1248 | Every exit to a room of the floor wants the one cell from which it leads one step in its direction |
| Candidates.IdealIsMean | packages/client/src/map/computeLayout.ts:1227-1252 | The ideal position is the mean of these cells, each coordinate rounded to the nearest whole number and halves up, and there is one exactly when there are such cells |
| Candidates.Limits | packages/client/src/map/computeLayout.ts:59-160 | The radii, the caps on passes and groups, the gap between subgraphs and the least size of a cluster |
| Relax.MoveToBest | packages/client/src/map/computeLayout.ts:1304-1336 | The room moves to the best allowed cell, or no allowed cell is better; the returned score is the floor's |
| Relax.RelaxRooms | packages/client/src/map/computeLayout.ts:1259-1340 | The returned score never rises, falls exactly when a room moved and is then the floor's score; when none moved every room is at rest; without self-loops mismatches never rise |
| Relax.MoveRounds | packages/client/src/map/computeLayout.ts:1358-1362 | Each round lowers the score, so relaxation ends even without its cap, with every room at rest unless the score is zero or the cap was reached |
| Relax.TrySwapByDelta | packages/client/src/map/computeLayout.ts:1388-1416 | The running score changes by exactly the floor's difference, the snapshot stays exact, and the swap is kept exactly when the floor's score falls |
| Relax.SwapRound | packages/client/src/map/computeLayout.ts:1378-1418 | Over all pairs: the running score stays exact up to its starting error, and a round without a swap leaves no better one |
| Relax.RelaxationScoreAbove | packages/client/src/map/computeLayout.ts:1069-1120 | The relaxation score is the layout score plus an excess, which is zero exactly when every diagonal exit ends at most one step off its axis |
| Relax.RelaxFloor | packages/client/src/map/computeLayout.ts:1348-1433 | A perfect floor is left alone; otherwise rounds of moves lower the relaxation score until every room is at rest, and rounds of swaps then lower the layout score until no swap is better, each up to its cap; in all the layout score rises by the excess of the start at most |
| Rests.RoomAtRest | packages/client/src/map/computeLayout.ts:1259-1340 | At rest no room away from its ideal position has a better free cell up to four cells from there, or two from a cell it is wanted at, that adds no mismatch and keeps its exits of one step on their axes |
| Relax.ForceDirectedRelax | packages/client/src/map/computeLayout.ts:1348-1433 | Phase 4 does that on the floors in turn, and keeps rooms, floors and agreement |
| Cascades.FlaggedCount | packages/client/src/map/computeLayout.ts:1463-1482 | The list of exits to repair holds as many exits as the floor's count of them |
| Candidates.EndsStraighten | packages/client/src/map/computeLayout.ts:1495-1507 | Strategy 1 brings either end of a diagonal onto the other's row or column, where it keeps its place along the exit |
| Candidates.PairStraightens | packages/client/src/map/computeLayout.ts:1582-1600 | Strategy 2 brings both ends onto one line across the exit: that of either end, or the rounded middle |
| Candidates.TakenAlong | packages/client/src/map/computeLayout.ts:1688-1719 | Strategy 3 takes along the neighbour of an exit of one step that would become diagonal, lead to the wrong side or grow longer than two |
| Candidates.ShiftsTried | packages/client/src/map/computeLayout.ts:1646-1663 | It first tries the shift that brings the room in line, and then -1, 1, -2 and 2, each once |
| Cascades.Displace | packages/client/src/map/computeLayout.ts:1550-1575 | Among the free cells near the occupant the first that brings the score below the bound is taken; if it returns without one, there is none and nothing has changed |
| Cascades.MoveEndpoint | packages/client/src/map/computeLayout.ts:1510-1577 | Strategy 1 finds a move, swap or displacement of an endpoint below the bound exactly when the guards leave one, and otherwise changes nothing |
| Cascades.MovePair | packages/client/src/map/computeLayout.ts:1590-1639 | Strategy 2 does the same for both endpoints, onto cells that are free or the pair's own |
| Cascades.PushSet | packages/client/src/map/computeLayout.ts:1669-1731 | The push set is the least one that holds the start room, every neighbour one of its rooms would disturb and every room on a cell it enters, or is larger than the cap |
| Cascades.PushFound | packages/client/src/map/computeLayout.ts:1669-1793 | There is at most one push to try for a room and a shift, that of the set found |
| Cascades.TryPush | packages/client/src/map/computeLayout.ts:1733-1793 | Strategy 3 moves exactly the push set, and does so exactly when that brings the score below the bound |
| Cascades.CascadePass | packages/client/src/map/computeLayout.ts:1454-1798 | A pass without a move shows that no move of any strategy for any diagonal exit lowers the score |
| Cascades.CascadeDiagonals | packages/client/src/map/computeLayout.ts:1454-1798 | Each pass lowers the layout score, and short of the cap the last state is a local optimum of all three strategies; without diagonals nothing moves |
| Rests.DiagonalEndAtRest | packages/client/src/map/computeLayout.ts:1510-1531 | In that optimum no end of a diagonal is better moved onto the free cell on the other's row or column, unless a guard forbids it, |
| Rests.DiagonalSwapAtRest | packages/client/src/map/computeLayout.ts:1534-1548 | nor swapped with the room that is there, |
| Rests.DiagonalDisplaceAtRest | packages/client/src/map/computeLayout.ts:1550-1575 | nor put there with that room displaced to a free cell up to five cells away, |
| Rests.DiagonalPairAtRest | packages/client/src/map/computeLayout.ts:1590-1639 | nor are both ends better brought onto one line, |
| Rests.DiagonalPushAtRest | packages/client/src/map/computeLayout.ts:1646-1793 | nor is a group that an end leads better pushed into line or by one or two steps |
| Cascades.FixDiagonalFloor | packages/client/src/map/computeLayout.ts:1446-1872 | The cascade ends in such a local optimum, and the relaxation after it lowers the relaxation score until every room is at rest |
| Violations.LocalExact | packages/client/src/map/computeLayout.ts:1975-1983 | Counted at the true positions before and after a move, the local difference in mismatches is the floor's, self-loops included |
| Violations.MoveToSide | packages/client/src/map/computeLayout.ts:1943-1997 | Strategy 1 moves an endpoint to a free cell on the right side that lowers the floor's mismatches and brings the score below the bound, exactly when there is one nearby that the guard allows |
| Candidates.RepairIdeal | packages/client/src/map/computeLayout.ts:1941-1942 | Cells are tried around the one that is one step from the other end in the exit's direction |
| Candidates.RepairSide | packages/client/src/map/computeLayout.ts:1943-1956 | Only cells on the right side of the other end are tried, whichever end moves |
| Candidates.RepairPulls | packages/client/src/map/computeLayout.ts:2091-2108 | A shifted group takes along the target of an exit that would become diagonal or lead to the wrong side |
| Candidates.RepairShifts | packages/client/src/map/computeLayout.ts:2055-2063 | The first shift brings the target one step past the source, the second one further, and the last two are one and two steps |
| Candidates.RepairShiftsAstray | packages/client/src/map/computeLayout.ts:2056-2058 | These last two go the exit's way exactly if it leads east or south or the target is level with the source |
| Violations.SwapNear | packages/client/src/map/computeLayout.ts:2002-2049 | Strategy 2 swaps with a third room near the ideal cell exactly when the guards allow one that brings the score below the bound |
| Violations.ShiftGroup | packages/client/src/map/computeLayout.ts:2066-2117 | The group is the least one that holds the target and every room one of its rooms collides with or would leave diagonal or violated, never the source, or is larger than the cap |
| Violations.TryShift | packages/client/src/map/computeLayout.ts:2119-2175 | Strategy 3 moves exactly the group onto free or vacated cells, and does so exactly when that brings the score below the bound |
| Violations.RepairPass | packages/client/src/map/computeLayout.ts:1893-2180 | A pass without a move shows that no move of any strategy for any violated exit lowers the score |
| Violations.FixDirectionViolations | packages/client/src/map/computeLayout.ts:1886-2182 | Phase 5b never raises a floor's layout score, keeps agreement, and leaves each floor in a local optimum of its strategies, short of the cap |
| Rests.MismatchEndAtRest | packages/client/src/map/computeLayout.ts:1932-1987 | In that optimum no end of a mismatched exit is better moved to a free cell on the right side, up to ten cells from where the exit is one step long, at which there are fewer mismatches and its exits of one step stay on their axes, |
| Rests.MismatchSwapAtRest | packages/client/src/map/computeLayout.ts:1991-2044 | nor better swapped with another room up to four cells from there, as long as mismatches do not grow and exits of one step stay on their axes |
| AxisGroups.UfFind | packages/client/src/map/computeLayout.ts:2228-2238 | Find ends on the parent forest, returns the root, and its path compression keeps every class |
| AxisGroups.UfUnion | packages/client/src/map/computeLayout.ts:2239-2242 | Union merges exactly the two classes |
| AxisGroups.UnionAll | packages/client/src/map/computeLayout.ts:2224-2253 | The classes are exactly the connected components of the undirected east/west (or north/south) exit relation of the floor |
| AxisGroups.BuildAxisGroup | packages/client/src/map/computeLayout.ts:2816-2846 | The breadth-first search finds exactly the rooms connected to the seed |
| AxisGroups.ClassIsGroup | packages/client/src/map/computeLayout.ts:2816-2846 | The union-find class of a room is the group found from it |
| Align.ModeCoord | packages/client/src/map/computeLayout.ts:2279-2291 | The target is the first of the most common coordinates in the order of the group |
| Align.Cascade | packages/client/src/map/computeLayout.ts:2303-2365 | The cascade of an outlier is the least set with the outlier and, for each of its rooms, the whole class of every neighbour along the other axis outside the outlier's own class |
| Candidates.AxesAre | packages/client/src/map/computeLayout.ts:2219-2268 | East and west exits join a row and are aligned by y, north and south exits join a column and are aligned by x |
| Candidates.MisalignedIs | packages/client/src/map/computeLayout.ts:2380-2390 | What is counted are the rooms of a group that do not share its first room's coordinate |
| Candidates.DraggedAre | packages/client/src/map/computeLayout.ts:2308-2362 | Along the exits of the other axis, either way, a moved room drags whole groups along, but none of its own |
| Candidates.BatchMoves | packages/client/src/map/computeLayout.ts:2437-2442 | Every room of a batch moves by its distance across the axis only |
| Orders.LargestGroupsFirst | packages/client/src/map/computeLayout.ts:2274-2276 | The groups of more than one room take their turns by falling size, ties in the order of the map |
| Orders.FurthestFirst | packages/client/src/map/computeLayout.ts:2430-2435 | A batch comes back by falling coordinate in the push direction, ties in their order |
| Align.CollectBatch | packages/client/src/map/computeLayout.ts:2293-2370 | The batch is exactly the rooms some outlier reaches, each with the way of the first outlier that reaches it, and starts with the first outlier of the group |
| Align.ChainPush | packages/client/src/map/computeLayout.ts:2398-2420 | Pushing always ends, records the old cell of every room it moves, and does to the two structures what the recursive push does |
| Dominoes.PushIsDomino | packages/client/src/map/computeLayout.ts:2398-2420 | If no room it finds is off the board, a push moves exactly the contiguous run of occupants one step, loses no room and keeps the occupied set exact |
| Dominoes.LooseIsClear | packages/client/src/map/computeLayout.ts:2398-2420 | So it is if no room off the board stands on an occupied cell, as when only the pushed room is off it |
| Dominoes.ExactIffClean | packages/client/src/map/computeLayout.ts:2422-2442 | After all the pushes of a batch the occupied set is exact if and only if no push found a room of the batch that was yet to be put back |
| Align.ShiftBatch | packages/client/src/map/computeLayout.ts:2422-2442 | A batch goes off the board and comes back by domino pushes, the furthest first; an agreeing board agrees afterwards if and only if no push finds a batch room that is yet to be put back |
| AlignExamples.TrialUnique | packages/client/src/map/computeLayout.ts:2278-2442 | When no two rooms of the batch are equally far in the push direction, target, batch and outcome of a group's trial are determined |
| AlignExamples.LoneAligned | packages/client/src/map/computeLayout.ts:2215-2464 | On an agreeing floor with a single unaligned group whose trial aligns everything the phase ends in the outcome of that trial |
| AlignExamples.AlignRow | packages/client/src/map/computeLayout.ts:2215-2464 | A board whose group has outliers on both sides: aligning its rows leaves two rooms on one cell, so agreement ends |
| AlignExamples.AlignCorner | packages/client/src/map/computeLayout.ts:2203-2464 | A board on which aligning the rows raises the layout score from 45 to 53 |
| Align.Rollback | packages/client/src/map/computeLayout.ts:2446-2456 | The recorded cells restore the layout exactly |
| Align.UndoneAgrees | packages/client/src/map/computeLayout.ts:2446-2456 | After an undone shift the structures agree if and only if every occupied cell had a room before or has one after the shift, and no room that was not recorded shares its cell with one that was |
| Align.AlignGroup | packages/client/src/map/computeLayout.ts:2278-2460 | An aligned group is left alone; otherwise the batch of all outliers, on their way to the first most common coordinate, is shifted exactly when that leaves fewer rooms misaligned over all groups, and the layout is else exactly as before; agreement is kept exactly when that shift is clean, or its undoing mends the cells |
| Align.AlignedIffStraight | packages/client/src/map/computeLayout.ts:2379-2390 | The misalignment count is zero exactly when every exit of the axis keeps its row or column |
| Align.AgreementKept | packages/client/src/map/computeLayout.ts:2264-2464 | The turns of all groups over all passes stay in agreement if and only if every one of them is harmless: no change, a clean shift, or an undone one that mends |
| Align.OneSidedHarmless | packages/client/src/map/computeLayout.ts:2293-2460 | A turn is harmless when the outliers of the group lie on one side of the target |
| Align.AlignAxis | packages/client/src/map/computeLayout.ts:2215-2464 | The groups are the connected components, and the phase is a run of their turns; no room changes floor and other floors are untouched; each pass leaves fewer rooms misaligned, and short of the cap, if the run stays in agreement, every group is aligned or its trial would leave no fewer misaligned; a straight floor is left alone |
| Align.FixCardinalAlignment | packages/client/src/map/computeLayout.ts:2204-2209 | Phase 5c does that for the rows and then the columns of each floor, keeps rooms and floors, and leaves a perfect layout alone |
| Segments.PerfectIsClear | packages/client/src/map/computeLayout.ts:2616-2658 | A perfect floor has no crossing, no occlusion, no mismatch and no diagonal |
| Segments.CrossingsAnyLength | packages/client/src/map/computeLayout.ts:2630-2631 | Leaving out exits of length one does not change the number of crossings |
| Measures.CrossIffMeet | packages/client/src/map/computeLayout.ts:2485-2513 | Two segments cross exactly when one runs along a row, the other along a column and some cell lies strictly inside both, whichever comes first |
| Measures.CrossingsAreMeetings | packages/client/src/map/computeLayout.ts:2616-2658 | The crossings of a floor are the unordered pairs of pairs of rooms, each joined by a straight exit of two or more steps, whose lines have a common inner cell; so neither the order of the rooms nor that of the exits matters |
| Crossings.PairsAreCrossings | packages/client/src/map/computeLayout.ts:2673-2681 | The pairs collected are the crossings counted |
| Crossings.UntanglingIsClean | packages/client/src/map/computeLayout.ts:2732-2761 | A move that passes the guards adds no diagonal and, without self-loops, no mismatch |
| Candidates.StillCrossIff | packages/client/src/map/computeLayout.ts:2686-2707 | A listed pair is worked on exactly while both exits are straight and their lines meet |
| Candidates.UntangledWhen | packages/client/src/map/computeLayout.ts:2727-2761 | Exactly the free cells are tried from which every exit of the room, either way, runs along a row or a column, no mismatch is added and the exits of one step stay on their axes |
| Orders.FewestExitsFirst | packages/client/src/map/computeLayout.ts:2707-2717 | The four rooms of a crossing are tried by rising number of exits, ties in their order |
| Crossings.Untangle | packages/client/src/map/computeLayout.ts:2727-2782 | The first listed cell that lowers the crossings is taken; if none is, none does |
| Crossings.UntangleFloor | packages/client/src/map/computeLayout.ts:2668-2789 | Each counted pass removes a crossing, and short of the cap no crossing pair is left that a single allowed move could resolve |
| Rests.CrossingAtRest | packages/client/src/map/computeLayout.ts:2668-2789 | Short of that cap no end of two straight exits whose lines meet has a free cell up to six cells away with fewer crossings at which no guard objects |
| Crossings.FixEdgeCrossings | packages/client/src/map/computeLayout.ts:2668-2789 | Phase 5d does that on the floors in turn: no floor gains a diagonal or a crossing (nor, without self-loops, a mismatch), and agreement is kept |
| Isomorphism.InsertionKeepsDirections | packages/client/src/map/computeLayout.ts:3000-3024 | The partition shift leaves direction mismatches and diagonals unchanged |
| Isomorphism.InsertionKeepsOcclusions | packages/client/src/map/computeLayout.ts:2849-2881 | It leaves the number of occlusions unchanged |
| Isomorphism.InsertionKeepsCrossings | packages/client/src/map/computeLayout.ts:2616-2658 | It leaves the number of crossings unchanged, though exits of length one become longer |
| Insertions.ShiftIsInsertion | packages/client/src/map/computeLayout.ts:3000-3024 | Moving the rooms beyond the boundary is exactly the strictly monotone shift of the floor |
| Candidates.GroupDiagIff | packages/client/src/map/computeLayout.ts:3067-3095 | An insertion is refused for a diagonal exactly when an exit to or from a moved room runs neither along a row nor along a column |
| Candidates.CandidatesUncross | packages/client/src/map/computeLayout.ts:2936-2983 | Each of the four insertions opens its line just outside the crossed segment, and with the other segment moved there the two cross no more |
| Candidates.GroupsMoved | packages/client/src/map/computeLayout.ts:3028 | Into a row go the rooms joined by exits to the east and west, into a column those joined by exits to the north and south |
| Orders.ShortestJumpFirst | packages/client/src/map/computeLayout.ts:2986 | They are tried by rising distance of the jump, ties in their order |
| Insertions.GapMove | packages/client/src/map/computeLayout.ts:3030-3042 | Moving a group into the empty row or column keeps agreement exactly when its members have distinct coordinates on the other axis |
| Insertions.GroupsCanOverlap | packages/client/src/map/computeLayout.ts:3030-3042 | A group of two rooms that an insertion puts on one cell |
| Insertions.InsertedStraight | packages/client/src/map/computeLayout.ts:3000-3042 | Shift and group move keep a straight floor straight |
| Insertions.StraightIsSpread | packages/client/src/map/computeLayout.ts:3030-3042 | On a straight floor without overlap the group always has distinct coordinates on the other axis |
| Insertions.InsertedDiagonals | packages/client/src/map/computeLayout.ts:3071-3096 | Passing the diagonal check means that the floor has no more diagonals than before |
| Insertions.NeighbourhoodExact | packages/client/src/map/computeLayout.ts:3103-3151 | The mismatch difference over the neighbourhood is twice the floor's difference |
| Insertions.MismatchesBefore | packages/client/src/map/computeLayout.ts:3132-3148 | The old cells are put back to be counted, and the new ones after that |
| Insertions.TryInsertion | packages/client/src/map/computeLayout.ts:2990-3175 | A candidate is accepted exactly when the shift with the group in the gap has no diagonal at the group, fewer crossings than its pass began with, and new mismatches only in weighted mode with two crossings less for each; a rejected one leaves both structures exactly as before; agreement is kept exactly when the group is spread |
| Insertions.InsertForPair | packages/client/src/map/computeLayout.ts:2910-3175 | A pair is left as it was exactly when it no longer crosses or every insertion for it is refused |
| Insertions.InsertOnFloor | packages/client/src/map/computeLayout.ts:2886-3180 | Each pass leaves fewer crossings, and short of both caps no crossing pair is left that an insertion would resolve |
| Insertions.FixCrossingsByInsertion | packages/client/src/map/computeLayout.ts:2883-3182 | No floor gains a crossing or a diagonal, in strict mode no mismatch; some floor loses a crossing unless nothing changed; a single fix is worth its mismatches; agreement and straightness are kept together; the cap is respected |
| Occlusions.SingleMoves | packages/client/src/map/computeLayout.ts:3225-3298 | Strategy A: the running score is the floor's heavy score throughout, and falls until no room has a better cell or the passes run out |
| Occlusions.Swaps | packages/client/src/map/computeLayout.ts:3300-3353 | Strategy B: the running score is the floor's heavy score throughout, and falls until no swap is better or the rounds run out |
| Occlusions.OccludingRooms | packages/client/src/map/computeLayout.ts:3355-3403 | Exactly the rooms strictly inside a straight exit of two others |
| Candidates.OccludersAre | packages/client/src/map/computeLayout.ts:3362-3420 | These are the rooms that stand strictly between the ends of some cardinal exit, whichever exit of a pair was drawn |
| Candidates.BlockedIff | packages/client/src/map/computeLayout.ts:3605-3628 | Compaction works on the exits between whose ends some room stands |
| Candidates.CompactedEnd | packages/client/src/map/computeLayout.ts:3638-3640 | The cell it starts from lies one step from the other end, on the line and on the same side |
| Occlusions.DisplaceOccluders | packages/client/src/map/computeLayout.ts:3405-3465 | Strategy C lowers the heavy score, or no occluder has a better cell within its reach and nothing has changed |
| Occlusions.EvictFor | packages/client/src/map/computeLayout.ts:3501-3582 | The best allowed pair of moves of an occluder and the room whose cell it takes is made; none beats the result |
| Occlusions.TwoMoveDisplacement | packages/client/src/map/computeLayout.ts:3467-3583 | The two-move displacement lowers the heavy score, or no allowed pair of moves would, and nothing has changed |
| Occlusions.CompactSegments | packages/client/src/map/computeLayout.ts:3585-3683 | Strategy D lowers the heavy score, or neither end of any occluded exit has a better cell beside the other |
| Occlusions.FixFloorOcclusions | packages/client/src/map/computeLayout.ts:3213-3683 | Phases 6 and 8 on one floor: the heavy score falls, or it is zero, or no strategy has a move that would lower it |
| Rests.SpacedRoomAtRest | packages/client/src/map/computeLayout.ts:3238-3300 | On a floor it leaves alone no room has a better free cell near its ideal position that adds no mismatch and from which its exits run along rows and columns, |
| Rests.SpacedSwapAtRest | packages/client/src/map/computeLayout.ts:3303-3350 | no two rooms are better swapped, |
| Rests.OccluderAtRest | packages/client/src/map/computeLayout.ts:3425-3475 | and no room between the ends of an exit has a better such cell up to eight cells away |
| Occlusions.FixOcclusions | packages/client/src/map/computeLayout.ts:3196-3685 | They do so on the floors in turn: no floor's heavy score rises, agreement is kept, a perfect layout is left alone |
| Expansion.FindOccluders | packages/client/src/map/computeLayout.ts:3725-3766 | Every occluder is listed with every axis it occludes, and the list is empty exactly when the floor has no occlusion |
| Expansion.BuildGroup | packages/client/src/map/computeLayout.ts:3776-3849 | The group is the least one that holds the occluder and every room one of its rooms collides with or would leave diagonal or reversed, or is larger than the cap |
| Expansion.BoundaryStaysSound | packages/client/src/map/computeLayout.ts:3788-3846 | Every exit across the boundary of a closed group is still aligned and correctly directed after the shift |
| Expansion.GroupShiftSound | packages/client/src/map/computeLayout.ts:3788-3846 | The rigid shift of a closed group never raises the floor's diagonals or direction mismatches |
| Expansion.ValidationNeverRejects | packages/client/src/map/computeLayout.ts:3870-3920 | With agreement neither the collision nor the boundary check can reject a closed group |
| Expansion.TryShift | packages/client/src/map/computeLayout.ts:3851-3936 | The group is shifted exactly when that brings the heavy score below the bound, and never raises diagonals or mismatches |
| Expansion.ExpandFloor | packages/client/src/map/computeLayout.ts:3704-3953 | Each pass lowers the heavy score and none raises diagonals or mismatches, until no shift that was tried helps, short of the cap: for each occluder and each axis it occludes, those of the group formed for one of the exits it is on |
| Expansion.HeldMeans | packages/client/src/map/computeLayout.ts:3775 | The shifts that were tried are those by one and by two cells, either way |
| Candidates.GroupPulls | packages/client/src/map/computeLayout.ts:3788-3846 | A room is pulled along exactly when an exit to or from it would become diagonal or lead to the wrong side |
| Expansion.ResolveOcclusionsByExpansion | packages/client/src/map/computeLayout.ts:3703-3954 | Phase 7 keeps agreement and raises none of the three on any floor |
| VisualPaths.PathJoins | packages/client/src/map/computeLayout.ts:2522-2570 | A drawn path leads from room to room in upright pieces that meet end to end and turn at each joint |
| VisualPaths.PathTurnsHalfway | packages/client/src/map/computeLayout.ts:2522-2570 | A straight path is one piece; a diagonal one leaves and arrives along its exit's axis and turns at the middle |
| VisualPaths.VisualAgrees | packages/client/src/map/computeLayout.ts:2616-2658 | Without diagonal exits the two crossing modes count the same |
| Validator.ValidateZoneTopology | packages/client/src/map/validateZoneTopology.ts:60-163 | Positions and origins are those of the first visits in breadth-first order and cover all reachable rooms; no conflict is reported exactly when no known exit disagrees, no collision exactly when positions are distinct; each conflict lists exactly the exits to its room that disagree, in the order they are scanned, and there is one per room; every shared cell is listed; conflicts come most severe first |
| Validator.FirstVisitsUnique | packages/client/src/map/validateZoneTopology.ts:80-128 | There is one breadth-first order, one set of positions and one set of origins for a zone and a start |
| Validator.ConsistentIffEmbeddable | packages/client/src/map/validateZoneTopology.ts:74-137 | No conflict exactly when some grid assignment of the reachable rooms satisfies every known exit, and then it is the one BFS built |
| Validator.ConsistentIffWalksAgree | packages/client/src/map/validateZoneTopology.ts:74-137 | Equivalently, all walks to a room have the same horizontal displacement |
| Validator.ExploredIsReachable | packages/client/src/map/validateZoneTopology.ts:80-128 | The rooms with a position are exactly those some walk reaches |
| Validator.VisitExit | packages/client/src/map/validateZoneTopology.ts:86-127 | One exit either places its target, agrees with it, or is recorded as a conflict |
| Validator.RecordConflict | packages/client/src/map/validateZoneTopology.ts:97-116 | The conflict list stays sound and complete for the exits scanned |
| Validator.CollectCollisions | packages/client/src/map/validateZoneTopology.ts:130-137 | Exactly the cells claimed by two or more rooms |
| Validator.BySeveritySorts | packages/client/src/map/validateZoneTopology.ts:139-140 | The sort by severity keeps every conflict |
| Orders.SeverityIsStable | packages/client/src/map/validateZoneTopology.ts:139-140 | And the order of conflicts of the same delta |
| Validator.DeltaBoundsPairs | packages/client/src/map/validateZoneTopology.ts:17-21 | Delta bounds the distance of any two paths only up to a factor of two |
| Validator.DeltaIsLargestIff | packages/client/src/map/validateZoneTopology.ts:17-21 | Delta is the largest distance of two paths exactly when, along whichever of x+y and x-y the paths are spread the wider, the room's own cell lies at an end of that spread |
| Validator.ValidateTangled | packages/client/src/map/validateZoneTopology.ts:60-163 | On a zone of four rooms the validator reports exactly one conflict, and two of its paths are further apart than its delta |
| Connections.RunIsSafe | packages/e2e/src/load-test-ws.ts:616-794 | Over every interleaving: at most one connect or reconnect per user and none while a room is held, a live user that says connected holds a room, rooms are not shared, each reconnect count is within its limit, and the counters add up |
| Connections.StepKeepsUser | packages/e2e/src/load-test-ws.ts:616-794 | Every step keeps the invariant of a user |
| Connections.StepBalance | packages/e2e/src/load-test-ws.ts:642-748 | Every step moves the counters by exactly what the user's contribution changes, late reconnects apart |
| Connections.ConservedAt | packages/e2e/src/load-test-ws.ts:642-748 | Counters against sums over users: ever connected, disconnects plus held rooms, attempts, joins, successes |
| Connections.ClosedForGood | packages/e2e/src/load-test-ws.ts:774-790 | A closing user never holds a room again once it has none, and a closed one stays closed or failed |
| Closing.ClosingStartsNothing | packages/e2e/src/load-test-ws.ts:633-766 | From the moment a user begins to close, over every run: no procedure starts and none goes on to join a room; who joins was joining and who leaves a late room was joining or leaving |
| Closing.OnlyJoinInFlight | packages/e2e/src/load-test-ws.ts:706-727 | A join that still arrives was in flight when the closing was observed, and none arrives or is in flight after it |
| Closing.OnlyStaleLeave | packages/e2e/src/load-test-ws.ts:724-727 | A late room is left at most once, by a procedure that was joining or leaving when the closing was observed, and nothing joins after it |
| Closing.WorkShrinks | packages/e2e/src/load-test-ws.ts:774-790 | Every step of a procedure of a closing user, or of its close, leaves less to do, and no step leaves more |
| Closing.CloseEnds | packages/e2e/src/load-test-ws.ts:774-790 | From then on at most four such steps are taken, and when none can be taken any more the user is closed and has no procedure |
| Closing.FailureCloses | packages/e2e/src/load-test-ws.ts:750-761 | A procedure that fails leaves a failed user; a first connect that fails also closes it, a reconnect does not |
| Connections.RoomErrorIsHarmless | packages/e2e/src/load-test-ws.ts:667-679 | The error handler's branch for a connecting user cannot be taken |
| Connections.SuccessesOvercount | packages/e2e/src/load-test-ws.ts:642-643 | Joins equal first joins plus reported reconnect successes exactly when in no step of the run a reconnect got its room while its user was being closed, and then left it |
| Connections.ExactWhileOpen | packages/e2e/src/load-test-ws.ts:642-643 | While no user is being closed that equality holds |
| Connections.SuccessWithoutRoom | packages/e2e/src/load-test-ws.ts:642-643 | A run that reports a reconnect success without a second join |
| Harness.VirtualUser.OnJoined | packages/e2e/src/load-test-ws.ts:706-748 | A closing user gets no room and nothing is counted; any other holds the new room, is connected, and one join is counted; the user's invariant and the balance of the counters are kept |
| Harness.VirtualUser.OnLeave | packages/e2e/src/load-test-ws.ts:681-702 | A room the user no longer holds changes nothing; otherwise it is given up, and counted as an unexpected disconnect exactly if the user is not closing and the code is not 1000; invariant and balance are kept |
| Harness.VirtualUser.OnWoke | packages/e2e/src/load-test-ws.ts:633-645 | When the reconnect delay is over the user joins again exactly if it is not closing and has a session |
| Harness.VirtualUser.ResumeClose | packages/e2e/src/load-test-ws.ts:779-788 | Once the reconnect it found is over, close gives up the room, if there is one, and otherwise the user is closed or still failed |
| Harness.VirtualUser.FinalizeUnexpectedDisconnect | packages/e2e/src/load-test-ws.ts:616-662 | One procedure is added exactly if reconnecting is enabled, there is a session and the count is below the limit; attempts grow with the user's count, which stays within the limit; otherwise the user has failed |
| Harness.VirtualUser.Close | packages/e2e/src/load-test-ws.ts:774-790 | A second close changes nothing; the first leaves room, status and procedures alone, and the user is closing from then on and waits for the reconnect it found |
| Harness.LoadTest.Dispatch | packages/e2e/src/load-test-ws.ts:616-794 | A step of the event loop is the step of the model and keeps the whole harness safe |
| Harness.LoadTest.CountUsersEverConnected | packages/e2e/src/load-test-ws.ts:513-515 | Counting the users gives the counter's value |
| Ansi.AnsiEscapesToTags | packages/client/src/lib/ansi-parser.ts:68-103 | The loop over matches computes the recursive translation |
| Ansi.ParseTaggedText | packages/client/src/lib/ansi-parser.ts:112-154 | The segments show exactly the glyphs of the recursive meaning of tags, none of them empty |
| Ansi.TranslationPreservesStyle | packages/client/src/lib/ansi-parser.ts:68-154 | For text whose brackets all belong to SGR sequences, parsing the translation gives every visible character the style stack the sequences ask for, and leaves no tag open |
| Numerals.CodesOfParts | packages/client/src/lib/ansi-parser.ts:66-79 | An SGR sequence sends the values of its decimal parts in order, an empty part counting as 0 |
| Numerals.SequenceOf | packages/client/src/lib/ansi-parser.ts:66-79 | Every SGR sequence consists of such parts |
| Numerals.CodesOfNumerals | packages/client/src/lib/ansi-parser.ts:76-79 | The sequence that lists some codes sends exactly these codes, and the bare one sends a reset |
| Numerals.ModifierCodes | packages/client/src/lib/ansi-parser.ts:36-42 | Codes 0 to 4 are reset, bold, dim, italic and underline; outside the three ranges a code means nothing |
| Numerals.ColorCodes | packages/client/src/lib/ansi-parser.ts:43-45 | Codes 30 to 37 are the eight colours |
| Numerals.BrightCodes | packages/client/src/lib/ansi-parser.ts:46-50 | Codes 90 to 97 are the eight bright colours |
| Numerals.NamesOfTable | packages/client/src/lib/ansi-parser.ts:26-31 | The known names are exactly those of the table |
| Tags.WrittenIsTag | packages/client/src/lib/ansi-parser.ts:109-110 | Every text of a bracket, an optional slash, an optional name, an optional slash and a bracket is a tag; in `[/]` the slash is the first one |
| Tags.TagIsWritten | packages/client/src/lib/ansi-parser.ts:109-110 | Every tag is such a text |
| Tags.TagMeans | packages/client/src/lib/ansi-parser.ts:124-147 | `[/]` and `[reset]` end every style, a known name begins one, its closing tag ends the one of that name begun last, and everything else is text |
| Tags.EscapesTranslated | packages/client/src/lib/ansi-parser.ts:161-163 | Escapes are translated exactly in text that holds an escape character followed by a bracket |
| Tags.TagsParsed | packages/client/src/lib/ansi-parser.ts:166-168 | Text without escapes is parsed exactly when it holds a name in brackets, known or not |
| Tags.NamesGoFirst | packages/client/src/lib/ansi-parser.ts:204-210 | Names in brackets are stripped before `[/]` is, so that one inside it does not save it |
| Stripping.ShownIsStripped | packages/client/src/lib/ansi-parser.ts:204-210 | In text made of characters, SGR sequences, tags and stray brackets, what the parser shows of the translation is what stripping leaves if and only if no tag is an unknown plain one, and no consumed one has a trailing slash |
| Ansi.ShutAllPops | packages/client/src/lib/ansi-parser.ts:83-88 | Closing all active names, innermost first, empties the stack |
| Stripping.RemovedExact | packages/client/src/lib/ansi-parser.ts:204-210 | The two tag patterns of the stripping match exactly the tags without a trailing slash that close or have a name, and match all of them |
| Stripping.UnknownTagIsShown | packages/client/src/lib/ansi-parser.ts:143-146 | A tag with an unknown name is shown, but stripped |
| Stripping.StrayCompleted | packages/client/src/lib/ansi-parser.ts:204-210 | A bracket that the removal of a tag completes to another one: it is stripped, but shown |
| Stripping.SlashedTagIsLeft | packages/client/src/lib/ansi-parser.ts:109-142 | A tag with a known name and a trailing slash is consumed, but not stripped |
| Stripping.ParseAnsiText | packages/client/src/lib/ansi-parser.ts:178-198 | On each of the three paths text of characters and SGR sequences is shown as the sequences say; text with tags is shown as stripping leaves it under the condition above, or on the path without markup exactly if stripping removes none of its tags |
| Containers.AddItemToContainer | packages/shared/src/items.ts:334-391 | Refused for the first reason that applies, in the source's order; otherwise the item is stacked or appended |
| Containers.RemoveItemFromContainer | packages/shared/src/items.ts:397-430 | Takes out the quantity or the whole stack, whichever is less, and says what came out |
| Containers.GetContainerContentsWeight | packages/shared/src/items.ts:299-310 | The loop computes the weight of the contents |
| Containers.CountsExact | packages/shared/src/items.ts:334-430 | Each success changes exactly one item's count, by exactly what went in or came out, whatever quantity was asked for |
| Containers.RunKeepsValid | packages/shared/src/items.ts:334-430 | Over any sequence of requests with positive quantities: distinct ids, positive quantities, slots and weight within their limits |
| Containers.RunHoldsAllowed | packages/shared/src/items.ts:334-391 | Over any sequence of requests, whatever quantities they ask for, a container holds only items it was given, of an allowed type, and no containers |
| Containers.AddedExactlyWhen | packages/shared/src/items.ts:334-391 | An item is added exactly when the container may hold it, it needs no slot beyond the limit and the weight with it stays within the limit; otherwise the first of these that fails is the reason |
| Containers.AddThenRemove | packages/shared/src/items.ts:334-430 | Removing what was just added restores the contents entry by entry; what comes out equals what went in exactly when it joined no stack of another durability |
| Containers.NegativeRemovalAdds | packages/shared/src/items.ts:397-430 | A removal raises the count exactly when the quantity asked for is negative |
| Containers.NegativeRemovalOverloads | packages/shared/src/items.ts:397-430 | With such a removal an item that weighs something can be brought past any weight limit |

## Left out

- Align.AlignAxis: agreement of the two structures afterwards is stated as a condition on its run of turns (`Align.AgreementKept`), not as a condition on the board it starts from, because what a turn finds depends on the turns before it.
- Align.FixCardinalAlignment: agreement is stated by that condition on each of its runs.
- Insertions.FixCrossingsByInsertion: keeps agreement only together with straightness of the floors, since a group whose members share a coordinate on the other axis lands on one cell (`Insertions.GapMove`, `Insertions.GroupsCanOverlap`).
- LayoutEngine.ComputeLayout: does not claim agreement of the final structures for zones without an embedding: a shift of phase 5c (`AlignExamples.AlignRow`) and a group moved by an insertion (`Insertions.GroupsCanOverlap`) can end it.
- Stripping.ShownIsStripped: says nothing of text with a stray bracket whose run of tag characters is followed at once by an SGR sequence or a tag, since its removal can leave a new tag (`Stripping.StrayCompleted`).
- Phase 10, which repeats the insertion pass in visual crossing mode: its boundaries can be half-integers. What it counts is modelled (`VisualPaths`), and it finds nothing to do on a perfect layout.
- Room ids that contain the separators used in string keys (`|` in segment keys, `->` in transition keys): the model keys by pairs, so such collisions do not occur in it.
- Direction names that an object inherits from its prototype: every name outside the table has no offset here.
- Integers are unbounded; the original's are doubles. Rounding of averages is modelled as `Math.round`.
- The validator's human-readable summary string.
- Network calls, cookies, timeouts, console output and argument parsing of the harness: joining, preparing and leaving succeed or fail as events. Continuations that resolve at once run before the next event. The stress loop is only modelled by the event of its failure.
- React nodes: a node is its classes and its text. Class names carry a fixed prefix, so the tag name stands for its class. The order of two equal class lists does not matter here.
- Item weights are whole numbers; the other item fields and the carry bonus are not modelled.
- `elkLayout.ts`, the React components, the reducers and the importers.
