# Terrain generation of the world generator, modelled in Dafny

This project models the terrain pipeline of the world generator's worker
(`src/simulation/worldgen.worker.ts`). It also models the world it rebuilds
from the worker's output (`src/simulation/world.ts`) and the region
bookkeeping of the world map (`src/common/WorldMap.ts`).

Every stage works on a `width x height` grid, scanned column by column (x
outer, y inner). Each stage is modelled in the shape it has in the source.
Loops over queues and buffers are methods over `array2` with loop invariants.
Lookups and tables are functions. `World`, `Cell`, `DrainageBasin` and
`WorldMap` are classes.

- `grid.dfy` (`GridGeometry`): the labelled neighbour helpers, `isValidCell`,
  `oppositeDirections`, `loopGridCircle`, `isOceanic` and `isContinental`.
- `world_tables.dfy` (`WorldTables`): the terrain, biome, zone and direction
  enums, the two zone-range tables and the biome table.
- `queues.dfy` (`FloodQueues`): the open priority queue, which hands out a
  lowest entry.
- `depressions.dfy` (`DepressionRemoval`): `removeDepressions`, the two-queue
  priority-flood.
- `flow.dfy` (`FlowRouting`): `determineFlowDirections`.
- `ocean.dfy` (`OceanFill`): the ocean flood fill of `decideTerrainTypes`.
- `upstream.dfy` (`UpstreamCount`): `findUpstreamCount` and the loop over
  coastal cells that calls it.
- `terrain.dfy` (`TerrainTypes`): the rest of `decideTerrainTypes` (lakes,
  coastal cells, rivers, the precedence of terrain types), and
  `decideMountains`.
- `basins.dfy` (`DrainageBasins`): `decideDrainageBasins`, which labels basins
  and groups cells into basins with packed colours.
- `biomes.dfy` (`Biomes`): `generateBiomes`, and the last pass of
  `generateMoisture`, which dries the oceanic cells.
- `world.dfy` (`WorldModel`): the `Cell`, `DrainageBasin` and `World`
  constructors, the biome statistics, `cellCount` and `getCell`.
- `world_map.dfy` (`RegionMaps`): the `WorldMap` constructor and `addRegion`.

Where the code and its comments or documentation disagree, the model follows
the code:

- The `open` priority queues dequeue the LOWEST water height. Their comparator
  returns 1 when `a[2] < b[2]`, and the queue hands out its greatest element
  under that comparator.
- Lake cells are not excluded from drainage basins. Only `OCEAN` and `COAST`
  cells are skipped.
- Cell (0, 0) is always marked ocean, whatever its height. It is not marked
  as seen when it is first queued, so it may be queued once more.
- `findUpstreamCount` runs once per coastal cell, and each run adds to every
  cell it visits. A cell whose flow path passes through several coastal cells
  is counted once per such cell. `upstreamCells` is an `Int16Array`, so each
  store wraps into -32768..32767.

## Model

| member | source | states |
|---|---|---|
| GridGeometry.NeighborsLabelled | src/simulation/worldgen.worker.ts:52-57 | four neighbours in the order left, right, up, down, each one step from the cell in its labelled direction |
| GridGeometry.IsValidCell | src/simulation/worldgen.worker.ts:74-76 | no contract of its own; KeepValid, KeepInvalid and EdgeCharacterisation state what filtering by it keeps |
| GridGeometry.Step | src/simulation/worldgen.worker.ts:59-64 | no contract of its own; StepBack and NeighborsLabelled state where a step lands |
| GridGeometry.Opposite | src/simulation/worldgen.worker.ts:66-72 | no contract of its own; OppositeInvolution states that it is an involution fixing only NONE |
| GridGeometry.KeepValid | src/simulation/worldgen.worker.ts:174 | the filter keeps exactly the listed neighbours that lie on the grid |
| GridGeometry.KeepInvalid | src/simulation/worldgen.worker.ts:233 | the filter keeps exactly the listed neighbours that lie off the grid |
| GridGeometry.SplitSizes | src/simulation/worldgen.worker.ts:231-234 | the on-grid and off-grid lists together are as long as the full list |
| GridGeometry.CellNeighbors | src/simulation/worldgen.worker.ts:170-176 | a cell's neighbour table has at most four entries, each on the grid and labelled with the direction from the cell |
| GridGeometry.NeighborInList | src/simulation/worldgen.worker.ts:174 | every on-grid 4-neighbour appears in the table with its direction |
| GridGeometry.KeepValidDistinct | src/simulation/worldgen.worker.ts:174 | filtering keeps neighbour cells distinct |
| GridGeometry.NeighborsDistinct | src/simulation/worldgen.worker.ts:52-57 | no cell appears twice in a neighbour table |
| GridGeometry.OffGridNeighbors | src/simulation/worldgen.worker.ts:233 | every off-grid entry is labelled from the cell and lies off the grid |
| GridGeometry.EdgeCharacterisation | src/simulation/worldgen.worker.ts:174-176 | a cell is an edge cell iff its table does not have four entries, iff it has an off-grid neighbour |
| GridGeometry.FirstInvalid | src/simulation/worldgen.worker.ts:233-238 | the first off-grid entry of the full list heads the filtered list |
| GridGeometry.NoneInvalid | src/simulation/worldgen.worker.ts:233-235 | an interior cell has no off-grid neighbour |
| GridGeometry.FirstOffGridDirection | src/simulation/worldgen.worker.ts:235-238 | an edge cell's first off-grid side is left, else right, else up, else down, and stepping that way leaves the grid |
| GridGeometry.OppositeInvolution | src/simulation/worldgen.worker.ts:66-72 | `oppositeDirections` is an involution and maps only NONE to NONE |
| GridGeometry.StepBack | src/simulation/worldgen.worker.ts:59-72 | a step followed by a step in the opposite direction returns to the start |
| GridGeometry.GridSize | src/simulation/world.ts:273-289 | the grid has width * height cells |
| GridGeometry.LoopGridCircle | src/simulation/worldgen.worker.ts:79-90 | the result is exactly the cells of the disc within the loop bounds, each once, in column-major order |
| GridGeometry.OceanicOrContinental | src/simulation/worldgen.worker.ts:92-108 | every terrain type is oceanic or continental, never both |
| GridGeometry.IsOceanic | src/simulation/worldgen.worker.ts:92-97 | no contract of its own; OceanicOrContinental states that it splits the terrain types with IsContinental |
| GridGeometry.IsContinental | src/simulation/worldgen.worker.ts:99-106 | no contract of its own; OceanicOrContinental states that it is the complement of IsOceanic |
| WorldTables.LastMatch | src/simulation/worldgen.worker.ts:586-597 | the lookup finds a zone iff some range holds the value, and the zone it finds has a range holding the value |
| WorldTables.MoistureZoneOf | src/simulation/world.ts:106-112 | each moisture zone is found exactly on its own range; a zone is found iff the moisture is at least 0 |
| WorldTables.TemperatureZoneOf | src/simulation/world.ts:114-120 | each temperature zone is found exactly on its own range; every temperature has a zone |
| WorldTables.ZoneTablesPartition | src/simulation/world.ts:106-120 | both tables are contiguous, non-empty, increasing half-open ranges; moisture covers [0, inf) and temperature covers (-inf, inf) |
| WorldTables.AtMostOneZone | src/simulation/world.ts:106-120 | in a contiguous increasing table, at most one range holds a value |
| WorldTables.OnlyMatch | src/simulation/world.ts:106-120 | the lookup returns the one zone whose range holds the value |
| WorldTables.BelowFirstStartMatchesNothing | src/simulation/world.ts:106-112 | a value below the first start matches no zone |
| WorldTables.BiomeRanges | src/simulation/world.ts:123-159 | the biome table never yields NONE, and its arctic column is tundra or glacial |
| FloodQueues.LowestIndex | src/simulation/worldgen.worker.ts:154-161 | the dequeued entry has the lowest z in the queue |
| FloodQueues.RemoveAt | src/simulation/worldgen.worker.ts:189 | dequeuing removes exactly one copy of the entry taken |
| DepressionRemoval.RemoveDepressions | src/simulation/worldgen.worker.ts:146-208 | water height is never below the height; edge cells keep their height; every inner cell's water height is the larger of its height and the water height of a neighbour closed before it; water drains from every cell to the edge without climbing; every cell is closed exactly once |
| DepressionRemoval.SeedEdges | src/simulation/worldgen.worker.ts:170-182 | exactly the edge cells are closed and queued in `open` at their height |
| DepressionRemoval.SeedCell | src/simulation/worldgen.worker.ts:173-180 | an edge cell is closed and queued at its height; an interior cell is left alone; no other cell changes |
| DepressionRemoval.Flood | src/simulation/worldgen.worker.ts:184-205 | the loop takes from `pit` while it is non-empty, else a lowest entry of `open`; when it stops, every closed cell has all its neighbours closed, and the flood invariant holds |
| DepressionRemoval.ExpandCell | src/simulation/worldgen.worker.ts:193-204 | after the taken cell's neighbours are handled, all of them are closed and the flood invariant is kept |
| DepressionRemoval.CloseNeighbor | src/simulation/worldgen.worker.ts:194-203 | an unclosed neighbour no higher than the taken cell is raised to its water height and queued in `pit`; otherwise it is queued in `open` at its own height; nothing else changes |
| DepressionRemoval.CloseAndRaise | src/simulation/worldgen.worker.ts:195-199 | closes the neighbour and raises it exactly when its water height is at most the taken cell's |
| DepressionRemoval.RankedAfterClose | src/simulation/worldgen.worker.ts:195 | closing an unclosed cell appends it once to the closing order |
| DepressionRemoval.FloodClosesAll | src/simulation/worldgen.worker.ts:184-205 | with both queues empty, every cell is closed |
| DepressionRemoval.OrderCoversGrid | src/simulation/worldgen.worker.ts:184-205 | the closing order lists every grid cell exactly once |
| DepressionRemoval.ClosingOrderComplete | src/simulation/worldgen.worker.ts:184-205 | once everything is closed, the closing order is a permutation of the grid |
| DepressionRemoval.FloodDrains | src/simulation/worldgen.worker.ts:184-205 | after the flood, water height is at least the height, equal on edges, a raised cell is level with a neighbour, and every cell drains to the edge |
| DepressionRemoval.DrainsMonotone | src/simulation/worldgen.worker.ts:196-199 | draining within some number of steps implies draining within more |
| DepressionRemoval.Max | src/simulation/worldgen.worker.ts:196-199 | the larger of two bytes: at least both, and one of them |
| DepressionRemoval.FloodFills | src/simulation/worldgen.worker.ts:184-205 | after the flood, every inner cell in the closing order is level with the larger of its height and the water height of a side-by-side neighbour earlier in the order |
| DepressionRemoval.LevelAt | src/simulation/worldgen.worker.ts:193-202 | on a plain of one height whose edges keep that height, each cell of the closing order ends at that height |
| DepressionRemoval.LevelPlainUnchanged | src/simulation/worldgen.worker.ts:146-208 | on a plain of one height, the water height equals the height everywhere: nothing is raised |
| DepressionRemoval.NeighborTable | src/simulation/worldgen.worker.ts:170-176 | the table holds, for every cell, exactly its on-grid neighbours, each labelled with its direction |
| FlowRouting.DetermineFlowDirections | src/simulation/worldgen.worker.ts:210-255 | edge cells point through their first off-grid side; inner cells point at an on-grid neighbour; following the directions leaves the grid from every cell (no cycles); every cell is closed exactly once |
| FlowRouting.RouteSeeding | src/simulation/worldgen.worker.ts:227-241 | the table holds every cell's on-grid neighbours; exactly the edge cells are closed and queued |
| FlowRouting.RouteSeedCell | src/simulation/worldgen.worker.ts:230-239 | one cell's table entry is stored, and the cell is seeded if it is on the edge |
| FlowRouting.SeedEdgeCell | src/simulation/worldgen.worker.ts:234-238 | an edge cell is closed, queued at its water height and given its first off-grid direction; no other cell changes |
| FlowRouting.RouteNextColumn | src/simulation/worldgen.worker.ts:228-240 | finishing a column carries the seeding invariants to the next column |
| FlowRouting.RouteFlood | src/simulation/worldgen.worker.ts:243-252 | when the queue empties, every closed cell has all its neighbours closed, and the routing invariant holds |
| FlowRouting.RouteCell | src/simulation/worldgen.worker.ts:244-251 | after the taken cell is expanded, all its neighbours are closed |
| FlowRouting.RouteNeighbor | src/simulation/worldgen.worker.ts:246-251 | the reached neighbour gets the opposite of its label, which steps back to the taken cell; it is closed and queued at its water height; nothing else changes |
| FlowRouting.FlowsOffMonotone | src/simulation/worldgen.worker.ts:243-252 | leaving the grid within some number of steps implies leaving within more |
| FlowRouting.FlowsOffByRank | src/simulation/worldgen.worker.ts:246-251 | each cell points at a cell closed before it, so water leaves the grid within the cell's closing rank |
| FlowRouting.RouteClosesAll | src/simulation/worldgen.worker.ts:243-252 | with the queue empty, every cell is closed |
| FlowRouting.RouteDirections | src/simulation/worldgen.worker.ts:243-252 | the final directions: first off-grid side on edges, an on-grid neighbour inside, water leaves from everywhere, closing order a permutation |
| OceanFill.FillOcean | src/simulation/worldgen.worker.ts:267-289 | a cell is marked ocean iff a walk from (0, 0) reaches it through 4-adjacent cells at or below sea level |
| OceanFill.TakeCell | src/simulation/worldgen.worker.ts:280-281 | the head of the queue is taken and marked ocean; no other cell changes |
| OceanFill.FloodAround | src/simulation/worldgen.worker.ts:283-288 | after the taken cell's neighbours are visited, every low neighbour is seen, and the fill invariant is kept |
| OceanFill.VisitNeighbor | src/simulation/worldgen.worker.ts:283-287 | one neighbour is visited: the invariant is kept and the visited prefix grows |
| OceanFill.SeeNeighbor | src/simulation/worldgen.worker.ts:284-286 | a low, unseen neighbour is marked seen and queued; nothing else changes |
| OceanFill.FillComplete | src/simulation/worldgen.worker.ts:279-289 | with the queue empty, the marked cells are exactly the sea-connected ones |
| OceanFill.NeighborAdjacent | src/simulation/worldgen.worker.ts:283 | every neighbour-table entry is 4-adjacent to its cell |
| OceanFill.AdjacentInList | src/simulation/worldgen.worker.ts:283 | every on-grid 4-adjacent cell appears in the neighbour table |
| UpstreamCount.Wrap16 | src/simulation/worldgen.worker.ts:297 | no contract of its own: the store into the `Int16Array`; Wrap16Range, Wrap16InRange, Wrap16Add and Wrap16Mod state its range and its congruence |
| UpstreamCount.Wrap16Range | src/simulation/worldgen.worker.ts:297 | a 16-bit store lands in -32768..32767 |
| UpstreamCount.Wrap16InRange | src/simulation/worldgen.worker.ts:297 | values already in range are stored unchanged |
| UpstreamCount.Wrap16Add | src/simulation/worldgen.worker.ts:332 | adding to a wrapped value then wrapping equals wrapping the exact sum |
| UpstreamCount.Wrap16Mod | src/simulation/worldgen.worker.ts:297 | the stored value is congruent to the exact value modulo 2^16 |
| UpstreamCount.Depth | src/simulation/worldgen.worker.ts:322-333 | the number of on-grid steps before water leaves is at most the number of cells |
| UpstreamCount.DepthNext | src/simulation/worldgen.worker.ts:322-333 | one step down the flow path lowers the depth by one |
| UpstreamCount.UpstreamSet | src/simulation/worldgen.worker.ts:322-333 | exactly the on-grid cells whose flow path passes through the cell, which is not among them |
| UpstreamCount.UpstreamThroughChild | src/simulation/worldgen.worker.ts:324-330 | every upstream cell lies in the catchment of a neighbour flowing directly into the cell |
| UpstreamCount.ChildCatchment | src/simulation/worldgen.worker.ts:324-330 | the catchment of a child is upstream of the cell |
| UpstreamCount.ChildrenApart | src/simulation/worldgen.worker.ts:324-330 | the catchments of two children are disjoint |
| UpstreamCount.ChildTest | src/simulation/worldgen.worker.ts:325-327 | the test `oppositeDirections[neighborFlowDir] === ndir` holds iff the neighbour flows into the cell |
| UpstreamCount.ChildListed | src/simulation/worldgen.worker.ts:324 | every child appears in the cell's neighbour table |
| UpstreamCount.CoveredAll | src/simulation/worldgen.worker.ts:324-331 | once all neighbours are handled, the covered cells are all the upstream cells |
| UpstreamCount.FindUpstreamCount | src/simulation/worldgen.worker.ts:322-333 | returns the number of cells upstream of (x, y) and adds to each cell of its catchment that cell's upstream count, wrapped to 16 bits |
| UpstreamCount.CountNeighbor | src/simulation/worldgen.worker.ts:324-331 | one neighbour step keeps the count equal to the size of the covered catchments |
| UpstreamCount.CountChild | src/simulation/worldgen.worker.ts:326-330 | a child adds 1 plus its upstream count, and its catchment is tallied |
| UpstreamCount.StoreCount | src/simulation/worldgen.worker.ts:332 | the cell's own count is added with a 16-bit wrap |
| UpstreamCount.TallyCompose | src/simulation/worldgen.worker.ts:324-332 | tallies over disjoint cell sets compose |
| UpstreamCount.AccumulateUpstream | src/simulation/worldgen.worker.ts:335-337 | after calling findUpstreamCount for every coastal cell, each cell holds its accumulated count |
| UpstreamCount.AccumulateFrom | src/simulation/worldgen.worker.ts:335-337 | one coastal cell's call extends the accumulation by one |
| UpstreamCount.AccumulatedCount | src/simulation/worldgen.worker.ts:322-337 | a cell's final value is the wrap of (number of coastal calls whose catchment holds it) times its upstream count: 0 when none does, and its exact upstream count when exactly one does and the count fits |
| TerrainTypes.AnyNeighbor | src/simulation/worldgen.worker.ts:308-309 | `some` over the neighbour table: true iff a listed neighbour is marked |
| TerrainTypes.CoastalTest | src/simulation/worldgen.worker.ts:306-310 | the coastal test holds iff the cell is neither ocean nor lake and touches an ocean or lake cell |
| TerrainTypes.ScanCell | src/simulation/worldgen.worker.ts:305-316 | one cell of the scan is listed exactly when it is coastal; the list stays exactly the coastal cells scanned so far, in scan order |
| TerrainTypes.Coastal | src/simulation/worldgen.worker.ts:305-310 | no contract of its own: neither ocean nor lake, with an ocean or lake neighbour; CoastalTest ties the source's test to it |
| TerrainTypes.IsLake | src/simulation/worldgen.worker.ts:291-292 | no contract of its own: water above the ground; MarkLakes ties the lake marks to it |
| TerrainTypes.FindCoastalCells | src/simulation/worldgen.worker.ts:302-319 | the list holds exactly the coastal cells, in scan order |
| TerrainTypes.CoastalSet | src/simulation/worldgen.worker.ts:306-310 | the set of coastal cells of the grid |
| TerrainTypes.MarkLakes | src/simulation/worldgen.worker.ts:291-292 | a cell is a lake iff its water height is above its height |
| TerrainTypes.MarkRivers | src/simulation/worldgen.worker.ts:343-351 | a cell is a river iff its upstream count is above the river threshold |
| TerrainTypes.ClassifyPrecedence | src/simulation/worldgen.worker.ts:355-371 | oceanic iff ocean, and coast iff depth < 10; else lake iff lake; else river iff river; else land; never mountain |
| TerrainTypes.Classify | src/simulation/worldgen.worker.ts:355-371 | no contract of its own; ClassifyPrecedence states its precedence type by type |
| TerrainTypes.CoastalOfMarks | src/simulation/worldgen.worker.ts:306-310 | the coastal test on the marks equals coastal-ness stated on heights |
| TerrainTypes.FillTerrain | src/simulation/worldgen.worker.ts:353-372 | every cell gets the type the precedence gives from its marks |
| TerrainTypes.MarkWater | src/simulation/worldgen.worker.ts:267-319 | ocean marks are the sea-connected cells, lake marks the raised cells, and the coastal list is exactly the coastal cells in scan order |
| TerrainTypes.DecideTerrainTypes | src/simulation/worldgen.worker.ts:257-374 | every cell's type is the precedence applied to sea-connection, water depth, lake-ness and upstream count; upstream counts are those accumulated from the coastal cells |
| TerrainTypes.DecideMountains | src/simulation/worldgen.worker.ts:613-633 | exactly the cells whose altitude reaches the threshold become mountain; all others keep their type |
| DrainageBasins.SomeOffGrid | src/simulation/worldgen.worker.ts:402-403 | the edge test holds iff some labelled neighbour lies off the grid |
| DrainageBasins.SeedBasins | src/simulation/worldgen.worker.ts:398-409 | exactly the edge cells are queued in `open` at their water height and marked queued; every other cell is a candidate |
| DrainageBasins.SeedBasinCell | src/simulation/worldgen.worker.ts:400-407 | one cell of the seeding scan: it is queued at its water height and marked queued exactly when it is an edge cell, and cells scanned earlier keep their state |
| DrainageBasins.TakeCell | src/simulation/worldgen.worker.ts:418-422 | a queued cell taken for the first time gets the next basin number, and the counter goes up; a numbered cell keeps its number |
| DrainageBasins.RootAfterTake | src/simulation/worldgen.worker.ts:419-421 | numbering a queued edge cell records it as the root of the new basin |
| DrainageBasins.LabelNeighbor | src/simulation/worldgen.worker.ts:424-431 | a candidate neighbour takes the taken cell's number and goes to `pit` at z when no higher than z, else to `open` at its own height |
| DrainageBasins.ExpandBasinCell | src/simulation/worldgen.worker.ts:424-432 | after the taken cell's neighbours are handled, the labelling and queue invariants are kept |
| DrainageBasins.FloodBasins | src/simulation/worldgen.worker.ts:411-433 | when both queues empty, the labels mirror a labelling in which basin i+1 has edge root i, and every other numbered cell is an inner cell reached from a side-by-side neighbour of its basin at a smaller depth |
| DrainageBasins.FloodNumbersAll | src/simulation/worldgen.worker.ts:411-433 | with both queues empty, no candidate is left and every cell has a number |
| DrainageBasins.GrowsFromMonotone | src/simulation/worldgen.worker.ts:424-431 | a chain back to the root found within some number of steps is found within more |
| DrainageBasins.GrownFromRoot | src/simulation/worldgen.worker.ts:419-431 | a numbered cell is reached from its basin's root through a chain of side-by-side cells of that basin no longer than its depth |
| DrainageBasins.RootsAndChains | src/simulation/worldgen.worker.ts:397-433 | once every cell has a number, every edge cell is a root and every cell grows from the root of its basin |
| DrainageBasins.LabelBasins | src/simulation/worldgen.worker.ts:393-433 | every cell ends with a basin number from 1 to the number of roots; the roots are exactly the edge cells, one per basin; every cell is reached from its basin's root through a chain of side-by-side cells of that basin |
| DrainageBasins.PackColor | src/simulation/worldgen.worker.ts:450 | `(r << 16) + (g << 8) + b` of three bytes lies in 0..2^24-1 |
| DrainageBasins.UnpackPack | src/simulation/worldgen.worker.ts:446-450 | the packed colour gives back its three components |
| DrainageBasins.Members | src/simulation/worldgen.worker.ts:441-444 | the non-oceanic cells of the grid, with their basin numbers |
| DrainageBasins.MemberAt | src/simulation/worldgen.worker.ts:443-444 | a cell is a member iff it is not oceanic, and then carries its label's number |
| DrainageBasins.MembersNumbered | src/simulation/worldgen.worker.ts:441-444 | the members are exactly the non-oceanic cells of the grid, each with its basin number |
| DrainageBasins.FiledAfterAppend | src/simulation/worldgen.worker.ts:454 | appending the next member to its existing basin keeps the grouping invariant |
| DrainageBasins.Push | src/simulation/worldgen.worker.ts:454 | the cell goes to the end of its basin's list; the basin keeps its colour and every other basin is unchanged |
| DrainageBasins.FiledAfterCreate | src/simulation/worldgen.worker.ts:445-454 | creating a basin for a new number and appending the member keeps the grouping invariant |
| DrainageBasins.ColouredAfterAppend | src/simulation/worldgen.worker.ts:454 | appending a cell draws nothing and keeps every colour |
| DrainageBasins.ColouredAfterCreate | src/simulation/worldgen.worker.ts:445-452 | a new basin is coloured from the next three draws, disjoint from every other basin's draws |
| DrainageBasins.FileCell | src/simulation/worldgen.worker.ts:445-454 | one member is filed: a new basin is created with three draws if its number is new, then the cell is appended |
| DrainageBasins.GroupCell | src/simulation/worldgen.worker.ts:443-454 | an oceanic cell is skipped; a member is filed into its basin |
| DrainageBasins.GroupColumn | src/simulation/worldgen.worker.ts:442-455 | one column of the grouping keeps the invariant |
| DrainageBasins.FiledNextColumn | src/simulation/worldgen.worker.ts:441-456 | finishing a column carries the grouping invariant to the next column |
| DrainageBasins.GroupBasins | src/simulation/worldgen.worker.ts:435-456 | every member is in exactly the basin of its number, each basin is non-empty and in scan order, and each is coloured from its own three draws |
| DrainageBasins.SeededWaiting | src/simulation/worldgen.worker.ts:398-409 | after seeding, the flood's waiting invariant holds |
| DrainageBasins.FiledAll | src/simulation/worldgen.worker.ts:441-456 | after the whole scan, the grouping covers every member |
| DrainageBasins.DecideDrainageBasins | src/simulation/worldgen.worker.ts:376-459 | every non-oceanic cell is listed in the basin of its number and no oceanic cell is listed anywhere; numbers come from the labelling; basins are non-empty, in scan order, and coloured from disjoint triples of draws; every edge cell is the root of its basin and every cell is reached from that root through its basin |
| Biomes.IsWater | src/simulation/worldgen.worker.ts:580-585 | no contract of its own; CellBiome gives every such cell NONE |
| Biomes.Moisture | src/simulation/worldgen.worker.ts:588 | ten times the moisture is the stored value, and the moisture is not negative iff the stored value is not |
| Biomes.CellBiome | src/simulation/worldgen.worker.ts:580-607 | water (ocean, coast, lake) gets NONE; any other cell gets a biome other than NONE iff its moisture is not negative; otherwise the lookup fails naming the moisture |
| Biomes.CellBiomeExtremes | src/simulation/world.ts:123-159 | a land cell below -10 degrees is tundra or glacial; a wet cell at 20 degrees or more is tropical rainforest |
| Biomes.GenerateBiomes | src/simulation/worldgen.worker.ts:571-611 | on success every cell holds its lookup's biome; on failure some cell's lookup fails with that error after every earlier cell succeeded |
| Biomes.FillBiomeColumn | src/simulation/worldgen.worker.ts:579-608 | a column is filled in order until a lookup fails, and that failure is reported |
| Biomes.DryOceanicCells | src/simulation/worldgen.worker.ts:560-566 | every oceanic cell ends with moisture 0, and every other cell keeps its moisture |
| WorldModel.Cell.constructor | src/simulation/world.ts:191-226 | the cell holds the given values, `isLand` iff the terrain is continental (neither ocean nor coast), and no basin |
| WorldModel.DrainageBasin.constructor | src/simulation/world.ts:234-241 | every cell given to the basin points at it |
| WorldModel.Index | src/simulation/world.ts:263-271 | cell (x, y) of a flat buffer is at x * height + y |
| WorldModel.IndexInRange | src/simulation/world.ts:263-271 | every grid position indexes inside a width * height buffer |
| WorldModel.IndexBefore | src/simulation/world.ts:273-289 | scan order matches flat-index order |
| WorldModel.Owner | src/simulation/world.ts:290-295 | the last listed basin holding a cell, or none when no basin lists it |
| WorldModel.OwnerOfDisjoint | src/simulation/world.ts:290-295 | when basins are disjoint, a cell's owner is the one basin listing it |
| WorldModel.World.constructor | src/simulation/world.ts:260-312 | the grid is width x height and `cells` lists each grid cell once; each cell carries its position's buffer values; each basin holds the grid cells at its coordinates; each cell points at the last basin listing it; the counts are those of the cells and sum to the land count |
| WorldModel.World.CellCount | src/simulation/world.ts:314-316 | the cell count is the number of cells |
| WorldModel.World.GetCell | src/simulation/world.ts:318-323 | null exactly off the grid; otherwise a cell of the world with the asked coordinates |
| WorldModel.BiomesOf | src/simulation/world.ts:298-299 | the biome of every cell, in order |
| WorldModel.CountBiomes | src/simulation/world.ts:298-309 | the land count is the number of cells with a biome; a biome has a count iff it occurs, and that count is its number of occurrences |
| WorldModel.CountOfStep | src/simulation/world.ts:300-307 | counting one more cell raises exactly its biome's count |
| WorldModel.LandBiomesComplete | src/simulation/world.ts:300-301 | a biome is not NONE iff it is one of the land biomes |
| WorldModel.CountOfLand | src/simulation/world.ts:300-307 | the cells of land biomes are the cells with a biome |
| WorldModel.CountOfNothing | src/simulation/world.ts:300-307 | a count over no biomes is 0 |
| WorldModel.TotalMatches | src/simulation/world.ts:300-307 | summing the stored counts equals counting the cells |
| WorldModel.CountsSumToLand | src/simulation/world.ts:298-309 | the per-biome counts sum to the land count |
| WorldModel.BuildGrid | src/simulation/world.ts:273-289 | the grid and the insertion-ordered cells are built from the buffers, each cell fresh and distinct |
| WorldModel.BuildColumn | src/simulation/world.ts:275-288 | one column of cells is built from the buffers at its positions |
| WorldModel.Flatten | src/simulation/world.ts:285-286 | the grid read column by column is the insertion order of `cells` |
| WorldModel.FlattenLayout | src/simulation/world.ts:285-286 | cell (x, y) of the grid is at x * height + y in the flattened order |
| WorldModel.CellsAt | src/simulation/world.ts:293 | the grid cells at the listed coordinates, in order |
| WorldModel.AttachBasins | src/simulation/world.ts:290-295 | one basin per entry, with its id, colour and cells, and each cell points at the last basin listing it |
| WorldModel.AttachBasin | src/simulation/world.ts:291-294 | building one basin repoints exactly its cells and leaves every other cell alone |
| RegionMaps.Repeat | src/common/WorldMap.ts:29 | `n` copies of the name |
| RegionMaps.WorldMap.constructor | src/common/WorldMap.ts:13-22 | an empty region map, and world-sized grids with no cell assigned and no name emitted |
| RegionMaps.WorldMap.AddRegion | src/common/WorldMap.ts:24-31 | the region is filed under its name; exactly the listed cells take its name; each cell's stream gains the name once per listing; nothing else changes |
| RegionMaps.WorldMap.AssignAll | src/common/WorldMap.ts:27-30 | the loop assigns the name to exactly the listed cells and emits it once per listing |
| RegionMaps.WorldMap.Assign | src/common/WorldMap.ts:28-29 | one cell is assigned and one name emitted on its stream |
| RegionMaps.AssignStep | src/common/WorldMap.ts:28-29 | assigning one more cell changes only that cell's name and stream |

## Left out

- `generateHeightmap`, `decideTemperature` and all of `generateMoisture` except its last pass. These are simplex noise and floating-point formulas. The heightmap is an arbitrary grid of bytes, and temperatures and moisture are arbitrary integer grids, as in their `Int16Array` buffers.
- `Stats.quantile`: the river and mountain thresholds are parameters (`riverThreshold`, `mountainThreshold`) of any real value.
- The `Alea` generator and `Math.round(rng() * 255)`: the random stream is a parameter `rng: nat -> byte` that gives the already rounded component of each draw.
- FloodQueues.LowestIndex: the `typescript-collections` tie-break among equal priorities is not modelled. Any entry of lowest z may be taken, and every stated property holds for any choice.
- OceanFill.FillOcean: requires a non-empty grid. On an empty grid the source fails when it reads the neighbour table of (0, 0), and that failure is not modelled.
- `ndarrayStats`, `countUnique`, console output, the `isCoastalCell` buffer, `oceanCellCount`, `lakeCount`, and the `onmessage` / `postMessage` plumbing of the worker.
- WorldModel.World.constructor: `stats.biomePercents` divides each count by the land count in floating point. The model stops at the integer counts it divides. `World.params` is not kept.
- WorldModel.Cell.constructor: the back-reference `Cell.world` is not modelled.
- `World.cells` is a `Set` in the source. The model keeps it as a sequence of distinct cells in insertion order.
- The drainage basins reach the world as a plain object enumerated by `Object.entries`. The model takes that enumeration as a sequence of (id, basin) pairs, and `parseInt` of a key is its number.
- RegionMaps.WorldMap.AddRegion: an rxjs `ReplaySubject` is modelled only as the list of names emitted on it. Subscriptions and replay are not modelled. `Array2D` and `WorldRegion` are not part of this model: the grid is an `array2`, and a region is its name and its cell coordinates, which must lie on the grid.
- RemoveDepressions: each inner cell's water height is tied to that of a neighbour closed before it, which fixes every level on a plain, but the contract does not state that the result is the least fill that drains. That needs the lowest-first order of `open` carried through the proof, which is not done.
- The `Uint8ClampedArray` buffers hold bytes, modelled as a `byte` newtype. The flow-direction and terrain buffers hold enum values, modelled as datatypes.
