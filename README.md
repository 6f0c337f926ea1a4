# osmwave core, modelled in Dafny

osmwave turns OpenStreetMap data and SRTM elevation tiles into Wavefront OBJ
meshes. This project models four parts of it and proves properties about them:

- **The elevation store** (`src/elevation.cxx`, module `ElevationTiles`).
  The constructor names one `.hgt` file per integer-degree cell, for example
  `N59E018.hgt`. It opens the files that exist and stores their bytes in a
  flat slot array. It settles the tile resolution from the file size: 1201
  or 3601 samples per side. A query finds the tile of the cell that contains
  the point. It then decodes the four surrounding samples with
  `getTileValue` and blends them bilinearly.
- **The OBJ writer** (`src/ObjWriter.cxx`, module `Obj`).
  The stream is the list of records written so far. `vertIndex` is the
  1-based number of the next vertex. The `offset` taken at a checkpoint turns
  a batch's 0-based indices into the file's vertex numbers.
- **The building handler** (`src/osmwave.cxx`, class `ObjHandler`, modules
  `HeightTags` and `Buildings`).
  - `getBuildingHeight` reads a building's height from its tags. It uses the
    `height` tag's leading number (through the tag regex and `std::stod`),
    else `building:levels` times 3 metres, else a default.
  - `area` writes, for every outer ring, a vertical wall strip and a flat
    roof. The strip has two vertices per node and one quad between
    consecutive nodes. It stands on the lowest terrain height under the
    ring.
- **The terrain mesher** (`src/terrain.cxx`, module `Terrain`).
  `terrain_to_obj`:
  - samples heights on a grid, column by column;
  - thins the grid until a pass changes nothing;
  - compacts the surviving points in order;
  - sums face normals per vertex;
  - emits the vertices and the triangles.

The heart of each part is a proved statement:

- A tile file name parses back to its cell.
- A query inside the bounds, with every tile present, reads the tile of its
  own cell and returns a value between its four corner samples.
- Batches written one after the other get adjacent, disjoint vertex numbers.
- Every index a building face uses names the vertex the handler meant.
- The height tag shadows the levels tag, and a height regex match is
  characterised in both directions.
- A thinning pass never revives a point, and the convergence loop stops at a
  fixed point.
- Compaction keeps exactly the points with a height, in order and sorted by x.
- Every emitted triangle's face indices resolve to its own three corners.

Values that the source computes with `double` are `real` here. Tile bytes
are `bv8`, decoded through 32-bit words exactly as the C++ promotes
`int8_t`. The file system is a map from path to contents: a path that is not
a key is a file that does not open.

Where the code departs from what it evidently intends (SRTM tiles are
big-endian signed 16-bit grids, and thinning is meant for the interior
cells of the grid), the model follows the code:

- `thin` inspects slots `0 .. (cols-2)*(rows-2) - 1` of the column-major
  array, not the interior cells of the grid.
- `getTileValue` sign-extends both bytes before the OR. It agrees with a
  big-endian signed 16-bit read exactly when the low byte is below `0x80` or
  the high byte is `0xFF` (`GetTileValueIsBigEndianIff`).
- A missing tile file shifts every later tile one slot down, because the slot
  counter only advances on an opened file (`MissingTileShiftsSlots`).
- The sampled x and y are offsets from the projected south-west corner, not
  absolute coordinates: the source never adds `bounds[0]` or `bounds[1]`.
- The terrain vertex is written as (x, height, y), but its normal is written
  unswapped as (x, y, z).

## Model

| member | source | states |
|---|---|---|
| Digits.Decimal | src/elevation.cxx:19-20 | The decimal form of a number is a non-empty string of digits. |
| Digits.DecimalRoundTrip | src/elevation.cxx:19-20 | Reading the digits of a printed number gives back the number. |
| Projection.Transform | src/osmwave.cxx:73 | Projecting an interleaved coordinate buffer keeps its length. |
| Projection.TransformPair | src/osmwave.cxx:73 | Each (x, y) pair of the buffer is replaced by the projection of that pair, and nothing else moves. |
| ElevationTiles.ZeroPad | src/elevation.cxx:19-20 | `setw` with fill '0' yields exactly max(width, length) characters. |
| ElevationTiles.ZeroPadShape | src/elevation.cxx:19-20 | The padded string ends with the original string and is '0' before it. |
| ElevationTiles.DigitsValueZeroPad | src/elevation.cxx:19-20 | Zero padding keeps a digit string's value. |
| ElevationTiles.PaddedDecimalValue | src/elevation.cxx:19-20 | abs(lat) and abs(lon), printed and padded, read back as the same number. |
| ElevationTiles.FindEastWestSkipsDigits | src/elevation.cxx:19-20 | Scanning a tile name past the latitude digits stops at the 'E' or 'W'. |
| ElevationTiles.ParseNameParts | src/elevation.cxx:19-20 | A name made of a hemisphere letter, digits, a hemisphere letter, digits and ".hgt" parses to the signed latitude and longitude. |
| ElevationTiles.TileFileNameRoundTrip | src/elevation.cxx:18-20 | The file name of every cell parses back to exactly that cell, so distinct cells have distinct files. |
| ElevationTiles.TileFileNameFixedWidth | src/elevation.cxx:19-20 | Every cell with \|lat\| < 100 and \|lon\| < 1000 has an 11-character name. |
| ElevationTiles.TileFileNameExample | src/elevation.cxx:18-20 | Cell (59, 18) is the file "N59E018.hgt". |
| ElevationTiles.TileFileName | src/elevation.cxx:18-20 | A cell's file name is at least 11 characters long, starts with N or S by the sign of the latitude, and ends in ".hgt". |
| ElevationTiles.TilePath | src/elevation.cxx:18-22 | Definition with no contract of its own: the tiles directory, a '/', and the cell's file name. ElevationTiles.TilePathShape states its shape. |
| ElevationTiles.TilePathShape | src/elevation.cxx:18-22 | A cell's path starts with the tiles directory followed by '/', is exactly as long as both plus the file name, and ends in ".hgt". |
| ElevationTiles.TileResolution | src/elevation.cxx:26-37 | A file size gives resolution 1201 exactly when it is 2·1201², 3601 exactly when it is 2·3601², and no resolution otherwise. |
| ElevationTiles.NextTileSize | src/elevation.cxx:39-43 | Definition with no contract of its own: a recognised resolution is adopted while tileSize is still 0 or equal to it, a different one leaves tileSize as it was (only a warning), and an unrecognised size changes nothing. ElevationTiles.FirstResolutionAppend and ElevationTiles.LoadedTileSizeIsFirst state what the fold of it gives. |
| ElevationTiles.FirstResolution | src/elevation.cxx:26-43 | The first known resolution among the files opened is 1201 or 3601 when there is one. |
| ElevationTiles.FirstResolutionAppend | src/elevation.cxx:39-43 | Opening one more file changes the first known resolution only if none was known yet. |
| ElevationTiles.LoadedTileSizeIsFirst | src/elevation.cxx:26-43 | After loading, tileSize is the resolution of the first file with a known size, or 0 if there is none: a later mismatch only warns. |
| ElevationTiles.LoadedTileSize | src/elevation.cxx:26-43 | The tile size left by reading files in order is 0, 1201 or 3601. |
| ElevationTiles.TileNaming | src/elevation.cxx:18-22 | The naming the constructor uses maps each cell to its path under the tiles directory. |
| ElevationTiles.OpenedLength | src/elevation.cxx:24-59 | No more files are stored than cells are visited. |
| ElevationTiles.RowCellsAt | src/elevation.cxx:17 | The inner loop visits longitudes west..east in order. |
| ElevationTiles.GridCellsLength | src/elevation.cxx:13-17 | The loops visit (north-south+1)·cols cells, the size of the slot array. |
| ElevationTiles.GridCellsSplit | src/elevation.cxx:16-17 | The cells visited up to row lat are those up to row lat-1 followed by row lat. |
| ElevationTiles.GridCellsAt | src/elevation.cxx:13-17 | Cell (lat, lon) is visited at position (lat-south)·cols + (lon-west). |
| ElevationTiles.SlotCountCells | src/elevation.cxx:13-17 | A slot count that is not negative either has rows of non-negative width or has no row to visit, and the cells the loops visit fit in that many slots. |
| ElevationTiles.OpenedAllPresent | src/elevation.cxx:24-56 | When every file opens, the k-th stored tile is the file of the k-th cell. |
| ElevationTiles.SlotOfCell | src/elevation.cxx:15-56 | When every file opens, the slot (lat-south)·cols + (lon-west) holds the file of cell (lat, lon). |
| ElevationTiles.MissingTileShiftsSlots | src/elevation.cxx:56-59 | With cell (0,0) missing, the file of cell (0,1) lands in slot 0, the slot of the missing cell. |
| ElevationTiles.WordPositive | src/elevation.cxx:76 | With both bytes below 0x80, the sign-extended OR is the plain 16-bit word. |
| ElevationTiles.WordNegativeHigh | src/elevation.cxx:76 | With a negative high byte and a low byte below 0x80, the word is the 16-bit word with the upper half set. |
| ElevationTiles.WordNegativeLow | src/elevation.cxx:76 | With a negative low byte, its sign extension covers the high byte entirely. |
| ElevationTiles.WordInRange | src/elevation.cxx:76 | The word getTileValue builds, read as a signed 32-bit integer, lies in the signed 16-bit range. |
| ElevationTiles.GetTileValue | src/elevation.cxx:75-77 | getTileValue always returns a value in -32768 .. 32767. |
| ElevationTiles.GetTileValuePositive | src/elevation.cxx:75-77 | With both bytes below 0x80, getTileValue is the big-endian signed value. |
| ElevationTiles.GetTileValueNegativeHigh | src/elevation.cxx:75-77 | With a negative high byte and a low byte below 0x80, getTileValue is the big-endian signed value. |
| ElevationTiles.GetTileValueNegativeLow | src/elevation.cxx:75-77 | With a low byte of 0x80 or more, getTileValue is the low byte's signed value, whatever the high byte. |
| ElevationTiles.GetTileValueCases | src/elevation.cxx:75-77 | getTileValue in full: the big-endian value when the low byte is below 0x80, else the low byte alone. |
| ElevationTiles.GetTileValueIsBigEndianIff | src/elevation.cxx:75-77 | getTileValue equals the big-endian signed 16-bit value if and only if the low byte is below 0x80 or the high byte is 0xFF. |
| ElevationTiles.LerpBetween | src/elevation.cxx:98-99 | Each linear blend by a fraction in [0,1] lies between its two samples. |
| ElevationTiles.Lerp | src/elevation.cxx:98-101 | Definition with no contract of its own: a + (b - a)·t, the blend each of the three lines uses. ElevationTiles.LerpBetween states its bounds. |
| ElevationTiles.Bilinear | src/elevation.cxx:98-101 | Definition with no contract of its own: v00 to v10 and v01 to v11 by the column fraction, then the two by the row fraction. ElevationTiles.BilinearBetweenCorners states its bounds. |
| ElevationTiles.BilinearBetweenCorners | src/elevation.cxx:98-101 | The bilinear result lies between the least and the greatest of the four corner samples. |
| ElevationTiles.Interpolate | src/elevation.cxx:86-101 | For a tile of 2·tileSize² bytes with tileSize ≥ 2 and in-cell fractions in [0,1), the query always yields a value. |
| ElevationTiles.FractionGridIndex | src/elevation.cxx:86-90 | A fraction in [0,1) falls on grid row or column 0..tileSize-2. |
| ElevationTiles.SampleIndex | src/elevation.cxx:91 | Definition with no contract of its own: the byte offset ((tileSize - rowI - 1)·tileSize + colI)·2, rows stored north to south. ElevationTiles.SampleOffsetsInTile states where it lies. |
| ElevationTiles.GridPosition | src/elevation.cxx:86-87 | Definition with no contract of its own: the offset inside the cell scaled by tileSize - 1. ElevationTiles.FractionGridIndex states where its floor falls. |
| ElevationTiles.Corners | src/elevation.cxx:89-97 | Definition with no contract of its own: the four reads at index, index + 2, index - 2·tileSize and index - 2·tileSize + 2, or none when a byte lies outside the tile (undefined behaviour in the source). ElevationTiles.CornersInTile states that every in-cell query reads all four. |
| ElevationTiles.SampleOffsetsInTile | src/elevation.cxx:91-97 | All four sample offsets, including the row above, lie inside a tile of 2·tileSize² bytes. |
| ElevationTiles.CornersInTile | src/elevation.cxx:91-97 | A well-formed tile always yields its four corner samples. |
| ElevationTiles.InterpolateBetweenSamples | src/elevation.cxx:94-101 | A successful query lies between its four decoded corner samples. |
| ElevationTiles.InterpolateAtNode | src/elevation.cxx:92-101 | A query exactly on a grid node returns that node's sample. |
| ElevationTiles.SnapshotStores | src/elevation.cxx:13-62 | The finished slot array holds the opened files in order and nothing after them. |
| ElevationTiles.LoadAll | src/elevation.cxx:15-61 | For any bounds whose rows have a non-negative width, the two loops store, in order, the file of every cell that opened; the slots after them stay empty; tileSize is what reading them left. |
| ElevationTiles.LoadGridRow | src/elevation.cxx:16-60 | One latitude row extends the stored files by the files of that row that opened. |
| ElevationTiles.LoadRow | src/elevation.cxx:17-60 | The inner loop extends the stored files by those of its cells that opened. |
| ElevationTiles.LoadTile | src/elevation.cxx:17-59 | One longitude step stores the cell's file if it opens. |
| ElevationTiles.RowCellsStep | src/elevation.cxx:17 | Visiting longitude lon appends cell (lat, lon) to the cells visited. |
| ElevationTiles.OpenTile | src/elevation.cxx:18-59 | An opened file goes into slot i and advances i; a missing file leaves slots and counter unchanged. |
| ElevationTiles.Elevation.constructor | src/elevation.cxx:11-62 | Whenever the slot count (north-south+1)·(east-west+1) is not negative, so that the allocation does not throw, the store keeps its bounds and cols = east-west+1, has that many slots, and holds exactly the files that opened, in cell order; reversed bounds visit no cell. |
| ElevationTiles.Elevation.StoredTile | src/elevation.cxx:82-84 | When every file opens, the slot the query computes for a cell holds that cell's file. |
| ElevationTiles.Elevation.ReadsSlot | src/elevation.cxx:80-101 | A query whose slot holds a tile interpolates in that tile at the point's offsets inside its cell. |
| ElevationTiles.Elevation.QueryReadsCellTile | src/elevation.cxx:79-101 | When every file opens, a query inside the bounds interpolates in the tile of the cell containing the point. |
| ElevationTiles.Elevation.ElevationAt | src/elevation.cxx:79-110 | A query fails with OutsideStore exactly when its cell's slot index is outside the slot array, and with MissingTile exactly when that slot is empty; a height only ever comes from a filled slot. |
| ElevationTiles.Elevation.ReversedBoundsAnswerNothing | src/elevation.cxx:13-17 | With reversed bounds whose slot count is not negative, the loops visit no cell and every query fails. |
| ElevationTiles.NewElevation | src/elevation.cxx:11-13 | Building the store fails with BadArrayNewLength exactly when the slot count (north-south+1)·(east-west+1) is negative; otherwise it yields a fresh store of those bounds holding exactly the files that opened. |
| Obj.VerticesAppend | src/ObjWriter.cxx:18-21 | The vertices of two streams written one after the other are the vertices of the first followed by those of the second. |
| Obj.FacesAppend | src/ObjWriter.hxx:25-27 | The faces of two streams written one after the other are those of the first followed by those of the second. |
| Obj.AppendOne | src/ObjWriter.hxx:23-27 | One more record adds its vertex, if any, and its face, if any. |
| Obj.VertexLinesVertices | src/ObjWriter.cxx:18-21 | A batch of vertex records defines exactly the batch's vertices, in order, and no face. |
| Obj.ResolveAfter | src/ObjWriter.cxx:17-26 | Local vertex k of records appended after a prefix has number (prefix's vertex count)+1+k. |
| Obj.ResolvePrefix | src/ObjWriter.cxx:20 | Appending records never renumbers a vertex already written. |
| Obj.BatchNumbering | src/ObjWriter.cxx:17-26 | The k-th vertex of a batch is vertex startVertIndex+k of the file, the shift the face loop applies. |
| Obj.AdjacentBatches | src/ObjWriter.cxx:15-31 | Two batches in a row are numbered [s, s+n1) and [s+n1, s+n1+n2): adjacent and disjoint, each resolving to its own vertices. |
| Obj.FirstBatch | src/ObjWriter.cxx:17-20 | A batch keeps its numbers whatever is written after it. |
| Obj.SecondBatch | src/ObjWriter.cxx:17-20 | The batch written last is numbered from one past the vertices before it. |
| Obj.ObjWriter.constructor | src/ObjWriter.cxx:4-5 | A new writer has written nothing and numbers its first vertex 1. |
| Obj.ObjWriter.WriteMaterialLibrary | src/ObjWriter.cxx:7-9 | Appends one material-library record and leaves the counter alone. |
| Obj.ObjWriter.WriteMaterial | src/ObjWriter.cxx:11-13 | Appends one material record and leaves the counter alone. |
| Obj.ObjWriter.Write | src/ObjWriter.cxx:15-31 | Appends one vertex record per vertex, in order, advances the counter by the batch size, returns the new counter, and keeps the counter equal to vertices written + 1. |
| Obj.ObjWriter.Checkpoint | src/ObjWriter.hxx:21 | The batch base becomes the current counter. |
| Obj.ObjWriter.WriteVertex | src/ObjWriter.hxx:23 | Appends a vertex record, returns its number and advances the counter by one. |
| Obj.ObjWriter.WriteVertexNormal | src/ObjWriter.hxx:24 | As WriteVertex, for a vertex with a normal. |
| Obj.ObjWriter.BeginFace | src/ObjWriter.hxx:25 | Starts an empty face. |
| Obj.ObjWriter.AddIndex | src/ObjWriter.hxx:26 | Adds a batch-relative index shifted by the checkpoint's offset. |
| Obj.ObjWriter.EndFace | src/ObjWriter.hxx:27 | Appends the face built so far and clears it; vertex numbering is unchanged. |
| Obj.WriteTwoBatches | src/ObjWriter.cxx:17-30 | The second `write` starts where the first ended: the counters it returns are start+n1 and start+n1+n2. |
| HeightTags.RunFacts | src/osmwave.cxx:110 | A greedy character-class run covers only class members and stops at a non-member or at the end. |
| HeightTags.Run | src/osmwave.cxx:110 | The end of a greedy run of one character class lies between its start and the end of the string. HeightTags.RunFacts and HeightTags.RunCovers state that it is the longest such run. |
| HeightTags.RunCovers | src/osmwave.cxx:110 | A greedy run reaches at least as far as any stretch of class members. |
| HeightTags.HeightPattern | src/osmwave.cxx:110-121 | A captured height group is non-empty and made only of digits and points. |
| HeightTags.TailGreedy | src/osmwave.cxx:110 | After the number, spaces-then-non-spaces-then-spaces up to the end is accepted. |
| HeightTags.TailEnd | src/osmwave.cxx:110 | Definition with no contract of its own: where \s*(\S*)\s* run greedily from a position ends. HeightTags.TailGreedy states what it consumes. |
| HeightTags.HeightPatternSound | src/osmwave.cxx:110-121 | When the height regex matches, the string splits into spaces, a number group, spaces, a unit and spaces, and the captured group is the number part. |
| HeightTags.PointwiseDecomposition | src/osmwave.cxx:110 | A string whose five stretches hold the right character classes matches the regex's shape. |
| HeightTags.HeightPatternComplete | src/osmwave.cxx:110-121 | Whenever the string has the regex's shape, the regex matches, and its greedy group begins with that decomposition's number part. |
| HeightTags.DecompositionPointwise | src/osmwave.cxx:110 | The regex's shape fixes the class of every character of the string. |
| HeightTags.StodDigits | src/osmwave.cxx:122 | `stod` of a digit string is its decimal value. |
| HeightTags.Stod | src/osmwave.cxx:122 | `stod` only succeeds on a string that holds at least one digit. |
| HeightTags.StodDecimal | src/osmwave.cxx:122 | `stod` of a printed natural number gives the number back. |
| HeightTags.StodLonePoint | src/osmwave.cxx:122 | `stod` rejects ".", "abc" and the empty string. |
| HeightTags.StodFraction | src/osmwave.cxx:122 | "2.5" reads as 2.5. |
| HeightTags.StodStopsAtText | src/osmwave.cxx:129 | Leading spaces are skipped and trailing text is ignored: " 4 levels" reads as 4. |
| HeightTags.StodPointed | src/osmwave.cxx:122 | A number with a point reads as whole part + fraction/10^length, scaled by its exponent. |
| HeightTags.StodScientific | src/osmwave.cxx:122 | "a.be c" reads as (a + b/10^\|b\|)·10^c for digit strings a, b, c. |
| HeightTags.ExponentDigits | src/osmwave.cxx:122 | An 'e' followed by digits to the end gives their value as exponent. |
| HeightTags.Compose | src/osmwave.cxx:122 | Definition with no contract of its own: (whole + fraction/10^length)·10^exponent, the value stod gives the parts. HeightTags.StodScientific states it for a read number. |
| HeightTags.Exponent | src/osmwave.cxx:122 | Definition with no contract of its own: the value of e[+-]digits at a position, 0 when no digits follow the e. HeightTags.ExponentDigits states its value. |
| HeightTags.StodExponent | src/osmwave.cxx:122 | "1.5e2" reads as 150. |
| HeightTags.GetBuildingHeight | src/osmwave.cxx:109-138 | The function only fails when the height tag matches the regex and its number group does not parse; the failure carries that group. |
| HeightTags.HeightTagShadowsLevels | src/osmwave.cxx:114-125 | While the height tag is present, the levels tag has no influence on the result. |
| HeightTags.UnmatchedHeightIsDefault | src/osmwave.cxx:112-123 | A height tag that does not have the regex's shape gives the default height. |
| HeightTags.NumericHeightTag | src/osmwave.cxx:114-123 | A height tag that is a number followed by a unit gives that number. |
| HeightTags.LevelsTimesThree | src/osmwave.cxx:124-131 | Without a height tag, n levels give 3·n metres (METERS_PER_LEVEL, osmwave.cxx:31). |
| HeightTags.LevelsFallBackToDefault | src/osmwave.cxx:124-134 | Without a height tag, and with no levels tag or one that does not parse, the height is the default. |
| HeightTags.LonePointHeightThrows | src/osmwave.cxx:120-122 | A height tag "." matches the regex but its group does not parse, so the call fails. |
| Buildings.StdMin | src/osmwave.cxx:70 | `std::min` is a lower bound of both arguments and one of them. |
| Buildings.MinElevation | src/osmwave.cxx:64-71 | The ring's minimum never exceeds the largest double it starts from. |
| Buildings.MinElevationIsLeast | src/osmwave.cxx:64-71 | The minimum is at most every node's elevation and is one of them, or the start value for an empty ring. |
| Buildings.MinElevationAppend | src/osmwave.cxx:70 | One more node folds its elevation in with `std::min`. |
| Buildings.RadianCoords | src/osmwave.cxx:65-69 | The buffer holds two numbers per node. |
| Buildings.RadianCoordsStep | src/osmwave.cxx:68-69 | Each node appends its longitude and latitude in radians, in that order. |
| Buildings.RadianCoordsPair | src/osmwave.cxx:68-69 | Entries 2k and 2k+1 are node k's longitude and latitude in radians. |
| Buildings.ProjectNodes | src/osmwave.cxx:73 | Projecting the ring keeps two numbers per node. |
| Buildings.ProjectNodesIsTransform | src/osmwave.cxx:73 | The projected ring is pj_transform applied to the radian buffer. |
| Buildings.Bottom | src/osmwave.cxx:88 | Definition with no contract of its own: node k's wall foot is (projected y, foot elevation, projected x). Buildings.Top and Buildings.WallVertices state its use. |
| Buildings.Top | src/osmwave.cxx:88-89 | Node k's wall top is straight above its foot, higher by exactly the wall height. |
| Buildings.WallLines | src/osmwave.cxx:83-99 | Definition with no contract of its own: the records ringWalls writes for the first n nodes. Buildings.WallLinesLength, Buildings.WallVertices and Buildings.WallFaces state its properties. |
| Buildings.WallLinesLength | src/osmwave.cxx:83-99 | The walls of n nodes are 3n-1 records: two vertices per node and one quad per node after the first. |
| Buildings.RingLines | src/osmwave.cxx:75-76 | Definition with no contract of its own: a ring's walls followed by its roof face. Buildings.RingLinesLength, Buildings.RingVertices and Buildings.RingFaces state its properties. |
| Buildings.RingLinesLength | src/osmwave.cxx:75-76 | A ring of n nodes adds 3n records (one record for an empty ring), the last of which is its roof face. |
| Buildings.RoofFace | src/osmwave.cxx:101-107 | The roof has one index per node, index i being 2i+1 plus the offset: the top vertex of node i. |
| Buildings.Quad | src/osmwave.cxx:91-95 | Definition with no contract of its own: the indices vertexCount-2, vertexCount, vertexCount+1, vertexCount-1 for vertexCount = 2k, shifted by the offset. Buildings.QuadCorners and Buildings.WallFaces state which vertices they name. |
| Buildings.RoofAfterWalls | src/osmwave.cxx:75-76 | Walls followed by the roof are the records of one ring. |
| Buildings.PairRecords | src/osmwave.cxx:87-97 | Node k writes its foot and its top, and, except for the first node, the quad back to node k-1. |
| Buildings.PairLines | src/osmwave.cxx:87-97 | Definition with no contract of its own: one turn of the ringWalls loop: the foot and the top of node k, then the quad for k ≥ 1. Buildings.PairRecords states its vertices and faces. |
| Buildings.WallVertexCount | src/osmwave.cxx:83-98 | The walls of n nodes write 2n vertices. |
| Buildings.WallVertices | src/osmwave.cxx:87-89 | Wall vertices 2k and 2k+1 are node k's foot and top. |
| Buildings.WallFaceCount | src/osmwave.cxx:91-95 | The walls of n nodes write n-1 quads, none for an empty ring. |
| Buildings.WallFaces | src/osmwave.cxx:91-95 | The (k-1)-th wall face is the quad between nodes k-1 and k. |
| Buildings.WallFacesStep | src/osmwave.cxx:91-95 | One more node adds exactly the quad to the previous node. |
| Buildings.RingFaces | src/osmwave.cxx:75-76 | A ring writes n-1 quads followed by the roof (just the roof for an empty ring). |
| Buildings.RingIndicesInBatch | src/osmwave.cxx:83-107 | Every index of every face of a ring lies among the ring's own 2n vertices. |
| Buildings.RingVertexCount | src/osmwave.cxx:75-76 | A ring writes 2n vertices. |
| Buildings.RingVertices | src/osmwave.cxx:87-89 | The ring's vertices 2m and 2m+1 are node m's foot and top. |
| Buildings.RingNodeVertices | src/osmwave.cxx:86-89 | After the checkpoint, global numbers offset+2m and offset+2m+1 resolve to node m's foot and top. |
| Buildings.QuadCorners | src/osmwave.cxx:93 | Quad k's four indices resolve to foot k-1, foot k, top k and top k-1. |
| Buildings.RoofCorners | src/osmwave.cxx:104 | Roof index i resolves to node i's top vertex. |
| Buildings.Heights | src/osmwave.cxx:53-54 | On success the pair is (the height reading with the handler's default and height/building:levels, the base reading with default 0 and min_height/building:min_level); the pair succeeds exactly when both readings do; a failed height reading's error is the one reported, and otherwise the min_height reading's. |
| Buildings.RingAtVertexCount | src/osmwave.cxx:75-76 | Each ring of an area writes two vertices per node. |
| Buildings.RingAt | src/osmwave.cxx:75-76 | Definition with no contract of its own: ring k's walls from its ground + baseHeight with height - baseHeight, then its roof, numbered after the rings before it. Buildings.RingAtVertexCount, Buildings.RingAtIs and Buildings.RingAtNodeVertices state its properties. |
| Buildings.AreaLinesStep | src/osmwave.cxx:56-79 | Each pass of the ring loop appends that ring's records, checkpointed at the counter its predecessors left. |
| Buildings.RingAtIs | src/osmwave.cxx:75-76 | The r-th ring's records are its walls and roof on its lowest ground plus the base height. |
| Buildings.AreaVertexCount | src/osmwave.cxx:56-79 | An area writes two vertices per node of all its rings. |
| Buildings.AreaLines | src/osmwave.cxx:56-79 | Definition with no contract of its own: the records of the first r outer rings, each ring checkpointed after the vertices of the rings before it. Buildings.AreaLinesStep, Buildings.AreaVertexCount and Buildings.AreaNodeVertices state its properties. |
| Buildings.RingAtNodeVertices | src/osmwave.cxx:86-89 | Node m of ring k resolves to its foot and top at numbers first + 2·(nodes before ring k) + 2m (+1). |
| Buildings.LastRingNodeVertices | src/osmwave.cxx:56-79 | After ring k is written, its nodes resolve to their own foot and top. |
| Buildings.AreaNodeVertices | src/osmwave.cxx:56-79 | Whatever rings follow, every node of an earlier ring keeps resolving to its own foot and top. |
| Buildings.ResolveKept | src/osmwave.cxx:56-79 | Writing more rings does not change what earlier vertex numbers resolve to. |
| Buildings.ObjHandler.constructor | src/osmwave.cxx:41-42 | The handler keeps its projection, writer, elevation query and default height. |
| Buildings.ObjHandler.Elevations | src/osmwave.cxx:65-70 | One terrain height per node read. |
| Buildings.ObjHandler.Ground | src/osmwave.cxx:64-71 | A ring's ground is no higher than the terrain at any of its nodes, and is the terrain height at one of them unless it is still DBL_MAX (which it is for an empty ring). |
| Buildings.ObjHandler.RingGrounds | src/osmwave.cxx:56-71 | One ground height per ring. |
| Buildings.ObjHandler.ReadRing | src/osmwave.cxx:64-71 | The loop fills wayCoords with the radian coordinates and returns the ring's lowest terrain height. |
| Buildings.ObjHandler.WritePair | src/osmwave.cxx:88-97 | One iteration of ringWalls writes the node's two vertices and its quad, under the same offset. |
| Buildings.ObjHandler.RingWalls | src/osmwave.cxx:83-99 | Checkpoints, then writes the wall records of the ring, advancing the counter by the buffer's length. |
| Buildings.ObjHandler.FlatRoof | src/osmwave.cxx:101-107 | Writes one face through every top vertex and no vertex. |
| Buildings.ObjHandler.RingGroundsAt | src/osmwave.cxx:64-71 | A ring's ground is the lowest terrain under its own nodes. |
| Buildings.ObjHandler.Ring | src/osmwave.cxx:57-78 | One ring's records are written on its lowest ground plus the base height, numbered from the counter at its start. |
| Buildings.ObjHandler.Rings | src/osmwave.cxx:56-79 | The ring loop writes every outer ring in order, each numbered after the previous ones. |
| Buildings.ObjHandler.Area | src/osmwave.cxx:44-80 | A way without a building tag writes nothing; an unparseable height fails and writes nothing; otherwise every ring is written with the tag heights. |
| Buildings.OsmHandler | src/osmwave.cxx:41-42 | The handler osm_to_obj builds without a height argument gets the default building height of 8 metres. |
| Terrain.VecSub | src/terrain.cxx:21-25 | vecSub is undone by vecAdd: (a - b) + b = a. |
| Terrain.VecAdd | src/terrain.cxx:15-19 | Adding to the zero vector gives the added vector, which is how the zeroed normal buffer starts; subtracting the addend componentwise gives the first vector back. |
| Terrain.Cross | src/terrain.cxx:34-36 | The cross product is orthogonal to both edges. |
| Terrain.NearSlot | src/terrain.cxx:45-52 | The walk ends on a later slot that has a height. |
| Terrain.NearSlotFirst | src/terrain.cxx:45-52 | The walk ends on the first slot along its stride that has a height; every slot it passes is empty. |
| Terrain.FindNearHeight | src/terrain.cxx:45-52 | Returns the height of the first slot with a height, stepping dx·rows+dy from index. |
| Terrain.Abs | src/terrain.cxx:65-67 | `abs` is non-negative and is the argument or its negation. |
| Terrain.Inspected | src/terrain.cxx:58-59 | A pass inspects some slot exactly when the grid is at least 3×3. |
| Terrain.ThinStep | src/terrain.cxx:60-75 | Inspecting one slot keeps the array's length and the condition that keeps the walks inside it. |
| Terrain.Removed | src/terrain.cxx:72 | Definition with no contract of its own: the point with its height set to NaN (no height), its x and y kept. Terrain.ThinPassDecides and Terrain.PassesKeepX state its effect. |
| Terrain.Flat | src/terrain.cxx:61-71 | Definition with no contract of its own: the slot's height is within tolerance of all three heights findNearHeight returns for dx = 1 and dy = -1, 0, 1. Terrain.ThinStep and Terrain.ThinPassDecides state its use. |
| Terrain.ThinPrefix | src/terrain.cxx:58-80 | Inspecting the first k slots keeps the array's length and the walk condition. |
| Terrain.ThinPass | src/terrain.cxx:54-83 | A pass keeps the array's length and the conditions under which the next pass may run. |
| Terrain.PresentCount | src/terrain.cxx:74 | The count of points with a height is at most the number of points. |
| Terrain.SlotInPrefix | src/terrain.cxx:58-78 | The counter at (i, j) is (i-1)(rows-2)+(j-1), inside the inspected prefix. |
| Terrain.ThinSlot | src/terrain.cxx:60-76 | The loop body changes the array as one thinning step and reports whether the point survived with a height. |
| Terrain.PresentCountStep | src/terrain.cxx:74 | One more slot adds one to the count exactly when it has a height. |
| Terrain.VisitSlot | src/terrain.cxx:60-78 | One inner iteration extends the thinned prefix by one slot and keeps nonEmpty equal to the survivors counted. |
| Terrain.Thin | src/terrain.cxx:54-83 | `thin` turns the array into one pass of the reference thinning and returns how many inspected slots keep a height. |
| Terrain.ThinPrefixShape | src/terrain.cxx:60-76 | During a pass each point is untouched, or it was inspected and had its height removed. |
| Terrain.ThinPrefixSettled | src/terrain.cxx:58-80 | Once slot t is inspected, later steps of the pass leave it as it is. |
| Terrain.ThinPassDecides | src/terrain.cxx:60-72 | A pass removes slot t exactly when it had no height or its height is within tolerance of the three walks on the array as the pass found it. |
| Terrain.ThinPassShape | src/terrain.cxx:60-76 | A pass leaves slots past the inspected prefix alone, never revives a point, never changes a height, and keeps every x and y. |
| Terrain.PresentCountCompare | src/terrain.cxx:74 | Removing heights never raises the count, and an equal count means the same points still have heights. |
| Terrain.PassCount | src/terrain.cxx:54-83 | A pass never raises the count, and a pass that keeps the count changes nothing. |
| Terrain.Passes | src/terrain.cxx:125-128 | Repeated passes keep the array's length and thinning conditions. |
| Terrain.Converge | src/terrain.cxx:121-128 | The loop stops after finitely many passes, at an array one more pass would not change, and the last count is that array's survivors. |
| Terrain.GridCoordinates | src/terrain.cxx:107-110 | Column c's x and row r's y are the source's offsets (bounds[2]-bounds[0])·c/cols and (bounds[3]-bounds[1])·r/rows. |
| Terrain.GridX | src/terrain.cxx:108 | Column 0 sits at x = 0 and a column index equal to cols would reach the full projected width: the columns span offsets from 0, not from the west bound. |
| Terrain.GridY | src/terrain.cxx:110 | Row 0 sits at y = 0 and a row index equal to rows would reach the full projected height. |
| Terrain.ColumnXsSorted | src/terrain.cxx:104-108 | For a west-to-east projection, x grows with the column. |
| Terrain.Column | src/terrain.cxx:109-118 | A column holds one point per row. |
| Terrain.Grid | src/terrain.cxx:107-119 | The grid holds rows·cols points. |
| Terrain.Sample | src/terrain.cxx:107-119 | The sampling loops fill the first rows·cols slots with the grid, column by column, and leave the rest. |
| Terrain.SampleNextColumn | src/terrain.cxx:107-119 | One outer iteration extends the sampled prefix by one column. |
| Terrain.SampleColumn | src/terrain.cxx:109-118 | The inner loop writes one column's points at i..i+rows and nothing else. |
| Terrain.GridColumn | src/terrain.cxx:107-119 | Column c of the grid occupies slots c·rows .. (c+1)·rows. |
| Terrain.ColumnAt | src/terrain.cxx:114-117 | Row r of a column is the point sampled at (column x, row y). |
| Terrain.GridAt | src/terrain.cxx:114-117 | Slot c·rows + r holds the point of column c and row r. |
| Terrain.ColumnOnX | src/terrain.cxx:115 | Every point of a column has that column's x. |
| Terrain.GridWestOf | src/terrain.cxx:107-119 | Points of columns with x at most a bound have x at most that bound. |
| Terrain.AppendSorted | src/terrain.cxx:104-106 | Appending a column at x m to points sorted by x and all at most m keeps them sorted. |
| Terrain.GridSorted | src/terrain.cxx:104-106 | With growing column x's the grid is sorted by x. |
| Terrain.SampledSorted | src/terrain.cxx:104-108 | The sampled grid is sorted by x whenever the projection runs west to east, as the triangulation needs. |
| Terrain.KeptCount | src/terrain.cxx:130-135 | Compaction keeps as many points as have a height. |
| Terrain.Kept | src/terrain.cxx:130-135 | Compaction keeps no more points than it is given. |
| Terrain.KeptMembers | src/terrain.cxx:130-135 | A point is kept exactly when it is among the inputs and has a height. |
| Terrain.KeptSorted | src/terrain.cxx:130-135 | Compaction keeps points sorted by x in order. |
| Terrain.KeptStep | src/terrain.cxx:132-134 | One more slot appends its point exactly when it has a height. |
| Terrain.KeepIfPresent | src/terrain.cxx:132-134 | One iteration moves slot i's point to j when it has a height, and extends the compacted prefix. |
| Terrain.Compact | src/terrain.cxx:130-135 | The loop moves the points with a height, in order, to the front and returns their count; the rest of the array is as before. |
| Terrain.FaceNormalOrthogonal | src/terrain.cxx:27-43 | Before normalisation a triangle's normal is orthogonal to both edges leaving p1. |
| Terrain.FaceNormal | src/terrain.cxx:27-43 | Definition with no contract of its own: the normaliser applied to the cross product of the edges p1→p2 and p1→p3. Terrain.FaceNormalOrthogonal states its property. |
| Terrain.Corners | src/terrain.cxx:148-150 | A triangle touches vertex v zero to three times, zero exactly when no corner is v. |
| Terrain.AccumulatedIsSum | src/terrain.cxx:144-151 | Vertex v's accumulated normal is the sum, over triangles, of each face normal times the number of its corners at v. |
| Terrain.Accumulated | src/terrain.cxx:144-151 | Definition with no contract of its own: normals[v] after the first k triangles: zero, then the face normal added for each of p1, p2, p3 that is v. Terrain.AccumulatedIsSum equates it with the sum over incident triangles, and Terrain.AccumulateNormals computes it. |
| Terrain.AddCorners | src/terrain.cxx:148-150 | The three vecAdd calls add the face normal once per corner at v. |
| Terrain.UntouchedNormal | src/terrain.cxx:144 | A vertex no triangle touches keeps the zero normal memset gave it. |
| Terrain.AccumulateNormals | src/terrain.cxx:144-151 | After the loop, every kept vertex's normal is its accumulated sum, and slots past the kept count are untouched. |
| Terrain.AddNormal | src/terrain.cxx:146-150 | One triangle adds its face normal to each of its corners. |
| Terrain.VertexRecordsVertices | src/terrain.cxx:154-156 | The emitted vertex records define the kept points, as (x, height, y), in order. |
| Terrain.MeshVertex | src/terrain.cxx:155 | Definition with no contract of its own: a kept point is written as (x, height, y). Terrain.VertexRecordsVertices, Terrain.EmittedTriangle and Terrain.EmittedCorner state its use. |
| Terrain.VertexRecordsNoFaces | src/terrain.cxx:154-156 | The vertex loop writes no face. |
| Terrain.FaceRecordsFaces | src/terrain.cxx:158-162 | Face i is triangle i's three corners shifted by the offset. |
| Terrain.FaceRecordsNoVertices | src/terrain.cxx:158-162 | The face loop writes no vertex. |
| Terrain.Emit | src/terrain.cxx:153-162 | Checkpoints, writes one vertex per kept point, then one face per triangle numbered from the checkpoint. |
| Terrain.EmitVertices | src/terrain.cxx:154-156 | The vertex loop writes the kept points with their normals and advances the counter by their number. |
| Terrain.EmitFaces | src/terrain.cxx:158-162 | The face loop writes each triangle's shifted corners. |
| Terrain.EmitFace | src/terrain.cxx:158-162 | One turn of the face loop appends exactly one face record: the triangle's three corners shifted by the checkpoint offset. |
| Terrain.EmittedVertices | src/terrain.cxx:153-162 | Faces written after the vertices do not change the vertex list. |
| Terrain.EmittedFaces | src/terrain.cxx:153-162 | The faces of the output are those before plus one per triangle. |
| Terrain.EmittedTriangle | src/terrain.cxx:153-162 | Every emitted face's three indices resolve to its triangle's own three points. |
| Terrain.EmittedFace | src/terrain.cxx:158-162 | Face i of the output is triangle i's shifted corners. |
| Terrain.EmittedCorner | src/terrain.cxx:153-156 | Vertex number k + offset resolves to kept point k. |
| Terrain.Samples | src/terrain.cxx:89-91 | The sample count exceeds the span measured in arc seconds by at most one; it is at least 1 exactly when lo <= hi, and negative exactly when hi is more than an arc second below lo. |
| Terrain.ProjectedBounds | src/terrain.cxx:92-94 | The projected bounds are four numbers. |
| Terrain.ProjectedCorners | src/terrain.cxx:92-94 | The bounds are the projections of the south-west and north-east corners in radians. |
| Terrain.SampledReady | src/terrain.cxx:100-128 | A fully sampled grid meets thinning's conditions. |
| Terrain.PassesKeepX | src/terrain.cxx:125-128 | Thinning never moves a point's x. |
| Terrain.SortedBySameX | src/terrain.cxx:104-106 | Order by x survives changes that keep every x. |
| Terrain.KeptPresent | src/terrain.cxx:132 | Every kept point has a height. |
| Terrain.FlatGridCorner | src/terrain.cxx:54-83 | On a flat 3×3 grid one pass removes slot 0, the first inspected, and keeps the centre slot 4. |
| Terrain.SampleAndThin | src/terrain.cxx:85-128 | Samples the grid, thins to a fixed point, and leaves the thinned points sorted by x. |
| Terrain.Mesh | src/terrain.cxx:130-162 | Compacts, triangulates the kept points, accumulates normals and emits exactly the kept vertices and the triangles. |
| Terrain.MeshGrid | src/terrain.cxx:85-162 | For a box that is not reversed: the output is the kept points of the converged thinning, with their accumulated normals, then the triangles numbered from the counter at its start. |
| Terrain.MeshEmptyGrid | src/terrain.cxx:100-162 | A grid with no slot keeps no point, gets no triangle and writes no record. |
| Terrain.EmptyBatch | src/terrain.cxx:139-162 | With no point, the triangulator returns no triangle and the batch has no vertex or face record. |
| Terrain.TerrainToObj | src/terrain.cxx:85-167 | The whole pipeline. A box whose rows·cols is negative fails with BadArrayNewLength and writes nothing; rows·cols = 0 keeps no point and writes no record; otherwise the output is the kept points of the converged thinning, with their accumulated normals, then the triangles numbered from the counter at its start. |

## Left out

- File and stream I/O. The tile directory is a map from path to contents, and the OBJ stream is a list of records. Record text formatting and the `cerr` diagnostics are not modelled. In particular `materialLibrary` writes "mtllib" directly followed by the path, with no space, and `material` writes "mtl" followed by the name (ObjWriter.cxx:8, 12), so MaterialLibrary and UseMaterial records stand for that text, not for valid OBJ statements.
- `pj_transform` and `pj_init_plus`: a projection is a function parameter. `Triangulate` (Delaunay.h) is a function parameter that must only return triangles over the given points. The `sqrt` normalisation of `triangleNormal` is a function parameter too.
- Floating point: `double` is `real`. Rounding, NaN as a value (a missing height is `None`), and `floor` on large values are not modelled.
- `src/cli.cxx`, `main`, `osm_to_obj`, `get_proj` and the OBJ header writing are not part of this model.
- The `Elevation` destructor only frees memory.
- Obj.ObjWriter.Write: the face loop of `write` (ObjWriter.cxx:23-28) is not modelled. As written it iterates the vertices, not the face's indices, and prints no newline; no caller uses it.
- Obj.ObjWriter.Checkpoint, Obj.ObjWriter.WriteVertex, Obj.ObjWriter.WriteVertexNormal, Obj.ObjWriter.BeginFace, Obj.ObjWriter.AddIndex, Obj.ObjWriter.EndFace: only declared in ObjWriter.hxx; their bodies here are the behaviour the callers rely on.
- Obj.ObjWriter.constructor: `offset` is uninitialised in the source; the model starts it at 1.
- ElevationTiles.OpenTile: a file of unknown size leaves `currTileSize` uninitialised in the source. The model leaves tileSize unchanged, and a short read is treated as a full read.
- ElevationTiles.Elevation.ElevationAt: indexing outside the slot array or the tile is undefined behaviour in the source, as is reading an empty slot. The model returns an error value for each.
- ElevationTiles.Elevation.QueryReadsCellTile: proved only when every tile file of the bounds opens; with missing files the slots shift, as MissingTileShiftsSlots shows.
- The model's tile store is an immutable snapshot of the slot array the constructor filled, since the source never changes it afterwards.
- HeightTags.HeightPatternSound: the regex is `boost::regex` in its default Perl syntax, searched with `sregex_iterator`. The model matches the whole string with ASCII character classes. In Boost's default syntax `^` and `$` also match at line breaks, so a tag value holding a line break can match on one of its lines; the model agrees only for values without line breaks. Locale-dependent classes are not modelled.
- HeightTags.Stod: decimal numbers with an optional sign, fraction and exponent are modelled. Hexadecimal, `inf`, `nan` and out-of-range results are not.
- HeightTags.GetBuildingHeight: an unparseable height group, which throws `invalid_argument` uncaught in the source, is an error result. Tags are a map, so duplicate keys do not arise.
- Buildings.ObjHandler.Area: requires the elevation query to succeed at every ring node. The source would read undefined memory there. Inner rings and `highway` areas are ignored, as in the source.
- Buildings.ObjHandler.ReadRing: `wayCoords.reserve` only affects capacity and is not modelled.
- Terrain.Thin: requires the slots past the inspected prefix to hold heights, so the walks of `findNearHeight` stay inside the array. The sampler always provides this.
- Terrain.TerrainToObj: takes the elevation query as a parameter, not constructing the store itself (ElevationTiles.NewElevation models that construction, including its failure). For a box that is not reversed it requires the query to succeed at every grid point, and a projection whose east bound is not west of its west bound.
- Terrain.TerrainToObj: excludes a box reversed by more than an arc second on both axes. There rows and cols are both negative, their product is positive, the allocations succeed, and the source compacts uninitialised memory, which has no defined result. The `int` conversion of rows and cols is not modelled for spans too large for it.
- Terrain.SampleAndThin: requires a box that is not reversed, so that rows and cols are at least 1; Terrain.TerrainToObj handles reversed boxes before calling it.
- ElevationTiles.Elevation.constructor: requires a slot count that is not negative; a negative count is the error result of ElevationTiles.NewElevation. Overflow of the `int` product is not modelled.
- Buildings.ObjHandler.constructor: the source's handler holds its own copy of the ObjWriter (osmwave.cxx:35, 41-42), while the model's handler shares the caller's writer. The two agree here because osm_to_obj writes nothing through its own writer after building the handler (osmwave.cxx:225-231).
