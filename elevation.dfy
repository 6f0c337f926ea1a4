/**
 * The elevation raster store of src/elevation.cxx: one `.hgt` tile per
 * integer degree cell, loaded into a flat slot array by the constructor and
 * sampled by bilinear interpolation.
 *
 * Tiles are raw file contents (`seq<bv8>`). The directory of tile files is a
 * map from path to contents: a path that is not a key is a file that does not
 * open.
 */
module ElevationTiles {
  import opened Wrappers
  import opened Digits

  function Abs(x: int): nat { if x < 0 then -x else x }

  // ---------------------------------------------------------------------
  // Tile file names (elevation.cxx:18-20)
  // ---------------------------------------------------------------------

  /** `setw(width)` after `setfill('0')`: pad on the left with '0' up to
      `width` characters; a longer string is printed whole. */
  function ZeroPad(s: string, width: nat): (r: string)
    ensures |r| == (if |s| < width then width else |s|)
    decreases width - |s|
  {
    if |s| >= width then s else ZeroPad(['0'] + s, width)
  }

  lemma {:induction false} ZeroPadShape(s: string, width: nat)
    ensures var r := ZeroPad(s, width);
            r[|r| - |s|..] == s
            && forall i :: 0 <= i < |r| - |s| ==> r[i] == '0'
    decreases width - |s|
  {
    if |s| < width {
      var t := ['0'] + s;
      ZeroPadShape(t, width);
      var r := ZeroPad(t, width);
      assert ZeroPad(s, width) == r;
      assert r[|r| - |t|..] == t;
      assert r[|r| - |s|..] == t[1..];
      forall i | 0 <= i < |r| - |s|
        ensures r[i] == '0'
      {
        if i == |r| - |t| {
          assert r[i] == t[0];
        }
      }
    }
  }

  lemma {:induction false} DigitsValueLeadingZero(s: string)
    requires AllDigits(s)
    ensures AllDigits(['0'] + s) && DigitsValue(['0'] + s) == DigitsValue(s)
    decreases |s|
  {
    var t := ['0'] + s;
    if s != [] {
      DigitsValueLeadingZero(s[..|s| - 1]);
      assert t[..|t| - 1] == ['0'] + s[..|s| - 1];
    }
  }

  lemma {:induction false} DigitsValueZeroPad(s: string, width: nat)
    requires AllDigits(s)
    ensures AllDigits(ZeroPad(s, width)) && DigitsValue(ZeroPad(s, width)) == DigitsValue(s)
    decreases width - |s|
  {
    if |s| < width {
      DigitsValueLeadingZero(s);
      DigitsValueZeroPad(['0'] + s, width);
    }
  }

  /** The file name of the tile of cell (lat, lon): 'N' or 'S', |lat| on at
      least two digits, 'E' or 'W', |lon| on at least three digits, ".hgt". */
  function TileFileName(lat: int, lon: int): (name: string)
    ensures |name| >= 11 && name[0] == (if lat >= 0 then 'N' else 'S')
    ensures name[|name| - 4..] == ".hgt"
  {
    [if lat >= 0 then 'N' else 'S'] + ZeroPad(Decimal(Abs(lat)), 2)
    + [if lon >= 0 then 'E' else 'W'] + ZeroPad(Decimal(Abs(lon)), 3) + ".hgt"
  }

  /** The path the constructor opens for cell (lat, lon). */
  function TilePath(tilesPath: string, lat: int, lon: int): string
  {
    tilesPath + "/" + TileFileName(lat, lon)
  }

  /** A cell's path is the tiles directory, a '/', and a ".hgt" file name. */
  lemma {:induction false} TilePathShape(tilesPath: string, lat: int, lon: int)
    ensures var path := TilePath(tilesPath, lat, lon);
            && |path| == |tilesPath| + 1 + |TileFileName(lat, lon)|
            && path[..|tilesPath|] == tilesPath && path[|tilesPath|] == '/'
            && path[|path| - 4..] == ".hgt"
  {
    var name := TileFileName(lat, lon);
    assert (tilesPath + "/" + name)[|tilesPath| + 1 + |name| - 4..] == name[|name| - 4..];
  }

  /** First position at or after i holding 'E' or 'W' (|s| if none). */
  function FindEastWest(s: string, i: nat): (k: nat)
    requires i <= |s|
    ensures i <= k <= |s|
    decreases |s| - i
  {
    if i == |s| || s[i] == 'E' || s[i] == 'W' then i else FindEastWest(s, i + 1)
  }

  /** Reads a tile file name back into its cell: the inverse of TileFileName. */
  function ParseTileName(name: string): Option<(int, int)>
  {
    if |name| < 4 || name[|name| - 4..] != ".hgt" then None
    else
      var s := name[..|name| - 4];
      if |s| == 0 || (s[0] != 'N' && s[0] != 'S') then None
      else
        var k := FindEastWest(s, 1);
        if k == |s| then None
        else
          var latDigits, lonDigits := s[1..k], s[k + 1..];
          if latDigits == [] || lonDigits == [] || !AllDigits(latDigits) || !AllDigits(lonDigits) then None
          else
            var latAbs, lonAbs := DigitsValue(latDigits), DigitsValue(lonDigits);
            Some((if s[0] == 'N' then latAbs as int else -(latAbs as int), if s[k] == 'E' then lonAbs as int else -(lonAbs as int)))
  }

  lemma {:induction false} FindEastWestSkipsDigits(s: string, i: nat, j: nat)
    requires i <= j < |s| && AllDigits(s[i..j]) && (s[j] == 'E' || s[j] == 'W')
    ensures FindEastWest(s, i) == j
    decreases j - i
  {
    if i < j {
      assert IsDigit(s[i..j][0]);
      assert s[i + 1..j] == s[i..j][1..];
      FindEastWestSkipsDigits(s, i + 1, j);
    }
  }

  /** Any name of the TileFileName shape parses back to its parts. */
  lemma {:induction false} ParseNameParts(h1: char, latDigits: string, h2: char, lonDigits: string)
    requires (h1 == 'N' || h1 == 'S') && (h2 == 'E' || h2 == 'W')
    requires latDigits != [] && lonDigits != [] && AllDigits(latDigits) && AllDigits(lonDigits)
    ensures ParseTileName([h1] + latDigits + [h2] + lonDigits + ".hgt")
         == Some((if h1 == 'N' then DigitsValue(latDigits) as int else -(DigitsValue(latDigits) as int),
                  if h2 == 'E' then DigitsValue(lonDigits) as int else -(DigitsValue(lonDigits) as int)))
  {
    var s := [h1] + latDigits + [h2] + lonDigits;
    var name := s + ".hgt";
    assert name[..|name| - 4] == s;
    assert name[|name| - 4..] == ".hgt";
    var k := 1 + |latDigits|;
    assert s[1..k] == latDigits;
    assert s[k] == h2;
    assert s[k + 1..] == lonDigits;
    FindEastWestSkipsDigits(s, 1, k);
  }

  /** Distinct cells get distinct file names: the name decodes to its cell. */
  lemma {:induction false} TileFileNameRoundTrip(lat: int, lon: int)
    ensures ParseTileName(TileFileName(lat, lon)) == Some((lat, lon))
  {
    var latDigits := ZeroPad(Decimal(Abs(lat)), 2);
    var lonDigits := ZeroPad(Decimal(Abs(lon)), 3);
    PaddedDecimalValue(Abs(lat), 2);
    PaddedDecimalValue(Abs(lon), 3);
    var h1 := if lat >= 0 then 'N' else 'S';
    var h2 := if lon >= 0 then 'E' else 'W';
    assert TileFileName(lat, lon) == [h1] + latDigits + [h2] + lonDigits + ".hgt";
    ParseNameParts(h1, latDigits, h2, lonDigits);
    assert (if h1 == 'N' then DigitsValue(latDigits) as int else -(DigitsValue(latDigits) as int)) == lat;
    assert (if h2 == 'E' then DigitsValue(lonDigits) as int else -(DigitsValue(lonDigits) as int)) == lon;
  }

  /** A zero-padded decimal reads back as its number. */
  lemma {:induction false} PaddedDecimalValue(n: nat, width: nat)
    ensures ZeroPad(Decimal(n), width) != [] && AllDigits(ZeroPad(Decimal(n), width))
    ensures DigitsValue(ZeroPad(Decimal(n), width)) == n
  {
    DigitsValueZeroPad(Decimal(n), width);
    DecimalRoundTrip(n);
  }

  /** Inside the latitude and longitude ranges the name has the fixed
      11-character shape; e.g. cell (59, 18) is "N59E018.hgt". */
  lemma {:induction false} TileFileNameFixedWidth(lat: int, lon: int)
    requires -100 < lat < 100 && -1000 < lon < 1000
    ensures |TileFileName(lat, lon)| == 11
  {
    DecimalRoundTrip(Abs(lat));
    DecimalRoundTrip(Abs(lon));
    assert Pow10(2) == 100 && Pow10(3) == 1000 by {
      assert Pow10(1) == 10;
    }
    DecimalShort(Abs(lat), 2);
    DecimalShort(Abs(lon), 3);
  }

  lemma {:induction false} DecimalShort(n: nat, width: nat)
    requires 1 <= width && n < Pow10(width)
    ensures |Decimal(n)| <= width
  {
    if n >= 10 {
      assert Pow10(width) == 10 * Pow10(width - 1);
      assert n / 10 < Pow10(width - 1);
      DecimalShort(n / 10, width - 1);
    }
  }

  lemma {:induction false} TileFileNameExample()
    ensures TileFileName(59, 18) == "N59E018.hgt"
  {
    assert Decimal(59) == "59";
    assert Decimal(18) == "18";
    assert ZeroPad("59", 2) == "59";
    assert ZeroPad("18", 3) == ZeroPad("018", 3) == "018";
  }

  // ---------------------------------------------------------------------
  // Tile resolution (elevation.cxx:26-43)
  // ---------------------------------------------------------------------

  /** The resolution a file size denotes: only 1201 and 3601 sample rows
      are recognised, each sample being two bytes. */
  function TileResolution(size: int): (r: Option<int>)
    ensures r.Some? ==> r == Some(1201) || r == Some(3601)
    ensures r == Some(1201) <==> size == 2 * 1201 * 1201
    ensures r == Some(3601) <==> size == 2 * 3601 * 3601
  {
    if size == 2884802 then Some(1201)
    else if size == 25934402 then Some(3601)
    else None
  }

  /** The store's tileSize after a tile of resolution `curr` is read: the
      first recognised resolution is adopted, and a later different one is
      only warned about. An unrecognised size leaves tileSize unchanged. */
  function NextTileSize(tileSize: int, curr: Option<int>): int
  {
    match curr
    case None => tileSize
    case Some(c) => if tileSize != 0 && tileSize != c then tileSize else c
  }

  /** tileSize after the given files were read, in order, starting from 0. */
  function LoadedTileSize(files: seq<seq<bv8>>): (size: int)
    ensures size == 0 || size == 1201 || size == 3601
  {
    if files == [] then 0
    else NextTileSize(LoadedTileSize(files[..|files| - 1]), TileResolution(|files[|files| - 1]|))
  }

  /** The resolution of the first file whose size is recognised. */
  function FirstResolution(files: seq<seq<bv8>>): (r: Option<int>)
    ensures r.Some? ==> r.value == 1201 || r.value == 3601
  {
    if files == [] then None
    else if TileResolution(|files[0]|).Some? then TileResolution(|files[0]|)
    else FirstResolution(files[1..])
  }

  lemma {:induction false} FirstResolutionAppend(files: seq<seq<bv8>>, f: seq<bv8>)
    ensures FirstResolution(files + [f])
         == if FirstResolution(files).Some? then FirstResolution(files) else TileResolution(|f|)
  {
    if files != [] {
      assert (files + [f])[1..] == files[1..] + [f];
      FirstResolutionAppend(files[1..], f);
    }
  }

  /** The first tile with a recognised size fixes the resolution for good. */
  lemma {:induction false} LoadedTileSizeIsFirst(files: seq<seq<bv8>>)
    ensures LoadedTileSize(files) == match FirstResolution(files) case None => 0 case Some(t) => t
  {
    if files != [] {
      var init, last := files[..|files| - 1], files[|files| - 1];
      assert files == init + [last];
      assert LoadedTileSize(files) == NextTileSize(LoadedTileSize(init), TileResolution(|last|));
      LoadedTileSizeIsFirst(init);
      FirstResolutionAppend(init, last);
    }
  }

  // ---------------------------------------------------------------------
  // Slot layout (elevation.cxx:13-17, 45, 56)
  // ---------------------------------------------------------------------

  /** Cells (lat, west) .. (lat, east), in the inner loop's order. */
  function RowCells(lat: int, west: int, east: int): seq<(int, int)>
    decreases east - west
  {
    if east < west then [] else RowCells(lat, west, east - 1) + [(lat, east)]
  }

  /** Every cell of the bounds, row by row from the south, in loop order. */
  function GridCells(south: int, west: int, north: int, east: int): seq<(int, int)>
    decreases north - south
  {
    if north < south then [] else GridCells(south, west, north - 1, east) + RowCells(north, west, east)
  }

  /** How the constructor names the file of a cell. The loading code takes
      it as a value; the constructor passes TileNaming(tilesPath). */
  type Naming = (int, int) -> string

  function TileNaming(tilesPath: string): (name: Naming)
    ensures forall lat, lon :: name(lat, lon) == TilePath(tilesPath, lat, lon)
  {
    (lat, lon) => TilePath(tilesPath, lat, lon)
  }

  /** The contents of the files that open, in the order they are opened. */
  function Opened(dir: map<string, seq<bv8>>, name: Naming, cells: seq<(int, int)>): seq<seq<bv8>>
  {
    if cells == [] then []
    else
      var c := cells[|cells| - 1];
      var p := name(c.0, c.1);
      Opened(dir, name, cells[..|cells| - 1]) + (if p in dir then [dir[p]] else [])
  }

  lemma {:induction false} OpenedLength(dir: map<string, seq<bv8>>, name: Naming, cells: seq<(int, int)>)
    ensures |Opened(dir, name, cells)| <= |cells|
  {
    if cells != [] {
      OpenedLength(dir, name, cells[..|cells| - 1]);
    }
  }

  lemma {:induction false} RowCellsAt(lat: int, west: int, east: int)
    requires west <= east + 1
    ensures |RowCells(lat, west, east)| == east - west + 1
    ensures forall k :: 0 <= k <= east - west ==> RowCells(lat, west, east)[k] == (lat, west + k)
    decreases east - west
  {
    if west <= east {
      RowCellsAt(lat, west, east - 1);
    }
  }

  lemma {:induction false} GridCellsLength(south: int, west: int, north: int, east: int)
    requires south <= north + 1 && west <= east + 1
    ensures |GridCells(south, west, north, east)| == (north - south + 1) * (east - west + 1)
    decreases north - south
  {
    if south <= north {
      GridCellsLength(south, west, north - 1, east);
      RowCellsAt(north, west, east);
    }
  }

  /** Row lat of the bounds follows the rows before it, and the rows up to
      lat are no more than all of them. */
  lemma {:induction false} GridCellsSplit(south: int, west: int, lat: int, north: int, east: int)
    requires south <= lat <= north && west <= east + 1
    ensures GridCells(south, west, lat, east) == GridCells(south, west, lat - 1, east) + RowCells(lat, west, east)
    ensures |RowCells(lat, west, east)| == east - west + 1
    ensures |GridCells(south, west, lat, east)| <= |GridCells(south, west, north, east)|
  {
    RowCellsAt(lat, west, east);
    GridCellsLength(south, west, lat, east);
    GridCellsLength(south, west, north, east);
    MulMonotone(lat - south + 1, north - south + 1, east - west + 1);
  }

  lemma {:induction false} MulMonotone(a: int, b: int, c: int)
    requires a <= b && 0 <= c
    ensures a * c <= b * c
  {
    assert b * c - a * c == (b - a) * c;
  }

  /** A slot count (elevation.cxx:13) that is not negative either spans
      rows of a non-negative width, or has bounds whose rows are empty; the
      cells the loops visit fit in that many slots. */
  lemma {:induction false} SlotCountCells(south: int, west: int, north: int, east: int)
    requires 0 <= (north - south + 1) * (east - west + 1)
    ensures south <= north ==> west <= east + 1
    ensures |GridCells(south, west, north, east)| <= (north - south + 1) * (east - west + 1)
  {
    if south <= north {
      if east + 1 < west {
        MulMonotone(east - west + 1, -1, north - south + 1);
        assert false;
      }
      GridCellsLength(south, west, north, east);
    } else {
      assert GridCells(south, west, north, east) == [];
    }
  }

  /** Cell (lat, lon) is the ((lat - south) * cols + (lon - west))-th cell
      visited by the constructor's loops. */
  lemma {:induction false} GridCellsAt(south: int, west: int, north: int, east: int, lat: int, lon: int)
    requires south <= lat <= north && west <= lon <= east
    ensures |GridCells(south, west, north, east)| == (north - south + 1) * (east - west + 1)
    ensures 0 <= (lat - south) * (east - west + 1) + (lon - west) < |GridCells(south, west, north, east)|
    ensures GridCells(south, west, north, east)[(lat - south) * (east - west + 1) + (lon - west)] == (lat, lon)
    decreases north - south
  {
    var cols := east - west + 1;
    var prefix := GridCells(south, west, north - 1, east);
    var row := RowCells(north, west, east);
    GridCellsLength(south, west, north, east);
    GridCellsLength(south, west, north - 1, east);
    RowCellsAt(north, west, east);
    assert GridCells(south, west, north, east) == prefix + row;
    var k := (lat - south) * cols + (lon - west);
    if lat < north {
      GridCellsAt(south, west, north - 1, east, lat, lon);
      MulMonotone(lat - south + 1, north - south, cols);
      assert (lat - south + 1) * cols == (lat - south) * cols + cols;
      assert k < |prefix|;
    } else {
      assert k == |prefix| + (lon - west);
    }
  }

  lemma {:induction false} OpenedAllPresent(dir: map<string, seq<bv8>>, name: Naming, cells: seq<(int, int)>)
    requires forall c :: c in cells ==> name(c.0, c.1) in dir
    ensures |Opened(dir, name, cells)| == |cells|
    ensures forall k :: 0 <= k < |cells| ==>
              Opened(dir, name, cells)[k] == dir[name(cells[k].0, cells[k].1)]
  {
    if cells != [] {
      OpenedAllPresent(dir, name, cells[..|cells| - 1]);
    }
  }

  /** When every file opens, cell (lat, lon) lands in slot
      (lat - south) * cols + (lon - west), the slot the query reads. */
  lemma {:induction false} SlotOfCell(dir: map<string, seq<bv8>>, name: Naming,
                   south: int, west: int, north: int, east: int, lat: int, lon: int)
    requires forall c :: c in GridCells(south, west, north, east) ==> name(c.0, c.1) in dir
    requires south <= lat <= north && west <= lon <= east
    ensures var slot := (lat - south) * (east - west + 1) + (lon - west);
            var loaded := Opened(dir, name, GridCells(south, west, north, east));
            && 0 <= slot < |loaded|
            && name(lat, lon) in dir
            && loaded[slot] == dir[name(lat, lon)]
  {
    var cells := GridCells(south, west, north, east);
    var cols := east - west + 1;
    GridCellsAt(south, west, north, east, lat, lon);
    var slot := (lat - south) * cols + (lon - west);
    assert cells[slot] in cells;
    OpenedAllPresent(dir, name, cells);
    var loaded := Opened(dir, name, cells);
    assert loaded[slot] == dir[name(cells[slot].0, cells[slot].1)];
  }

  /** Slots advance only when a file opens: with the first of two cells
      missing, the second cell's tile sits in slot 0, not slot 1. */
  lemma {:induction false} MissingTileShiftsSlots(dir: map<string, seq<bv8>>, name: Naming, tile: seq<bv8>)
    requires name(0, 0) !in dir
    requires dir == map[name(0, 1) := tile]
    ensures Opened(dir, name, GridCells(0, 0, 0, 1)) == [tile]
  {
    var cells := [(0, 0), (0, 1)];
    assert GridCells(0, 0, 0, 1) == cells by {
      assert RowCells(0, 0, 0) == [(0, 0)];
      assert RowCells(0, 0, 1) == cells;
      assert GridCells(0, 0, -1, 1) == [];
    }
    assert cells[..1] == [(0, 0)] && [(0, 0)][..0] == [];
    assert Opened(dir, name, [(0, 0)]) == [];
  }

  // ---------------------------------------------------------------------
  // Sample decoding (elevation.cxx:75-77)
  // ---------------------------------------------------------------------

  /** A byte read through `int8_t` and promoted to `int`: sign extension. */
  function SignExtend(b: bv8): bv32
  {
    if b < 0x80 then b as bv32 else (b as bv32) | 0xFFFF_FF00
  }

  /** The signed value of a 32-bit two's complement word. */
  function Int32(w: bv32): int
  {
    var v := w as int;
    if v < 0x8000_0000 then v else v - 0x1_0000_0000
  }

  /** The signed value of a byte. */
  function Int8(b: bv8): int
  {
    var v := b as int;
    if v < 0x80 then v else v - 0x100
  }

  /** `tile[index] << 8 | tile[index + 1]` on `int8_t` bytes, as written:
      both bytes are sign-extended before the shift and the OR. */
  function GetTileValue(hi: bv8, lo: bv8): (v: int)
    ensures -0x8000 <= v < 0x8000
  {
    WordInRange(hi, lo);
    Int32((SignExtend(hi) << 8) | SignExtend(lo))
  }

  /** The word getTileValue builds is a signed 16-bit value, in each of the
      three cases of the bytes' signs. */
  lemma {:induction false} WordInRange(hi: bv8, lo: bv8)
    ensures -0x8000 <= Int32((SignExtend(hi) << 8) | SignExtend(lo)) < 0x8000
  {
    if lo >= 0x80 {
      WordInRangeNegativeLow(hi, lo);
    } else if hi < 0x80 {
      WordInRangePositive(hi, lo);
    } else {
      WordInRangeNegativeHigh(hi, lo);
    }
  }

  lemma {:induction false} WordInRangeNegativeLow(hi: bv8, lo: bv8)
    requires lo >= 0x80
    ensures -0x8000 <= Int32((SignExtend(hi) << 8) | SignExtend(lo)) < 0x8000
  {
    WordNegativeLow(hi, lo);
    WordValueNegativeLow(lo);
  }

  lemma {:induction false} WordInRangePositive(hi: bv8, lo: bv8)
    requires hi < 0x80 && lo < 0x80
    ensures -0x8000 <= Int32((SignExtend(hi) << 8) | SignExtend(lo)) < 0x8000
  {
    WordPositive(hi, lo);
    WordValuePositive(hi, lo);
    ByteBelow(hi);
    ByteBelow(lo);
  }

  lemma {:induction false} WordInRangeNegativeHigh(hi: bv8, lo: bv8)
    requires hi >= 0x80 && lo < 0x80
    ensures -0x8000 <= Int32((SignExtend(hi) << 8) | SignExtend(lo)) < 0x8000
  {
    WordNegativeHigh(hi, lo);
    WordValueNegativeHigh(hi, lo);
  }

  lemma {:induction false} WordValueNegativeLow(lo: bv8)
    requires lo >= 0x80
    ensures -0x8000 <= Int32(0xFFFF_0000 | ((0xFF as bv32) << 8) | (lo as bv32)) < 0
  {
    OrHighAsInt(0xFF, lo);
  }

  lemma {:induction false} WordValueNegativeHigh(hi: bv8, lo: bv8)
    requires hi >= 0x80
    ensures -0x8000 <= Int32(0xFFFF_0000 | ((hi as bv32) << 8) | (lo as bv32)) < 0
  {
    OrHighAsInt(hi, lo);
  }

  /** The big-endian signed 16-bit value of two bytes. */
  function BigEndian16(hi: bv8, lo: bv8): int
  {
    Int8(hi) * 256 + lo as int
  }

  lemma {:induction false} OrAsInt(hi: bv8, lo: bv8)
    ensures (((hi as bv32) << 8) | (lo as bv32)) as int == hi as int * 256 + lo as int
  {
  }

  lemma {:induction false} OrHighAsInt(hi: bv8, lo: bv8)
    ensures (0xFFFF_0000 | ((hi as bv32) << 8) | (lo as bv32)) as int == 0xFFFF_0000 + hi as int * 256 + lo as int
  {
  }

  lemma {:induction false} ByteBelow(b: bv8)
    requires b < 0x80
    ensures b as int < 0x80 && Int8(b) == b as int
  {
  }

  lemma {:induction false} WordPositive(hi: bv8, lo: bv8)
    requires hi < 0x80 && lo < 0x80
    ensures (SignExtend(hi) << 8) | SignExtend(lo) == ((hi as bv32) << 8) | (lo as bv32)
  {
  }

  lemma {:induction false} WordNegativeHigh(hi: bv8, lo: bv8)
    requires hi >= 0x80 && lo < 0x80
    ensures (SignExtend(hi) << 8) | SignExtend(lo) == 0xFFFF_0000 | ((hi as bv32) << 8) | (lo as bv32)
  {
  }

  lemma {:induction false} WordNegativeLow(hi: bv8, lo: bv8)
    requires lo >= 0x80
    ensures (SignExtend(hi) << 8) | SignExtend(lo) == 0xFFFF_0000 | ((0xFF as bv32) << 8) | (lo as bv32)
  {
    assert (SignExtend(hi) << 8) | SignExtend(lo) == SignExtend(lo);
  }

  lemma {:induction false} WordValuePositive(hi: bv8, lo: bv8)
    requires hi < 0x80
    ensures Int32(((hi as bv32) << 8) | (lo as bv32)) == hi as int * 256 + lo as int
  {
    OrAsInt(hi, lo);
    ByteBelow(hi);
  }

  lemma {:induction false} GetTileValuePositive(hi: bv8, lo: bv8)
    requires hi < 0x80 && lo < 0x80
    ensures GetTileValue(hi, lo) == BigEndian16(hi, lo)
  {
    WordPositive(hi, lo);
    WordValuePositive(hi, lo);
    ByteBelow(hi);
  }

  lemma {:induction false} GetTileValueNegativeHigh(hi: bv8, lo: bv8)
    requires hi >= 0x80 && lo < 0x80
    ensures GetTileValue(hi, lo) == BigEndian16(hi, lo)
  {
    var w := 0xFFFF_0000 | ((hi as bv32) << 8) | (lo as bv32);
    WordNegativeHigh(hi, lo);
    OrHighAsInt(hi, lo);
    var h, l := hi as int, lo as int;
    assert 0x80 <= h < 0x100 && Int8(hi) == h - 0x100;
    assert w as int == 0xFFFF_0000 + h * 256 + l;
    assert Int32(w) == w as int - 0x1_0000_0000;
    assert BigEndian16(hi, lo) == (h - 0x100) * 256 + l;
  }

  lemma {:induction false} GetTileValueNegativeLow(hi: bv8, lo: bv8)
    requires lo >= 0x80
    ensures GetTileValue(hi, lo) == Int8(lo)
  {
    WordNegativeLow(hi, lo);
    OrHighAsInt(0xFF, lo);
  }

  /** A low byte in 0..127 gives hi * 256 + lo; a negative low byte's sign
      extension covers the high byte, so the result is lo itself. */
  lemma {:induction false} GetTileValueCases(hi: bv8, lo: bv8)
    ensures lo < 0x80 ==> GetTileValue(hi, lo) == BigEndian16(hi, lo)
    ensures lo >= 0x80 ==> GetTileValue(hi, lo) == Int8(lo)
  {
    if lo >= 0x80 {
      GetTileValueNegativeLow(hi, lo);
    } else if hi < 0x80 {
      GetTileValuePositive(hi, lo);
    } else {
      GetTileValueNegativeHigh(hi, lo);
    }
  }

  /** The decoded sample is the big-endian value exactly when the low byte
      is below 0x80 or the high byte is 0xFF. */
  lemma {:induction false} GetTileValueIsBigEndianIff(hi: bv8, lo: bv8)
    ensures GetTileValue(hi, lo) == BigEndian16(hi, lo) <==> lo < 0x80 || hi == 0xFF
  {
    GetTileValueCases(hi, lo);
  }

  // ---------------------------------------------------------------------
  // Query (elevation.cxx:79-110)
  // ---------------------------------------------------------------------

  /** What a query can run into where the source reads memory it does not own. */
  datatype QueryError = OutsideStore | MissingTile | OutsideTile

  /** An array allocation whose length is negative
      (std::bad_array_new_length). */
  datatype AllocationError = BadArrayNewLength

  /** An elevation lookup as the rest of the program sees it: latitude and
      longitude in degrees to a height or an error; an Elevation's
      ElevationAt is one. */
  type Query = (real, real) -> Result<real, QueryError>

  /** Linear interpolation from a to b by t. */
  function Lerp(a: real, b: real, t: real): real { a + (b - a) * t }

  /** The blend of elevation.cxx:98-101: v00 at the sample, v10 one column
      east, v01 one row north, v11 north-east. */
  function Bilinear(v00: real, v10: real, v01: real, v11: real, rowFrac: real, colFrac: real): real
  {
    var v1 := Lerp(v00, v10, colFrac);
    var v2 := Lerp(v01, v11, colFrac);
    Lerp(v1, v2, rowFrac)
  }

  function Min(a: real, b: real): real { if a <= b then a else b }
  function Max(a: real, b: real): real { if a <= b then b else a }

  /** Linear interpolation by a fraction stays between its end points. */
  lemma {:induction false} LerpBetween(a: real, b: real, t: real)
    requires 0.0 <= t <= 1.0
    ensures Min(a, b) <= Lerp(a, b, t) <= Max(a, b)
  {
    var d := b - a;
    ScaleBetween(d, t);
    assert Lerp(a, b, t) == a + d * t;
  }

  /** Scaling by a fraction keeps a value between zero and itself. */
  lemma {:induction false} ScaleBetween(d: real, t: real)
    requires 0.0 <= t <= 1.0
    ensures 0.0 <= d ==> 0.0 <= d * t <= d
    ensures d < 0.0 ==> d <= d * t <= 0.0
  {
    var s := 1.0 - t;
    assert d * t + d * s == d;
    if 0.0 <= d {
      assert 0.0 <= d * t && 0.0 <= d * s;
    } else {
      assert d * t <= 0.0 && d * s <= 0.0;
    }
  }

  /** The blend never leaves the range of its four corner samples. */
  lemma {:induction false} BilinearBetweenCorners(v00: real, v10: real, v01: real, v11: real, rowFrac: real, colFrac: real)
    requires 0.0 <= rowFrac <= 1.0 && 0.0 <= colFrac <= 1.0
    ensures var r := Bilinear(v00, v10, v01, v11, rowFrac, colFrac);
            Min(Min(v00, v10), Min(v01, v11)) <= r <= Max(Max(v00, v10), Max(v01, v11))
  {
    var v1 := Lerp(v00, v10, colFrac);
    var v2 := Lerp(v01, v11, colFrac);
    LerpBetween(v00, v10, colFrac);
    LerpBetween(v01, v11, colFrac);
    LerpBetween(v1, v2, rowFrac);
  }

  /** Byte offset of the sample in row rowI counted up from the tile's south
      edge and column colI; storage runs north to south. */
  function SampleIndex(tileSize: int, rowI: int, colI: int): int
  {
    ((tileSize - rowI - 1) * tileSize + colI) * 2
  }

  /** The grid position a fraction of a degree falls on. */
  function GridPosition(frac: real, tileSize: int): real
  {
    frac * (tileSize - 1) as real
  }

  /** The four corner samples of a query, v00, v10, v01, v11, or None when
      one of their bytes lies outside the tile. */
  function Corners(tile: seq<bv8>, tileSize: int, latFrac: real, lonFrac: real): Option<(real, real, real, real)>
  {
    var index := SampleIndex(tileSize, GridPosition(latFrac, tileSize).Floor, GridPosition(lonFrac, tileSize).Floor);
    var up := index - tileSize * 2;
    if !(0 <= index && index + 3 < |tile| && 0 <= up && up + 3 < |tile|) then None
    else
      Some((GetTileValue(tile[index], tile[index + 1]) as real,
            GetTileValue(tile[index + 2], tile[index + 3]) as real,
            GetTileValue(tile[up], tile[up + 1]) as real,
            GetTileValue(tile[up + 2], tile[up + 3]) as real))
  }

  /** Everything the query does once the tile is found (elevation.cxx:86-101);
      latFrac and lonFrac are the query's offsets inside its degree cell. */
  function Interpolate(tile: seq<bv8>, tileSize: int, latFrac: real, lonFrac: real): (r: Result<real, QueryError>)
    ensures (2 <= tileSize && |tile| == 2 * tileSize * tileSize
             && 0.0 <= latFrac < 1.0 && 0.0 <= lonFrac < 1.0) ==> r.Ok?
  {
    match Corners(tile, tileSize, latFrac, lonFrac)
    case None =>
      (if 2 <= tileSize && |tile| == 2 * tileSize * tileSize && 0.0 <= latFrac < 1.0 && 0.0 <= lonFrac < 1.0
       then CornersInTile(tile, tileSize, latFrac, lonFrac); Err(OutsideTile)
       else Err(OutsideTile))
    case Some(c) =>
      var row := GridPosition(latFrac, tileSize);
      var col := GridPosition(lonFrac, tileSize);
      Ok(Bilinear(c.0, c.1, c.2, c.3, row - row.Floor as real, col - col.Floor as real))
  }

  lemma {:induction false} FractionGridIndex(frac: real, tileSize: int)
    requires 2 <= tileSize && 0.0 <= frac < 1.0
    ensures 0 <= GridPosition(frac, tileSize).Floor <= tileSize - 2
  {
    var t := (tileSize - 1) as real;
    assert t >= 1.0;
    assert 0.0 <= frac * t;
    assert frac * t < t by {
      assert (1.0 - frac) * t > 0.0;
    }
  }

  /** All four sample offsets and their second bytes stay in [0, 2·tileSize²). */
  lemma {:induction false} SampleOffsetsInTile(tileSize: int, rowI: int, colI: int)
    requires 2 <= tileSize && 0 <= rowI <= tileSize - 2 && 0 <= colI <= tileSize - 2
    ensures var index := SampleIndex(tileSize, rowI, colI);
            0 <= index - tileSize * 2 && index + 3 < 2 * tileSize * tileSize
  {
    var r := tileSize - rowI - 1;
    assert 1 <= r <= tileSize - 1;
    assert SampleIndex(tileSize, rowI, colI) - tileSize * 2 == ((r - 1) * tileSize + colI) * 2;
    assert (r - 1) * tileSize >= 0;
    assert r * tileSize <= (tileSize - 1) * tileSize;
    assert (tileSize - 1) * tileSize == tileSize * tileSize - tileSize;
  }

  lemma {:induction false} CornersInTile(tile: seq<bv8>, tileSize: int, latFrac: real, lonFrac: real)
    requires 2 <= tileSize && |tile| == 2 * tileSize * tileSize
    requires 0.0 <= latFrac < 1.0 && 0.0 <= lonFrac < 1.0
    ensures Corners(tile, tileSize, latFrac, lonFrac).Some?
  {
    FractionGridIndex(latFrac, tileSize);
    FractionGridIndex(lonFrac, tileSize);
    SampleOffsetsInTile(tileSize, GridPosition(latFrac, tileSize).Floor, GridPosition(lonFrac, tileSize).Floor);
  }

  /** A query never leaves the range of the four samples around it. */
  lemma {:induction false} InterpolateBetweenSamples(tile: seq<bv8>, tileSize: int, latFrac: real, lonFrac: real)
    requires Interpolate(tile, tileSize, latFrac, lonFrac).Ok?
    ensures Corners(tile, tileSize, latFrac, lonFrac).Some?
    ensures var c := Corners(tile, tileSize, latFrac, lonFrac).value;
            var r := Interpolate(tile, tileSize, latFrac, lonFrac).value;
            Min(Min(c.0, c.1), Min(c.2, c.3)) <= r <= Max(Max(c.0, c.1), Max(c.2, c.3))
  {
    var c := Corners(tile, tileSize, latFrac, lonFrac).value;
    var row := GridPosition(latFrac, tileSize);
    var col := GridPosition(lonFrac, tileSize);
    BilinearBetweenCorners(c.0, c.1, c.2, c.3, row - row.Floor as real, col - col.Floor as real);
  }

  /** A query on a grid node returns that node's sample, with no blending. */
  lemma {:induction false} InterpolateAtNode(tile: seq<bv8>, tileSize: int, latFrac: real, lonFrac: real)
    requires Interpolate(tile, tileSize, latFrac, lonFrac).Ok?
    requires GridPosition(latFrac, tileSize).Floor as real == GridPosition(latFrac, tileSize)
    requires GridPosition(lonFrac, tileSize).Floor as real == GridPosition(lonFrac, tileSize)
    ensures Interpolate(tile, tileSize, latFrac, lonFrac).value == Corners(tile, tileSize, latFrac, lonFrac).value.0
  {
  }
  // ---------------------------------------------------------------------
  // The store
  // ---------------------------------------------------------------------

  /** The first |loaded| slots hold the given files in order, the rest are
      empty, and size is what reading those files in order left. */
  ghost predicate Holds(slots: array<Option<seq<bv8>>>, size: int, loaded: seq<seq<bv8>>)
    reads slots
  {
    && |loaded| <= slots.Length
    && (forall k :: 0 <= k < |loaded| ==> slots[k] == Some(loaded[k]))
    && (forall k :: |loaded| <= k < slots.Length ==> slots[k] == None)
    && size == LoadedTileSize(loaded)
  }

  /** Slot contents as a value: the first |loaded| slots hold the given
      files in order, the rest are empty, and size is what reading those
      files in order left. */
  ghost predicate Stores(tiles: seq<Option<seq<bv8>>>, size: int, loaded: seq<seq<bv8>>)
  {
    && |loaded| <= |tiles|
    && (forall k :: 0 <= k < |loaded| ==> tiles[k] == Some(loaded[k]))
    && (forall k :: |loaded| <= k < |tiles| ==> tiles[k] == None)
    && size == LoadedTileSize(loaded)
  }

  lemma {:induction false} SnapshotStores(slots: array<Option<seq<bv8>>>, size: int, loaded: seq<seq<bv8>>)
    requires Holds(slots, size, loaded)
    ensures Stores(slots[..], size, loaded)
  {
  }

  /** The constructor's loops (elevation.cxx:32-58): the cells of the
      bounds, row by row from the south-west, each file that opens filling
      the next free slot. */
  method LoadAll(slots: array<Option<seq<bv8>>>, name: Naming, dir: map<string, seq<bv8>>,
                 south: int, west: int, north: int, east: int) returns (size: int)
    requires south <= north ==> west <= east + 1
    requires |GridCells(south, west, north, east)| <= slots.Length
    requires Holds(slots, 0, [])
    modifies slots
    ensures Holds(slots, size, Opened(dir, name, GridCells(south, west, north, east)))
  {
    size := 0;
    var i := 0;
    var lat := south;
    ghost var last := LastRow(south, west, north, east);
    while lat <= north
      invariant south <= lat <= last + 1
      invariant i == |Opened(dir, name, GridCells(south, west, lat - 1, east))|
      invariant Holds(slots, size, Opened(dir, name, GridCells(south, west, lat - 1, east)))
    {
      i, size := LoadGridRow(slots, size, name, dir, south, west, lat, north, east, i);
      lat := lat + 1;
    }
  }

  /** The last row the outer loop visits, south - 1 when the bounds are
      reversed and it visits none: the rows up to it are all the cells. */
  lemma {:induction false} LastRow(south: int, west: int, north: int, east: int) returns (last: int)
    ensures last == if north < south then south - 1 else north
    ensures GridCells(south, west, south - 1, east) == []
    ensures GridCells(south, west, last, east) == GridCells(south, west, north, east)
  {
    last := if north < south then south - 1 else north;
    assert GridCells(south, west, south - 1, east) == [];
  }

  /** One turn of the constructor's outer loop: row lat follows the rows
      south of it. */
  method LoadGridRow(slots: array<Option<seq<bv8>>>, tileSize: int, name: Naming, dir: map<string, seq<bv8>>,
                     south: int, west: int, lat: int, north: int, east: int, i: int)
    returns (next: int, size: int)
    requires south <= lat <= north && west <= east + 1
    requires |GridCells(south, west, north, east)| <= slots.Length
    requires i == |Opened(dir, name, GridCells(south, west, lat - 1, east))|
    requires Holds(slots, tileSize, Opened(dir, name, GridCells(south, west, lat - 1, east)))
    modifies slots
    ensures next == |Opened(dir, name, GridCells(south, west, lat, east))|
    ensures Holds(slots, size, Opened(dir, name, GridCells(south, west, lat, east)))
  {
    GridCellsSplit(south, west, lat, north, east);
    next, size := LoadRow(slots, tileSize, name, dir, lat, west, east, GridCells(south, west, lat - 1, east), i);
  }

  /** The constructor's inner loop over the cells of row lat (elevation.cxx:32-58). */
  method LoadRow(slots: array<Option<seq<bv8>>>, tileSize: int, name: Naming, dir: map<string, seq<bv8>>,
                 lat: int, west: int, east: int, ghost above: seq<(int, int)>, i: int)
    returns (next: int, size: int)
    requires west <= east + 1
    requires i == |Opened(dir, name, above)| && Holds(slots, tileSize, Opened(dir, name, above))
    requires |above| + (east - west + 1) <= slots.Length
    modifies slots
    ensures next == |Opened(dir, name, above + RowCells(lat, west, east))|
    ensures Holds(slots, size, Opened(dir, name, above + RowCells(lat, west, east)))
  {
    next, size := i, tileSize;
    assert above + RowCells(lat, west, west - 1) == above;
    var lon := west;
    while lon <= east
      invariant west <= lon <= east + 1
      invariant next == |Opened(dir, name, above + RowCells(lat, west, lon - 1))|
      invariant Holds(slots, size, Opened(dir, name, above + RowCells(lat, west, lon - 1)))
    {
      next, size := LoadTile(slots, size, name, dir, lat, west, lon, above, next);
      lon := lon + 1;
    }
  }

  /** One iteration of the constructor's inner loop: the file of cell
      (lat, lon), when it opens, fills the next slot and updates the tile size. */
  method LoadTile(slots: array<Option<seq<bv8>>>, tileSize: int, name: Naming, dir: map<string, seq<bv8>>,
                  lat: int, west: int, lon: int, ghost above: seq<(int, int)>, i: int)
    returns (next: int, size: int)
    requires west <= lon && |above| + (lon - west) < slots.Length
    requires i == |Opened(dir, name, above + RowCells(lat, west, lon - 1))|
    requires Holds(slots, tileSize, Opened(dir, name, above + RowCells(lat, west, lon - 1)))
    modifies slots
    ensures next == |Opened(dir, name, above + RowCells(lat, west, lon))|
    ensures Holds(slots, size, Opened(dir, name, above + RowCells(lat, west, lon)))
  {
    ghost var done := above + RowCells(lat, west, lon - 1);
    RowCellsStep(above, lat, west, lon);
    next, size := OpenTile(slots, tileSize, name, dir, lat, lon, done, i);
  }

  /** The row so far grows by cell (lat, lon). */
  lemma {:induction false} RowCellsStep(above: seq<(int, int)>, lat: int, west: int, lon: int)
    requires west <= lon
    ensures above + RowCells(lat, west, lon) == above + RowCells(lat, west, lon - 1) + [(lat, lon)]
    ensures |above + RowCells(lat, west, lon - 1)| == |above| + (lon - west)
  {
    RowCellsAt(lat, west, lon - 1);
  }

  /** The file of cell (lat, lon), when it opens, fills the next slot and
      updates the tile size. */
  method OpenTile(slots: array<Option<seq<bv8>>>, tileSize: int, name: Naming, dir: map<string, seq<bv8>>,
                  lat: int, lon: int, ghost done: seq<(int, int)>, i: int)
    returns (next: int, size: int)
    requires i == |Opened(dir, name, done)| && Holds(slots, tileSize, Opened(dir, name, done))
    requires |done| < slots.Length
    modifies slots
    ensures next == |Opened(dir, name, done + [(lat, lon)])|
    ensures Holds(slots, size, Opened(dir, name, done + [(lat, lon)]))
  {
    ghost var cells := done + [(lat, lon)];
    ghost var loaded := Opened(dir, name, done);
    var path := name(lat, lon);
    if path in dir {
      var data := dir[path];
      ghost var grown := loaded + [data];
      assert Opened(dir, name, cells) == grown by {
        assert cells[..|cells| - 1] == done;
      }
      assert LoadedTileSize(grown) == NextTileSize(tileSize, TileResolution(|data|)) by {
        assert grown[..|grown| - 1] == loaded;
      }
      assert i < slots.Length by {
        OpenedLength(dir, name, done);
      }
      size := NextTileSize(tileSize, TileResolution(|data|));
      ghost var before := slots[..];
      assert forall k :: 0 <= k < |loaded| ==> before[k] == Some(loaded[k]);
      assert forall k :: |loaded| <= k < |before| ==> before[k] == None;
      slots[i] := Some(data);
      assert slots[..] == before[i := Some(data)];
      next := i + 1;
      assert forall k :: 0 <= k < |grown| ==> slots[..][k] == Some(grown[k]);
    } else {
      assert Opened(dir, name, cells) == loaded by {
        assert cells[..|cells| - 1] == done;
      }
      next, size := i, tileSize;
    }
  }

  /** The store of elevation.cxx. The source fills its tile array in the
      constructor and never changes it afterwards; the model fills a local
      slot array the same way and keeps the finished contents. */
  class Elevation {
    const south: int
    const west: int
    const north: int
    const east: int
    const cols: int
    /** The slots; None is a slot no file was read into. */
    const tiles: seq<Option<seq<bv8>>>
    const tileSize: int

    /** The slots hold, in order, the files that opened among the cells of
        the bounds; the rest are empty, and tileSize is what reading those
        files in order left. */
    ghost predicate LoadedFrom(dir: map<string, seq<bv8>>, tilesPath: string)
    {
      && cols == east - west + 1
      && Stores(tiles, tileSize, Opened(dir, TileNaming(tilesPath), GridCells(south, west, north, east)))
    }

    /** elevation.cxx:11-62. The slot array has (north - south + 1) * cols
        entries; a negative count makes the allocation throw, which
        NewElevation models. Reversed bounds with a count that is not
        negative leave the loops without a cell to visit. */
    constructor (south: int, west: int, north: int, east: int, tilesPath: string, dir: map<string, seq<bv8>>)
      requires 0 <= (north - south + 1) * (east - west + 1)
      ensures this.south == south && this.west == west && this.north == north && this.east == east
      ensures cols == east - west + 1 && |tiles| == (north - south + 1) * cols
      ensures LoadedFrom(dir, tilesPath)
    {
      var slots := new Option<seq<bv8>>[(north - south + 1) * (east - west + 1)](_ => None);
      SlotCountCells(south, west, north, east);
      assert Holds(slots, 0, []);
      var size := LoadAll(slots, TileNaming(tilesPath), dir, south, west, north, east);
      SnapshotStores(slots, size, Opened(dir, TileNaming(tilesPath), GridCells(south, west, north, east)));
      this.south, this.west, this.north, this.east := south, west, north, east;
      cols := east - west + 1;
      tiles := slots[..];
      tileSize := size;
    }

    /** The query of elevation.cxx:79-110 at (lat, lon) in degrees. */
    function ElevationAt(lat: real, lon: real): (r: Result<real, QueryError>)
      ensures var slot := (lat.Floor - south) * cols + (lon.Floor - west);
              && (r == Err(OutsideStore) <==> !(0 <= slot < |tiles|))
              && (r == Err(MissingTile) <==> 0 <= slot < |tiles| && tiles[slot].None?)
              && (r.Ok? ==> tiles[slot].Some?)
    {
      var tileRow := lat.Floor - south;
      var tileCol := lon.Floor - west;
      var slot := tileRow * cols + tileCol;
      if !(0 <= slot < |tiles|) then Err(OutsideStore)
      else
        match tiles[slot]
        case None => Err(MissingTile)
        case Some(tile) => Interpolate(tile, tileSize, lat - lat.Floor as real, lon - lon.Floor as real)
    }

    /** When every file of the bounds opened, a query inside the bounds reads
        the tile of the cell that contains the point. */
    lemma {:induction false} QueryReadsCellTile(dir: map<string, seq<bv8>>, tilesPath: string, lat: real, lon: real)
      requires LoadedFrom(dir, tilesPath)
      requires forall c :: c in GridCells(south, west, north, east) ==> TilePath(tilesPath, c.0, c.1) in dir
      requires south <= lat.Floor <= north && west <= lon.Floor <= east
      ensures TilePath(tilesPath, lat.Floor, lon.Floor) in dir
      ensures ElevationAt(lat, lon)
           == Interpolate(dir[TilePath(tilesPath, lat.Floor, lon.Floor)], tileSize,
                          lat - lat.Floor as real, lon - lon.Floor as real)
    {
      var slot := StoredTile(dir, tilesPath, lat.Floor, lon.Floor);
      ReadsSlot(lat, lon, slot, dir[TilePath(tilesPath, lat.Floor, lon.Floor)]);
    }

    /** The file of a cell inside the bounds, when it opened, is in the
        cell's slot. */
    lemma {:induction false} StoredTile(dir: map<string, seq<bv8>>, tilesPath: string, lat: int, lon: int)
      returns (slot: int)
      requires LoadedFrom(dir, tilesPath)
      requires forall c :: c in GridCells(south, west, north, east) ==> TilePath(tilesPath, c.0, c.1) in dir
      requires south <= lat <= north && west <= lon <= east
      ensures TilePath(tilesPath, lat, lon) in dir
      ensures slot == (lat - south) * cols + (lon - west)
      ensures 0 <= slot < |tiles| && tiles[slot] == Some(dir[TilePath(tilesPath, lat, lon)])
    {
      SlotOfCell(dir, TileNaming(tilesPath), south, west, north, east, lat, lon);
      var tileRow := lat - south;
      slot := tileRow * (east - west + 1) + (lon - west);
      var loaded := Opened(dir, TileNaming(tilesPath), GridCells(south, west, north, east));
      assert tiles[slot] == Some(loaded[slot]);
      assert tileRow * cols == tileRow * (east - west + 1);
    }

    /** With reversed bounds whose slot count is not negative no cell was
        visited, so every query fails. */
    lemma {:induction false} ReversedBoundsAnswerNothing(dir: map<string, seq<bv8>>, tilesPath: string, lat: real, lon: real)
      requires LoadedFrom(dir, tilesPath) && north < south
      ensures ElevationAt(lat, lon).Err?
    {
      assert GridCells(south, west, north, east) == [];
      assert Opened(dir, TileNaming(tilesPath), []) == [];
    }

    /** A query whose cell's slot holds a tile interpolates in that tile. */
    lemma {:induction false} ReadsSlot(lat: real, lon: real, slot: int, tile: seq<bv8>)
      requires slot == (lat.Floor - south) * cols + (lon.Floor - west)
      requires 0 <= slot < |tiles| && tiles[slot] == Some(tile)
      ensures ElevationAt(lat, lon) == Interpolate(tile, tileSize, lat - lat.Floor as real, lon - lon.Floor as real)
    {
    }
  }

  /** Building the store (elevation.cxx:11-13): allocating
      (north - south + 1) * (east - west + 1) slots throws
      std::bad_array_new_length when that count is negative; otherwise the
      constructor runs. */
  method NewElevation(south: int, west: int, north: int, east: int, tilesPath: string, dir: map<string, seq<bv8>>)
    returns (r: Result<Elevation, AllocationError>)
    ensures r.Err? <==> (north - south + 1) * (east - west + 1) < 0
    ensures r.Err? ==> r.error == BadArrayNewLength
    ensures r.Ok? ==> && fresh(r.value)
                      && r.value.south == south && r.value.west == west
                      && r.value.north == north && r.value.east == east
                      && r.value.LoadedFrom(dir, tilesPath)
  {
    if (north - south + 1) * (east - west + 1) < 0 {
      r := Err(BadArrayNewLength);
    } else {
      var store := new Elevation(south, west, north, east, tilesPath, dir);
      r := Ok(store);
    }
  }
}
