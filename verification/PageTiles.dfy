/** Cutting a large page image into tiles, and loading the tiles back. */
module PageTiles {
  const TILE_SIZE := 2048

  datatype Name = TileName(row: nat, column: nat) | OtherName(name: string, plain: bool)

  /** The pixels of a tile file are determined by the rectangle that was cropped. */
  datatype Bytes = Crop(x: int, y: int, right: int, bottom: int) | Junk(content: string)

  datatype Digest = Sha256(of: Bytes)

  datatype Record = Record(filename: Name, x: int, y: int, width: int, height: int, hash: Digest)

  datatype Tile = Tile(path: Name, x: int, y: int, width: int, height: int, hash: Digest)

  datatype Loaded = Tiles(tiles: seq<Tile>) | Rejected

  function Min(a: int, b: int): int { if a < b then a else b }

  // ---------------------------------------------------------------- the grid

  function Count(length: nat): nat { (length + TILE_SIZE - 1) / TILE_SIZE }

  /** There is a cell `n` exactly when it starts before the end. */
  lemma CellsLeft(length: nat, n: nat)
    ensures n * TILE_SIZE < length <==> n < Count(length)
  {
  }

  function CellRecord(width: nat, height: nat, row: nat, column: nat): Record {
    var x, y := column * TILE_SIZE, row * TILE_SIZE;
    var right, bottom := Min(width, x + TILE_SIZE), Min(height, y + TILE_SIZE);
    Record(TileName(row, column), x, y, right - x, bottom - y, Sha256(Crop(x, y, right, bottom)))
  }

  function RowRecords(width: nat, height: nat, row: nat, columns: nat): (records: seq<Record>)
    ensures |records| == columns
    ensures forall c | 0 <= c < columns :: records[c] == CellRecord(width, height, row, c)
  {
    seq(columns, c requires 0 <= c < columns => CellRecord(width, height, row, c))
  }

  function GridRecords(width: nat, height: nat, rows: nat): seq<Record> {
    if rows == 0 then [] else GridRecords(width, height, rows - 1) + RowRecords(width, height, rows - 1, Count(width))
  }

  class TileCache {
    var records: seq<Record>
    var files: map<Name, Bytes>

    constructor ()
      ensures records == [] && files == map[]
    {
      records, files := [], map[];
    }

    /** The files are exactly those of the records, each holding its crop. */
    ghost predicate Consistent()
      reads this
    {
      && (forall name :: name in files <==> exists record :: record in records && record.filename == name)
      && (forall record | record in records :: record.filename in files && files[record.filename] == record.hash.of)
    }

    /** Only tiles before this cell have been written. */
    ghost predicate WrittenBefore(row: nat, column: nat)
      reads this
    {
      forall name | name in files :: name.TileName? && (name.row < row || (name.row == row && name.column < column))
    }

    /** Files are created, never replaced. */
    method WriteTile(record: Record, ghost row: nat, ghost column: nat)
      requires record.filename == TileName(row, column) && Consistent() && WrittenBefore(row, column)
      modifies this
      ensures records == old(records) + [record] && files == old(files)[record.filename := record.hash.of]
      ensures Consistent() && WrittenBefore(row, column + 1)
    {
      files := files[record.filename := record.hash.of];
      records := records + [record];
      assert record in records;
    }

    method GenerateRow(width: nat, height: nat, row: nat, y: nat)
      requires y == row * TILE_SIZE && Consistent() && WrittenBefore(row, 0)
      modifies this
      ensures records == old(records) + RowRecords(width, height, row, Count(width))
      ensures Consistent() && WrittenBefore(row + 1, 0)
    {
      hide Consistent, WrittenBefore;
      var column, x := 0, 0;
      CellsLeft(width, column);
      while x < width
        invariant x == column * TILE_SIZE && column <= Count(width) && (x < width <==> column < Count(width))
        invariant records == old(records) + RowRecords(width, height, row, Count(width))[..column]
        invariant Consistent() && WrittenBefore(row, column)
      {
        var right, bottom := Min(width, x + TILE_SIZE), Min(height, y + TILE_SIZE);
        WriteTile(Record(TileName(row, column), x, y, right - x, bottom - y, Sha256(Crop(x, y, right, bottom))), row, column);
        x, column := x + TILE_SIZE, column + 1;
        CellsLeft(width, column);
      }
      RowWritten(row, column);
    }

    lemma RowWritten(row: nat, column: nat)
      requires WrittenBefore(row, column)
      ensures WrittenBefore(row + 1, 0)
    {
    }

    method Generate(width: nat, height: nat)
      requires records == [] && files == map[]
      modifies this
      ensures records == GridRecords(width, height, Count(height)) && Consistent()
    {
      assert Consistent() && WrittenBefore(0, 0);
      hide Consistent, WrittenBefore, RowRecords;
      var row, y := 0, 0;
      CellsLeft(height, row);
      while y < height
        invariant y == row * TILE_SIZE && row <= Count(height) && (y < height <==> row < Count(height))
        invariant records == GridRecords(width, height, row)
        invariant Consistent() && WrittenBefore(row, 0)
      {
        GenerateRow(width, height, row, y);
        y, row := y + TILE_SIZE, row + 1;
        CellsLeft(height, row);
      }
    }
  }

  // ---------------------------------------------------------------- the grid is a partition

  predicate Contains(record: Record, px: int, py: int) {
    record.x <= px < record.x + record.width && record.y <= py < record.y + record.height
  }

  predicate InBounds(record: Record, width: nat, height: nat) {
    && 0 <= record.x && 0 <= record.y && 1 <= record.width <= TILE_SIZE && 1 <= record.height <= TILE_SIZE
    && record.x + record.width <= width && record.y + record.height <= height
  }

  predicate Before(a: Record, b: Record) { a.y < b.y || (a.y == b.y && a.x < b.x) }

  predicate IsCell(width: nat, height: nat, record: Record, row: nat, column: nat) {
    column < Count(width) && record == CellRecord(width, height, row, column)
  }

  lemma {:induction false} GridMembers(width: nat, height: nat, rows: nat, record: Record)
    ensures record in GridRecords(width, height, rows) <==>
            exists row: nat, column: nat :: row < rows && IsCell(width, height, record, row, column)
  {
    if rows > 0 {
      GridMembers(width, height, rows - 1, record);
      var last := RowRecords(width, height, rows - 1, Count(width));
      if record in last {
        var column :| 0 <= column < |last| && last[column] == record;
        assert IsCell(width, height, record, rows - 1, column);
      }
      if exists row: nat, column: nat :: row < rows && IsCell(width, height, record, row, column) {
        var row: nat, column: nat :| row < rows && IsCell(width, height, record, row, column);
        if row == rows - 1 { assert last[column] == record; }
      }
    }
  }

  /** Every tile lies inside the page, is named for its place in the grid, and its digest is that of just
      the pixels it covers. */
  lemma {:induction false} TilesInBounds(width: nat, height: nat, record: Record)
    requires record in GridRecords(width, height, Count(height))
    ensures InBounds(record, width, height)
    ensures record.x % 2048 == 0 && record.y % 2048 == 0 && record.width <= 2048 && record.height <= 2048
    ensures record.filename == TileName(record.y / 2048, record.x / 2048)
    ensures record.hash == Sha256(Crop(record.x, record.y, record.x + record.width, record.y + record.height))
  {
    GridMembers(width, height, Count(height), record);
  }

  /** Tiles are listed strictly by row, then by column. */
  lemma {:induction false} TilesAreOrdered(width: nat, height: nat, rows: nat, i: nat, j: nat)
    requires i < j < |GridRecords(width, height, rows)|
    ensures Before(GridRecords(width, height, rows)[i], GridRecords(width, height, rows)[j])
  {
    var upper, last := GridRecords(width, height, rows - 1), RowRecords(width, height, rows - 1, Count(width));
    if j < |upper| {
      TilesAreOrdered(width, height, rows - 1, i, j);
    } else if i < |upper| {
      GridMembers(width, height, rows - 1, upper[i]);
    }
  }

  /** Every pixel of the page lies in exactly one tile. */
  lemma TilesPartitionThePage(width: nat, height: nat, px: nat, py: nat) returns (i: nat)
    requires px < width && py < height
    ensures i < |GridRecords(width, height, Count(height))| && Contains(GridRecords(width, height, Count(height))[i], px, py)
    ensures forall j | 0 <= j < |GridRecords(width, height, Count(height))| ::
              Contains(GridRecords(width, height, Count(height))[j], px, py) ==> j == i
  {
    var grid := GridRecords(width, height, Count(height));
    var cell := CellRecord(width, height, py / TILE_SIZE, px / TILE_SIZE);
    GridMembers(width, height, Count(height), cell);
    assert IsCell(width, height, cell, py / TILE_SIZE, px / TILE_SIZE) && py / TILE_SIZE < Count(height);
    i :| 0 <= i < |grid| && grid[i] == cell;
    forall j | 0 <= j < |grid| && Contains(grid[j], px, py)
      ensures j == i
    {
      GridMembers(width, height, Count(height), grid[j]);
      var row: nat, column: nat :| row < Count(height) && IsCell(width, height, grid[j], row, column);
      assert row == py / TILE_SIZE && column == px / TILE_SIZE;
      if i < j { TilesAreOrdered(width, height, Count(height), i, j); }
      if j < i { TilesAreOrdered(width, height, Count(height), j, i); }
    }
  }

  function Area(records: seq<Record>): int {
    if records == [] then 0 else Area(records[..|records| - 1]) + records[|records| - 1].width * records[|records| - 1].height
  }

  lemma {:induction false} AreaOfBoth(a: seq<Record>, b: seq<Record>)
    ensures Area(a + b) == Area(a) + Area(b)
  {
    if b == [] {
      assert a + b == a;
    } else {
      AreaOfBoth(a, b[..|b| - 1]);
      assert (a + b)[..|a + b| - 1] == a + b[..|b| - 1];
    }
  }

  lemma {:induction false} RowArea(width: nat, height: nat, row: nat, n: nat)
    requires n <= Count(width) && row < Count(height)
    ensures Area(RowRecords(width, height, row, Count(width))[..n])
            == Min(width, n * TILE_SIZE) * (Min(height, (row + 1) * TILE_SIZE) - row * TILE_SIZE)
  {
    var all := RowRecords(width, height, row, Count(width));
    if n > 0 {
      RowArea(width, height, row, n - 1);
      assert all[..n][..n - 1] == all[..n - 1];
      var tall := Min(height, (row + 1) * TILE_SIZE) - row * TILE_SIZE;
      Distribute(Min(width, (n - 1) * TILE_SIZE), Min(width, n * TILE_SIZE) - (n - 1) * TILE_SIZE, tall);
    }
  }

  lemma Distribute(a: int, b: int, c: int)
    ensures a * c + b * c == (a + b) * c
  {
  }

  lemma {:induction false} GridArea(width: nat, height: nat, rows: nat)
    requires rows <= Count(height)
    ensures Area(GridRecords(width, height, rows)) == width * Min(height, rows * TILE_SIZE)
  {
    if rows > 0 {
      GridArea(width, height, rows - 1);
      var upper, last := GridRecords(width, height, rows - 1), RowRecords(width, height, rows - 1, Count(width));
      AreaOfBoth(upper, last);
      assert GridRecords(width, height, rows) == upper + last;
      RowArea(width, height, rows - 1, Count(width));
      assert last[..Count(width)] == last && Min(width, Count(width) * TILE_SIZE) == width;
      StripArea(width, height, rows);
      hide *;
      assert rows - 1 + 1 == rows;
    } else {
      assert width * 0 == 0;
    }
  }

  lemma StripArea(width: nat, height: nat, rows: nat)
    requires 0 < rows <= Count(height)
    ensures width * Min(height, (rows - 1) * TILE_SIZE) + width * (Min(height, rows * TILE_SIZE) - (rows - 1) * TILE_SIZE)
            == width * Min(height, rows * TILE_SIZE)
  {
    var top, bottom := Min(height, (rows - 1) * TILE_SIZE), Min(height, rows * TILE_SIZE);
    assert top == (rows - 1) * TILE_SIZE;
    Distribute(top, bottom - top, width);
  }

  /** The areas of the tiles add up to the area of the page. */
  lemma {:induction false} TilesCoverTheArea(width: nat, height: nat)
    ensures Area(GridRecords(width, height, Count(height))) == width * height
  {
    GridArea(width, height, Count(height));
  }

  // ---------------------------------------------------------------- loading

  predicate Acceptable(record: Record, files: map<Name, Bytes>, width: nat, height: nat) {
    && (record.filename.OtherName? ==> record.filename.plain)
    && record.filename in files && Sha256(files[record.filename]) == record.hash
    && 0 <= record.x && 0 <= record.y && 1 <= record.width && 1 <= record.height
    && record.x + record.width <= width && record.y + record.height <= height
  }

  function TileOf(record: Record): Tile {
    Tile(record.filename, record.x, record.y, record.width, record.height, record.hash)
  }

  function TilesOf(records: seq<Record>): (tiles: seq<Tile>)
    ensures |tiles| == |records| && forall i | 0 <= i < |tiles| :: tiles[i] == TileOf(records[i])
  {
    seq(|records|, i requires 0 <= i < |records| => TileOf(records[i]))
  }

  predicate NotAfter(a: Tile, b: Tile) { a.y < b.y || (a.y == b.y && a.x <= b.x) }

  /** Insertion into a list sorted by position, after equal positions. */
  function Insert(sorted: seq<Tile>, tile: Tile): seq<Tile> {
    if sorted == [] || NotAfter(sorted[|sorted| - 1], tile) then sorted + [tile]
    else Insert(sorted[..|sorted| - 1], tile) + [sorted[|sorted| - 1]]
  }

  function Sort(tiles: seq<Tile>): seq<Tile> {
    if tiles == [] then [] else Insert(Sort(tiles[..|tiles| - 1]), tiles[|tiles| - 1])
  }

  method LoadTiles(records: seq<Record>, files: map<Name, Bytes>, width: nat, height: nat) returns (loaded: Loaded)
    ensures loaded.Tiles? <==> records != [] && forall r | r in records ::
      && (r.filename.OtherName? ==> r.filename.plain)
      && r.filename in files && r.hash == Sha256(files[r.filename])
      && 0 <= r.x && 0 <= r.y && 1 <= r.width && 1 <= r.height && r.x + r.width <= width && r.y + r.height <= height
    ensures loaded.Tiles? ==> loaded.tiles == Sort(TilesOf(records))
    ensures loaded.Tiles? ==> InOrder(loaded.tiles)
    ensures loaded.Tiles? ==>
      multiset(loaded.tiles) == multiset(seq(|records|, i requires 0 <= i < |records| =>
        var r := records[i]; Tile(r.filename, r.x, r.y, r.width, r.height, r.hash)))
  {
    SortRearranges(TilesOf(records));
    assert TilesOf(records) == seq(|records|, i requires 0 <= i < |records| =>
      var r := records[i]; Tile(r.filename, r.x, r.y, r.width, r.height, r.hash));
    hide InOrder, NotAfter, Insert;
    if records == [] { return Rejected; }
    var tiles: seq<Tile> := [];
    for i := 0 to |records|
      invariant tiles == TilesOf(records[..i])
      invariant forall j | 0 <= j < i :: Acceptable(records[j], files, width, height)
    {
      var record := records[i];
      if !Acceptable(record, files, width, height) { return Rejected; }
      tiles := tiles + [TileOf(record)];
    }
    assert records[..|records|] == records;
    return Tiles(Sort(tiles));
  }

  lemma {:induction false} SortOfSorted(tiles: seq<Tile>)
    requires forall i, j | 0 <= i < j < |tiles| :: NotAfter(tiles[i], tiles[j])
    ensures Sort(tiles) == tiles
  {
    if tiles != [] {
      SortOfSorted(tiles[..|tiles| - 1]);
      assert tiles == tiles[..|tiles| - 1] + [tiles[|tiles| - 1]];
    }
  }

  lemma NothingToOrder()
    ensures InOrder([])
  {
  }

  /** Sorting rearranges: nothing is lost, added or changed. */
  lemma {:induction false} SortRearranges(tiles: seq<Tile>)
    ensures multiset(Sort(tiles)) == multiset(tiles)
    ensures InOrder(Sort(tiles))
  {
    hide InOrder, NotAfter, Insert;
    if tiles == [] {
      assert Sort(tiles) == [];
      NothingToOrder();
    } else {
      var most, last := tiles[..|tiles| - 1], tiles[|tiles| - 1];
      SortRearranges(most);
      InsertRearranges(Sort(most), last);
      InsertKeepsOrder(Sort(most), last);
      assert tiles == most + [last];
    }
  }

  lemma {:induction false} InsertRearranges(sorted: seq<Tile>, tile: Tile)
    ensures multiset(Insert(sorted, tile)) == multiset(sorted) + multiset{tile}
  {
    hide NotAfter;
    if sorted != [] && !NotAfter(sorted[|sorted| - 1], tile) {
      var most, last := sorted[..|sorted| - 1], sorted[|sorted| - 1];
      InsertRearranges(most, tile);
      assert sorted == most + [last];
    }
  }

  lemma {:induction false} InsertMembers(sorted: seq<Tile>, tile: Tile, x: Tile)
    requires x in Insert(sorted, tile)
    ensures x in sorted || x == tile
  {
    InsertRearranges(sorted, tile);
    assert x in multiset(Insert(sorted, tile));
  }

  predicate InOrder(tiles: seq<Tile>) { forall i, j | 0 <= i < j < |tiles| :: NotAfter(tiles[i], tiles[j]) }

  lemma {:induction false} InsertKeepsOrder(sorted: seq<Tile>, tile: Tile)
    requires InOrder(sorted)
    ensures InOrder(Insert(sorted, tile))
  {
    if sorted != [] && !NotAfter(sorted[|sorted| - 1], tile) {
      var most, last := sorted[..|sorted| - 1], sorted[|sorted| - 1];
      InsertKeepsOrder(most, tile);
      var inserted := Insert(most, tile);
      forall i | 0 <= i < |inserted|
        ensures NotAfter(inserted[i], last)
      {
        InsertMembers(most, tile, inserted[i]);
      }
    }
  }

  /** What the generator wrote, the loader accepts, and returns in the order of generation. */
  method GenerateAndLoad(width: nat, height: nat) returns (loaded: Loaded)
    requires width > 0 && height > 0
    ensures loaded == Tiles(TilesOf(GridRecords(width, height, Count(height))))
  {
    var cache := new TileCache();
    cache.Generate(width, height);
    ghost var grid := GridRecords(width, height, Count(height));
    forall record | record in grid
      ensures Acceptable(record, cache.files, width, height)
    {
      TilesInBounds(width, height, record);
      GridMembers(width, height, Count(height), record);
    }
    var i := TilesPartitionThePage(width, height, 0, 0);
    loaded := LoadTiles(cache.records, cache.files, width, height);
    forall i, j | 0 <= i < j < |grid|
      ensures NotAfter(TilesOf(grid)[i], TilesOf(grid)[j])
    {
      TilesAreOrdered(width, height, Count(height), i, j);
    }
    SortOfSorted(TilesOf(grid));
  }
}
