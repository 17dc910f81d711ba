/** The reference board: the 40 tiles written by the seed script and read by the game engine. */
module Board {
  import opened Wrappers

  datatype TileType =
    | Go | Property | Community | Chance | Tax | Railroad | Jail | Utility | FreeParking | GoToJail

  /** One tile of the board; `price` and `rent` are nullable columns (`None` is null). */
  datatype Tile = Tile(index: int, name: string, kind: TileType, price: Option<int>, rent: Option<int>)

  /** The seed board, in seed order. No entry sets a rent, so every rent is null. */
  const Tiles: seq<Tile> := [
    Tile(0, "Accueil", Go, None, None),
    Tile(1, "As204", Property, Some(60), None),
    Tile(2, "Foy", Community, None, None),
    Tile(3, "As206", Property, Some(60), None),
    Tile(4, "CVEC", Tax, Some(200), None),
    Tile(5, "Portail Accueil", Railroad, Some(200), None),
    Tile(6, "A301", Property, Some(100), None),
    Tile(7, "Churros", Chance, None, None),
    Tile(8, "A201", Property, Some(100), None),
    Tile(9, "A202", Property, Some(120), None),
    Tile(10, "Bungalow de la Noche", Jail, None, None),
    Tile(11, "C202", Property, Some(140), None),
    Tile(12, "Resto'U", Utility, Some(150), None),
    Tile(13, "C206", Property, Some(140), None),
    Tile(14, "C214", Property, Some(160), None),
    Tile(15, "Portail Bat C", Railroad, Some(200), None),
    Tile(16, "A001", Property, Some(180), None),
    Tile(17, "Foy", Community, None, None),
    Tile(18, "A002", Property, Some(180), None),
    Tile(19, "A003", Property, Some(200), None),
    Tile(20, "La CAF", FreeParking, None, None),
    Tile(21, "B0XX (Climatisé)", Property, Some(220), None),
    Tile(22, "Churros", Chance, None, None),
    Tile(23, "B0XX (Climatisé)", Property, Some(220), None),
    Tile(24, "B1XX (chaises styles)", Property, Some(240), None),
    Tile(25, "Portail Vélo", Railroad, Some(200), None),
    Tile(26, "Local TVn7", Property, Some(260), None),
    Tile(27, "Local CAn7", Property, Some(260), None),
    Tile(28, "Danu", Utility, Some(150), None),
    Tile(29, "Local Photo7", Property, Some(280), None),
    Tile(30, "Voiturette de la Noche", GoToJail, None, None),
    Tile(31, "C101", Property, Some(300), None),
    Tile(32, "C102", Property, Some(300), None),
    Tile(33, "Foy", Community, None, None),
    Tile(34, "C103", Property, Some(320), None),
    Tile(35, "Portail Foy", Railroad, Some(200), None),
    Tile(36, "Churros", Chance, None, None),
    Tile(37, "B00", Property, Some(350), None),
    Tile(38, "Gala", Tax, Some(100), None),
    Tile(39, "B208", Property, Some(400), None)
  ]

  /** `boardTiles.find(t => t.index === index)`: the first tile carrying that index. */
  function FindTile(board: seq<Tile>, index: int): (r: Option<Tile>)
    ensures r.Some? ==> r.value in board && r.value.index == index
    ensures r.None? <==> forall k :: 0 <= k < |board| ==> board[k].index != index
    ensures board != [] && board[0].index == index ==> r == Some(board[0])
    ensures forall k :: (0 <= k < |board| && board[k].index == index &&
                         (forall j :: 0 <= j < k ==> board[j].index != index)) ==> r == Some(board[k])
  {
    if board == [] then None
    else if board[0].index == index then Some(board[0])
    else FindTile(board[1..], index)
  }

  /** The seed board has 40 entries and entry k has index k. */
  lemma SeedIsIndexed()
    ensures |Tiles| == 40
    ensures forall k :: 0 <= k < |Tiles| ==> Tiles[k].index == k
  {
  }

  /** On a board whose entries are numbered consecutively from `base`, a lookup finds the entry at its offset. */
  lemma {:induction false} FindInIndexed(board: seq<Tile>, base: int, k: int)
    requires forall j :: 0 <= j < |board| ==> board[j].index == base + j
    ensures base <= k < base + |board| ==> FindTile(board, k) == Some(board[k - base])
    ensures !(base <= k < base + |board|) ==> FindTile(board, k) == None
    decreases |board|
  {
    if board != [] && board[0].index != k {
      FindInIndexed(board[1..], base + 1, k);
    }
  }

  /** Looking a position up on the seed board yields the entry at that position, and nothing off the board. */
  lemma SeedLookup(k: int)
    ensures 0 <= k < 40 ==> FindTile(Tiles, k) == Some(Tiles[k])
    ensures !(0 <= k < 40) ==> FindTile(Tiles, k) == None
  {
    SeedIsIndexed();
    FindInIndexed(Tiles, 0, k);
  }

  /** Railroads sit exactly at 5, 15, 25 and 35. */
  lemma SeedRailroadTiles()
    ensures forall k :: 0 <= k < |Tiles| ==> (Tiles[k].kind == Railroad <==> k == 5 || k == 15 || k == 25 || k == 35)
  {
  }

  /** Utilities sit exactly at 12 and 28. */
  lemma SeedUtilityTiles()
    ensures forall k :: 0 <= k < |Tiles| ==> (Tiles[k].kind == Utility <==> k == 12 || k == 28)
  {
  }

  /** The jail is tile 10 and no other. */
  lemma SeedJailTile()
    ensures forall k :: 0 <= k < |Tiles| ==> (Tiles[k].kind == Jail <==> k == 10)
  {
  }

  /** A tile's price is null exactly for the non-purchasable kinds. */
  lemma SeedPrices()
    ensures forall k :: 0 <= k < |Tiles| ==>
      (Tiles[k].price.None? <==> Tiles[k].kind.Go? || Tiles[k].kind.Community? || Tiles[k].kind.Chance? ||
                                 Tiles[k].kind.Jail? || Tiles[k].kind.FreeParking? || Tiles[k].kind.GoToJail?)
  {
  }

  /** The two TAX tiles carry prices 200 and 100, and no tile has a rent. */
  lemma SeedTaxesAndRents()
    ensures Tiles[4].kind == Tax && Tiles[4].price == Some(200)
    ensures Tiles[38].kind == Tax && Tiles[38].price == Some(100)
    ensures forall k :: 0 <= k < |Tiles| ==> Tiles[k].rent.None?
  {
  }
}
