/** The two fixed card decks of the game engine and the text test its MOVE_TO effect performs. */
module Cards {

  /** A card's action with its `value` (for the actions that carry one). */
  datatype Action =
    | Money(amount: int)
    | GlobalCollect(perPlayer: int)
    | MoveRelative(delta: int)
    | MoveTo(target: int)
    | Jail
    | NearestRailroad

  datatype Card = Card(text: string, action: Action)

  /** The CHANCE deck ("Churros"). */
  const ChanceDeck: seq<Card> := [
    Card("Vous avez gagné le concours de maths : recevez 100 $", Money(100)),
    Card("Vos parents vous donnent 150 $ (boosted)", Money(150)),
    Card("Le partenariat avec LCL est super fructueux. La banque vous verse 50 $", Money(50)),
    Card("Payez la réinscription : 150 $", Money(-150)),
    Card("La sécurité vous a attrapé en état d'ivresse : payez 20 $", Money(-20)),
    Card("Vous vous faites prendre en train de doubler la queue du Crous : payez 15 $", Money(-15)),
    Card("Hop ! Hop ! Hop ! Vous avez séché trop d'amphi : reculez de 3 cases", MoveRelative(-3)),
    Card("Oh non la noche vous a attrapé ! Allez au Bungalow (Prison) sans passer par l'accueil", Jail),
    Card("Rendez-vous au portail le plus proche", NearestRailroad),
    Card("La sonnerie retentit. Allez en B208", MoveTo(39))
  ]

  /** The COMMUNITY deck ("Foy"). */
  const CommunityDeck: seq<Card> := [
    Card("Allez à l'accueil et touchez 200 $", MoveTo(0)),
    Card("Retournez dans l'obscurité de la As204", MoveTo(1)),
    Card("La noche vous baffe. Allez au Bungalow (Prison) sans passer par l'accueil", Jail),
    Card("Tess s'est trompée dans les comptes : recevez 200 $", Money(200)),
    Card("Vous scannez avec votre Lydia perso : recevez 100 $", Money(100)),
    Card("La vente de chocolatine du Foy a été fructueuse. Recevez 50 $", Money(50)),
    Card("Vous mendiez au Foy. Chaque n7ien vous donne 10 $", GlobalCollect(10)),
    Card("Vous avez gagné le concours de coinche : recevez 10 $", Money(10)),
    Card("Payez une tournée en soirée Foy : 50 $", Money(-50)),
    Card("Votre caution a sauté : payez 50 $", Money(-50)),
    Card("Courez au portail le plus proche (si vous passez l'accueil, touchez 200 $)", NearestRailroad)
  ]

  /** A card whose movement cannot take a player on the board (0..39) off it. */
  predicate KeepsOnBoard(c: Card) {
    match c.action
    case MoveRelative(d) => -40 <= d
    case MoveTo(t) => 0 <= t < 40
    case _ => true
  }

  /** Every card of both decks keeps players on the board. */
  lemma DecksKeepOnBoard()
    ensures forall k :: 0 <= k < |ChanceDeck| ==> KeepsOnBoard(ChanceDeck[k])
    ensures forall k :: 0 <= k < |CommunityDeck| ==> KeepsOnBoard(CommunityDeck[k])
  {
  }

  /** Lower-casing of the letters A to Z. */
  function LowerChar(c: char): (r: char)
    ensures 'A' <= c <= 'Z' ==> 'a' <= r <= 'z' && r as int - c as int == 32
    ensures !('A' <= c <= 'Z') ==> r == c
  {
    if 'A' <= c <= 'Z' then (c as int + 32) as char else c
  }

  /** The lower-cased text s matches the word w at position i. */
  predicate MatchesAt(s: string, w: string, i: int)
    requires 0 <= i <= |s| - |w|
  {
    forall j :: 0 <= j < |w| ==> LowerChar(s[i + j]) == w[j]
  }

  /** `s.toLowerCase().includes(w)`, for a lower-case word w. */
  predicate ContainsFolded(s: string, w: string) {
    exists i :: 0 <= i <= |s| - |w| && MatchesAt(s, w, i)
  }

  /** A word with a letter that the lower-cased text never contains does not occur in it. */
  lemma {:induction false} LetterAbsent(s: string, w: string, k: nat)
    requires k < |w|
    requires forall i :: 0 <= i < |s| ==> LowerChar(s[i]) != w[k]
    ensures !ContainsFolded(s, w)
  {
    forall i | 0 <= i <= |s| - |w| ensures !MatchesAt(s, w, i) {
      assert LowerChar(s[i + k]) != w[k];
    }
  }

  /** The MOVE_TO wording test: a card that says "retournez" or "reculez" (in any letter case) moves back. */
  predicate MovesBack(c: Card) {
    ContainsFolded(c.text, "retournez") || ContainsFolded(c.text, "reculez")
  }

  /** "Retournez dans l'obscurité de la As204" is worded as a move back. */
  lemma BackToAs204Wording()
    ensures CommunityDeck[1].action == MoveTo(1) && MovesBack(CommunityDeck[1])
  {
    var t := "Retournez dans l'obscurité de la As204";
    assert CommunityDeck[1].text == t;
    assert MatchesAt(t, "retournez", 0);
  }

  /** "Allez à l'accueil et touchez 200 $" is not worded as a move back. */
  lemma GoToStartWording()
    ensures CommunityDeck[0].action == MoveTo(0) && !MovesBack(CommunityDeck[0])
  {
    var t := "Allez à l'accueil et touchez 200 $";
    assert CommunityDeck[0].text == t;
    LetterAbsent(t, "retournez", 0);
    LetterAbsent(t, "reculez", 0);
  }

  /** "La sonnerie retentit. Allez en B208" is not worded as a move back. */
  lemma GoToB208Wording()
    ensures ChanceDeck[9].action == MoveTo(39) && !MovesBack(ChanceDeck[9])
  {
    var t := "La sonnerie retentit. Allez en B208";
    assert ChanceDeck[9].text == t;
    LetterAbsent(t, "retournez", 4);
    LetterAbsent(t, "reculez", 3);
  }
}
