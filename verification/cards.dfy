/** Optional values, for the deck operation that answers null on an empty deck
    and for the card-text parser. */
module Optional {
  datatype Option<+T> = None | Some(value: T)
}

/** A playing card: an immutable identity (suit and face value) plus the two
    annotations the meld engine writes, the meld marker and the collate id. */
module Cards {
  import opened Optional

  const Spades := 0
  const Hearts := 1
  const Clubs := 2
  const Diamonds := 3

  const Ace := 1
  const Jack := 11
  const Queen := 12
  const King := 13

  /** Marker of a card that belongs to no meld. It coincides with King. */
  const DefaultMarker := 13

  datatype Card = Card(suit: int, face: int, marker: int, collate: int)

  /** A card of the 52-card deck: suit 0..3 and face 1..13. */
  predicate Valid(c: Card) {
    0 <= c.suit <= 3 && Ace <= c.face <= King
  }

  /** The card as the Card(suit, face) constructor leaves it. */
  function NewCard(suit: int, face: int): (c: Card)
    ensures c.suit == suit && c.face == face
    ensures c.marker == DefaultMarker && c.collate == 0
  {
    Card(suit, face, DefaultMarker, 0)
  }

  /** The card id: suit-major, face-minor numbering. */
  function Id(c: Card): int {
    c.face + c.suit * 13
  }

  /** Deadwood points of a card: its face value, capped at ten. */
  function Weight(c: Card): (w: int)
    ensures w <= 10
    ensures c.face < 10 ==> w == c.face
    ensures c.face >= 10 ==> w == 10
    ensures Valid(c) ==> 1 <= w <= 10
  {
    if c.face >= 10 then 10 else c.face
  }

  /** setSeqGrp: only the marker changes. */
  function SetMarker(c: Card, m: int): (r: Card)
    ensures r.marker == m
    ensures r.suit == c.suit && r.face == c.face && r.collate == c.collate
    ensures Id(r) == Id(c) && Weight(r) == Weight(c)
  {
    c.(marker := m)
  }

  /** setCollateSeqGrp: only the collate id changes. */
  function SetCollate(c: Card, g: int): (r: Card)
    ensures r.collate == g
    ensures r.suit == c.suit && r.face == c.face && r.marker == c.marker
    ensures Id(r) == Id(c) && Weight(r) == Weight(c)
  {
    c.(collate := g)
  }

  /** The card with both annotations cleared, as the first step of a meld
      leaves it. Two cards have the same reset form exactly when they have
      the same suit and face. */
  function Reset(c: Card): Card {
    SetCollate(SetMarker(c, DefaultMarker), 0)
  }

  /** The card as a meld claims it: marker `m`, collate id `g`. */
  function Tag(c: Card, m: int, g: int): (r: Card)
    ensures r.suit == c.suit && r.face == c.face
    ensures r.marker == m && r.collate == g
    ensures Reset(r) == Reset(c)
  {
    SetCollate(SetMarker(c, m), g)
  }

  /** `b` extends `a` upwards in a sequence: same suit, next face. */
  predicate Next(a: Card, b: Card) {
    a.suit == b.suit && b.face == a.face + 1
  }

  /** The (suit, face) pairs present in a hand. */
  ghost function Holding(h: seq<Card>): set<(int, int)> {
    set c | c in h :: (c.suit, c.face)
  }

  /** The card with this suit and face could lie in some three-card sequence
      drawn from `hold`, as its lowest, middle or highest card. */
  ghost predicate InSomeRun(hold: set<(int, int)>, suit: int, face: int) {
    || ((suit, face + 1) in hold && (suit, face + 2) in hold)
    || ((suit, face - 1) in hold && (suit, face + 1) in hold)
    || ((suit, face - 2) in hold && (suit, face - 1) in hold)
  }

  lemma IdRange(c: Card)
    requires Valid(c)
    ensures 1 <= Id(c) <= 52
  {
  }

  /** Distinct valid cards have distinct ids. */
  lemma IdInjective(a: Card, b: Card)
    requires Valid(a) && Valid(b)
    requires Id(a) == Id(b)
    ensures a.suit == b.suit && a.face == b.face
  {
  }

  /** Id order is suit-major: a lower suit always gives a smaller id, and
      within a suit the id follows the face value. */
  lemma IdOrder(a: Card, b: Card)
    requires Valid(a) && Valid(b)
    ensures a.suit < b.suit ==> Id(a) < Id(b)
    ensures a.suit == b.suit ==> (Id(a) < Id(b) <==> a.face < b.face)
  {
    if a.suit < b.suit {
      assert Id(b) >= b.face + a.suit * 13 + 13;
    }
  }

  /** Between valid cards, `Next` is exactly "the id one higher, same suit". */
  lemma NextIsIdSuccessor(a: Card, b: Card)
    requires Valid(a) && Valid(b)
    ensures Next(a, b) <==> a.suit == b.suit && Id(b) == Id(a) + 1
  {
  }

  /** A fresh card is unmarked and ungrouped, and its weight lies in 1..10. */
  lemma NewCardFacts(suit: int, face: int)
    requires 0 <= suit <= 3 && Ace <= face <= King
    ensures Valid(NewCard(suit, face))
    ensures Id(NewCard(suit, face)) == face + 13 * suit
    ensures 1 <= Weight(NewCard(suit, face)) <= 10
    ensures NewCard(suit, face) == Reset(NewCard(suit, face))
  {
  }

  // ---------------------------------------------------------------- text

  function Digit(d: int): char
    requires 0 <= d < 10
  {
    "0123456789"[d]
  }

  predicate IsDigit(ch: char) {
    '0' as int <= ch as int <= '9' as int
  }

  /** Decimal text of a natural number, most significant digit first. */
  function NatText(n: nat): (s: string)
    ensures |s| >= 1
    ensures forall i | 0 <= i < |s| :: IsDigit(s[i])
    ensures n < 10 ==> |s| == 1
    ensures n >= 10 ==> |s| >= 2
    decreases n
  {
    if n < 10 then [Digit(n)] else NatText(n / 10) + [Digit(n % 10)]
  }

  /** Decimal text of an int as Java's string concatenation writes it. */
  function IntText(n: int): string {
    if n < 0 then "-" + NatText(-n) else NatText(n)
  }

  /** Value of a string of decimal digits. */
  function DigitsValue(s: string): nat
    requires forall i | 0 <= i < |s| :: IsDigit(s[i])
  {
    if |s| == 0 then 0
    else
      assert IsDigit(s[|s| - 1]);
      DigitsValue(s[..|s| - 1]) * 10 + (s[|s| - 1] as int - '0' as int)
  }

  lemma {:induction false} DigitsValueOfNatText(n: nat)
    ensures DigitsValue(NatText(n)) == n
    decreases n
  {
    if n >= 10 {
      var s := NatText(n);
      assert s[..|s| - 1] == NatText(n / 10);
      DigitsValueOfNatText(n / 10);
    }
  }

  function FaceText(face: int): string {
    if face == Ace then "A"
    else if face == Jack then "J"
    else if face == Queen then "Q"
    else if face == King then "K"
    else IntText(face)
  }

  function SuitLetter(suit: int): char
    requires 0 <= suit <= 3
  {
    if suit == Spades then 'S'
    else if suit == Hearts then 'H'
    else if suit == Clubs then 'C'
    else 'D'
  }

  /** Card.toString: face text then suit letter; "*" for an unknown suit. */
  function CardText(c: Card): (s: string)
    ensures !(0 <= c.suit <= 3) ==> s == "*"
    ensures 0 <= c.suit <= 3 ==> |s| >= 2 && s[|s| - 1] == SuitLetter(c.suit)
    ensures Valid(c) ==> 2 <= |s| <= 3
  {
    if 0 <= c.suit <= 3 then FaceText(c.face) + [SuitLetter(c.suit)] else "*"
  }

  /** Reads back the (suit, face) of a card from its text. */
  function ParseCardText(s: string): Option<(int, int)> {
    if |s| < 2 then None
    else
      var letter := s[|s| - 1];
      var front := s[..|s| - 1];
      var suit :=
        if letter == 'S' then Spades
        else if letter == 'H' then Hearts
        else if letter == 'C' then Clubs
        else if letter == 'D' then Diamonds
        else -1;
      var face :=
        if front == "A" then Ace
        else if front == "J" then Jack
        else if front == "Q" then Queen
        else if front == "K" then King
        else if forall i | 0 <= i < |front| :: IsDigit(front[i]) then DigitsValue(front)
        else -1;
      if suit < 0 || face < 0 then None else Some((suit, face))
  }

  /** The text of a valid card determines the card: parsing it back gives
      the suit and face, so no two cards of the deck print alike. */
  lemma {:induction false} CardTextRoundTrip(c: Card)
    requires Valid(c)
    ensures ParseCardText(CardText(c)) == Some((c.suit, c.face))
  {
    var s := CardText(c);
    assert s[..|s| - 1] == FaceText(c.face);
    if c.face !in {Ace, Jack, Queen, King} {
      DigitsValueOfNatText(c.face);
      var t := NatText(c.face);
      assert t != "A" && t != "J" && t != "Q" && t != "K" by {
        assert IsDigit(t[0]);
      }
    }
  }

  lemma CardTextInjective(a: Card, b: Card)
    requires Valid(a) && Valid(b)
    requires CardText(a) == CardText(b)
    ensures a.suit == b.suit && a.face == b.face
  {
    CardTextRoundTrip(a);
    CardTextRoundTrip(b);
  }
}
