/** Card templates (rows of the card table) and card instances, with the
    instance factory and the image-path helper of shared.js. */
module Cards {
  import opened Wrappers

  /** The `type` column of the card table. */
  datatype Kind = Battlefield | Support | Miracle

  /** One row of the card table as loaded from the CSV: the fields every
      copy of a card shares. */
  datatype CardTemplate = CardTemplate(
    id: int,
    name: string,
    kind: Kind,
    rarity: string,
    stRace: string,
    ndRace: string,
    cost: real,
    hp: int,
    atk: int,
    effect: string)

  /** A card instance in play: the template's fields, a health ceiling, an
      instance id, and the optional `frozen` turn counter (absent = `None`). */
  datatype Card = Card(
    id: int,
    instanceId: string,
    name: string,
    kind: Kind,
    rarity: string,
    stRace: string,
    ndRace: string,
    cost: real,
    atk: int,
    hp: int,
    maxHp: int,
    effect: string,
    frozen: Option<int>)

  /** The template a card instance was made from. */
  function TemplateOf(c: Card): CardTemplate
  {
    CardTemplate(c.id, c.name, c.kind, c.rarity, c.stRace, c.ndRace, c.cost, c.hp, c.atk, c.effect)
  }

  /** `createCard`: copies every template field, sets the health ceiling to
      the template's health and stamps the (randomly drawn, here injected)
      instance id. */
  function CreateCard(t: CardTemplate, instanceId: string): (c: Card)
    ensures TemplateOf(c) == t
    ensures c.maxHp == t.hp && c.hp == c.maxHp
    ensures c.instanceId == instanceId
    ensures c.frozen == None
  {
    Card(t.id, instanceId, t.name, t.kind, t.rarity, t.stRace, t.ndRace, t.cost,
         t.atk, t.hp, t.hp, t.effect, None)
  }

  // ---------------------------------------------------------------------
  // Decimal rendering of card ids and `getCardImagePath`
  // ---------------------------------------------------------------------

  predicate IsDigit(ch: char) { '0' <= ch <= '9' }

  function DigitChar(d: nat): (ch: char)
    requires d < 10
    ensures IsDigit(ch)
  {
    ['0', '1', '2', '3', '4', '5', '6', '7', '8', '9'][d]
  }

  function DigitValue(ch: char): (d: nat)
    requires IsDigit(ch)
    ensures d < 10
  {
    (ch as int - '0' as int) as nat
  }

  lemma DigitRoundTrip(d: nat)
    requires d < 10
    ensures DigitValue(DigitChar(d)) == d
  {
  }

  lemma CharRoundTrip(ch: char)
    requires IsDigit(ch)
    ensures DigitChar(DigitValue(ch)) == ch
  {
  }

  /** A run of decimal digits without a leading zero, unless it is "0"
      itself: the form JavaScript writes a non-negative integer in. */
  predicate PlainNumeral(s: string)
  {
    && |s| > 0
    && (forall i :: 0 <= i < |s| ==> IsDigit(s[i]))
    && (s[0] == '0' ==> |s| == 1)
  }

  /** The form JavaScript writes an integer in: a plain numeral, or a minus
      sign before a plain numeral other than "0". */
  predicate IntLiteral(s: string)
  {
    || PlainNumeral(s)
    || (|s| > 1 && s[0] == '-' && PlainNumeral(s[1..]) && s[1] != '0')
  }

  /** Decimal digits of a natural number, most significant first, as
      JavaScript's number-to-string conversion writes an integer below
      1e21 (larger ones switch to exponent form, which is not modelled). */
  function Digits(n: nat): (s: string)
    ensures |s| > 0 && forall i :: 0 <= i < |s| ==> IsDigit(s[i])
    ensures n == 0 || s[0] != '0'
    decreases n
  {
    if n < 10 then [DigitChar(n)] else Digits(n / 10) + [DigitChar(n % 10)]
  }

  /** Reads a non-empty run of decimal digits. */
  function ParseDigits(s: string): nat
    requires |s| > 0 && forall i :: 0 <= i < |s| ==> IsDigit(s[i])
    decreases |s|
  {
    if |s| == 1 then DigitValue(s[0])
    else 10 * ParseDigits(s[..|s| - 1]) + DigitValue(s[|s| - 1])
  }

  lemma {:induction false} ParseDigitsOfDigits(n: nat)
    ensures ParseDigits(Digits(n)) == n
    decreases n
  {
    DigitRoundTrip(n % 10);
    if n >= 10 {
      var s := Digits(n);
      assert s[..|s| - 1] == Digits(n / 10);
      ParseDigitsOfDigits(n / 10);
    }
  }

  /** A numeral whose first digit is not zero reads as a positive number. */
  lemma {:induction false} ParseDigitsPositive(s: string)
    requires |s| > 0 && (forall i :: 0 <= i < |s| ==> IsDigit(s[i])) && s[0] != '0'
    ensures ParseDigits(s) > 0
    decreases |s|
  {
    if |s| > 1 {
      ParseDigitsPositive(s[..|s| - 1]);
    }
  }

  /** A plain numeral is the rendering of the number it reads as: the
      rendering is the only plain numeral of its value. */
  lemma {:induction false} DigitsOfParse(s: string)
    requires PlainNumeral(s)
    ensures Digits(ParseDigits(s)) == s
    decreases |s|
  {
    if |s| == 1 {
      CharRoundTrip(s[0]);
    } else {
      var init := s[..|s| - 1];
      assert init[0] == s[0];
      ParseDigitsPositive(init);
      DigitsOfParse(init);
      CharRoundTrip(s[|s| - 1]);
      var n := ParseDigits(s);
      assert n / 10 == ParseDigits(init) && n % 10 == DigitValue(s[|s| - 1]);
      assert s == init + [s[|s| - 1]];
    }
  }

  /** String form of an integer id. */
  function IntToString(n: int): (r: string)
    ensures IntLiteral(r)
  {
    if n < 0 then "-" + Digits(-n) else Digits(n)
  }

  /** Reads back what `IntToString` writes. */
  function ParseInt(s: string): Option<int>
  {
    if |s| > 1 && s[0] == '-' && forall i :: 1 <= i < |s| ==> IsDigit(s[i]) then
      Some(-(ParseDigits(s[1..]) as int))
    else if |s| > 0 && forall i :: 0 <= i < |s| ==> IsDigit(s[i]) then
      Some(ParseDigits(s))
    else None
  }

  const ImageDir: string := "card_images/"
  const ImageExt: string := ".png"

  /** `getCardImagePath`: the image file of a card id. */
  function CardImagePath(id: int): (p: string)
    ensures |p| > |ImageDir| + |ImageExt|
    ensures p[..|ImageDir|] == ImageDir
    ensures p[|p| - |ImageExt|..] == ImageExt
    ensures IntLiteral(p[|ImageDir|..|p| - |ImageExt|])
  {
    ImageDir + IntToString(id) + ImageExt
  }

  /** Recovers the card id from an image path, if it has the right shape. */
  function ImagePathId(p: string): Option<int>
  {
    if |p| > |ImageDir| + |ImageExt| && p[..|ImageDir|] == ImageDir && p[|p| - |ImageExt|..] == ImageExt then
      ParseInt(p[|ImageDir|..|p| - |ImageExt|])
    else None
  }

  /** A minus sign followed by the digits of `m` reads back as `-m`. */
  lemma {:induction false} ParseNegative(m: nat)
    requires m > 0
    ensures ParseInt("-" + Digits(m)) == Some(-(m as int))
  {
    var d := Digits(m);
    var s := "-" + d;
    assert s[1..] == d;
    assert forall i :: 1 <= i < |s| ==> IsDigit(s[i]) by {
      forall i | 1 <= i < |s| ensures IsDigit(s[i]) {
        assert s[i] == d[i - 1];
      }
    }
    ParseDigitsOfDigits(m);
  }

  /** Reading back a rendered integer gives the integer. */
  lemma {:induction false} ParseIntRoundTrip(n: int)
    ensures ParseInt(IntToString(n)) == Some(n)
  {
    if n < 0 {
      ParseNegative(-n);
    } else {
      ParseDigitsOfDigits(n);
    }
  }

  /** The image path determines the card id: reading it back gives the id,
      so distinct cards never share an image file. */
  lemma {:induction false} ImagePathRoundTrip(id: int)
    ensures ImagePathId(CardImagePath(id)) == Some(id)
  {
    var m := IntToString(id);
    var p := ImageDir + m + ImageExt;
    assert p[..|ImageDir|] == ImageDir;
    assert p[|p| - |ImageExt|..] == ImageExt;
    assert p[|ImageDir|..|p| - |ImageExt|] == m;
    ParseIntRoundTrip(id);
  }

  lemma ImagePathInjective(a: int, b: int)
    requires CardImagePath(a) == CardImagePath(b)
    ensures a == b
  {
    ImagePathRoundTrip(a);
    ImagePathRoundTrip(b);
  }

  /** An integer literal is the rendering of the integer it reads as: no
      other spelling (a leading zero, "-0") is produced. */
  lemma {:induction false} LiteralUnique(s: string, n: int)
    requires IntLiteral(s) && ParseInt(s) == Some(n)
    ensures s == IntToString(n)
  {
    if PlainNumeral(s) {
      DigitsOfParse(s);
    } else {
      var t := s[1..];
      assert forall i :: 1 <= i < |s| ==> IsDigit(s[i]) by {
        forall i | 1 <= i < |s| ensures IsDigit(s[i]) {
          assert s[i] == t[i - 1];
        }
      }
      ParseDigitsPositive(t);
      DigitsOfParse(t);
      assert s == "-" + t;
    }
  }

  /** A path whose id part is written as an integer literal and reads back
      as `id` is exactly the image path of `id`. */
  lemma {:induction false} ImagePathCanonical(p: string, id: int)
    requires |p| > |ImageDir| + |ImageExt|
    requires IntLiteral(p[|ImageDir|..|p| - |ImageExt|])
    requires ImagePathId(p) == Some(id)
    ensures p == CardImagePath(id)
  {
    var m := p[|ImageDir|..|p| - |ImageExt|];
    LiteralUnique(m, id);
    assert p == p[..|ImageDir|] + m + p[|p| - |ImageExt|..];
  }
}
