/**
  Tokens, pairs of tokens and the matching rules of the game (TokenTrapV3/Token.swift).

  A token has a color and an icon, three of each. Two tokens partially match when
  they differ but share one attribute; a partially matching pair converts into the
  full match that keeps the shared attribute and takes the third value of the other.
  Tokens are objects: a board may hold several tokens with equal attributes, and
  `contains` and the status updates go by identity, never by attributes.
*/
module Tokens {
  import opened Wrappers

  datatype Color = Blue | Gray | Red
  datatype Icon = Die | Face | Star
  datatype Status = Selected | Rejected | TargetMatch
  datatype Attributes = Attributes(color: Color, icon: Icon)

  /** `Token.Color.allCases` and `Token.Icon.allCases`, in declaration order. */
  const AllColors: seq<Color> := [Blue, Gray, Color.Red]
  const AllIcons: seq<Icon> := [Die, Face, Star]

  /** A token object. Its attributes never change once made; its status does. */
  class Token {
    const attributes: Attributes
    var status: Option<Status>

    constructor (color: Color, icon: Icon, status: Option<Status>)
      ensures attributes == Attributes(color, icon) && this.status == status
    {
      attributes := Attributes(color, icon);
      this.status := status;
    }
  }

  /** Not identical, but the same color or the same icon. */
  predicate PartialMatch(a: Attributes, b: Attributes)
    ensures PartialMatch(a, b) ==> (a.color == b.color) != (a.icon == b.icon)
  {
    if a == b then false else a.color == b.color || a.icon == b.icon
  }

  /** The first of `cases` that is neither `a` nor `b`, as `allCases.first { ... }` finds it. */
  function FirstOther<T(==)>(cases: seq<T>, a: T, b: T): (r: Option<T>)
    ensures r.Some? ==> r.value in cases && r.value != a && r.value != b
    ensures r.None? ==> forall i :: 0 <= i < |cases| ==> cases[i] == a || cases[i] == b
  {
    if cases == [] then None
    else if cases[0] != a && cases[0] != b then Some(cases[0])
    else FirstOther(cases[1..], a, b)
  }

  /**
    The attributes `Token(partialMatch:)` gives a pair: nothing unless the pair partially
    matches; otherwise the shared attribute is kept and the other one is the value
    neither token has.
  */
  function Conversion(a: Attributes, b: Attributes): (r: Option<Attributes>)
    ensures r.Some? <==> PartialMatch(a, b)
    ensures r.Some? && a.color == b.color ==>
      r.value.color == a.color && r.value.icon != a.icon && r.value.icon != b.icon
    ensures r.Some? && a.color != b.color ==>
      r.value.icon == a.icon && r.value.icon == b.icon && r.value.color != a.color && r.value.color != b.color
  {
    if !PartialMatch(a, b) then None
    else if a.color == b.color then
      match FirstOther(AllIcons, a.icon, b.icon)
      case Some(icon) => Some(Attributes(a.color, icon))
      case None => None
    else
      match FirstOther(AllColors, a.color, b.color)
      case Some(color) => Some(Attributes(color, a.icon))
      case None => None
  }

  /** Two tokens considered together; the tokens themselves are shared objects. */
  datatype TokenPair = TokenPair(token1: Token, token2: Token) {

    predicate IsPartialMatch()
      ensures IsPartialMatch() ==> token1 != token2
      ensures IsPartialMatch() ==> Conversion(token1.attributes, token2.attributes).Some?
    {
      PartialMatch(token1.attributes, token2.attributes)
    }

    /** The pair converts to `target`: there is a target, and the pair and each token paired with the target all partially match. */
    predicate CanConvert(target: Token?)
      ensures target == null ==> !CanConvert(target)
      ensures CanConvert(target) ==> IsPartialMatch() && target != token1 && target != token2
    {
      target != null &&
      IsPartialMatch() &&
      TokenPair(target, token1).IsPartialMatch() &&
      TokenPair(target, token2).IsPartialMatch()
    }

    /** Membership by identity. */
    predicate Contains(t: Token)
      ensures Contains(t) ==> t.attributes == token1.attributes || t.attributes == token2.attributes
    {
      t == token1 || t == token2
    }

    /** Gives both tokens of the pair the status `s`. */
    method SetStatus(s: Option<Status>)
      modifies token1, token2
      ensures token1.status == s && token2.status == s
    {
      token1.status := s;
      token2.status := s;
    }
  }

  /** `Token.init?(partialMatch:)`: a new token carrying the pair's conversion, or nil. */
  method TokenFromPartialMatch(pair: TokenPair) returns (t: Token?)
    ensures t == null <==> !pair.IsPartialMatch()
    ensures t != null ==>
      fresh(t) && t.status == None &&
      Conversion(pair.token1.attributes, pair.token2.attributes) == Some(t.attributes)
  {
    var converted := Conversion(pair.token1.attributes, pair.token2.attributes);
    match converted
    case None =>
      t := null;
    case Some(attributes) =>
      t := new Token(attributes.color, attributes.icon, None);
  }

  /** Partial matching ignores the order of the two tokens and never holds of identical attributes. */
  lemma PartialMatchSymmetric(a: Attributes, b: Attributes)
    ensures PartialMatch(a, b) == PartialMatch(b, a)
    ensures a == b ==> !PartialMatch(a, b)
    ensures PartialMatch(a, b) <==> a != b && (a.color == b.color || a.icon == b.icon)
  {
  }

  /** A partial match shares exactly one attribute. */
  lemma PartialMatchSharesOne(a: Attributes, b: Attributes)
    requires PartialMatch(a, b)
    ensures (a.color == b.color) != (a.icon == b.icon)
  {
  }

  /** Among three values, the one different from two distinct values is unique. */
  lemma ThirdColorUnique(p: Color, q: Color, x: Color, y: Color)
    requires p != q && x != p && x != q && y != p && y != q
    ensures x == y
  {
  }

  lemma ThirdIconUnique(p: Icon, q: Icon, x: Icon, y: Icon)
    requires p != q && x != p && x != q && y != p && y != q
    ensures x == y
  {
  }

  /**
    The conversion is the only attribute pair that keeps the shared attribute and
    differs from both tokens in the other one.
  */
  lemma ConversionUnique(a: Attributes, b: Attributes, c: Attributes)
    requires PartialMatch(a, b)
    requires a.color == b.color ==> c.color == a.color && c.icon != a.icon && c.icon != b.icon
    requires a.color != b.color ==> c.icon == a.icon && c.color != a.color && c.color != b.color
    ensures Conversion(a, b) == Some(c)
  {
    var r := Conversion(a, b).value;
    if a.color == b.color {
      ThirdIconUnique(a.icon, b.icon, r.icon, c.icon);
    } else {
      ThirdColorUnique(a.color, b.color, r.color, c.color);
    }
  }

  /** Conversion commutes: swapping the tokens gives the same full match. */
  lemma ConversionSymmetric(a: Attributes, b: Attributes)
    ensures Conversion(a, b) == Conversion(b, a)
  {
    if PartialMatch(a, b) {
      ConversionUnique(b, a, Conversion(a, b).value);
    }
  }

  /** `canConvert(to:)` holds exactly when the pair partially matches and its conversion has the target's attributes. */
  lemma CanConvertIff(pair: TokenPair, target: Token?)
    ensures pair.CanConvert(target) <==>
      target != null && pair.IsPartialMatch() &&
      Conversion(pair.token1.attributes, pair.token2.attributes) == Some(target.attributes)
  {
    var a, b := pair.token1.attributes, pair.token2.attributes;
    if pair.CanConvert(target) {
      var t := target.attributes;
      if a.color == b.color {
        assert t.color == a.color;
      } else {
        assert t.icon == a.icon;
      }
      ConversionUnique(a, b, t);
    }
  }

  /** The converted pair from the rules screen: red star and gray star become blue star. */
  lemma RedStarGrayStarGivesBlueStar()
    ensures Conversion(Attributes(Color.Red, Star), Attributes(Gray, Star)) == Some(Attributes(Blue, Star))
  {
  }

  /**
    Membership is by identity: a new token with the same attributes as a listed one is
    not contained, in a pair or in an array.
  */
  method NewTwinNotContained(pair: TokenPair, tokens: seq<Token>) returns (twin: Token)
    ensures twin.attributes == pair.token1.attributes
    ensures !pair.Contains(twin) && !ContainsToken(tokens, twin)
  {
    twin := new Token(pair.token1.attributes.color, pair.token1.attributes.icon, None);
  }

  /** `Array<Token>.contains(_:)`: some element is this very token. */
  predicate ContainsToken(tokens: seq<Token>, t: Token)
    ensures ContainsToken(tokens, t) <==> t in tokens
  {
    exists i :: 0 <= i < |tokens| && tokens[i] == t
  }

  /** `Array<Token>.set(status:)`: every token of the array gets status `s`; no other object changes. */
  method SetStatusAll(tokens: seq<Token>, s: Option<Status>)
    modifies set t | t in tokens
    ensures forall i :: 0 <= i < |tokens| ==> tokens[i].status == s
  {
    for i := 0 to |tokens|
      invariant forall j :: 0 <= j < i ==> tokens[j].status == s
    {
      tokens[i].status := s;
    }
  }

  datatype Style = Green | Red | Gold

  /** `Style.init?(tokenStatus:)`: selected is green, rejected red, target match gold, no status no style. */
  function StyleFor(status: Option<Status>): (r: Option<Style>)
    ensures r.None? <==> status.None?
    ensures status == Some(Selected) ==> r == Some(Green)
    ensures status == Some(Rejected) ==> r == Some(Style.Red)
    ensures status == Some(TargetMatch) ==> r == Some(Gold)
  {
    match status
    case Some(Selected) => Some(Green)
    case Some(Rejected) => Some(Style.Red)
    case Some(TargetMatch) => Some(Gold)
    case None => None
  }

  /** Different statuses are shown differently. */
  lemma StyleForInjective(s1: Option<Status>, s2: Option<Status>)
    ensures StyleFor(s1) == StyleFor(s2) ==> s1 == s2
  {
  }

  /** The view state of one token: its style and whether it is dimmed. */
  class TokenViewModel {
    const token: Token
    var style: Option<Style>
    var isDimmed: bool

    constructor (token: Token)
      ensures this.token == token && style == StyleFor(token.status) && !isDimmed
    {
      this.token := token;
      isDimmed := false;
      style := StyleFor(token.status);
    }

    /** A token is dimmed when its row is solved and it has no status of its own. */
    method SetIsDimmed(rowIsSolved: bool)
      modifies this
      ensures isDimmed == (rowIsSolved && token.status == None)
      ensures style == old(style)
    {
      var dimmed := rowIsSolved && token.status == None;
      if isDimmed != dimmed {
        isDimmed := dimmed;
      }
    }

    method SetStyle()
      modifies this
      ensures style == StyleFor(token.status)
      ensures isDimmed == old(isDimmed)
    {
      var newStyle := StyleFor(token.status);
      if newStyle != style {
        style := newStyle;
      }
    }
  }
}
