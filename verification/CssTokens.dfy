/** The token readers of runtime/native-css-dependencies.ts over UTF-16 code units, as functions of the unread
    suffix, and the fact each of them looks at no more of that suffix than it must. */
module CssTokens {
  import opened Collections

  type Unit = u: int | 0 <= u < 0x10000
  type Text = seq<Unit>

  const REPLACEMENT: Unit := 0xFFFD
  const BACKSLASH: Unit := 92
  const QUOTE: Unit := 34
  const APOSTROPHE: Unit := 39
  const OPEN: Unit := 40
  const CLOSE: Unit := 41
  const STAR: Unit := 42
  const SLASH: Unit := 47
  const COLON: Unit := 58
  const SEMICOLON: Unit := 59
  const AT: Unit := 64

  /** What a reader took from the front of the unread text. */
  datatype Read<+T> = Invalid | Took(len: nat, value: T)

  predicate Whitespace(c: Unit) { c == 9 || c == 10 || c == 12 || c == 13 || c == 32 }
  predicate Newline(c: Unit) { c == 10 || c == 12 || c == 13 }
  predicate Digit(c: Unit) { 48 <= c <= 57 }
  predicate Hex(c: Unit) { Digit(c) || 65 <= c <= 70 || 97 <= c <= 102 }
  predicate Letter(c: Unit) { 65 <= c <= 90 || 97 <= c <= 122 }
  predicate NameUnit(c: Unit) { Letter(c) || Digit(c) || c == 95 || c == 45 || c >= 128 || c == BACKSLASH }
  predicate QuoteUnit(c: Unit) { c == QUOTE || c == APOSTROPHE }

  /** Lower case as far as an ASCII keyword can tell: ASCII letters and the Kelvin sign. */
  function LowerUnit(c: Unit): Unit {
    if 65 <= c <= 90 then c + 32 else if c == 0x212A then 107 else c
  }

  function Lower(t: Text): Text {
    seq(|t|, i requires 0 <= i < |t| => LowerUnit(t[i]))
  }

  function HexValue(c: Unit): nat
    requires Hex(c)
  {
    if Digit(c) then c - 48 else if c >= 97 then c - 87 else c - 55
  }

  function HexRun(rest: Text, most: nat): nat
    ensures HexRun(rest, most) <= |rest| && HexRun(rest, most) <= most
    ensures forall i :: 0 <= i < HexRun(rest, most) ==> Hex(rest[i])
  {
    if rest == [] || most == 0 || !Hex(rest[0]) then 0 else 1 + HexRun(rest[1..], most - 1)
  }

  function HexNumber(digits: Text, value: nat): nat
    requires forall i :: 0 <= i < |digits| ==> Hex(digits[i])
  {
    if digits == [] then value else HexNumber(digits[1..], value * 16 + HexValue(digits[0]))
  }

  function FromCodePoint(point: nat): Text {
    if point == 0 || point > 0x10FFFF || 0xD800 <= point <= 0xDFFF then [REPLACEMENT]
    else if point < 0x10000 then [point]
    else [0xD800 + (point - 0x10000) / 0x400, 0xDC00 + (point - 0x10000) % 0x400]
  }

  /** One whitespace ends a hexadecimal escape; CR LF counts as one. */
  function EscapeTail(rest: Text): nat
    ensures EscapeTail(rest) <= |rest|
  {
    if rest == [] || !Whitespace(rest[0]) then 0 else if rest[0] == 13 && |rest| > 1 && rest[1] == 10 then 2 else 1
  }

  function Escape(rest: Text): (r: Read<Text>)
    requires rest != [] && rest[0] == BACKSLASH
    ensures r.Took? ==> 2 <= r.len <= |rest|
  {
    if |rest| == 1 then Invalid
    else if Hex(rest[1]) then
      var n := HexRun(rest[1..], 6);
      Took(1 + n + EscapeTail(rest[1 + n..]), FromCodePoint(HexNumber(rest[1..1 + n], 0)))
    else if Newline(rest[1]) then Invalid
    else Took(2, [rest[1]])
  }

  function Word(rest: Text): (r: Read<Text>)
    ensures r.Took? ==> r.len <= |rest|
    decreases |rest|
  {
    if rest == [] || !NameUnit(rest[0]) then Took(0, [])
    else
      var head := if rest[0] == BACKSLASH then Escape(rest) else Took(1, [rest[0]]);
      if head.Invalid? then Invalid
      else
        var more := Word(rest[head.len..]);
        if more.Invalid? then Invalid else Took(head.len + more.len, head.value + more.value)
  }

  /** The next piece of a quoted string: a line continuation, NUL, an escape or the unit itself. */
  function StringPiece(rest: Text): (r: Read<Text>)
    requires rest != []
    ensures r.Took? ==> 1 <= r.len <= |rest|
  {
    if rest[0] == BACKSLASH && |rest| > 1 && Newline(rest[1]) then
      Took(if rest[1] == 13 && |rest| > 2 && rest[2] == 10 then 3 else 2, [])
    else if rest[0] == 0 then Took(1, [REPLACEMENT])
    else if rest[0] == BACKSLASH then Escape(rest)
    else Took(1, [rest[0]])
  }

  /** The rest of a string after its opening quote, closing quote included. */
  function StringBody(rest: Text, quote: Unit): (r: Read<Text>)
    ensures r.Took? ==> 1 <= r.len <= |rest|
    decreases |rest|
  {
    if rest == [] || Newline(rest[0]) then Invalid
    else if rest[0] == quote then Took(1, [])
    else
      var head := StringPiece(rest);
      if head.Invalid? then Invalid
      else
        var more := StringBody(rest[head.len..], quote);
        if more.Invalid? then Invalid else Took(head.len + more.len, head.value + more.value)
  }

  function String(rest: Text): (r: Read<Text>)
    requires rest != [] && QuoteUnit(rest[0])
    ensures r.Took? ==> 2 <= r.len <= |rest|
  {
    var body := StringBody(rest[1..], rest[0]);
    if body.Invalid? then Invalid else Took(1 + body.len, body.value)
  }

  predicate CommentStart(rest: Text) { |rest| >= 2 && rest[0] == SLASH && rest[1] == STAR }

  /** How far the closing delimiter of a comment is. */
  function CommentEnd(rest: Text): (r: Read<()>)
    ensures r.Took? ==> r.len + 2 <= |rest|
    decreases |rest|
  {
    if |rest| < 2 then Invalid
    else if rest[0] == STAR && rest[1] == SLASH then Took(0, ())
    else
      var more := CommentEnd(rest[1..]);
      if more.Invalid? then Invalid else Took(1 + more.len, ())
  }

  /** One blank: a whitespace unit or a comment; 0 when the text does not start with one. */
  function Blank(rest: Text): (r: Read<()>)
    ensures r.Took? ==> r.len <= |rest|
  {
    if rest != [] && Whitespace(rest[0]) then Took(1, ())
    else if CommentStart(rest) then
      var end := CommentEnd(rest[2..]);
      if end.Invalid? then Invalid else Took(end.len + 4, ())
    else Took(0, ())
  }

  /** Whitespace and comments. */
  function Skip(rest: Text): (r: Read<()>)
    ensures r.Took? ==> r.len <= |rest|
    decreases |rest|
  {
    var blank := Blank(rest);
    if blank.Invalid? || blank.len == 0 then blank
    else
      var more := Skip(rest[blank.len..]);
      if more.Invalid? then Invalid else Took(blank.len + more.len, ())
  }

  function Spaces(rest: Text): (n: nat)
    ensures n <= |rest| && (n < |rest| ==> !Whitespace(rest[n]))
    ensures forall i :: 0 <= i < n ==> Whitespace(rest[i])
    decreases |rest|
  {
    if rest == [] || !Whitespace(rest[0]) then 0 else 1 + Spaces(rest[1..])
  }

  /** The unquoted target of url(...), closing parenthesis included. */
  function Unquoted(rest: Text): (r: Read<Text>)
    ensures r.Took? ==> 1 <= r.len <= |rest|
    decreases |rest|
  {
    if rest == [] then Invalid
    else if rest[0] == CLOSE then Took(1, [])
    else if Whitespace(rest[0]) then
      var n := Spaces(rest);
      if n < |rest| && rest[n] == CLOSE then Took(n + 1, []) else Invalid
    else if QuoteUnit(rest[0]) || rest[0] == OPEN || rest[0] < 32 then Invalid
    else
      var head := if rest[0] == BACKSLASH then Escape(rest) else Took(1, [rest[0]]);
      if head.Invalid? then Invalid
      else
        var more := Unquoted(rest[head.len..]);
        if more.Invalid? then Invalid else Took(head.len + more.len, head.value + more.value)
  }

  /** A quoted target of url(...), closing parenthesis included. */
  function Quoted(rest: Text): (r: Read<Text>)
    requires rest != [] && QuoteUnit(rest[0])
    ensures r.Took? ==> 1 <= r.len <= |rest|
  {
    var s := String(rest);
    if s.Invalid? then Invalid
    else
      var k := Skip(rest[s.len..]);
      if k.Took? && s.len + k.len < |rest| && rest[s.len + k.len] == CLOSE
      then Took(s.len + k.len + 1, s.value) else Invalid
  }

  /** What follows "url(". */
  function Target(rest: Text): (r: Read<Text>)
    ensures r.Took? ==> 1 <= r.len <= |rest|
  {
    var n := Spaces(rest);
    var u := if n < |rest| && QuoteUnit(rest[n]) then Quoted(rest[n..]) else Unquoted(rest[n..]);
    if u.Invalid? then Invalid else Took(n + u.len, u.value)
  }

  // ---------------------------------------------------------------- what may follow without being noticed

  /** Two units that no reader tells apart when they come right after its token. */
  predicate UnitAlike(a: Unit, b: Unit) {
    a == b || (QuoteUnit(a) && b == QUOTE) || ((a == 117 || a == 85 || a == BACKSLASH) && b == 117)
  }

  /** A comma, a semicolon, an at sign or a brace: what no reader before it takes or looks for. */
  predicate Hard(c: Unit) { c == 44 || c == SEMICOLON || c == AT || c == 123 || c == 125 }

  /** After the end of the text nothing but such a unit can follow unnoticed. */
  predicate HeadAlike(a: Text, b: Text) {
    if a == [] then b == [] || Hard(b[0]) else b != [] && UnitAlike(a[0], b[0])
  }

  lemma Associates(a: Text, b: Text, c: Text)
    ensures a + (b + c) == a + b + c
  {
  }

  lemma {:induction false} HexRunLocal(x: Text, a: Text, b: Text, most: nat)
    requires HexRun(x + a, most) < |x| || (HexRun(x + a, most) == |x| && HeadAlike(a, b))
    ensures HexRun(x + b, most) == HexRun(x + a, most)
    decreases |x|
  {
    if x == [] {
      assert x + a == a && x + b == b;
    } else if most > 0 && Hex(x[0]) {
      assert (x + a)[1..] == x[1..] + a && (x + b)[1..] == x[1..] + b;
      HexRunLocal(x[1..], a, b, most - 1);
    }
  }

  lemma EscapeTailLocal(x: Text, a: Text, b: Text)
    requires EscapeTail(x + a) < |x| || (EscapeTail(x + a) == |x| && HeadAlike(a, b))
    ensures EscapeTail(x + b) == EscapeTail(x + a)
  {
    if x == [] {
      assert x + a == a && x + b == b;
    } else if |x| == 1 && a != [] && b != [] {
      assert (x + a)[1] == a[0] && (x + b)[1] == b[0];
    }
  }

  lemma EscapeLocal(x: Text, a: Text, b: Text)
    requires x != [] && x[0] == BACKSLASH && Escape(x + a).Took?
    requires Escape(x + a).len < |x| || (Escape(x + a).len == |x| && HeadAlike(a, b))
    ensures Escape(x + b) == Escape(x + a)
  {
    var ra, rb := x + a, x + b;
    assert |x| >= 2 && ra[1] == x[1] && rb[1] == x[1];
    if Hex(x[1]) {
      assert ra[1..] == x[1..] + a && rb[1..] == x[1..] + b;
      var n := HexRun(ra[1..], 6);
      HexRunLocal(x[1..], a, b, 6);
      assert ra[1 + n..] == x[1 + n..] + a && rb[1 + n..] == x[1 + n..] + b;
      EscapeTailLocal(x[1 + n..], a, b);
      assert ra[1..1 + n] == x[1..1 + n] == rb[1..1 + n];
    }
  }

  lemma {:induction false} WordLocal(x: Text, a: Text, b: Text)
    requires Word(x + a).Took?
    requires Word(x + a).len < |x| || (Word(x + a).len == |x| && HeadAlike(a, b))
    ensures Word(x + b) == Word(x + a)
    decreases |x|
  {
    hide Escape;
    if x == [] {
      assert x + a == a && x + b == b;
    } else if NameUnit(x[0]) {
      var ra, rb := x + a, x + b;
      var n := 1;
      if x[0] == BACKSLASH {
        n := Escape(ra).len;
        EscapeLocal(x, a, b);
      }
      assert ra[n..] == x[n..] + a && rb[n..] == x[n..] + b;
      WordLocal(x[n..], a, b);
    }
  }

  lemma StringPieceLocal(x: Text, a: Text, b: Text)
    requires x != [] && StringPiece(x + a).Took? && StringPiece(x + a).len < |x|
    ensures StringPiece(x + b) == StringPiece(x + a)
  {
    if x[0] == BACKSLASH && !Newline(x[1]) {
      EscapeLocal(x, a, b);
    }
  }

  lemma {:induction false} StringBodyLocal(x: Text, a: Text, b: Text, quote: Unit)
    requires StringBody(x + a, quote).Took? && StringBody(x + a, quote).len <= |x|
    ensures StringBody(x + b, quote) == StringBody(x + a, quote)
    decreases |x|
  {
    var ra, rb := x + a, x + b;
    if x[0] != quote {
      var n := StringPiece(ra).len;
      StringPieceLocal(x, a, b);
      assert ra[n..] == x[n..] + a && rb[n..] == x[n..] + b;
      StringBodyLocal(x[n..], a, b, quote);
    }
  }

  lemma StringLocal(x: Text, a: Text, b: Text)
    requires x != [] && QuoteUnit(x[0]) && String(x + a).Took? && String(x + a).len <= |x|
    ensures String(x + b) == String(x + a)
  {
    assert (x + a)[1..] == x[1..] + a && (x + b)[1..] == x[1..] + b;
    StringBodyLocal(x[1..], a, b, x[0]);
  }

  lemma {:induction false} CommentEndLocal(x: Text, a: Text, b: Text)
    requires CommentEnd(x + a).Took? && CommentEnd(x + a).len + 2 <= |x|
    ensures CommentEnd(x + b) == CommentEnd(x + a)
    decreases |x|
  {
    var ra, rb := x + a, x + b;
    if !(x[0] == STAR && x[1] == SLASH) {
      assert ra[1..] == x[1..] + a && rb[1..] == x[1..] + b;
      CommentEndLocal(x[1..], a, b);
    }
  }

  /** Nothing to skip here. */
  predicate Firm(z: Text) { z == [] || (!Whitespace(z[0]) && !CommentStart(z)) }

  lemma TookUnit(r: Read<()>)
    ensures r.Took? ==> r == Took(r.len, ())
  {
    if r.Took? {
      assert r.value == ();
    }
  }

  lemma BlankLocal(x: Text, a: Text, b: Text)
    requires x != [] && Blank(x + a).Took? && 0 < Blank(x + a).len <= |x|
    ensures Blank(x + b) == Blank(x + a)
  {
    if !Whitespace(x[0]) {
      assert |x| >= 4;
      assert (x + a)[2..] == x[2..] + a && (x + b)[2..] == x[2..] + b;
      CommentEndLocal(x[2..], a, b);
    }
  }

  lemma SkipOne(rest: Text)
    requires Skip(rest).Took? && Skip(rest).len > 0
    ensures Blank(rest).Took? && 0 < Blank(rest).len <= Skip(rest).len
    ensures Skip(rest[Blank(rest).len..]) == Took(Skip(rest).len - Blank(rest).len, ())
  {
  }

  lemma SkipMore(rest: Text, n: nat, k: nat)
    requires Blank(rest).Took? && Blank(rest).len == n && n > 0 && Skip(rest[n..]) == Took(k, ())
    ensures Skip(rest) == Took(n + k, ())
  {
  }

  lemma SkipFirm(rest: Text)
    ensures Firm(rest) <==> Skip(rest) == Took(0, ())
  {
  }

  lemma {:induction false} SkipLocal(lead: Text, z: Text, z': Text)
    requires Skip(lead + z) == Took(|lead|, ()) && Firm(z')
    ensures Skip(lead + z') == Took(|lead|, ())
    decreases |lead|
  {
    hide Skip, Blank;
    if lead == [] {
      assert lead + z' == z';
      SkipFirm(z');
    } else {
      SkipOne(lead + z);
      var n := Blank(lead + z).len;
      assert (lead + z)[n..] == lead[n..] + z;
      SkipLocal(lead[n..], z, z');
      BlankLocal(lead, z, z');
      assert (lead + z')[n..] == lead[n..] + z';
      SkipMore(lead + z', n, |lead| - n);
    }
  }

  /** Skipping stops at something that is not blank. */
  lemma {:induction false} SkipStops(rest: Text)
    requires Skip(rest).Took?
    ensures Firm(rest[Skip(rest).len..])
    decreases |rest|
  {
    var n := Blank(rest).len;
    if n > 0 {
      SkipStops(rest[n..]);
      assert rest[n..][Skip(rest[n..]).len..] == rest[Skip(rest).len..];
    } else {
      assert rest[0..] == rest;
    }
  }

  lemma {:induction false} SpacesLocal(x: Text, a: Text, b: Text)
    requires Spaces(x + a) < |x|
    ensures Spaces(x + b) == Spaces(x + a)
    decreases |x|
  {
    if Whitespace(x[0]) {
      assert (x + a)[1..] == x[1..] + a && (x + b)[1..] == x[1..] + b;
      SpacesLocal(x[1..], a, b);
    }
  }

  lemma {:induction false} UnquotedLocal(x: Text, a: Text, b: Text)
    requires Unquoted(x + a).Took? && Unquoted(x + a).len <= |x|
    ensures Unquoted(x + b) == Unquoted(x + a)
    decreases |x|
  {
    var ra, rb := x + a, x + b;
    if x[0] != CLOSE {
      if Whitespace(x[0]) {
        SpacesLocal(x, a, b);
      } else {
        var n := 1;
        if x[0] == BACKSLASH {
          n := Escape(ra).len;
          EscapeLocal(x, a, b);
        }
        assert ra[n..] == x[n..] + a && rb[n..] == x[n..] + b;
        UnquotedLocal(x[n..], a, b);
      }
    }
  }

  lemma QuotedLocal(x: Text, a: Text, b: Text)
    requires x != [] && QuoteUnit(x[0]) && Quoted(x + a).Took? && Quoted(x + a).len <= |x|
    ensures Quoted(x + b) == Quoted(x + a)
  {
    hide Skip, String;
    StringLocal(x, a, b);
    var m := String(x + a).len;
    var k := Skip((x + a)[m..]).len;
    TookUnit(Skip((x + a)[m..]));
    var lead, z, z' := x[m..m + k], x[m + k..] + a, x[m + k..] + b;
    assert x[m..] == lead + x[m + k..];
    assert (x + a)[m..] == x[m..] + a == lead + z;
    assert (x + b)[m..] == x[m..] + b == lead + z';
    assert z'[0] == CLOSE;
    SkipLocal(lead, z, z');
  }

  lemma TargetLocal(x: Text, a: Text, b: Text)
    requires Target(x + a).Took? && Target(x + a).len <= |x|
    ensures Target(x + b) == Target(x + a)
  {
    hide Quoted, Unquoted;
    var n := Spaces(x + a);
    SpacesLocal(x, a, b);
    assert (x + a)[n..] == x[n..] + a && (x + b)[n..] == x[n..] + b;
    if QuoteUnit(x[n]) {
      QuotedLocal(x[n..], a, b);
    } else {
      UnquotedLocal(x[n..], a, b);
    }
  }
}
