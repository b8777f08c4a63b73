/** What the readers of the scanner make of text as authors write it: strings, comments, targets and escapes. */
module CssReaders {
  import opened Collections
  import opened CssTokens
  import opened CssContexts

  // ---------------------------------------------------------------- comments

  predicate ClosesAt(t: Text, i: int) { 0 <= i && i + 1 < |t| && t[i] == STAR && t[i + 1] == SLASH }

  /** A comment ends at the first closing delimiter, and is refused if there is none. */
  lemma {:induction false} CommentIff(rest: Text)
    ensures CommentEnd(rest).Took? <==> exists i :: ClosesAt(rest, i)
    ensures CommentEnd(rest).Took? ==>
      ClosesAt(rest, CommentEnd(rest).len) && forall i :: ClosesAt(rest, i) ==> CommentEnd(rest).len <= i
    decreases |rest|
  {
    if |rest| >= 2 && !(rest[0] == STAR && rest[1] == SLASH) {
      CommentIff(rest[1..]);
      forall i | ClosesAt(rest, i) ensures i > 0 && ClosesAt(rest[1..], i - 1) { }
      if CommentEnd(rest[1..]).Took? { assert ClosesAt(rest, CommentEnd(rest[1..]).len + 1); }
    } else if |rest| >= 2 {
      assert ClosesAt(rest, 0);
    }
  }

  /** The body of a comment, and the comment. */
  predicate IsNote(c: Text) { forall i :: 0 <= i < |c| ==> !ClosesAt(c, i) }

  function Note(c: Text): Text { [SLASH, STAR] + (c + [STAR, SLASH]) }

  lemma NoteReads(c: Text, rest: Text)
    requires IsNote(c)
    ensures Blank(Note(c) + rest) == Took(|c| + 4, ()) && (Note(c) + rest)[|c| + 4..] == rest
  {
    var t := c + [STAR, SLASH] + rest;
    assert (Note(c) + rest)[2..] == t;
    CommentIff(t);
    assert ClosesAt(t, |c|);
    forall i | 0 <= i < |c| ensures !ClosesAt(t, i) {
      assert !ClosesAt(c, i) && t[i] == c[i] && t[i + 1] == if i + 1 < |c| then c[i + 1] else STAR;
    }
    hide CommentEnd, ClosesAt;
  }

  // ---------------------------------------------------------------- strings

  /** Units that a string between such quotes keeps as they are. */
  predicate Quiet(s: Text, quote: Unit) {
    forall i :: 0 <= i < |s| ==> s[i] != quote && s[i] != BACKSLASH && s[i] != 0 && !Newline(s[i])
  }

  /** A string is read up to its own quote. */
  lemma {:induction false} BodyReads(s: Text, quote: Unit, rest: Text)
    requires Quiet(s, quote) && QuoteUnit(quote)
    ensures StringBody(s + ([quote] + rest), quote) == Took(|s| + 1, s)
    decreases |s|
  {
    var t := s + ([quote] + rest);
    if s == [] {
      assert t == [quote] + rest;
    } else {
      assert t[1..] == s[1..] + ([quote] + rest) && t[0] == s[0];
      BodyReads(s[1..], quote, rest);
      assert StringPiece(t) == Took(1, [s[0]]);
      assert [s[0]] + s[1..] == s;
    }
  }

  /** And is refused if a line ends before it, or the sheet does. */
  lemma {:induction false} BodyBroken(s: Text, quote: Unit, rest: Text)
    requires Quiet(s, quote) && QuoteUnit(quote) && (rest == [] || Newline(rest[0]))
    ensures StringBody(s + rest, quote).Invalid?
    decreases |s|
  {
    var t := s + rest;
    if s == [] {
      assert t == rest;
    } else {
      assert t[1..] == s[1..] + rest && t[0] == s[0];
      BodyBroken(s[1..], quote, rest);
      assert StringPiece(t) == Took(1, [s[0]]);
    }
  }

  /** A line that goes on behind a backslash leaves nothing in the string, however its end is written. */
  lemma ContinuationReads(end: Text, quote: Unit, rest: Text)
    requires end == [10] || end == [12] || end == [13, 10] || (end == [13] && (rest == [] || rest[0] != 10))
    requires QuoteUnit(quote) && StringBody(rest, quote).Took?
    ensures StringBody([BACKSLASH] + end + rest, quote)
      == Took(1 + |end| + StringBody(rest, quote).len, StringBody(rest, quote).value)
  {
    var t := [BACKSLASH] + end + rest;
    assert t[1 + |end|..] == rest && t[0] == BACKSLASH && t[1] == end[0];
    assert |end| == 1 && rest != [] ==> t[2] == rest[0];
    assert |end| == 2 ==> t[2] == end[1];
    ContinuationPiece(t, end, rest);
    BodyOn(t, quote, 1 + |end|, []);
    assert [] + StringBody(rest, quote).value == StringBody(rest, quote).value;
  }

  lemma ContinuationPiece(t: Text, end: Text, rest: Text)
    requires end == [10] || end == [12] || end == [13, 10] || (end == [13] && (rest == [] || rest[0] != 10))
    requires |t| == 1 + |end| + |rest| && t[0] == BACKSLASH && t[1] == end[0]
    requires (|end| == 2 ==> t[2] == end[1]) && (|end| == 1 && rest != [] ==> t[2] == rest[0])
    ensures StringPiece(t) == Took(1 + |end|, [])
  {
  }

  lemma BodyOn(t: Text, quote: Unit, n: nat, value: Text)
    requires t != [] && !Newline(t[0]) && t[0] != quote && StringPiece(t) == Took(n, value)
    requires n <= |t| && StringBody(t[n..], quote).Took?
    ensures StringBody(t, quote) == Took(n + StringBody(t[n..], quote).len, value + StringBody(t[n..], quote).value)
  {
    hide StringPiece;
  }

  function Str(quote: Unit, s: Text): Text { [quote] + (s + [quote]) }

  lemma StrReads(quote: Unit, s: Text, rest: Text)
    requires Quiet(s, quote) && QuoteUnit(quote)
    ensures String(Str(quote, s) + rest) == Took(|s| + 2, s)
  {
    assert (Str(quote, s) + rest)[1..] == s + ([quote] + rest);
    BodyReads(s, quote, rest);
    hide StringBody;
  }

  // ---------------------------------------------------------------- targets

  /** Units that a target without quotes keeps as they are. */
  predicate Bare(u: Text) {
    forall i :: 0 <= i < |u| ==>
      u[i] >= 32 && !Whitespace(u[i]) && !QuoteUnit(u[i]) && u[i] != OPEN && u[i] != CLOSE && u[i] != BACKSLASH
  }

  lemma {:induction false} SpacesAll(w: Text, rest: Text)
    requires Spacing(w) && rest != [] && !Whitespace(rest[0])
    ensures Spaces(w + rest) == |w|
    decreases |w|
  {
    if w == [] {
      assert w + rest == rest;
    } else {
      SpacesAll(w[1..], rest);
      assert (w + rest)[1..] == w[1..] + rest;
    }
  }

  lemma {:induction false} BareReads(u: Text, w: Text, rest: Text)
    requires Bare(u) && Spacing(w)
    ensures Unquoted(u + (w + ([CLOSE] + rest))) == Took(|u| + |w| + 1, u)
    decreases |u|
  {
    var t := u + (w + ([CLOSE] + rest));
    if u == [] {
      assert t == w + ([CLOSE] + rest);
      SpacesAll(w, [CLOSE] + rest);
    } else {
      assert t[1..] == u[1..] + (w + ([CLOSE] + rest)) && t[0] == u[0];
      BareReads(u[1..], w, rest);
      assert [u[0]] + u[1..] == u;
    }
  }

  function BareUrl(h: Text, before: Text, u: Text, after: Text): Text {
    h + ([OPEN] + (before + (u + (after + [CLOSE]))))
  }

  function QuotedUrl(h: Text, before: Text, quote: Unit, s: Text, after: Text): Text {
    h + ([OPEN] + (before + (Str(quote, s) + (after + [CLOSE]))))
  }

  predicate UrlName(h: Text) { |h| == 3 && Lower(h) == [117, 114, 108] && BACKSLASH !in h }

  /** A url() is read with its target, blanks within left out, quoted or not. */
  lemma BareUrlIs(h: Text, before: Text, u: Text, after: Text)
    requires UrlName(h) && Spacing(before) && Bare(u) && Spacing(after) && (u == [] ==> after == [])
    ensures IsUrl(BareUrl(h, before, u, after), u)
  {
    var x := BareUrl(h, before, u, after);
    var back := u + (after + [CLOSE]);
    assert x[..3] == h && x[3] == OPEN && x[4..] == before + back;
    assert back[0] == if u == [] then CLOSE else u[0];
    SpacesAll(before, back);
    assert (before + back)[|before|..] == back;
    assert after + [CLOSE] == after + ([CLOSE] + []);
    BareReads(u, after, []);
    hide Unquoted, Spaces, Lower;
  }

  lemma QuotedUrlIs(h: Text, before: Text, quote: Unit, s: Text, after: Text)
    requires UrlName(h) && Spacing(before) && QuoteUnit(quote) && Quiet(s, quote) && Spacing(after)
    ensures IsUrl(QuotedUrl(h, before, quote, s, after), s)
  {
    var x := QuotedUrl(h, before, quote, s, after);
    var back := Str(quote, s) + (after + [CLOSE]);
    assert x[..3] == h && x[3] == OPEN && x[4..] == before + back && back[0] == quote;
    SpacesAll(before, back);
    assert (before + back)[|before|..] == back;
    StrReads(quote, s, after + [CLOSE]);
    assert back[|s| + 2..] == after + [CLOSE];
    SpacingSkips(after, [CLOSE]);
    assert back[|s| + 2 + |after|] == CLOSE;
    hide Spaces, Lower, String, Skip;
  }

  // ---------------------------------------------------------------- escapes

  function HexDigit(v: nat): (c: Unit)
    requires v < 16
    ensures Hex(c) && HexValue(c) == v
  {
    if v < 10 then 48 + v else 87 + v
  }

  /** A number in n hexadecimal digits. */
  function HexDigits(v: nat, n: nat): (t: Text)
    ensures |t| == n && forall i :: 0 <= i < n ==> Hex(t[i])
  {
    if n == 0 then [] else HexDigits(v / 16, n - 1) + [HexDigit(v % 16)]
  }

  lemma {:induction false} HexNumberOn(front: Text, d: Unit, value: nat)
    requires (forall i :: 0 <= i < |front| ==> Hex(front[i])) && Hex(d)
    ensures HexNumber(front + [d], value) == HexNumber(front, value) * 16 + HexValue(d)
    decreases |front|
  {
    if front == [] {
      assert front + [d] == [d] && [d][1..] == [];
    } else {
      assert (front + [d])[1..] == front[1..] + [d] && (front + [d])[0] == front[0];
      HexNumberOn(front[1..], d, value * 16 + HexValue(front[0]));
    }
  }

  function Power16(n: nat): nat { if n == 0 then 1 else 16 * Power16(n - 1) }

  lemma {:induction false} HexReads(v: nat, n: nat)
    requires v < Power16(n)
    ensures HexNumber(HexDigits(v, n), 0) == v
    decreases n
  {
    if n > 0 {
      HexReads(v / 16, n - 1);
      HexNumberOn(HexDigits(v / 16, n - 1), HexDigit(v % 16), 0);
    }
  }

  lemma {:induction false} RunOfDigits(d: Text, rest: Text, most: nat)
    requires (forall i :: 0 <= i < |d| ==> Hex(d[i])) && |d| == most
    ensures HexRun(d + rest, most) == most
    decreases most
  {
    if d != [] {
      assert (d + rest)[1..] == d[1..] + rest && (d + rest)[0] == d[0];
      RunOfDigits(d[1..], rest, most - 1);
    }
  }

  /** What UTF-16 text of one code point says (section 3.9 of the Unicode Standard). */
  function CodePoint(t: Text): Option<nat> {
    if |t| == 1 && !(0xD800 <= t[0] <= 0xDFFF) then Some(t[0])
    else if |t| == 2 && 0xD800 <= t[0] <= 0xDBFF && 0xDC00 <= t[1] <= 0xDFFF
    then Some(0x10000 + (t[0] as int - 0xD800) * 0x400 + (t[1] as int - 0xDC00))
    else None
  }

  predicate Scalar(v: nat) { v <= 0x10FFFF && !(0xD800 <= v <= 0xDFFF) }

  lemma PointReads(v: nat)
    ensures CodePoint(FromCodePoint(v)) == Some(if v != 0 && Scalar(v) then v else REPLACEMENT)
  {
  }

  /** A code point written as a backslash and six hexadecimal digits is read back; the zero, the surrogates and what is
      no code point are read as the replacement character. One blank behind the digits belongs to the escape. */
  lemma EscapeReads(v: nat, rest: Text)
    requires v < 0x1000000
    ensures var r := Escape([BACKSLASH] + HexDigits(v, 6) + rest);
      r.Took? && CodePoint(r.value) == Some(if v != 0 && Scalar(v) then v else REPLACEMENT)
      && r.len == 7 + (if rest == [] || !Whitespace(rest[0]) then 0 else if rest[0] == 13 && |rest| > 1 && rest[1] == 10 then 2 else 1)
  {
    var d := HexDigits(v, 6);
    var t := [BACKSLASH] + d + rest;
    assert t[1..] == d + rest && t[1] == d[0] && t[1..7] == d && t[7..] == rest;
    RunOfDigits(d, rest, 6);
    assert Power16(6) == 0x1000000 by { assert Power16(3) == 0x1000; }
    HexReads(v, 6);
    PointReads(v);
    hide HexRun, HexNumber, HexDigits, FromCodePoint, CodePoint;
  }

  /** Any other escaped unit stands for itself; a backslash at the end of a line or of the sheet is refused. */
  lemma EscapeOther(rest: Text)
    requires rest == [] || !Hex(rest[0])
    ensures Escape([BACKSLASH] + rest)
      == if rest == [] || Newline(rest[0]) then Invalid else Took(2, [rest[0]])
  {
    assert rest != [] ==> ([BACKSLASH] + rest)[1] == rest[0];
  }
}
