/** Rewriting a style sheet keeps its tokens: the quoting of runtime/native-css-dependencies.ts and the edits of
    runtime/frontend-rewriter.ts, seen on the pieces of a sheet. */
module CssRewriting {
  import opened Collections
  import opened CssTokens
  import opened CssScanner

  const SPACE: Unit := 32

  function HexDigit(n: nat): Unit
    requires n < 16
  {
    if n < 10 then 48 + n else 87 + n
  }

  function HexText(c: Unit): Text
    requires c < 128
  {
    if c < 16 then [HexDigit(c)] else [HexDigit(c / 16), HexDigit(c % 16)]
  }

  function QuotedUnit(c: Unit): Text {
    if c == QUOTE || c == BACKSLASH then [BACKSLASH, c]
    else if c < 32 || c == 127 then [BACKSLASH] + HexText(c) + [SPACE]
    else [c]
  }

  function QuotedBody(v: Text): Text {
    if v == [] then [] else QuotedUnit(v[0]) + QuotedBody(v[1..])
  }

  /** quoteNativeCSSURL. */
  function Quote(v: Text): Text {
    [QUOTE] + QuotedBody(v) + [QUOTE]
  }

  /** What CSS makes of a NUL. */
  function Mended(v: Text): Text {
    if v == [] then [] else [if v[0] == 0 then REPLACEMENT else v[0]] + Mended(v[1..])
  }

  lemma {:induction false} MendedSame(v: Text)
    ensures Mended(v) == v <==> 0 !in v
  {
    if v != [] {
      MendedSame(v[1..]);
      assert v == [v[0]] + v[1..];
      if Mended(v) == v {
        assert Mended(v)[0] == v[0] && Mended(v)[1..] == v[1..];
      }
    }
  }

  lemma HexTextReads(c: Unit, t: Text)
    requires c < 128
    ensures HexRun(HexText(c) + [SPACE] + t, 6) == |HexText(c)|
    ensures forall i :: 0 <= i < |HexText(c)| ==> Hex(HexText(c)[i])
    ensures HexNumber(HexText(c), 0) == c
  {
    var h := HexText(c);
    var r := h + [SPACE] + t;
    if c < 16 {
      assert r[1..][0] == SPACE;
      assert h[1..] == [];
    } else {
      assert r[1..] == [h[1]] + ([SPACE] + t) && r[1..][1..] == [SPACE] + t;
      assert HexRun(r[1..][1..], 4) == 0;
      assert HexRun(r[1..], 5) == 1;
      assert h[1..] == [h[1]] && h[1..][1..] == [];
      assert HexValue(h[0]) == c / 16 && HexValue(h[1]) == c % 16;
      assert HexNumber(h[1..][1..], c) == c;
      assert HexNumber(h[1..], c / 16) == c;
    }
  }

  lemma EscapedControl(c: Unit, t: Text)
    requires c < 32 || c == 127
    ensures Escape(QuotedUnit(c) + t) == Took(|QuotedUnit(c)|, [if c == 0 then REPLACEMENT else c])
  {
    var h := HexText(c);
    var r := QuotedUnit(c) + t;
    HexTextReads(c, t);
    assert |h| >= 1 && r == [BACKSLASH] + h + [SPACE] + t;
    hide HexRun, HexNumber, HexText, QuotedUnit;
    EscapeSlices(h, t);
  }

  lemma EscapeSlices(h: Text, t: Text)
    ensures var r := [BACKSLASH] + h + [SPACE] + t;
      r[1..] == h + [SPACE] + t && r[1..1 + |h|] == h && r[1 + |h|..] == [SPACE] + t
  {
  }

  lemma QuotedUnitReads(c: Unit, t: Text)
    ensures StringPiece(QuotedUnit(c) + t) == Took(|QuotedUnit(c)|, [if c == 0 then REPLACEMENT else c])
    ensures var f := QuotedUnit(c)[0]; f != QUOTE && !Newline(f)
  {
    if c != QUOTE && c != BACKSLASH && (c < 32 || c == 127) {
      EscapedControl(c, t);
    }
  }

  lemma {:induction false} QuotedBodyReads(v: Text, t: Text)
    ensures StringBody(QuotedBody(v) + [QUOTE] + t, QUOTE) == Took(|QuotedBody(v)| + 1, Mended(v))
  {
    var r := QuotedBody(v) + [QUOTE] + t;
    if v != [] {
      var u, more := QuotedUnit(v[0]), QuotedBody(v[1..]) + [QUOTE] + t;
      assert r == u + more;
      QuotedUnitReads(v[0], more);
      QuotedBodyReads(v[1..], t);
      assert r[|u|..] == more;
    }
  }

  lemma QuoteReadsMended(v: Text, t: Text)
    ensures String(Quote(v) + t) == Took(|Quote(v)|, Mended(v))
  {
    QuotedBodyReads(v, t);
    assert (Quote(v) + t)[1..] == QuotedBody(v) + [QUOTE] + t;
  }

  /** The scanner's string reader undoes the quoting of exactly the URLs without NUL. */
  lemma QuoteRoundTrip(v: Text, t: Text)
    ensures String(Quote(v) + t) == Took(|Quote(v)|, v) <==> 0 !in v
  {
    QuoteReadsMended(v, t);
    MendedSame(v);
  }

  // ---------------------------------------------------------------- edits

  /** The text that replaces a token. */
  function Wrapped(token: Text, url: Text): Text
    requires token != []
  {
    if QuoteUnit(token[0]) then Quote(url) else URL + [OPEN] + Quote(url) + [CLOSE]
  }

  function Edited(p: Piece, u: Option<Text>): Piece {
    if p.found.None? || u.None? || p.token == [] then p
    else Piece(p.lead, Wrapped(p.token, u.value), Some(Found(Mended(u.value), p.found.value.kind)), p.stop)
  }

  function EditedAll(ps: seq<Piece>, plan: seq<Option<Text>>): (r: seq<Piece>)
    requires |plan| == |ps|
    ensures |r| == |ps|
  {
    if ps == [] then [] else [Edited(ps[0], plan[0])] + EditedAll(ps[1..], plan[1..])
  }

  /** Two texts that a token before them cannot tell apart. */
  predicate Alike(a: Text, b: Text) {
    Skip(a).Took? && Skip(b) == Skip(a) && a[..Skip(a).len] == b[..Skip(a).len]
    && HeadAlike(a[Skip(a).len..], b[Skip(a).len..])
  }

  lemma AlikeHead(a: Text, b: Text)
    requires Alike(a, b)
    ensures HeadAlike(a, b)
  {
    var k := Skip(a).len;
    if k == 0 {
      assert a[0..] == a && b[0..] == b;
    } else {
      assert a[0] == a[..k][0] == b[..k][0] == b[0];
    }
  }

  /** Alike texts answer the scanner's look for a colon alike. */
  lemma AlikeAfterName(value: Text, a: Text, b: Text, st: State)
    requires Alike(a, b) && AfterName(value, a, st).Tok? && AfterName(value, a, st).len == 0
    ensures AfterName(value, b, st) == AfterName(value, a, st)
  {
    AlikeHead(a, b);
    var k := Skip(a).len;
    if k < |a| {
      assert a[k] == a[k..][0] && b[k] == b[k..][0];
    } else {
      assert a[k..] == [];
    }
  }

  /** AfterName with something of x after the name. */
  lemma AfterNameLocal(value: Text, x: Text, a: Text, b: Text, st: State)
    requires x != [] && AfterName(value, x + a, st).Tok? && AfterName(value, x + a, st).len == |x|
    ensures AfterName(value, x + b, st) == AfterName(value, x + a, st)
  {
    assert (x + a)[0] == OPEN;
    if value == URL {
      assert (x + a)[1..] == x[1..] + a && (x + b)[1..] == x[1..] + b;
      TargetLocal(x[1..], a, b);
    }
  }

  lemma NameTokenAfter(rest: Text, st: State, value: Text, after: Text)
    requires Word(rest).Took? && value == Lower(Word(rest).value) && after == rest[Word(rest).len..]
    ensures NameToken(rest, st).Tok? <==> AfterName(value, after, st).Tok?
    ensures NameToken(rest, st).Tok? ==>
      NameToken(rest, st) == AfterName(value, after, st).(len := Word(rest).len + AfterName(value, after, st).len)
  {
  }

  lemma NameWord(x: Text, a: Text, st: State)
    requires NameToken(x + a, st).Tok? && NameToken(x + a, st).len == |x|
    ensures Word(x + a).Took? && Word(x + a).len <= |x|
    ensures var n := Word(x + a).len;
      var t := AfterName(Lower(Word(x + a).value), x[n..] + a, st);
      t.Tok? && t.len == |x| - n && NameToken(x + a, st) == t.(len := |x|)
  {
    var n := Word(x + a).len;
    assert n <= |x| ==> (x + a)[n..] == x[n..] + a;
  }

  lemma WordAlike(x: Text, a: Text, b: Text)
    requires Alike(a, b) && Word(x + a).Took? && Word(x + a).len <= |x|
    ensures Word(x + b) == Word(x + a)
  {
    AlikeHead(a, b);
    WordLocal(x, a, b);
  }

  lemma NameTokenFrom(x: Text, b: Text, st: State, w: Read<Text>, t: Token)
    requires w.Took? && w.len <= |x| && w == Word(x + b)
    requires t.Tok? && t == AfterName(Lower(w.value), x[w.len..] + b, st)
    ensures NameToken(x + b, st) == t.(len := w.len + t.len)
  {
    assert (x + b)[w.len..] == x[w.len..] + b;
  }

  lemma NameTokenLocal(x: Text, a: Text, b: Text, st: State)
    requires x != [] && Alike(a, b) && NameToken(x + a, st).Tok? && NameToken(x + a, st).len == |x|
    ensures NameToken(x + b, st) == NameToken(x + a, st)
  {
    NameWord(x, a, st);
    WordAlike(x, a, b);
    var w := Word(x + a);
    NameTokenSame(x, a, b, st, w);
  }

  lemma NameTokenSame(x: Text, a: Text, b: Text, st: State, w: Read<Text>)
    requires Alike(a, b) && w.Took? && w.len <= |x| && w == Word(x + a) && w == Word(x + b)
    requires var t := AfterName(Lower(w.value), x[w.len..] + a, st); t.Tok? && t.len == |x| - w.len
    ensures NameToken(x + b, st) == NameToken(x + a, st)
  {
    AfterNameSame(Lower(w.value), x[w.len..], a, b, st);
    var t := AfterName(Lower(w.value), x[w.len..] + a, st);
    NameTokenFrom(x, a, st, w, t);
    NameTokenFrom(x, b, st, w, t);
  }

  lemma AfterNameSame(value: Text, x: Text, a: Text, b: Text, st: State)
    requires Alike(a, b) && AfterName(value, x + a, st).Tok? && AfterName(value, x + a, st).len == |x|
    ensures AfterName(value, x + b, st) == AfterName(value, x + a, st)
  {
    if x == [] {
      assert x + a == a && x + b == b;
      AlikeAfterName(value, a, b, st);
    } else {
      AfterNameLocal(value, x, a, b, st);
    }
  }

  lemma StringTokenLocal(x: Text, a: Text, b: Text, st: State)
    requires x != [] && QuoteUnit(x[0]) && StringToken(x + a, st).Tok? && StringToken(x + a, st).len == |x|
    ensures StringToken(x + b, st) == StringToken(x + a, st)
  {
    StringLocal(x, a, b);
  }

  lemma AtTokenLocal(x: Text, a: Text, b: Text, st: State)
    requires x != [] && HeadAlike(a, b) && AtToken(x + a, st).Tok? && AtToken(x + a, st).len == |x|
    ensures AtToken(x + b, st) == AtToken(x + a, st)
  {
    assert (x + a)[1..] == x[1..] + a && (x + b)[1..] == x[1..] + b;
    WordLocal(x[1..], a, b);
  }

  /** A token is read the same before alike texts. */
  lemma TokenLocal(x: Text, a: Text, b: Text, st: State)
    requires x != [] && Alike(a, b) && TokenAt(x + a, st).Tok? && TokenAt(x + a, st).len == |x|
    ensures TokenAt(x + b, st) == TokenAt(x + a, st)
  {
    AlikeHead(a, b);
    if QuoteUnit(x[0]) {
      StringTokenLocal(x, a, b, st);
    } else if x[0] == AT {
      AtTokenLocal(x, a, b, st);
    } else if NameUnit(x[0]) {
      NameTokenLocal(x, a, b, st);
    }
  }

  // ---------------------------------------------------------------- replaced tokens

  lemma WordMore(c: Unit, t: Text, v: Text)
    requires NameUnit(c) && c != BACKSLASH && Word(t) == Took(|v|, v)
    ensures Word([c] + t) == Took(|v| + 1, [c] + v)
  {
    assert ([c] + t)[1..] == t;
  }

  lemma UrlWord(t: Text)
    ensures Word(URL + [OPEN] + t) == Took(3, URL)
  {
    var r := [OPEN] + t;
    assert Word(r) == Took(0, []);
    hide Word;
    UrlSpelled(r);
    WordMore(108, r, []);
    WordMore(114, [108] + r, [108]);
    WordMore(117, [114] + ([108] + r), [114, 108]);
    Associates(URL, [OPEN], t);
  }

  lemma UrlSpelled(r: Text)
    ensures [117] + ([114] + ([108] + r)) == URL + r
    ensures [108] + [] == [108] && [114] + [108] == [114, 108] && [117] + [114, 108] == URL
  {
    Associates([114], [108], r);
    Associates([117], [114] + [108], r);
    assert [117] + ([114] + [108]) == URL;
  }

  lemma QuotedCloses(rest: Text, n: nat, v: Text)
    requires rest != [] && QuoteUnit(rest[0]) && String(rest) == Took(n, v)
    requires n < |rest| && rest[n] == CLOSE
    ensures Target(rest) == Took(n + 1, v)
  {
    SkipFirm(rest[n..]);
    assert Quoted(rest) == Took(n + 1, v);
    assert Spaces(rest) == 0 && rest[0..] == rest;
  }

  lemma QuotedTargetReads(u: Text, t: Text)
    ensures Target(Quote(u) + [CLOSE] + t) == Took(|Quote(u)| + 1, Mended(u))
  {
    var r := Quote(u) + ([CLOSE] + t);
    assert r == Quote(u) + [CLOSE] + t;
    QuoteReadsMended(u, [CLOSE] + t);
    QuotedCloses(r, |Quote(u)|, Mended(u));
  }

  lemma UrlAfterName(u: Text, t: Text, st: State)
    ensures var (found, next) := Taken(st, Mended(u));
      AfterName(URL, [OPEN] + (Quote(u) + [CLOSE] + t), st) == Tok(|Quote(u)| + 2, next, found, false)
  {
    QuotedTargetReads(u, t);
    assert ([OPEN] + (Quote(u) + [CLOSE] + t))[1..] == Quote(u) + [CLOSE] + t;
  }

  lemma WrappedUrlReads(u: Text, t: Text, st: State)
    ensures var w := URL + [OPEN] + Quote(u) + [CLOSE];
      var (found, next) := Taken(st, Mended(u));
      TokenAt(w + t, st) == Tok(|w|, next, found, false)
  {
    var after := [OPEN] + (Quote(u) + [CLOSE] + t);
    UrlWord(Quote(u) + [CLOSE] + t);
    assert Lower(URL) == URL;
    UrlAfterName(u, t, st);
    WrappedText(Quote(u), t);
    var whole := URL + [OPEN] + Quote(u) + [CLOSE] + t;
    hide Word, Quote, AfterName, Lower, Taken;
    NameTokenAfter(whole, st, URL, after);
  }

  lemma WrappedText(quoted: Text, t: Text)
    ensures URL + [OPEN] + quoted + [CLOSE] + t == URL + [OPEN] + (quoted + [CLOSE] + t)
    ensures (URL + [OPEN] + quoted + [CLOSE] + t)[3..] == [OPEN] + (quoted + [CLOSE] + t)
  {
  }

  /** The token written in place of a dependency is that dependency with the new URL, whatever follows it. */
  lemma WrappedReads(x: Text, a: Text, b: Text, st: State, u: Text)
    requires x != []
    requires TokenAt(x + a, st).Tok? && TokenAt(x + a, st).len == |x| && TokenAt(x + a, st).found.Some?
    ensures var t := TokenAt(x + a, st);
      TokenAt(Wrapped(x, u) + b, st)
      == Tok(|Wrapped(x, u)|, t.next, Some(Found(Mended(u), t.found.value.kind)), t.stop)
  {
    if QuoteUnit(x[0]) {
      QuoteReadsMended(u, b);
    } else {
      WrappedUrlReads(u, b, st);
      FoundIsUrl(x + a, st);
    }
  }

  lemma FoundIsUrl(rest: Text, st: State)
    requires rest != [] && !QuoteUnit(rest[0]) && TokenAt(rest, st).Tok? && TokenAt(rest, st).found.Some?
    ensures NameUnit(rest[0]) && !TokenAt(rest, st).stop
    ensures exists url :: TokenAt(rest, st).found == Taken(st, url).0 && TokenAt(rest, st).next == Taken(st, url).1
  {
    var w := Word(rest);
    var after := rest[w.len..];
    var url := Target(after[1..]).value;
    assert TokenAt(rest, st).found == Taken(st, url).0;
  }

  // ---------------------------------------------------------------- whole sheets

  lemma HeadWrapped(x: Text, a: Text, b: Text, st: State, u: Text)
    requires x != [] && TokenAt(x + a, st).Tok? && TokenAt(x + a, st).found.Some?
    ensures HeadAlike(x + a, Wrapped(x, u) + b)
    ensures Firm(Wrapped(x, u) + b)
  {
    if !QuoteUnit(x[0]) {
      FoundIsUrl(x + a, st);
      FoundHead(x + a, st);
    }
  }

  lemma FoundHead(rest: Text, st: State)
    requires rest != [] && NameUnit(rest[0]) && NameToken(rest, st).Tok? && NameToken(rest, st).found.Some?
    ensures rest[0] == 117 || rest[0] == 85 || rest[0] == BACKSLASH
  {
    var w := Word(rest);
    assert Lower(w.value) == URL;
    if rest[0] != BACKSLASH {
      assert w.value[0] == rest[0];
      assert Lower(w.value)[0] == LowerUnit(rest[0]);
    }
  }

  lemma FirmKept(x: Text, a: Text, b: Text)
    requires x != [] && Firm(x + a) && HeadAlike(a, b)
    ensures Firm(x + b)
  {
  }

  /** Blank text, then a token replaced by one with an alike head: alike texts. */
  lemma LeadAlike(lead: Text, z: Text, z': Text)
    requires Skip(lead + z) == Took(|lead|, ()) && Firm(z') && HeadAlike(z, z')
    ensures Alike(lead + z, lead + z') && Skip(lead + z') == Took(|lead|, ())
  {
    SkipLocal(lead, z, z');
    assert (lead + z)[..|lead|] == lead == (lead + z')[..|lead|];
    assert (lead + z)[|lead|..] == z && (lead + z')[|lead|..] == z';
  }

  /** One piece before texts that are alike: the same piece edited, and again texts that are alike. */
  lemma PieceRewritten(lead: Text, x: Text, a: Text, b: Text, st: State, u: Option<Text>)
    requires x != [] && Skip(lead + (x + a)) == Took(|lead|, ()) && Firm(x + a)
    requires Alike(a, b) && TokenAt(x + a, st).Tok? && TokenAt(x + a, st).len == |x|
    ensures var t := TokenAt(x + a, st);
      var p := Edited(Piece(lead, x, t.found, t.stop), u);
      p.lead == lead && (p.found.Some? <==> t.found.Some?) && p.token != [] && TokenAt(p.token + b, st) == Tok(|p.token|, t.next, p.found, t.stop)
      && Skip(lead + (p.token + b)) == Took(|lead|, ()) && Alike(lead + (x + a), lead + (p.token + b))
  {
    hide TokenAt, Alike, Skip, Firm, Wrapped;
    var t := TokenAt(x + a, st);
    if t.found.Some? && u.Some? {
      WrappedReads(x, a, b, st, u.value);
      HeadWrapped(x, a, b, st, u.value);
      WrappedSome(x, u.value);
      LeadAlike(lead, x + a, Wrapped(x, u.value) + b);
    } else {
      TokenLocal(x, a, b, st);
      AlikeHead(a, b);
      FirmKept(x, a, b);
      LeadAlike(lead, x + a, x + b);
    }
  }

  lemma WrappedSome(token: Text, url: Text)
    requires token != []
    ensures Wrapped(token, url) != []
  {
  }

  lemma EditedAllCons(p: Piece, ps: seq<Piece>, plan: seq<Option<Text>>)
    requires |plan| == |ps| + 1
    ensures EditedAll([p] + ps, plan) == [Edited(p, plan[0])] + EditedAll(ps, plan[1..])
  {
    assert ([p] + ps)[1..] == ps;
  }

  lemma RewrittenEnd(rest: Text, st: State, room: nat, plan: seq<Option<Text>>)
    requires Tokenize(rest, st, room).Pieces? && Skip(rest) == Took(|rest|, ())
    requires |plan| == |Tokenize(rest, st, room).pieces|
    ensures EditedAll(Tokenize(rest, st, room).pieces, plan) == Tokenize(rest, st, room).pieces
    ensures Join(Tokenize(rest, st, room).pieces) == rest
    ensures Alike(rest, rest)
  {
    TokenizeEnd(rest, st, room);
    assert EditedAll([], plan[1..]) == [];
    TokenizeCovers(rest, st, room);
  }

  /** One piece of a sheet and the edited rest of it. */
  lemma RewrittenPiece(lead: Text, x: Text, a: Text, st: State, room: nat, t: Token,
                       qs: seq<Piece>, u: Option<Text>, q: Piece)
    requires x != [] && t.Tok? && t == TokenAt(x + a, st) && t.len == |x| && (t.found.Some? ==> room > 0)
    requires Skip(lead + (x + a)) == Took(|lead|, ()) && Firm(x + a)
    requires q == Edited(Piece(lead, x, t.found, t.stop), u)
    requires Tokenize(Join(qs), t.next, Room(t, room)) == Pieces(qs) && Alike(a, Join(qs))
    ensures Tokenize(q.lead + q.token + Join(qs), st, room) == Pieces([q] + qs)
    ensures Alike(lead + (x + a), q.lead + q.token + Join(qs))
  {
    PieceRewritten(lead, x, a, Join(qs), st, u);
    assert lead + (q.token + Join(qs)) == q.lead + q.token + Join(qs);
    RewrittenStep(q, qs, Join(qs), st, room, t.next);
  }

  lemma RewrittenStep(q: Piece, qs: seq<Piece>, b: Text, st: State, room: nat, next: State)
    requires q.token != [] && b == Join(qs)
    requires TokenAt(q.token + b, st) == Tok(|q.token|, next, q.found, q.stop)
    requires q.found.Some? ==> room > 0
    requires Skip(q.lead + (q.token + b)) == Took(|q.lead|, ())
    requires Tokenize(b, next, Room(Tok(|q.token|, next, q.found, q.stop), room)) == Pieces(qs)
    ensures Tokenize(q.lead + q.token + b, st, room) == Pieces([q] + qs)
  {
    var r := q.lead + (q.token + b);
    assert r == q.lead + q.token + b;
    assert r[|q.lead|..] == q.token + b && r[..|q.lead|] == q.lead;
    assert (q.token + b)[|q.token|..] == b && (q.token + b)[..|q.token|] == q.token;
    TokenizeMore(r, st, room, |q.lead|, TokenAt(q.token + b, st));
  }

  lemma RewrittenMore(lead: Text, x: Text, a: Text, st: State, room: nat, t: Token,
                      ps: seq<Piece>, plan: seq<Option<Text>>)
    requires x != [] && t.Tok? && t == TokenAt(x + a, st) && t.len == |x| && (t.found.Some? ==> room > 0)
    requires Skip(lead + (x + a)) == Took(|lead|, ()) && Firm(x + a)
    requires |plan| == |ps| + 1
    requires var qs := EditedAll(ps, plan[1..]);
      Tokenize(Join(qs), t.next, Room(t, room)) == Pieces(qs) && Alike(a, Join(qs))
    ensures var qs := EditedAll([Piece(lead, x, t.found, t.stop)] + ps, plan);
      Tokenize(Join(qs), st, room) == Pieces(qs) && Alike(lead + (x + a), Join(qs))
  {
    var p := Piece(lead, x, t.found, t.stop);
    var q, qs := Edited(p, plan[0]), EditedAll(ps, plan[1..]);
    RewrittenPiece(lead, x, a, st, room, t, qs, plan[0], q);
    EditedAllCons(p, ps, plan);
    JoinCons(q, qs);
  }

  /** Every sheet that scans still scans after any replacement of its dependencies, into the edited pieces. */
  lemma {:induction false} RewrittenTokens(rest: Text, st: State, room: nat, plan: seq<Option<Text>>)
    requires Tokenize(rest, st, room).Pieces? && |plan| == |Tokenize(rest, st, room).pieces|
    ensures var qs := EditedAll(Tokenize(rest, st, room).pieces, plan);
      Tokenize(Join(qs), st, room) == Pieces(qs) && Alike(rest, Join(qs))
    decreases |rest|
  {
    if Skip(rest).len == |rest| {
      RewrittenEnd(rest, st, room, plan);
    } else {
      var lead, x, a, t := FirstPiece(rest, st, room);
      RewrittenTokens(a, t.next, Room(t, room), plan[1..]);
      RewrittenMore(lead, x, a, st, room, t, Tokenize(a, t.next, Room(t, room)).pieces, plan);
    }
  }
}
