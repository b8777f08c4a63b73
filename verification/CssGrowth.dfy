/** When a rewritten sheet can be too long for the scanner. */
module CssGrowth {
  import opened Collections
  import opened CssTokens
  import opened CssScanner
  import opened CssRewriting
  import opened CssRewriter

  /** No loader's answer stands in the way of rewriting the sheet. */
  predicate Rewritable(source: Text) {
    Scan(source).Refs? && forall i :: 0 <= i < |Scan(source).refs| ==> LeftAlone(Scan(source).refs[i].url)
                                                                       || !Conditional(Scan(source).refs[i])
  }

  /** A loader that answers everything at length. */
  function Lengthy(length: nat): Loader { (_, _) => Some(seq(length, _ => 97)) }

  lemma {:induction false} QuotedLonger(v: Text)
    ensures |QuotedBody(v)| >= |v|
  {
    if v != [] { QuotedLonger(v[1..]); }
  }

  lemma WrappedLonger(p: Piece, u: Text)
    requires p.found.Some? && p.token != []
    ensures |Edited(p, Some(u)).token| > |u|
  {
    QuotedLonger(u);
    hide QuotedBody;
  }

  /** A replaced reference makes the text as long as its replacement at least. */
  lemma {:induction false} JoinGrows(ps: seq<Piece>, loader: Loader, at: nat, i: nat, length: nat)
    requires WellFormed(ps) && loader == Lengthy(length)
    requires i < |References(ps, at)| && !LeftAlone(References(ps, at)[i].url)
    ensures |Join(RewrittenPieces(ps, loader))| > length
    decreases |ps|
  {
    hide Edited, LeftAlone, Qualifiers;
    var qs := RewrittenPieces(ps, loader);
    RewrittenPiecesCons(ps, loader);
    assert qs[1..] == RewrittenPieces(ps[1..], loader);
    var end := at + |ps[0].lead| + |ps[0].token|;
    if ps[0].found.Some? && i == 0 {
      WrappedLonger(ps[0], seq(length, _ => 97));
    } else {
      JoinGrows(ps[1..], loader, end, if ps[0].found.Some? then i - 1 else i, length);
    }
  }

  lemma {:induction false} JoinStays(ps: seq<Piece>, loader: Loader, at: nat)
    requires forall i :: 0 <= i < |References(ps, at)| ==> LeftAlone(References(ps, at)[i].url)
    ensures RewrittenPieces(ps, loader) == ps
    decreases |ps|
  {
    hide LeftAlone, Qualifiers;
    if ps != [] {
      var end := at + |ps[0].lead| + |ps[0].token|;
      RewrittenPiecesCons(ps, loader);
      var rs, more := References(ps, at), References(ps[1..], end);
      forall i | 0 <= i < |more|
        ensures LeftAlone(more[i].url)
      {
        assert more[i] == rs[if ps[0].found.Some? then i + 1 else i];
      }
      JoinStays(ps[1..], loader, end);
      if ps[0].found.Some? { assert rs[0].url == ps[0].found.value.url; }
    }
  }

  /** A rewritable sheet outgrows the scanner with some loader if and only if it has a reference that is replaced. */
  lemma OutgrowsIff(source: Text)
    requires Rewritable(source)
    ensures (exists loader :: Rewrite(source, loader).Some? && Scan(Rewrite(source, loader).value).NotSupported?)
      <==> exists i :: 0 <= i < |Scan(source).refs| && !LeftAlone(Scan(source).refs[i].url)
  {
    var ps := Tokenize(source, START, MOST_REFERENCES).pieces;
    TokenizeLoud(source, START, MOST_REFERENCES);
    hide Tokenize, References, LeftAlone, Conditional, Join, RewrittenPieces, WellFormed, Loud;
    if i :| 0 <= i < |Scan(source).refs| && !LeftAlone(Scan(source).refs[i].url) {
      var loader := Lengthy(MOST_UNITS);
      JoinGrows(ps, loader, 0, i, MOST_UNITS);
      assert Rewrite(source, loader).Some? && Scan(Rewrite(source, loader).value).NotSupported?;
    } else {
      forall loader | Rewrite(source, loader).Some?
        ensures Scan(Rewrite(source, loader).value).Refs?
      {
        JoinStays(ps, loader, 0);
        TokenizeCovers(source, START, MOST_REFERENCES);
      }
    }
  }

  /** The sheet {url(a)}. */
  const SMALL: Text := [123, 117, 114, 108, 40, 97, 41, 125]

  lemma WordFrom(c: Unit, rest: Text)
    requires NameUnit(c) && c != BACKSLASH && Word(rest).Took?
    ensures Word([c] + rest) == Took(1 + Word(rest).len, [c] + Word(rest).value)
  {
    assert ([c] + rest)[1..] == rest;
  }

  lemma WordUrl(open: Text)
    requires open != [] && open[0] == OPEN
    ensures Word([117, 114, 108] + open) == Took(3, [117, 114, 108]) && Lower([117, 114, 108]) == URL
  {
    assert Word(open) == Took(0, []);
    hide Word;
    WordFrom(108, open);
    WordFrom(114, [108] + open);
    WordFrom(117, [114] + ([108] + open));
    assert [117, 114, 108] + open == [117] + ([114] + ([108] + open));
    assert [117] + ([114] + ([108] + [])) == [117, 114, 108];
  }

  lemma TargetA(rest: Text)
    ensures Target([97, 41] + rest) == Took(2, [97])
  {
    var target: Text := [97, 41] + rest;
    assert target[0..] == target && target[1..] == [41] + rest;
    assert Unquoted([41] + rest) == Took(1, []);
    assert [97] + [] == [97];
    assert Unquoted(target) == Took(2, [97]);
  }

  lemma UrlOfA(rest: Text, st: State)
    requires Destination(st) == Some(Image)
    ensures TokenAt([117, 114, 108, 40, 97, 41] + rest, st) == Tok(6, st, Some(Found([97], Image)), false)
  {
    var all: Text := [117, 114, 108, 40, 97, 41] + rest;
    var open: Text := [40, 97, 41] + rest;
    assert all == [117, 114, 108] + open && all[3..] == open && open[1..] == [97, 41] + rest;
    hide Word, Lower, Target, Skip, Destination;
    WordUrl(open);
    TargetA(rest);
    assert AfterName(URL, open, st) == Tok(3, st, Some(Found([97], Image)), false);
  }

  lemma TokenizeFrom(token: Text, rest: Text, st: State, room: nat, t: Token)
    requires token != [] && !Whitespace(token[0]) && token[0] != SLASH
    requires TokenAt(token + rest, st) == t && t.Tok? && t.len == |token| && (t.found.Some? ==> room > 0)
    requires Tokenize(rest, t.next, if t.found.Some? then room - 1 else room).Pieces?
    ensures Tokenize(token + rest, st, room)
      == Pieces([Piece([], token, t.found, t.stop)]
                + Tokenize(rest, t.next, if t.found.Some? then room - 1 else room).pieces)
  {
    var all := token + rest;
    hide TokenAt;
    assert Skip(all) == Took(0, ());
    assert all[0..] == all && all[..0] == [] && all[..|token|] == token && all[|token|..] == rest;
  }

  lemma Braces(rest: Text)
    ensures TokenAt([123] + rest, START) == Tok(1, START.(blocks := [false]), None, false)
    ensures TokenAt([125] + rest, START.(blocks := [false])) == Tok(1, START, None, false)
  {
    assert START.blocks + [false] == [false] && [false][..0] == [];
  }

  const LAST := Piece([], [], None, false)
  const CLOSING := Piece([], [125], None, false)
  const NAMED := Piece([], [117, 114, 108, 40, 97, 41], Some(Found([97], Image)), false)
  const OPENING := Piece([], [123], None, false)

  lemma EndPiece(room: nat)
    ensures Tokenize([], START, room) == Pieces([LAST])
  {
  }

  lemma ClosePieces(room: nat)
    ensures Tokenize([125], START.(blocks := [false]), room) == Pieces([CLOSING] + [LAST])
  {
    hide Tokenize, TokenAt;
    EndPiece(room);
    Braces([]);
    assert [125] + [] == [125];
    TokenizeFrom([125], [], START.(blocks := [false]), room, Tok(1, START, None, false));
  }

  lemma NamePieces(name: Text, inside: State, room: nat)
    requires room > 0 && name == [117, 114, 108, 40, 97, 41] && inside == START.(blocks := [false])
    ensures Tokenize(name + [125], inside, room) == Pieces([NAMED] + ([CLOSING] + [LAST]))
  {
    assert Destination(inside) == Some(Image);
    hide Tokenize, TokenAt, Destination;
    ClosePieces(room - 1);
    UrlOfA([125], inside);
    TokenizeFrom(name, [125], inside, room, Tok(6, inside, Some(Found([97], Image)), false));
  }

  lemma SmallPieces(name: Text, inside: State, room: nat)
    requires room > 0 && name == [117, 114, 108, 40, 97, 41] && inside == START.(blocks := [false])
    ensures Tokenize([123] + (name + [125]), START, room) == Pieces([OPENING] + ([NAMED] + ([CLOSING] + [LAST])))
  {
    hide Tokenize, TokenAt;
    NamePieces(name, inside, room);
    Braces(name + [125]);
    TokenizeFrom([123], name + [125], START, room, Tok(1, inside, None, false));
  }

  lemma SmallReferences()
    ensures References([OPENING] + ([NAMED] + ([CLOSING] + [LAST])), 0) == [Reference(1, 7, [97], Image, None)]
  {
    hide References, Qualifiers;
    NoReferences(8);
    assert [LAST] + [] == [LAST];
    ReferencesMore(LAST, [], 8);
    ReferencesMore(CLOSING, [LAST], 7);
    assert References([CLOSING] + [LAST], 7) == [];
    ReferencesMore(NAMED, [CLOSING] + [LAST], 1);
    ReferencesMore(OPENING, [NAMED] + ([CLOSING] + [LAST]), 0);
  }

  lemma SmallSheet()
    ensures Scan(SMALL) == Refs([Reference(1, 7, [97], Image, None)])
  {
    hide Tokenize, References;
    var name: Text := [117, 114, 108, 40, 97, 41];
    SmallPieces(name, START.(blocks := [false]), MOST_REFERENCES);
    assert [123] + (name + [125]) == SMALL;
    SmallReferences();
  }

  lemma NoReferences(at: nat)
    ensures References([], at) == []
  {
  }

  /** One reference and a long replacement: the rewritten sheet is refused where the original was read. */
  lemma SmallSheetOutgrows()
    ensures Scan(SMALL).Refs? && Rewrite(SMALL, Lengthy(MOST_UNITS)).Some?
    ensures Scan(Rewrite(SMALL, Lengthy(MOST_UNITS)).value).NotSupported?
  {
    SmallSheet();
    var ps := Tokenize(SMALL, START, MOST_REFERENCES).pieces;
    TokenizeLoud(SMALL, START, MOST_REFERENCES);
    hide Tokenize, References, Join, RewrittenPieces, WellFormed, Loud;
    JoinGrows(ps, Lengthy(MOST_UNITS), 0, 0, MOST_UNITS);
  }
}
