/** Which style sheets are read at all: those written of names, calls, strings, targets, comments and marks are, exactly
    when every parenthesis is closed; and one that breaks off within a comment or a string is refused. */
module CssSheets {
  import opened Collections
  import opened CssTokens
  import opened CssScanner
  import opened CssContexts
  import opened CssReaders
  import opened CssDestinations

  /** What a sheet is written of. A name that is called comes with its parenthesis. */
  datatype Atom =
    | Blanks(w: Text)
    | Comment(body: Text)
    | Name(n: Text)
    | Call(n: Text)
    | AtWord(n: Text)
    | Quotes(quote: Unit, s: Text)
    | Url(h: Text, before: Text, u: Text, after: Text)
    | UrlQuotes(h: Text, before: Text, quote: Unit, s: Text, after: Text)
    | Mark(c: Unit)

  function Spell(a: Atom): Text {
    match a
    case Blanks(w) => w
    case Comment(c) => Note(c)
    case Name(n) => n
    case Call(n) => n + [OPEN]
    case AtWord(n) => [AT] + n
    case Quotes(quote, s) => Str(quote, s)
    case Url(h, before, u, after) => BareUrl(h, before, u, after)
    case UrlQuotes(h, before, quote, s, after) => QuotedUrl(h, before, quote, s, after)
    case Mark(c) => [c]
  }

  function Spelled(atoms: seq<Atom>): Text {
    if atoms == [] then [] else Spell(atoms[0]) + Spelled(atoms[1..])
  }

  predicate Fine(a: Atom) {
    match a
    case Blanks(w) => |w| == 1 && Whitespace(w[0])
    case Comment(c) => IsNote(c)
    case Name(n) => IsName(n)
    case Call(n) => IsName(n) && Lower(n) != URL
    case AtWord(n) => IsName(n)
    case Quotes(quote, s) => QuoteUnit(quote) && Quiet(s, quote)
    case Url(h, before, u, after) =>
      UrlName(h) && Spacing(before) && Bare(u) && Spacing(after) && (u == [] ==> after == [])
    case UrlQuotes(h, before, quote, s, after) =>
      UrlName(h) && Spacing(before) && QuoteUnit(quote) && Quiet(s, quote) && Spacing(after)
    case Mark(c) => !QuoteUnit(c) && c != AT && !NameUnit(c) && !Whitespace(c)
  }

  /** What comes next does not run together with this one. */
  predicate Apart(a: Atom, rest: Text) {
    rest != [] ==>
      (a.Name? ==> !NameUnit(rest[0]) && rest[0] != OPEN) && (a.AtWord? ==> !NameUnit(rest[0]))
      && (a == Mark(SLASH) ==> rest[0] != STAR)
  }

  predicate Neat(atoms: seq<Atom>, z: Text) {
    atoms != [] ==> Fine(atoms[0]) && Apart(atoms[0], Spelled(atoms[1..]) + z) && Neat(atoms[1..], z)
  }

  predicate IsBlank(a: Atom) { a.Blanks? || a.Comment? }

  predicate IsLink(a: Atom) { a.Quotes? || a.Url? || a.UrlQuotes? }

  function Links(atoms: seq<Atom>): nat {
    if atoms == [] then 0 else (if IsLink(atoms[0]) then 1 else 0) + Links(atoms[1..])
  }

  /** How many parentheses are open. */
  function Deeper(a: Atom, depth: nat): nat {
    if a.Call? || a == Mark(OPEN) then depth + 1
    else if a == Mark(CLOSE) && depth > 0 then depth - 1
    else depth
  }

  function Depth(atoms: seq<Atom>, depth: nat): nat
    decreases |atoms|
  {
    if atoms == [] then depth else Depth(atoms[1..], Deeper(atoms[0], depth))
  }

  // ---------------------------------------------------------------- one atom

  lemma BlankIs(a: Atom, rest: Text)
    requires Fine(a) && IsBlank(a)
    ensures Blank(Spell(a) + rest) == Took(|Spell(a)|, ()) && |Spell(a)| > 0 && (Spell(a) + rest)[|Spell(a)|..] == rest
  {
    if a.Comment? { NoteReads(a.body, rest); }
    hide CommentEnd;
  }

  lemma BlankPasses(x: Text, rest: Text, st: State, room: nat)
    requires x != [] && Blank(x + rest) == Took(|x|, ()) && (x + rest)[|x|..] == rest
    ensures Skip(x + rest) == if Skip(rest).Took? then Took(|x| + Skip(rest).len, ()) else Invalid
    ensures Tokenize(x + rest, st, room).Pieces? <==> Tokenize(rest, st, room).Pieces?
  {
    hide TokenAt, Blank;
    var k := Skip(rest);
    assert Skip(x + rest) == if k.Took? then Took(|x| + k.len, ()) else Invalid;
    if k.Took? { assert (x + rest)[|x| + k.len..] == rest[k.len..]; }
  }

  /** What a token that takes just this atom leaves. */
  predicate Takes(a: Atom, t: Token, st: State) {
    t.Tok? && t.len == |Spell(a)| && (t.found.Some? ==> IsLink(a)) && |t.next.functions| == Deeper(a, |st.functions|)
  }

  lemma NameAtom(n: Text, rest: Text, st: State)
    requires IsName(n) && Apart(Name(n), rest)
    ensures Takes(Name(n), TokenAt(n + rest, st), st) || (TokenAt(n + rest, st).Bad? && Skip(rest).Invalid?)
  {
    NameReads(n, rest);
    assert (n + rest)[|n|..] == rest && (n + rest)[0] == n[0];
    hide Word, Skip, Target, Lower;
  }

  lemma CallAtom(n: Text, rest: Text, st: State)
    requires IsName(n) && Lower(n) != URL
    ensures Takes(Call(n), TokenAt(n + [OPEN] + rest, st), st)
  {
    FunctionName(n, rest, st);
    Associates(n, [OPEN], rest);
    hide TokenAt, Lower;
  }

  lemma AtAtom(n: Text, rest: Text, st: State)
    requires IsName(n) && Apart(AtWord(n), rest)
    ensures Takes(AtWord(n), TokenAt([AT] + n + rest, st), st)
  {
    NameReads(n, rest);
    assert ([AT] + n + rest)[1..] == n + rest;
    hide Word, Lower;
  }

  lemma TakenKeeps(st: State, url: Text)
    ensures Taken(st, url).1.functions == st.functions
  {
  }

  lemma QuotesAtom(quote: Unit, s: Text, rest: Text, st: State)
    requires QuoteUnit(quote) && Quiet(s, quote)
    ensures Takes(Quotes(quote, s), TokenAt(Str(quote, s) + rest, st), st)
  {
    StrReads(quote, s, []);
    assert Str(quote, s) + [] == Str(quote, s);
    StringIs(Str(quote, s), s, rest, st);
    TakenKeeps(st, s);
    hide TokenAt, String, Taken, InImageSet, Destination;
  }

  lemma UrlAtom(a: Atom, rest: Text, st: State)
    requires Fine(a) && (a.Url? || a.UrlQuotes?)
    ensures Takes(a, TokenAt(Spell(a) + rest, st), st)
  {
    var url := if a.Url? then a.u else a.s;
    if a.Url? { BareUrlIs(a.h, a.before, a.u, a.after); } else { QuotedUrlIs(a.h, a.before, a.quote, a.s, a.after); }
    UrlToken(Spell(a), url, rest, st);
    TakenKeeps(st, url);
    hide TokenAt, IsUrl, Taken, Spell;
  }

  lemma MarkAtom(c: Unit, rest: Text, st: State)
    requires Fine(Mark(c))
    ensures Takes(Mark(c), TokenAt([c] + rest, st), st)
  {
    assert ([c] + rest)[0] == c;
    hide NameToken, StringToken, AtToken;
  }

  lemma AtomToken(a: Atom, rest: Text, st: State)
    requires Fine(a) && !IsBlank(a) && Apart(a, rest)
    ensures Takes(a, TokenAt(Spell(a) + rest, st), st) || (TokenAt(Spell(a) + rest, st).Bad? && Skip(rest).Invalid?)
  {
    hide TokenAt, Takes, Skip;
    match a
    case Name(n) => NameAtom(n, rest, st);
    case Call(n) => CallAtom(n, rest, st);
    case AtWord(n) => AtAtom(n, rest, st);
    case Quotes(quote, s) => QuotesAtom(quote, s, rest, st);
    case Url(_, _, _, _) => UrlAtom(a, rest, st);
    case UrlQuotes(_, _, _, _, _) => UrlAtom(a, rest, st);
    case Mark(c) => MarkAtom(c, rest, st);
  }

  lemma AtomFirm(a: Atom, rest: Text)
    requires Fine(a) && !IsBlank(a) && Apart(a, rest)
    ensures Firm(Spell(a) + rest) && Spell(a) != []
  {
    hide Lower;
    if a.Url? || a.UrlQuotes? {
      UrlLetters(a.h);
      assert (Spell(a) + rest)[0] == a.h[0];
    }
  }

  /** A sheet whose first token takes just its first atom is read if and only if what is left is. */
  lemma TokenPasses(x: Text, rest: Text, st: State, room: nat, t: Token)
    requires x != [] && Firm(x + rest) && t == TokenAt(x + rest, st) && t.Tok? && t.len == |x|
    requires t.found.Some? ==> room > 0
    ensures Tokenize(x + rest, st, room).Pieces? <==> Tokenize(rest, t.next, Room(t, room)).Pieces?
  {
    SkipFirm(x + rest);
    assert (x + rest)[0..] == x + rest && (x + rest)[|x|..] == rest;
    hide TokenAt, Skip, Firm;
  }

  // ---------------------------------------------------------------- whole sheets

  lemma {:induction false} ReadIff(atoms: seq<Atom>, st: State, room: nat)
    requires Neat(atoms, []) && Links(atoms) <= room
    ensures Skip(Spelled(atoms)).Took?
    ensures Tokenize(Spelled(atoms), st, room).Pieces? <==> Depth(atoms, |st.functions|) == 0
    decreases |atoms|
  {
    hide Tokenize, TokenAt, Skip, Blank, Fine, Spell, Firm;
    if atoms == [] {
      NothingReads(st, room);
    } else {
      var a, rest := atoms[0], Spelled(atoms[1..]);
      assert rest + [] == rest;
      if IsBlank(a) {
        BlankIs(a, rest);
        ReadIff(atoms[1..], st, room);
        BlankPasses(Spell(a), rest, st, room);
      } else {
        ReadIff(atoms[1..], st, room);
        AtomToken(a, rest, st);
        AtomFirm(a, rest);
        var t := TokenAt(Spell(a) + rest, st);
        TokenPasses(Spell(a), rest, st, room, t);
        ReadIff(atoms[1..], t.next, Room(t, room));
        SkipFirm(Spell(a) + rest);
      }
    }
  }

  lemma NothingReads(st: State, room: nat)
    ensures Skip([]) == Took(0, ()) && (Tokenize([], st, room).Pieces? <==> |st.functions| == 0)
  {
  }

  /** A sheet so written, of at most so many units and with at most so many strings and targets, is read if and only if
      every parenthesis is closed. */
  lemma SheetReadsIff(atoms: seq<Atom>)
    requires Neat(atoms, []) && |Spelled(atoms)| <= MOST_UNITS && Links(atoms) <= MOST_REFERENCES
    ensures Reads(Spelled(atoms)) <==> Depth(atoms, 0) == 0
  {
    ReadIff(atoms, START, MOST_REFERENCES);
    hide Tokenize, Spelled, Neat, Links, Depth;
  }

  /** A comment that is never closed, or a string whose line or sheet ends before it does. */
  predicate Broken(z: Text) {
    (CommentStart(z) && IsNote(z[2..]))
    || (z != [] && QuoteUnit(z[0])
        && exists n :: 1 <= n <= |z| && Quiet(z[1..n], z[0]) && (n == |z| || Newline(z[n])))
  }

  lemma BrokenReads(z: Text, st: State, room: nat)
    requires Broken(z)
    ensures !Tokenize(z, st, room).Pieces?
  {
    if CommentStart(z) && IsNote(z[2..]) {
      CommentIff(z[2..]);
      hide CommentEnd, ClosesAt;
    } else {
      var n :| 1 <= n <= |z| && Quiet(z[1..n], z[0]) && (n == |z| || Newline(z[n]));
      assert z[1..] == z[1..n] + z[n..];
      BodyBroken(z[1..n], z[0], z[n..]);
      SkipFirm(z);
      assert z[0..] == z;
      hide StringBody, Skip;
    }
  }

  lemma FirstBad(rest: Text, st: State, room: nat)
    requires rest != [] && Firm(rest) && (TokenAt(rest, st).Bad? || (TokenAt(rest, st).found.Some? && room == 0))
    ensures !Tokenize(rest, st, room).Pieces?
  {
    SkipFirm(rest);
    assert rest[0..] == rest;
    hide TokenAt, Skip, Firm;
  }

  lemma {:induction false} BreaksOff(atoms: seq<Atom>, z: Text, st: State, room: nat)
    requires Neat(atoms, z) && Broken(z)
    ensures !Tokenize(Spelled(atoms) + z, st, room).Pieces?
    decreases |atoms|
  {
    hide Tokenize, TokenAt, Skip, Blank, Fine, Spell, Firm, Broken;
    if atoms == [] {
      assert Spelled(atoms) + z == z;
      BrokenReads(z, st, room);
    } else {
      var a, rest := atoms[0], Spelled(atoms[1..]) + z;
      Associates(Spell(a), Spelled(atoms[1..]), z);
      if IsBlank(a) {
        BlankIs(a, rest);
        BreaksOff(atoms[1..], z, st, room);
        BlankPasses(Spell(a), rest, st, room);
      } else {
        AtomToken(a, rest, st);
        AtomFirm(a, rest);
        var t := TokenAt(Spell(a) + rest, st);
        if t.Bad? || (t.found.Some? && room == 0) {
          FirstBad(Spell(a) + rest, st, room);
        } else {
          TokenPasses(Spell(a), rest, st, room, t);
          BreaksOff(atoms[1..], z, t.next, Room(t, room));
        }
      }
    }
  }

  /** And one that breaks off within a comment or a string is refused, whatever stands before. */
  lemma BrokenSheetIsRefused(atoms: seq<Atom>, z: Text)
    requires Neat(atoms, z) && Broken(z)
    ensures !Scan(Spelled(atoms) + z).Refs?
  {
    BreaksOff(atoms, z, START, MOST_REFERENCES);
    hide Tokenize, Spelled, Neat, Broken;
  }
}
