/** What runtime/native-css-dependencies.ts finds in a style sheet: a sheet as pieces of blank text and tokens,
    read one token at a time under the scanner's state. */
module CssScanner {
  import opened Collections
  import opened CssTokens

  const MOST_REFERENCES := 1024
  const MOST_UNITS := 8 * 1024 * 1024

  const IMPORT: Text := [105, 109, 112, 111, 114, 116]
  const FONT_FACE: Text := [102, 111, 110, 116, 45, 102, 97, 99, 101]
  const SRC: Text := [115, 114, 99]
  const URL: Text := [117, 114, 108]
  const IMAGE_SET: Text := [105, 109, 97, 103, 101, 45, 115, 101, 116]
  const WEBKIT_IMAGE_SET: Text := [45, 119, 101, 98, 107, 105, 116, 45, 105, 109, 97, 103, 101, 45, 115, 101, 116]

  datatype Kind = Style | Image | Font

  datatype Found = Found(url: Text, kind: Kind)

  /** The scanner between two tokens. An absent prelude is the empty one; a block is whether it is a font face. */
  datatype State = State(prelude: Text, importTarget: bool, pendingFont: bool, property: Text,
                         declarationStart: bool, blocks: seq<bool>, functions: seq<Text>)

  const START := State([], false, false, [], true, [], [])

  /** The destination a URL read now would have. */
  function Destination(st: State): Option<Kind> {
    if st.prelude != [] then if st.prelude == IMPORT && st.importTarget then Some(Style) else None
    else if st.blocks == [] then None
    else if st.blocks[|st.blocks| - 1] then if st.property == SRC then Some(Font) else None
    else Some(Image)
  }

  predicate InImageSet(st: State) {
    st.functions != [] && st.functions[|st.functions| - 1] in {IMAGE_SET, WEBKIT_IMAGE_SET}
  }

  function Taken(st: State, url: Text): (Option<Found>, State) {
    match Destination(st)
    case None => (None, st)
    case Some(kind) => (Some(Found(url, kind)), if kind == Style then st.(importTarget := false) else st)
  }

  /** One token: its length, the state after it, the dependency it is, and whether it ends an at-rule. */
  datatype Token = Bad | Tok(len: nat, next: State, found: Option<Found>, stop: bool)

  function StringToken(rest: Text, st: State): Token
    requires rest != [] && QuoteUnit(rest[0])
  {
    var s := String(rest);
    if s.Invalid? then Bad
    else if Destination(st) == Some(Style) || InImageSet(st) then
      var (found, next) := Taken(st, s.value); Tok(s.len, next, found, false)
    else Tok(s.len, st, None, false)
  }

  function AtToken(rest: Text, st: State): Token
    requires rest != []
  {
    var w := Word(rest[1..]);
    if w.Invalid? then Bad
    else
      var value := Lower(w.value);
      var next := if st.functions != [] then st
                  else st.(prelude := value, importTarget := value == IMPORT, pendingFont := value == FONT_FACE);
      Tok(1 + w.len, next, None, false)
  }

  /** What comes after an identifier decides what it is. */
  function AfterName(value: Text, after: Text, st: State): Token {
    if after != [] && after[0] == OPEN then
      if value == URL then
        var t := Target(after[1..]);
        if t.Invalid? then Bad
        else var (found, next) := Taken(st, t.value); Tok(1 + t.len, next, found, false)
      else Tok(1, st.(functions := st.functions + [value]), None, false)
    else if st.declarationStart && st.functions == [] then
      var k := Skip(after);
      if k.Invalid? then Bad
      else if k.len < |after| && after[k.len] == COLON
      then Tok(0, st.(property := value, declarationStart := false), None, false)
      else Tok(0, st, None, false)
    else Tok(0, st, None, false)
  }

  function NameToken(rest: Text, st: State): Token {
    var w := Word(rest);
    if w.Invalid? then Bad
    else
      var t := AfterName(Lower(w.value), rest[w.len..], st);
      if t.Bad? then Bad else t.(len := w.len + t.len)
  }

  function UnitToken(c: Unit, st: State): Token {
    var stop := c == SEMICOLON && st.functions == [];
    var next :=
      if c == OPEN then st.(functions := st.functions + [[]])
      else if c == CLOSE then
        if st.functions == [] then st else st.(functions := st.functions[..|st.functions| - 1])
      else if st.functions != [] then st
      else if c == 123 then
        st.(blocks := st.blocks + [st.pendingFont], prelude := [], pendingFont := false, property := [],
            declarationStart := true)
      else if c == 125 then
        st.(blocks := if st.blocks == [] then [] else st.blocks[..|st.blocks| - 1], prelude := [], property := [],
            declarationStart := true)
      else if c == SEMICOLON then
        st.(prelude := [], importTarget := false, pendingFont := false, property := [], declarationStart := true)
      else st;
    Tok(1, next, None, stop)
  }

  /** The token at the front of text that starts with something other than a blank. */
  function TokenAt(rest: Text, st: State): (t: Token)
    requires rest != []
    ensures t.Tok? ==> 1 <= t.len <= |rest|
  {
    if QuoteUnit(rest[0]) then StringToken(rest, st)
    else if rest[0] == AT then AtToken(rest, st)
    else if NameUnit(rest[0]) then
      NameTokenLength(rest, st);
      NameToken(rest, st)
    else UnitToken(rest[0], st)
  }

  lemma NameTokenLength(rest: Text, st: State)
    requires rest != [] && NameUnit(rest[0])
    ensures NameToken(rest, st).Tok? ==> 1 <= NameToken(rest, st).len <= |rest|
  {
  }

  /** A blank lead, the token after it, and what the token is; the last piece of a sheet has no token. */
  datatype Piece = Piece(lead: Text, token: Text, found: Option<Found>, stop: bool)

  datatype Sheet = Malformed | TooMany | Pieces(pieces: seq<Piece>)

  function Tokenize(rest: Text, st: State, room: nat): Sheet
    decreases |rest|
  {
    var k := Skip(rest);
    if k.Invalid? then Malformed
    else if k.len == |rest| then
      if st.functions != [] then Malformed else Pieces([Piece(rest, [], None, false)])
    else
      var body := rest[k.len..];
      var t := TokenAt(body, st);
      if t.Bad? then Malformed
      else if t.found.Some? && room == 0 then TooMany
      else
        var more := Tokenize(body[t.len..], t.next, if t.found.Some? then room - 1 else room);
        if more.Pieces? then Pieces([Piece(rest[..k.len], body[..t.len], t.found, t.stop)] + more.pieces) else more
  }

  function Join(ps: seq<Piece>): Text {
    if ps == [] then [] else ps[0].lead + ps[0].token + Join(ps[1..])
  }

  function Room(t: Token, room: nat): nat
    requires t.Tok?
  {
    if t.found.Some? && room > 0 then room - 1 else room
  }

  /** A sheet that is read is its first piece and a sheet that is read. */
  lemma TokenizeStep(rest: Text, st: State, room: nat, k: nat)
    requires Tokenize(rest, st, room).Pieces? && Skip(rest) == Took(k, ()) && k < |rest|
    ensures var body := rest[k..];
      var t := TokenAt(body, st);
      t.Tok? && (t.found.Some? ==> room > 0) && Tokenize(body[t.len..], t.next, Room(t, room)).Pieces?
      && Tokenize(rest, st, room).pieces
         == [Piece(rest[..k], body[..t.len], t.found, t.stop)] + Tokenize(body[t.len..], t.next, Room(t, room)).pieces
  {
  }

  lemma TokenizeMore(rest: Text, st: State, room: nat, k: nat, t: Token)
    requires Skip(rest) == Took(k, ()) && k < |rest| && t.Tok? && t == TokenAt(rest[k..], st)
    requires t.found.Some? ==> room > 0
    requires Tokenize(rest[k..][t.len..], t.next, Room(t, room)).Pieces?
    ensures Tokenize(rest, st, room) == Pieces([Piece(rest[..k], rest[k..][..t.len], t.found, t.stop)]
      + Tokenize(rest[k..][t.len..], t.next, Room(t, room)).pieces)
  {
  }

  lemma TokenizeEnd(rest: Text, st: State, room: nat)
    requires Tokenize(rest, st, room).Pieces? && Skip(rest) == Took(|rest|, ())
    ensures st.functions == [] && Tokenize(rest, st, room).pieces == [Piece(rest, [], None, false)]
  {
  }

  lemma PiecesSkip(rest: Text, st: State, room: nat)
    requires Tokenize(rest, st, room).Pieces?
    ensures Skip(rest).Took? && Skip(rest) == Took(Skip(rest).len, ()) && Skip(rest).len <= |rest|
  {
    TookUnit(Skip(rest));
  }

  lemma JoinCons(p: Piece, ps: seq<Piece>)
    ensures Join([p] + ps) == p.lead + p.token + Join(ps)
  {
    assert ([p] + ps)[1..] == ps;
  }

  /** The first piece of a sheet that is not all blank. */
  lemma FirstPiece(rest: Text, st: State, room: nat) returns (lead: Text, x: Text, a: Text, t: Token)
    requires Tokenize(rest, st, room).Pieces? && Skip(rest).Took? && Skip(rest).len < |rest|
    ensures rest == lead + (x + a) && x != [] && Skip(rest) == Took(|lead|, ()) && Firm(x + a)
    ensures t == TokenAt(x + a, st) && t.Tok? && t.len == |x| && (t.found.Some? ==> room > 0)
    ensures |a| < |rest| && Tokenize(a, t.next, Room(t, room)).Pieces?
    ensures Tokenize(rest, st, room).pieces
      == [Piece(lead, x, t.found, t.stop)] + Tokenize(a, t.next, Room(t, room)).pieces
  {
    PiecesSkip(rest, st, room);
    hide Skip, TokenAt, Firm, Tokenize;
    var k := Skip(rest).len;
    TokenizeStep(rest, st, room, k);
    SkipStops(rest);
    var body := rest[k..];
    t := TokenAt(body, st);
    lead, x, a := rest[..k], body[..t.len], body[t.len..];
    assert rest == lead + body && body == x + a;
  }

  lemma JoinEnd(rest: Text)
    ensures Join([Piece(rest, [], None, false)]) == rest
  {
    assert Join([]) == [] && rest + [] + [] == rest;
  }

  /** The pieces are the whole sheet, in order. */
  lemma {:induction false} TokenizeCovers(rest: Text, st: State, room: nat)
    requires Tokenize(rest, st, room).Pieces?
    ensures Join(Tokenize(rest, st, room).pieces) == rest
    decreases |rest|
  {
    PiecesSkip(rest, st, room);
    hide *;
    if Skip(rest).len == |rest| {
      TokenizeEnd(rest, st, room);
      JoinEnd(rest);
    } else {
      var lead, x, a, t := FirstPiece(rest, st, room);
      TokenizeCovers(a, t.next, Room(t, room));
      JoinCons(Piece(lead, x, t.found, t.stop), Tokenize(a, t.next, Room(t, room)).pieces);
      Associates(lead, x, a);
    }
  }

  // ---------------------------------------------------------------- references

  datatype Reference = Reference(start: nat, end: nat, url: Text, kind: Kind, qualifiers: Option<Text>)

  /** White space and line ends as String.prototype.trim knows them. */
  predicate TrimUnit(c: Unit) {
    9 <= c <= 13 || c == 32 || c == 0xA0 || c == 0x1680 || 0x2000 <= c <= 0x200A || c == 0x2028 || c == 0x2029
    || c == 0x202F || c == 0x205F || c == 0x3000 || c == 0xFEFF
  }

  function Trim(t: Text): Text {
    if t != [] && TrimUnit(t[0]) then Trim(t[1..])
    else if t != [] && TrimUnit(t[|t| - 1]) then Trim(t[..|t| - 1])
    else t
  }

  predicate IsStyle(p: Piece) { p.found.Some? && p.found.value.kind == Style }

  /** The text from here to the end of the at-rule, or of the sheet; none when another import comes first. */
  function Suffix(ps: seq<Piece>): Option<Text> {
    if ps == [] then Some([])
    else if IsStyle(ps[0]) then None
    else if ps[0].stop then Some(ps[0].lead)
    else
      var more := Suffix(ps[1..]);
      if more.None? then None else Some(ps[0].lead + ps[0].token + more.value)
  }

  function Qualifiers(ps: seq<Piece>): Option<Text> {
    var text := Suffix(ps);
    if text.None? then None else Some(Trim(text.value))
  }

  function References(ps: seq<Piece>, at: nat): seq<Reference> {
    if ps == [] then []
    else
      var start := at + |ps[0].lead|;
      var end := start + |ps[0].token|;
      var more := References(ps[1..], end);
      if ps[0].found.None? then more
      else
        var f := ps[0].found.value;
        [Reference(start, end, f.url, f.kind, if f.kind == Style then Qualifiers(ps[1..]) else None)] + more
  }

  lemma ReferencesMore(p: Piece, ps: seq<Piece>, at: nat)
    ensures var start := at + |p.lead|;
      var end := start + |p.token|;
      References([p] + ps, at) ==
        (if p.found.None? then []
         else [Reference(start, end, p.found.value.url, p.found.value.kind,
                         if p.found.value.kind == Style then Qualifiers(ps) else None)]) + References(ps, end)
  {
    assert ([p] + ps)[1..] == ps;
  }

  datatype Scanned = NotSupported | OverLimit | Refs(refs: seq<Reference>)

  /** scanNativeCSSDependencies. */
  function Scan(source: Text): Scanned {
    if |source| > MOST_UNITS then NotSupported
    else
      match Tokenize(source, START, MOST_REFERENCES)
      case Malformed => NotSupported
      case TooMany => OverLimit
      case Pieces(ps) => Refs(References(ps, 0))
  }
}
