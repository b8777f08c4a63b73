/** Where in a sheet a URL is a dependency, and of which kind, told from the text around it: the src of a font face, any
    declaration of another block, the target of an import, and nowhere else. */
module CssContexts {
  import opened Collections
  import opened CssTokens
  import opened CssScanner
  import opened CssRewriting

  // ---------------------------------------------------------------- how far a scan has come

  function RefsOf(rest: Text, st: State, room: nat, at: nat): seq<Reference> {
    var s := Tokenize(rest, st, room);
    if s.Pieces? then References(s.pieces, at) else []
  }

  /** The references `more` are the last ones of `all`, and the others end before `at`. */
  ghost predicate Continues(all: seq<Reference>, more: seq<Reference>, at: nat) {
    exists n: nat :: n <= |all| && all[n..] == more && forall i :: 0 <= i < n ==> all[i].end <= at
  }

  /** The scan of the whole sheet comes to `rest`, at its place, in this state. */
  ghost predicate Comes(whole: Text, rest: Text, st: State, at: nat) {
    Scan(whole).Refs? && at + |rest| == |whole|
    && exists room :: Tokenize(rest, st, room).Pieces? && Continues(Scan(whole).refs, RefsOf(rest, st, room, at), at)
  }

  predicate IsAt(r: Reference, start: nat, end: nat, f: Found) {
    r.start == start && r.end == end && r.url == f.url && r.kind == f.kind
  }

  /** A dependency is found at this place. */
  ghost predicate Finds(whole: Text, start: nat, end: nat, f: Found) {
    Scan(whole).Refs? && exists i :: 0 <= i < |Scan(whole).refs| && IsAt(Scan(whole).refs[i], start, end, f)
  }

  /** No dependency is found there. */
  ghost predicate Misses(whole: Text, start: nat, end: nat) {
    Scan(whole).Refs? && forall i :: 0 <= i < |Scan(whole).refs| ==>
      Scan(whole).refs[i].end <= start || Scan(whole).refs[i].start >= end
  }

  lemma ComesStart(whole: Text)
    requires Scan(whole).Refs?
    ensures Comes(whole, whole, START, 0)
  {
    var refs := Scan(whole).refs;
    assert refs[0..] == refs;
    assert Continues(refs, RefsOf(whole, START, MOST_REFERENCES, 0), 0);
  }

  lemma ContinuesOn(all: seq<Reference>, more: seq<Reference>, rest: seq<Reference>, at: nat, end: nat)
    requires Continues(all, more, at) && at <= end
    requires rest == more || (more != [] && rest == more[1..] && more[0].end <= end)
    ensures Continues(all, rest, end)
  {
    var n: nat :| n <= |all| && all[n..] == more && forall i :: 0 <= i < n ==> all[i].end <= at;
    if rest != more {
      assert all[n + 1..] == rest && all[n] == more[0];
    }
  }

  /** The first token of a text, after what is blank. */
  predicate Leading(rest: Text, lead: Text, x: Text, a: Text, st: State, t: Token) {
    rest == lead + (x + a) && x != [] && Skip(rest) == Took(|lead|, ()) && TokenAt(x + a, st) == t && t.Tok?
    && t.len == |x|
  }

  lemma LeadingIs(lead: Text, x: Text, a: Text, st: State, t: Token)
    requires x != [] && Skip(lead + (x + a)) == Took(|lead|, ()) && TokenAt(x + a, st) == t && t.Tok? && t.len == |x|
    ensures Leading(lead + (x + a), lead, x, a, st, t)
  {
  }

  /** The references of a sheet whose first piece is given. */
  lemma FirstRef(rest: Text, lead: Text, x: Text, a: Text, st: State, room: nat, t: Token, at: nat)
    requires Leading(rest, lead, x, a, st, t) && Tokenize(rest, st, room).Pieces?
    ensures t.Tok? && (t.found.Some? ==> room > 0) && Tokenize(a, t.next, Room(t, room)).Pieces?
    ensures FirstIn(RefsOf(rest, st, room, at), RefsOf(a, t.next, Room(t, room), at + |lead| + |x|), t.found, at + |lead|,
                    at + |lead| + |x|, Qualifiers(Tokenize(a, t.next, Room(t, room)).pieces))
  {
    hide *;
    FirstPieceIs(rest, lead, x, a, st, room, t);
    RefsAre(rest, st, room, at);
    RefsAre(a, t.next, Room(t, room), at + |lead| + |x|);
    FirstIsAt(Piece(lead, x, t.found, t.stop), Tokenize(a, t.next, Room(t, room)).pieces, at);
  }

  /** `all` is what is found first, if it is something, and then `more`. */
  predicate FirstIn(all: seq<Reference>, more: seq<Reference>, found: Option<Found>, start: nat, end: nat,
                    qualifiers: Option<Text>)
  {
    if found.None? then all == more
    else all != [] && all[1..] == more && IsAt(all[0], start, end, found.value)
         && (found.value.kind == Style ==> all[0].qualifiers == qualifiers)
  }

  lemma FirstPieceIs(rest: Text, lead: Text, x: Text, a: Text, st: State, room: nat, t: Token)
    requires Leading(rest, lead, x, a, st, t) && Tokenize(rest, st, room).Pieces?
    ensures t.Tok? && (t.found.Some? ==> room > 0) && Tokenize(a, t.next, Room(t, room)).Pieces?
    ensures Tokenize(rest, st, room).pieces
      == [Piece(lead, x, t.found, t.stop)] + Tokenize(a, t.next, Room(t, room)).pieces
  {
    hide Tokenize, TokenAt, Skip;
    assert rest[|lead|..] == x + a && (x + a)[|x|..] == a && (x + a)[..|x|] == x && rest[..|lead|] == lead;
    TokenizeStep(rest, st, room, |lead|);
  }

  lemma RefsAre(rest: Text, st: State, room: nat, at: nat)
    requires Tokenize(rest, st, room).Pieces?
    ensures RefsOf(rest, st, room, at) == References(Tokenize(rest, st, room).pieces, at)
  {
  }

  lemma FirstIsAt(p: Piece, ps: seq<Piece>, at: nat)
    ensures var end := at + |p.lead| + |p.token|;
      FirstIn(References([p] + ps, at), References(ps, end), p.found, at + |p.lead|, end, Qualifiers(ps))
  {
    hide References, Qualifiers;
    ReferencesMore(p, ps, at);
  }

  /** The scan goes on by one token. */
  lemma ComesOn(whole: Text, lead: Text, x: Text, a: Text, st: State, at: nat, t: Token)
    requires Comes(whole, lead + (x + a), st, at)
    requires x != [] && Skip(lead + (x + a)) == Took(|lead|, ()) && TokenAt(x + a, st) == t && t.Tok? && t.len == |x|
    ensures Comes(whole, a, t.next, at + |lead| + |x|)
    ensures t.found.Some? ==> Finds(whole, at + |lead|, at + |lead| + |x|, t.found.value)
    ensures t.found.None? ==> Misses(whole, at + |lead|, at + |lead| + |x|)
  {
    hide *;
    LeadingIs(lead, x, a, st, t);
    var rest, end := lead + (x + a), at + |lead| + |x|;
    var room := RoomAt(whole, rest, st, at);
    FirstRef(rest, lead, x, a, st, room, t, at);
    var all, more := RefsOf(rest, st, room, at), RefsOf(a, t.next, Room(t, room), end);
    var qualifiers := Qualifiers(Tokenize(a, t.next, Room(t, room)).pieces);
    FirstContinues(Scan(whole).refs, all, more, t.found, at, at + |lead|, end, qualifiers);
    FirstIs(all, more, t.found, at + |lead|, end, qualifiers);
    ComesAgain(whole, a, t.next, Room(t, room), end);
    if t.found.Some? {
      FoundThere(whole, all, at, at + |lead|, end, t.found.value);
    } else {
      MissedThere(whole, a, t.next, Room(t, room), at, end, all);
    }
  }

  lemma ComesAgain(whole: Text, rest: Text, st: State, room: nat, at: nat)
    requires Scan(whole).Refs? && Tokenize(rest, st, room).Pieces? && at + |rest| == |whole|
    requires Continues(Scan(whole).refs, RefsOf(rest, st, room, at), at)
    ensures Comes(whole, rest, st, at)
  {
    hide Scan, Tokenize, RefsOf, Continues;
  }

  lemma FirstIs(all: seq<Reference>, more: seq<Reference>, found: Option<Found>, start: nat, end: nat,
                qualifiers: Option<Text>)
    requires FirstIn(all, more, found, start, end, qualifiers)
    ensures found.None? ==> all == more
    ensures found.Some? ==> all != [] && IsAt(all[0], start, end, found.value)
  {
  }

  lemma FirstContinues(refs: seq<Reference>, all: seq<Reference>, more: seq<Reference>, found: Option<Found>, at: nat,
                       start: nat, end: nat, qualifiers: Option<Text>)
    requires Continues(refs, all, at) && at <= end && FirstIn(all, more, found, start, end, qualifiers)
    ensures Continues(refs, more, end)
  {
    hide Continues;
    ContinuesOn(refs, all, more, at, end);
  }

  lemma RoomAt(whole: Text, rest: Text, st: State, at: nat) returns (room: nat)
    requires Comes(whole, rest, st, at)
    ensures Scan(whole).Refs? && at + |rest| == |whole| && Tokenize(rest, st, room).Pieces?
    ensures Continues(Scan(whole).refs, RefsOf(rest, st, room, at), at)
  {
    hide Scan, Tokenize, RefsOf, Continues;
    room :| Tokenize(rest, st, room).Pieces? && Continues(Scan(whole).refs, RefsOf(rest, st, room, at), at);
  }

  lemma FoundThere(whole: Text, all: seq<Reference>, at: nat, start: nat, end: nat, f: Found)
    requires Scan(whole).Refs? && Continues(Scan(whole).refs, all, at) && all != [] && IsAt(all[0], start, end, f)
    ensures Finds(whole, start, end, f)
  {
    hide Scan;
    var refs := Scan(whole).refs;
    var n: nat :| n <= |refs| && refs[n..] == all && forall i :: 0 <= i < n ==> refs[i].end <= at;
    assert refs[n] == all[0];
  }

  lemma {:induction false} StartsAfter(ps: seq<Piece>, at: nat)
    ensures forall i :: 0 <= i < |References(ps, at)| ==> References(ps, at)[i].start >= at
    decreases |ps|
  {
    hide Qualifiers;
    if ps != [] { StartsAfter(ps[1..], at + |ps[0].lead| + |ps[0].token|); }
  }

  lemma MissedThere(whole: Text, a: Text, st: State, room: nat, at: nat, end: nat, all: seq<Reference>)
    requires Scan(whole).Refs? && Continues(Scan(whole).refs, all, at) && all == RefsOf(a, st, room, end) && at <= end
    ensures forall start :: at <= start <= end ==> Misses(whole, start, end)
  {
    var refs := Scan(whole).refs;
    var n: nat :| n <= |refs| && refs[n..] == all && forall i :: 0 <= i < n ==> refs[i].end <= at;
    var s := Tokenize(a, st, room);
    if s.Pieces? { StartsAfter(s.pieces, end); }
    hide Scan, RefsOf, Tokenize, References;
    forall i | n <= i < |refs| ensures refs[i].start >= end {
      assert refs[i] == all[i - n];
    }
  }

  // ---------------------------------------------------------------- passing over a text

  /** The state after a text that ends between two tokens, if it can be read. */
  function Final(rest: Text, st: State): Option<State>
    decreases |rest|
  {
    var k := Skip(rest);
    if k.Invalid? then None
    else if k.len == |rest| then Some(st)
    else
      var t := TokenAt(rest[k.len..], st);
      if t.Bad? then None else Final(rest[k.len..][t.len..], t.next)
  }

  lemma FinalFirst(rest: Text, st: State) returns (lead: Text, x: Text, a: Text, t: Token)
    requires Final(rest, st).Some? && Skip(rest).Took? && Skip(rest).len < |rest|
    ensures rest == lead + (x + a) && x != [] && Skip(rest) == Took(|lead|, ()) && Firm(x + a)
    ensures t == TokenAt(x + a, st) && t.Tok? && t.len == |x| && |a| < |rest| && Final(a, t.next) == Final(rest, st)
  {
    hide Skip, TokenAt, Firm;
    var k := Skip(rest).len;
    TookUnit(Skip(rest));
    SkipStops(rest);
    var body := rest[k..];
    t := TokenAt(body, st);
    lead, x, a := rest[..k], body[..t.len], body[t.len..];
    assert rest == lead + body && body == x + a;
  }

  /** Before a text that starts hard, another text is read as if it ended there. */
  lemma EndAlike(a: Text, b: Text, st: State)
    requires Final(a, st).Some? && b != [] && Hard(b[0])
    ensures Alike(a, a + b)
  {
    hide *;
    var lead, z := EndOf(a, st);
    Associates(lead, z, b);
    EndHead(z, b);
    LeadAlike(lead, z, z + b);
  }

  lemma EndOf(a: Text, st: State) returns (lead: Text, z: Text)
    requires Final(a, st).Some?
    ensures a == lead + z && Skip(lead + z) == Took(|lead|, ()) && Firm(z)
  {
    var k := Skip(a).len;
    TookUnit(Skip(a));
    SkipStops(a);
    lead, z := a[..k], a[k..];
    assert a == lead + z;
  }

  lemma EndHead(z: Text, b: Text)
    requires Firm(z) && b != [] && Hard(b[0])
    ensures HeadAlike(z, z + b) && Firm(z + b)
  {
    if z == [] { assert z + b == b; }
  }

  lemma {:induction false} ComesThrough(whole: Text, x: Text, b: Text, st: State, at: nat)
    requires Comes(whole, x + b, st, at) && Final(x, st).Some? && b != [] && Hard(b[0])
    ensures Comes(whole, b, Final(x, st).value, at + |x|)
    decreases |x|
  {
    hide *;
    FinalSkips(x, st);
    if Skip(x).len == |x| {
      FinalBlank(x, st);
      BlankBefore(whole, x, b, st, at);
    } else {
      var lead, y, a, t := FinalFirst(x, st);
      TokenBefore(lead, y, a, b, st, t);
      Regroup(lead, y, a, b);
      ComesOn(whole, lead, y, a + b, st, at, t);
      ComesThrough(whole, a, b, t.next, at + |lead| + |y|);
    }
  }

  lemma FinalSkips(x: Text, st: State)
    requires Final(x, st).Some?
    ensures Skip(x).Took? && Skip(x) == Took(Skip(x).len, ()) && Skip(x).len <= |x|
  {
    TookUnit(Skip(x));
  }

  lemma FinalBlank(x: Text, st: State)
    requires Skip(x).Took? && Skip(x).len == |x|
    ensures Final(x, st) == Some(st)
  {
  }

  lemma Regroup(lead: Text, y: Text, a: Text, b: Text)
    ensures lead + (y + a) + b == lead + (y + (a + b))
  {
  }

  /** The first token of a text that goes on hard. */
  lemma TokenBefore(lead: Text, y: Text, a: Text, b: Text, st: State, t: Token)
    requires y != [] && Skip(lead + (y + a)) == Took(|lead|, ()) && Firm(y + a) && t == TokenAt(y + a, st)
    requires t.Tok? && t.len == |y| && Final(a, t.next).Some? && b != [] && Hard(b[0])
    ensures Skip(lead + (y + (a + b))) == Took(|lead|, ()) && TokenAt(y + (a + b), st) == t
  {
    hide *;
    EndAlike(a, b, t.next);
    TokenLocal(y, a, a + b, st);
    AlikeHead(a, a + b);
    FirmKept(y, a, a + b);
    SkipLocal(lead, y + a, y + (a + b));
  }

  /** Blank text in front of a token belongs to neither. */
  lemma BlankBefore(whole: Text, x: Text, b: Text, st: State, at: nat)
    requires Comes(whole, x + b, st, at) && Skip(x) == Took(|x|, ()) && b != [] && Hard(b[0])
    ensures Comes(whole, b, st, at + |x|)
  {
    hide Scan, Tokenize, Skip, RefsOf, Continues;
    var refs := Scan(whole).refs;
    var room :| Tokenize(x + b, st, room).Pieces? && Continues(refs, RefsOf(x + b, st, room, at), at);
    BlankSkips(x, b);
    BlankRefs(x, b, st, room, at);
    ContinuesOn(refs, RefsOf(x + b, st, room, at), RefsOf(b, st, room, at + |x|), at, at + |x|);
  }

  lemma BlankSkips(x: Text, b: Text)
    requires Skip(x) == Took(|x|, ()) && b != [] && Hard(b[0])
    ensures Skip(x + b) == Took(|x|, ()) && Skip(b) == Took(0, ())
  {
    assert x + [] == x;
    SkipFirm(b);
    hide Skip;
    SkipLocal(x, [], b);
  }

  lemma BlankRefs(x: Text, b: Text, st: State, room: nat, at: nat)
    requires b != [] && Skip(x + b) == Took(|x|, ()) && Skip(b) == Took(0, ()) && Tokenize(x + b, st, room).Pieces?
    ensures Tokenize(b, st, room).Pieces? && RefsOf(b, st, room, at + |x|) == RefsOf(x + b, st, room, at)
  {
    hide *;
    var t, ps := BlankPieces(x, b, st, room);
    RefsAre(x + b, st, room, at);
    RefsAre(b, st, room, at + |x|);
    ReferencesMore(Piece(x, b[..t.len], t.found, t.stop), ps, at);
    ReferencesMore(Piece([], b[..t.len], t.found, t.stop), ps, at + |x|);
  }

  lemma BlankPieces(x: Text, b: Text, st: State, room: nat) returns (t: Token, ps: seq<Piece>)
    requires b != [] && Skip(x + b) == Took(|x|, ()) && Skip(b) == Took(0, ()) && Tokenize(x + b, st, room).Pieces?
    ensures t.Tok? && t.len <= |b|
    ensures Tokenize(x + b, st, room) == Pieces([Piece(x, b[..t.len], t.found, t.stop)] + ps)
    ensures Tokenize(b, st, room) == Pieces([Piece([], b[..t.len], t.found, t.stop)] + ps)
  {
    hide Tokenize, Skip, TokenAt;
    assert (x + b)[|x|..] == b && (x + b)[..|x|] == x && b[0..] == b && b[..0] == [];
    TokenizeStep(x + b, st, room, |x|);
    t := TokenAt(b, st);
    TokenizeMore(b, st, room, 0, t);
    ps := Tokenize(b[t.len..], t.next, Room(t, room)).pieces;
  }

  // ---------------------------------------------------------------- texts that open and close nothing

  /** Without braces and at signs. */
  predicate Flat(x: Text) { forall i :: 0 <= i < |x| ==> x[i] != 123 && x[i] != 125 && x[i] != AT }

  /** A text that scans as a sheet of its own. */
  predicate Reads(x: Text) { Scan(x).Refs? }

  /** Some declarations or none, each with its semicolon. */
  predicate Declarations(d: Text) {
    Flat(d) && (d != [] ==> d[|d| - 1] == SEMICOLON && Reads(d[..|d| - 1]))
  }

  /** The beginning of a value, up to a comma, or none. */
  predicate Values(e: Text) {
    Flat(e) && SEMICOLON !in e && (e != [] ==> e[|e| - 1] == 44 && Reads(e[..|e| - 1]))
  }

  predicate Spacing(w: Text) { forall i :: 0 <= i < |w| ==> Whitespace(w[i]) }

  lemma {:induction false} PiecesRead(x: Text, st: State, room: nat)
    requires Tokenize(x, st, room).Pieces?
    ensures Final(x, st).Some? && Final(x, st).value.functions == []
    decreases |x|
  {
    hide TokenAt, Skip;
    if Skip(x).len < |x| {
      var t := TokenAt(x[Skip(x).len..], st);
      PiecesRead(x[Skip(x).len..][t.len..], t.next, if t.found.Some? then room - 1 else room);
    }
  }

  /** Read alike: the same length, and the same parentheses after it. */
  predicate Twins(a: Token, b: Token) { a.Tok? ==> b.Tok? && b.len == a.len && b.next.functions == a.next.functions }

  lemma SameAfterName(value: Text, after: Text, s: State, t: State)
    requires s.functions == t.functions && (AfterName(value, after, s) == Tok(0, s, None, false) ==> Skip(after).Took?)
    ensures Twins(AfterName(value, after, s), AfterName(value, after, t))
  {
    hide Target, Skip;
  }

  lemma SameName(rest: Text, s: State, t: State)
    requires s.functions == t.functions
    requires NameToken(rest, s).Tok? && NameToken(rest, s).len <= |rest| && Skip(rest[NameToken(rest, s).len..]).Took?
    ensures Twins(NameToken(rest, s), NameToken(rest, t))
  {
    var w := Word(rest);
    SameAfterName(Lower(w.value), rest[w.len..], s, t);
    hide Word, Lower, AfterName;
  }

  lemma SameString(rest: Text, s: State, t: State)
    requires s.functions == t.functions && rest != [] && QuoteUnit(rest[0])
    ensures Twins(StringToken(rest, s), StringToken(rest, t))
  {
    hide String;
  }

  lemma SameAt(rest: Text, s: State, t: State)
    requires s.functions == t.functions && rest != []
    ensures Twins(AtToken(rest, s), AtToken(rest, t))
  {
    hide Word, Lower;
  }

  /** How far a token goes does not depend on where it stands. */
  lemma SameToken(rest: Text, s: State, t: State)
    requires rest != [] && s.functions == t.functions
    requires TokenAt(rest, s).Tok? && Skip(rest[TokenAt(rest, s).len..]).Took?
    ensures Twins(TokenAt(rest, s), TokenAt(rest, t))
  {
    SameAt(rest, s, t);
    if QuoteUnit(rest[0]) {
      SameString(rest, s, t);
    } else if rest[0] != AT && NameUnit(rest[0]) {
      SameName(rest, s, t);
    }
    hide NameToken, AtToken, StringToken;
  }

  lemma {:induction false} SameReading(x: Text, s: State, t: State)
    requires s.functions == t.functions && Final(x, s).Some?
    ensures Final(x, t).Some? && Final(x, t).value.functions == Final(x, s).value.functions
    decreases |x|
  {
    hide TokenAt, Skip;
    if Skip(x).len < |x| {
      var body := x[Skip(x).len..];
      SameToken(body, s, t);
      SameReading(body[TokenAt(body, s).len..], TokenAt(body, s).next, TokenAt(body, t).next);
    }
  }

  /** A text that reads by itself reads anywhere outside parentheses. */
  lemma ReadsAnywhere(x: Text, st: State)
    requires Reads(x) && st.functions == []
    ensures Final(x, st).Some? && Final(x, st).value.functions == []
  {
    PiecesRead(x, START, MOST_REFERENCES);
    SameReading(x, START, st);
  }

  /** What a text without braces and at signs leaves as it was. */
  predicate Kept(s: State, t: State) {
    t.blocks == s.blocks && (s.prelude == [] ==> t.prelude == []) && (!s.pendingFont ==> !t.pendingFont)
  }

  /** And what one without semicolons leaves as it was. */
  predicate KeptWithin(s: State, t: State) {
    t.prelude == s.prelude && t.pendingFont == s.pendingFont && (!s.importTarget ==> !t.importTarget)
    && (!s.declarationStart ==> !t.declarationStart && t.property == s.property)
  }

  lemma FlatToken(rest: Text, st: State)
    requires rest != [] && rest[0] != 123 && rest[0] != 125 && rest[0] != AT && TokenAt(rest, st).Tok?
    ensures Kept(st, TokenAt(rest, st).next) && (rest[0] != SEMICOLON ==> KeptWithin(st, TokenAt(rest, st).next))
  {
    hide Word, Target, String, Skip;
  }

  lemma KeptOn(s: State, t: State, u: State)
    requires Kept(s, t) && Kept(t, u)
    ensures Kept(s, u) && (KeptWithin(s, t) && KeptWithin(t, u) ==> KeptWithin(s, u))
  {
  }

  lemma {:induction false} FlatKeeps(x: Text, st: State)
    requires Flat(x) && Final(x, st).Some?
    ensures Kept(st, Final(x, st).value) && (SEMICOLON !in x ==> KeptWithin(st, Final(x, st).value))
    decreases |x|
  {
    FinalSkips(x, st);
    hide TokenAt, Skip, Kept, KeptWithin, Final;
    if Skip(x).len == |x| {
      FinalBlank(x, st);
      KeptItself(st);
    } else {
      var lead, y, a, t := FinalFirst(x, st);
      assert (y + a)[0] == x[|lead|];
      FlatToken(y + a, st);
      FlatRest(lead + y, a, x);
      FlatKeeps(a, t.next);
      KeptOn(st, t.next, Final(a, t.next).value);
    }
  }

  lemma FlatRest(front: Text, a: Text, x: Text)
    requires x == front + a && Flat(x)
    ensures Flat(a) && (SEMICOLON !in x ==> SEMICOLON !in a)
  {
    forall i | 0 <= i < |a| ensures a[i] == x[|front| + i] {
    }
  }

  lemma KeptItself(st: State)
    ensures Kept(st, st) && KeptWithin(st, st)
  {
  }

  // ---------------------------------------------------------------- single tokens

  /** A name without escapes. */
  predicate IsName(n: Text) { n != [] && forall i :: 0 <= i < |n| ==> NameUnit(n[i]) && n[i] != BACKSLASH }

  lemma {:induction false} NameReads(n: Text, rest: Text)
    requires forall i :: 0 <= i < |n| ==> NameUnit(n[i]) && n[i] != BACKSLASH
    requires rest == [] || !NameUnit(rest[0])
    ensures Word(n + rest) == Took(|n|, n)
    decreases |n|
  {
    if n == [] {
      assert n + rest == rest;
    } else {
      NameReads(n[1..], rest);
      assert n + rest == [n[0]] + (n[1..] + rest);
      assert [n[0]] + n[1..] == n;
      WordMore(n[0], n[1..] + rest, n[1..]);
    }
  }

  lemma AtName(n: Text, rest: Text, st: State)
    requires IsName(n) && (rest == [] || !NameUnit(rest[0])) && st.functions == []
    ensures TokenAt([AT] + n + rest, st)
      == Tok(1 + |n|, st.(prelude := Lower(n), importTarget := Lower(n) == IMPORT, pendingFont := Lower(n) == FONT_FACE),
             None, false)
  {
    NameReads(n, rest);
    assert ([AT] + n + rest)[1..] == n + rest;
    hide Word;
  }

  lemma PropertyName(n: Text, rest: Text, st: State)
    requires IsName(n) && st.functions == [] && st.declarationStart
    ensures TokenAt(n + ([COLON] + rest), st) == Tok(|n|, st.(property := Lower(n), declarationStart := false), None, false)
  {
    var after := [COLON] + rest;
    NameReads(n, after);
    assert (n + after)[|n|..] == after && (n + after)[0] == n[0];
    SkipFirm(after);
    hide Word, Skip;
  }

  lemma FunctionName(n: Text, rest: Text, st: State)
    requires IsName(n) && Lower(n) != URL
    ensures TokenAt(n + ([OPEN] + rest), st) == Tok(|n| + 1, st.(functions := st.functions + [Lower(n)]), None, false)
  {
    var after := [OPEN] + rest;
    NameReads(n, after);
    assert (n + after)[|n|..] == after && (n + after)[0] == n[0];
    hide Word, Skip, Target;
  }

  /** A url() with this target. */
  predicate IsUrl(x: Text, url: Text) {
    |x| >= 4 && Lower(x[..3]) == URL && BACKSLASH !in x[..3] && x[3] == OPEN && Target(x[4..]) == Took(|x| - 4, url)
  }

  /** A string with this value. */
  predicate IsString(x: Text, value: Text) { x != [] && QuoteUnit(x[0]) && String(x) == Took(|x|, value) }

  lemma UrlToken(x: Text, url: Text, rest: Text, st: State)
    requires IsUrl(x, url)
    ensures TokenAt(x + rest, st) == Tok(|x|, Taken(st, url).1, Taken(st, url).0, false)
  {
    hide *;
    var after := UrlParts(x, url, rest);
    NameReads(x[..3], after);
    UrlAfter(x, url, rest, after, st);
    NameTokenAfter(x + rest, st, URL, after);
    UrlIsName(x, url, rest, st);
  }

  lemma UrlParts(x: Text, url: Text, rest: Text) returns (after: Text)
    requires IsUrl(x, url)
    ensures x + rest == x[..3] + after && (x + rest)[3..] == after && after == [OPEN] + (x[4..] + rest)
    ensures |x| >= 4 && Lower(x[..3]) == URL && !NameUnit(after[0])
    ensures forall i :: 0 <= i < 3 ==> NameUnit(x[..3][i]) && x[..3][i] != BACKSLASH
  {
    UrlLetters(x[..3]);
    after := [OPEN] + (x[4..] + rest);
    assert x == x[..3] + ([OPEN] + x[4..]);
    Associates(x[..3], [OPEN] + x[4..], rest);
    Associates([OPEN], x[4..], rest);
  }

  lemma UrlAfter(x: Text, url: Text, rest: Text, after: Text, st: State)
    requires IsUrl(x, url) && after == [OPEN] + (x[4..] + rest)
    ensures AfterName(URL, after, st) == Tok(|x| - 3, Taken(st, url).1, Taken(st, url).0, false)
  {
    var y := x[4..];
    assert y + [] == y && after[1..] == y + rest;
    TargetLocal(y, [], rest);
    hide Target, Taken;
  }

  lemma UrlIsName(x: Text, url: Text, rest: Text, st: State)
    requires IsUrl(x, url)
    ensures TokenAt(x + rest, st) == NameToken(x + rest, st)
  {
    UrlLetters(x[..3]);
    assert (x + rest)[0] == x[..3][0];
    hide NameToken;
  }

  lemma UrlLetters(h: Text)
    requires |h| == 3 && Lower(h) == URL && BACKSLASH !in h
    ensures forall i :: 0 <= i < |h| ==> NameUnit(h[i]) && h[i] != BACKSLASH
  {
    forall i | 0 <= i < 3 ensures NameUnit(h[i]) && h[i] != BACKSLASH {
      assert LowerUnit(h[i]) == URL[i];
    }
  }

  lemma StringIs(x: Text, value: Text, rest: Text, st: State)
    requires IsString(x, value)
    ensures TokenAt(x + rest, st)
      == if Destination(st) == Some(Style) || InImageSet(st) then Tok(|x|, Taken(st, value).1, Taken(st, value).0, false)
         else Tok(|x|, st, None, false)
  {
    assert x + [] == x;
    StringLocal(x, [], rest);
    hide String, Taken;
  }

  lemma {:induction false} SpacingSkips(w: Text, z: Text)
    requires Spacing(w) && Firm(z)
    ensures Skip(w + z) == Took(|w|, ())
    decreases |w|
  {
    if w == [] {
      assert w + z == z;
      SkipFirm(z);
    } else {
      SpacingSkips(w[1..], z);
      assert (w + z)[1..] == w[1..] + z;
      SkipMore(w + z, 1, |w| - 1);
    }
  }

  // ---------------------------------------------------------------- the suffix of an import

  /** The text up to the semicolon that ends an import is its suffix, when nothing in it is another import. */
  lemma {:induction false} SuffixIs(q: Text, rest: Text, st: State, room: nat)
    requires Tokenize(q + ([SEMICOLON] + rest), st, room).Pieces? && Final(q, st).Some?
    requires Final(q, st).value.functions == [] && Flat(q) && SEMICOLON !in q && st.prelude != [] && !st.importTarget
    ensures Suffix(Tokenize(q + ([SEMICOLON] + rest), st, room).pieces) == Some(q)
    decreases |q|
  {
    hide *;
    var b := [SEMICOLON] + rest;
    FinalSkips(q, st);
    if Skip(q).len == |q| {
      FinalBlank(q, st);
      SuffixEnds(q, rest, st, room);
    } else {
      var lead, y, a, t := FinalFirst(q, st);
      HardSemicolon(rest);
      TokenBefore(lead, y, a, b, st, t);
      Regroup(lead, y, a, b);
      LeadingIs(lead, y, a + b, st, t);
      FirstPieceIs(lead + (y + (a + b)), lead, y, a + b, st, room, t);
      FlatFirst(lead, y, a, q);
      FlatToken(y + a, st);
      StaysClosed(y + a, st, t);
      FlatRest(lead + y, a, q);
      Associates(lead, y, a);
      SuffixIs(a, rest, t.next, Room(t, room));
      SuffixMore(Piece(lead, y, t.found, t.stop), Tokenize(a + b, t.next, Room(t, room)).pieces, a);
    }
  }

  lemma HardSemicolon(rest: Text)
    ensures [SEMICOLON] + rest != [] && Hard(([SEMICOLON] + rest)[0])
  {
  }

  lemma FlatFirst(lead: Text, y: Text, a: Text, q: Text)
    requires q == lead + (y + a) && y != [] && Flat(q) && SEMICOLON !in q
    ensures var c := (y + a)[0]; c != 123 && c != 125 && c != AT && c != SEMICOLON
  {
    assert (y + a)[0] == q[|lead|];
  }

  lemma StaysClosed(rest: Text, st: State, t: Token)
    requires rest != [] && rest[0] != SEMICOLON && t == TokenAt(rest, st) && t.Tok? && KeptWithin(st, t.next)
    requires st.prelude != [] && !st.importTarget
    ensures t.next.prelude != [] && !t.next.importTarget && !t.stop && t.found.None?
  {
    hide Word, Target, String, Skip;
  }

  lemma SuffixMore(p: Piece, ps: seq<Piece>, more: Text)
    requires Suffix(ps) == Some(more) && p.found.None? && !p.stop
    ensures Suffix([p] + ps) == Some(p.lead + (p.token + more))
  {
    assert ([p] + ps)[1..] == ps;
    Associates(p.lead, p.token, more);
  }

  lemma SuffixEnds(q: Text, rest: Text, st: State, room: nat)
    requires Tokenize(q + ([SEMICOLON] + rest), st, room).Pieces? && Skip(q) == Took(|q|, ()) && st.functions == []
    ensures Suffix(Tokenize(q + ([SEMICOLON] + rest), st, room).pieces) == Some(q)
  {
    var b := [SEMICOLON] + rest;
    BlankSkips(q, b);
    var t, ps := BlankPieces(q, b, st, room);
    TokenizeStep(q + b, st, room, |q|);
    assert (q + b)[|q|..] == b && b[0] == SEMICOLON;
    assert TokenAt(b, st) == UnitToken(SEMICOLON, st);
    hide Tokenize, Skip, TokenAt;
    var p := Tokenize(q + b, st, room).pieces[0];
    assert p.lead == q && p.found.None? && p.stop;
  }

  /** A dependency is found at this place with this suffix. */
  ghost predicate FindsWith(whole: Text, start: nat, end: nat, f: Found, suffix: Text) {
    Scan(whole).Refs? && exists i :: 0 <= i < |Scan(whole).refs| && IsAt(Scan(whole).refs[i], start, end, f)
                                     && Scan(whole).refs[i].qualifiers == Some(suffix)
  }

  /** An import's target with the text up to the semicolon. */
  lemma ImportWith(whole: Text, lead: Text, x: Text, a: Text, q: Text, rest: Text, st: State, at: nat, t: Token)
    requires Comes(whole, lead + (x + a), st, at) && Leading(lead + (x + a), lead, x, a, st, t)
    requires a == q + ([SEMICOLON] + rest) && t.Tok? && t.found.Some?
    requires t.found.value.kind == Style && t.next.prelude != [] && !t.next.importTarget && t.next.functions == []
    requires Reads(q) && Flat(q) && SEMICOLON !in q
    ensures FindsWith(whole, at + |lead|, at + |lead| + |x|, t.found.value, Trim(q))
  {
    hide *;
    var room := RoomAt(whole, lead + (x + a), st, at);
    FirstRef(lead + (x + a), lead, x, a, st, room, t, at);
    ReadsAnywhere(q, t.next);
    SuffixIs(q, rest, t.next, Room(t, room));
    var all := RefsOf(lead + (x + a), st, room, at);
    QualifiedBy(Tokenize(a, t.next, Room(t, room)).pieces, q);
    FirstWith(all, RefsOf(a, t.next, Room(t, room), at + |lead| + |x|), t.found, at + |lead|, at + |lead| + |x|, Trim(q));
    FoundWith(whole, all, at, at + |lead|, at + |lead| + |x|, t.found.value, Trim(q));
  }

  lemma FirstWith(all: seq<Reference>, more: seq<Reference>, found: Option<Found>, start: nat, end: nat, suffix: Text)
    requires FirstIn(all, more, found, start, end, Some(suffix)) && found.Some? && found.value.kind == Style
    ensures all != [] && IsAt(all[0], start, end, found.value) && all[0].qualifiers == Some(suffix)
  {
  }

  lemma QualifiedBy(ps: seq<Piece>, q: Text)
    requires Suffix(ps) == Some(q)
    ensures Qualifiers(ps) == Some(Trim(q))
  {
    hide Suffix, Trim;
  }

  lemma FoundWith(whole: Text, all: seq<Reference>, at: nat, start: nat, end: nat, f: Found, suffix: Text)
    requires Scan(whole).Refs? && Continues(Scan(whole).refs, all, at) && all != [] && IsAt(all[0], start, end, f)
    requires all[0].qualifiers == Some(suffix)
    ensures FindsWith(whole, start, end, f, suffix)
  {
    hide Scan;
    var refs := Scan(whole).refs;
    var n: nat :| n <= |refs| && refs[n..] == all && forall i :: 0 <= i < n ==> refs[i].end <= at;
    assert refs[n] == all[0];
  }
}
