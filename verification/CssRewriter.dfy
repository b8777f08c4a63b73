/** The style branch of runtime/frontend-rewriter.ts: which dependencies are replaced, and what a scan of the
    rewritten sheet finds. */
module CssRewriter {
  import opened Collections
  import opened CssTokens
  import opened CssScanner
  import opened CssRewriting

  /** The loader's answer for a URL and its destination: the replacement, or a refusal. */
  type Loader = (Text, Kind) -> Option<Text>

  predicate LeftAlone(url: Text) { url == [] || url[0] == 35 }

  predicate IdentStart(c: Unit) { c == 45 || c == 95 || Letter(c) }

  /** Names joined by dots; `start` is whether a name must start here. */
  predicate Dotted(t: Text, start: bool) {
    if t == [] then !start
    else if start then IdentStart(t[0]) && Dotted(t[1..], false)
    else if t[0] == 46 then Dotted(t[1..], true)
    else (IdentStart(t[0]) || Digit(t[0])) && Dotted(t[1..], false)
  }

  predicate SameLetter(c: Unit, lower: Unit) { c == lower || c + 32 == lower }

  /** layer, or layer(name.name), in any case: the only import suffix the rewriter accepts. */
  predicate Layered(t: Text) {
    |t| >= 5 && SameLetter(t[0], 108) && SameLetter(t[1], 97) && SameLetter(t[2], 121) && SameLetter(t[3], 101)
    && SameLetter(t[4], 114)
    && (|t| == 5 || (|t| >= 7 && t[5] == OPEN && t[|t| - 1] == CLOSE && Dotted(Trim(t[6..|t| - 1]), true)))
  }

  predicate Conditional(r: Reference) {
    r.kind == Style && r.qualifiers.Some? && r.qualifiers.value != [] && !Layered(r.qualifiers.value)
  }

  /** The reference needs no loader, or has an answer and no condition the rewriter must evaluate. */
  predicate Accepted(r: Reference, loader: Loader) {
    LeftAlone(r.url) || (!Conditional(r) && loader(r.url, r.kind).Some?)
  }

  function Replacement(p: Piece, loader: Loader): Option<Text> {
    if p.found.None? || LeftAlone(p.found.value.url) then None
    else loader(p.found.value.url, p.found.value.kind)
  }

  function Plan(ps: seq<Piece>, loader: Loader): (plan: seq<Option<Text>>)
    ensures |plan| == |ps|
  {
    if ps == [] then [] else [Replacement(ps[0], loader)] + Plan(ps[1..], loader)
  }

  function RewrittenPieces(ps: seq<Piece>, loader: Loader): seq<Piece> {
    EditedAll(ps, Plan(ps, loader))
  }

  /** The rewritten sheet, or none when a reference is refused. */
  function Rewrite(source: Text, loader: Loader): Option<Text> {
    var s := Scan(source);
    if !s.Refs? || exists i :: 0 <= i < |s.refs| && !Accepted(s.refs[i], loader) then None
    else Some(Join(RewrittenPieces(Tokenize(source, START, MOST_REFERENCES).pieces, loader)))
  }

  // ---------------------------------------------------------------- positions

  predicate Ordered(refs: seq<Reference>, at: nat, n: nat) {
    if refs == [] then at <= n
    else at <= refs[0].start <= refs[0].end && Ordered(refs[1..], refs[0].end, n)
  }

  lemma OrderedFits(refs: seq<Reference>, at: nat, n: nat)
    requires Ordered(refs, at, n)
    ensures at <= n
  {
    if refs != [] {
      OrderedFits(refs[1..], refs[0].end, n);
    }
  }

  /** The text before, between and after the references. */
  function Gaps(source: Text, refs: seq<Reference>, at: nat): seq<Text>
    requires Ordered(refs, at, |source|)
  {
    OrderedFits(refs, at, |source|);
    if refs == [] then [source[at..]]
    else
      OrderedFits(refs[1..], refs[0].end, |source|);
      [source[at..refs[0].start]] + Gaps(source, refs[1..], refs[0].end)
  }

  predicate WellFormed(ps: seq<Piece>) {
    forall i :: 0 <= i < |ps| ==> (ps[i].found.Some? ==> ps[i].token != [] && !ps[i].stop)
  }

  lemma {:induction false} ReferencesOrdered(ps: seq<Piece>, at: nat, from: nat)
    requires from <= at
    ensures Ordered(References(ps, at), from, at + |Join(ps)|)
    decreases |ps|
  {
    if ps != [] {
      var start := at + |ps[0].lead|;
      var end := start + |ps[0].token|;
      ReferencesOrdered(ps[1..], end, end);
      ReferencesOrdered(ps[1..], end, from);
      var more := References(ps[1..], end);
      assert ps[0].found.Some? ==> References(ps, at)[1..] == more;
    }
  }

  lemma GapsPiece(source: Text, ps: seq<Piece>, at: nat, from: nat)
    requires ps != [] && from <= at <= |source| && source[at..] == Join(ps) && ps[0].found.Some?
    ensures Ordered(References(ps, at), from, |source|)
    ensures var start := at + |ps[0].lead|;
      var end := start + |ps[0].token|;
      end <= |source| && source[end..] == Join(ps[1..]) && Ordered(References(ps[1..], end), end, |source|)
      && Gaps(source, References(ps, at), from)
         == [source[from..at] + ps[0].lead] + Gaps(source, References(ps[1..], end), end)
  {
    var start := at + |ps[0].lead|;
    var end := start + |ps[0].token|;
    JoinSlices(source, ps, at);
    ReferencesOrdered(ps, at, from);
    ReferencesOrdered(ps[1..], end, end);
    hide Join, Qualifiers;
    assert References(ps, at)[1..] == References(ps[1..], end);
    hide References;
    assert source[from..start] == source[from..at] + source[at..start];
  }

  lemma JoinSlices(source: Text, ps: seq<Piece>, at: nat)
    requires ps != [] && at <= |source| && source[at..] == Join(ps)
    ensures var start := at + |ps[0].lead|;
      var end := start + |ps[0].token|;
      end <= |source| && source[at..start] == ps[0].lead && source[start..end] == ps[0].token
      && source[end..] == Join(ps[1..]) && |source| == at + |Join(ps)|
  {
    var p := ps[0];
    var j := p.lead + p.token + Join(ps[1..]);
    assert source[at..] == j;
    assert j[..|p.lead|] == p.lead;
    assert j[|p.lead|..|p.lead| + |p.token|] == p.token;
    assert j[|p.lead| + |p.token|..] == Join(ps[1..]);
  }

  lemma RewrittenPiecesCons(ps: seq<Piece>, loader: Loader)
    requires ps != []
    ensures var q := Edited(ps[0], Replacement(ps[0], loader));
      RewrittenPieces(ps, loader) == [q] + RewrittenPieces(ps[1..], loader)
      && q.lead == ps[0].lead && q.stop == ps[0].stop && (q.found.Some? <==> ps[0].found.Some?)
      && (q.found.Some? ==> q.found.value.kind == ps[0].found.value.kind)
      && (q.found.None? ==> q == ps[0])
  {
    assert Plan(ps, loader)[1..] == Plan(ps[1..], loader);
  }

  lemma GapsNone(source: Text, at: nat, from: nat)
    requires from <= at <= |source| && source[at..] == []
    ensures Ordered(References([], at), from, |source|) && Gaps(source, References([], at), from) == [source[from..at]]
  {
    assert source[from..] == source[from..at] + source[at..] == source[from..at];
  }

  lemma ReferencesUnfound(ps: seq<Piece>, at: nat)
    requires ps != [] && ps[0].found.None?
    ensures References(ps, at) == References(ps[1..], at + |ps[0].lead| + |ps[0].token|)
  {
  }

  /** Nothing but the references' own text changes. */
  lemma {:induction false} GapsKept(ps: seq<Piece>, loader: Loader, source: Text, at: nat, from: nat,
                                    out: Text, at': nat, from': nat)
    requires from <= at <= |source| && source[at..] == Join(ps)
    requires from' <= at' <= |out| && out[at'..] == Join(RewrittenPieces(ps, loader))
    requires source[from..at] == out[from'..at']
    ensures Ordered(References(ps, at), from, |source|)
    ensures Ordered(References(RewrittenPieces(ps, loader), at'), from', |out|)
    ensures Gaps(out, References(RewrittenPieces(ps, loader), at'), from') == Gaps(source, References(ps, at), from)
    decreases |ps|
  {
    hide Ordered, Gaps, References, Join, Edited, Replacement;
    var qs := RewrittenPieces(ps, loader);
    if ps == [] {
      NoPieces();
      GapsNone(source, at, from);
      GapsNone(out, at', from');
    } else {
      RewrittenPiecesCons(ps, loader);
      assert qs[1..] == RewrittenPieces(ps[1..], loader);
      JoinSlices(source, ps, at);
      JoinSlices(out, qs, at');
      var end, end' := at + |ps[0].lead| + |ps[0].token|, at' + |qs[0].lead| + |qs[0].token|;
      if ps[0].found.Some? {
        GapsPiece(source, ps, at, from);
        GapsPiece(out, qs, at', from');
        assert source[end..end] == out[end'..end'];
        GapsKept(ps[1..], loader, source, end, end, out, end', end');
      } else {
        GapsUnfound(source, at, from, end, out, at', from', end', ps[0].lead, ps[0].token);
        ReferencesUnfound(ps, at);
        ReferencesUnfound(qs, at');
        GapsKept(ps[1..], loader, source, end, from, out, end', from');
      }
    }
  }

  lemma NoPieces()
    ensures Join([]) == []
  {
  }

  lemma GapsUnfound(source: Text, at: nat, from: nat, end: nat, out: Text, at': nat, from': nat, end': nat,
                    lead: Text, token: Text)
    requires from <= at <= end <= |source| && from' <= at' <= end' <= |out| && source[from..at] == out[from'..at']
    requires end == at + |lead| + |token| && source[at..at + |lead|] == lead && source[at + |lead|..end] == token
    requires end' == at' + |lead| + |token| && out[at'..at' + |lead|] == lead && out[at' + |lead|..end'] == token
    ensures source[from..end] == out[from'..end']
  {
    assert source[from..end] == source[from..at] + source[at..at + |lead|] + source[at + |lead|..end];
    assert out[from'..end'] == out[from'..at'] + out[at'..at' + |lead|] + out[at' + |lead|..end'];
  }

  // ---------------------------------------------------------------- URLs

  /** What a scan of the rewritten sheet reads where a reference was. */
  function SeenUrl(r: Reference, loader: Loader): Text {
    if LeftAlone(r.url) then r.url
    else var u := loader(r.url, r.kind); if u.None? then r.url else Mended(u.value)
  }

  lemma {:induction false} UrlsRewritten(ps: seq<Piece>, loader: Loader, at: nat, at': nat)
    requires WellFormed(ps)
    ensures var rs, rs' := References(ps, at), References(RewrittenPieces(ps, loader), at');
      |rs'| == |rs|
      && forall k :: 0 <= k < |rs| ==> rs'[k].kind == rs[k].kind && rs'[k].url == SeenUrl(rs[k], loader)
    decreases |ps|
  {
    if ps != [] {
      var qs := RewrittenPieces(ps, loader);
      RewrittenPiecesCons(ps, loader);
      assert qs[1..] == RewrittenPieces(ps[1..], loader);
      assert WellFormed(ps[1..]);
      var end, end' := at + |ps[0].lead| + |ps[0].token|, at' + |qs[0].lead| + |qs[0].token|;
      UrlsRewritten(ps[1..], loader, end, end');
      if ps[0].found.Some? {
        var rs, rs' := References(ps, at), References(qs, at');
        assert rs[1..] == References(ps[1..], end) && rs'[1..] == References(qs[1..], end');
        assert rs'[0].url == SeenUrl(rs[0], loader);
        forall k | 0 <= k < |rs|
          ensures rs'[k].kind == rs[k].kind && rs'[k].url == SeenUrl(rs[k], loader)
        {
          if k > 0 {
            assert rs[k] == rs[1..][k - 1] && rs'[k] == rs'[1..][k - 1];
          }
        }
      }
    }
  }

  // ---------------------------------------------------------------- import suffixes

  predicate EndsUrl(c: Unit) { c == 108 || c == 76 }

  /** Text no dependency can be written in: no quote, no escape, no l before a parenthesis. */
  predicate Plain(t: Text) {
    (forall i :: 0 <= i < |t| ==> !QuoteUnit(t[i]) && t[i] != BACKSLASH)
    && (forall i :: 0 < i < |t| && t[i] == OPEN ==> !EndsUrl(t[i - 1]))
  }

  lemma {:induction false} WordRaw(rest: Text)
    requires Word(rest).Took? && forall i :: 0 <= i < Word(rest).len ==> rest[i] != BACKSLASH
    ensures Word(rest).value == rest[..Word(rest).len]
    decreases |rest|
  {
    if rest != [] && NameUnit(rest[0]) {
      var n := Word(rest[1..]).len;
      assert rest[1..][..n] == rest[..1 + n][1..];
      WordRaw(rest[1..]);
      assert rest[..1 + n] == [rest[0]] + rest[1..][..n];
    }
  }

  /** The token of a dependency is not plain. */
  lemma FoundLoud(rest: Text, st: State)
    requires rest != [] && TokenAt(rest, st).Tok? && TokenAt(rest, st).found.Some?
    ensures !Plain(rest[..TokenAt(rest, st).len]) && !TokenAt(rest, st).stop
  {
    var token := rest[..TokenAt(rest, st).len];
    if QuoteUnit(rest[0]) {
      assert QuoteUnit(token[0]);
    } else {
      FoundIsUrl(rest, st);
      FoundWord(rest, st);
      var n := Word(rest).len;
      if BACKSLASH in rest[..n] {
        var i :| 0 <= i < n && rest[i] == BACKSLASH;
        assert token[i] == BACKSLASH;
      } else {
        WordRaw(rest);
        assert Lower(rest[..n]) == URL;
        assert LowerUnit(rest[2]) == Lower(rest[..n])[2] == 108;
        assert token[3] == OPEN && EndsUrl(token[2]);
      }
    }
  }

  lemma FoundWord(rest: Text, st: State)
    requires rest != [] && NameUnit(rest[0]) && TokenAt(rest, st).Tok? && TokenAt(rest, st).found.Some?
    requires !QuoteUnit(rest[0]) && rest[0] != AT
    ensures Word(rest).Took? && Lower(Word(rest).value) == URL
    ensures Word(rest).len < TokenAt(rest, st).len && rest[Word(rest).len] == OPEN
  {
    var w := Word(rest);
    assert rest[w.len..][0] == rest[w.len];
  }

  predicate Loud(ps: seq<Piece>) {
    forall i :: 0 <= i < |ps| && ps[i].found.Some? ==> !Plain(ps[i].token) && !ps[i].stop
  }

  lemma {:induction false} TokenizeLoud(rest: Text, st: State, room: nat)
    requires Tokenize(rest, st, room).Pieces?
    ensures Loud(Tokenize(rest, st, room).pieces) && WellFormed(Tokenize(rest, st, room).pieces)
    decreases |rest|
  {
    PiecesSkip(rest, st, room);
    hide Tokenize, TokenAt, Skip, Plain, Firm, Loud, WellFormed;
    if Skip(rest).len == |rest| {
      TokenizeEnd(rest, st, room);
      LoudEnd(rest);
    } else {
      var lead, x, a, t := FirstPiece(rest, st, room);
      TokenizeLoud(a, t.next, Room(t, room));
      if t.found.Some? {
        FoundLoud(x + a, st);
        assert (x + a)[..|x|] == x;
      }
      LoudCons(Piece(lead, x, t.found, t.stop), Tokenize(a, t.next, Room(t, room)).pieces);
    }
  }

  lemma LoudEnd(rest: Text)
    ensures Loud([Piece(rest, [], None, false)]) && WellFormed([Piece(rest, [], None, false)])
  {
  }

  lemma LoudCons(p: Piece, ps: seq<Piece>)
    requires Loud(ps) && WellFormed(ps) && (p.found.Some? ==> p.token != [] && !p.stop && !Plain(p.token))
    ensures Loud([p] + ps) && WellFormed([p] + ps)
  {
    hide Plain;
  }

  lemma PlainParts(a: Text, b: Text)
    requires Plain(a + b)
    ensures Plain(a) && Plain(b)
  {
    forall i | 0 <= i < |a|
      ensures !QuoteUnit(a[i]) && a[i] != BACKSLASH && (0 < i && a[i] == OPEN ==> !EndsUrl(a[i - 1]))
    {
      assert a[i] == (a + b)[i];
      assert 0 < i ==> a[i - 1] == (a + b)[i - 1];
    }
    forall i | 0 <= i < |b|
      ensures !QuoteUnit(b[i]) && b[i] != BACKSLASH && (0 < i && b[i] == OPEN ==> !EndsUrl(b[i - 1]))
    {
      assert b[i] == (a + b)[|a| + i];
      assert 0 < i ==> b[i - 1] == (a + b)[|a| + i - 1];
    }
  }

  /** Where the suffix of an import is plain it is not touched. */
  lemma {:induction false} SuffixKept(ps: seq<Piece>, loader: Loader)
    requires Loud(ps)
    ensures Suffix(RewrittenPieces(ps, loader)).Some? <==> Suffix(ps).Some?
    ensures Suffix(ps).Some? && Plain(Suffix(ps).value) ==> Suffix(RewrittenPieces(ps, loader)) == Suffix(ps)
    decreases |ps|
  {
    if ps != [] {
      var qs := RewrittenPieces(ps, loader);
      RewrittenPiecesCons(ps, loader);
      assert qs[1..] == RewrittenPieces(ps[1..], loader);
      assert Loud(ps[1..]);
      SuffixKept(ps[1..], loader);
      if !IsStyle(ps[0]) && !ps[0].stop && Suffix(ps).Some? && Plain(Suffix(ps).value) {
        PlainParts(ps[0].lead + ps[0].token, Suffix(ps[1..]).value);
        PlainParts(ps[0].lead, ps[0].token);
      }
    }
  }

  lemma {:induction false} TrimPlain(t: Text)
    requires Plain(Trim(t))
    ensures Plain(t)
    decreases |t|
  {
    if t != [] && TrimUnit(t[0]) {
      TrimPlain(t[1..]);
      forall i | 0 < i < |t|
        ensures !QuoteUnit(t[i]) && t[i] != BACKSLASH && (t[i] == OPEN ==> !EndsUrl(t[i - 1]))
      {
        assert t[i] == t[1..][i - 1];
        assert 1 < i ==> t[i - 1] == t[1..][i - 2];
      }
    } else if t != [] && TrimUnit(t[|t| - 1]) {
      var u := t[..|t| - 1];
      TrimPlain(u);
      forall i | 0 <= i < |t|
        ensures !QuoteUnit(t[i]) && t[i] != BACKSLASH && (0 < i && t[i] == OPEN ==> !EndsUrl(t[i - 1]))
      {
        assert i < |u| ==> t[i] == u[i];
        assert 0 < i ==> t[i - 1] == u[i - 1];
      }
    }
  }

  predicate NameOrDot(c: Unit) { IdentStart(c) || Digit(c) || c == 46 }

  predicate NamesAndDots(t: Text) { forall i :: 0 <= i < |t| ==> NameOrDot(t[i]) }

  lemma {:induction false} DottedUnits(t: Text, start: bool)
    requires Dotted(t, start)
    ensures NamesAndDots(t)
    decreases |t|
  {
    if t != [] {
      DottedUnits(t[1..], if start then false else t[0] == 46);
      forall i | 0 <= i < |t|
        ensures NameOrDot(t[i])
      {
        assert 0 < i ==> t[i] == t[1..][i - 1];
      }
    }
  }

  lemma {:induction false} TrimUnits(t: Text)
    requires NamesAndDots(Trim(t))
    ensures forall i :: 0 <= i < |t| ==> NameOrDot(t[i]) || TrimUnit(t[i])
    decreases |t|
  {
    if t != [] && TrimUnit(t[0]) {
      TrimUnits(t[1..]);
      forall i | 0 <= i < |t|
        ensures NameOrDot(t[i]) || TrimUnit(t[i])
      {
        assert 0 < i ==> t[i] == t[1..][i - 1];
      }
    } else if t != [] && TrimUnit(t[|t| - 1]) {
      TrimUnits(t[..|t| - 1]);
      forall i | 0 <= i < |t|
        ensures NameOrDot(t[i]) || TrimUnit(t[i])
      {
        assert i < |t| - 1 ==> t[i] == t[..|t| - 1][i];
      }
    }
  }

  lemma LayeredPlain(t: Text)
    requires Layered(t)
    ensures Plain(t)
  {
    if |t| > 5 {
      var inner := t[6..|t| - 1];
      DottedUnits(Trim(inner), true);
      TrimUnits(inner);
      forall i | 6 <= i < |t| - 1
        ensures NameOrDot(t[i]) || TrimUnit(t[i])
      {
        assert t[i] == inner[i - 6];
      }
    }
  }

  /** The imports whose suffix the rewriter accepts keep it. */
  lemma {:induction false} QualifiersKept(ps: seq<Piece>, loader: Loader, at: nat, at': nat)
    requires Loud(ps)
    ensures var rs, rs' := References(ps, at), References(RewrittenPieces(ps, loader), at');
      |rs'| == |rs| && forall k :: 0 <= k < |rs| && !Conditional(rs[k]) ==> rs'[k].qualifiers == rs[k].qualifiers
    decreases |ps|
  {
    if ps != [] {
      var qs := RewrittenPieces(ps, loader);
      RewrittenPiecesCons(ps, loader);
      assert qs[1..] == RewrittenPieces(ps[1..], loader);
      assert Loud(ps[1..]);
      var end, end' := at + |ps[0].lead| + |ps[0].token|, at' + |qs[0].lead| + |qs[0].token|;
      QualifiersKept(ps[1..], loader, end, end');
      if ps[0].found.Some? {
        var rs, rs' := References(ps, at), References(qs, at');
        assert rs[1..] == References(ps[1..], end) && rs'[1..] == References(qs[1..], end');
        QualifierKept(ps[1..], loader, ps[0].found.value.kind);
        forall k | 0 <= k < |rs| && !Conditional(rs[k])
          ensures rs'[k].qualifiers == rs[k].qualifiers
        {
          if k > 0 {
            assert rs[k] == rs[1..][k - 1] && rs'[k] == rs'[1..][k - 1];
          }
        }
      }
    }
  }

  lemma QualifierKept(ps: seq<Piece>, loader: Loader, kind: Kind)
    requires Loud(ps)
    ensures Qualifiers(ps).Some? && (Qualifiers(ps).value == [] || Layered(Qualifiers(ps).value))
      ==> Qualifiers(RewrittenPieces(ps, loader)) == Qualifiers(ps)
    ensures Qualifiers(ps).None? ==> Qualifiers(RewrittenPieces(ps, loader)).None?
  {
    SuffixKept(ps, loader);
    var q := Qualifiers(ps);
    if q.Some? && (q.value == [] || Layered(q.value)) {
      if q.value != [] {
        LayeredPlain(q.value);
      }
      TrimPlain(Suffix(ps).value);
    }
  }

  // ---------------------------------------------------------------- the rewritten sheet

  /** What must be true of a reference and the one a scan finds in its place. */
  predicate Kept(r: Reference, r': Reference, loader: Loader) {
    r'.kind == r.kind
    && (!Conditional(r) ==> r'.qualifiers == r.qualifiers)
    && if LeftAlone(r.url) then r'.url == r.url
       else loader(r.url, r.kind).Some? && (r'.url == loader(r.url, r.kind).value <==> 0 !in loader(r.url, r.kind).value)
  }

  /** Scanning a rewritten sheet finds the same dependencies: as many, in the same order, of the same kinds, with
      the same import suffixes, each with its replacement for URL exactly when that replacement is free of NUL, and
      with the text around them untouched. It fails only where the rewritten sheet has outgrown the scanner. */
  lemma RewriteKeepsDependencies(source: Text, loader: Loader)
    requires Rewrite(source, loader).Some?
    ensures var out := Rewrite(source, loader).value;
      (Scan(out).Refs? <==> |out| <= MOST_UNITS)
      && (|out| <= MOST_UNITS ==>
        var rs, rs' := Scan(source).refs, Scan(out).refs;
        |rs'| == |rs| && (forall k :: 0 <= k < |rs| ==> Kept(rs[k], rs'[k], loader))
        && Ordered(rs, 0, |source|) && Ordered(rs', 0, |out|) && Gaps(out, rs', 0) == Gaps(source, rs, 0))
  {
    var ps := Tokenize(source, START, MOST_REFERENCES).pieces;
    var qs := RewrittenPieces(ps, loader);
    var out := Join(qs);
    RewrittenTokens(source, START, MOST_REFERENCES, Plan(ps, loader));
    if |out| <= MOST_UNITS {
      TokenizeLoud(source, START, MOST_REFERENCES);
      TokenizeCovers(source, START, MOST_REFERENCES);
      assert source[0..] == source && out[0..] == out && source[0..0] == out[0..0];
      GapsKept(ps, loader, source, 0, 0, out, 0, 0);
      AllKept(ps, loader);
    }
  }

  lemma AllKept(ps: seq<Piece>, loader: Loader)
    requires Loud(ps) && WellFormed(ps)
    requires forall k :: 0 <= k < |References(ps, 0)| ==> Accepted(References(ps, 0)[k], loader)
    ensures var rs, rs' := References(ps, 0), References(RewrittenPieces(ps, loader), 0);
      |rs'| == |rs| && forall k :: 0 <= k < |rs| ==> Kept(rs[k], rs'[k], loader)
  {
    UrlsRewritten(ps, loader, 0, 0);
    QualifiersKept(ps, loader, 0, 0);
    var rs, rs' := References(ps, 0), References(RewrittenPieces(ps, loader), 0);
    forall k | 0 <= k < |rs|
      ensures Kept(rs[k], rs'[k], loader)
    {
      assert Accepted(rs[k], loader);
      if !LeftAlone(rs[k].url) {
        MendedSame(loader(rs[k].url, rs[k].kind).value);
      }
    }
  }
}
