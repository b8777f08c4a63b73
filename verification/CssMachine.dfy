/** The scanner and the rewriter as they run: an index moved over the source by nested readers, state updated token
    by token, edits spliced in from the back. */
module CssMachine {
  import opened Collections
  import opened CssTokens
  import opened CssScanner
  import opened CssRewriting
  import opened CssRewriter

  /** What remains of a reader that has already taken `len` units worth `value`. */
  function After(len: nat, value: Text, more: Read<Text>): Read<Text> {
    if more.Invalid? then Invalid else Took(len + more.len, value + more.value)
  }

  lemma AfterMore(len: nat, value: Text, head: Read<Text>, more: Read<Text>)
    requires head.Took?
    ensures After(len, value, After(head.len, head.value, more)) == After(len + head.len, value + head.value, more)
  {
    if more.Took? {
      assert value + (head.value + more.value) == value + head.value + more.value;
    }
  }

  lemma AfterNothing(more: Read<Text>)
    ensures After(0, [], more) == more
  {
    if more.Took? {
      assert [] + more.value == more.value;
    }
  }

  lemma AfterLast(len: nat, value: Text, last: nat)
    ensures After(len, value, Took(last, [])) == Took(len + last, value)
  {
    assert value + [] == value;
  }

  /** A reader that went from `from` to `to` returned what `r` says it takes. */
  predicate Agrees(r: Read<Text>, value: Option<Text>, from: nat, to: nat) {
    (r.Invalid? <==> value.None?) && (r.Took? ==> value == Some(r.value) && to == from + r.len)
  }

  /** What remains of a skip that has already passed `n` units. */
  function Past(n: nat, more: Read<()>): Read<()> {
    if more.Invalid? then Invalid else Took(n + more.len, ())
  }

  lemma SkipBlank(rest: Text)
    requires Blank(rest).Took? && Blank(rest).len > 0
    ensures Skip(rest) == Past(Blank(rest).len, Skip(rest[Blank(rest).len..]))
  {
  }

  lemma SkipStuck(rest: Text)
    ensures Blank(rest).Invalid? ==> Skip(rest).Invalid?
    ensures Blank(rest) == Took(0, ()) ==> Skip(rest) == Took(0, ())
  {
  }

  lemma {:induction false} SkipSpacesPast(rest: Text)
    ensures Skip(rest) == Past(Spaces(rest), Skip(rest[Spaces(rest)..]))
    decreases |rest|
  {
    if rest != [] && Whitespace(rest[0]) {
      SkipSpacesPast(rest[1..]);
      SkipBlank(rest);
      assert rest[1..][Spaces(rest[1..])..] == rest[Spaces(rest)..];
    } else {
      assert rest[0..] == rest;
    }
  }

  lemma TargetIs(rest: Text, n: nat)
    requires n == Spaces(rest)
    ensures n < |rest| && QuoteUnit(rest[n]) ==>
      Target(rest) == (var q := Quoted(rest[n..]); if q.Invalid? then Invalid else Took(n + q.len, q.value))
    ensures !(n < |rest| && QuoteUnit(rest[n])) ==>
      Target(rest) == (var q := Unquoted(rest[n..]); if q.Invalid? then Invalid else Took(n + q.len, q.value))
  {
  }

  /** An escape, or the unit itself. */
  function UnitOrEscape(rest: Text): (r: Read<Text>)
    requires rest != []
    ensures r.Took? ==> 1 <= r.len <= |rest|
  {
    if rest[0] == BACKSLASH then Escape(rest) else Took(1, [rest[0]])
  }

  lemma WordFirst(rest: Text)
    requires rest != [] && NameUnit(rest[0])
    ensures var head := UnitOrEscape(rest);
      Word(rest) == if head.Invalid? then Invalid else After(head.len, head.value, Word(rest[head.len..]))
  {
  }

  lemma WordLast(rest: Text)
    requires rest == [] || !NameUnit(rest[0])
    ensures Word(rest) == Took(0, [])
  {
  }

  lemma StringFirst(rest: Text, quote: Unit)
    requires rest != [] && QuoteUnit(quote)
    ensures rest[0] == quote ==> StringBody(rest, quote) == Took(1, [])
    ensures Newline(rest[0]) ==> StringBody(rest, quote).Invalid?
    ensures var head := StringPiece(rest);
      !Newline(rest[0]) && rest[0] != quote ==>
        StringBody(rest, quote)
        == if head.Invalid? then Invalid else After(head.len, head.value, StringBody(rest[head.len..], quote))
  {
  }

  lemma StringCut(quote: Unit)
    ensures StringBody([], quote).Invalid?
  {
  }

  lemma UnquotedFirst(rest: Text)
    requires rest != [] && rest[0] != CLOSE && !Whitespace(rest[0])
    ensures QuoteUnit(rest[0]) || rest[0] == OPEN || rest[0] < 32 ==> Unquoted(rest).Invalid?
    ensures var head := UnitOrEscape(rest);
      !(QuoteUnit(rest[0]) || rest[0] == OPEN || rest[0] < 32) ==>
        Unquoted(rest) == if head.Invalid? then Invalid else After(head.len, head.value, Unquoted(rest[head.len..]))
  {
  }

  /** At the end of an unquoted URL only whitespace may come before the closing parenthesis. */
  lemma UnquotedLast(rest: Text)
    requires rest == [] || rest[0] == CLOSE || Whitespace(rest[0])
    ensures var n := Spaces(rest);
      Unquoted(rest) == if n < |rest| && rest[n] == CLOSE then Took(n + 1, []) else Invalid
  {
  }

  lemma SkipFromHere(source: Text, at: nat)
    requires at <= |source|
    ensures Skip(source[at..]) == Past(0, Skip(source[at..]))
  {
  }

  lemma SkipSpacesFrom(source: Text, start: nat, at: nat)
    requires start <= at <= |source| && Skip(source[start..]) == Past(at - start, Skip(source[at..]))
    ensures var next := at + Spaces(source[at..]);
      Skip(source[start..]) == Past(next - start, Skip(source[next..]))
  {
    hide Skip, Spaces;
    SkipSpacesPast(source[at..]);
    SliceSlice(source, at, Spaces(source[at..]));
  }

  lemma SkipHere(source: Text, at: nat)
    requires at <= |source| && (at < |source| ==> !Whitespace(source[at]))
    requires !(at + 1 < |source| && source[at] == SLASH && source[at + 1] == STAR)
    ensures Skip(source[at..]) == Took(0, ())
  {
  }

  lemma SkipCommentFrom(source: Text, start: nat, at: nat, end: Read<()>)
    requires start <= at && at + 1 < |source| && source[at] == SLASH && source[at + 1] == STAR
    requires end == CommentEnd(source[at + 2..]) && Skip(source[start..]) == Past(at - start, Skip(source[at..]))
    ensures end.Invalid? ==> Skip(source[start..]).Invalid?
    ensures end.Took? ==> var next := at + end.len + 4;
      next <= |source| && Skip(source[start..]) == Past(next - start, Skip(source[next..]))
  {
    hide Skip, CommentEnd;
    var rest := source[at..];
    SliceSlice(source, at, 2);
    assert CommentStart(rest) && Blank(rest) == if end.Invalid? then Invalid else Took(end.len + 4, ());
    if end.Invalid? {
      SkipStuck(rest);
    } else {
      SkipBlank(rest);
      SliceSlice(source, at, end.len + 4);
    }
  }

  lemma QuotedBad(rest: Text)
    requires rest != [] && QuoteUnit(rest[0]) && String(rest).Invalid?
    ensures Quoted(rest).Invalid?
  {
  }

  lemma QuotedIs(rest: Text, n: nat, v: Text, k: Read<()>)
    requires rest != [] && QuoteUnit(rest[0]) && String(rest) == Took(n, v) && k == Skip(rest[n..])
    ensures Quoted(rest) == if k.Took? && n + k.len < |rest| && rest[n + k.len] == CLOSE
                            then Took(n + k.len + 1, v) else Invalid
  {
  }

  lemma SliceSlice(source: Text, i: nat, n: nat)
    requires i + n <= |source|
    ensures source[i..][n..] == source[i + n..]
  {
  }

  /** The text an import's suffix has so far, and the rest of it. */
  function Pending(source: Text, end: nat, i: nat, ps: seq<Piece>): Option<Text>
    requires end <= i <= |source|
  {
    var more := Suffix(ps);
    if more.None? then None else Some(Trim(source[end..i] + more.value))
  }

  /** The references found so far once the open import's suffix is known. */
  function Settled(source: Text, refs: seq<Reference>, open: Option<nat>, i: nat, ps: seq<Piece>): seq<Reference>
    requires open.Some? ==> open.value < |refs| && refs[open.value].end <= i <= |source|
  {
    if open.None? then refs
    else refs[open.value := refs[open.value].(qualifiers := Pending(source, refs[open.value].end, i, ps))]
  }

  /** The list of references and the open import after one more piece. */
  function Noted(source: Text, refs: seq<Reference>, open: Option<nat>, start: nat, end: nat, p: Piece)
    : (r: (seq<Reference>, Option<nat>))
    requires open.Some? ==> open.value < |refs| && refs[open.value].end <= start <= |source|
    ensures r.1.Some? && start <= end ==> r.1.value < |r.0| && r.0[r.1.value].end <= end
  {
    if p.found.Some? then
      var f := p.found.value;
      (refs + [Reference(start, end, f.url, f.kind, None)], if f.kind == Style then Some(|refs|) else open)
    else if p.stop then
      (if open.None? then refs
       else refs[open.value := refs[open.value].(qualifiers := Some(Trim(source[refs[open.value].end..start])))], None)
    else (refs, open)
  }

  predicate Unqualified(refs: seq<Reference>, open: Option<nat>) {
    open.Some? ==> open.value < |refs| && refs[open.value].qualifiers == None
  }

  /** Noting a piece keeps the references the whole sheet will have. */
  lemma NotedSettles(source: Text, refs: seq<Reference>, open: Option<nat>, i: nat, start: nat, end: nat,
                     p: Piece, ps: seq<Piece>)
    requires open.Some? ==> open.value < |refs| && refs[open.value].end <= i
    requires Unqualified(refs, open) && (p.found.Some? ==> !p.stop)
    requires i <= start <= end <= |source| && source[i..start] == p.lead && source[start..end] == p.token
    ensures var (refs', open') := Noted(source, refs, open, start, end, p);
      Unqualified(refs', open')
      && Settled(source, refs, open, i, [p] + ps) + References([p] + ps, i)
         == Settled(source, refs', open', end, ps) + References(ps, end)
  {
    assert ([p] + ps)[1..] == ps;
    var (refs', open') := Noted(source, refs, open, start, end, p);
    assert start == i + |p.lead| && end == start + |p.token|;
    if p.found.Some? {
      NotedFound(source, refs, open, i, start, end, p, ps);
    } else if open.Some? {
      var from := refs[open.value].end;
      assert source[from..start] == source[from..i] + p.lead;
      assert source[from..end] == source[from..start] + p.token;
      var more := Suffix(ps);
      if !p.stop && more.Some? {
        assert source[from..end] + more.value == source[from..i] + (p.lead + p.token + more.value);
      }
    }
  }

  lemma NotedFound(source: Text, refs: seq<Reference>, open: Option<nat>, i: nat, start: nat, end: nat,
                   p: Piece, ps: seq<Piece>)
    requires open.Some? ==> open.value < |refs| && refs[open.value].end <= i
    requires Unqualified(refs, open) && p.found.Some? && !p.stop
    requires i <= start <= end <= |source| && source[i..start] == p.lead && source[start..end] == p.token
    ensures var (refs', open') := Noted(source, refs, open, start, end, p);
      Settled(source, refs, open, i, [p] + ps) + References([p] + ps, i)
         == Settled(source, refs', open', end, ps) + References(ps, end)
  {
    assert ([p] + ps)[1..] == ps;
    var f := p.found.value;
    var r := Reference(start, end, f.url, f.kind, None);
    var more := References(ps, end);
    assert start == i + |p.lead| && end == start + |p.token|;
    if f.kind == Style {
      assert source[end..end] == [];
      assert Suffix(ps).Some? ==> source[end..end] + Suffix(ps).value == Suffix(ps).value;
      assert Pending(source, end, end, ps) == Qualifiers(ps);
      var q := r.(qualifiers := Qualifiers(ps));
      assert References([p] + ps, i) == [q] + more;
      assert (refs + [r])[|refs| := q] == refs + [q];
      if open.Some? {
        assert refs[open.value := refs[open.value].(qualifiers := None)] == refs;
      }
      assert refs + ([q] + more) == refs + [q] + more;
    } else {
      assert References([p] + ps, i) == [r] + more;
      if open.Some? {
        var from := refs[open.value].end;
        SuffixPast(source, from, i, start, end, p, ps);
        var q := refs[open.value].(qualifiers := Pending(source, from, end, ps));
        assert (refs + [r])[open.value] == refs[open.value];
        assert (refs + [r])[open.value := q] == refs[open.value := q] + [r];
        assert refs[open.value := q] + ([r] + more) == refs[open.value := q] + [r] + more;
      } else {
        assert refs + ([r] + more) == refs + [r] + more;
      }
    }
  }

  lemma SuffixPast(source: Text, from: nat, i: nat, start: nat, end: nat, p: Piece, ps: seq<Piece>)
    requires from <= i <= start <= end <= |source| && source[i..start] == p.lead && source[start..end] == p.token
    requires !IsStyle(p) && !p.stop
    ensures Pending(source, from, i, [p] + ps) == Pending(source, from, end, ps)
  {
    assert ([p] + ps)[1..] == ps;
    var more := Suffix(ps);
    if more.Some? {
      assert source[from..end] == source[from..i] + p.lead + p.token;
      assert source[from..end] + more.value == source[from..i] + (p.lead + p.token + more.value);
    }
  }

  /** Where only blanks are left, the sheet ends as if they had been read. */
  lemma BlankEnd(source: Text, i: nat, st: State, room: nat, refs: seq<Reference>, open: Option<nat>)
    requires i <= |source| && Skip(source[i..]) == Took(|source| - i, ())
    requires open.Some? ==> open.value < |refs| && refs[open.value].end <= i
    ensures Tokenize(source[i..], st, room).Pieces? <==> st.functions == []
    ensures !Tokenize(source[i..], st, room).Pieces? ==> Tokenize(source[i..], st, room) == Malformed
    ensures st.functions == [] ==>
      var ps := Tokenize(source[i..], st, room).pieces;
      References(ps, i) == []
      && Settled(source, refs, open, i, ps)
         == if open.None? then refs
            else refs[open.value := refs[open.value].(qualifiers := Some(Trim(source[refs[open.value].end..])))]
  {
    if st.functions == [] {
      TokenizeEnd(source[i..], st, room);
      var p := Piece(source[i..], [], None, false);
      assert [p][1..] == [];
      if open.Some? {
        var from := refs[open.value].end;
        assert source[from..] == source[from..i] + source[i..];
        assert Suffix([]) == Some([]) && !IsStyle(p);
        assert Suffix([p]) == Some(source[i..] + [] + []) && source[i..] + [] + [] == source[i..];
      }
    }
  }

  /** The sheet read so far, seen from position `i`. */
  ghost predicate Reading(source: Text, i: nat, st: State, refs: seq<Reference>, open: Option<nat>)
  {
    i <= |source| && |refs| <= MOST_REFERENCES && Unqualified(refs, open)
    && (open.Some? ==> refs[open.value].end <= i)
    && var whole := Tokenize(source, START, MOST_REFERENCES);
      var left := Tokenize(source[i..], st, MOST_REFERENCES - |refs|);
      if left.Pieces?
      then whole.Pieces? && References(whole.pieces, 0) == Settled(source, refs, open, i, left.pieces)
                                                           + References(left.pieces, i)
      else whole == left
  }

  lemma TokenizeStops(rest: Text, st: State, room: nat, k: nat)
    requires Skip(rest) == Took(k, ()) && k < |rest|
    ensures var t := TokenAt(rest[k..], st);
      (t.Bad? ==> Tokenize(rest, st, room) == Malformed)
      && (t.Tok? && t.found.Some? && room == 0 ==> Tokenize(rest, st, room) == TooMany)
      && (t.Tok? && (t.found.Some? ==> room > 0) ==>
          var more := Tokenize(rest[k..][t.len..], t.next, Room(t, room));
          if more.Pieces? then Tokenize(rest, st, room).Pieces? else Tokenize(rest, st, room) == more)
  {
  }

  /** One token keeps the reading. */
  lemma ReadingStep(source: Text, i: nat, k: nat, st: State, refs: seq<Reference>, open: Option<nat>, t: Token)
    requires Reading(source, i, st, refs, open) && Skip(source[i..]) == Took(k, ()) && i + k < |source|
    requires t == TokenAt(source[i + k..], st) && t.Tok? && (t.found.Some? ==> |refs| < MOST_REFERENCES)
    ensures var start := i + k;
      var (refs', open') := Noted(source, refs, open, start, start + t.len, Piece([], [], t.found, t.stop));
      Reading(source, start + t.len, t.next, refs', open')
  {
    hide TokenAt, Skip, Tokenize, References, Settled;
    var rest, start, room := source[i..], i + k, MOST_REFERENCES - |refs|;
    var end := start + t.len;
    SliceSlice(source, i, k);
    SliceSlice(source, start, t.len);
    TokenizeStops(rest, st, room, k);
    var (refs', open') := Noted(source, refs, open, start, end, Piece([], [], t.found, t.stop));
    var more := Tokenize(source[end..], t.next, MOST_REFERENCES - |refs'|);
    assert MOST_REFERENCES - |refs'| == Room(t, room);
    var p := Piece(rest[..k], rest[k..][..t.len], t.found, t.stop);
    assert Noted(source, refs, open, start, end, p) == (refs', open');
    if t.found.Some? {
      FoundLoud(source[start..], st);
    }
    assert Unqualified(refs', open');
    if more.Pieces? {
      TokenizeStep(rest, st, room, k);
      assert source[i..start] == p.lead && source[start..end] == p.token;
      NotedSettles(source, refs, open, i, start, end, p, more.pieces);
    }
  }

  lemma NotedIs(source: Text, refs: seq<Reference>, open: Option<nat>, start: nat, end: nat, p: Piece)
    requires open.Some? ==> open.value < |refs| && refs[open.value].end <= start <= |source|
    ensures p.found.Some? ==>
      Noted(source, refs, open, start, end, p)
      == (refs + [Reference(start, end, p.found.value.url, p.found.value.kind, None)],
          if p.found.value.kind == Style then Some(|refs|) else open)
    ensures p.found.None? && p.stop && open.Some? ==>
      Noted(source, refs, open, start, end, p)
      == (refs[open.value := refs[open.value].(qualifiers := Some(Trim(source[refs[open.value].end..start])))], None)
    ensures p.found.None? && p.stop && open.None? ==> Noted(source, refs, open, start, end, p) == (refs, None)
    ensures p.found.None? && !p.stop ==> Noted(source, refs, open, start, end, p) == (refs, open)
  {
  }

  lemma ReadingStart(source: Text)
    ensures Reading(source, 0, START, [], None)
  {
    assert source[0..] == source;
    var whole := Tokenize(source, START, MOST_REFERENCES);
    if whole.Pieces? {
      assert Settled(source, [], None, 0, whole.pieces) + References(whole.pieces, 0) == References(whole.pieces, 0);
    }
  }

  /** What is left of a sheet decides what the whole of it is. */
  lemma ReadingMalformed(source: Text, i: nat, st: State, refs: seq<Reference>, open: Option<nat>)
    requires Reading(source, i, st, refs, open) && |source| <= MOST_UNITS
    ensures Skip(source[i..]).Invalid? ==> Scan(source) == NotSupported
    ensures Tokenize(source[i..], st, MOST_REFERENCES - |refs|).Malformed? ==> Scan(source) == NotSupported
    ensures Tokenize(source[i..], st, MOST_REFERENCES - |refs|).TooMany? ==> Scan(source) == OverLimit
  {
  }

  lemma ReadingBlank(source: Text, i: nat, st: State, refs: seq<Reference>, open: Option<nat>)
    requires Reading(source, i, st, refs, open) && Skip(source[i..]) == Took(|source| - i, ())
    ensures Reading(source, |source|, st, refs, open)
  {
    BlankEnd(source, i, st, MOST_REFERENCES - |refs|, refs, open);
    BlankEnd(source, |source|, st, MOST_REFERENCES - |refs|, refs, open);
  }

  lemma ReadingEnd(source: Text, st: State, refs: seq<Reference>, open: Option<nat>)
    requires Reading(source, |source|, st, refs, open) && |source| <= MOST_UNITS
    ensures st.functions != [] ==> Scan(source) == NotSupported
    ensures st.functions == [] ==> Scan(source) == Refs(if open.None? then refs
      else refs[open.value := refs[open.value].(qualifiers := Some(Trim(source[refs[open.value].end..])))])
  {
    BlankEnd(source, |source|, st, MOST_REFERENCES - |refs|, refs, open);
  }

  class StyleScanner {
    const source: Text
    var i: nat
    var prelude: Text
    var importTarget: bool
    var pendingFont: bool
    var property: Text
    var declarationStart: bool
    var blocks: seq<bool>
    var functions: seq<Text>
    var refs: seq<Reference>
    var importReference: Option<nat>

    constructor (source: Text)
      ensures this.source == source && i == 0 && St() == START && refs == [] && importReference == None
    {
      this.source := source;
      i, prelude, importTarget, pendingFont, property, declarationStart := 0, [], false, false, [], true;
      blocks, functions, refs, importReference := [], [], [], None;
    }

    function St(): State
      reads this
    {
      State(prelude, importTarget, pendingFont, property, declarationStart, blocks, functions)
    }

    method ReadHexDigits() returns (digits: Text)
      requires i < |source| && Hex(source[i])
      modifies this`i
      ensures i == old(i) + |digits| <= |source| && digits == source[old(i)..i]
      ensures |digits| == HexRun(source[old(i)..], 6)
      ensures forall k :: 0 <= k < |digits| ==> Hex(digits[k])
    {
      digits := [];
      ghost var start := i;
      while i < |source| && |digits| < 6 && Hex(source[i])
        invariant start <= i <= |source| && digits == source[start..i] && |digits| <= 6
        invariant forall k :: 0 <= k < |digits| ==> Hex(digits[k])
        invariant HexRun(source[start..], 6) == |digits| + HexRun(source[i..], 6 - |digits|)
      {
        SliceSlice(source, i, 1);
        digits := digits + [source[i]];
        i := i + 1;
      }
    }

    method SkipEscapeEnd()
      requires i <= |source|
      modifies this`i
      ensures i == old(i) + EscapeTail(source[old(i)..]) <= |source|
    {
      if i < |source| && Whitespace(source[i]) {
        if source[i] == 13 && i + 1 < |source| && source[i + 1] == 10 { i := i + 1; }
        i := i + 1;
      }
    }

    method ReadEscape() returns (value: Option<Text>)
      requires i < |source| && source[i] == BACKSLASH
      modifies this`i
      ensures Agrees(Escape(source[old(i)..]), value, old(i), i)
      ensures i <= |source|
    {
      ghost var rest := source[i..];
      i := i + 1;
      if i >= |source| { return None; }
      assert source[i] == rest[1] && source[i..] == rest[1..];
      if Hex(source[i]) {
        var digits := ReadHexDigits();
        assert rest[1..1 + |digits|] == digits;
        assert rest[1 + |digits|..] == source[i..];
        SkipEscapeEnd();
        return Some(FromCodePoint(HexNumber(digits, 0)));
      }
      if Newline(source[i]) { return None; }
      value := Some([source[i]]);
      i := i + 1;
    }

    /** One unit of an identifier or an unquoted URL. */
    method ReadUnit() returns (value: Option<Text>)
      requires i < |source|
      modifies this`i
      ensures Agrees(UnitOrEscape(source[old(i)..]), value, old(i), i)
      ensures i <= |source|
    {
      if source[i] == BACKSLASH {
        value := ReadEscape();
      } else {
        value := Some([source[i]]);
        i := i + 1;
      }
    }

    method ReadWord() returns (value: Option<Text>)
      requires i <= |source|
      modifies this`i
      ensures Agrees(Word(source[old(i)..]), value, old(i), i)
      ensures i <= |source|
    {
      hide Word, Escape, UnitOrEscape;
      var result: Text := [];
      ghost var start := i;
      AfterNothing(Word(source[i..]));
      while i < |source| && NameUnit(source[i])
        invariant start <= i <= |source|
        invariant Word(source[start..]) == After(i - start, result, Word(source[i..]))
        decreases |source| - i
      {
        ghost var head := UnitOrEscape(source[i..]);
        WordFirst(source[i..]);
        ghost var at := i;
        var unit := ReadUnit();
        if unit.None? { return None; }
        SliceSlice(source, at, head.len);
        AfterMore(at - start, result, head, Word(source[i..]));
        result := result + unit.value;
      }
      WordLast(source[i..]);
      AfterLast(i - start, result, 0);
      return Some(result);
    }

    /** One piece of a quoted string. */
    method ReadStringPiece() returns (value: Option<Text>)
      requires i < |source|
      modifies this`i
      ensures Agrees(StringPiece(source[old(i)..]), value, old(i), i)
      ensures i <= |source|
    {
      var c := source[i];
      if c == BACKSLASH && i + 1 < |source| && Newline(source[i + 1]) {
        i := i + 1;
        if source[i] == 13 && i + 1 < |source| && source[i + 1] == 10 { i := i + 1; }
        i := i + 1;
        return Some([]);
      }
      if c == 0 {
        i := i + 1;
        return Some([REPLACEMENT]);
      }
      value := ReadUnit();
    }

    method ReadString() returns (value: Option<Text>)
      requires i < |source| && QuoteUnit(source[i])
      modifies this`i
      ensures Agrees(String(source[old(i)..]), value, old(i), i)
      ensures i <= |source|
    {
      hide StringBody, StringPiece;
      var quote := source[i];
      SliceSlice(source, i, 1);
      i := i + 1;
      var result: Text := [];
      ghost var start, whole := i, StringBody(source[i..], quote);
      AfterNothing(whole);
      while i < |source|
        invariant start <= i <= |source| && whole == After(i - start, result, StringBody(source[i..], quote))
        decreases |source| - i
      {
        StringFirst(source[i..], quote);
        var c := source[i];
        if c == quote {
          AfterLast(i - start, result, 1);
          i := i + 1;
          return Some(result);
        }
        if Newline(c) { return None; }
        ghost var head := StringPiece(source[i..]);
        ghost var at := i;
        var piece := ReadStringPiece();
        if piece.None? { return None; }
        SliceSlice(source, at, head.len);
        AfterMore(at - start, result, head, StringBody(source[i..], quote));
        result := result + piece.value;
      }
      StringCut(quote);
      return None;
    }

    method SkipBlanks() returns (ok: bool)
      requires i <= |source|
      modifies this`i
      ensures ok <==> Skip(source[old(i)..]).Took?
      ensures ok ==> i == old(i) + Skip(source[old(i)..]).len
      ensures i <= |source|
    {
      hide Skip, Blank, CommentEnd, Spaces;
      ghost var start := i;
      SkipFromHere(source, i);
      while true
        invariant start <= i <= |source|
        invariant Skip(source[start..]) == Past(i - start, Skip(source[i..]))
        decreases |source| - i
      {
        SkipSpacesFrom(source, start, i);
        ghost var at := i;
        SkipSpaces();
        assert i < |source| ==> source[i] == source[at..][i - at];
        if !(i + 1 < |source| && source[i] == SLASH && source[i + 1] == STAR) {
          SkipHere(source, i);
          return true;
        }
        var end := CommentEnd(source[i + 2..]);
        SkipCommentFrom(source, start, i, end);
        if end.Invalid? { return false; }
        i := i + 2 + end.len + 2;
      }
    }

    method ReadUnquoted() returns (value: Option<Text>)
      requires i <= |source|
      modifies this`i
      ensures Agrees(Unquoted(source[old(i)..]), value, old(i), i)
      ensures i <= |source|
    {
      hide Unquoted, Escape, UnitOrEscape;
      var result: Text := [];
      ghost var start := i;
      AfterNothing(Unquoted(source[i..]));
      while i < |source| && source[i] != CLOSE && !Whitespace(source[i])
        invariant start <= i <= |source|
        invariant Unquoted(source[start..]) == After(i - start, result, Unquoted(source[i..]))
        decreases |source| - i
      {
        UnquotedFirst(source[i..]);
        if QuoteUnit(source[i]) || source[i] == OPEN || source[i] < 32 { return None; }
        ghost var head := UnitOrEscape(source[i..]);
        ghost var at := i;
        var unit := ReadUnit();
        if unit.None? { return None; }
        SliceSlice(source, at, head.len);
        AfterMore(at - start, result, head, Unquoted(source[i..]));
        result := result + unit.value;
      }
      UnquotedLast(source[i..]);
      ghost var at := i;
      SkipSpaces();
      if i >= |source| || source[i] != CLOSE { return None; }
      assert source[at..][i - at] == CLOSE;
      AfterLast(at - start, result, i + 1 - at);
      i := i + 1;
      return Some(result);
    }

    method SkipSpaces()
      requires i <= |source|
      modifies this`i
      ensures i == old(i) + Spaces(source[old(i)..]) <= |source|
    {
      ghost var start := i;
      while i < |source| && Whitespace(source[i])
        invariant start <= i <= |source| && Spaces(source[start..]) == i - start + Spaces(source[i..])
      {
        SliceSlice(source, i, 1);
        i := i + 1;
      }
    }

    method ReadTarget() returns (value: Option<Text>)
      requires i <= |source|
      modifies this`i
      ensures Agrees(Target(source[old(i)..]), value, old(i), i)
      ensures i <= |source|
    {
      hide Target, Quoted, Unquoted, Spaces;
      ghost var start := i;
      TargetIs(source[i..], Spaces(source[i..]));
      SkipSpaces();
      SliceSlice(source, start, i - start);
      if i < |source| && QuoteUnit(source[i]) {
        value := ReadQuoted();
      } else {
        value := ReadUnquoted();
      }
    }

    method ReadQuoted() returns (value: Option<Text>)
      requires i < |source| && QuoteUnit(source[i])
      modifies this`i
      ensures Agrees(Quoted(source[old(i)..]), value, old(i), i)
      ensures i <= |source|
    {
      hide Quoted, String, Skip;
      assert String(source[i..]).Invalid? ==> Quoted(source[i..]).Invalid? by {
        if String(source[i..]).Invalid? { QuotedBad(source[i..]); }
      }
      ghost var at := i;
      value := ReadString();
      if value.None? { return; }
      SliceSlice(source, at, i - at);
      QuotedIs(source[at..], i - at, value.value, Skip(source[i..]));
      var ok := SkipBlanks();
      if !ok || i >= |source| || source[i] != CLOSE { return None; }
      assert source[at..][i - at] == source[i];
      i := i + 1;
    }

    method ReadStringToken() returns (ok: bool, found: Option<Found>)
      requires i < |source| && QuoteUnit(source[i])
      modifies this`i, this`importTarget
      ensures ReadAs(StringToken(source[old(i)..], old(St())), ok, found, false, old(i)) && i <= |source|
    {
      hide String;
      var value := ReadString();
      if value.None? { return false, None; }
      ok, found := true, None;
      var destination := Destination(St());
      if destination == Some(Style) || (destination.Some? && InImageSet(St())) {
        found := Some(Found(value.value, destination.value));
        if destination == Some(Style) { importTarget := false; }
      }
    }

    /** The token just read is `t`. */
    ghost predicate ReadAs(t: Token, ok: bool, found: Option<Found>, stop: bool, from: nat)
      reads this
    {
      (ok <==> t.Tok?) && (t.Tok? ==> i == from + t.len && St() == t.next && found == t.found && stop == t.stop)
    }

    method ReadAtToken() returns (ok: bool)
      requires i < |source| && source[i] == AT
      modifies this`i, this`prelude, this`importTarget, this`pendingFont
      ensures ReadAs(AtToken(source[old(i)..], old(St())), ok, None, false, old(i)) && i <= |source|
    {
      hide Word;
      SliceSlice(source, i, 1);
      i := i + 1;
      var w := ReadWord();
      if w.None? { return false; }
      var value := Lower(w.value);
      if functions == [] {
        prelude := value;
        importTarget := value == IMPORT;
        pendingFont := value == FONT_FACE;
      }
      return true;
    }

    method ReadNameToken() returns (ok: bool, found: Option<Found>)
      requires i < |source| && NameUnit(source[i])
      modifies this`i, this`importTarget, this`functions, this`property, this`declarationStart
      ensures ReadAs(NameToken(source[old(i)..], old(St())), ok, found, false, old(i)) && i <= |source|
    {
      hide Word, AfterName;
      ghost var from := i;
      var w := ReadWord();
      if w.None? { return false, None; }
      SliceSlice(source, from, i - from);
      ok, found := ReadAfterName(Lower(w.value));
    }

    method ReadAfterName(value: Text) returns (ok: bool, found: Option<Found>)
      requires i <= |source|
      modifies this`i, this`importTarget, this`functions, this`property, this`declarationStart
      ensures ReadAs(AfterName(value, source[old(i)..], old(St())), ok, found, false, old(i)) && i <= |source|
    {
      hide Target, Skip;
      found := None;
      if i < |source| && source[i] == OPEN {
        SliceSlice(source, i, 1);
        i := i + 1;
        if value == URL {
          var target := ReadTarget();
          if target.None? { return false, None; }
          var destination := Destination(St());
          if destination.Some? {
            found := Some(Found(target.value, destination.value));
            if destination.value == Style { importTarget := false; }
          }
        } else {
          functions := functions + [value];
        }
      } else if declarationStart && functions == [] {
        var saved := i;
        ok := SkipBlanks();
        if !ok { return false, None; }
        if i < |source| && source[i] == COLON {
          property := value;
          declarationStart := false;
        }
        i := saved;
      }
      return true, found;
    }

    method ReadUnitToken() returns (stop: bool)
      requires i < |source|
      modifies this
      ensures ReadAs(UnitToken(source[old(i)], old(St())), true, None, stop, old(i))
      ensures i <= |source| && refs == old(refs) && importReference == old(importReference)
    {
      var c := source[i];
      i := i + 1;
      stop := false;
      if c == OPEN {
        functions := functions + [[]];
      } else if c == CLOSE {
        if functions != [] { functions := functions[..|functions| - 1]; }
      } else if functions == [] && c == 123 {
        blocks := blocks + [pendingFont];
        prelude := [];
        pendingFont := false;
        property := [];
        declarationStart := true;
      } else if functions == [] && c == 125 {
        blocks := if blocks == [] then [] else blocks[..|blocks| - 1];
        prelude := [];
        property := [];
        declarationStart := true;
      } else if functions == [] && c == SEMICOLON {
        stop := true;
        prelude := [];
        importTarget := false;
        pendingFont := false;
        property := [];
        declarationStart := true;
      }
    }

    method ReadToken() returns (ok: bool, found: Option<Found>, stop: bool)
      requires i < |source|
      modifies this
      ensures ReadAs(TokenAt(source[old(i)..], old(St())), ok, found, stop, old(i)) && i <= |source|
      ensures refs == old(refs) && importReference == old(importReference)
    {
      hide StringToken, AtToken, NameToken, UnitToken;
      found, stop := None, false;
      assert source[i..][0] == source[i];
      if QuoteUnit(source[i]) {
        ok, found := ReadStringToken();
      } else if source[i] == AT {
        ok := ReadAtToken();
      } else if NameUnit(source[i]) {
        ok, found := ReadNameToken();
      } else {
        ok := true;
        stop := ReadUnitToken();
      }
    }

    method ScanSheet() returns (r: Scanned)
      requires i == 0 && St() == START && refs == [] && importReference == None
      modifies this
      ensures r == Scan(source)
    {
      hide Tokenize, TokenAt, Skip, References, Settled, Noted;
      if |source| > MOST_UNITS { return NotSupported; }
      ReadingStart(source);
      while i < |source|
        invariant Reading(source, i, St(), refs, importReference) && |source| <= MOST_UNITS
        decreases |source| - i
      {
        ghost var from, before, found0, open0 := i, St(), refs, importReference;
        ReadingMalformed(source, i, before, found0, open0);
        TookUnit(Skip(source[i..]));
        var ok := SkipBlanks();
        if !ok { return NotSupported; }
        if i < |source| {
          var start := i;
          TokenizeStops(source[from..], before, MOST_REFERENCES - |found0|, start - from);
          SliceSlice(source, from, start - from);
          ghost var t := TokenAt(source[start..], before);
          var read, found, stop := ReadToken();
          if !read { return NotSupported; }
          if found.Some? && |refs| >= MOST_REFERENCES { return OverLimit; }
          ReadingStep(source, from, start - from, before, found0, open0, t);
          NotedIs(source, found0, open0, start, i, Piece([], [], found, stop));
          if found.Some? {
            var reference := Reference(start, i, found.value.url, found.value.kind, None);
            if found.value.kind == Style { importReference := Some(|refs|); }
            refs := refs + [reference];
          } else if stop {
            if importReference.Some? {
              var open := importReference.value;
              refs := refs[open := refs[open].(qualifiers := Some(Trim(source[refs[open].end..start])))];
            }
            importReference := None;
          }
        } else {
          ReadingBlank(source, from, St(), refs, importReference);
        }
      }
      ReadingEnd(source, St(), refs, importReference);
      if functions != [] { return NotSupported; }
      if importReference.Some? {
        var open := importReference.value;
        refs := refs[open := refs[open].(qualifiers := Some(Trim(source[refs[open].end..])))];
      }
      return Refs(refs);
    }
  }
}
