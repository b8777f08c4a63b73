/** Which URLs of a sheet are dependencies, and of which kind: stated over the text of the sheet, whatever it is around
    them. */
module CssDestinations {
  import opened Collections
  import opened CssTokens
  import opened CssScanner
  import opened CssRewriting
  import opened CssContexts

  // ---------------------------------------------------------------- passing over declarations and values

  /** Inside a block, at the beginning of a declaration. */
  predicate Inside(st: State, font: bool) {
    st.blocks != [] && st.blocks[|st.blocks| - 1] == font && st.prelude == [] && st.functions == [] && !st.pendingFont
    && st.declarationStart
  }

  lemma UnitIs(c: Unit, rest: Text, st: State)
    requires c == SEMICOLON || c == COLON || c == 44 || c == 123 || c == 125
    ensures TokenAt([c] + rest, st) == UnitToken(c, st) && Skip([c] + rest) == Took(0, ()) && ([c] + rest)[0] == c
  {
    SkipFirm([c] + rest);
    hide Skip;
  }

  /** One unit, with nothing blank before it. */
  lemma OverUnit(whole: Text, c: Unit, rest: Text, st: State, at: nat)
    requires Comes(whole, [c] + rest, st, at)
    requires c == SEMICOLON || c == COLON || c == 44 || c == 123 || c == 125
    ensures Comes(whole, rest, UnitToken(c, st).next, at + 1)
  {
    hide *;
    UnitIs(c, rest, st);
    UnitLength(c, st);
    assert [] + ([c] + rest) == [c] + rest;
    ComesOn(whole, [], [c], rest, st, at, UnitToken(c, st));
  }

  lemma UnitLength(c: Unit, st: State)
    ensures UnitToken(c, st).Tok? && UnitToken(c, st).len == 1
  {
  }

  /** A text that reads by itself, and the hard unit after it. */
  lemma OverText(whole: Text, x: Text, c: Unit, rest: Text, st: State, at: nat) returns (st': State)
    requires Comes(whole, x + ([c] + rest), st, at) && Reads(x) && Flat(x) && st.functions == [] && Hard(c)
    ensures Comes(whole, [c] + rest, st', at + |x|)
    ensures st'.functions == [] && Kept(st, st') && (SEMICOLON !in x ==> KeptWithin(st, st'))
  {
    hide *;
    ReadsAnywhere(x, st);
    FlatKeeps(x, st);
    UnitFirst(c, rest);
    ComesThrough(whole, x, [c] + rest, st, at);
    st' := Final(x, st).value;
  }

  lemma UnitFirst(c: Unit, rest: Text)
    ensures [c] + rest != [] && ([c] + rest)[0] == c
  {
  }

  lemma SplitLast(d: Text, rest: Text)
    requires d != []
    ensures d + rest == d[..|d| - 1] + ([d[|d| - 1]] + rest)
  {
  }

  lemma FlatFront(d: Text)
    requires Flat(d) && d != []
    ensures Flat(d[..|d| - 1]) && (SEMICOLON !in d ==> SEMICOLON !in d[..|d| - 1])
  {
  }

  lemma OverDeclarations(whole: Text, d: Text, rest: Text, st: State, at: nat, font: bool) returns (st': State)
    requires Comes(whole, d + rest, st, at) && Declarations(d) && Inside(st, font)
    ensures Comes(whole, rest, st', at + |d|) && Inside(st', font)
  {
    hide Comes, Reads, Flat, TokenAt, Skip;
    if d == [] {
      assert d + rest == rest;
      st' := st;
    } else {
      SplitLast(d, rest);
      FlatFront(d);
      var mid := OverText(whole, d[..|d| - 1], SEMICOLON, rest, st, at);
      OverUnit(whole, SEMICOLON, rest, mid, at + |d| - 1);
      st' := UnitToken(SEMICOLON, mid).next;
    }
  }

  lemma OverValues(whole: Text, e: Text, rest: Text, st: State, at: nat) returns (st': State)
    requires Comes(whole, e + rest, st, at) && Values(e) && st.functions == []
    ensures Comes(whole, rest, st', at + |e|) && st'.functions == [] && st'.blocks == st.blocks && KeptWithin(st, st')
  {
    hide Comes, Reads, Flat, TokenAt, Skip;
    if e == [] {
      assert e + rest == rest;
      st' := st;
      KeptItself(st);
    } else {
      SplitLast(e, rest);
      FlatFront(e);
      var mid := OverText(whole, e[..|e| - 1], 44, rest, st, at);
      OverUnit(whole, 44, rest, mid, at + |e| - 1);
      st' := UnitToken(44, mid).next;
    }
  }

  // ---------------------------------------------------------------- a URL where it stands

  lemma UrlFirm(x: Text, url: Text, rest: Text)
    requires IsUrl(x, url)
    ensures Firm(x + rest) && x != []
  {
    UrlLetters(x[..3]);
    assert NameUnit(x[..3][0]);
  }

  lemma StringFirm(x: Text, value: Text, rest: Text)
    requires IsString(x, value)
    ensures Firm(x + rest) && x != []
  {
  }

  /** What a url() is found as. */
  lemma UrlHere(whole: Text, w: Text, x: Text, url: Text, rest: Text, st: State, at: nat)
    requires Comes(whole, w + (x + rest), st, at) && Spacing(w) && IsUrl(x, url)
    ensures var start := at + |w|;
      if Destination(st).Some? then Finds(whole, start, start + |x|, Found(url, Destination(st).value))
      else Misses(whole, start, start + |x|)
    ensures Comes(whole, rest, Taken(st, url).1, at + |w| + |x|)
  {
    hide *;
    UrlFirm(x, url, rest);
    SpacingSkips(w, x + rest);
    UrlToken(x, url, rest, st);
    TakenIs(st, url);
    ComesOn(whole, w, x, rest, st, at, Tok(|x|, Taken(st, url).1, Taken(st, url).0, false));
  }

  lemma TakenIs(st: State, url: Text)
    ensures Taken(st, url).0 == if Destination(st).Some? then Some(Found(url, Destination(st).value)) else None
  {
    hide Destination;
  }

  /** What a string is found as. */
  lemma StringHere(whole: Text, w: Text, x: Text, value: Text, rest: Text, st: State, at: nat)
    requires Comes(whole, w + (x + rest), st, at) && Spacing(w) && IsString(x, value)
    ensures var start := at + |w|;
      if Destination(st).Some? && (Destination(st).value == Style || InImageSet(st))
      then Finds(whole, start, start + |x|, Found(value, Destination(st).value))
      else Misses(whole, start, start + |x|)
    ensures Destination(st) == Some(Style) ==> Comes(whole, rest, Taken(st, value).1, at + |w| + |x|)
  {
    hide Comes, Finds, Misses, TokenAt, Skip, InImageSet, Destination, Taken, IsString, Spacing, Firm;
    StringFirm(x, value, rest);
    SpacingSkips(w, x + rest);
    StringIs(x, value, rest, st);
    TakenIs(st, value);
    ComesOn(whole, w, x, rest, st, at, TokenAt(x + rest, st));
  }

  // ---------------------------------------------------------------- in a block

  /** The rest of a block from the beginning of a declaration on: some declarations, a name with its colon, the beginning
      of its value, blanks, a url(), and anything. */
  function UrlValue(d: Text, n: Text, e: Text, w: Text, x: Text, rest: Text): Text {
    d + (n + ([COLON] + (e + (w + (x + rest)))))
  }

  /** Where the url() is in it. */
  function UrlStart(d: Text, n: Text, e: Text, w: Text): nat { |d| + |n| + 1 + |e| + |w| }

  predicate InDeclaration(d: Text, n: Text, e: Text, w: Text) {
    Declarations(d) && IsName(n) && Values(e) && Spacing(w)
  }

  lemma NameFirm(n: Text, rest: Text)
    requires IsName(n)
    ensures Firm(n + rest) && Skip(n + rest) == Took(0, ())
  {
    SkipFirm(n + rest);
    hide Skip;
  }

  /** Up to the value. */
  lemma ToValue(whole: Text, d: Text, n: Text, e: Text, rest: Text, st: State, at: nat, font: bool) returns (st': State)
    requires Comes(whole, d + (n + ([COLON] + (e + rest))), st, at) && Inside(st, font)
    requires Declarations(d) && IsName(n) && Values(e)
    ensures Comes(whole, rest, st', at + |d| + |n| + 1 + |e|)
    ensures st'.blocks != [] && st'.blocks[|st'.blocks| - 1] == font && st'.prelude == [] && st'.functions == []
    ensures st'.property == Lower(n)
  {
    hide Comes, Declarations, Values, TokenAt, Skip, Lower, Firm, IsName;
    var s1 := OverDeclarations(whole, d, n + ([COLON] + (e + rest)), st, at, font);
    NameFirm(n, [COLON] + (e + rest));
    PropertyName(n, e + rest, s1);
    assert [] + (n + ([COLON] + (e + rest))) == n + ([COLON] + (e + rest));
    NameSome(n);
    var s2 := s1.(property := Lower(n), declarationStart := false);
    ComesOn(whole, [], n, [COLON] + (e + rest), s1, at + |d|, Tok(|n|, s2, None, false));
    OverUnit(whole, COLON, e + rest, s2, at + |d| + |n|);
    assert UnitToken(COLON, s2).next == s2;
    st' := OverValues(whole, e, rest, s2, at + |d| + |n| + 1);
  }

  lemma NameSome(n: Text)
    requires IsName(n)
    ensures n != []
  {
  }

  /** A url() in a block, told from the kind of the block and the name of the declaration. */
  lemma UrlInBlock(whole: Text, d: Text, n: Text, e: Text, w: Text, x: Text, url: Text, rest: Text, st: State, at: nat,
                   font: bool)
    requires Comes(whole, UrlValue(d, n, e, w, x, rest), st, at) && Inside(st, font)
    requires InDeclaration(d, n, e, w) && IsUrl(x, url)
    ensures var start := at + UrlStart(d, n, e, w);
      if !font then Finds(whole, start, start + |x|, Found(url, Image))
      else if Lower(n) == SRC then Finds(whole, start, start + |x|, Found(url, Font))
      else Misses(whole, start, start + |x|)
  {
    hide Comes, Finds, Misses, Declarations, Values, IsUrl, IsName, Spacing, Lower;
    var st' := ToValue(whole, d, n, e, w + (x + rest), st, at, font);
    UrlHere(whole, w, x, url, rest, st', at + |d| + |n| + 1 + |e|);
  }

  // ---------------------------------------------------------------- from the top of a sheet

  /** After any sheet that reads. */
  lemma AfterSheet(whole: Text, a: Text, c: Unit, rest: Text) returns (st: State)
    requires Scan(whole).Refs? && whole == a + ([c] + rest) && Reads(a) && Hard(c)
    ensures Comes(whole, [c] + rest, st, |a|) && st.functions == []
  {
    hide *;
    ComesStart(whole);
    StartsTop();
    ReadsAnywhere(a, START);
    UnitFirst(c, rest);
    ComesThrough(whole, a, [c] + rest, START, 0);
    st := Final(a, START).value;
  }

  lemma StartsTop()
    ensures Top(START) && START.functions == []
  {
  }

  /** An at-keyword. */
  lemma OverAt(whole: Text, n: Text, rest: Text, st: State, at: nat) returns (st': State)
    requires Comes(whole, [AT] + (n + rest), st, at) && st.functions == [] && IsName(n)
    requires rest == [] || !NameUnit(rest[0])
    ensures Comes(whole, rest, st', at + 1 + |n|)
    ensures st' == st.(prelude := Lower(n), importTarget := Lower(n) == IMPORT, pendingFont := Lower(n) == FONT_FACE)
  {
    hide *;
    AtName(n, rest, st);
    Associates([AT], n, rest);
    Associates([], [AT] + n, rest);
    AtFirm(n, rest);
    st' := st.(prelude := Lower(n), importTarget := Lower(n) == IMPORT, pendingFont := Lower(n) == FONT_FACE);
    ComesOn(whole, [], [AT] + n, rest, st, at, Tok(1 + |n|, st', None, false));
  }

  lemma AtFirm(n: Text, rest: Text)
    ensures Skip([] + ([AT] + n + rest)) == Took(0, ()) && [AT] + n != []
    ensures [] + ([AT] + n + rest) == [AT] + (n + rest)
  {
    SkipFirm([] + ([AT] + n + rest));
    hide Skip;
  }

  /** What stands between an at-keyword, or the end of a rule, and the brace that opens a block. */
  predicate Prelude(p: Text) { Flat(p) && SEMICOLON !in p && Reads(p) }

  /** The brace that opens a block. */
  lemma OverOpening(whole: Text, p: Text, rest: Text, st: State, at: nat) returns (st': State)
    requires Comes(whole, p + ([123] + rest), st, at) && st.functions == [] && Prelude(p)
    ensures Comes(whole, rest, st', at + |p| + 1) && Inside(st', st.pendingFont)
    ensures st'.blocks == st.blocks + [st.pendingFont]
  {
    hide Comes, Reads, Flat, TokenAt, Skip;
    var mid := OverText(whole, p, 123, rest, st, at);
    OverUnit(whole, 123, rest, mid, at + |p|);
    st' := UnitToken(123, mid).next;
  }

  /** A sheet with a block opened by an at-rule: any sheet that reads, an at-keyword and its prelude. */
  function AtBlock(a: Text, n: Text, p: Text, rest: Text): Text { a + ([AT] + (n + (p + ([123] + rest)))) }

  predicate IsAtBlock(a: Text, n: Text, p: Text) {
    Reads(a) && IsName(n) && Prelude(p) && (p == [] || !NameUnit(p[0]))
  }

  lemma IntoAtBlock(whole: Text, a: Text, n: Text, p: Text, rest: Text) returns (st: State)
    requires Scan(whole).Refs? && whole == AtBlock(a, n, p, rest) && IsAtBlock(a, n, p)
    ensures Comes(whole, rest, st, |a| + 1 + |n| + |p| + 1) && Inside(st, Lower(n) == FONT_FACE)
  {
    hide Comes, Scan, Reads, IsName, Lower, Flat, TokenAt, Skip;
    var s1 := AfterSheet(whole, a, AT, n + (p + ([123] + rest)));
    assert p + ([123] + rest) != [] && (p + ([123] + rest))[0] == if p == [] then 123 else p[0];
    var s2 := OverAt(whole, n, p + ([123] + rest), s1, |a|);
    st := OverOpening(whole, p, rest, s2, |a| + 1 + |n|);
  }

  /** In the block of an at-rule, after any sheet: in a font face the url() of its src is a font and no other is anything;
      in any other block every url() of a declaration is an image. */
  lemma UrlInAtBlock(whole: Text, a: Text, n: Text, p: Text, d: Text, m: Text, e: Text, w: Text, x: Text, url: Text,
                     rest: Text)
    requires Scan(whole).Refs? && whole == AtBlock(a, n, p, UrlValue(d, m, e, w, x, rest))
    requires IsAtBlock(a, n, p) && InDeclaration(d, m, e, w) && IsUrl(x, url)
    ensures var start := |a| + 1 + |n| + |p| + 1 + UrlStart(d, m, e, w);
      if Lower(n) != FONT_FACE then Finds(whole, start, start + |x|, Found(url, Image))
      else if Lower(m) == SRC then Finds(whole, start, start + |x|, Found(url, Font))
      else Misses(whole, start, start + |x|)
  {
    hide *;
    var st := IntoAtBlock(whole, a, n, p, UrlValue(d, m, e, w, x, rest));
    UrlInBlock(whole, d, m, e, w, x, url, rest, st, |a| + 1 + |n| + |p| + 1, Lower(n) == FONT_FACE);
  }

  // ---------------------------------------------------------------- plain rules

  /** Rules without at-keywords, one after the other: selectors and a body without nested blocks. */
  function RulesText(rs: seq<(Text, Text)>): Text {
    if rs == [] then [] else rs[0].0 + ([123] + (rs[0].1 + ([125] + RulesText(rs[1..]))))
  }

  predicate PlainRules(rs: seq<(Text, Text)>) {
    forall i :: 0 <= i < |rs| ==> Prelude(rs[i].0) && Flat(rs[i].1) && Reads(rs[i].1)
  }

  /** Between two rules. */
  predicate Top(st: State) { st.blocks == [] && st.functions == [] && st.prelude == [] && !st.pendingFont }

  lemma RulesSplit(rs: seq<(Text, Text)>, rest: Text)
    requires rs != []
    ensures RulesText(rs) + rest == rs[0].0 + ([123] + (rs[0].1 + ([125] + (RulesText(rs[1..]) + rest))))
    ensures |RulesText(rs)| == |rs[0].0| + 1 + |rs[0].1| + 1 + |RulesText(rs[1..])|
  {
    var more := RulesText(rs[1..]);
    var body := rs[0].1 + ([125] + more);
    Associates(rs[0].0, [123] + body, rest);
    Associates([123], body, rest);
    Associates(rs[0].1, [125] + more, rest);
    Associates([125], more, rest);
  }

  lemma OverRule(whole: Text, p: Text, f: Text, rest: Text, st: State, at: nat) returns (st': State)
    requires Comes(whole, p + ([123] + (f + ([125] + rest))), st, at) && Top(st) && Prelude(p) && Flat(f) && Reads(f)
    ensures Comes(whole, rest, st', at + |p| + 1 + |f| + 1) && Top(st')
  {
    hide Comes, Prelude, Reads, Flat, TokenAt, Skip;
    var s1 := OverOpening(whole, p, f + ([125] + rest), st, at);
    var s2 := OverText(whole, f, 125, rest, s1, at + |p| + 1);
    OverUnit(whole, 125, rest, s2, at + |p| + 1 + |f|);
    st' := UnitToken(125, s2).next;
  }

  lemma {:induction false} OverRules(whole: Text, rs: seq<(Text, Text)>, rest: Text, st: State, at: nat)
    returns (st': State)
    requires Comes(whole, RulesText(rs) + rest, st, at) && Top(st) && PlainRules(rs)
    ensures Comes(whole, rest, st', at + |RulesText(rs)|) && Top(st')
    decreases |rs|
  {
    hide Comes, Prelude, Reads, Flat, Top;
    if rs == [] {
      assert RulesText(rs) + rest == rest;
      st' := st;
    } else {
      RulesSplit(rs, rest);
      var mid := OverRule(whole, rs[0].0, rs[0].1, RulesText(rs[1..]) + rest, st, at);
      st' := OverRules(whole, rs[1..], rest, mid, at + |rs[0].0| + 1 + |rs[0].1| + 1);
    }
  }

  lemma AtTop(whole: Text, rs: seq<(Text, Text)>, rest: Text) returns (st: State)
    requires Scan(whole).Refs? && whole == RulesText(rs) + rest && PlainRules(rs)
    ensures Comes(whole, rest, st, |RulesText(rs)|) && Top(st)
  {
    hide *;
    ComesStart(whole);
    StartsTop();
    st := OverRules(whole, rs, rest, START, 0);
  }

  lemma TopIs(st: State)
    requires Top(st)
    ensures st.functions == [] && !st.pendingFont
  {
  }

  /** In a plain rule after any others every url() of a declaration is an image. */
  lemma UrlInRule(whole: Text, rs: seq<(Text, Text)>, p: Text, d: Text, m: Text, e: Text, w: Text, x: Text, url: Text,
                  rest: Text)
    requires Scan(whole).Refs? && whole == RulesText(rs) + (p + ([123] + UrlValue(d, m, e, w, x, rest)))
    requires PlainRules(rs) && Prelude(p) && InDeclaration(d, m, e, w) && IsUrl(x, url)
    ensures var start := |RulesText(rs)| + |p| + 1 + UrlStart(d, m, e, w);
      Finds(whole, start, start + |x|, Found(url, Image))
  {
    hide *;
    var st := AtTop(whole, rs, p + ([123] + UrlValue(d, m, e, w, x, rest)));
    TopIs(st);
    var s1 := OverOpening(whole, p, UrlValue(d, m, e, w, x, rest), st, |RulesText(rs)|);
    UrlInBlock(whole, d, m, e, w, x, url, rest, s1, |RulesText(rs)| + |p| + 1, false);
  }

  /** Outside blocks, after any rules, neither a url() nor a string is anything. */
  lemma NothingOutside(whole: Text, rs: seq<(Text, Text)>, e: Text, w: Text, x: Text, url: Text, rest: Text)
    requires Scan(whole).Refs? && whole == RulesText(rs) + (e + (w + (x + rest))) && PlainRules(rs)
    requires Values(e) && Spacing(w) && (IsUrl(x, url) || IsString(x, url))
    ensures var start := |RulesText(rs)| + |e| + |w|; Misses(whole, start, start + |x|)
  {
    hide *;
    var s0 := AtTop(whole, rs, e + (w + (x + rest)));
    TopIs(s0);
    var st := OverValues(whole, e, w + (x + rest), s0, |RulesText(rs)|);
    TopStays(s0, st);
    TargetHere(whole, w, x, url, rest, st, |RulesText(rs)| + |e|);
  }

  lemma TopStays(s: State, t: State)
    requires Top(s) && t.blocks == s.blocks && KeptWithin(s, t)
    ensures Destination(t) == None
  {
  }

  /** A url() or a string where strings count as much. */
  lemma TargetHere(whole: Text, w: Text, x: Text, url: Text, rest: Text, st: State, at: nat)
    requires Comes(whole, w + (x + rest), st, at) && Spacing(w) && (IsUrl(x, url) || IsString(x, url))
    requires Destination(st) == None || Destination(st) == Some(Style)
    ensures var start := at + |w|;
      if Destination(st) == Some(Style) then Finds(whole, start, start + |x|, Found(url, Style))
      else Misses(whole, start, start + |x|)
    ensures Destination(st) == Some(Style) ==> Comes(whole, rest, Taken(st, url).1, at + |w| + |x|)
  {
    hide *;
    if IsUrl(x, url) {
      UrlHere(whole, w, x, url, rest, st, at);
    } else {
      StringHere(whole, w, x, url, rest, st, at);
    }
  }

  // ---------------------------------------------------------------- at-rules outside their blocks

  /** An at-rule and its first argument, after any sheet. */
  function AtTarget(a: Text, n: Text, w: Text, x: Text, rest: Text): Text { a + ([AT] + (n + (w + (x + rest)))) }

  predicate IsAtTarget(a: Text, n: Text, w: Text, x: Text) {
    Reads(a) && IsName(n) && Spacing(w) && x != [] && (w != [] || QuoteUnit(x[0]))
  }

  lemma ToTarget(whole: Text, a: Text, n: Text, w: Text, x: Text, rest: Text) returns (st: State)
    requires Scan(whole).Refs? && whole == AtTarget(a, n, w, x, rest) && IsAtTarget(a, n, w, x)
    ensures Comes(whole, w + (x + rest), st, |a| + 1 + |n|) && st.functions == []
    ensures st.prelude == Lower(n) && (st.importTarget <==> Lower(n) == IMPORT) && IsName(n) && Spacing(w)
  {
    hide Comes, Scan, Reads, IsName, Lower, TokenAt, Skip;
    var s1 := AfterSheet(whole, a, AT, n + (w + (x + rest)));
    assert (w + (x + rest))[0] == if w == [] then x[0] else w[0];
    assert !NameUnit((w + (x + rest))[0]);
    st := OverAt(whole, n, w + (x + rest), s1, |a|);
  }

  lemma NameLowers(n: Text)
    requires IsName(n)
    ensures Lower(n) != []
  {
    assert |Lower(n)| == |n|;
  }

  /** The string or url() that follows an at-keyword is a style sheet after @import, and nothing after any other. */
  lemma TargetOfAt(whole: Text, a: Text, n: Text, w: Text, x: Text, url: Text, rest: Text)
    requires Scan(whole).Refs? && whole == AtTarget(a, n, w, x, rest) && IsAtTarget(a, n, w, x)
    requires IsUrl(x, url) || IsString(x, url)
    ensures var start := |a| + 1 + |n| + |w|;
      if Lower(n) == IMPORT then Finds(whole, start, start + |x|, Found(url, Style)) else Misses(whole, start, start + |x|)
  {
    hide *;
    var st := ToTarget(whole, a, n, w, x, rest);
    NameLowers(n);
    InPrelude(st);
    TargetHere(whole, w, x, url, rest, st, |a| + 1 + |n|);
  }

  lemma InPrelude(st: State)
    requires st.prelude != []
    ensures Destination(st) == if st.prelude == IMPORT && st.importTarget then Some(Style) else None
  {
  }

  lemma TargetTaken(st: State, url: Text)
    requires Destination(st) == Some(Style)
    ensures Taken(st, url).1 == st.(importTarget := false)
  {
    hide Destination;
  }

  lemma PreludeStays(s: State, t: State)
    requires s.prelude != [] && !s.importTarget && KeptWithin(s, t)
    ensures Destination(t) == None
  {
  }

  /** Only the first is: what follows in the same import is nothing. */
  lemma OneTarget(whole: Text, a: Text, n: Text, w: Text, x: Text, url: Text, e: Text, v: Text, y: Text, other: Text,
                  rest: Text)
    requires Scan(whole).Refs? && whole == AtTarget(a, n, w, x, e + (v + (y + rest))) && IsAtTarget(a, n, w, x)
    requires Lower(n) == IMPORT && (IsUrl(x, url) || IsString(x, url))
    requires Values(e) && Spacing(v) && (IsUrl(y, other) || IsString(y, other))
    ensures var start := |a| + 1 + |n| + |w| + |x| + |e| + |v|; Misses(whole, start, start + |y|)
  {
    hide *;
    var tail := e + (v + (y + rest));
    var st := ToTarget(whole, a, n, w, x, tail);
    NameLowers(n);
    InPrelude(st);
    TargetTaken(st, url);
    TargetHere(whole, w, x, url, tail, st, |a| + 1 + |n|);
    var s1 := st.(importTarget := false);
    var at := |a| + 1 + |n| + |w| + |x|;
    var s2 := OverValues(whole, e, v + (y + rest), s1, at);
    PreludeStays(s1, s2);
    TargetHere(whole, v, y, other, rest, s2, at + |e|);
  }

  /** An import carries the text between its target and its semicolon, trimmed. */
  lemma ImportSuffix(whole: Text, a: Text, n: Text, w: Text, x: Text, url: Text, q: Text, rest: Text)
    requires Scan(whole).Refs? && whole == AtTarget(a, n, w, x, q + ([SEMICOLON] + rest)) && IsAtTarget(a, n, w, x)
    requires Lower(n) == IMPORT && (IsUrl(x, url) || IsString(x, url)) && Prelude(q)
    ensures var start := |a| + 1 + |n| + |w|; FindsWith(whole, start, start + |x|, Found(url, Style), Trim(q))
  {
    hide *;
    var tail := q + ([SEMICOLON] + rest);
    var st := ToTarget(whole, a, n, w, x, tail);
    NameLowers(n);
    InPrelude(st);
    TargetTaken(st, url);
    PreludeIs(q);
    TokenHere(w, x, url, tail, st);
    LeadingIs(w, x, tail, st, Tok(|x|, st.(importTarget := false), Some(Found(url, Style)), false));
    ImportWith(whole, w, x, tail, q, rest, st, |a| + 1 + |n|, Tok(|x|, st.(importTarget := false), Some(Found(url, Style)), false));
  }

  lemma PreludeIs(q: Text)
    requires Prelude(q)
    ensures Reads(q) && Flat(q) && SEMICOLON !in q
  {
    hide Reads, Flat;
  }

  lemma TokenHere(w: Text, x: Text, url: Text, rest: Text, st: State)
    requires Spacing(w) && (IsUrl(x, url) || IsString(x, url)) && Destination(st) == Some(Style)
    ensures x != [] && Skip(w + (x + rest)) == Took(|w|, ())
    ensures TokenAt(x + rest, st) == Tok(|x|, st.(importTarget := false), Some(Found(url, Style)), false)
  {
    hide *;
    TakenIs(st, url);
    TargetTaken(st, url);
    if IsUrl(x, url) {
      UrlFirm(x, url, rest);
      UrlToken(x, url, rest, st);
    } else {
      StringFirm(x, url, rest);
      StringIs(x, url, rest, st);
    }
    SpacingSkips(w, x + rest);
  }

  // ---------------------------------------------------------------- strings in blocks

  /** A declaration whose value calls a function with a string. */
  function CallValue(d: Text, n: Text, e: Text, f: Text, w: Text, x: Text, rest: Text): Text {
    d + (n + ([COLON] + (e + (f + ([OPEN] + (w + (x + rest)))))))
  }

  /** In the block of an at-rule, after any sheet: a string is an image as the argument of image-set() or
      -webkit-image-set(), except in a font face, where it is a font in the src; in any other function it is nothing. */
  lemma StringInCall(whole: Text, a: Text, n: Text, p: Text, d: Text, m: Text, e: Text, f: Text, w: Text, x: Text,
                     value: Text, rest: Text)
    requires Scan(whole).Refs? && whole == AtBlock(a, n, p, CallValue(d, m, e, f, w, x, rest)) && IsAtBlock(a, n, p)
    requires InDeclaration(d, m, e, w) && IsName(f) && Lower(f) != URL && IsString(x, value)
    ensures var start := |a| + 1 + |n| + |p| + 1 + |d| + |m| + 1 + |e| + |f| + 1 + |w|;
      if Lower(f) !in {IMAGE_SET, WEBKIT_IMAGE_SET} then Misses(whole, start, start + |x|)
      else if Lower(n) != FONT_FACE then Finds(whole, start, start + |x|, Found(value, Image))
      else if Lower(m) == SRC then Finds(whole, start, start + |x|, Found(value, Font))
      else Misses(whole, start, start + |x|)
  {
    hide Comes, Scan, IsName, Lower, IsString, Misses, Finds, Declarations, Values, Spacing, TokenAt, Skip, IsAtBlock, AtBlock;
    var call := f + ([OPEN] + (w + (x + rest)));
    var s0 := IntoAtBlock(whole, a, n, p, CallValue(d, m, e, f, w, x, rest));
    var at := |a| + 1 + |n| + |p| + 1;
    var s1 := ToValue(whole, d, m, e, call, s0, at, Lower(n) == FONT_FACE);
    at := at + |d| + |m| + 1 + |e|;
    var s2 := OverCall(whole, f, w + (x + rest), s1, at);
    StringHere(whole, w, x, value, rest, s2, at + |f| + 1);
  }

  lemma OverCall(whole: Text, f: Text, rest: Text, st: State, at: nat) returns (st': State)
    requires Comes(whole, f + ([OPEN] + rest), st, at) && IsName(f) && Lower(f) != URL
    ensures Comes(whole, rest, st', at + |f| + 1) && st' == st.(functions := st.functions + [Lower(f)])
  {
    hide *;
    FunctionName(f, rest, st);
    NameFirm(f, [OPEN] + rest);
    Associates(f, [OPEN], rest);
    assert [] + (f + [OPEN] + rest) == f + ([OPEN] + rest);
    st' := st.(functions := st.functions + [Lower(f)]);
    ComesOn(whole, [], f + [OPEN], rest, st, at, Tok(|f| + 1, st', None, false));
  }
}
