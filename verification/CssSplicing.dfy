/** The style branch of runtime/frontend-rewriter.ts as it runs: an edit for every accepted dependency, and the
    edits spliced into the source from the back. */
module CssSplicing {
  import opened Collections
  import opened CssTokens
  import opened CssScanner
  import opened CssRewriting
  import opened CssRewriter
  import CssMachine

  datatype Edit = Edit(start: nat, end: nat, text: Text)

  predicate EditsOrdered(edits: seq<Edit>, at: nat, n: nat) {
    if edits == [] then at <= n
    else at <= edits[0].start <= edits[0].end <= n && EditsOrdered(edits[1..], edits[0].end, n)
  }

  /** The source from `at` on with its edits made. */
  function Spliced(source: Text, edits: seq<Edit>, at: nat): Text
    requires EditsOrdered(edits, at, |source|)
  {
    if edits == [] then source[at..]
    else source[at..edits[0].start] + edits[0].text + Spliced(source, edits[1..], edits[0].end)
  }

  lemma {:induction false} EditsSplit(edits: seq<Edit>, k: nat, at: nat, n: nat)
    requires k < |edits| && EditsOrdered(edits, at, n)
    ensures at <= edits[k].start <= edits[k].end <= n && EditsOrdered(edits[k + 1..], edits[k].end, n)
    ensures EditsOrdered(edits[k..], edits[k].start, n) && (0 < k ==> edits[k - 1].end <= edits[k].start)
    decreases k
  {
    if k == 0 {
      assert edits[0..] == edits;
    } else {
      EditsSplit(edits[1..], k - 1, edits[0].end, n);
      assert edits[1..][k - 1] == edits[k] && edits[1..][k..] == edits[k + 1..] && edits[1..][k - 1..] == edits[k..];
      if k > 1 {
        assert edits[1..][k - 2] == edits[k - 1];
      }
    }
  }

  /** Making one edit in front of those already made. */
  lemma SplicedOne(source: Text, edits: seq<Edit>, k: nat, edge: nat)
    requires k < |edits| && edits[k].start <= edits[k].end <= edge <= |source|
    requires EditsOrdered(edits[k..], edits[k].start, |source|)
    requires EditsOrdered(edits[k + 1..], edits[k].end, |source|) && EditsOrdered(edits[k + 1..], edge, |source|)
    ensures var r := source[..edge] + Spliced(source, edits[k + 1..], edge);
      r[..edits[k].start] + edits[k].text + r[edits[k].end..]
      == source[..edits[k].start] + Spliced(source, edits[k..], edits[k].start)
  {
    hide EditsOrdered;
    var e, rest := edits[k], edits[k + 1..];
    var r := source[..edge] + Spliced(source, rest, edge);
    SplicedFrom(source, rest, e.end, edge);
    assert r[..e.start] == source[..e.start];
    assert r[e.end..] == source[e.end..edge] + Spliced(source, rest, edge);
    assert edits[k..][0] == e && edits[k..][1..] == rest;
    assert source[e.start..e.start] + e.text == e.text;
    assert r[..e.start] + e.text + r[e.end..] == source[..e.start] + (e.text + r[e.end..]);
  }

  /** The edits in descending order, spliced in one by one, as frontend-rewriter.ts makes them. */
  method ApplyEdits(source: Text, edits: seq<Edit>) returns (rewritten: Text)
    requires EditsOrdered(edits, 0, |source|)
    ensures rewritten == Spliced(source, edits, 0)
  {
    rewritten := source;
    var k := |edits|;
    ghost var edge: nat := |source|;
    if k > 0 { EditsSplit(edits, k - 1, 0, |source|); }
    assert edits[k..] == [] && source[..edge] + source[edge..] == source;
    while k > 0
      invariant 0 <= k <= |edits| && edge <= |source| && (0 < k ==> edits[k - 1].end <= edge)
      invariant EditsOrdered(edits[k..], edge, |source|)
      invariant rewritten == source[..edge] + Spliced(source, edits[k..], edge)
    {
      k := k - 1;
      var edit := edits[k];
      EditsSplit(edits, k, 0, |source|);
      SplicedOne(source, edits, k, edge);
      rewritten := rewritten[..edit.start] + edit.text + rewritten[edit.end..];
      edge := edit.start;
    }
    SplicedFrom(source, edits, 0, edge);
    assert edits[0..] == edits;
    assert source[..edge] == source[0..edge];
  }

  /** Text before the first edit is kept. */
  lemma SplicedFrom(source: Text, edits: seq<Edit>, at: nat, edge: nat)
    requires at <= edge && EditsOrdered(edits, at, |source|) && EditsOrdered(edits, edge, |source|)
    requires edge <= |source|
    ensures Spliced(source, edits, at) == source[at..edge] + Spliced(source, edits, edge)
  {
    hide EditsOrdered;
    if edits == [] {
      assert source[at..] == source[at..edge] + source[edge..];
    } else {
      SplicedFirst(source, edits, at, edge);
    }
  }

  lemma SplicedFirst(source: Text, edits: seq<Edit>, at: nat, edge: nat)
    requires edits != [] && at <= edge <= |source|
    requires EditsOrdered(edits, at, |source|) && EditsOrdered(edits, edge, |source|)
    ensures Spliced(source, edits, at) == source[at..edge] + Spliced(source, edits, edge)
  {
    var start, text, more := edits[0].start, edits[0].text, Spliced(source, edits[1..], edits[0].end);
    SplicedIs(source, edits, at);
    SplicedIs(source, edits, edge);
    hide Spliced, EditsOrdered;
    Regroup(source, at, edge, start, text, more);
  }

  lemma Regroup(source: Text, from: nat, at: nat, start: nat, token: Text, more: Text)
    requires from <= at <= start <= |source|
    ensures source[from..start] + token + more == source[from..at] + (source[at..start] + token + more)
  {
    assert source[from..start] == source[from..at] + source[at..start];
  }

  lemma SplicedIs(source: Text, edits: seq<Edit>, at: nat)
    requires edits != [] && EditsOrdered(edits, at, |source|)
    ensures at <= edits[0].start <= edits[0].end <= |source| && EditsOrdered(edits[1..], edits[0].end, |source|)
    ensures Spliced(source, edits, at)
      == source[at..edits[0].start] + edits[0].text + Spliced(source, edits[1..], edits[0].end)
  {
  }

  /** The edits of the accepted references. */
  function EditsOf(source: Text, refs: seq<Reference>, loader: Loader): seq<Edit>
    requires forall k :: 0 <= k < |refs| ==> refs[k].start < refs[k].end <= |source|
  {
    if refs == [] then []
    else
      var r, more := refs[0], EditsOf(source, refs[1..], loader);
      if LeftAlone(r.url) || loader(r.url, r.kind).None? then more
      else [Edit(r.start, r.end, Wrapped(source[r.start..r.end], loader(r.url, r.kind).value))] + more
  }

  lemma {:induction false} EditsOfSnoc(source: Text, refs: seq<Reference>, loader: Loader, k: nat)
    requires k < |refs| && forall k :: 0 <= k < |refs| ==> refs[k].start < refs[k].end <= |source|
    ensures var r := refs[k];
      EditsOf(source, refs[..k + 1], loader) == EditsOf(source, refs[..k], loader)
        + if LeftAlone(r.url) || loader(r.url, r.kind).None? then []
          else [Edit(r.start, r.end, Wrapped(source[r.start..r.end], loader(r.url, r.kind).value))]
    decreases k
  {
    if k > 0 {
      EditsOfSnoc(source, refs[1..], loader, k - 1);
      assert refs[..k + 1][1..] == refs[1..][..k] && refs[..k][1..] == refs[1..][..k - 1];
    } else {
      assert refs[..1][1..] == [] && refs[..0] == [];
    }
  }

  predicate Within(refs: seq<Reference>, at: nat, n: nat) {
    forall k :: 0 <= k < |refs| ==> at <= refs[k].start < refs[k].end <= n
  }

  lemma {:induction false} ReferencesWithin(ps: seq<Piece>, at: nat)
    requires WellFormed(ps)
    ensures Within(References(ps, at), at, at + |Join(ps)|)
    decreases |ps|
  {
    if ps != [] {
      assert WellFormed(ps[1..]);
      var end := at + |ps[0].lead| + |ps[0].token|;
      ReferencesWithin(ps[1..], end);
      var refs, more := References(ps, at), References(ps[1..], end);
      if ps[0].found.Some? {
        assert forall k :: 0 < k < |refs| ==> refs[k] == more[k - 1];
      }
    }
  }

  /** The edits of a piece and those of the pieces after it. */
  lemma EditsOfPiece(source: Text, ps: seq<Piece>, loader: Loader, at: nat)
    requires ps != [] && WellFormed(ps) && at <= |source| && source[at..] == Join(ps)
    ensures var start := at + |ps[0].lead|;
      var end := start + |ps[0].token|;
      Within(References(ps, at), at, |source|) && Within(References(ps[1..], end), end, |source|)
      && source[start..end] == ps[0].token
      && var more := EditsOf(source, References(ps[1..], end), loader);
        EditsOf(source, References(ps, at), loader)
        == if Replacement(ps[0], loader).None? then more
           else [Edit(start, end, Wrapped(ps[0].token, Replacement(ps[0], loader).value))] + more
  {
    var end := at + |ps[0].lead| + |ps[0].token|;
    JoinSlices(source, ps, at);
    assert WellFormed(ps[1..]);
    ReferencesWithin(ps, at);
    ReferencesWithin(ps[1..], end);
    hide Join, WellFormed, Wrapped, Qualifiers;
    if ps[0].found.Some? {
      var refs := References(ps, at);
      assert refs[1..] == References(ps[1..], end);
      assert refs[0].start == at + |ps[0].lead| && refs[0].end == end && refs[0].url == ps[0].found.value.url
          && refs[0].kind == ps[0].found.value.kind;
      hide References;
    } else {
      ReferencesUnfound(ps, at);
      hide References;
    }
  }

  lemma EditedPiece(source: Text, edits: seq<Edit>, e: Edit, from: nat, at: nat, lead: Text, token: Text, more: Text)
    requires from <= at <= e.start <= e.end <= |source| && source[at..e.start] == lead && e.text == token
    requires EditsOrdered(edits, e.end, |source|) && Spliced(source, edits, e.end) == source[e.end..e.end] + more
    ensures EditsOrdered([e] + edits, from, |source|)
    ensures Spliced(source, [e] + edits, from) == source[from..at] + (lead + token + more)
  {
    var all := [e] + edits;
    assert all[1..] == edits;
    assert EditsOrdered(all, from, |source|);
    SplicedIs(source, all, from);
    hide Spliced, EditsOrdered;
    assert source[e.end..e.end] + more == more;
    Regroup(source, from, at, e.start, token, more);
  }

  lemma KeptPiece(source: Text, edits: seq<Edit>, from: nat, at: nat, start: nat, end: nat, lead: Text, token: Text,
                  more: Text)
    requires from <= at <= start <= end <= |source| && source[at..start] == lead && source[start..end] == token
    requires EditsOrdered(edits, from, |source|) && Spliced(source, edits, from) == source[from..end] + more
    ensures Spliced(source, edits, from) == source[from..at] + (lead + token + more)
  {
    hide Spliced, EditsOrdered;
    assert source[from..end] == source[from..at] + lead + token;
    assert source[from..end] + more == source[from..at] + (lead + token + more);
  }

  /** The pieces after their edits are the source with its edits spliced in. */
  lemma {:induction false} SplicedIsRewritten(source: Text, ps: seq<Piece>, loader: Loader, at: nat, from: nat)
    requires from <= at <= |source| && source[at..] == Join(ps) && WellFormed(ps)
    ensures Within(References(ps, at), at, |source|)
    ensures EditsOrdered(EditsOf(source, References(ps, at), loader), from, |source|)
    ensures Spliced(source, EditsOf(source, References(ps, at), loader), from)
      == source[from..at] + Join(RewrittenPieces(ps, loader))
    decreases |ps|
  {
    hide EditsOf, Spliced, EditsOrdered, References, Join, Wrapped;
    ReferencesWithin(ps, at);
    if ps == [] {
      SplicedNothing(source, at, from, loader);
    } else {
      JoinSlices(source, ps, at);
      RewrittenPiecesCons(ps, loader);
      var start := at + |ps[0].lead|;
      var end := start + |ps[0].token|;
      assert WellFormed(ps[1..]);
      var u := Replacement(ps[0], loader);
      var q := Edited(ps[0], u);
      EditsOfPiece(source, ps, loader, at);
      SplicedIsRewritten(source, ps[1..], loader, end, if u.Some? then end else from);
      JoinCons(q, RewrittenPieces(ps[1..], loader));
      var edits, more := EditsOf(source, References(ps[1..], end), loader), Join(RewrittenPieces(ps[1..], loader));
      if u.Some? {
        EditedPiece(source, edits, Edit(start, end, q.token), from, at, q.lead, q.token, more);
      } else {
        KeptPiece(source, edits, from, at, start, end, q.lead, q.token, more);
      }
    }
  }

  lemma SplicedNothing(source: Text, at: nat, from: nat, loader: Loader)
    requires from <= at <= |source| && source[at..] == Join([])
    ensures Within(References([], at), at, |source|) && EditsOf(source, References([], at), loader) == []
    ensures EditsOrdered([], from, |source|)
    ensures Spliced(source, [], from) == source[from..at] + Join(RewrittenPieces([], loader))
  {
    assert source[from..] == source[from..at] + source[at..];
  }

  /** The style branch: scan, make an edit for every dependency, splice. */
  method RewriteStyle(source: Text, loader: Loader) returns (rewritten: Option<Text>)
    ensures rewritten == Rewrite(source, loader)
  {
    hide Tokenize, TokenAt, References, Join, RewrittenPieces, EditsOf, Spliced;
    var scanner := new CssMachine.StyleScanner(source);
    var scanned := scanner.ScanSheet();
    if !scanned.Refs? { return None; }
    var references := scanned.refs;
    ghost var ps := Tokenize(source, START, MOST_REFERENCES).pieces;
    TokenizeCovers(source, START, MOST_REFERENCES);
    TokenizeLoud(source, START, MOST_REFERENCES);
    assert source[0..] == source;
    SplicedIsRewritten(source, ps, loader, 0, 0);
    var edits: seq<Edit> := [];
    var k := 0;
    assert references[..0] == [];
    EditsOfNone(source, loader);
    while k < |references|
      invariant 0 <= k <= |references|
      invariant forall j :: 0 <= j < k ==> Accepted(references[j], loader)
      invariant edits == EditsOf(source, references[..k], loader)
    {
      var reference := references[k];
      EditsOfSnoc(source, references, loader, k);
      if !LeftAlone(reference.url) {
        if Conditional(reference) { return None; }
        var local := loader(reference.url, reference.kind);
        if local.None? { return None; }
        var token := source[reference.start..reference.end];
        edits := edits + [Edit(reference.start, reference.end, Wrapped(token, local.value))];
      }
      k := k + 1;
    }
    assert references[..k] == references;
    var text := ApplyEdits(source, edits);
    assert source[0..0] + Join(RewrittenPieces(ps, loader)) == Join(RewrittenPieces(ps, loader));
    return Some(text);
  }

  lemma EditsOfNone(source: Text, loader: Loader)
    ensures EditsOf(source, [], loader) == []
  {
  }
}
