/** Which sheets are rewritten: those that scan and whose every dependency is answered or left alone, imports with no
    suffix or with a layer, named or not. */
module CssLayers {
  import opened Collections
  import opened CssTokens
  import opened CssScanner
  import opened CssRewriting
  import opened CssRewriter

  const DOT: Unit := 46
  const LAYER: Text := [108, 97, 121, 101, 114]

  predicate IsIdent(n: Text) {
    n != [] && IdentStart(n[0]) && forall i :: 0 < i < |n| ==> IdentStart(n[i]) || Digit(n[i])
  }

  /** Names joined by dots. */
  function Dots(names: seq<Text>): Text {
    if names == [] then [] else if |names| == 1 then names[0] else names[0] + [DOT] + Dots(names[1..])
  }

  predicate AllIdents(names: seq<Text>) { names != [] && forall i :: 0 <= i < |names| ==> IsIdent(names[i]) }

  // ---------------------------------------------------------------- names joined by dots

  predicate Tail(n: Text) { forall i :: 0 <= i < |n| ==> IdentStart(n[i]) || Digit(n[i]) }

  lemma {:induction false} TailDotted(n: Text, rest: Text)
    requires Tail(n)
    ensures Dotted(n + rest, false) <==> Dotted(rest, false)
    decreases |n|
  {
    if n == [] {
      assert n + rest == rest;
    } else {
      assert (n + rest)[1..] == n[1..] + rest;
      TailDotted(n[1..], rest);
    }
  }

  lemma {:induction false} DotsDotted(names: seq<Text>)
    requires AllIdents(names)
    ensures Dotted(Dots(names), true)
    decreases |names|
  {
    var n := names[0];
    var rest := if |names| == 1 then [] else [DOT] + Dots(names[1..]);
    assert Dots(names) == n + rest by {
      if |names| == 1 { assert n + [] == n; }
    }
    assert (n + rest)[1..] == n[1..] + rest;
    TailDotted(n[1..], rest);
    if |names| > 1 {
      DotsDotted(names[1..]);
      assert rest[1..] == Dots(names[1..]);
    }
    assert Dotted(rest, false);
    assert (n + rest)[0] == n[0];
  }

  /** The names of a text, from within one: the rest of that name and those after it. */
  lemma {:induction false} DottedSplits(t: Text) returns (tail: Text, names: seq<Text>)
    requires Dotted(t, false)
    ensures Tail(tail) && (names == [] || AllIdents(names))
    ensures t == tail + (if names == [] then [] else [DOT] + Dots(names))
    decreases |t|
  {
    if t == [] {
      tail, names := [], [];
    } else if t[0] == DOT {
      var n, more := DottedSplits(t[2..]);
      assert t[1..][1..] == t[2..];
      var first := [t[1]] + n;
      tail, names := [], [first] + more;
      assert names[1..] == more;
      assert t[1..] == first + (if more == [] then [] else [DOT] + Dots(more));
      assert Dots(names) == t[1..];
      assert t == [DOT] + t[1..];
    } else {
      var n, more := DottedSplits(t[1..]);
      tail, names := [t[0]] + n, more;
    }
  }

  lemma DottedIff(t: Text)
    ensures Dotted(t, true) <==> exists names :: AllIdents(names) && Dots(names) == t
  {
    if Dotted(t, true) {
      var n, more := DottedSplits(t[1..]);
      var names := [[t[0]] + n] + more;
      assert names[1..] == more;
      assert AllIdents(names) && Dots(names) == t;
    }
    if names :| AllIdents(names) && Dots(names) == t {
      DotsDotted(names);
    }
  }

  // ---------------------------------------------------------------- trimming

  predicate Padding(w: Text) { forall i :: 0 <= i < |w| ==> TrimUnit(w[i]) }

  predicate Tight(t: Text) { t != [] ==> !TrimUnit(t[0]) && !TrimUnit(t[|t| - 1]) }

  /** What is trimmed is what stands between padding. */
  lemma {:induction false} TrimPads(t: Text) returns (before: Text, after: Text)
    ensures t == before + Trim(t) + after && Padding(before) && Padding(after) && Tight(Trim(t))
    decreases |t|
  {
    if t != [] && TrimUnit(t[0]) {
      before, after := TrimPads(t[1..]);
      PadFront(t, before, Trim(t[1..]), after);
      before := [t[0]] + before;
    } else if t != [] && TrimUnit(t[|t| - 1]) {
      before, after := TrimPads(t[..|t| - 1]);
      PadBack(t, before, Trim(t[..|t| - 1]), after);
      after := after + [t[|t| - 1]];
    } else {
      before, after := [], [];
    }
  }

  lemma PadFront(t: Text, before: Text, x: Text, after: Text)
    requires t != [] && t[1..] == before + x + after
    ensures t == [t[0]] + before + x + after
  {
    assert t == [t[0]] + t[1..];
  }

  lemma PadBack(t: Text, before: Text, x: Text, after: Text)
    requires t != [] && t[..|t| - 1] == before + x + after
    ensures t == before + x + (after + [t[|t| - 1]])
  {
    assert t == t[..|t| - 1] + [t[|t| - 1]];
  }

  lemma {:induction false} TrimIs(before: Text, t: Text, after: Text)
    requires Padding(before) && Padding(after) && Tight(t) && t != []
    ensures Trim(before + t + after) == t
    decreases |before| + |after|
  {
    var all := before + t + after;
    if before != [] {
      assert all[1..] == before[1..] + t + after && all[0] == before[0];
      TrimIs(before[1..], t, after);
    } else if after != [] {
      assert all[..|all| - 1] == before + t + after[..|after| - 1] && all[|all| - 1] == after[|after| - 1] && all[0] == t[0];
      TrimIs(before, t, after[..|after| - 1]);
    } else {
      assert all == t;
    }
  }

  // ---------------------------------------------------------------- layers

  /** A layer with a name: parentheses around names joined by dots, with blanks about them. */
  predicate NamedLayer(t: Text, before: Text, names: seq<Text>, after: Text) {
    |t| >= 5 && Lower(t[..5]) == LAYER && Padding(before) && Padding(after) && AllIdents(names)
    && t[5..] == [OPEN] + (before + Dots(names) + after) + [CLOSE]
  }

  lemma LayerLetters(h: Text)
    requires |h| == 5
    ensures Lower(h) == LAYER <==>
      SameLetter(h[0], 108) && SameLetter(h[1], 97) && SameLetter(h[2], 121) && SameLetter(h[3], 101) && SameLetter(h[4], 114)
  {
    forall i | 0 <= i < 5 ensures LowerUnit(h[i]) == LAYER[i] <==> SameLetter(h[i], LAYER[i]) { }
    if Lower(h) == LAYER { forall i | 0 <= i < 5 ensures LowerUnit(h[i]) == LAYER[i] { assert Lower(h)[i] == LAYER[i]; } }
  }

  lemma DotsTight(names: seq<Text>)
    requires AllIdents(names)
    ensures Dots(names) != [] && Tight(Dots(names))
  {
    DotsDotted(names);
    DottedUnits(Dots(names), true);
    hide Dots;
  }

  lemma LayeredIff(t: Text)
    ensures Layered(t) <==> (|t| == 5 && Lower(t) == LAYER) || exists before, names, after :: NamedLayer(t, before, names, after)
  {
    if |t| >= 5 {
      LayerLetters(t[..5]);
      assert |t| == 5 ==> t[..5] == t;
      if |t| >= 7 && t[5] == OPEN && t[|t| - 1] == CLOSE { LayerInside(t); }
      if before, names, after :| NamedLayer(t, before, names, after) { NamedShape(t, before, names, after); }
    }
    hide Lower, Dotted, Trim;
  }

  lemma NamedShape(t: Text, before: Text, names: seq<Text>, after: Text)
    requires NamedLayer(t, before, names, after)
    ensures |t| >= 7 && t[5] == OPEN && t[|t| - 1] == CLOSE
  {
    hide Lower, Dots;
    assert t[5..][0] == OPEN && t[5..][|t| - 6] == CLOSE;
  }

  lemma LayerInside(t: Text)
    requires |t| >= 7 && t[5] == OPEN && t[|t| - 1] == CLOSE
    ensures Dotted(Trim(t[6..|t| - 1]), true) && Lower(t[..5]) == LAYER
      <==> exists before, names, after :: NamedLayer(t, before, names, after)
  {
    hide Lower, Dotted, Trim, Dots;
    var inner := t[6..|t| - 1];
    assert t[5..] == [OPEN] + inner + [CLOSE];
    if Dotted(Trim(inner), true) && Lower(t[..5]) == LAYER {
      var before, after := TrimPads(inner);
      DottedIff(Trim(inner));
      var names :| AllIdents(names) && Dots(names) == Trim(inner);
      assert NamedLayer(t, before, names, after);
    }
    if before, names, after :| NamedLayer(t, before, names, after) {
      assert ([OPEN] + (before + Dots(names) + after) + [CLOSE])[1..|t| - 6] == before + Dots(names) + after;
      assert t[5..][1..|t| - 6] == inner;
      DotsTight(names);
      TrimIs(before, Dots(names), after);
      DotsDotted(names);
    }
  }

  // ---------------------------------------------------------------- rewriting

  /** The reference is empty or a fragment; or there is an answer for it, and it is no import or one whose suffix is
      missing, a layer or a named layer. */
  ghost predicate Rewritable(r: Reference, loader: Loader) {
    r.url == [] || r.url[0] == 35
    || (loader(r.url, r.kind).Some?
        && (r.kind == Style && r.qualifiers.Some? && r.qualifiers.value != [] ==>
              var q := r.qualifiers.value;
              (|q| == 5 && Lower(q) == LAYER) || exists before, names, after :: NamedLayer(q, before, names, after)))
  }

  /** A sheet is rewritten if and only if it scans and each of its references can be. */
  lemma RewrittenIff(source: Text, loader: Loader)
    ensures Rewrite(source, loader).Some? <==>
      Scan(source).Refs? && forall i :: 0 <= i < |Scan(source).refs| ==> Rewritable(Scan(source).refs[i], loader)
  {
    if Scan(source).Refs? {
      forall i | 0 <= i < |Scan(source).refs|
        ensures Rewritable(Scan(source).refs[i], loader) <==> Accepted(Scan(source).refs[i], loader)
      {
        var r := Scan(source).refs[i];
        if r.qualifiers.Some? { LayeredIff(r.qualifiers.value); }
        hide Scan, Layered, NamedLayer, Lower;
      }
    }
    hide Scan, Rewritable, Accepted, RewrittenPieces, Tokenize;
  }
}
