/** How a row of items is cut into pages: each page takes items as long as they fit. No way to cut the row into pages
    that keep the limits has fewer of them. */
module PackDivision {
  import opened Collections
  import opened Base64
  import opened PackModel
  import PageReading

  predicate FitsPage(version: Uuid, items: seq<Item>) {
    |items| <= MOST_ITEMS && |PageText(Page(version, items))| <= PART_BYTES
  }

  /** The pages that are full and the one that is being filled. */
  datatype Cut = Cut(full: seq<seq<Item>>, open: seq<Item>)

  function Divide(version: Uuid, items: seq<Item>): (d: Cut)
    ensures items != [] ==> d.open != []
    ensures |d.full| <= |items|
  {
    if items == [] then Cut([], [])
    else
      var (d, item) := (Divide(version, items[..|items| - 1]), items[|items| - 1]);
      if d.open == [] || FitsPage(version, d.open + [item]) then Cut(d.full, d.open + [item])
      else Cut(d.full + [d.open], [item])
  }

  function Closed(d: Cut): seq<seq<Item>> { if d.open == [] then d.full else d.full + [d.open] }

  function Joined(pages: seq<seq<Item>>): seq<Item> {
    if pages == [] then [] else Joined(pages[..|pages| - 1]) + pages[|pages| - 1]
  }

  /** A way to cut the items, in order, into pages that keep the limits. */
  predicate Division(version: Uuid, pages: seq<seq<Item>>, items: seq<Item>) {
    Joined(pages) == items && forall i :: 0 <= i < |pages| ==> pages[i] != [] && FitsPage(version, pages[i])
  }

  lemma JoinedOn(pages: seq<seq<Item>>, page: seq<Item>)
    ensures Joined(pages + [page]) == Joined(pages) + page
  {
    assert (pages + [page])[..|pages|] == pages;
  }

  // ---------------------------------------------------------------- parts of pages that fit

  lemma FrontFits(version: Uuid, items: seq<Item>)
    requires items != [] && FitsPage(version, items)
    ensures FitsPage(version, items[..|items| - 1])
  {
    var front := items[..|items| - 1];
    PageTextGrows(Page(version, front), items[|items| - 1]);
    assert front + [items[|items| - 1]] == items;
  }

  lemma TailFits(version: Uuid, items: seq<Item>)
    requires items != [] && FitsPage(version, items)
    ensures FitsPage(version, items[1..])
  {
    hide Render;
    if |items| >= 2 { PageReading.RenderFront(items); }
  }

  lemma {:induction false} BackFits(version: Uuid, items: seq<Item>, n: nat)
    requires n <= |items| && FitsPage(version, items)
    ensures FitsPage(version, items[n..])
    decreases n
  {
    if n == 0 {
      assert items[0..] == items;
    } else {
      TailFits(version, items);
      hide FitsPage;
      BackFits(version, items[1..], n - 1);
      assert items[1..][n - 1..] == items[n..];
    }
  }

  // ---------------------------------------------------------------- the division

  lemma {:induction false} DivideJoins(version: Uuid, items: seq<Item>)
    ensures var d := Divide(version, items); Joined(d.full) + d.open == items && Joined(Closed(d)) == items
  {
    hide FitsPage;
    if items != [] {
      var front, item := items[..|items| - 1], items[|items| - 1];
      var d := Divide(version, front);
      DivideJoins(version, front);
      assert front + [item] == items;
      JoinedOn(d.full, d.open);
      if Divide(version, items).full == d.full {
        assert Joined(d.full) + (d.open + [item]) == items;
      }
      JoinedOn(Divide(version, items).full, Divide(version, items).open);
    }
  }

  /** Its pages keep the limits, if every item fits a page of its own. */
  lemma {:induction false} DivideFits(version: Uuid, items: seq<Item>)
    requires forall i :: 0 <= i < |items| ==> FitsPage(version, [items[i]])
    ensures var d := Divide(version, items);
      (forall i :: 0 <= i < |d.full| ==> d.full[i] != [] && FitsPage(version, d.full[i]))
      && (d.open != [] ==> FitsPage(version, d.open))
  {
    hide FitsPage;
    if items != [] {
      DivideFits(version, items[..|items| - 1]);
      assert [] + [items[|items| - 1]] == [items[|items| - 1]];
    }
  }

  lemma DivideDivides(version: Uuid, items: seq<Item>)
    requires forall i :: 0 <= i < |items| ==> FitsPage(version, [items[i]])
    ensures Division(version, Closed(Divide(version, items)), items)
  {
    hide FitsPage, Joined;
    DivideJoins(version, items);
    DivideFits(version, items);
  }

  /** However else the items are cut, as many pages are needed, and the last of them holds no less. */
  predicate KeepsAhead(d: Cut, pages: seq<seq<Item>>) {
    |d.full| + 1 < |pages| || (|d.full| + 1 == |pages| && |d.open| <= |pages[|pages| - 1]|)
  }

  /** The last item goes onto the open page or starts the next. */
  predicate Continues(version: Uuid, d: Cut, item: Item, d': Cut) {
    if d.open == [] || FitsPage(version, d.open + [item]) then d' == Cut(d.full, d.open + [item])
    else d' == Cut(d.full + [d.open], [item])
  }

  lemma Continued(version: Uuid, front: seq<Item>, item: Item)
    ensures Continues(version, Divide(version, front), item, Divide(version, front + [item]))
  {
    assert (front + [item])[..|front|] == front;
  }

  /** Without the last item. */
  lemma DivisionOfFront(version: Uuid, pages: seq<seq<Item>>, front: seq<Item>, item: Item)
    requires Division(version, pages, front + [item])
    ensures pages != []
    ensures var (others, last) := (pages[..|pages| - 1], pages[|pages| - 1]);
      last != [] && last[|last| - 1] == item && FitsPage(version, last)
      && (if |last| == 1 then Division(version, others, front)
          else Division(version, others + [last[..|last| - 1]], front))
  {
    var (others, last) := (pages[..|pages| - 1], pages[|pages| - 1]);
    hide FitsPage;
    assert last[|last| - 1] == (front + [item])[|front|];
    var most := last[..|last| - 1];
    assert last == most + [item];
    assert Joined(others) + most == front by {
      assert Joined(others) + most == (Joined(others) + last)[..|front|] == front;
    }
    if |last| > 1 {
      FrontFits(version, last);
      JoinedOn(others, most);
    }
  }

  lemma {:induction false} GreedyKeepsAhead(version: Uuid, items: seq<Item>, pages: seq<seq<Item>>)
    requires items != [] && Division(version, pages, items)
    ensures KeepsAhead(Divide(version, items), pages)
    decreases |items|
  {
    hide FitsPage, Divide, Division, Joined;
    var front, item := items[..|items| - 1], items[|items| - 1];
    assert items == front + [item];
    DivisionOfFront(version, pages, front, item);
    Continued(version, front, item);
    var others, last := pages[..|pages| - 1], pages[|pages| - 1];
    if front == [] {
      assert Divide(version, []) == Cut([], []) by { DivideNothing(version); }
    } else if |last| == 1 {
      GreedyKeepsAhead(version, front, others);
      DivideOpen(version, front);
    } else {
      var shorter := others + [last[..|last| - 1]];
      GreedyKeepsAhead(version, front, shorter);
      if |Divide(version, front).full| + 1 == |pages| { OpenTakesMore(version, front, item, shorter, last); }
    }
  }

  lemma DivideNothing(version: Uuid)
    ensures Divide(version, []) == Cut([], [])
  {
  }

  lemma DivideOpen(version: Uuid, items: seq<Item>)
    requires items != []
    ensures Divide(version, items).open != []
  {
  }

  lemma Endings(a: seq<Item>, b: seq<Item>, c: seq<Item>, d: seq<Item>, item: Item)
    requires a + b == c + d && |b| <= |d|
    ensures b + [item] == (d + [item])[|d| - |b|..]
  {
    forall i | 0 <= i < |b| ensures b[i] == d[|d| - |b| + i] {
      assert b[i] == (a + b)[|a| + i] && d[|d| - |b| + i] == (c + d)[|c| + |d| - |b| + i];
    }
  }

  /** The open page holds no more than the last page of the others, so that what fits there fits here. */
  lemma OpenTakesMore(version: Uuid, front: seq<Item>, item: Item, shorter: seq<seq<Item>>, last: seq<Item>)
    requires Division(version, shorter, front) && shorter != [] && last == shorter[|shorter| - 1] + [item]
    requires FitsPage(version, last) && |Divide(version, front).open| <= |shorter[|shorter| - 1]|
    ensures FitsPage(version, Divide(version, front).open + [item])
  {
    hide FitsPage, Divide;
    var (d, most) := (Divide(version, front), shorter[|shorter| - 1]);
    DivideJoins(version, front);
    Endings(Joined(d.full), d.open, Joined(shorter[..|shorter| - 1]), most, item);
    hide *;
    BackFits(version, last, |most| - |d.open|);
  }

  /** No division has fewer pages. */
  lemma DivideIsTightest(version: Uuid, items: seq<Item>, pages: seq<seq<Item>>)
    requires Division(version, pages, items)
    ensures |Closed(Divide(version, items))| <= |pages|
  {
    if items != [] {
      GreedyKeepsAhead(version, items, pages);
      hide Division;
    }
  }

  /** More items never take fewer pages, and the full pages stay. */
  lemma {:induction false} DivideGrows(version: Uuid, items: seq<Item>, more: seq<Item>)
    ensures |Closed(Divide(version, items))| <= |Closed(Divide(version, items + more))|
    decreases |more|
  {
    hide FitsPage;
    if more == [] {
      assert items + more == items;
    } else {
      var front := more[..|more| - 1];
      DivideGrows(version, items, front);
      assert (items + more)[..|items + more| - 1] == items + front;
    }
  }
}
