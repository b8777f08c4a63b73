/** The text of a part page read back: a reader of JSON that goes by field names (section 4 of RFC 8259, without blanks
    and escapes, of which the packer writes none) finds the version and every item as they were packed. */
module PageReading {
  import opened Collections
  import opened Base64
  import opened PackModel

  datatype Json = Text(text: string) | Number(number: nat) | Fields(fields: seq<(string, Json)>) | List(items: seq<Json>)

  datatype Got<T> = Got(value: T, rest: string)

  // ---------------------------------------------------------------- the reader

  predicate Numeral(c: char) { '0' <= c <= '9' }

  /** Up to the next quotation mark. */
  function ReadText(t: string): (r: Option<Got<string>>)
    ensures r.Some? ==> |r.value.rest| < |t|
  {
    if t == "" || t[0] == '\\' then None
    else if t[0] == '"' then Some(Got("", t[1..]))
    else
      var more := ReadText(t[1..]);
      if more.None? then None else Some(Got([t[0]] + more.value.value, more.value.rest))
  }

  /** The digits from here on, after a number already read. */
  function ReadNumber(t: string, so: nat): (r: Got<nat>)
    ensures |r.rest| <= |t|
  {
    if t == "" || !Numeral(t[0]) then Got(so, t) else ReadNumber(t[1..], so * 10 + (t[0] as nat - 48))
  }

  function ReadValue(t: string): (r: Option<Got<Json>>)
    ensures r.Some? ==> |r.value.rest| < |t|
    decreases |t|, 0
  {
    if t == "" then None
    else if t[0] == '"' then
      var s := ReadText(t[1..]);
      if s.None? then None else Some(Got(Text(s.value.value), s.value.rest))
    else if Numeral(t[0]) then
      var n := ReadNumber(t[1..], t[0] as nat - 48); Some(Got(Number(n.value), n.rest))
    else if t[0] == '{' then
      if |t| > 1 && t[1] == '}' then Some(Got(Fields([]), t[2..]))
      else
        var fs := ReadFields(t[1..]);
        if fs.None? then None else Some(Got(Fields(fs.value.value), fs.value.rest))
    else if t[0] == '[' then
      if |t| > 1 && t[1] == ']' then Some(Got(List([]), t[2..]))
      else
        var vs := ReadList(t[1..]);
        if vs.None? then None else Some(Got(List(vs.value.value), vs.value.rest))
    else None
  }

  function ReadFields(t: string): (r: Option<Got<seq<(string, Json)>>>)
    ensures r.Some? ==> |r.value.rest| < |t|
    decreases |t|, 1
  {
    if t == "" || t[0] != '"' then None
    else
      var name := ReadText(t[1..]);
      if name.None? || name.value.rest == "" || name.value.rest[0] != ':' then None
      else
        var v := ReadValue(name.value.rest[1..]);
        if v.None? || v.value.rest == "" then None
        else if v.value.rest[0] == '}' then Some(Got([(name.value.value, v.value.value)], v.value.rest[1..]))
        else if v.value.rest[0] != ',' then None
        else
          var more := ReadFields(v.value.rest[1..]);
          if more.None? then None
          else Some(Got([(name.value.value, v.value.value)] + more.value.value, more.value.rest))
  }

  function ReadList(t: string): (r: Option<Got<seq<Json>>>)
    ensures r.Some? ==> |r.value.rest| < |t|
    decreases |t|, 1
  {
    var v := ReadValue(t);
    if v.None? || v.value.rest == "" then None
    else if v.value.rest[0] == ']' then Some(Got([v.value.value], v.value.rest[1..]))
    else if v.value.rest[0] != ',' then None
    else
      var more := ReadList(v.value.rest[1..]);
      if more.None? then None else Some(Got([v.value.value] + more.value.value, more.value.rest))
  }

  // ---------------------------------------------------------------- what a page says

  function ItemJson(item: Item): Json {
    Fields([("recordId", Text(item.recordId)), ("index", Number(item.index)), ("count", Number(item.count)),
            ("totalBytes", Number(item.totalBytes)), ("sha256", Text(item.sha256)), ("data", Text(item.data))])
  }

  function ItemsJson(items: seq<Item>): (r: seq<Json>)
    ensures |r| == |items|
  {
    seq(|items|, i requires 0 <= i < |items| => ItemJson(items[i]))
  }

  function PageJson(page: Page): Json {
    Fields([("format", Text("atlas-record-page-v2")), ("namespaceVersionId", Text(page.version)),
            ("records", List(ItemsJson(page.items)))])
  }

  /** Text that JSON writes as it is, as digests, identifiers and base64 are. */
  predicate Clean(s: string) { '"' !in s && '\\' !in s }

  predicate CleanItem(item: Item) { Clean(item.recordId) && Clean(item.sha256) && Clean(item.data) }

  // ---------------------------------------------------------------- reading what was written

  lemma {:induction false} TextReads(s: string, rest: string)
    requires Clean(s)
    ensures ReadText(s + ("\"" + rest)) == Some(Got(s, rest))
    decreases |s|
  {
    var t := s + ("\"" + rest);
    if s == "" {
      assert t == "\"" + rest && t[1..] == rest;
    } else {
      assert t[1..] == s[1..] + ("\"" + rest) && t[0] == s[0];
      assert s[0] in s && forall c :: c in s[1..] ==> c in s;
      TextReads(s[1..], rest);
      assert [s[0]] + s[1..] == s;
    }
  }

  lemma PowerStep(so: nat, k: nat)
    ensures so * Power(k) * 10 == so * Power(k + 1)
  {
  }

  /** The digits of a number, whatever follows. */
  lemma {:induction false} DigitsFrom(n: nat, rest: string, so: nat)
    ensures Numeral(Digits(n)[0])
    ensures ReadNumber(Digits(n) + rest, so) == ReadNumber(rest, so * Power(|Digits(n)|) + n)
    decreases n
  {
    if n < 10 {
      var t := Digits(n) + rest;
      assert t[1..] == rest && t[0] == (48 + n) as char;
      assert Power(1) == 10;
    } else {
      var front, d := Digits(n / 10), [(48 + n % 10) as char];
      DigitsFrom(n / 10, d + rest, so);
      assert Digits(n) + rest == front + (d + rest);
      assert (d + rest)[1..] == rest && (d + rest)[0] == (48 + n % 10) as char;
      PowerStep(so, |front|);
    }
  }

  /** A value written by the packer, read in front of anything. */
  predicate ReadsAs(text: string, v: Json, rest: string) { ReadValue(text + rest) == Some(Got(v, rest)) }

  function Quoted(s: string): string { "\"" + s + "\"" }

  lemma QuotedReads(s: string, rest: string)
    requires Clean(s)
    ensures ReadsAs(Quoted(s), Text(s), rest)
  {
    TextReads(s, rest);
    assert (Quoted(s) + rest)[1..] == s + ("\"" + rest);
  }

  lemma DigitsRead(n: nat, rest: string)
    requires rest != "" && rest[0] == ','
    ensures ReadsAs(Digits(n), Number(n), rest)
  {
    hide Digits, ReadValue, Power;
    var t := Digits(n) + rest;
    DigitsFrom(n, rest, 0);
    assert t[0] == Digits(n)[0] && ReadNumber(rest, n) == Got(n, rest);
    NumberFrom(t, n, rest);
  }

  lemma NumberFrom(t: string, n: nat, rest: string)
    requires t != "" && Numeral(t[0]) && ReadNumber(t, 0) == Got(n, rest)
    ensures ReadValue(t) == Some(Got(Number(n), rest))
  {
    hide ReadText, ReadFields, ReadList;
    assert ReadNumber(t, 0) == ReadNumber(t[1..], t[0] as nat - 48);
  }

  function Named(name: string, value: string): string { "\"" + name + "\":" + value }

  lemma NameReads(name: string, value: string, rest: string)
    requires Clean(name)
    ensures var t := Named(name, value) + rest;
      t != "" && t[0] == '"' && ReadText(t[1..]) == Some(Got(name, ":" + (value + rest)))
  {
    TextReads(name, ":" + (value + rest));
    assert (Named(name, value) + rest)[1..] == name + ("\"" + (":" + (value + rest)));
  }

  lemma LastField(name: string, value: string, v: Json, rest: string)
    requires Clean(name) && ReadsAs(value, v, "}" + rest)
    ensures ReadFields(Named(name, value) + ("}" + rest)) == Some(Got([(name, v)], rest))
  {
    NameReads(name, value, "}" + rest);
    hide ReadText, ReadValue;
    assert (":" + (value + ("}" + rest)))[1..] == value + ("}" + rest) && ("}" + rest)[1..] == rest;
  }

  lemma FieldFirst(name: string, value: string, v: Json, more: string, fs: seq<(string, Json)>, rest: string)
    requires Clean(name) && ReadsAs(value, v, "," + more) && ReadFields(more) == Some(Got(fs, rest))
    ensures ReadFields(Named(name, value) + ("," + more)) == Some(Got([(name, v)] + fs, rest))
  {
    NameReads(name, value, "," + more);
    hide ReadText, ReadValue;
    assert (":" + (value + ("," + more)))[1..] == value + ("," + more) && ("," + more)[1..] == more;
  }

  /** An object and a list, from what stands after the bracket. */
  lemma ObjectFrom(t: string, fs: seq<(string, Json)>, rest: string)
    requires |t| > 1 && t[0] == '{' && t[1] == '"' && ReadFields(t[1..]) == Some(Got(fs, rest))
    ensures ReadValue(t) == Some(Got(Fields(fs), rest))
  {
    hide ReadText, ReadFields, ReadNumber, ReadList;
  }

  lemma ListFrom(t: string, vs: seq<Json>, rest: string)
    requires |t| > 1 && t[0] == '[' && t[1] != ']' && ReadList(t[1..]) == Some(Got(vs, rest))
    ensures ReadValue(t) == Some(Got(List(vs), rest))
  {
    hide ReadText, ReadFields, ReadNumber, ReadList;
  }

  lemma LastItem(text: string, v: Json, rest: string)
    requires ReadsAs(text, v, "]" + rest)
    ensures ReadList(text + ("]" + rest)) == Some(Got([v], rest))
  {
    hide ReadText, ReadFields, ReadNumber, ReadValue;
    assert ("]" + rest)[1..] == rest;
  }

  lemma ItemFirst(text: string, v: Json, more: string, vs: seq<Json>, rest: string)
    requires ReadsAs(text, v, "," + more) && ReadList(more) == Some(Got(vs, rest))
    ensures ReadList(text + ("," + more)) == Some(Got([v] + vs, rest))
  {
    hide ReadText, ReadFields, ReadNumber, ReadValue;
    assert ("," + more)[1..] == more;
  }

  // ---------------------------------------------------------------- an item

  lemma Regroup(a: string, b: string, rest: string)
    ensures a + b + rest == a + (b + rest)
  {
  }

  /** A field whose value is written without quotation marks, and one with them. */
  lemma BareField(name: string, value: string, rest: string)
    ensures "\"" + name + "\":" + (value + rest) == Named(name, value) + rest
  {
    Regroup("\"" + name + "\":", value, rest);
  }

  lemma QuotedField(name: string, value: string, rest: string)
    ensures "\"" + name + "\":\"" + (value + ("\"" + rest)) == Named(name, Quoted(value)) + rest
  {
    assert "\"" + name + "\":\"" + (value + ("\"" + rest)) == "\"" + name + "\":" + (Quoted(value) + rest);
    BareField(name, Quoted(value), rest);
  }

  /** The first half of an item's text and the second, each in front of anything. */
  lemma FrontLaidOut(id: string, index: string, count: string, rest: string)
    ensures "{\"recordId\":\"" + id + "\",\"index\":" + index + ",\"count\":" + count + rest
      == "{" + (Named("recordId", Quoted(id)) + ("," + (Named("index", index) + ("," + (Named("count", count) + rest)))))
  {
    var c := Named("count", count) + rest;
    var i := Named("index", index) + ("," + c);
    var l0, l1, l2 := "{\"recordId\":\"", "\",\"index\":", ",\"count\":";
    assert l0 + id + l1 + index + l2 + count + rest == l0 + id + l1 + index + (l2 + (count + rest));
    assert l2 + (count + rest) == "," + c by {
      BareField("count", count, rest);
      assert l2 == "," + ("\"" + "count" + "\":");
    }
    assert l0 + id + l1 + index + ("," + c) == l0 + id + (l1 + (index + ("," + c)));
    assert l1 + (index + ("," + c)) == "\"" + ("," + i) by {
      BareField("index", index, "," + c);
      assert l1 == "\"," + ("\"" + "index" + "\":");
    }
    assert l0 + id + ("\"" + ("," + i)) == l0 + (id + ("\"" + ("," + i)));
    QuotedField("recordId", id, "," + i);
    assert l0 == "{" + ("\"" + "recordId" + "\":\"");
  }

  lemma BackLaidOut(total: string, digest: string, data: string, rest: string)
    ensures ",\"totalBytes\":" + total + ",\"sha256\":\"" + digest + "\",\"data\":\"" + data + "\"}" + rest
      == "," + (Named("totalBytes", total) + ("," + (Named("sha256", Quoted(digest)) + ("," +
           (Named("data", Quoted(data)) + ("}" + rest))))))
  {
    var d := Named("data", Quoted(data)) + ("}" + rest);
    var s := Named("sha256", Quoted(digest)) + ("," + d);
    var l0, l1, l2 := ",\"totalBytes\":", ",\"sha256\":\"", "\",\"data\":\"";
    assert l0 + total + l1 + digest + l2 + data + "\"}" + rest
      == l0 + total + l1 + digest + (l2 + (data + ("\"" + ("}" + rest))));
    assert l2 + (data + ("\"" + ("}" + rest))) == "\"" + ("," + d) by {
      QuotedField("data", data, "}" + rest);
      assert l2 == "\"," + ("\"" + "data" + "\":\"");
    }
    assert l0 + total + l1 + digest + ("\"" + ("," + d)) == l0 + total + (l1 + (digest + ("\"" + ("," + d))));
    assert l1 + (digest + ("\"" + ("," + d))) == "," + s by {
      QuotedField("sha256", digest, "," + d);
      assert l1 == "," + ("\"" + "sha256" + "\":\"");
    }
    assert l0 + total + ("," + s) == l0 + (total + ("," + s));
    BareField("totalBytes", total, "," + s);
    assert l0 == "," + ("\"" + "totalBytes" + "\":");
  }

  lemma NamesAreClean()
    ensures Clean("recordId") && Clean("index") && Clean("count") && Clean("totalBytes") && Clean("sha256") && Clean("data")
  {
  }

  lemma PageNamesAreClean()
    ensures Clean("format") && Clean("namespaceVersionId") && Clean("records")
  {
  }

  lemma FormatIsClean()
    ensures Clean("atlas-record-page-v2")
  {
  }

  /** The fields of an item read one after the other. */
  lemma BackReads(item: Item, rest: string)
    requires Clean(item.recordId) && Clean(item.sha256) && Clean(item.data)
    ensures ReadFields(Named("totalBytes", Digits(item.totalBytes)) + ("," + (Named("sha256", Quoted(item.sha256)) + (","
      + (Named("data", Quoted(item.data)) + ("}" + rest))))))
      == Some(Got([("totalBytes", Number(item.totalBytes)), ("sha256", Text(item.sha256)), ("data", Text(item.data))],
                  rest))
  {
    hide *;
    NamesAreClean();
    var d := Named("data", Quoted(item.data)) + ("}" + rest);
    var s := Named("sha256", Quoted(item.sha256)) + ("," + d);
    QuotedReads(item.data, "}" + rest);
    LastField("data", Quoted(item.data), Text(item.data), rest);
    QuotedReads(item.sha256, "," + d);
    FieldFirst("sha256", Quoted(item.sha256), Text(item.sha256), d, [("data", Text(item.data))], rest);
    DigitsRead(item.totalBytes, "," + s);
    FieldFirst("totalBytes", Digits(item.totalBytes), Number(item.totalBytes), s,
               [("sha256", Text(item.sha256))] + [("data", Text(item.data))], rest);
    assert [("totalBytes", Number(item.totalBytes))] + ([("sha256", Text(item.sha256))] + [("data", Text(item.data))])
      == [("totalBytes", Number(item.totalBytes)), ("sha256", Text(item.sha256)), ("data", Text(item.data))];
  }

  lemma FrontReads(item: Item, more: string, fs: seq<(string, Json)>, rest: string)
    requires Clean(item.recordId) && Clean(item.sha256) && Clean(item.data) && ReadFields(more) == Some(Got(fs, rest))
    ensures ReadFields(Named("recordId", Quoted(item.recordId)) + ("," + (Named("index", Digits(item.index)) + (","
      + (Named("count", Digits(item.count)) + ("," + more))))))
      == Some(Got([("recordId", Text(item.recordId)), ("index", Number(item.index)), ("count", Number(item.count))] + fs,
                  rest))
  {
    hide *;
    NamesAreClean();
    var c := Named("count", Digits(item.count)) + ("," + more);
    var i := Named("index", Digits(item.index)) + ("," + c);
    DigitsRead(item.count, "," + more);
    FieldFirst("count", Digits(item.count), Number(item.count), more, fs, rest);
    DigitsRead(item.index, "," + c);
    FieldFirst("index", Digits(item.index), Number(item.index), c, [("count", Number(item.count))] + fs, rest);
    QuotedReads(item.recordId, "," + i);
    FieldFirst("recordId", Quoted(item.recordId), Text(item.recordId), i,
               [("index", Number(item.index))] + ([("count", Number(item.count))] + fs), rest);
    assert [("recordId", Text(item.recordId))] + ([("index", Number(item.index))] + ([("count", Number(item.count))] + fs))
      == [("recordId", Text(item.recordId)), ("index", Number(item.index)), ("count", Number(item.count))] + fs;
  }

  /** An item's text, in front of anything, is laid out field by field. */
  lemma RenderLaidOut(item: Item, back: string, rest: string)
    requires back == Named("totalBytes", Digits(item.totalBytes)) + ("," + (Named("sha256", Quoted(item.sha256)) + (","
      + (Named("data", Quoted(item.data)) + ("}" + rest)))))
    ensures Render(item) + rest == "{" + (Named("recordId", Quoted(item.recordId)) + ("," + (Named("index",
      Digits(item.index)) + ("," + (Named("count", Digits(item.count)) + ("," + back))))))
  {
    var tail := ",\"totalBytes\":" + Digits(item.totalBytes) + ",\"sha256\":\"" + item.sha256 + "\",\"data\":\""
      + item.data + "\"}" + rest;
    BackLaidOut(Digits(item.totalBytes), item.sha256, item.data, rest);
    FrontLaidOut(item.recordId, Digits(item.index), Digits(item.count), tail);
    var front := "{\"recordId\":\"" + item.recordId + "\",\"index\":" + Digits(item.index) + ",\"count\":"
      + Digits(item.count);
    Flatten(front, ",\"totalBytes\":", Digits(item.totalBytes), ",\"sha256\":\"", item.sha256, "\",\"data\":\"",
            item.data, "\"}", rest);
    hide Named, Quoted, Digits;
  }

  lemma Flatten(front: string, a: string, b: string, c: string, d: string, e: string, f: string, g: string, rest: string)
    ensures front + a + b + c + d + e + f + g + rest == front + (a + b + c + d + e + f + g + rest)
  {
  }

  lemma ItemReads(item: Item, rest: string)
    requires CleanItem(item)
    ensures ReadsAs(Render(item), ItemJson(item), rest)
  {
    var back := Named("totalBytes", Digits(item.totalBytes)) + ("," + (Named("sha256", Quoted(item.sha256)) + (","
      + (Named("data", Quoted(item.data)) + ("}" + rest)))));
    var fs := [("totalBytes", Number(item.totalBytes)), ("sha256", Text(item.sha256)), ("data", Text(item.data))];
    BackReads(item, rest);
    FrontReads(item, back, fs, rest);
    RenderLaidOut(item, back, rest);
    ItemFrom(item, Named("recordId", Quoted(item.recordId)) + ("," + (Named("index", Digits(item.index)) + (","
      + (Named("count", Digits(item.count)) + ("," + back))))), fs, rest);
  }

  lemma ItemFrom(item: Item, body: string, fs: seq<(string, Json)>, rest: string)
    requires fs == [("totalBytes", Number(item.totalBytes)), ("sha256", Text(item.sha256)), ("data", Text(item.data))]
    requires body != "" && body[0] == '"' && Render(item) + rest == "{" + body
    requires ReadFields(body) == Some(Got([("recordId", Text(item.recordId)), ("index", Number(item.index)),
      ("count", Number(item.count))] + fs, rest))
    ensures ReadsAs(Render(item), ItemJson(item), rest)
  {
    hide ReadFields, ReadValue, Render;
    assert ("{" + body)[1..] == body;
    var front := [("recordId", Text(item.recordId)), ("index", Number(item.index)), ("count", Number(item.count))];
    ObjectFrom("{" + body, front + fs, rest);
    assert front + fs == ItemJson(item).fields;
  }

  // ---------------------------------------------------------------- a page

  /** The text of the items, taken from the front. */
  lemma {:induction false} RenderFront(items: seq<Item>)
    requires |items| >= 2
    ensures RenderAll(items) == Render(items[0]) + ("," + RenderAll(items[1..]))
    decreases |items|
  {
    hide Render;
    var front, last := items[..|items| - 1], items[|items| - 1];
    if |items| > 2 {
      RenderFront(front);
      assert items[1..][..|items| - 2] == front[1..] && items[1..][|items| - 2] == last;
      RegroupFront(Render(items[0]), RenderAll(front[1..]), Render(last), RenderAll(front), RenderAll(items[1..]));
    } else {
      assert front == [items[0]] && items[1..] == [last];
      RegroupPair(Render(items[0]), Render(last));
    }
  }

  lemma RegroupPair(first: string, last: string)
    ensures first + "," + last == first + ("," + last)
  {
  }

  lemma RegroupFront(first: string, middle: string, last: string, front: string, rest: string)
    requires front == first + ("," + middle) && rest == middle + "," + last
    ensures front + "," + last == first + ("," + rest)
  {
  }

  lemma {:induction false} ItemsRead(items: seq<Item>, rest: string)
    requires items != [] && forall i :: 0 <= i < |items| ==> CleanItem(items[i])
    ensures ReadList(RenderAll(items) + ("]" + rest)) == Some(Got(ItemsJson(items), rest))
    ensures RenderAll(items) != "" && RenderAll(items)[0] == '{'
    decreases |items|
  {
    hide Render, CleanItem, ReadsAs, ReadList, ItemJson;
    if |items| == 1 {
      ItemReads(items[0], "]" + rest);
      LastItem(Render(items[0]), ItemJson(items[0]), rest);
      assert ItemsJson(items) == [ItemJson(items[0])];
    } else {
      var more := RenderAll(items[1..]) + ("]" + rest);
      ItemsRead(items[1..], rest);
      ItemReads(items[0], "," + more);
      ItemFirst(Render(items[0]), ItemJson(items[0]), more, ItemsJson(items[1..]), rest);
      RenderFront(items);
      assert RenderAll(items) + ("]" + rest) == Render(items[0]) + ("," + more);
      assert ItemsJson(items) == [ItemJson(items[0])] + ItemsJson(items[1..]);
    }
    RenderOpens(items[0]);
  }

  lemma RenderOpens(item: Item)
    ensures Render(item) != "" && Render(item)[0] == '{'
  {
    RenderLaidOut(item, Named("totalBytes", Digits(item.totalBytes)) + ("," + (Named("sha256", Quoted(item.sha256)) + (","
      + (Named("data", Quoted(item.data)) + ("}" + ""))))), "");
    assert Render(item) + "" == Render(item);
    hide Digits;
  }

  lemma ListText(items: seq<Item>, rest: string)
    requires forall i :: 0 <= i < |items| ==> CleanItem(items[i])
    ensures ReadsAs("[" + RenderAll(items) + "]", List(ItemsJson(items)), rest)
  {
    hide RenderAll, CleanItem, ReadValue, ReadList, ReadFields, ReadText, ReadNumber, ItemsJson;
    if items == [] {
      EmptyList(items, "[" + RenderAll(items) + "]" + rest, rest);
    } else {
      ItemsRead(items, rest);
      LongList(RenderAll(items), ItemsJson(items), rest);
    }
  }

  lemma LongList(text: string, vs: seq<Json>, rest: string)
    requires text != "" && text[0] == '{' && ReadList(text + ("]" + rest)) == Some(Got(vs, rest))
    ensures ReadsAs("[" + text + "]", List(vs), rest)
  {
    hide ReadValue, ReadList;
    var t := "[" + text + "]" + rest;
    assert t[1..] == text + ("]" + rest) && t[1] == text[0];
    ListFrom(t, vs, rest);
  }

  lemma EmptyList(items: seq<Item>, t: string, rest: string)
    requires items == [] && t == "[" + RenderAll(items) + "]" + rest
    ensures ReadValue(t) == Some(Got(List(ItemsJson(items)), rest))
  {
    hide ReadList, ReadFields, ReadText, ReadNumber;
    assert RenderAll(items) == "";
    assert t == "[]" + rest && t[2..] == rest;
    assert ItemsJson(items) == [];
  }

  /** The text of a page, read by its field names, gives back its version and each of its items, and nothing of the text
      is left over. */
  lemma PageReads(page: Page)
    requires Clean(page.version) && forall i :: 0 <= i < |page.items| ==> CleanItem(page.items[i])
    ensures ReadValue(PageText(page)) == Some(Got(PageJson(page), ""))
  {
    hide *;
    PageNamesAreClean();
    FormatIsClean();
    var list := "[" + RenderAll(page.items) + "]";
    var records := Named("records", list) + ("}" + "");
    var version := Named("namespaceVersionId", Quoted(page.version)) + ("," + records);
    var body := Named("format", Quoted("atlas-record-page-v2")) + ("," + version);
    ListText(page.items, "}" + "");
    LastField("records", list, List(ItemsJson(page.items)), "");
    QuotedReads(page.version, "," + records);
    FieldFirst("namespaceVersionId", Quoted(page.version), Text(page.version), records,
               [("records", List(ItemsJson(page.items)))], "");
    QuotedReads("atlas-record-page-v2", "," + version);
    FieldFirst("format", Quoted("atlas-record-page-v2"), Text("atlas-record-page-v2"), version,
               [("namespaceVersionId", Text(page.version))] + [("records", List(ItemsJson(page.items)))], "");
    PageLaidOut(page, RenderAll(page.items), records, version, body);
    PageFrom(page, body);
  }

  lemma FormatLaidOut(format: string)
    requires format == Named("format", Quoted("atlas-record-page-v2"))
    ensures "{\"format\":\"atlas-record-page-v2\",\"namespaceVersionId\":\"" == "{" + (format + ",\"namespaceVersionId\":\"")
  {
    hide *;
    FormatQuoted();
    FormatName(format);
    OpeningSplits();
    OpeningBrace();
    Regroup("{", format, ",\"namespaceVersionId\":\"");
  }

  lemma FormatQuoted()
    ensures Quoted("atlas-record-page-v2") == "\"atlas-record-page-v2\""
  {
  }

  lemma OpeningSplits()
    ensures "{\"format\":\"atlas-record-page-v2\",\"namespaceVersionId\":\""
      == "{\"format\":\"atlas-record-page-v2\"" + ",\"namespaceVersionId\":\""
  {
  }

  lemma OpeningBrace()
    ensures "{\"format\":\"atlas-record-page-v2\"" == "{" + "\"format\":\"atlas-record-page-v2\""
  {
  }

  lemma FormatName(format: string)
    requires format == Named("format", "\"atlas-record-page-v2\"")
    ensures format == "\"format\":\"atlas-record-page-v2\""
  {
  }

  lemma PageJoins(opening: string, id: string, back: string, format: string, version: string, body: string)
    requires opening == "{" + (format + ",\"namespaceVersionId\":\"")
    requires version == "\"" + "namespaceVersionId" + "\":\"" + (id + back) && body == format + ("," + version)
    ensures opening + (id + back) == "{" + body
  {
    assert "\"" + "namespaceVersionId" + "\":\"" == "\"namespaceVersionId\":\"";
    assert ",\"namespaceVersionId\":\"" == "," + "\"namespaceVersionId\":\"";
  }

  lemma PageLaidOut(page: Page, items: string, records: string, version: string, body: string)
    requires items == RenderAll(page.items)
    requires records == Named("records", "[" + items + "]") + ("}" + "")
    requires version == Named("namespaceVersionId", Quoted(page.version)) + ("," + records)
    requires body == Named("format", Quoted("atlas-record-page-v2")) + ("," + version)
    ensures PageText(page) == "{" + body && body != "" && body[0] == '"'
  {
    hide RenderAll;
    QuotedField("namespaceVersionId", page.version, "," + records);
    var l0, l1 := "{\"format\":\"atlas-record-page-v2\",\"namespaceVersionId\":\"", "\",\"records\":[";
    assert l0 + page.version + l1 + items + "]}" == l0 + (page.version + (l1 + (items + "]}")));
    assert l1 + (items + "]}") == "\"" + ("," + records);
    FormatLaidOut(Named("format", Quoted("atlas-record-page-v2")));
    PageJoins(l0, page.version, "\"" + ("," + records), Named("format", Quoted("atlas-record-page-v2")), version, body);
  }

  lemma PageFrom(page: Page, body: string)
    requires PageText(page) == "{" + body && body != "" && body[0] == '"'
    requires ReadFields(body) == Some(Got([("format", Text("atlas-record-page-v2"))]
      + ([("namespaceVersionId", Text(page.version))] + [("records", List(ItemsJson(page.items)))]), ""))
    ensures ReadValue(PageText(page)) == Some(Got(PageJson(page), ""))
  {
    hide ReadFields, ReadValue, PageText;
    assert ("{" + body)[1..] == body;
    var fs := [("format", Text("atlas-record-page-v2"))]
      + ([("namespaceVersionId", Text(page.version))] + [("records", List(ItemsJson(page.items)))]);
    ObjectFrom("{" + body, fs, "");
    assert Fields(fs) == PageJson(page);
  }

  // ---------------------------------------------------------------- what the packer writes

  lemma LetterIsClean(v: nat)
    requires v < 64
    ensures Letter(v) != '"' && Letter(v) != '\\'
  {
  }

  /** base64 needs no escapes. */
  lemma {:induction false} EncodedIsClean(bs: Bytes)
    ensures Clean(Encode(bs))
    decreases |bs|
  {
    if bs != [] {
      LetterIsClean(bs[0] / 4);
      if |bs| == 1 {
        LetterIsClean(bs[0] % 4 * 16);
      } else {
        LetterIsClean(bs[0] % 4 * 16 + bs[1] / 16);
        if |bs| == 2 {
          LetterIsClean(bs[1] % 16 * 4);
        } else {
          LetterIsClean(bs[1] % 16 * 4 + bs[2] / 64);
          LetterIsClean(bs[2] % 64);
          EncodedIsClean(bs[3..]);
          hide Letter;
        }
      }
    }
  }

  /** Every fragment of a record is read back from its text, whatever its bytes are. */
  lemma FragmentReads(hash: Hash, r: Record, index: nat, rest: string)
    requires Clean(r.id) && Clean(hash(r.bytes))
    ensures ReadsAs(Render(ItemAt(hash, r, index)), ItemJson(ItemAt(hash, r, index)), rest)
  {
    EncodedIsClean(Fragment(r.bytes, index));
    hide Fragment, Encode, Clean;
    ItemReads(ItemAt(hash, r, index), rest);
  }
}
