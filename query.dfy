/**
 * GenerateURLPath in utils.go: it renders the int fields of a query struct
 * as `name=value` pairs, lower-cases the names, sorts the pairs by name the
 * way url.Values.Encode does and appends the result to a path after `?`
 * (or after `&` when the path already has a query).
 *
 * The struct is given as the sequence of its fields in declaration order;
 * reflection and its panics become the requires clause of GenerateURLPath.
 * url.Values is filled only by Add here, so it is represented by the
 * sequence of pairs in the order they were added: the values stored under
 * a key are the values of that key's pairs in that order.
 */
module Query {
  import opened Text

  datatype Field = Field(name: string, value: int)

  datatype Pair = Pair(key: string, value: string)

  /** An exported Go identifier in ASCII: reflect's Interface() panics on
      an unexported field. */
  predicate IsExportedName(name: string) {
    && |name| > 0
    && IsUpper(name[0])
    && forall i :: 0 <= i < |name| ==>
         ('a' <= name[i] <= 'z') || IsUpper(name[i]) || IsDigit(name[i]) || name[i] == '_'
  }

  /** The pair one field contributes: `strings.ToLower(name)=strconv.Itoa(value)`. */
  function FieldPair(f: Field): Pair {
    Pair(ToLower(f.name), Itoa(f.value))
  }

  function Pairs(fields: seq<Field>): (ps: seq<Pair>)
    ensures |ps| == |fields|
    ensures forall i :: 0 <= i < |ps| ==> ps[i] == FieldPair(fields[i])
  {
    seq(|fields|, i requires 0 <= i < |fields| => FieldPair(fields[i]))
  }

  // ---------------------------------------------------------------------
  // url.Values.Encode: keys in sorted order, the values of one key in the
  // order they were added, each pair as key=value, joined with '&'.

  predicate SortedByKey(ps: seq<Pair>) {
    forall i, j :: 0 <= i < j < |ps| ==> LessEq(ps[i].key, ps[j].key)
  }

  /** Insert p before the first pair whose key sorts strictly after it. */
  function Insert(ps: seq<Pair>, p: Pair): seq<Pair> {
    if ps == [] then [p]
    else if !LessEq(ps[0].key, p.key) then [p] + ps
    else [ps[0]] + Insert(ps[1..], p)
  }

  function SortByKey(ps: seq<Pair>): seq<Pair> {
    if ps == [] then [] else Insert(SortByKey(ps[..|ps| - 1]), ps[|ps| - 1])
  }

  function RenderPair(p: Pair): string {
    p.key + "=" + p.value
  }

  function Render(ps: seq<Pair>): string {
    if ps == [] then ""
    else if |ps| == 1 then RenderPair(ps[0])
    else RenderPair(ps[0]) + "&" + Render(ps[1..])
  }

  function Encode(v: seq<Pair>): string {
    Render(SortByKey(v))
  }

  /** The pairs of ps with key k, in their order in ps. */
  function WithKey(ps: seq<Pair>, k: string): seq<Pair> {
    if ps == [] then []
    else (if ps[0].key == k then [ps[0]] else []) + WithKey(ps[1..], k)
  }

  // ---------------------------------------------------------------------
  // The reading side: url.ParseQuery and url.Values.Get, for queries
  // without escapes.

  /** Split at '&', drop empty segments, split each segment at its first '='. */
  function ParseQuery(s: string): seq<Pair>
    decreases |s|
  {
    if s == [] then []
    else
      var (segment, rest, _) := Cut(s, '&');
      var (key, value, _) := Cut(segment, '=');
      (if segment == [] then [] else [Pair(key, value)]) + ParseQuery(rest)
  }

  /** url.Values.Get: the first value of key k, or "" when there is none. */
  function Get(ps: seq<Pair>, k: string): string {
    if ps == [] then "" else if ps[0].key == k then ps[0].value else Get(ps[1..], k)
  }

  /** The decimal value of the first field whose lower-cased name is k. */
  function Lookup(fields: seq<Field>, k: string): string {
    if fields == [] then ""
    else if ToLower(fields[0].name) == k then Itoa(fields[0].value)
    else Lookup(fields[1..], k)
  }

  // ---------------------------------------------------------------------

  /** GenerateURLPath(path, query). */
  method GenerateURLPath(path: string, fields: seq<Field>) returns (r: string)
    requires forall i :: 0 <= i < |fields| ==> IsExportedName(fields[i].name)
    ensures r == path + (if '?' in path then "&" else "?") + Encode(Pairs(fields))
    ensures r[..|path|] == path
    ensures r[|path|] == if '?' in path then '&' else '?'
    ensures '?' in r
  {
    var v: seq<Pair> := [];
    var i := 0;
    while i < |fields|
      invariant 0 <= i <= |fields|
      invariant v == Pairs(fields[..i])
    {
      v := v + [Pair(ToLower(fields[i].name), Itoa(fields[i].value))];
      i := i + 1;
    }
    assert fields[..i] == fields;

    var urlQuery := Encode(v);

    // A path that already has a query gets the new pairs after '&'.
    var p := path;
    if '?' in p {
      p := p + "&" + urlQuery;
    } else {
      p := p + "?" + urlQuery;
    }
    assert p[|path|] in p;
    return p;
  }

  // ---------------------------------------------------------------------
  // Encode sorts: the result is ordered by key and a permutation of the
  // pairs added.

  lemma {:induction false} InsertSorted(ps: seq<Pair>, p: Pair)
    requires SortedByKey(ps)
    ensures SortedByKey(Insert(ps, p))
    ensures multiset(Insert(ps, p)) == multiset(ps) + multiset{p}
    decreases |ps|
  {
    if ps == [] {
    } else if !LessEq(ps[0].key, p.key) {
      LessEqTotal(ps[0].key, p.key);
      forall j | 0 <= j < |ps| ensures LessEq(p.key, ps[j].key) {
        if j > 0 { LessEqTransitive(p.key, ps[0].key, ps[j].key); }
      }
      assert ps == [ps[0]] + ps[1..];
    } else {
      var tail := ps[1..];
      var rest := Insert(tail, p);
      InsertSorted(tail, p);
      forall j | 0 <= j < |rest| ensures LessEq(ps[0].key, rest[j].key) {
        assert rest[j] in multiset(rest);
        if rest[j] != p {
          assert rest[j] in multiset(tail);
          var m :| 0 <= m < |tail| && tail[m] == rest[j];
          assert tail[m] == ps[m + 1];
        }
      }
      assert ps == [ps[0]] + tail;
    }
  }

  /** The pairs come out ordered by key and are exactly the pairs added. */
  lemma {:induction false} SortByKeySorts(ps: seq<Pair>)
    ensures SortedByKey(SortByKey(ps))
    ensures multiset(SortByKey(ps)) == multiset(ps)
    decreases |ps|
  {
    if ps != [] {
      var prefix := ps[..|ps| - 1];
      SortByKeySorts(prefix);
      InsertSorted(SortByKey(prefix), ps[|ps| - 1]);
      assert ps == prefix + [ps[|ps| - 1]];
    }
  }

  lemma SortByKeyMembers(ps: seq<Pair>, x: Pair)
    requires x in SortByKey(ps)
    ensures x in ps
  {
    SortByKeySorts(ps);
    assert x in multiset(SortByKey(ps));
  }

  // ---------------------------------------------------------------------
  // Encode is stable: the values of one key keep the order of the Add calls.

  lemma {:induction false} WithKeyAppend(a: seq<Pair>, b: seq<Pair>, k: string)
    ensures WithKey(a + b, k) == WithKey(a, k) + WithKey(b, k)
    decreases |a|
  {
    if a == [] {
      assert a + b == b;
    } else {
      assert (a + b)[0] == a[0] && (a + b)[1..] == a[1..] + b;
      WithKeyAppend(a[1..], b, k);
    }
  }

  lemma {:induction false} WithKeyAbsent(ps: seq<Pair>, k: string)
    requires forall i :: 0 <= i < |ps| ==> ps[i].key != k
    ensures WithKey(ps, k) == []
    decreases |ps|
  {
    if ps != [] { WithKeyAbsent(ps[1..], k); }
  }

  lemma {:induction false} InsertWithKey(ps: seq<Pair>, p: Pair, k: string)
    requires SortedByKey(ps)
    ensures WithKey(Insert(ps, p), k) == WithKey(ps, k) + (if p.key == k then [p] else [])
    decreases |ps|
  {
    if ps == [] {
    } else if !LessEq(ps[0].key, p.key) {
      if p.key == k {
        forall i | 0 <= i < |ps| ensures ps[i].key != k {
          if ps[i].key == k {
            LessEqReflexive(k);
          }
        }
        WithKeyAbsent(ps, k);
      }
    } else {
      InsertWithKey(ps[1..], p, k);
    }
  }

  /** For every key, Encode lists its values in the order they were added. */
  lemma {:induction false} SortByKeyStable(ps: seq<Pair>, k: string)
    ensures WithKey(SortByKey(ps), k) == WithKey(ps, k)
    decreases |ps|
  {
    if ps != [] {
      var prefix, last := ps[..|ps| - 1], ps[|ps| - 1];
      assert ps == prefix + [last];
      calc {
        WithKey(SortByKey(ps), k);
        WithKey(Insert(SortByKey(prefix), last), k);
        { SortByKeySorts(prefix); InsertWithKey(SortByKey(prefix), last, k); }
        WithKey(SortByKey(prefix), k) + (if last.key == k then [last] else []);
        { SortByKeyStable(prefix, k); }
        WithKey(prefix, k) + (if last.key == k then [last] else []);
        { assert WithKey([last], k) == if last.key == k then [last] else []; }
        WithKey(prefix, k) + WithKey([last], k);
        { WithKeyAppend(prefix, [last], k); }
        WithKey(ps, k);
      }
    }
  }

  lemma {:induction false} GetFirstWithKey(ps: seq<Pair>, k: string)
    ensures Get(ps, k) == if WithKey(ps, k) == [] then "" else WithKey(ps, k)[0].value
    decreases |ps|
  {
    if ps != [] && ps[0].key != k { GetFirstWithKey(ps[1..], k); }
  }

  /** Sorting does not change what Get reads for any key. */
  lemma GetSorted(ps: seq<Pair>, k: string)
    ensures Get(SortByKey(ps), k) == Get(ps, k)
  {
    GetFirstWithKey(ps, k);
    GetFirstWithKey(SortByKey(ps), k);
    SortByKeyStable(ps, k);
  }

  // ---------------------------------------------------------------------
  // Parsing the rendered query gives the pairs back.

  /** No pair holds a separator that would split it differently. */
  predicate Plain(ps: seq<Pair>) {
    forall i :: 0 <= i < |ps| ==> '&' !in ps[i].key && '&' !in ps[i].value && '=' !in ps[i].key
  }

  lemma {:induction false} ParseRender(ps: seq<Pair>)
    requires Plain(ps)
    ensures ParseQuery(Render(ps)) == ps
    decreases |ps|
  {
    if ps != [] {
      var seg := RenderPair(ps[0]);
      assert '&' !in seg;
      CutAt(ps[0].key, '=', ps[0].value);
      if |ps| == 1 {
        assert Cut(seg, '&').0 == seg && Cut(seg, '&').1 == [];
      } else {
        CutAt(seg, '&', Render(ps[1..]));
        assert Render(ps) == seg + ['&'] + Render(ps[1..]);
        ParseRender(ps[1..]);
        assert ps == [ps[0]] + ps[1..];
      }
    }
  }

  /** The characters QueryEscape leaves alone. */
  predicate Unreserved(c: char) {
    ('a' <= c <= 'z') || IsUpper(c) || IsDigit(c) || c == '-' || c == '_' || c == '.' || c == '~'
  }

  predicate AllUnreserved(s: string) {
    forall j :: 0 <= j < |s| ==> Unreserved(s[j])
  }

  predicate UnreservedPairs(ps: seq<Pair>) {
    forall i :: 0 <= i < |ps| ==> AllUnreserved(ps[i].key) && AllUnreserved(ps[i].value)
  }

  /** Lower-cased exported names and decimal numbers need no escaping, so
      the keys and values Encode writes are the ones Add received. */
  lemma PairsUnreserved(fields: seq<Field>)
    requires forall i :: 0 <= i < |fields| ==> IsExportedName(fields[i].name)
    ensures UnreservedPairs(Pairs(fields))
  {
    forall i, j | 0 <= i < |fields| && 0 <= j < |fields[i].name|
      ensures Unreserved(ToLower(fields[i].name)[j])
    {
      assert IsExportedName(fields[i].name);
    }
  }

  lemma UnreservedSorted(ps: seq<Pair>)
    requires UnreservedPairs(ps)
    ensures UnreservedPairs(SortByKey(ps))
  {
    var sorted := SortByKey(ps);
    forall i | 0 <= i < |sorted| ensures AllUnreserved(sorted[i].key) && AllUnreserved(sorted[i].value) {
      SortByKeyMembers(ps, sorted[i]);
    }
  }

  lemma {:induction false} RenderAlphabet(ps: seq<Pair>)
    requires UnreservedPairs(ps)
    ensures forall j :: 0 <= j < |Render(ps)| ==>
      Unreserved(Render(ps)[j]) || Render(ps)[j] == '=' || Render(ps)[j] == '&'
    decreases |ps|
  {
    if |ps| > 1 {
      RenderAlphabet(ps[1..]);
      assert Render(ps) == RenderPair(ps[0]) + "&" + Render(ps[1..]);
    }
  }

  /** The query part holds no '?', so a reader finds the query right after
      the path's '?'. */
  lemma EncodeHasNoQuestionMark(fields: seq<Field>)
    requires forall i :: 0 <= i < |fields| ==> IsExportedName(fields[i].name)
    ensures '?' !in Encode(Pairs(fields))
  {
    PairsUnreserved(fields);
    UnreservedSorted(Pairs(fields));
    RenderAlphabet(SortByKey(Pairs(fields)));
  }

  lemma {:induction false} LookupPairs(fields: seq<Field>, k: string)
    ensures Get(Pairs(fields), k) == Lookup(fields, k)
    decreases |fields|
  {
    if fields != [] {
      assert Pairs(fields)[1..] == Pairs(fields[1..]);
      LookupPairs(fields[1..], k);
    }
  }

  /** Reading key k from the generated query gives the decimal value of
      the first field whose lower-cased name is k, and "" when none is. */
  lemma QueryRoundTrip(fields: seq<Field>, k: string)
    requires forall i :: 0 <= i < |fields| ==> IsExportedName(fields[i].name)
    ensures Get(ParseQuery(Encode(Pairs(fields))), k) == Lookup(fields, k)
  {
    var ps := Pairs(fields);
    PairsUnreserved(fields);
    UnreservedSorted(ps);
    var sorted := SortByKey(ps);
    assert Plain(sorted) by {
      forall i | 0 <= i < |sorted|
        ensures '&' !in sorted[i].key && '&' !in sorted[i].value && '=' !in sorted[i].key
      {
        assert AllUnreserved(sorted[i].key) && AllUnreserved(sorted[i].value);
      }
    }
    ParseRender(sorted);
    GetSorted(ps, k);
    LookupPairs(fields, k);
  }

  /** For a path without a query, what GenerateURLPath returns splits at
      its first '?' into the path and a query from which every field reads
      back as its decimal value. */
  lemma GeneratedPathReadsBack(path: string, fields: seq<Field>, k: string)
    requires '?' !in path
    requires forall i :: 0 <= i < |fields| ==> IsExportedName(fields[i].name)
    ensures var (before, query, found) := Cut(path + "?" + Encode(Pairs(fields)), '?');
      && found && before == path && query == Encode(Pairs(fields))
      && Get(ParseQuery(query), k) == Lookup(fields, k)
  {
    CutAt(path, '?', Encode(Pairs(fields)));
    QueryRoundTrip(fields, k);
  }

  lemma SortTwo(a: Pair, b: Pair)
    ensures SortByKey([a, b]) == if LessEq(a.key, b.key) then [a, b] else [b, a]
  {
    assert [a, b][..1] == [a] && [a][..0] == [] && [a][1..] == [];
    assert SortByKey([a]) == [a];
    assert SortByKey([a, b]) == Insert([a], b);
    if LessEq(a.key, b.key) {
      assert Insert([a], b) == [a] + Insert([], b);
    } else {
      assert Insert([a], b) == [b] + [a];
    }
  }

  lemma RenderTwo(a: Pair, b: Pair)
    ensures Render([a, b]) == RenderPair(a) + "&" + RenderPair(b)
  {
    assert [a, b][1..] == [b];
  }

  lemma PageField()
    ensures FieldPair(Field("Page", 1)) == Pair("page", "1")
  {
    assert ToLower("Page") == "page";
    assert Itoa(1) == "1";
  }

  lemma LimitField()
    ensures FieldPair(Field("Limit", 10)) == Pair("limit", "10")
  {
    assert ToLower("Limit") == "limit";
    assert NatToDecimal(10) == NatToDecimal(1) + [DigitChar(0)];
    assert Itoa(10) == "10";
  }

  lemma PairsOfTwo(a: Field, b: Field)
    ensures Pairs([a, b]) == [FieldPair(a), FieldPair(b)]
  {
  }

  lemma LimitBeforePage()
    ensures LessEq("limit", "page") && !LessEq("page", "limit")
  {
    assert "limit"[0] == 'l' && "page"[0] == 'p';
  }

  lemma LimitPageRendered()
    ensures Render([Pair("limit", "10"), Pair("page", "1")]) == "limit=10&page=1"
  {
    RenderTwo(Pair("limit", "10"), Pair("page", "1"));
  }

  /** Two fields rendered the way the bill, customer and collection tests
      expect, in either declaration order. */
  lemma PageAndLimitEncoding()
    ensures Encode(Pairs([Field("Page", 1), Field("Limit", 10)])) == "limit=10&page=1"
    ensures Encode(Pairs([Field("Limit", 10), Field("Page", 1)])) == "limit=10&page=1"
  {
    var page, limit := Pair("page", "1"), Pair("limit", "10");
    PageField();
    LimitField();
    PairsOfTwo(Field("Page", 1), Field("Limit", 10));
    PairsOfTwo(Field("Limit", 10), Field("Page", 1));
    LimitBeforePage();
    SortTwo(page, limit);
    SortTwo(limit, page);
    LimitPageRendered();
  }

  lemma PageAndLimitExported(fields: seq<Field>)
    requires fields == [Field("Page", 1), Field("Limit", 10)]
    ensures forall i :: 0 <= i < |fields| ==> IsExportedName(fields[i].name)
  {
    assert IsExportedName("Page");
    assert IsExportedName("Limit");
  }

  /** The path bill.go:146 passes has no query yet, so the pairs follow a '?'. */
  lemma BillCategoriesJoin(query: string)
    requires query == "limit=10&page=1"
    ensures '?' !in "bills/categories"
    ensures "bills/categories" + "?" + query == "bills/categories?limit=10&page=1"
  {
  }

  /** Bill.Categories with {Page: 1, Limit: 10}. */
  method BillCategoriesPath() returns (r: string)
    ensures r == "bills/categories?limit=10&page=1"
  {
    var fields := [Field("Page", 1), Field("Limit", 10)];
    PageAndLimitExported(fields);
    PageAndLimitEncoding();
    BillCategoriesJoin(Encode(Pairs(fields)));
    r := GenerateURLPath("bills/categories", fields);
  }
}
