/** The admin order list: reading the page, page size and status filter
    from the query string, the page window over the filtered orders, the
    page count and navigation targets, the link builder and the total shown
    for each order. */
module AdminOrders {
  import opened Common
  import opened Strings
  import opened Store
  import PaymentInitiate

  const MinPer := 5
  const MaxPer := 50
  const DefaultPer := 10

  /** A query-string parameter as the framework hands it over. */
  datatype ParamValue = Absent | One(s: string) | Many(ss: seq<string>)

  type Params = map<string, ParamValue>

  function Param(sp: Params, k: string): ParamValue {
    if k in sp then sp[k] else Absent
  }

  /** `typeof v === "string" ? v : d`. */
  function TextOr(v: ParamValue, d: string): string {
    if v.One? then v.s else d
  }

  /** `parseInt(t, 10) || d`: NaN and 0 give the default. */
  function NumberOr(t: string, d: int): (r: int)
    ensures ParseInt(t).None? || ParseInt(t) == Some(0) ==> r == d
    ensures ParseInt(t).Some? && ParseInt(t) != Some(0) ==> r == ParseInt(t).value
  {
    match ParseInt(t)
    case Some(n) => if n == 0 then d else n
    case None => d
  }

  datatype Query = Query(page: int, per: int, status: string, filter: Option<OrderStatus>)

  /** The page parameter: `parseInt(page) || 1`, "1" standing in when it
      is not a single string. */
  function PageOf(v: ParamValue): int {
    NumberOr(TextOr(v, "1"), 1)
  }

  /** The page-size parameter: `parseInt(per) || 10` clamped to 5..50. */
  function PerOf(v: ParamValue): int {
    Min(MaxPer, Max(MinPer, NumberOr(TextOr(v, "10"), DefaultPer)))
  }

  /** The page, the page size, the raw status text and the status filter it
      selects. */
  function ReadQuery(sp: Params): Query {
    var s := TextOr(Param(sp, "status"), "");
    Query(PageOf(Param(sp, "page")), PerOf(Param(sp, "per")), s, ParseStatus(s))
  }

  lemma ParseOne()
    ensures ParseInt("1") == Some(1)
  {
    ParseIntToString(1);
    assert NatToString(1) == [DigitChar(1)];
    assert DigitChar(1) == '1';
  }

  lemma ParseTen()
    ensures ParseInt("10") == Some(10)
  {
    ParseIntToString(10);
    assert NatToString(10) == NatToString(1) + [DigitChar(0)];
    assert NatToString(1) == [DigitChar(1)];
    assert DigitChar(1) == '1' && DigitChar(0) == '0';
    assert [DigitChar(1)] + [DigitChar(0)] == "10";
  }

  /** The page is 1 when the parameter is absent, repeated, not a number or
      0, and otherwise the number given, negative ones included. */
  lemma PageOfContract(v: ParamValue)
    ensures PageOf(v) != 0
    ensures !v.One? ==> PageOf(v) == 1
    ensures v.One? && (ParseInt(v.s).None? || ParseInt(v.s) == Some(0)) ==> PageOf(v) == 1
    ensures v.One? && ParseInt(v.s).Some? && ParseInt(v.s).value != 0 ==> PageOf(v) == ParseInt(v.s).value
  {
    ParseOne();
  }

  /** The page size always lies in 5..50. It is 10 when the parameter is
      absent, repeated, not a number or 0, the number given when that lies
      in range, and the nearer bound otherwise. */
  lemma PerOfContract(v: ParamValue)
    ensures MinPer <= PerOf(v) <= MaxPer
    ensures !v.One? ==> PerOf(v) == DefaultPer
    ensures v.One? ==>
      var n := ParseInt(v.s);
      && (n.None? || n == Some(0) ==> PerOf(v) == DefaultPer)
      && (n.Some? && MinPer <= n.value <= MaxPer ==> PerOf(v) == n.value)
      && (n.Some? && n.value != 0 && n.value < MinPer ==> PerOf(v) == MinPer)
      && (n.Some? && n.value > MaxPer ==> PerOf(v) == MaxPer)
  {
    ParseTen();
  }

  /** A filter is applied exactly when the status parameter is a single
      string naming one of the five statuses, and it is that status. */
  lemma ReadQueryFilter(sp: Params)
    ensures var q := ReadQuery(sp);
      && (q.filter.Some? <==> q.status in {"PENDING", "PAID", "FULFILLED", "CANCELED", "REFUNDED"})
      && (q.filter.Some? ==> StatusName(q.filter.value) == q.status)
      && (Param(sp, "status").One? ==> q.status == Param(sp, "status").s)
      && (!Param(sp, "status").One? ==> q.status == "" && q.filter.None?)
  {
  }

  /** The rows skipped before the page. */
  function Skip(q: Query): int {
    (q.page - 1) * q.per
  }

  predicate Selected(filter: Option<OrderStatus>, o: Order) {
    filter.None? || o.status == filter.value
  }

  /** The orders the filter selects, in display order: every listed order
      is a row with the filtered status, every such row is listed, and
      without a filter every row is listed as it stands. */
  function Matching(rows: seq<Order>, filter: Option<OrderStatus>): (r: seq<Order>)
    ensures forall i :: 0 <= i < |r| ==> r[i] in rows && Selected(filter, r[i])
    ensures forall i :: 0 <= i < |rows| && Selected(filter, rows[i]) ==> rows[i] in r
    ensures filter.None? ==> r == rows
  {
    var p := (o: Order) => Selected(filter, o);
    FilterAll(rows, p);
    Filter(rows, p)
  }

  datatype Listing = Listing(total: nat, shown: seq<Order>)

  /** The count and the page of orders, `skip`/`take` over the selected
      rows (given newest first). The database refuses a negative `skip`,
      which a negative page produces: None. */
  function ListOrders(rows: seq<Order>, q: Query): Option<Listing>
    requires q.per >= 1
  {
    var m := Matching(rows, q.filter);
    var skip := Skip(q);
    if skip < 0 then None
    else
      var lo := Min(skip, |m|);
      var hi := Min(skip + q.per, |m|);
      Some(Listing(|m|, m[lo..hi]))
  }

  /** A page from 1 on lists the selected orders from position
      `(page-1)*per`, at most `per` of them; a page below 1 fails. */
  lemma ListOrdersContract(rows: seq<Order>, q: Query)
    requires q.per >= 1
    ensures var m := Matching(rows, q.filter);
      var r := ListOrders(rows, q);
      && (r.None? <==> q.page < 1)
      && (r.Some? ==>
            && r.value.total == |m|
            && |r.value.shown| <= q.per
            && forall i :: 0 <= i < |r.value.shown| ==>
                 (q.page - 1) * q.per + i < |m| && r.value.shown[i] == m[(q.page - 1) * q.per + i])
  {
    var skip := Skip(q);
    if q.page < 1 {
      assert skip < 0 by { MulNegative(q.page - 1, q.per); }
    } else {
      assert skip >= 0 by { MulNonNegative(q.page - 1, q.per); }
    }
  }

  lemma MulNegative(a: int, b: int)
    requires a < 0 && b >= 1
    ensures a * b < 0
  {
  }

  lemma MulNonNegative(a: int, b: int)
    requires a >= 0 && b >= 1
    ensures a * b >= 0
  {
  }

  /** `Math.max(1, Math.ceil(total / per))`. */
  function PageCount(total: nat, per: int): (pages: int)
    requires per >= 1
    ensures pages >= 1
    ensures total <= pages * per
    ensures total > 0 ==> (pages - 1) * per < total
    ensures total == 0 ==> pages == 1
  {
    var c := (total + per - 1) / per;
    CeilBounds(total, per);
    Max(1, c)
  }

  /** The ceiling of `total / per` by Euclidean division. */
  lemma CeilBounds(total: nat, per: int)
    requires per >= 1
    ensures var c := (total + per - 1) / per;
      c >= 0 && total <= c * per && (total > 0 ==> c >= 1 && (c - 1) * per < total)
  {
    var n := total + per - 1;
    var c := n / per;
    var rem := n % per;
    assert n == c * per + rem && 0 <= rem < per;
    assert c * per == n - rem;
    assert (c - 1) * per == c * per - per;
  }

  /** Every selected order is listed on exactly one page, the page
      `i / per + 1` at position `i % per`, and that page is within the page
      count. */
  lemma EveryOrderOnItsPage(rows: seq<Order>, q: Query, i: nat)
    requires q.per >= 1
    requires i < |Matching(rows, q.filter)|
    requires q.page == i / q.per + 1
    ensures ListOrders(rows, q).Some?
    ensures var l := ListOrders(rows, q).value;
      i % q.per < |l.shown| && l.shown[i % q.per] == Matching(rows, q.filter)[i]
      && q.page <= PageCount(l.total, q.per)
  {
    var m := Matching(rows, q.filter);
    var d := i / q.per;
    var r := i % q.per;
    DivMod(i, q.per);
    assert Skip(q) == d * q.per;
    MulNonNegative(d, q.per);
    var l := ListOrders(rows, q).value;
    assert l.shown == m[d * q.per..Min(d * q.per + q.per, |m|)];
    assert l.shown[r] == m[i];
    PageWithin(i, q.per, |m|, PageCount(|m|, q.per));
  }

  lemma DivMod(i: nat, per: int)
    requires per >= 1
    ensures i == (i / per) * per + i % per && 0 <= i % per < per && i / per >= 0
  {
  }

  /** A position below the number of rows lies on a page within the count. */
  lemma PageWithin(i: nat, per: int, total: nat, pages: int)
    requires per >= 1 && i < total <= pages * per
    ensures i / per + 1 <= pages
  {
    var d := i / per;
    DivMod(i, per);
    if d >= pages {
      MulMonotone(pages, d, per);
    }
  }

  lemma MulMonotone(a: int, b: int, k: int)
    requires a <= b && k >= 1
    ensures a * k <= b * k
  {
    assert b * k - a * k == (b - a) * k;
  }

  /** The Prev target. */
  function PrevPage(page: int): int {
    Max(1, page - 1)
  }

  /** The Next target. */
  function NextPage(page: int, pages: int): int {
    Min(pages, page + 1)
  }

  /** On a page within 1..pages the targets stay within 1..pages, Prev stays
      put exactly on the first page and Next exactly on the last. */
  lemma NavigationBounds(page: int, pages: int)
    requires 1 <= page <= pages
    ensures 1 <= PrevPage(page) <= page <= NextPage(page, pages) <= pages
    ensures PrevPage(page) == page <==> page == 1
    ensures NextPage(page, pages) == page <==> page == pages
    ensures page > 1 ==> PrevPage(page) == page - 1
    ensures page < pages ==> NextPage(page, pages) == page + 1
  {
  }

  /** A value handed to the link builder. */
  datatype QValue = Undefined | Str(s: string) | Num(n: int)

  /** `String(v)`. */
  function Text(v: QValue): string
    requires !v.Undefined?
  {
    match v
    case Str(s) => s
    case Num(n) => IntToString(n)
  }

  /** `v !== undefined && v !== ""`. */
  predicate KeptEntry(e: (string, QValue)) {
    e.1 != Undefined && e.1 != Str("")
  }

  /** The entries kept, each value as text. */
  function QueryPairs(q: seq<(string, QValue)>): (r: seq<(string, string)>)
    ensures |r| == |Filter(q, KeptEntry)|
    ensures forall i :: 0 <= i < |r| ==> r[i] == (Filter(q, KeptEntry)[i].0, Text(Filter(q, KeptEntry)[i].1))
  {
    var ks := Filter(q, KeptEntry);
    seq(|ks|, i requires 0 <= i < |ks| => (ks[i].0, Text(ks[i].1)))
  }

  /** The pair is a kept entry with its value as text. */
  predicate FromKept(q: seq<(string, QValue)>, p: (string, string)) {
    exists j :: 0 <= j < |q| && KeptEntry(q[j]) && p == (q[j].0, Text(q[j].1))
  }

  /** Every pair of the built query comes from a kept entry, with its key
      and its value as text. */
  lemma QueryPairsSound(q: seq<(string, QValue)>)
    ensures forall i :: 0 <= i < |QueryPairs(q)| ==> FromKept(q, QueryPairs(q)[i])
  {
    var ks := Filter(q, KeptEntry);
    forall i | 0 <= i < |QueryPairs(q)|
      ensures FromKept(q, QueryPairs(q)[i])
    {
      assert ks[i] in q && KeptEntry(ks[i]);
      var j :| 0 <= j < |q| && q[j] == ks[i];
      assert QueryPairs(q)[i] == (q[j].0, Text(q[j].1));
    }
  }

  /** Every kept entry appears in the built query, with its value as text. */
  lemma QueryPairsComplete(q: seq<(string, QValue)>)
    ensures forall j :: 0 <= j < |q| && KeptEntry(q[j]) ==> (q[j].0, Text(q[j].1)) in QueryPairs(q)
  {
    var ks := Filter(q, KeptEntry);
    forall j | 0 <= j < |q| && KeptEntry(q[j])
      ensures (q[j].0, Text(q[j].1)) in QueryPairs(q)
    {
      assert q[j] in ks;
      var i :| 0 <= i < |ks| && ks[i] == q[j];
      assert QueryPairs(q)[i] == (q[j].0, Text(q[j].1));
    }
  }

  /** Nothing is dropped exactly when every value is defined and non-empty. */
  lemma QueryPairsAll(q: seq<(string, QValue)>)
    ensures |QueryPairs(q)| == |q| <==> forall j :: 0 <= j < |q| ==> KeptEntry(q[j])
  {
    FilterAll(q, KeptEntry);
    if !(forall j :: 0 <= j < |q| ==> KeptEntry(q[j])) {
      FilterShorter(q, KeptEntry);
    }
  }

  /** The entries Object.entries gives have distinct keys. */
  predicate DistinctKeys(q: seq<(string, QValue)>) {
    forall i, j :: 0 <= i < j < |q| ==> q[i].0 != q[j].0
  }

  /** `key=value` pairs joined with `&`. */
  function Serialize(ps: seq<(string, string)>): string {
    if |ps| == 0 then ""
    else if |ps| == 1 then ps[0].0 + "=" + ps[0].1
    else ps[0].0 + "=" + ps[0].1 + "&" + Serialize(ps[1..])
  }

  /** `URLSearchParams.set`: the first pair with the key takes the value and
      later ones go; without one, the pair is appended. */
  function SetPair(ps: seq<(string, string)>, k: string, v: string): (r: seq<(string, string)>)
    ensures (forall i :: 0 <= i < |ps| ==> ps[i].0 != k) ==> r == ps + [(k, v)]
  {
    match FindFirst(ps, (p: (string, string)) => p.0 == k)
    case None => ps + [(k, v)]
    case Some(i) => ps[..i] + [(k, v)] + Filter(ps[i + 1..], (p: (string, string)) => p.0 != k)
  }

  /** The `URLSearchParams` the link builder fills. */
  class SearchParams {
    var list: seq<(string, string)>

    constructor ()
      ensures list == []
    {
      list := [];
    }

    method Set(k: string, v: string)
      modifies this
      ensures list == SetPair(old(list), k, v)
    {
      list := SetPair(list, k, v);
    }
  }

  /** Building over one more entry adds its pair when it is kept. */
  lemma QueryPairsSnoc(q: seq<(string, QValue)>, i: nat)
    requires i < |q|
    ensures QueryPairs(q[..i + 1]) == QueryPairs(q[..i]) + (if KeptEntry(q[i]) then [(q[i].0, Text(q[i].1))] else [])
  {
    assert q[..i + 1] == q[..i] + [q[i]];
    FilterAppend(q[..i], [q[i]], KeptEntry);
    assert Filter([q[i]], KeptEntry) == (if KeptEntry(q[i]) then [q[i]] else []);
  }

  /** With distinct keys, the key of an entry is not yet among the pairs of
      the entries before it. */
  lemma KeyNotYetSet(q: seq<(string, QValue)>, i: nat)
    requires DistinctKeys(q) && i < |q|
    ensures forall j :: 0 <= j < |QueryPairs(q[..i])| ==> QueryPairs(q[..i])[j].0 != q[i].0
  {
    QueryPairsSound(q[..i]);
    forall j | 0 <= j < |QueryPairs(q[..i])| ensures QueryPairs(q[..i])[j].0 != q[i].0 {
      assert FromKept(q[..i], QueryPairs(q[..i])[j]);
      var m :| 0 <= m < i && KeptEntry(q[..i][m]) && QueryPairs(q[..i])[j] == (q[..i][m].0, Text(q[..i][m].1));
      assert q[..i][m] == q[m];
    }
  }

  /** One step of the builder loop: setting a kept entry appends its pair. */
  lemma QsStep(q: seq<(string, QValue)>, i: nat)
    requires DistinctKeys(q) && i < |q|
    ensures KeptEntry(q[i]) <==> q[i].1 != Undefined && q[i].1 != Str("")
    ensures KeptEntry(q[i]) ==> SetPair(QueryPairs(q[..i]), q[i].0, Text(q[i].1)) == QueryPairs(q[..i + 1])
    ensures !KeptEntry(q[i]) ==> QueryPairs(q[..i]) == QueryPairs(q[..i + 1])
  {
    QueryPairsSnoc(q, i);
    if KeptEntry(q[i]) {
      KeyNotYetSet(q, i);
    }
  }

  /** `qs`: the query string of the entries whose value is neither undefined
      nor empty, in entry order. */
  method Qs(q: seq<(string, QValue)>) returns (r: string)
    requires DistinctKeys(q)
    ensures r == "?" + Serialize(QueryPairs(q))
  {
    var u := new SearchParams();
    assert q[..0] == [];
    for i := 0 to |q|
      invariant u.list == QueryPairs(q[..i])
    {
      var (k, v) := q[i];
      QsStep(q, i);
      if v != Undefined && v != Str("") {
        u.Set(k, Text(v));
      }
    }
    assert q[..|q|] == q;
    r := "?" + Serialize(u.list);
  }

  /** The entries of a Prev or Next link: the status text unless empty,
      the target page and the page size. */
  function NavEntries(q: Query, target: int): seq<(string, QValue)> {
    [("status", if q.status == "" then Undefined else Str(q.status)), ("page", Num(target)), ("per", Num(q.per))]
  }

  /** One more occurrence of a parameter: a second one turns the value
      into a list. */
  function AddParam(sp: Params, k: string, v: string): Params {
    if k !in sp || sp[k].Absent? then sp[k := One(v)]
    else if sp[k].One? then sp[k := Many([sp[k].s, v])]
    else sp[k := Many(sp[k].ss + [v])]
  }

  /** The parameters a query string with these pairs reads as: a single
      string for a key given once, the list of values for a repeated key. */
  function ParamsOf(ps: seq<(string, string)>): Params {
    if |ps| == 0 then map[] else AddParam(ParamsOf(ps[..|ps| - 1]), ps[|ps| - 1].0, ps[|ps| - 1].1)
  }

  /** The pairs of a Prev or Next link. */
  lemma NavPairs(q: Query, target: int)
    ensures QueryPairs(NavEntries(q, target)) ==
      (if q.status == "" then [] else [("status", q.status)])
      + [("page", IntToString(target)), ("per", IntToString(q.per))]
  {
    var e := NavEntries(q, target);
    if q.status == "" {
      FilterAll(e[1..], KeptEntry);
      assert Filter(e, KeptEntry) == e[1..];
    } else {
      FilterAll(e, KeptEntry);
    }
  }

  /** The number a link carries reads back as itself. */
  lemma PageOfString(n: int)
    requires n != 0
    ensures PageOf(One(IntToString(n))) == n
  {
    ParseIntToString(n);
  }

  lemma PerOfString(n: int)
    requires MinPer <= n <= MaxPer
    ensures PerOf(One(IntToString(n))) == n
  {
    ParseIntToString(n);
  }

  /** The pairs of a link read back as the status text, page and size. */
  lemma ReadBack(status: string, target: int, per: int)
    requires target != 0 && MinPer <= per <= MaxPer
    ensures var ps := (if status == "" then [] else [("status", status)])
        + [("page", IntToString(target)), ("per", IntToString(per))];
      ReadQuery(ParamsOf(ps)) == Query(target, per, status, ParseStatus(status))
  {
    var head := if status == "" then [] else [("status", status)];
    var ps := head + [("page", IntToString(target)), ("per", IntToString(per))];
    var base: Params := if status == "" then map[] else map["status" := One(status)];
    assert ParamsOf(head) == base by {
      if status != "" { assert head[..0] == []; }
    }
    var withPage := head + [("page", IntToString(target))];
    assert withPage[..|withPage| - 1] == head;
    assert "page" !in base;
    assert ParamsOf(withPage) == base["page" := One(IntToString(target))];
    assert ps[..|ps| - 1] == withPage;
    assert "per" !in base["page" := One(IntToString(target))];
    assert ParamsOf(ps) == base["page" := One(IntToString(target))]["per" := One(IntToString(per))];
    PageOfString(target);
    PerOfString(per);
  }

  /** Following a Prev or Next link reads back the target page, the same
      page size and the same status text and filter. */
  lemma NavigationRoundTrip(sp: Params, target: int)
    requires target >= 1
    ensures var q := ReadQuery(sp);
      var q2 := ReadQuery(ParamsOf(QueryPairs(NavEntries(q, target))));
      q2 == Query(target, q.per, q.status, q.filter)
  {
    var q := ReadQuery(sp);
    PerOfContract(Param(sp, "per"));
    NavPairs(q, target);
    ReadBack(q.status, target, q.per);
  }

  /** The amount shown for an order: its stored total when present, else
      the sum of unit price times quantity over its lines. */
  function DisplayedTotal(totalAmount: Option<int>, items: seq<OrderItem>): (r: int)
    ensures totalAmount.Some? ==> r == totalAmount.value
    ensures totalAmount.None? ==> r == PaymentInitiate.ItemsTotal(PaymentInitiate.ReadItems(items))
  {
    match totalAmount
    case Some(t) => t
    case None => PaymentInitiate.ItemsTotal(PaymentInitiate.ReadItems(items))
  }

  /** For an order whose stored total agrees with its lines (as payment
      initiation demands), the amount shown does not depend on whether the
      stored total is there, and is the sum over the lines. */
  lemma DisplayedTotalConsistent(o: Order)
    requires PaymentInitiate.ItemsTotal(PaymentInitiate.ReadItems(o.items)) == o.totalAmount
    ensures DisplayedTotal(Some(o.totalAmount), o.items) == DisplayedTotal(None, o.items)
  {
  }
}
