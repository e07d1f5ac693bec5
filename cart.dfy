/** The cookie-held shopping cart: an ordered list of (product, variant,
    quantity) lines, decoded and normalised on every read, priced against
    the catalog, and rewritten whole on every change. */
module Cart {
  import opened Common

  /** Decoding keeps at most this many lines. */
  const MaxLines := 200

  /** The name shown for a line whose product no longer exists. */
  const DeletedProductName := "[삭제된 상품]"

  datatype CartLine = CartLine(productId: string, variantId: Option<string>, qty: int)

  /** One element of the decoded cookie array before normalisation. The
      quantity is what `parseInt(String(qty || 1), 10)` makes of it: None
      stands for NaN. A JSON `null` element has no fields to read:
      `l.productId` throws on it. */
  datatype RawLine = RawLine(productId: string, variantId: Option<string>, qty: Option<int>) | Null

  /** Some element of the array is `null`. */
  predicate HasNull(raw: seq<RawLine>) {
    exists i :: 0 <= i < |raw| && raw[i].Null?
  }

  /** The cookie as the server sees it: absent (or empty), not valid JSON,
      valid JSON that is not an array, or an array of raw lines. */
  datatype Cookie = Missing | Unparseable | NotArray | Lines(raw: seq<RawLine>)

  /** `Math.max(1, parseInt(…) || 1)`: a quantity of at least one. */
  function NormQty(q: Option<int>): (n: int)
    ensures n >= 1
    ensures q.Some? && q.value >= 1 ==> n == q.value
    ensures q.None? || q.value < 1 ==> n == 1
  {
    match q
    case None => 1
    case Some(v) => Max(1, v)
  }

  /** A line as a read from the cookie can be: quantity at least one and
      no empty variant id (a falsy variant id is read as null). */
  predicate WellFormed(l: CartLine) {
    l.qty >= 1 && l.variantId != Some("")
  }

  function Normalize(l: RawLine): (r: CartLine)
    requires l.RawLine?
    ensures WellFormed(r)
    ensures r.productId == l.productId
    ensures l.variantId != Some("") ==> r.variantId == l.variantId
  {
    CartLine(l.productId, if l.variantId == Some("") then None else l.variantId, NormQty(l.qty))
  }

  /** `readLines`: anything but an array decodes to the empty cart; an array
      is normalised element by element and cut to its first 200 lines. The
      whole array is normalised before the cut, so a `null` element at any
      position throws inside the `try` and the cart reads as empty. */
  function ReadLines(c: Cookie): (r: seq<CartLine>)
    ensures !c.Lines? ==> r == []
    ensures c.Lines? && HasNull(c.raw) ==> r == []
    ensures c.Lines? && !HasNull(c.raw) ==> |r| == Min(MaxLines, |c.raw|)
    ensures c.Lines? && !HasNull(c.raw) ==> forall i :: 0 <= i < |r| ==> r[i] == Normalize(c.raw[i])
    ensures forall i :: 0 <= i < |r| ==> WellFormed(r[i])
  {
    match c
    case Lines(raw) =>
      if HasNull(raw) then []
      else
        var n := seq(|raw|, i requires 0 <= i < |raw| => Normalize(raw[i]));
        if |n| > MaxLines then n[..MaxLines] else n
    case _ => []
  }

  function Encode(l: CartLine): RawLine {
    RawLine(l.productId, l.variantId, Some(l.qty))
  }

  predicate Positive(l: CartLine) { l.qty > 0 }

  /** The lines `writeLines` keeps: those with a positive quantity. */
  function Persisted(lines: seq<CartLine>): seq<CartLine> {
    Filter(lines, Positive)
  }

  /** The cookie `writeLines(lines)` leaves behind. */
  function Written(lines: seq<CartLine>): Cookie {
    var p := Persisted(lines);
    Lines(seq(|p|, i requires 0 <= i < |p| => Encode(p[i])))
  }

  /** `writeLines` keeps exactly the lines with positive quantity, in their
      original order, and drops nothing else. */
  lemma PersistedExactly(lines: seq<CartLine>, a: seq<CartLine>, b: seq<CartLine>)
    ensures forall i :: 0 <= i < |Persisted(lines)| ==> Persisted(lines)[i].qty > 0
    ensures forall i :: 0 <= i < |lines| && lines[i].qty > 0 ==> lines[i] in Persisted(lines)
    ensures (forall i :: 0 <= i < |lines| ==> lines[i].qty > 0) <==> Persisted(lines) == lines
    ensures Persisted(a + b) == Persisted(a) + Persisted(b)
  {
    FilterAll(lines, Positive);
    FilterAppend(a, b, Positive);
  }

  /** Writing well-formed lines and reading them back gives them back,
      cut to the first 200. */
  lemma WriteRead(lines: seq<CartLine>)
    requires forall i :: 0 <= i < |lines| ==> WellFormed(lines[i])
    ensures ReadLines(Written(lines)) == lines[..Min(MaxLines, |lines|)]
  {
    FilterAll(lines, Positive);
    var r := ReadLines(Written(lines));
    forall i | 0 <= i < |r| ensures r[i] == lines[i] {
      assert r[i] == Normalize(Encode(lines[i]));
    }
  }

  predicate SameKey(l: CartLine, productId: string, variantId: Option<string>) {
    l.productId == productId && l.variantId == variantId
  }

  /** At most one line per (product, variant) pair. */
  predicate UniqueKeys(lines: seq<CartLine>) {
    forall i, j :: 0 <= i < j < |lines| ==>
      lines[i].productId != lines[j].productId || lines[i].variantId != lines[j].variantId
  }

  /** `lines.findIndex(...)` for a key. */
  function IndexOf(lines: seq<CartLine>, productId: string, variantId: Option<string>): Option<nat> {
    FindFirst(lines, (l: CartLine) => SameKey(l, productId, variantId))
  }

  /** The list `addLine` writes: the matching line's quantity grows by `n`,
      or a new line goes to the front. */
  function AddedLines(lines: seq<CartLine>, productId: string, variantId: Option<string>, n: int): seq<CartLine> {
    match IndexOf(lines, productId, variantId)
    case Some(i) => lines[i := lines[i].(qty := lines[i].qty + n)]
    case None => [CartLine(productId, variantId, n)] + lines
  }

  /** The list `updateQty` writes when the key is present. */
  function UpdatedLines(lines: seq<CartLine>, productId: string, variantId: Option<string>, n: int): seq<CartLine> {
    match IndexOf(lines, productId, variantId)
    case Some(i) => lines[i := lines[i].(qty := n)]
    case None => lines
  }

  /** The list `removeLine` writes. */
  function RemovedLines(lines: seq<CartLine>, productId: string, variantId: Option<string>): seq<CartLine> {
    Filter(lines, (l: CartLine) => !SameKey(l, productId, variantId))
  }

  predicate HasKey(lines: seq<CartLine>, productId: string, variantId: Option<string>) {
    exists i :: 0 <= i < |lines| && SameKey(lines[i], productId, variantId)
  }

  /** `addLine` on a cart with unique keys: the one matching line gains `n`
      and nothing else changes or moves; without a match exactly one new
      line is prepended. Keys stay unique either way. */
  lemma AddLineEffect(lines: seq<CartLine>, productId: string, variantId: Option<string>, n: int)
    requires UniqueKeys(lines)
    ensures var r := AddedLines(lines, productId, variantId, n);
      && UniqueKeys(r)
      && (HasKey(lines, productId, variantId) ==>
            |r| == |lines| &&
            forall i :: 0 <= i < |lines| ==>
              r[i] == if SameKey(lines[i], productId, variantId) then lines[i].(qty := lines[i].qty + n) else lines[i])
      && (!HasKey(lines, productId, variantId) ==> r == [CartLine(productId, variantId, n)] + lines)
  {
    var r := AddedLines(lines, productId, variantId, n);
    match IndexOf(lines, productId, variantId)
    case Some(k) =>
      forall i | 0 <= i < |lines| && i != k ensures !SameKey(lines[i], productId, variantId) {
        assert SameKey(lines[k], productId, variantId);
      }
    case None =>
      forall i, j | 0 <= i < j < |r|
        ensures r[i].productId != r[j].productId || r[i].variantId != r[j].variantId
      {
        if i > 0 { assert r[i] == lines[i - 1] && r[j] == lines[j - 1]; }
        else { assert r[j] == lines[j - 1]; }
      }
  }

  /** `updateQty` on a present key with unique keys sets only that line's
      quantity; order and every other line are unchanged. */
  lemma UpdateLineEffect(lines: seq<CartLine>, productId: string, variantId: Option<string>, n: int)
    requires UniqueKeys(lines)
    requires HasKey(lines, productId, variantId)
    ensures var r := UpdatedLines(lines, productId, variantId, n);
      && UniqueKeys(r)
      && |r| == |lines|
      && forall i :: 0 <= i < |lines| ==>
           r[i] == if SameKey(lines[i], productId, variantId) then lines[i].(qty := n) else lines[i]
  {
    var k := IndexOf(lines, productId, variantId).value;
    forall i | 0 <= i < |lines| && i != k ensures !SameKey(lines[i], productId, variantId) {
      assert SameKey(lines[k], productId, variantId);
    }
  }

  /** `removeLine` leaves no line with the key, keeps every other line, keeps
      their relative order, and keeps keys unique. */
  lemma RemoveLineEffect(lines: seq<CartLine>, productId: string, variantId: Option<string>, a: seq<CartLine>, b: seq<CartLine>)
    ensures var r := RemovedLines(lines, productId, variantId);
      && (forall i :: 0 <= i < |r| ==> !SameKey(r[i], productId, variantId))
      && (forall i :: 0 <= i < |lines| && !SameKey(lines[i], productId, variantId) ==> lines[i] in r)
      && (!HasKey(lines, productId, variantId) ==> r == lines)
      && RemovedLines(a + b, productId, variantId) == RemovedLines(a, productId, variantId) + RemovedLines(b, productId, variantId)
    ensures UniqueKeys(lines) ==> UniqueKeys(RemovedLines(lines, productId, variantId))
  {
    var p := (l: CartLine) => !SameKey(l, productId, variantId);
    FilterAll(lines, p);
    FilterAppend(a, b, p);
    if UniqueKeys(lines) { FilterUnique(lines, p); }
  }

  lemma {:induction false} FilterUnique(lines: seq<CartLine>, p: CartLine -> bool)
    requires UniqueKeys(lines)
    ensures UniqueKeys(Filter(lines, p))
  {
    if |lines| > 0 {
      FilterUnique(lines[1..], p);
      var rest := Filter(lines[1..], p);
      forall j | 0 <= j < |rest|
        ensures lines[0].productId != rest[j].productId || lines[0].variantId != rest[j].variantId
      {
        assert rest[j] in lines[1..];
      }
    }
  }

  lemma PrefixUnique(lines: seq<CartLine>, k: nat)
    requires UniqueKeys(lines) && k <= |lines|
    ensures UniqueKeys(lines[..k])
  {
  }

  // ---------------------------------------------------------------- pricing

  datatype Variant = Variant(id: string, name: string, stock: int, extra: int)

  /** A product as the cart reads it; its variants come ordered by name. */
  datatype Product = Product(slug: string, name: string, price: int, variants: seq<Variant>)

  /** The product rows found for the cart's product ids, keyed by id. */
  type Catalog = map<string, Product>

  datatype ProductView = ProductView(id: string, slug: string, name: string, price: int)

  datatype CartItem = CartItem(product: ProductView, variant: Option<Variant>, line: CartLine, unitPrice: int, subtotal: int)

  /** The variant a line selects: none for a null (or empty) variant id or
      an id the product does not have, else the first variant with that id. */
  function SelectedVariant(p: Product, variantId: Option<string>): (r: Option<Variant>)
    ensures r.Some? ==> r.value in p.variants && variantId == Some(r.value.id)
    ensures r.None? ==> variantId.None? || variantId == Some("")
                        || forall j :: 0 <= j < |p.variants| ==> p.variants[j].id != variantId.value
  {
    match variantId
    case None => None
    case Some(id) =>
      if id == "" then None
      else match FindFirst(p.variants, (x: Variant) => x.id == id)
        case None => None
        case Some(j) => Some(p.variants[j])
  }

  /** The placeholder for a line whose product is gone. */
  function Placeholder(line: CartLine): CartItem {
    CartItem(ProductView(line.productId, "", DeletedProductName, 0), None, line.(qty := 0), 0, 0)
  }

  /** One line priced against the catalog. */
  function PriceLine(cat: Catalog, line: CartLine): (r: CartItem)
    ensures line.productId !in cat ==> r == Placeholder(line)
    ensures line.productId in cat ==>
      var p := cat[line.productId];
      var extra := if r.variant.Some? then r.variant.value.extra else 0;
      && r.line == line
      && r.product == ProductView(line.productId, p.slug, p.name, p.price)
      && r.variant == SelectedVariant(p, line.variantId)
      && r.unitPrice == Max(0, p.price + extra)
      && r.subtotal == r.unitPrice * Max(1, line.qty)
    ensures r.unitPrice >= 0 && r.subtotal >= 0
  {
    if line.productId !in cat then Placeholder(line)
    else
      var p := cat[line.productId];
      var v := SelectedVariant(p, line.variantId);
      var extra := if v.Some? then v.value.extra else 0;
      var unitPrice := Max(0, p.price + extra);
      CartItem(ProductView(line.productId, p.slug, p.name, p.price), v, line, unitPrice, unitPrice * Max(1, line.qty))
  }

  function PricedItems(lines: seq<CartLine>, cat: Catalog): (r: seq<CartItem>)
    ensures |r| == |lines| && forall i :: 0 <= i < |lines| ==> r[i] == PriceLine(cat, lines[i])
  {
    seq(|lines|, i requires 0 <= i < |lines| => PriceLine(cat, lines[i]))
  }

  /** The items `getCart` keeps when it cleans up broken lines. */
  predicate Keep(it: CartItem) {
    it.line.qty > 0 && it.product.slug != ""
  }

  function Kept(items: seq<CartItem>): seq<CartItem> {
    Filter(items, Keep)
  }

  function LinesOf(items: seq<CartItem>): (r: seq<CartLine>)
    ensures |r| == |items| && forall i :: 0 <= i < |items| ==> r[i] == items[i].line
  {
    seq(|items|, i requires 0 <= i < |items| => items[i].line)
  }

  /** Whether `getCart` rewrites the cookie: some line was dropped. */
  predicate NeedsRewrite(lines: seq<CartLine>, cat: Catalog) {
    |Kept(PricedItems(lines, cat))| != |lines|
  }

  /** The items `getCart` returns for the lines it read. */
  function CartContents(lines: seq<CartLine>, cat: Catalog): seq<CartItem> {
    if NeedsRewrite(lines, cat) then Kept(PricedItems(lines, cat)) else PricedItems(lines, cat)
  }

  /** A read line is dropped exactly when its product is missing or has an
      empty slug. */
  lemma KeepIff(cat: Catalog, line: CartLine)
    requires WellFormed(line)
    ensures Keep(PriceLine(cat, line)) <==> line.productId in cat && cat[line.productId].slug != ""
  {
  }

  /** `getCart` rewrites the cookie exactly when some read line has a
      missing product or an empty slug. */
  lemma NeedsRewriteIff(lines: seq<CartLine>, cat: Catalog)
    requires forall i :: 0 <= i < |lines| ==> WellFormed(lines[i])
    ensures NeedsRewrite(lines, cat) <==>
      exists i :: 0 <= i < |lines| && (lines[i].productId !in cat || cat[lines[i].productId].slug == "")
  {
    var items := PricedItems(lines, cat);
    FilterAll(items, Keep);
    if !NeedsRewrite(lines, cat) {
      if Kept(items) != items { FilterShorter(items, Keep); }
      forall i | 0 <= i < |lines| ensures lines[i].productId in cat && cat[lines[i].productId].slug != "" {
        KeepIff(cat, lines[i]);
      }
    } else {
      var i :| 0 <= i < |items| && !Keep(items[i]);
      KeepIff(cat, lines[i]);
    }
  }

  /** Every item `getCart` returns after a clean-up is a real product line
      priced from its own (unchanged) line. */
  lemma KeptItemsPriced(lines: seq<CartLine>, cat: Catalog)
    ensures var k := Kept(PricedItems(lines, cat));
      forall i :: 0 <= i < |k| ==> k[i] == PriceLine(cat, k[i].line) && Keep(k[i]) && k[i].line in lines
  {
    var items := PricedItems(lines, cat);
    var k := Kept(items);
    forall i | 0 <= i < |k| ensures k[i] == PriceLine(cat, k[i].line) && Keep(k[i]) && k[i].line in lines {
      var j :| 0 <= j < |items| && items[j] == k[i];
    }
  }

  /** `getCart` is idempotent: after its own clean-up write, calling it again
      with the same catalog returns the same items and writes nothing. */
  lemma GetCartIdempotent(c: Cookie, cat: Catalog)
    ensures var lines := ReadLines(c);
      var c' := if NeedsRewrite(lines, cat) then Written(LinesOf(Kept(PricedItems(lines, cat)))) else c;
      && CartContents(ReadLines(c'), cat) == CartContents(lines, cat)
      && !NeedsRewrite(ReadLines(c'), cat)
  {
    var lines := ReadLines(c);
    if NeedsRewrite(lines, cat) {
      CleanedLinesStable(lines, cat);
    } else {
      var items := PricedItems(lines, cat);
      FilterAll(items, Keep);
      if Kept(items) != items { FilterShorter(items, Keep); }
    }
  }

  /** The lines written by a clean-up of at most 200 read lines read back
      as themselves and price to exactly the kept items, none of which is
      dropped again. */
  lemma CleanedLinesStable(lines: seq<CartLine>, cat: Catalog)
    requires |lines| <= MaxLines && forall i :: 0 <= i < |lines| ==> WellFormed(lines[i])
    ensures var k := Kept(PricedItems(lines, cat));
      var kl := LinesOf(k);
      && ReadLines(Written(kl)) == kl
      && PricedItems(kl, cat) == k
      && Kept(k) == k
  {
    var k := Kept(PricedItems(lines, cat));
    var kl := LinesOf(k);
    KeptItemsPriced(lines, cat);
    forall i | 0 <= i < |kl| ensures WellFormed(kl[i]) {
      var j :| 0 <= j < |lines| && lines[j] == k[i].line;
    }
    WriteRead(kl);
    assert kl[..|kl|] == kl;
    var pk := PricedItems(kl, cat);
    forall i | 0 <= i < |k| ensures pk[i] == k[i] {
      assert pk[i] == PriceLine(cat, kl[i]);
      assert kl[i] == k[i].line;
    }
    assert pk == k;
    FilterAll(k, Keep);
  }

  /** Adding a line to an empty cart and viewing the cart prices that one line:
      one item, quantity `n`, subtotal `(price + extra) * n` for a product
      with a non-negative price and surcharge. */
  lemma AddThenView(cat: Catalog, productId: string, variantId: Option<string>, q: Option<int>)
    requires productId in cat && cat[productId].slug != ""
    requires variantId != Some("")
    ensures var n := NormQty(q);
      var view := CartContents(ReadLines(Written(AddedLines([], productId, variantId, n))), cat);
      var v := SelectedVariant(cat[productId], variantId);
      var extra := if v.Some? then v.value.extra else 0;
      && |view| == 1
      && view[0].line == CartLine(productId, variantId, n)
      && (cat[productId].price + extra >= 0 ==> view[0].subtotal == (cat[productId].price + extra) * n)
  {
    var n := NormQty(q);
    var lines := AddedLines([], productId, variantId, n);
    assert lines == [CartLine(productId, variantId, n)];
    WriteRead(lines);
    NeedsRewriteIff(lines, cat);
  }

  /** The store-level invariant: an `addLine`, `updateQty` or `removeLine`
      applied to a cookie whose lines have unique keys leaves a cookie whose
      lines have unique keys, for any well-formed key (callers pass null,
      never an empty variant id). */
  lemma MutationsKeepKeysUnique(c: Cookie, productId: string, variantId: Option<string>, q: Option<int>)
    requires UniqueKeys(ReadLines(c))
    ensures variantId != Some("") ==>
      UniqueKeys(ReadLines(Written(AddedLines(ReadLines(c), productId, variantId, NormQty(q)))))
    ensures UniqueKeys(ReadLines(Written(UpdatedLines(ReadLines(c), productId, variantId, NormQty(q)))))
    ensures UniqueKeys(ReadLines(Written(RemovedLines(ReadLines(c), productId, variantId))))
  {
    var lines := ReadLines(c);
    var n := NormQty(q);
    if variantId != Some("") {
      AddKeepsUnique(lines, productId, variantId, n);
    }
    UpdateKeepsUnique(lines, productId, variantId, n);
    RemoveKeepsUnique(lines, productId, variantId);
  }

  lemma AddKeepsUnique(lines: seq<CartLine>, productId: string, variantId: Option<string>, n: int)
    requires UniqueKeys(lines) && variantId != Some("") && n >= 1
    requires forall i :: 0 <= i < |lines| ==> WellFormed(lines[i])
    ensures UniqueKeys(ReadLines(Written(AddedLines(lines, productId, variantId, n))))
  {
    var a := AddedLines(lines, productId, variantId, n);
    AddLineEffect(lines, productId, variantId, n);
    assert forall i :: 0 <= i < |a| ==> WellFormed(a[i]);
    WriteRead(a);
    PrefixUnique(a, Min(MaxLines, |a|));
  }

  lemma UpdateKeepsUnique(lines: seq<CartLine>, productId: string, variantId: Option<string>, n: int)
    requires UniqueKeys(lines) && n >= 1
    requires forall i :: 0 <= i < |lines| ==> WellFormed(lines[i])
    ensures UniqueKeys(ReadLines(Written(UpdatedLines(lines, productId, variantId, n))))
  {
    var u := UpdatedLines(lines, productId, variantId, n);
    if HasKey(lines, productId, variantId) {
      UpdateLineEffect(lines, productId, variantId, n);
    }
    WriteRead(u);
    PrefixUnique(u, Min(MaxLines, |u|));
  }

  lemma RemoveKeepsUnique(lines: seq<CartLine>, productId: string, variantId: Option<string>)
    requires UniqueKeys(lines)
    requires forall i :: 0 <= i < |lines| ==> WellFormed(lines[i])
    ensures UniqueKeys(ReadLines(Written(RemovedLines(lines, productId, variantId))))
  {
    var r := RemovedLines(lines, productId, variantId);
    RemoveLineEffect(lines, productId, variantId, [], []);
    WriteRead(r);
    PrefixUnique(r, Min(MaxLines, |r|));
  }

  /** The cart cookie of one visitor. Every public operation reads the lines
      from the cookie, computes, and writes the whole list back. */
  class CartStore {
    var cookie: Cookie

    constructor (cookie: Cookie)
      ensures this.cookie == cookie
    {
      this.cookie := cookie;
    }

    /** `writeLines` */
    method WriteLines(lines: seq<CartLine>)
      modifies this
      ensures cookie == Written(lines)
    {
      cookie := Written(lines);
    }

    /** `getCart` */
    method GetCart(cat: Catalog) returns (items: seq<CartItem>)
      modifies this
      ensures items == CartContents(ReadLines(old(cookie)), cat)
      ensures cookie == if NeedsRewrite(ReadLines(old(cookie)), cat)
                        then Written(LinesOf(Kept(PricedItems(ReadLines(old(cookie)), cat))))
                        else old(cookie)
    {
      var lines := ReadLines(cookie);
      if |lines| == 0 {
        return [];
      }
      var priced := PricedItems(lines, cat);
      var fixed := Kept(priced);
      if |fixed| != |priced| {
        WriteLines(LinesOf(fixed));
        return fixed;
      }
      return priced;
    }

    /** `addLine` */
    method AddLine(productId: string, variantId: Option<string>, qty: Option<int>)
      modifies this
      ensures cookie == Written(AddedLines(ReadLines(old(cookie)), productId, variantId, NormQty(qty)))
      ensures UniqueKeys(ReadLines(old(cookie))) && variantId != Some("") ==> UniqueKeys(ReadLines(cookie))
    {
      var n := NormQty(qty);
      var lines := ReadLines(cookie);
      ghost var before := lines;
      var idx := IndexOf(lines, productId, variantId);
      if idx.Some? {
        var i := idx.value;
        lines := lines[i := lines[i].(qty := lines[i].qty + n)];
      } else {
        lines := [CartLine(productId, variantId, n)] + lines;
      }
      assert lines == AddedLines(before, productId, variantId, n);
      WriteLines(lines);
      if UniqueKeys(before) {
        MutationsKeepKeysUnique(old(cookie), productId, variantId, qty);
      }
    }

    /** `updateQty`: writes only when a line with the key exists. */
    method UpdateQty(productId: string, variantId: Option<string>, qty: Option<int>)
      modifies this
      ensures HasKey(ReadLines(old(cookie)), productId, variantId) ==>
        cookie == Written(UpdatedLines(ReadLines(old(cookie)), productId, variantId, NormQty(qty)))
      ensures !HasKey(ReadLines(old(cookie)), productId, variantId) ==> cookie == old(cookie)
      ensures UniqueKeys(ReadLines(old(cookie))) ==> UniqueKeys(ReadLines(cookie))
    {
      var n := NormQty(qty);
      var lines := ReadLines(cookie);
      var idx := IndexOf(lines, productId, variantId);
      if idx.Some? {
        var i := idx.value;
        lines := lines[i := lines[i].(qty := n)];
        WriteLines(lines);
      }
      if UniqueKeys(ReadLines(old(cookie))) {
        MutationsKeepKeysUnique(old(cookie), productId, variantId, qty);
      }
    }

    /** `removeLine` */
    method RemoveLine(productId: string, variantId: Option<string>)
      modifies this
      ensures cookie == Written(RemovedLines(ReadLines(old(cookie)), productId, variantId))
      ensures UniqueKeys(ReadLines(old(cookie))) ==> UniqueKeys(ReadLines(cookie))
    {
      var lines := ReadLines(cookie);
      WriteLines(Filter(lines, (l: CartLine) => !SameKey(l, productId, variantId)));
      if UniqueKeys(ReadLines(old(cookie))) {
        MutationsKeepKeysUnique(old(cookie), productId, variantId, None);
      }
    }

    /** `clearCart` */
    method ClearCart()
      modifies this
      ensures cookie == Written([]) && ReadLines(cookie) == []
    {
      WriteLines([]);
    }
  }
}
