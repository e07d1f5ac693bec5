/** The admin product form: turning the submitted fields into the product
    row to create, and the id check of product deletion. */
module AdminProducts {
  import opened Common
  import opened Strings

  /** The largest price the store accepts (the 32-bit signed maximum). */
  const MaxPrice := 2147483647

  /** The submitted form; None for a field that was not sent. */
  datatype ProductForm = ProductForm(
    name: Option<string>,
    slug: Option<string>,
    price: Option<string>,
    description: Option<string>,
    images: Option<string>,
    variants: Option<string>)

  datatype Image = Image(url: string, sort: nat)

  datatype NewVariant = NewVariant(name: string, stock: int, extra: int)

  /** The product row with its images and variants, as it is created. */
  datatype NewProduct = NewProduct(
    name: string,
    slug: string,
    price: int,
    description: Option<string>,
    images: seq<Image>,
    variants: seq<NewVariant>)

  datatype FormError = MissingFields | PriceOutOfRange | IdRequired

  datatype Outcome<T> = Done(value: T) | Rejected(error: FormError)

  /** `String(formData.get(k) || '')`. */
  function FieldText(v: Option<string>): string {
    v.GetOr("")
  }

  predicate NonEmpty(s: string) {
    s != ""
  }

  /** Every piece trimmed. */
  function TrimEach(ps: seq<string>): (r: seq<string>)
    ensures |r| == |ps|
    ensures forall k :: 0 <= k < |r| ==> r[k] == Trim(ps[k])
  {
    seq(|ps|, k requires 0 <= k < |ps| => Trim(ps[k]))
  }

  /** `raw.trim().split(c).map(s => s.trim()).filter(Boolean)`: the
      non-empty trimmed entries of a separated list, in input order. */
  function Entries(raw: string, c: char): (r: seq<string>)
  {
    Filter(TrimEach(Split(Trim(raw), c)), NonEmpty)
  }

  /** Trimming a piece without the separator keeps it without the separator. */
  lemma TrimKeepsOut(s: string, c: char)
    requires c !in s
    ensures c !in Trim(s)
  {
    var r := Trim(s);
    assert forall k :: 0 <= k < |s| ==> s[k] != c;
    forall k | 0 <= k < |r| ensures r[k] != c {
      TrimAt(s, k);
    }
  }

  /** Each entry is non-empty, has no white space at either end and does not
      contain the separator. */
  lemma EntriesShape(raw: string, c: char)
    ensures forall k :: 0 <= k < |Entries(raw, c)| ==>
      var e := Entries(raw, c)[k];
      NonEmpty(e) && IsTrimmed(e) && c !in e
  {
    var ps := Split(Trim(raw), c);
    var ts := TrimEach(ps);
    forall k | 0 <= k < |ts| ensures IsTrimmed(ts[k]) && c !in ts[k] {
      TrimKeepsOut(ps[k], c);
    }
    var es := Entries(raw, c);
    forall k | 0 <= k < |es| ensures NonEmpty(es[k]) && IsTrimmed(es[k]) && c !in es[k] {
      assert es[k] in ts;
    }
  }

  lemma TrimEachTrimmed(ps: seq<string>)
    requires forall k :: 0 <= k < |ps| ==> IsTrimmed(ps[k])
    ensures TrimEach(ps) == ps
  {
    forall k | 0 <= k < |ps| ensures TrimEach(ps)[k] == ps[k] {
      TrimTrimmed(ps[k]);
    }
  }

  /** The joined string of trimmed, non-empty pieces is itself trimmed. */
  lemma JoinTrimmed(es: seq<string>, c: char)
    requires |es| >= 1
    requires forall k :: 0 <= k < |es| ==> NonEmpty(es[k]) && IsTrimmed(es[k])
    ensures IsTrimmed(Join(es, c))
  {
    JoinLast(es, c);
    var s := Join(es, c);
    assert s[0] == es[0][0] by {
      if |es| > 1 { assert s == es[0] + [c] + Join(es[1..], c); }
    }
  }

  lemma TrimJoined(es: seq<string>, c: char)
    requires |es| >= 1
    requires forall k :: 0 <= k < |es| ==> NonEmpty(es[k]) && IsTrimmed(es[k])
    ensures Trim(Join(es, c)) == Join(es, c)
  {
    JoinTrimmed(es, c);
    TrimTrimmed(Join(es, c));
  }

  /** A list of non-empty, trimmed entries without the separator survives
      being joined with the separator and read back. */
  lemma EntriesJoin(es: seq<string>, c: char)
    requires |es| >= 1
    requires forall k :: 0 <= k < |es| ==> NonEmpty(es[k]) && IsTrimmed(es[k]) && c !in es[k]
    ensures Entries(Join(es, c), c) == es
  {
    var s := Join(es, c);
    TrimJoined(es, c);
    JoinSplit(es, c);
    TrimEachTrimmed(es);
    FilterAll(es, NonEmpty);
  }

  /** Entries paired with their positions. */
  function Numbered(es: seq<string>): (r: seq<Image>)
    ensures |r| == |es|
    ensures forall k :: 0 <= k < |r| ==> r[k] == Image(es[k], k)
  {
    seq(|es|, k requires 0 <= k < |es| => Image(es[k], k))
  }

  /** The image rows: the entries of the newline-separated list, each with
      its position among the kept entries as `sort`. */
  function Images(raw: string): seq<Image> {
    Numbered(Entries(raw, '\n'))
  }

  /** The variant rows for the given names, with no stock and no extra
      charge, or a single `Default` when there are no names. */
  function VariantRows(es: seq<string>): (r: seq<NewVariant>)
    ensures |r| >= 1
    ensures |es| == 0 ==> r == [NewVariant("Default", 0, 0)]
    ensures |es| > 0 ==> |r| == |es| && forall k :: 0 <= k < |r| ==> r[k] == NewVariant(es[k], 0, 0)
  {
    if |es| == 0 then [NewVariant("Default", 0, 0)]
    else seq(|es|, k requires 0 <= k < |es| => NewVariant(es[k], 0, 0))
  }

  /** The variant rows of the comma-separated list. */
  function Variants(raw: string): seq<NewVariant> {
    VariantRows(Entries(raw, ','))
  }

  /** `description || null` after trimming. */
  function Description(raw: string): (r: Option<string>)
    ensures r.None? <==> AllSpace(raw)
    ensures r.Some? ==> r.value == Trim(raw) && NonEmpty(r.value) && IsTrimmed(r.value)
  {
    TrimEmpty(raw);
    var d := Trim(raw);
    if d == "" then None else Some(d)
  }

  /** `parseInt(priceStr || '0', 10)` on the digits of the price field. */
  function PriceValue(digits: string): (r: nat)
    requires AllDigits(digits)
  {
    if digits == "" then 0 else DecimalValue(digits)
  }

  /** `createProduct`: the product to create, or the error it throws. */
  function CreateProduct(form: ProductForm): Outcome<NewProduct> {
    var name := Trim(FieldText(form.name));
    var slug := Trim(FieldText(form.slug));
    var priceStr := DigitsOnly(FieldText(form.price));
    var price := PriceValue(priceStr);
    if name == "" || slug == "" || priceStr == "" then Rejected(MissingFields)
    else if price > MaxPrice then Rejected(PriceOutOfRange)
    else Done(NewProduct(
      name, slug, price,
      Description(FieldText(form.description)),
      Images(FieldText(form.images)),
      Variants(FieldText(form.variants))))
  }

  /** What creation promises. A blank name or slug, or a price field without
      digits, is refused first; then a price above the maximum. A created
      product has its trimmed name and slug, the decimal value of the price
      field's digits (so a price in 0..2147483647), and the images, variants
      and description read from their fields. */
  lemma CreateProductContract(form: ProductForm)
    ensures var name := Trim(FieldText(form.name));
      var slug := Trim(FieldText(form.slug));
      var digits := DigitsOnly(FieldText(form.price));
      var r := CreateProduct(form);
      && (r == Rejected(MissingFields) <==> AllSpace(FieldText(form.name)) || AllSpace(FieldText(form.slug)) || digits == "")
      && (r == Rejected(PriceOutOfRange) <==> name != "" && slug != "" && digits != "" && DecimalValue(digits) > MaxPrice)
      && (r.Done? ==>
            && r.value.name == name && NonEmpty(name) && IsTrimmed(name)
            && r.value.slug == slug && NonEmpty(slug) && IsTrimmed(slug)
            && r.value.price == DecimalValue(digits) && 0 <= r.value.price <= MaxPrice
            && r.value.description == Description(FieldText(form.description))
            && r.value.images == Images(FieldText(form.images))
            && r.value.variants == Variants(FieldText(form.variants)))
  {
    TrimEmpty(FieldText(form.name));
    TrimEmpty(FieldText(form.slug));
  }

  /** Only the digits of the price field count: any other characters
      inserted anywhere in it (thousands separators, a currency sign, a
      minus sign) leave the created product or the refusal as it was. */
  lemma PriceIgnoresNonDigits(form: ProductForm, a: string, noise: string, b: string)
    requires forall k :: 0 <= k < |noise| ==> !IsDigit(noise[k])
    requires form.price == Some(a + b)
    ensures CreateProduct(form.(price := Some(a + noise + b))) == CreateProduct(form)
  {
    DigitsIgnoreNoise(a, noise, b);
    var f := form.(price := Some(a + noise + b));
    assert DigitsOnly(FieldText(f.price)) == DigitsOnly(FieldText(form.price));
  }

  /** A price typed with a thousands separator, "1,000", creates the same
      product as "1000". */
  lemma PriceWithSeparator(form: ProductForm)
    requires form.price == Some("1000")
    ensures CreateProduct(form.(price := Some("1,000"))) == CreateProduct(form)
  {
    assert "1" + "," + "000" == "1,000";
    assert "1" + "000" == "1000";
    PriceIgnoresNonDigits(form, "1", ",", "000");
  }

  /** A product's image URLs typed one per line come back as its images, in
      that order, numbered from 0. */
  lemma ImagesRoundTrip(urls: seq<string>)
    requires |urls| >= 1
    requires forall k :: 0 <= k < |urls| ==> NonEmpty(urls[k]) && IsTrimmed(urls[k]) && '\n' !in urls[k]
    ensures var r := Images(Join(urls, '\n'));
      |r| == |urls| && forall k :: 0 <= k < |r| ==> r[k].url == urls[k] && r[k].sort == k
  {
    NumberedEntriesJoin(urls, '\n');
    assert Images(Join(urls, '\n')) == Numbered(Entries(Join(urls, '\n'), '\n'));
  }

  lemma NumberedEntriesJoin(es: seq<string>, c: char)
    requires |es| >= 1
    requires forall k :: 0 <= k < |es| ==> NonEmpty(es[k]) && IsTrimmed(es[k]) && c !in es[k]
    ensures var r := Numbered(Entries(Join(es, c), c));
      |r| == |es| && forall k :: 0 <= k < |r| ==> r[k].url == es[k] && r[k].sort == k
  {
    EntriesJoin(es, c);
    NumberedUrls(Entries(Join(es, c), c), es);
  }

  lemma NumberedUrls(e: seq<string>, es: seq<string>)
    requires e == es
    ensures var r := Numbered(e);
      |r| == |es| && forall k :: 0 <= k < |r| ==> r[k].url == es[k] && r[k].sort == k
  {
  }

  /** Variant names typed comma-separated come back as the variants, in that
      order, each with no stock and no extra charge. */
  lemma VariantsRoundTrip(names: seq<string>)
    requires |names| >= 1
    requires forall k :: 0 <= k < |names| ==> NonEmpty(names[k]) && IsTrimmed(names[k]) && ',' !in names[k]
    ensures var r := Variants(Join(names, ','));
      |r| == |names| && forall k :: 0 <= k < |r| ==> r[k] == NewVariant(names[k], 0, 0)
  {
    EntriesJoin(names, ',');
  }

  /** Trimming keeps a string of white space and separators one. */
  lemma TrimBlank(raw: string, c: char)
    requires forall k :: 0 <= k < |raw| ==> IsSpace(raw[k]) || raw[k] == c
    ensures forall m :: 0 <= m < |Trim(raw)| ==> IsSpace(Trim(raw)[m]) || Trim(raw)[m] == c
  {
    forall m | 0 <= m < |Trim(raw)| ensures IsSpace(Trim(raw)[m]) || Trim(raw)[m] == c {
      TrimAt(raw, m);
    }
  }

  /** A field of white space and separators has no entries. */
  lemma BlankEntries(raw: string, c: char)
    requires forall k :: 0 <= k < |raw| ==> IsSpace(raw[k]) || raw[k] == c
    ensures Entries(raw, c) == []
  {
    var t := Trim(raw);
    TrimBlank(raw, c);
    var ps := Split(t, c);
    var ts := TrimEach(ps);
    forall k | 0 <= k < |ts| ensures !NonEmpty(ts[k]) {
      SplitBlank(t, c, k);
      TrimEmpty(ps[k]);
    }
    FilterNone(ts, NonEmpty);
  }

  /** A variants field that is empty or holds only commas and white space gives
      exactly the one `Default` variant. */
  lemma BlankVariantsDefault(raw: string)
    requires forall k :: 0 <= k < |raw| ==> IsSpace(raw[k]) || raw[k] == ','
    ensures Variants(raw) == [NewVariant("Default", 0, 0)]
  {
    BlankEntries(raw, ',');
  }

  /** A string of white space and separators splits into white-space pieces. */
  lemma {:induction false} SplitBlank(s: string, c: char, k: nat)
    requires forall m :: 0 <= m < |s| ==> IsSpace(s[m]) || s[m] == c
    requires k < |Split(s, c)|
    ensures AllSpace(Split(s, c)[k])
    decreases |s|
  {
    match IndexOf(s, c)
    case None =>
    case Some(i) =>
      if k > 0 {
        var rest := s[i + 1..];
        assert forall m :: 0 <= m < |rest| ==> rest[m] == s[i + 1 + m];
        SplitBlank(rest, c, k - 1);
        assert Split(s, c)[k] == Split(rest, c)[k - 1];
      } else {
        var piece := s[..i];
        assert Split(s, c)[0] == piece;
        forall m | 0 <= m < |piece| ensures IsSpace(piece[m]) {
          assert piece[m] == s[m];
          assert piece[m] in piece;
        }
      }
  }

  /** `deleteProduct`: the id of the product to delete, or the error for a
      missing or empty id. Deletion cascades to the product's images and
      variants; removing the product that does not exist is the store's
      error and is not part of this model. */
  function DeleteProduct(id: Option<string>): (r: Outcome<string>)
    ensures r.Rejected? <==> FieldText(id) == ""
    ensures r.Rejected? ==> r.error == IdRequired
    ensures r.Done? ==> id == Some(r.value)
  {
    if FieldText(id) == "" then Rejected(IdRequired) else Done(id.value)
  }
}
