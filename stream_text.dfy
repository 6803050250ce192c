/**
 * `parseStreamToJSON` and its helpers: a raw streamed response is read with
 * regular expressions only, never as JSON. The query is the first
 * `"parts":["…"]`, the response text is every `"o":"append","v":"…"` joined
 * and unescaped, and products and sources are scanned inside the first
 * `"products":[ … ],"target_product_count"` and
 * `"sources":[ … ],"has_images"` sections.
 */
module StreamText {
  import opened Wrappers
  import opened Strings
  import opened Scan

  /** One product, with rating and review count kept as the digit strings `parseFloat`/`parseInt` read. */
  datatype StreamProduct = StreamProduct(
    title: string, price: string, rating: string, reviews: string, merchants: string, tag: Option<string>)

  datatype StreamSource = StreamSource(title: string, url: string, attribution: string)

  datatype StreamResult = StreamResult(
    query: string, responseText: string, products: seq<StreamProduct>, sources: seq<StreamSource>)

  /** The six captures of the product pattern. */
  datatype ProductMatch = ProductMatch(
    title: string, price: string, rating: string, numReviews: string, merchants: string, featuredTag: string)

  /** The three captures of the source pattern. */
  datatype SourceMatch = SourceMatch(title: string, url: string, attribution: string)

  const PartsField := Quoted("\"parts\":[\"", false)
  const AppendField := Quoted("\"o\":\"append\",\"v\":\"", false)
  const TitleField := Quoted("\"title\":\"", false)
  const PriceField := Quoted("\"price\":\"", false)
  const RatingField := Digits("\"rating\":", true)
  const ReviewsField := Digits("\"num_reviews\":", false)
  const MerchantsField := Quoted("\"merchants\":\"", false)
  const TagField := Quoted("\"featured_tag\":\"", true)
  const UrlField := Quoted(",\"url\":\"", false)
  const AttributionField := Quoted(",\"attribution\":\"", false)

  const ProductsOpen := "\"products\":["
  const ProductsClose := "],\"target_product_count\""
  const SourcesOpen := "\"sources\":["
  const SourcesClose := "],\"has_images\""
  const UtmSuffix := "?utm_source=chatgpt.com"

  // ---------------------------------------------------------------------
  // The patterns, tried at one position

  /** `"parts":\["([^"]+)"\]` at `i`. */
  function QueryAt(s: string, i: nat): (r: Option<Found<string>>)
    ensures r.Some? ==> r.value.start == i && i < r.value.end <= |s|
    ensures r.Some? ==> r.value.value != "" && Free(r.value.value, '"')
    ensures r.Some? ==> s[i..r.value.end] == PartsField.key + r.value.value + "\"]"
  {
    var c :- FieldAt(s, PartsField, i);
    if c.end < |s| && s[c.end] == ']' then
      assert s[i..c.end + 1] == s[i..c.end] + [s[c.end]];
      Some(Found(i, c.text, c.end + 1))
    else None
  }

  /** Wherever `"parts":["`, a non-empty run without a quote and `"]` follow at `i`, the query pattern matches there. */
  lemma QueryAtMatches(s: string, i: nat, q: string)
    requires i + |PartsField.key| + |q| + 2 <= |s|
    requires s[i..i + |PartsField.key| + |q| + 2] == PartsField.key + q + "\"]"
    requires q != "" && Free(q, '"')
    ensures QueryAt(s, i) == Some(Found(i, q, i + |PartsField.key| + |q| + 2))
  {
    var e := i + |PartsField.key| + |q| + 1;
    var w := s[i..e + 1];
    assert s[i..e] == w[..e - i] == PartsField.key + q + "\"";
    FieldAtQuotedMatches(s, PartsField.key, false, i, q);
    assert s[e] == w[e - i] == ']';
  }

  /** `"o":"append","v":"([^"]+)"` at `i`. */
  function AppendAt(s: string, i: nat): (r: Option<Found<string>>)
    ensures r.Some? ==> r.value.start == i && i < r.value.end <= |s|
    ensures r.Some? ==> r.value.value != "" && Free(r.value.value, '"')
    ensures r.Some? ==> s[i..r.value.end] == AppendField.key + r.value.value + "\""
  {
    var c :- FieldAt(s, AppendField, i);
    Some(Found(i, c.text, c.end))
  }

  /** Wherever the append key, a non-empty run without a quote and a quote follow at `i`, the append pattern matches there. */
  lemma AppendAtMatches(s: string, i: nat, v: string)
    requires i + |AppendField.key| + |v| + 1 <= |s|
    requires s[i..i + |AppendField.key| + |v| + 1] == AppendField.key + v + "\""
    requires v != "" && Free(v, '"')
    ensures AppendAt(s, i) == Some(Found(i, v, i + |AppendField.key| + |v| + 1))
  {
    FieldAtQuotedMatches(s, AppendField.key, false, i, v);
  }

  predicate DigitRun(t: string, decimal: bool) {
    t != "" && forall x :: 0 <= x < |t| ==> IsRunChar(t[x], decimal)
  }

  /** What the captures of the product pattern can hold. */
  predicate WellFormedProduct(m: ProductMatch) {
    && m.title != "" && Free(m.title, '"')
    && m.price != "" && Free(m.price, '"')
    && DigitRun(m.rating, true)
    && DigitRun(m.numReviews, false)
    && m.merchants != "" && Free(m.merchants, '"')
    && Free(m.featuredTag, '"')
  }

  /**
   * The product pattern at `i`: a title here, then each further field at the
   * nearest place after the previous one where it matches, which is where the
   * lazy gaps `.*?` of the pattern put it (see `FieldFromNearest`).
   */
  function ProductAt(s: string, i: nat): (r: Option<Found<ProductMatch>>)
    ensures r.Some? ==> r.value.start == i && i < r.value.end <= |s|
  {
    var t :- FieldAt(s, TitleField, i);
    var p :- FieldFrom(s, PriceField, t.end);
    var g :- FieldFrom(s, RatingField, p.1.end);
    var n :- FieldFrom(s, ReviewsField, g.1.end);
    var m :- FieldFrom(s, MerchantsField, n.1.end);
    var f :- FieldFrom(s, TagField, m.1.end);
    Some(Found(i, ProductMatch(t.text, p.1.text, g.1.text, n.1.text, m.1.text, f.1.text), f.1.end))
  }

  /** Each capture of a product match has the shape its field pattern allows. */
  lemma ProductAtWellFormed(s: string, i: nat)
    ensures ProductAt(s, i).Some? ==> WellFormedProduct(ProductAt(s, i).value.value)
  {
    if ProductAt(s, i).Some? {
      var t := FieldAt(s, TitleField, i).value;
      var p := FieldFrom(s, PriceField, t.end).value.1;
      var g := FieldFrom(s, RatingField, p.end).value.1;
      var n := FieldFrom(s, ReviewsField, g.end).value.1;
      var m := FieldFrom(s, MerchantsField, n.end).value.1;
      var f := FieldFrom(s, TagField, m.end).value.1;
      assert ProductAt(s, i).value.value == ProductMatch(t.text, p.text, g.text, n.text, m.text, f.text);
    }
  }

  /**
   * The converse: wherever the product pattern can match at `i` (a title
   * here, and each further field somewhere after the previous one), the
   * scan finds a match at `i`, ending no later.
   */
  lemma ProductAtComplete(s: string, i: nat, p1: nat, p2: nat, p3: nat, p4: nat, p5: nat)
    requires FieldAt(s, TitleField, i).Some?
    requires FieldAt(s, TitleField, i).value.end <= p1 <= |s| && FieldAt(s, PriceField, p1).Some?
    requires FieldAt(s, PriceField, p1).value.end <= p2 <= |s| && FieldAt(s, RatingField, p2).Some?
    requires FieldAt(s, RatingField, p2).value.end <= p3 <= |s| && FieldAt(s, ReviewsField, p3).Some?
    requires FieldAt(s, ReviewsField, p3).value.end <= p4 <= |s| && FieldAt(s, MerchantsField, p4).Some?
    requires FieldAt(s, MerchantsField, p4).value.end <= p5 <= |s| && FieldAt(s, TagField, p5).Some?
    ensures ProductAt(s, i).Some? && ProductAt(s, i).value.end <= FieldAt(s, TagField, p5).value.end
  {
    var t := FieldAt(s, TitleField, i).value;
    FieldFromNearest(s, PriceField, t.end, p1);
    var p := FieldFrom(s, PriceField, t.end).value.1;
    FieldFromNearest(s, RatingField, p.end, p2);
    var g := FieldFrom(s, RatingField, p.end).value.1;
    FieldFromNearest(s, ReviewsField, g.end, p3);
    var n := FieldFrom(s, ReviewsField, g.end).value.1;
    FieldFromNearest(s, MerchantsField, n.end, p4);
    var m := FieldFrom(s, MerchantsField, n.end).value.1;
    FieldFromNearest(s, TagField, m.end, p5);
  }

  /** What the captures of the source pattern can hold: non-empty texts without a quote. */
  predicate SourceMatchShape(v: SourceMatch) {
    && v.title != "" && Free(v.title, '"')
    && v.url != "" && Free(v.url, '"')
    && v.attribution != "" && Free(v.attribution, '"')
  }

  /** The text a quoted field matches: its key, the capture, the closing quote. */
  function QuotedText(key: string, text: string): string {
    key + text + "\""
  }

  /** The text the source pattern matches for given captures. */
  function SourceText(v: SourceMatch): string {
    QuotedText(TitleField.key, v.title) + QuotedText(UrlField.key, v.url) + QuotedText(AttributionField.key, v.attribution)
  }

  /** `"title":"([^"]+)","url":"([^"]+)","attribution":"([^"]+)"` at `i`. */
  function SourceAt(s: string, i: nat): (r: Option<Found<SourceMatch>>)
    ensures r.Some? ==> r.value.start == i && i < r.value.end <= |s|
    ensures r.Some? ==> SourceMatchShape(r.value.value)
    ensures r.Some? ==> s[i..r.value.end] == SourceText(r.value.value)
  {
    var t :- FieldAt(s, TitleField, i);
    var u :- FieldAt(s, UrlField, t.end);
    var a :- FieldAt(s, AttributionField, u.end);
    SlicesJoin(s, i, t.end, u.end, a.end,
      QuotedText(TitleField.key, t.text), QuotedText(UrlField.key, u.text), QuotedText(AttributionField.key, a.text));
    Some(Found(i, SourceMatch(t.text, u.text, a.text), a.end))
  }

  /** Wherever the source pattern's text for captures of the right shape follows `i`, the pattern matches there with those captures. */
  lemma SourceAtMatches(s: string, i: nat, v: SourceMatch)
    requires SourceMatchShape(v)
    requires i + |SourceText(v)| <= |s| && s[i..i + |SourceText(v)|] == SourceText(v)
    ensures SourceAt(s, i) == Some(Found(i, v, i + |SourceText(v)|))
  {
    var a := QuotedText(TitleField.key, v.title);
    var b := QuotedText(UrlField.key, v.url);
    var c := QuotedText(AttributionField.key, v.attribution);
    SlicesSplit(s, i, a, b, c);
    var j, k, l := i + |a|, i + |a| + |b|, i + |a| + |b| + |c|;
    QuotedAt(s, TitleField.key, i, v.title);
    QuotedAt(s, UrlField.key, j, v.url);
    QuotedAt(s, AttributionField.key, k, v.attribution);
    SourceAtFields(s, i, v, j, k, l);
  }

  /** A quoted field's text at `i` is a match of the field there. */
  lemma QuotedAt(s: string, key: string, i: nat, text: string)
    requires text != "" && Free(text, '"')
    requires i + |QuotedText(key, text)| <= |s| && s[i..i + |QuotedText(key, text)|] == QuotedText(key, text)
    ensures FieldAt(s, Quoted(key, false), i) == Some(Capture(text, i + |QuotedText(key, text)|))
  {
    FieldAtQuotedMatches(s, key, false, i, text);
  }

  /** Three source fields found one after another are a source match. */
  lemma SourceAtFields(s: string, i: nat, v: SourceMatch, j: nat, k: nat, l: nat)
    requires FieldAt(s, TitleField, i) == Some(Capture(v.title, j))
    requires FieldAt(s, UrlField, j) == Some(Capture(v.url, k))
    requires FieldAt(s, AttributionField, k) == Some(Capture(v.attribution, l))
    ensures SourceAt(s, i) == Some(Found(i, v, l))
  {
  }

  lemma QueryAtSound(s: string) ensures Sound(QueryAt, s) {
    forall i | 0 <= i <= |s| && QueryAt(s, i).Some? ensures QueryAt(s, i).value.start == i {}
  }

  lemma AppendAtSound(s: string) ensures Sound(AppendAt, s) {
    forall i | 0 <= i <= |s| && AppendAt(s, i).Some? ensures AppendAt(s, i).value.start == i {}
  }

  lemma ProductAtSound(s: string) ensures Sound(ProductAt, s) {
    forall i | 0 <= i <= |s| && ProductAt(s, i).Some? ensures ProductAt(s, i).value.start == i {}
  }

  lemma SourceAtSound(s: string) ensures Sound(SourceAt, s) {
    forall i | 0 <= i <= |s| && SourceAt(s, i).Some? ensures SourceAt(s, i).value.start == i {}
  }

  /**
   * `s.match(/open(.*?)close/s)[1]`: the text after the first `open`, up to
   * the first `close` after it. A later `open` cannot help when this one
   * fails, since it has no more text after it in which to find `close`.
   */
  function Section(s: string, open: string, close: string): (r: Option<string>)
    ensures var i := IndexOf(s, open, 0);
      && (r.None? <==> i < 0 || forall k :: i + |open| <= k ==> !OccursAt(s, close, k))
      && (r.Some? ==>
            && i + |open| + |r.value| <= |s|
            && r.value == s[i + |open|..i + |open| + |r.value|]
            && OccursAt(s, close, i + |open| + |r.value|)
            && forall k :: i + |open| <= k < i + |open| + |r.value| ==> !OccursAt(s, close, k))
  {
    var i := IndexOf(s, open, 0);
    if i < 0 then None
    else
      var t := IndexOf(s, close, i + |open|);
      if t < 0 then None else Some(s[i + |open|..t])
  }

  // ---------------------------------------------------------------------
  // The records built from the captures

  /** The first four passes of the `response_text` clean-up chain: `\n`, `\u20b9`, `\u202f`, `\u2011`. */
  function UnescapeText(t: string): string {
    ReplaceAll(
      ReplaceAll(
        ReplaceAll(
          ReplaceAll(t, "\\n", "\n"),
          "\\u20b9", "\U{20B9}"),
        "\\u202f", " "),
      "\\u2011", "-")
  }

  /** The whole `response_text` clean-up chain, ending with `\"` to `"`. */
  function Unescape(t: string): string {
    ReplaceAll(UnescapeText(t), "\\\"", "\"")
  }

  /** The record pushed for one product match. */
  function ProductOf(m: ProductMatch): (r: StreamProduct)
    ensures r.tag.None? <==> m.featuredTag == ""
    ensures r.tag.Some? ==> r.tag.value == m.featuredTag
  {
    StreamProduct(
      ReplaceAll(ReplaceAll(m.title, "\\u202f", " "), "\\u2011", "-"),
      ReplaceAll(m.price, "\\u20b9", "\U{20B9}"),
      m.rating, m.numReviews, m.merchants,
      if m.featuredTag == "" then None else Some(m.featuredTag))
  }

  /** The record pushed for one source match. */
  function SourceOf(m: SourceMatch): StreamSource {
    StreamSource(m.title, ReplaceAll(m.url, UtmSuffix, ""), m.attribution)
  }

  /** What `responseParts.push(match[1])` pushes. */
  function AppendedText(capture: string): string {
    capture
  }

  // ---------------------------------------------------------------------
  // The specification of `parseStreamToJSON`

  /** `result.query`: the capture of the first `"parts":["…"]`, or "" when there is none. */
  function QueryOf(s: string): (r: string)
    ensures r == "" <==> NoMatchIn(QueryAt, s, 0, |s| + 1)
    ensures Free(r, '"')
  {
    QueryAtSound(s);
    match FirstFrom(QueryAt, s, 0)
    case None => ""
    case Some(f) => f.value
  }

  /** The captures of every `"o":"append","v":"…"`, in order. */
  function ResponseParts(s: string): seq<string> {
    AppendAtSound(s);
    Pushed(AppendedText, AllFrom(AppendAt, s, 0))
  }

  function ResponseText(s: string): string {
    Unescape(Join("", ResponseParts(s)))
  }

  /** The products of the products section, empty when there is no such section. */
  function Products(s: string): seq<StreamProduct> {
    match Section(s, ProductsOpen, ProductsClose)
    case None => []
    case Some(body) => ProductAtSound(body); Pushed(ProductOf, AllFrom(ProductAt, body, 0))
  }

  /** The sources of the sources section, empty when there is no such section. */
  function Sources(s: string): seq<StreamSource> {
    match Section(s, SourcesOpen, SourcesClose)
    case None => []
    case Some(body) => SourceAtSound(body); Pushed(SourceOf, AllFrom(SourceAt, body, 0))
  }

  function ParseStream(s: string): StreamResult {
    StreamResult(QueryOf(s), ResponseText(s), Products(s), Sources(s))
  }

  // ---------------------------------------------------------------------
  // The loops

  /** The `matchAll` loop collecting the appended texts. */
  method CollectResponseParts(s: string) returns (parts: seq<string>)
    ensures parts == ResponseParts(s)
  {
    AppendAtSound(s);
    parts := ExecAll(AppendAt, s, AppendedText);
  }

  /** `extractProducts`: the `productRegex.exec` loop over the products section. */
  method ExtractProducts(s: string) returns (products: seq<StreamProduct>)
    ensures products == Products(s)
  {
    products := [];
    var section := Section(s, ProductsOpen, ProductsClose);
    if section.None? {
      return;
    }
    ProductAtSound(section.value);
    products := ExecAll(ProductAt, section.value, ProductOf);
  }

  /** `extractSources`: the `sourceRegex.exec` loop over the sources section. */
  method ExtractSources(s: string) returns (sources: seq<StreamSource>)
    ensures sources == Sources(s)
  {
    sources := [];
    var section := Section(s, SourcesOpen, SourcesClose);
    if section.None? {
      return;
    }
    SourceAtSound(section.value);
    sources := ExecAll(SourceAt, section.value, SourceOf);
  }

  // ---------------------------------------------------------------------
  // Properties

  /**
   * `response_text` never holds a double quote, and its last clean-up pass
   * never applies: every appended capture stops before the first `"`, so an
   * escaped quote `\"` in a streamed text ends the capture at its backslash.
   */
  lemma ResponseTextHasNoQuote(s: string)
    ensures Free(ResponseText(s), '"')
    ensures ResponseText(s) == UnescapeText(Join("", ResponseParts(s)))
  {
    ResponsePartsQuoteFree(s);
    JoinFree("", ResponseParts(s), '"');
    var t := UnescapeText(Join("", ResponseParts(s)));
    UnescapeTextKeepsFree(Join("", ResponseParts(s)));
    assert !Free("\\\"", '"') by {
      assert "\\\""[1] == '"';
    }
    ReplaceAllAbsent(t, "\\\"", "\"", '"');
  }

  /** No captured `v` holds a `"`: the capture is `[^"]*`. */
  lemma ResponsePartsQuoteFree(s: string)
    ensures forall k :: 0 <= k < |ResponseParts(s)| ==> Free(ResponseParts(s)[k], '"')
  {
    AppendAtSound(s);
    var found := AllFrom(AppendAt, s, 0);
    AllFromSatisfy(AppendAt, s, 0, t => Free(t, '"'));
    var parts := ResponseParts(s);
    forall k | 0 <= k < |parts| ensures Free(parts[k], '"') {
      assert found[k] in found && parts[k] == found[k].value;
    }
  }

  /** The replacements of the clean-up chain bring in no `"`. */
  lemma UnescapeTextKeepsFree(t: string)
    requires Free(t, '"')
    ensures Free(UnescapeText(t), '"')
  {
    ReplaceAllKeepsFree(t, "\\n", "\n", '"');
    var t1 := ReplaceAll(t, "\\n", "\n");
    ReplaceAllKeepsFree(t1, "\\u20b9", "\U{20B9}", '"');
    var t2 := ReplaceAll(t1, "\\u20b9", "\U{20B9}");
    ReplaceAllKeepsFree(t2, "\\u202f", " ", '"');
    var t3 := ReplaceAll(t2, "\\u202f", " ");
    ReplaceAllKeepsFree(t3, "\\u2011", "-", '"');
  }

  /** `result.query` is empty exactly when no `"parts":["…"]` occurs, and is the capture of the first one otherwise. */
  lemma QueryIsFirstParts(s: string)
    ensures QueryOf(s) == "" <==> forall i :: 0 <= i <= |s| ==> QueryAt(s, i).None?
    ensures QueryOf(s) != "" ==> exists i :: (0 <= i <= |s| && QueryAt(s, i).Some? && QueryAt(s, i).value.value == QueryOf(s)
      && forall j :: 0 <= j < i ==> QueryAt(s, j).None?)
  {
    QueryAtSound(s);
    var f := FirstFrom(QueryAt, s, 0);
    if f.Some? {
      assert QueryAt(s, f.value.start) == f;
    }
  }

  /** A match with no match before it is the query. */
  lemma QueryIsLeftmost(s: string, i: nat)
    requires i <= |s| && QueryAt(s, i).Some?
    requires forall j :: 0 <= j < i ==> QueryAt(s, j).None?
    ensures QueryOf(s) == QueryAt(s, i).value.value
  {
    QueryAtSound(s);
    var f := FirstFrom(QueryAt, s, 0);
    assert f.Some? && f.value.start == i;
  }

  /** The query of `{"parts":["hi"]}` is "hi". */
  lemma QueryOfParts()
    ensures QueryOf("{\"parts\":[\"hi\"]}") == "hi"
  {
    var s := "{\"parts\":[\"hi\"]}";
    assert |PartsField.key| == 10 && s[1..15] == PartsField.key + "hi" + "\"]";
    QueryAtMatches(s, 1, "hi");
    assert !OccursAt(s, PartsField.key, 0) by {
      assert s[0] != PartsField.key[0];
    }
    assert QueryAt(s, 0).None?;
    QueryIsLeftmost(s, 1);
  }

  /** No products without a complete products section, and no sources without a complete sources section. */
  lemma MissingSectionsGiveNothing(s: string)
    ensures IndexOf(s, ProductsOpen, 0) < 0 ==> Products(s) == []
    ensures (forall k :: !OccursAt(s, ProductsClose, k)) ==> Products(s) == []
    ensures IndexOf(s, SourcesOpen, 0) < 0 ==> Sources(s) == []
    ensures (forall k :: !OccursAt(s, SourcesClose, k)) ==> Sources(s) == []
  {
  }

  /**
   * A product record as the products section can yield it: a title, a price
   * and merchants that are non-empty captures, digit strings for rating and
   * reviews, and a tag that is absent or a non-empty capture; none of its
   * texts holds a quote.
   */
  predicate ProductShape(p: StreamProduct) {
    && Free(p.title, '"') && Free(p.price, '"')
    && DigitRun(p.rating, true) && DigitRun(p.reviews, false)
    && p.merchants != "" && Free(p.merchants, '"')
    && (p.tag.Some? ==> p.tag.value != "" && Free(p.tag.value, '"'))
  }

  /** The replacements applied to a product's captures bring in no quote. */
  lemma ProductOfShape(m: ProductMatch)
    requires WellFormedProduct(m)
    ensures ProductShape(ProductOf(m))
  {
    ReplaceAllKeepsFree(m.title, "\\u202f", " ", '"');
    ReplaceAllKeepsFree(ReplaceAll(m.title, "\\u202f", " "), "\\u2011", "-", '"');
    ReplaceAllKeepsFree(m.price, "\\u20b9", "\U{20B9}", '"');
  }

  /** Every product of the stream has the shape the pattern allows. */
  lemma ProductsWellFormed(s: string)
    ensures forall k :: 0 <= k < |Products(s)| ==> ProductShape(Products(s)[k])
  {
    var section := Section(s, ProductsOpen, ProductsClose);
    if section.Some? {
      var body := section.value;
      ProductAtSound(body);
      var found := AllFrom(ProductAt, body, 0);
      forall i | 0 <= i <= |body| && ProductAt(body, i).Some?
        ensures WellFormedProduct(ProductAt(body, i).value.value)
      {
        ProductAtWellFormed(body, i);
      }
      AllFromSatisfy(ProductAt, body, 0, WellFormedProduct);
      forall k | 0 <= k < |Products(s)| ensures ProductShape(Products(s)[k]) {
        assert found[k] in found;
        ProductOfShape(found[k].value);
      }
    }
  }

  /** Every source has a non-empty, quote-free title and attribution, and a quote-free url. */
  lemma SourcesWellFormed(s: string)
    ensures forall k :: 0 <= k < |Sources(s)| ==>
      var src := Sources(s)[k];
      && src.title != "" && Free(src.title, '"')
      && Free(src.url, '"')
      && src.attribution != "" && Free(src.attribution, '"')
  {
    var section := Section(s, SourcesOpen, SourcesClose);
    if section.Some? {
      var body := section.value;
      SourceAtSound(body);
      var found := AllFrom(SourceAt, body, 0);
      AllFromSatisfy(SourceAt, body, 0, SourceMatchShape);
      forall k | 0 <= k < |Sources(s)|
        ensures var src := Sources(s)[k];
          && src.title != "" && Free(src.title, '"')
          && Free(src.url, '"')
          && src.attribution != "" && Free(src.attribution, '"')
      {
        assert found[k] in found && Sources(s)[k] == SourceOf(found[k].value);
        ReplaceAllKeepsFree(found[k].value.url, UtmSuffix, "", '"');
      }
    }
  }

  /** A price written `\u20b9` followed by plain text becomes the rupee sign followed by that text. */
  lemma RupeePrice(m: ProductMatch, amount: string)
    requires m.price == "\\u20b9" + amount && Free(amount, '\\')
    ensures ProductOf(m).price == "\U{20B9}" + amount
  {
    assert !Free("\\u20b9", '\\') by {
      assert "\\u20b9"[0] == '\\';
    }
    ReplaceAllAbsent(amount, "\\u20b9", "\U{20B9}", '\\');
    assert m.price[..|"\\u20b9"|] == "\\u20b9" && m.price[|"\\u20b9"|..] == amount;
  }

  /** A title without escapes is kept as captured. */
  lemma PlainTitleKept(m: ProductMatch)
    requires Free(m.title, '\\')
    ensures ProductOf(m).title == m.title
  {
    assert !Free("\\u202f", '\\') by {
      assert "\\u202f"[0] == '\\';
    }
    assert !Free("\\u2011", '\\') by {
      assert "\\u2011"[0] == '\\';
    }
    ReplaceAllAbsent(m.title, "\\u202f", " ", '\\');
    ReplaceAllAbsent(m.title, "\\u2011", "-", '\\');
  }

  /** The first of two different escapes, in text otherwise free of `\`, is the only one a pass for it replaces. */
  lemma FirstEscapePass(a: string, b: string, c: string, e1: string, e2: string, rep: string)
    requires |e1| == |e2| && e1 != e2 && e1[0] == '\\' && e2[0] == '\\' && Free(e2[1..], '\\')
    requires Free(a, '\\') && Free(b, '\\') && Free(c, '\\')
    ensures ReplaceAll(a + e1 + b + e2 + c, e1, rep) == a + rep + b + e2 + c
  {
    var rest := b + e2 + c;
    OtherEscapeKept(b, c, e1, e2, rep);
    assert a + e1 + b + e2 + c == a + e1 + rest;
    ReplaceAllAfterFree(a, e1, rep, rest);
    assert a + rep + rest == a + rep + b + e2 + c;
  }

  /** Text free of `\\` around a different escape is untouched by a pass for the first one. */
  lemma OtherEscapeKept(b: string, c: string, e1: string, e2: string, rep: string)
    requires |e1| == |e2| && e1 != e2 && e1[0] == '\\' && e2[0] == '\\' && Free(e2[1..], '\\')
    requires Free(b, '\\') && Free(c, '\\')
    ensures ReplaceAll(b + e2 + c, e1, rep) == b + e2 + c
  {
    assert b + e2 + c == b + (e2 + c);
    ReplaceAllSkipsFree(b, e2 + c, e1, rep);
    ReplaceAllOtherEscape(e2, c, e1, rep);
  }

  /** The only escape, in text otherwise free of `\`, is replaced by a pass for it. */
  lemma LastEscapePass(x: string, c: string, e: string, rep: string)
    requires e != [] && e[0] == '\\' && Free(x, '\\') && Free(c, '\\')
    ensures ReplaceAll(x + e + c, e, rep) == x + rep + c
  {
    ReplaceAllAfterFree(x, e, rep, c);
    ReplaceAllAbsent(c, e, rep, '\\');
  }

  /**
   * A title whose only escapes are a narrow no-break space `\u202f` and then
   * a non-breaking hyphen `\u2011` comes out with a plain space and a plain
   * hyphen in their places, the rest of the text kept.
   */
  lemma EscapedTitle(m: ProductMatch, a: string, b: string, c: string)
    requires m.title == a + "\\u202f" + b + "\\u2011" + c
    requires Free(a, '\\') && Free(b, '\\') && Free(c, '\\')
    ensures ProductOf(m).title == a + " " + b + "-" + c
  {
    var nb := "\\u202f";
    var nh := "\\u2011";
    assert nb[0] == '\\' && nh[0] == '\\' && nb[5] != nh[5];
    assert Free(nh[1..], '\\');
    FirstEscapePass(a, b, c, nb, nh, " ");
    var x := a + " " + b;
    assert Free(x, '\\') by {
      forall i | 0 <= i < |x| ensures x[i] != '\\' {
        if i < |a| {
          assert x[i] == a[i];
        } else if i > |a| {
          assert x[i] == b[i - |a| - 1];
        }
      }
    }
    assert a + " " + b + nh + c == x + nh + c;
    LastEscapePass(x, c, nh, "-");
  }

  /** A url ending in the ChatGPT tracking parameter, and without `?` before it, loses the parameter. */
  lemma TrackingSuffixRemoved(m: SourceMatch, base: string)
    requires m.url == base + UtmSuffix && Free(base, '?')
    ensures SourceOf(m).url == base
  {
    ReplaceAllSkipsFree(base, UtmSuffix, UtmSuffix, "");
    assert UtmSuffix[..|UtmSuffix|] == UtmSuffix && UtmSuffix[|UtmSuffix|..] == "";
  }

  /** `parseStreamToJSON`. */
  method ParseStreamToJSON(streamText: string) returns (result: StreamResult)
    ensures result == ParseStream(streamText)
  {
    QueryAtSound(streamText);
    var query := "";
    var queryMatch := FirstFrom(QueryAt, streamText, 0);
    if queryMatch.Some? {
      query := queryMatch.value.value;
    }
    var responseParts := CollectResponseParts(streamText);
    var products := ExtractProducts(streamText);
    var sources := ExtractSources(streamText);
    result := StreamResult(query, Unescape(Join("", responseParts)), products, sources);
  }
}
