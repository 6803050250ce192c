/**
 * `extractConversationData` of page-hook.js: the list of parsed stream
 * events folded into one conversation record by a series of scans, each with
 * its own policy (first write wins, last write wins, in-order
 * concatenation), followed by first-occurrence de-duplication of the
 * sources, products and news articles.
 *
 * A TypeError thrown anywhere (a property read on `null`/`undefined`, a
 * `for...of` over something not iterable, `.includes` on a value without
 * it) aborts the whole extraction: the result is then `TypeError`.
 */
module Conversation {
  import opened Wrappers
  import opened Strings
  import opened Js
  import opened Sse
  import D = Dedup

  datatype Source = Source(title: Value, url: Value, attribution: Value)

  datatype ProductSummary = ProductSummary(
    productName: Value, price: Value, recommendedBy: Value, rating: Value,
    numReviews: Value, imageUrl: Value, url: Value)

  datatype NewsArticle = NewsArticle(
    title: Value, url: Value, snippet: Value, domain: Value, attribution: Value, pubDate: Value)

  datatype Metadata = Metadata(model: Value, requestId: Value, turnExchangeId: Value, title: Value)

  datatype ConversationData = ConversationData(
    conversationId: Value,
    userPrompt: Value,
    rawAssistantResponse: string,
    searchQueries: seq<Value>,
    sources: seq<Source>,
    recommendedProducts: seq<ProductSummary>,
    newsArticles: seq<NewsArticle>,
    metadata: Metadata)

  const ContentPart0 := "/message/content/parts/0"
  const SearchResultGroups := "/message/metadata/search_result_groups"

  /** `v?.k0?.k1...`. */
  function At(v: Value, keys: seq<string>): Value
    decreases |keys|
  {
    if keys == [] then v else At(Prop(v, keys[0]), keys[1..])
  }

  // ---------------------------------------------------------------------
  // First write wins, last write wins

  /** What one event offers for a field; a falsy value offers nothing. */
  type Selector = SseEvent -> Value

  /** The first truthy offer, or "" when there is none. */
  function FirstTruthy(items: seq<SseEvent>, f: Selector): Value {
    if items == [] then Str("")
    else if Truthy(f(items[0])) then f(items[0])
    else FirstTruthy(items[1..], f)
  }

  /** The last truthy offer, or "" when there is none. */
  function LastTruthy(items: seq<SseEvent>, f: Selector): Value {
    if items == [] then Str("")
    else if Truthy(f(items[|items| - 1])) then f(items[|items| - 1])
    else LastTruthy(items[..|items| - 1], f)
  }

  /** The first truthy offer wins: later ones are ignored. */
  lemma {:induction false} FirstTruthyAt(items: seq<SseEvent>, f: Selector, k: int)
    requires 0 <= k < |items| && Truthy(f(items[k]))
    requires forall j :: 0 <= j < k ==> !Truthy(f(items[j]))
    ensures FirstTruthy(items, f) == f(items[k])
  {
    if k > 0 {
      forall j | 0 <= j < k - 1 ensures !Truthy(f(items[1..][j])) {
        assert items[1..][j] == items[j + 1];
      }
      FirstTruthyAt(items[1..], f, k - 1);
    }
  }

  /** Without any truthy offer the field keeps its initial "". */
  lemma {:induction false} FirstTruthyNone(items: seq<SseEvent>, f: Selector)
    requires forall j :: 0 <= j < |items| ==> !Truthy(f(items[j]))
    ensures FirstTruthy(items, f) == Str("")
  {
    if items != [] {
      assert !Truthy(f(items[0]));
      FirstTruthyNone(items[1..], f);
    }
  }

  /** The last truthy offer wins: earlier ones are overwritten. */
  lemma {:induction false} LastTruthyAt(items: seq<SseEvent>, f: Selector, k: int)
    requires 0 <= k < |items| && Truthy(f(items[k]))
    requires forall j :: k < j < |items| ==> !Truthy(f(items[j]))
    ensures LastTruthy(items, f) == f(items[k])
  {
    var n := |items| - 1;
    if k < n {
      var init := items[..n];
      assert !Truthy(f(items[n]));
      forall j | k < j < n ensures !Truthy(f(init[j])) {
        assert init[j] == items[j];
      }
      LastTruthyAt(init, f, k);
      assert init[k] == items[k];
    }
  }

  /** Without any truthy offer the field keeps its initial "". */
  lemma {:induction false} LastTruthyNone(items: seq<SseEvent>, f: Selector)
    requires forall j :: 0 <= j < |items| ==> !Truthy(f(items[j]))
    ensures LastTruthy(items, f) == Str("")
  {
    if items != [] {
      var init := items[..|items| - 1];
      assert !Truthy(f(items[|items| - 1]));
      forall j | 0 <= j < |init| ensures !Truthy(f(init[j])) {
        assert init[j] == items[j];
      }
      LastTruthyNone(init, f);
    }
  }

  /** `item.data?.conversation_id`. */
  function ConversationIdOffer(item: SseEvent): Value {
    Prop(DataOf(item), "conversation_id")
  }

  /** `parts?.[0]` of a `delta` event whose message author has role "user". */
  function UserPromptOffer(item: SseEvent): Value {
    var message := At(DataOf(item), ["v", "message"]);
    if IsDelta(item) && At(message, ["author", "role"]) == Str("user") then
      Index0(At(message, ["content", "parts"]))
    else Undefined
  }

  /** `item.data.title` of a `title_generation` event. */
  function TitleOffer(item: SseEvent): Value {
    var data := DataOf(item);
    if Prop(data, "type") == Str("title_generation") then Prop(data, "title") else Undefined
  }

  function MessageMetadata(item: SseEvent): Value {
    At(DataOf(item), ["v", "message", "metadata"])
  }

  function ModelOffer(item: SseEvent): Value {
    Prop(MessageMetadata(item), "model_slug")
  }

  function RequestIdOffer(item: SseEvent): Value {
    Prop(MessageMetadata(item), "request_id")
  }

  function TurnExchangeIdOffer(item: SseEvent): Value {
    Prop(MessageMetadata(item), "turn_exchange_id")
  }

  /** The user-prompt loop, which stops at the first match. */
  method ScanUserPrompt(items: seq<SseEvent>) returns (prompt: Value)
    ensures prompt == FirstTruthy(items, UserPromptOffer)
  {
    prompt := Str("");
    var i := 0;
    while i < |items|
      invariant 0 <= i <= |items|
      invariant forall j :: 0 <= j < i ==> !Truthy(UserPromptOffer(items[j]))
    {
      var offer := UserPromptOffer(items[i]);
      if Truthy(offer) {
        prompt := offer;
        FirstTruthyAt(items, UserPromptOffer, i);
        return;
      }
      i := i + 1;
    }
    FirstTruthyNone(items, UserPromptOffer);
  }

  /** The title loop: every truthy `title_generation` title overwrites the previous one. */
  method ScanTitle(items: seq<SseEvent>) returns (title: Value)
    ensures title == LastTruthy(items, TitleOffer)
  {
    title := Str("");
    var i := 0;
    while i < |items|
      invariant 0 <= i <= |items|
      invariant title == LastTruthy(items[..i], TitleOffer)
    {
      var offer := TitleOffer(items[i]);
      if Truthy(offer) {
        title := offer;
      }
      assert items[..i + 1][..i] == items[..i];
      i := i + 1;
    }
    assert items[..i] == items;
  }

  /** The metadata loop: each of the three fields is overwritten by every truthy value, independently. */
  method ScanMetadata(items: seq<SseEvent>) returns (model: Value, requestId: Value, turnExchangeId: Value)
    ensures model == LastTruthy(items, ModelOffer)
    ensures requestId == LastTruthy(items, RequestIdOffer)
    ensures turnExchangeId == LastTruthy(items, TurnExchangeIdOffer)
  {
    model, requestId, turnExchangeId := Str(""), Str(""), Str("");
    var i := 0;
    while i < |items|
      invariant 0 <= i <= |items|
      invariant model == LastTruthy(items[..i], ModelOffer)
      invariant requestId == LastTruthy(items[..i], RequestIdOffer)
      invariant turnExchangeId == LastTruthy(items[..i], TurnExchangeIdOffer)
    {
      var meta := MessageMetadata(items[i]);
      if Truthy(Prop(meta, "model_slug")) {
        model := Prop(meta, "model_slug");
      }
      if Truthy(Prop(meta, "request_id")) {
        requestId := Prop(meta, "request_id");
      }
      if Truthy(Prop(meta, "turn_exchange_id")) {
        turnExchangeId := Prop(meta, "turn_exchange_id");
      }
      assert items[..i + 1][..i] == items[..i];
      i := i + 1;
    }
    assert items[..i] == items;
  }

  // ---------------------------------------------------------------------
  // Search queries

  /** `...queries` of `message.metadata.search_model_queries` when truthy: arrays and strings spread, anything else throws. */
  function QueriesOf(item: SseEvent): Res<seq<Value>> {
    var queries := At(MessageMetadata(item), ["search_model_queries", "queries"]);
    if Truthy(queries) then Iterate(queries) else Ok([])
  }

  /** The queries of two streams one after the other are the queries of the first followed by those of the second. */
  lemma SearchQueriesInOrder(a: seq<SseEvent>, b: seq<SseEvent>)
    requires FlatMapRes(a, QueriesOf).Ok? && FlatMapRes(b, QueriesOf).Ok?
    ensures FlatMapRes(a + b, QueriesOf) == Ok(FlatMapRes(a, QueriesOf).value + FlatMapRes(b, QueriesOf).value)
  {
    FlatMapResAppend(a, b, QueriesOf);
  }

  /** An event whose queries are an array contributes exactly that array's elements. */
  lemma QueriesOfArray(item: SseEvent)
    requires At(MessageMetadata(item), ["search_model_queries", "queries"]).Arr?
    ensures QueriesOf(item) == Ok(At(MessageMetadata(item), ["search_model_queries", "queries"]).items)
  {
  }

  // ---------------------------------------------------------------------
  // Sources (content_references of kind sources_footnote)

  /** `{title: source.title, url: source.url, attribution: source.attribution}`. */
  function SourceOf(source: Value): Res<seq<Source>> {
    var title :- Member(source, "title");
    Ok([Source(title, Prop(source, "url"), Prop(source, "attribution"))])
  }

  /** The sources of one content reference: only a `sources_footnote` with truthy `sources`. */
  function SourcesOfRef(ref: Value): Res<seq<Source>> {
    var kind :- Member(ref, "type");
    var sources := Prop(ref, "sources");
    if kind == Str("sources_footnote") && Truthy(sources) then
      var xs :- Iterate(sources);
      FlatMapRes(xs, SourceOf)
    else Ok([])
  }

  /** The sources of one patch whose truthy path includes "content_references" and whose `v` is truthy. */
  function SourcesOfPatch(patch: Value): Res<seq<Source>> {
    var p :- Member(patch, "p");
    if !Truthy(p) then Ok([])
    else
      var mentionsRefs :- Includes(p, "content_references");
      var pv := Prop(patch, "v");
      if !mentionsRefs || !Truthy(pv) then Ok([])
      else FlatMapRes(if pv.Arr? then pv.items else [pv], SourcesOfRef)
  }

  /** The sources of one `delta` event: its `v`, or each element of `v` when it is an array, is a patch. */
  function SourcesOfItem(item: SseEvent): Res<seq<Source>> {
    var v := Prop(DataOf(item), "v");
    if IsDelta(item) && Truthy(v) then FlatMapRes(if v.Arr? then v.items else [v], SourcesOfPatch)
    else Ok([])
  }

  // ---------------------------------------------------------------------
  // Recommended products

  /** The summary pushed for a truthy product object `p`. */
  function Summary(p: Value): ProductSummary {
    var images := Prop(p, "image_urls");
    ProductSummary(
      Or(Prop(p, "title"), Str("")),
      Or(Prop(p, "price"), Str("")),
      Or(Prop(p, "merchants"), Str("")),
      Or(Prop(p, "rating"), Str("")),
      Or(Prop(p, "num_reviews"), Str("")),
      if images.Arr? then Index0(images) else Str(""),
      Or(Prop(p, "url"), Str("")))
  }

  /** One element of a `v` array: `dataItem.v?.product`, read from a `dataItem` that must not be nullish. */
  function ProductOfDataItem(dataItem: Value): Res<seq<ProductSummary>> {
    var inner :- Member(dataItem, "v");
    var p := Prop(inner, "product");
    Ok(if Truthy(p) then [Summary(p)] else [])
  }

  /** The products of one event: the nested ones of a non-empty `v` array, then `v.product` itself. */
  function ProductsOfItem(item: SseEvent): Res<seq<ProductSummary>> {
    var v := Prop(DataOf(item), "v");
    var nested :- if v.Arr? && |v.items| > 0 then FlatMapRes(v.items, ProductOfDataItem) else Ok([]);
    var direct := Prop(v, "product");
    Ok(nested + if Truthy(direct) then [Summary(direct)] else [])
  }

  /**
   * The sources loop and the products loop nested inside it: each event adds
   * its sources, then the whole products pass runs again, so the pushed
   * products are `|items|` copies of one pass.
   */
  function SourcesAndProducts(items: seq<SseEvent>): Res<(seq<Source>, seq<ProductSummary>)> {
    var sources :- FlatMapRes(items, SourcesOfItem);
    if items == [] then Ok((sources, []))
    else
      var once :- FlatMapRes(items, ProductsOfItem);
      Ok((sources, D.Repeat(once, |items|)))
  }

  method ScanSourcesAndProducts(items: seq<SseEvent>) returns (r: Res<(seq<Source>, seq<ProductSummary>)>)
    ensures r == SourcesAndProducts(items)
  {
    var sources: seq<Source> := [];
    var products: seq<ProductSummary> := [];
    var i := 0;
    while i < |items|
      invariant 0 <= i <= |items|
      invariant FlatMapRes(items[..i], SourcesOfItem) == Ok(sources)
      invariant i == 0 ==> products == []
      invariant i > 0 ==>
        FlatMapRes(items, ProductsOfItem).Ok? && products == D.Repeat(FlatMapRes(items, ProductsOfItem).value, i)
    {
      FlatMapResStep(items, i, SourcesOfItem);
      var found := SourcesOfItem(items[i]);
      if found.TypeError? {
        FlatMapResThrows(items, i + 1, SourcesOfItem);
        return TypeError;
      }
      sources := sources + found.value;
      var pass := ForOfPush(items, ProductsOfItem);
      if pass.TypeError? {
        return TypeError;
      }
      products := products + pass.value;
      i := i + 1;
    }
    assert items[..i] == items;
    return Ok((sources, products));
  }

  // ---------------------------------------------------------------------
  // News articles (search result groups)

  /** The article pushed for one entry of a group; reading `entry.title` throws on a nullish entry. */
  function ArticleOf(group: Value, entry: Value): Res<seq<NewsArticle>> {
    var title :- Member(entry, "title");
    Ok([NewsArticle(
      title, Prop(entry, "url"), Or(Prop(entry, "snippet"), Str("")),
      Prop(group, "domain"), Prop(entry, "attribution"), Or(Prop(entry, "pub_date"), Null))])
  }

  /** `for (const entry of entries)`. */
  function ArticlesOfEntries(group: Value, entries: Value): Res<seq<NewsArticle>> {
    var es :- Iterate(entries);
    FlatMapRes(es, (entry: Value) => ArticleOf(group, entry))
  }

  /** A group whose `entries` are iterated unconditionally. */
  function ArticlesOfGroup(group: Value): Res<seq<NewsArticle>> {
    var entries :- Member(group, "entries");
    ArticlesOfEntries(group, entries)
  }

  /** An element of a `v` array: only a `search_result_group` with truthy entries. */
  function ArticlesOfTypedGroup(group: Value): Res<seq<NewsArticle>> {
    var kind :- Member(group, "type");
    var entries := Prop(group, "entries");
    if kind == Str("search_result_group") && Truthy(entries) then ArticlesOfEntries(group, entries) else Ok([])
  }

  /** A group added by an `add` patch: only one with truthy entries. */
  function ArticlesOfAddedGroup(group: Value): Res<seq<NewsArticle>> {
    var entries :- Member(group, "entries");
    if Truthy(entries) then ArticlesOfEntries(group, entries) else Ok([])
  }

  /**
   * The four places a `delta` event may carry search result groups, in
   * order: the message metadata, an `append` at the groups path, any `v`
   * array, and an `add` at the groups path.
   */
  function NewsOfItem(item: SseEvent): Res<seq<NewsArticle>> {
    if !IsDelta(item) then Ok([])
    else
      var data := DataOf(item);
      var v := Prop(data, "v");
      var groups := Prop(MessageMetadata(item), "search_result_groups");
      var fromMetadata :- if Truthy(groups) then
          var gs :- Iterate(groups);
          FlatMapRes(gs, ArticlesOfGroup)
        else Ok([]);
      var atGroups := Prop(data, "p") == Str(SearchResultGroups) && v.Arr?;
      var fromAppend :- if atGroups && Prop(data, "o") == Str("append") then FlatMapRes(v.items, ArticlesOfGroup) else Ok([]);
      var fromArray :- if v.Arr? then FlatMapRes(v.items, ArticlesOfTypedGroup) else Ok([]);
      var fromAdd :- if atGroups && Prop(data, "o") == Str("add") then FlatMapRes(v.items, ArticlesOfAddedGroup) else Ok([]);
      Ok(fromMetadata + fromAppend + fromArray + fromAdd)
  }

  /**
   * A group that is itself an array has the truthy `entries` method of every
   * array, and iterating a function throws: such a group never yields articles.
   */
  lemma AddedArrayGroupThrows(group: Value)
    requires group.Arr?
    ensures ArticlesOfAddedGroup(group) == TypeError
  {
    assert Member(group, "entries") == Ok(Method("entries"));
  }

  /** The event that adds the one group `[]` at the groups path. */
  function AddEmptyArrayGroup(): SseEvent {
    SseEvent(Some("delta"), Some(Obj(map[
      "p" := Str(SearchResultGroups), "o" := Str("add"), "v" := Arr([Arr([])])])))
  }

  /** Adding an array as a group makes the news scan throw. */
  lemma AddedArrayGroupStopsNews()
    ensures NewsOfItem(AddEmptyArrayGroup()) == TypeError
  {
    var item := AddEmptyArrayGroup();
    var data := DataOf(item);
    var g := Arr([]);
    assert Prop(data, "v") == Arr([g]) && Prop(data, "p") == Str(SearchResultGroups);
    assert Prop(data, "o") == Str("add");
    assert MessageMetadata(item) == Undefined;
    assert Member(g, "type") == Ok(Undefined);
    assert ArticlesOfTypedGroup(g) == Ok([]);
    FlatMapResOne(g, ArticlesOfTypedGroup);
    AddedArrayGroupThrows(g);
    FlatMapResOne(g, ArticlesOfAddedGroup);
  }

  /** The scans before the news scan all complete on that event. */
  lemma AddedArrayGroupPassesEarlierScans()
    ensures FlatMapRes([AddEmptyArrayGroup()], QueriesOf) == Ok([])
    ensures SourcesAndProducts([AddEmptyArrayGroup()]).Ok?
  {
    var item := AddEmptyArrayGroup();
    assert MessageMetadata(item) == Undefined;
    FlatMapResOne(item, QueriesOf);
    AddedArrayGroupSources();
    AddedArrayGroupProducts();
  }

  lemma AddedArrayGroupSources()
    ensures FlatMapRes([AddEmptyArrayGroup()], SourcesOfItem) == Ok([])
  {
    var item := AddEmptyArrayGroup();
    var g := Arr([]);
    assert Prop(DataOf(item), "v") == Arr([g]);
    assert Member(g, "p") == Ok(Undefined);
    FlatMapResOne(g, SourcesOfPatch);
    FlatMapResOne(item, SourcesOfItem);
  }

  lemma AddedArrayGroupProducts()
    ensures FlatMapRes([AddEmptyArrayGroup()], ProductsOfItem) == Ok([])
  {
    var item := AddEmptyArrayGroup();
    var g := Arr([]);
    var v := Prop(DataOf(item), "v");
    assert v == Arr([g]);
    assert Member(g, "v") == Ok(Undefined);
    assert ProductOfDataItem(g) == Ok([]);
    FlatMapResOne(g, ProductOfDataItem);
    assert Prop(v, "product") == Undefined;
    assert ProductsOfItem(item) == Ok([]);
    FlatMapResOne(item, ProductsOfItem);
  }

  /** So adding an array as a group makes the whole extraction throw. */
  lemma AddedArrayGroupStopsExtraction()
    ensures ConversationOf([AddEmptyArrayGroup()]) == TypeError
  {
    var item := AddEmptyArrayGroup();
    AddedArrayGroupStopsNews();
    AddedArrayGroupPassesEarlierScans();
    FlatMapResOne(item, NewsOfItem);
  }

  /** Two loops over the same list that agree element by element agree. */
  lemma {:induction false} FlatMapResAgree<T, X>(xs: seq<T>, f: T -> Res<seq<X>>, g: T -> Res<seq<X>>)
    requires forall i :: 0 <= i < |xs| ==> f(xs[i]) == g(xs[i])
    ensures FlatMapRes(xs, f) == FlatMapRes(xs, g)
  {
    if xs != [] {
      var init := xs[..|xs| - 1];
      forall i | 0 <= i < |init| ensures f(init[i]) == g(init[i]) {
        assert init[i] == xs[i];
      }
      FlatMapResAgree(init, f, g);
    }
  }

  predicate IsResultGroup(group: Value) {
    Prop(group, "type") == Str("search_result_group") && Truthy(Prop(group, "entries"))
  }

  /**
   * An `append` at the groups path whose groups are all typed, non-empty
   * search result groups is read twice, once as an append and once as a `v`
   * array: each of its articles is pushed twice, in the same order.
   */
  lemma AppendedGroupsPushedTwice(item: SseEvent, groups: seq<Value>)
    requires IsDelta(item) && DataOf(item).Obj?
    requires Prop(DataOf(item), "p") == Str(SearchResultGroups) && Prop(DataOf(item), "o") == Str("append")
    requires Prop(DataOf(item), "v") == Arr(groups)
    requires forall i :: 0 <= i < |groups| ==> IsResultGroup(groups[i])
    requires FlatMapRes(groups, ArticlesOfGroup).Ok?
    ensures NewsOfItem(item) == Ok(FlatMapRes(groups, ArticlesOfGroup).value + FlatMapRes(groups, ArticlesOfGroup).value)
  {
    forall i | 0 <= i < |groups| ensures ArticlesOfTypedGroup(groups[i]) == ArticlesOfGroup(groups[i]) {
      TypedGroupIsGroup(groups[i]);
    }
    FlatMapResAgree(groups, ArticlesOfTypedGroup, ArticlesOfGroup);
    NewsOfAppendedGroups(item, groups);
  }

  /** An `append` at the groups path is read as an append and then as a `v` array. */
  lemma NewsOfAppendedGroups(item: SseEvent, groups: seq<Value>)
    requires IsDelta(item) && DataOf(item).Obj?
    requires Prop(DataOf(item), "p") == Str(SearchResultGroups) && Prop(DataOf(item), "o") == Str("append")
    requires Prop(DataOf(item), "v") == Arr(groups)
    ensures NewsOfItem(item) ==
      (var a :- FlatMapRes(groups, ArticlesOfGroup);
       var b :- FlatMapRes(groups, ArticlesOfTypedGroup);
       Ok(a + b))
  {
    var data := DataOf(item);
    assert MessageMetadata(item) == Undefined by {
      assert At(data, ["v", "message", "metadata"]) == At(Arr(groups), ["message", "metadata"]);
      assert At(Arr(groups), ["message", "metadata"]) == At(Undefined, ["metadata"]);
    }
    assert Prop(Undefined, "search_result_groups") == Undefined;
    assert Prop(data, "o") != Str("add");
    var a := FlatMapRes(groups, ArticlesOfGroup);
    var b := FlatMapRes(groups, ArticlesOfTypedGroup);
    if a.Ok? && b.Ok? {
      assert NewsOfItem(item) == Ok([] + a.value + b.value + []);
      assert [] + a.value + b.value + [] == a.value + b.value;
    }
  }

  lemma TypedGroupIsGroup(group: Value)
    requires IsResultGroup(group)
    ensures ArticlesOfTypedGroup(group) == ArticlesOfGroup(group)
  {
    assert Member(group, "type") == Ok(Str("search_result_group"));
    assert Member(group, "entries") == Ok(Prop(group, "entries"));
  }

  // ---------------------------------------------------------------------
  // Assistant text

  /** One patch of a `patch` batch: its string `v` when it appends at the first content part. */
  function PatchText(patch: Value): Res<seq<string>> {
    var p :- Member(patch, "p");
    var v := Prop(patch, "v");
    Ok(if p == Str(ContentPart0) && Prop(patch, "o") == Str("append") && v.Str? then [v.s] else [])
  }

  /** The text parts of one `delta` event with a truthy `o`: the flat append, then the batched ones. */
  function TextPartsOfItem(item: SseEvent): Res<seq<string>> {
    var data := DataOf(item);
    var o := Prop(data, "o");
    var v := Prop(data, "v");
    if !(IsDelta(item) && Truthy(o)) then Ok([])
    else
      var flat := if Prop(data, "p") == Str(ContentPart0) && o == Str("append") && v.Str? then [v.s] else [];
      var batched :- if o == Str("patch") && v.Arr? then FlatMapRes(v.items, PatchText) else Ok([]);
      Ok(flat + batched)
  }

  /** An `append` of `s` at the first content part. */
  function AppendPatch(s: string): Value {
    Obj(map["p" := Str(ContentPart0), "o" := Str("append"), "v" := Str(s)])
  }

  function AppendPatches(parts: seq<string>): seq<Value> {
    seq(|parts|, i requires 0 <= i < |parts| => AppendPatch(parts[i]))
  }

  /** The flat encoding: one `delta` event per text part. */
  function FlatEvents(parts: seq<string>): seq<SseEvent> {
    seq(|parts|, i requires 0 <= i < |parts| => SseEvent(Some("delta"), Some(AppendPatch(parts[i]))))
  }

  /** The batched encoding: one `delta` event carrying a `patch` of appends. */
  function BatchedEvent(parts: seq<string>): SseEvent {
    SseEvent(Some("delta"), Some(Obj(map["o" := Str("patch"), "v" := Arr(AppendPatches(parts))])))
  }

  lemma {:induction false} FlatTextParts(parts: seq<string>)
    ensures FlatMapRes(FlatEvents(parts), TextPartsOfItem) == Ok(parts)
  {
    if parts != [] {
      var n := |parts| - 1;
      var events := FlatEvents(parts);
      assert events[..n] == FlatEvents(parts[..n]);
      FlatTextParts(parts[..n]);
      assert events[n] == SseEvent(Some("delta"), Some(AppendPatch(parts[n])));
      FlatEventText(parts[n]);
      assert FlatMapRes(events, TextPartsOfItem) == Ok(parts[..n] + [parts[n]]);
      assert parts[..n] + [parts[n]] == parts;
    }
  }

  /** One flat `append` event yields its one text part. */
  lemma FlatEventText(s: string)
    ensures TextPartsOfItem(SseEvent(Some("delta"), Some(AppendPatch(s)))) == Ok([s])
  {
    var data := AppendPatch(s);
    assert Prop(data, "o") == Str("append") && Prop(data, "p") == Str(ContentPart0);
    assert Prop(data, "v") == Str(s);
    assert [s] + [] == [s];
  }

  lemma {:induction false} BatchedTextParts(parts: seq<string>)
    ensures FlatMapRes(AppendPatches(parts), PatchText) == Ok(parts)
  {
    if parts != [] {
      var n := |parts| - 1;
      assert AppendPatches(parts)[..n] == AppendPatches(parts[..n]);
      BatchedTextParts(parts[..n]);
      var patch := AppendPatch(parts[n]);
      assert AppendPatches(parts)[n] == patch;
      assert Member(patch, "p") == Ok(Str(ContentPart0));
      assert Prop(patch, "o") == Str("append") && Prop(patch, "v") == Str(parts[n]);
      assert PatchText(patch) == Ok([parts[n]]);
      assert parts[..n] + [parts[n]] == parts;
    }
  }

  /** The flat and the batched encodings of the same text parts yield the same parts, in order. */
  lemma FlatAndBatchedAgree(parts: seq<string>)
    ensures FlatMapRes(FlatEvents(parts), TextPartsOfItem) == Ok(parts)
    ensures FlatMapRes([BatchedEvent(parts)], TextPartsOfItem) == Ok(parts)
  {
    FlatTextParts(parts);
    BatchedTextParts(parts);
    var e := BatchedEvent(parts);
    var data := DataOf(e);
    assert Prop(data, "p") == Undefined;
    assert Prop(data, "o") == Str("patch") && Prop(data, "v") == Arr(AppendPatches(parts));
    assert TextPartsOfItem(e) == Ok([] + parts);
    assert [e][..0] == [];
    assert FlatMapRes([e][..0], TextPartsOfItem) == Ok([]);
    assert FlatMapRes([e], TextPartsOfItem) == Ok([] + ([] + parts));
    assert [] + ([] + parts) == parts;
  }

  /** The first content part's path does not mention "content_references". */
  lemma ContentPathMentionsNoRefs()
    ensures Includes(Str(ContentPart0), "content_references") == Ok(false)
  {
    var s, pat := ContentPart0, "content_references";
    forall k: nat | k + |pat| <= |s| ensures !OccursAt(s, pat, k) {
      assert k <= 6 && s[k..k + |pat|][0] == s[k];
      assert s[k] != 'c';
    }
    assert IndexOf(s, pat, 0) == -1;
  }

  /** Every scan before the text scan completes on one flat `append` event. */
  lemma FlatEventScans(s: string)
    ensures var e := SseEvent(Some("delta"), Some(AppendPatch(s)));
      && QueriesOf(e).Ok? && SourcesOfItem(e).Ok? && ProductsOfItem(e).Ok? && NewsOfItem(e).Ok?
  {
    var e := SseEvent(Some("delta"), Some(AppendPatch(s)));
    var data := DataOf(e);
    assert Prop(data, "v") == Str(s) && Prop(data, "p") == Str(ContentPart0);
    assert MessageMetadata(e) == Undefined;
    assert Member(Str(s), "p") == Ok(Undefined);
    FlatMapResOne(Str(s), SourcesOfPatch);
  }

  /** Every scan before the text scan completes on one patch of the batched encoding. */
  lemma AppendPatchScans(s: string)
    ensures SourcesOfPatch(AppendPatch(s)).Ok?
    ensures ProductOfDataItem(AppendPatch(s)).Ok?
    ensures ArticlesOfTypedGroup(AppendPatch(s)).Ok?
  {
    var patch := AppendPatch(s);
    assert Member(patch, "p") == Ok(Str(ContentPart0));
    ContentPathMentionsNoRefs();
    assert Member(patch, "v") == Ok(Str(s));
    assert Member(patch, "type") == Ok(Undefined);
  }

  /** Every scan before the text scan completes on the batched event. */
  lemma BatchedEventScans(parts: seq<string>)
    ensures var e := BatchedEvent(parts);
      && QueriesOf(e).Ok? && SourcesOfItem(e).Ok? && ProductsOfItem(e).Ok? && NewsOfItem(e).Ok?
  {
    var e := BatchedEvent(parts);
    var data := DataOf(e);
    var patches := AppendPatches(parts);
    assert Prop(data, "v") == Arr(patches) && Prop(data, "p") == Undefined;
    assert MessageMetadata(e) == Undefined;
    forall i | 0 <= i < |patches|
      ensures SourcesOfPatch(patches[i]).Ok? && ProductOfDataItem(patches[i]).Ok?
      ensures ArticlesOfTypedGroup(patches[i]).Ok?
    {
      AppendPatchScans(parts[i]);
    }
    FlatMapResOk(patches, SourcesOfPatch);
    FlatMapResOk(patches, ProductOfDataItem);
    FlatMapResOk(patches, ArticlesOfTypedGroup);
  }

  /** The four scans of one event that may throw complete on it. */
  predicate ScansOk(item: SseEvent) {
    && QueriesOf(item).Ok? && SourcesOfItem(item).Ok?
    && ProductsOfItem(item).Ok? && NewsOfItem(item).Ok?
  }

  /** The extraction completes whenever all four scans complete on every event. */
  lemma ConversationOfOk(items: seq<SseEvent>)
    requires forall i :: 0 <= i < |items| ==> ScansOk(items[i])
    requires FlatMapRes(items, TextPartsOfItem).Ok?
    ensures ConversationOf(items).Ok?
  {
    QueriesAndNewsOk(items);
    SourcesAndProductsOk(items);
    ConversationOfScans(items);
  }

  lemma QueriesAndNewsOk(items: seq<SseEvent>)
    requires forall i :: 0 <= i < |items| ==> ScansOk(items[i])
    ensures FlatMapRes(items, QueriesOf).Ok? && FlatMapRes(items, NewsOfItem).Ok?
  {
    FlatMapResOk(items, QueriesOf);
    FlatMapResOk(items, NewsOfItem);
  }

  lemma SourcesAndProductsOk(items: seq<SseEvent>)
    requires forall i :: 0 <= i < |items| ==> ScansOk(items[i])
    ensures SourcesAndProducts(items).Ok?
  {
    FlatMapResOk(items, SourcesOfItem);
    FlatMapResOk(items, ProductsOfItem);
  }

  /** The record is built once the four passes that may throw have completed. */
  lemma ConversationOfScans(items: seq<SseEvent>)
    requires FlatMapRes(items, QueriesOf).Ok? && SourcesAndProducts(items).Ok?
    requires FlatMapRes(items, NewsOfItem).Ok? && FlatMapRes(items, TextPartsOfItem).Ok?
    ensures ConversationOf(items).Ok?
  {
  }

  // ---------------------------------------------------------------------
  // The whole record

  function SourceKey(s: Source): Value { s.url }
  function ProductKey(p: ProductSummary): Value { p.productName }
  function ArticleKey(a: NewsArticle): Value { a.url }

  /** What `extractConversationData(items)` returns, or TypeError when it throws. */
  function ConversationOf(items: seq<SseEvent>): Res<ConversationData> {
    var queries :- FlatMapRes(items, QueriesOf);
    var sp :- SourcesAndProducts(items);
    var news :- FlatMapRes(items, NewsOfItem);
    var parts :- FlatMapRes(items, TextPartsOfItem);
    Ok(ConversationData(
      FirstTruthy(items, ConversationIdOffer),
      FirstTruthy(items, UserPromptOffer),
      Join("", parts),
      queries,
      D.Dedup(sp.0, SourceKey),
      D.Dedup(sp.1, ProductKey),
      D.Dedup(news, ArticleKey),
      Metadata(
        LastTruthy(items, ModelOffer), LastTruthy(items, RequestIdOffer),
        LastTruthy(items, TurnExchangeIdOffer), LastTruthy(items, TitleOffer))))
  }

  /** `extractConversationData`: the scans in the order the source runs them. */
  method ExtractConversationData(items: seq<SseEvent>) returns (r: Res<ConversationData>)
    ensures r == ConversationOf(items)
  {
    var conversationId := FirstTruthy(items, ConversationIdOffer);
    var userPrompt := ScanUserPrompt(items);
    var queries := ForOfPush(items, QueriesOf);
    if queries.TypeError? {
      return TypeError;
    }
    var title := ScanTitle(items);
    var model, requestId, turnExchangeId := ScanMetadata(items);
    var sp := ScanSourcesAndProducts(items);
    if sp.TypeError? {
      return TypeError;
    }
    var news := ForOfPush(items, NewsOfItem);
    if news.TypeError? {
      return TypeError;
    }
    var textParts := ForOfPush(items, TextPartsOfItem);
    if textParts.TypeError? {
      return TypeError;
    }
    r := Ok(ConversationData(
      conversationId, userPrompt, Join("", textParts.value), queries.value,
      D.Dedup(sp.value.0, SourceKey), D.Dedup(sp.value.1, ProductKey), D.Dedup(news.value, ArticleKey),
      Metadata(model, requestId, turnExchangeId, title)));
  }

  // ---------------------------------------------------------------------
  // Properties of the record

  /** The raw response of a flat or of a batched encoding of the same parts is their concatenation. */
  lemma RawResponseOfEncodings(parts: seq<string>)
    ensures ConversationOf(FlatEvents(parts)).Ok?
    ensures ConversationOf(FlatEvents(parts)).value.rawAssistantResponse == Join("", parts)
    ensures ConversationOf([BatchedEvent(parts)]).Ok?
    ensures ConversationOf([BatchedEvent(parts)]).value.rawAssistantResponse == Join("", parts)
  {
    FlatAndBatchedAgree(parts);
    var flat := FlatEvents(parts);
    forall i | 0 <= i < |flat| ensures ScansOk(flat[i]) {
      FlatEventScans(parts[i]);
    }
    ConversationOfOk(flat);
    BatchedEventScans(parts);
    var batched := [BatchedEvent(parts)];
    assert ScansOk(batched[0]);
    ConversationOfOk(batched);
    RawResponseOfTextParts(flat);
    RawResponseOfTextParts(batched);
  }

  /** The raw response is the text parts of all the events, joined. */
  lemma RawResponseOfTextParts(items: seq<SseEvent>)
    ensures ConversationOf(items).Ok? ==>
      && FlatMapRes(items, TextPartsOfItem).Ok?
      && ConversationOf(items).value.rawAssistantResponse == Join("", FlatMapRes(items, TextPartsOfItem).value)
  {
  }

  /** "A", "B", "C" flat or batched both give "ABC". */
  lemma RawResponseABC()
    ensures ConversationOf(FlatEvents(["A", "B", "C"])).Ok?
    ensures ConversationOf(FlatEvents(["A", "B", "C"])).value.rawAssistantResponse == "ABC"
    ensures ConversationOf([BatchedEvent(["A", "B", "C"])]).Ok?
    ensures ConversationOf([BatchedEvent(["A", "B", "C"])]).value.rawAssistantResponse == "ABC"
  {
    var parts := ["A", "B", "C"];
    RawResponseOfEncodings(parts);
    assert Join("", parts) == "ABC";
  }

  /** After de-duplication no two products share a name, and no two sources or articles share a URL. */
  lemma NoDuplicateKeys(items: seq<SseEvent>)
    requires ConversationOf(items).Ok?
    ensures var c := ConversationOf(items).value;
      && (forall a, b :: 0 <= a < b < |c.recommendedProducts| ==>
            c.recommendedProducts[a].productName != c.recommendedProducts[b].productName)
      && (forall a, b :: 0 <= a < b < |c.sources| ==> c.sources[a].url != c.sources[b].url)
      && (forall a, b :: 0 <= a < b < |c.newsArticles| ==> c.newsArticles[a].url != c.newsArticles[b].url)
  {
    var sp := SourcesAndProducts(items).value;
    var news := FlatMapRes(items, NewsOfItem).value;
    D.DedupNoDuplicateKeys(sp.0, SourceKey);
    D.DedupNoDuplicateKeys(sp.1, ProductKey);
    D.DedupNoDuplicateKeys(news, ArticleKey);
  }

  /**
   * The products pushed once per event collapse: the record holds the
   * de-duplicated products of a single pass over the events.
   */
  lemma ProductsOfOnePass(items: seq<SseEvent>)
    requires ConversationOf(items).Ok?
    ensures FlatMapRes(items, ProductsOfItem).Ok?
    ensures ConversationOf(items).value.recommendedProducts == D.Dedup(FlatMapRes(items, ProductsOfItem).value, ProductKey)
  {
    if items == [] {
      assert D.Dedup([], ProductKey) == [];
    } else {
      D.DedupRepeat(FlatMapRes(items, ProductsOfItem).value, ProductKey, |items|);
    }
  }
}
