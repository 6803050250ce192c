/**
 * `extractProductData` of page-hook.js: one pass over the parsed events of a
 * product stream with two cursors. `currentRationale` is the rationale object
 * most recently pushed onto `rationales`; since it is the same object, an
 * append to it changes the last element of the list. Here the cursor is an
 * index into `rationales`, and `Valid` states that it always designates the
 * last element. `currentReview` is a separate object: `reviewSummary` gets a
 * copy of its summary, so later `/summary` appends never reach the result.
 *
 * Patches are not JSON Patch: only the paths and operations listed below are
 * recognised, and any other patch is ignored.
 */
module Product {
  import opened Wrappers
  import opened Strings
  import opened Js
  import opened Sse

  /** A `{rationale, citations, grouped_citation}` object. */
  datatype Rationale = Rationale(text: Value, citations: Value, groupedCitation: Value)

  /** A `{title, url, snippet, pub_date}` supporting website. */
  datatype Site = Site(title: Value, url: Value, snippet: Value, pubDate: Value)

  /** The three shapes of object pushed onto `reviews`. */
  datatype Review =
    | PatchReview(source: Value, theme: Value, summary: Value, rating: Value,
                  numReviews: Value, sentiment: Value, cite: Value, citeUrl: Value)
    | RefReview(title: Value, url: Value, snippet: Value, supportingWebsites: seq<Site>)
    | SiteReview(site: Site)

  datatype ProductInfo = ProductInfo(
    productName: Value, merchants: seq<Value>, price: Value, rating: Value,
    numReviews: Value, url: Value, description: Value, offers: Value)

  /** The `currentReview` object. */
  datatype ReviewBlock = ReviewBlock(summary: Value, reviews: Value, citeMap: Value)

  /**
   * The variables of the pass: the four fields of `result` (`productInfo` is
   * None while it is still the initial `{}`) and the two cursors.
   */
  datatype State = State(
    productInfo: Option<ProductInfo>,
    rationales: seq<Rationale>,
    reviews: seq<Review>,
    reviewSummary: Value,
    currentRationale: Option<nat>,
    currentReview: Option<ReviewBlock>)

  /** The returned object; `summaryText` is None when `summary_text` was never set. */
  datatype ProductData = ProductData(
    productInfo: Option<ProductInfo>,
    rationales: seq<Rationale>,
    reviews: seq<Review>,
    reviewSummary: Value,
    summaryText: Option<string>)

  function Initial(): State {
    State(None, [], [], Str(""), None, None)
  }

  /** `currentRationale` is the last rationale pushed, and is null before the first one. */
  predicate Valid(st: State) {
    st.currentRationale == if st.rationales == [] then None else Some(|st.rationales| - 1)
  }

  /**
   * What one patch may change: the existing rationales (not their number),
   * the review cursor, and the reviews, which only grow.
   */
  predicate PatchFrame(st: State, st': State) {
    && Valid(st')
    && |st'.rationales| == |st.rationales|
    && st.reviews <= st'.reviews
    && st'.reviewSummary == st.reviewSummary
    && st'.productInfo == st.productInfo
  }

  // ---------------------------------------------------------------------
  // One patch of an array `v`

  function LastRationale(st: State): Rationale
    requires st.rationales != []
  {
    st.rationales[|st.rationales| - 1]
  }

  /**
   * `st'` differs from `st` at most in the last rationale: the cursors, the
   * reviews, the summary, the product info and the other rationales are as
   * they were.
   */
  predicate OnlyLastRationale(st: State, st': State) {
    && st'.(rationales := st.rationales) == st
    && |st'.rationales| == |st.rationales|
    && forall i :: 0 <= i < |st.rationales| - 1 ==> st'.rationales[i] == st.rationales[i]
  }

  /** The patch appends to the current rationale's text. */
  predicate AppendsRationale(st: State, path: Value, op: Value) {
    st.currentRationale.Some? && path.Str? && "/rationale" <= path.s && op == Str("append")
  }

  /** `currentRationale.rationale += val` on a `/rationale...` append. */
  function RationaleAppend(st: State, path: Value, op: Value, val: Value): (r: Res<State>)
    requires Valid(st)
    ensures r.TypeError? <==> st.currentRationale.Some? && !path.Str?
    ensures r.Ok? ==> OnlyLastRationale(st, r.value)
    ensures r.Ok? && st.rationales != [] ==>
      var last := LastRationale(st);
      LastRationale(r.value) == if AppendsRationale(st, path, op) then last.(text := Concat(last.text, val)) else last
  {
    if st.currentRationale.None? then Ok(st)
    else
      var isRationale :- StartsWith(path, "/rationale");
      if isRationale && op == Str("append") then
        var i := st.currentRationale.value;
        var cur := st.rationales[i];
        Ok(st.(rationales := st.rationales[i := cur.(text := Concat(cur.text, val))]))
      else Ok(st)
  }

  /** The patch appends to the current review's summary. */
  predicate AppendsSummary(st: State, path: Value, op: Value) {
    st.currentReview.Some? && path.Str? && "/summary" <= path.s && op == Str("append")
  }

  /** `currentReview.summary += val` on a `/summary...` append. */
  function SummaryAppend(st: State, path: Value, op: Value, val: Value): (r: Res<State>)
    requires Valid(st)
    ensures r.TypeError? <==> st.currentReview.Some? && !path.Str?
    ensures r.Ok? ==> r.value.(currentReview := st.currentReview) == st
    ensures r.Ok? && AppendsSummary(st, path, op) ==>
      r.value.currentReview == Some(st.currentReview.value.(summary := Concat(st.currentReview.value.summary, val)))
    ensures r.Ok? && !AppendsSummary(st, path, op) ==> r.value == st
  {
    if st.currentReview.None? then Ok(st)
    else
      var isSummary :- StartsWith(path, "/summary");
      if isSummary && op == Str("append") then
        var block := st.currentReview.value;
        Ok(st.(currentReview := Some(block.(summary := Concat(block.summary, val)))))
      else Ok(st)
  }

  /** The review pushed for one non-nullish element of a `/reviews` append. */
  function PatchReviewFor(review: Value): Review {
    PatchReview(
      Or(Prop(review, "source"), Null), Or(Prop(review, "theme"), Null), Or(Prop(review, "summary"), Null),
      Or(Prop(review, "rating"), Null), Or(Prop(review, "num_reviews"), Null),
      Or(Prop(review, "sentiment"), Null), Or(Prop(review, "cite"), Null),
      Or(Prop(review, "cite_url"), Null))
  }

  /** One element of a `/reviews` append: reading `review.source` throws on a nullish element. */
  function PatchReviewOf(review: Value): (r: Res<seq<Review>>)
    ensures r.TypeError? <==> IsNullish(review)
    ensures r.Ok? ==> r.value == [PatchReviewFor(review)]
  {
    if IsNullish(review) then TypeError else Ok([PatchReviewFor(review)])
  }

  /** An `append` at exactly `/reviews` of an array. */
  predicate IsReviewsAppend(path: Value, op: Value, val: Value) {
    path == Str("/reviews") && op == Str("append") && val.Arr?
  }

  /** The reviews a patch pushes: one per element of a `/reviews` append, in order. */
  function ReviewsPushed(path: Value, op: Value, val: Value): seq<Review> {
    if IsReviewsAppend(path, op, val) then MapSeq(val.items, PatchReviewFor) else []
  }

  /** The `/reviews` append loop. */
  function ReviewsAppend(st: State, path: Value, op: Value, val: Value): (r: Res<State>)
    requires Valid(st)
    ensures r.TypeError? <==>
      IsReviewsAppend(path, op, val) && exists i :: 0 <= i < |val.items| && IsNullish(val.items[i])
    ensures r.Ok? ==> r.value == st.(reviews := st.reviews + ReviewsPushed(path, op, val))
  {
    if IsReviewsAppend(path, op, val) then
      FlatMapResOk(val.items, PatchReviewOf);
      FlatMapResMap(val.items, PatchReviewOf, PatchReviewFor);
      var pushed :- FlatMapRes(val.items, PatchReviewOf);
      Ok(st.(reviews := st.reviews + pushed))
    else Ok(st)
  }

  /** The patch touches the current rationale's citation group. */
  predicate SetsCitation(st: State, path: Value) {
    st.currentRationale.Some? && path.Str? && "/grouped_citation" <= path.s
  }

  /**
   * The citation group after a `/grouped_citation...` patch: `{}` if it was
   * falsy, with `val` under the path minus its first "/grouped_citation/"
   * when that key is non-empty and `val` is defined.
   */
  function CitedGroup(group: Value, path: string, val: Value): Value {
    var g := Or(group, Obj(map[]));
    var key := ReplaceFirst(path, "/grouped_citation/", "");
    if key != "" && val != Undefined then SetProp(g, key, val) else g
  }

  /** A patch at "/grouped_citation/" + key stores a defined value under that key of the group. */
  lemma CitedGroupStoresKey(group: Value, key: string, val: Value)
    requires key != "" && val != Undefined
    requires group.Obj? || !Truthy(group)
    ensures var g := CitedGroup(group, "/grouped_citation/" + key, val);
      g.Obj? && g.props == (if group.Obj? then group.props else map[])[key := val]
  {
    var pat := "/grouped_citation/";
    var s := pat + key;
    assert OccursAt(s, pat, 0) by {
      assert s[..|pat|] == pat;
    }
    var i := IndexOf(s, pat, 0);
    assert i == 0;
    assert ReplaceFirst(s, pat, "") == key by {
      assert s[|pat|..] == key;
    }
  }

  /** The `/grouped_citation...` branch of the patch loop. */
  function CitationSet(st: State, path: Value, val: Value): (r: Res<State>)
    requires Valid(st)
    ensures r.TypeError? <==> st.currentRationale.Some? && !path.Str?
    ensures r.Ok? ==> OnlyLastRationale(st, r.value)
    ensures r.Ok? && st.rationales != [] ==>
      var last := LastRationale(st);
      LastRationale(r.value) ==
        if SetsCitation(st, path) then last.(groupedCitation := CitedGroup(last.groupedCitation, path.s, val)) else last
  {
    if st.currentRationale.None? then Ok(st)
    else
      var isCitation :- StartsWith(path, "/grouped_citation");
      if isCitation then
        var i := st.currentRationale.value;
        var cur := st.rationales[i];
        Ok(st.(rationales := st.rationales[i := cur.(groupedCitation := CitedGroup(cur.groupedCitation, path.s, val))]))
      else Ok(st)
  }

  /** `patch.p || ""`. */
  function PathOf(patch: Value): Value {
    Or(Prop(patch, "p"), Str(""))
  }

  /** What one patch does to the last rationale: its text and its citation group, independently. */
  function PatchedRationale(last: Rationale, path: Value, op: Value, val: Value): Rationale {
    var isRationale := path.Str? && "/rationale" <= path.s && op == Str("append");
    var isCitation := path.Str? && "/grouped_citation" <= path.s;
    last.(
      text := if isRationale then Concat(last.text, val) else last.text,
      groupedCitation := if isCitation then CitedGroup(last.groupedCitation, path.s, val) else last.groupedCitation)
  }

  /** The body of the patch loop; `patch.p` is read from a patch that must not be nullish. */
  function PatchStep(st: State, patch: Value): (r: Res<State>)
    requires Valid(st)
    ensures r.Ok? ==> PatchFrame(st, r.value)
    ensures r.Ok? ==> r.value.reviews == st.reviews + ReviewsPushed(PathOf(patch), Prop(patch, "o"), Prop(patch, "v"))
  {
    var p :- Member(patch, "p");
    var path, val, op := Or(p, Str("")), Prop(patch, "v"), Prop(patch, "o");
    var st1 :- RationaleAppend(st, path, op, val);
    var st2 :- SummaryAppend(st1, path, op, val);
    var st3 :- ReviewsAppend(st2, path, op, val);
    CitationSet(st3, path, val)
  }

  /**
   * What one patch does. It throws when a cursor is set and the path is not
   * a string, or when a `/reviews` append holds a nullish element; otherwise
   * it patches the last rationale and the current review, pushes that
   * append's reviews, and leaves the rest alone.
   */
  lemma PatchStepEffect(st: State, patch: Value)
    requires Valid(st)
    ensures var path, op, val := PathOf(patch), Prop(patch, "o"), Prop(patch, "v");
      PatchStep(st, patch).TypeError? <==>
        || IsNullish(patch)
        || ((st.currentRationale.Some? || st.currentReview.Some?) && !path.Str?)
        || (IsReviewsAppend(path, op, val) && exists i :: 0 <= i < |val.items| && IsNullish(val.items[i]))
    ensures PatchStep(st, patch).Ok? ==> PatchStep(st, patch).value.currentRationale == st.currentRationale
    ensures PatchStep(st, patch).Ok? ==>
      forall i :: 0 <= i < |st.rationales| - 1 ==> PatchStep(st, patch).value.rationales[i] == st.rationales[i]
    ensures PatchStep(st, patch).Ok? && st.rationales != [] ==>
      LastRationale(PatchStep(st, patch).value) ==
        PatchedRationale(LastRationale(st), PathOf(patch), Prop(patch, "o"), Prop(patch, "v"))
    ensures PatchStep(st, patch).Ok? && AppendsSummary(st, PathOf(patch), Prop(patch, "o")) ==>
      PatchStep(st, patch).value.currentReview ==
        Some(st.currentReview.value.(summary := Concat(st.currentReview.value.summary, Prop(patch, "v"))))
    ensures PatchStep(st, patch).Ok? && !AppendsSummary(st, PathOf(patch), Prop(patch, "o")) ==>
      PatchStep(st, patch).value.currentReview == st.currentReview
  {
  }

  /** The reviews pushed by the first patches, in order. */
  function ReviewsPushedByPatches(patches: seq<Value>): seq<Review> {
    if patches == [] then []
    else
      var last := patches[|patches| - 1];
      ReviewsPushedByPatches(patches[..|patches| - 1]) + ReviewsPushed(PathOf(last), Prop(last, "o"), Prop(last, "v"))
  }

  /** The patch loop over the first patches, in order. */
  function PatchesStep(st: State, patches: seq<Value>): (r: Res<State>)
    requires Valid(st)
    ensures r.Ok? ==> PatchFrame(st, r.value)
  {
    if patches == [] then Ok(st)
    else
      var st' :- PatchesStep(st, patches[..|patches| - 1]);
      PatchStep(st', patches[|patches| - 1])
  }

  /** The patch loop pushes the reviews of its `/reviews` appends, patch by patch, in order. */
  lemma {:induction false} PatchesStepReviews(st: State, patches: seq<Value>)
    requires Valid(st)
    ensures PatchesStep(st, patches).Ok? ==>
      PatchesStep(st, patches).value.reviews == st.reviews + ReviewsPushedByPatches(patches)
  {
    if patches != [] && PatchesStep(st, patches).Ok? {
      var init, last := patches[..|patches| - 1], patches[|patches| - 1];
      PatchesStepReviews(st, init);
      PatchesStepLast(st, patches);
      var earlier, pushed := ReviewsPushedByPatches(init), ReviewsPushed(PathOf(last), Prop(last, "o"), Prop(last, "v"));
      assert ReviewsPushedByPatches(patches) == earlier + pushed;
      assert (st.reviews + earlier) + pushed == st.reviews + (earlier + pushed);
    }
  }

  /** A completed patch loop completed on all but the last patch, and then the last patch pushed its reviews. */
  lemma PatchesStepLast(st: State, patches: seq<Value>)
    requires Valid(st) && patches != [] && PatchesStep(st, patches).Ok?
    ensures var init, last := patches[..|patches| - 1], patches[|patches| - 1];
      && PatchesStep(st, init).Ok?
      && PatchesStep(st, patches).value.reviews ==
           PatchesStep(st, init).value.reviews + ReviewsPushed(PathOf(last), Prop(last, "o"), Prop(last, "v"))
  {
  }

  /** The patch loop of one event whose `v` is an array. */
  method ApplyPatches(st0: State, patches: seq<Value>) returns (r: Res<State>)
    requires Valid(st0)
    ensures r == PatchesStep(st0, patches)
  {
    var st := st0;
    var j := 0;
    while j < |patches|
      invariant 0 <= j <= |patches|
      invariant PatchesStep(st0, patches[..j]) == Ok(st) && Valid(st)
    {
      PatchesSnoc(st0, patches, j);
      var next := PatchStep(st, patches[j]);
      if next.TypeError? {
        PatchesThrow(st0, patches, j + 1);
        return TypeError;
      }
      st := next.value;
      j := j + 1;
    }
    assert patches[..j] == patches;
    return Ok(st);
  }

  /** The loop over one more patch is the loop so far, then that patch. */
  lemma PatchesSnoc(st: State, patches: seq<Value>, k: nat)
    requires Valid(st) && k < |patches|
    ensures PatchesStep(st, patches[..k + 1]) ==
      if PatchesStep(st, patches[..k]).TypeError? then TypeError
      else PatchStep(PatchesStep(st, patches[..k]).value, patches[k])
  {
    assert patches[..k + 1][..k] == patches[..k];
  }

  /** Once a patch has thrown, the event has thrown. */
  lemma {:induction false} PatchesThrow(st: State, patches: seq<Value>, k: nat)
    requires Valid(st) && k <= |patches| && PatchesStep(st, patches[..k]).TypeError?
    ensures PatchesStep(st, patches).TypeError?
    decreases |patches| - k
  {
    if k < |patches| {
      PatchesSnoc(st, patches, k);
      PatchesThrow(st, patches, k + 1);
    } else {
      assert patches[..k] == patches;
    }
  }

  // ---------------------------------------------------------------------
  // One event whose `v` is not an array

  /** The `product_info` object built from `p = v.product || {}`. */
  function InfoOf(p: Value): (r: ProductInfo)
    ensures var m := Prop(p, "merchants");
      r.merchants == if m.Arr? then m.items else if m.Str? then [m] else []
  {
    var m := Prop(p, "merchants");
    ProductInfo(
      Or(Prop(p, "title"), Null),
      if m.Arr? then m.items else if m.Str? then [m] else [],
      Or(Prop(p, "price"), Null), Or(Prop(p, "rating"), Null), Or(Prop(p, "num_reviews"), Null),
      Or(Prop(p, "url"), Null), Or(Prop(p, "description"), Null), Or(Prop(p, "offers"), Arr([])))
  }

  /** The site object built from one non-nullish supporting website. */
  function SiteFor(site: Value): Site {
    Site(Or(Prop(site, "title"), Null), Or(Prop(site, "url"), Null), Or(Prop(site, "snippet"), Null), Or(Prop(site, "pub_date"), Null))
  }

  /** One supporting website of a ref: reading `site.title` throws on a nullish element. */
  function SiteItem(site: Value): (r: Res<seq<Site>>)
    ensures r.TypeError? <==> IsNullish(site)
    ensures r.Ok? ==> r.value == [SiteFor(site)]
  {
    if IsNullish(site) then TypeError else Ok([SiteFor(site)])
  }

  function SiteReviewFor(site: Value): Review {
    SiteReview(SiteFor(site))
  }

  /** One supporting website of the citation group itself, pushed as a review. */
  function SiteReviewItem(site: Value): (r: Res<seq<Review>>)
    ensures r.TypeError? <==> IsNullish(site)
    ensures r.Ok? ==> r.value == [SiteReviewFor(site)]
  {
    if IsNullish(site) then TypeError else Ok([SiteReviewFor(site)])
  }

  /** The sites listed under `supporting_websites` when it is an array. */
  function SitesOf(websites: Value): seq<Site> {
    if websites.Arr? then MapSeq(websites.items, SiteFor) else []
  }

  /** The review built from one non-nullish ref. */
  function RefReviewFor(ref: Value): Review {
    RefReview(Or(Prop(ref, "title"), Null), Or(Prop(ref, "url"), Null), Or(Prop(ref, "snippet"), Null),
              SitesOf(Prop(ref, "supporting_websites")))
  }

  /** The review built from one of `grouped_citation.refs`, with its supporting websites when they form an array. */
  function RefReviewOf(ref: Value): (r: Res<seq<Review>>)
    ensures var websites := Prop(ref, "supporting_websites");
      r.TypeError? <==>
        IsNullish(ref) || (websites.Arr? && exists i :: 0 <= i < |websites.items| && IsNullish(websites.items[i]))
    ensures r.Ok? ==> r.value == [RefReviewFor(ref)]
  {
    var title :- Member(ref, "title");
    var websites := Prop(ref, "supporting_websites");
    var sites :- if websites.Arr? then
        FlatMapResOk(websites.items, SiteItem);
        FlatMapResMap(websites.items, SiteItem, SiteFor);
        FlatMapRes(websites.items, SiteItem)
      else Ok([]);
    Ok([RefReview(Or(title, Null), Or(Prop(ref, "url"), Null), Or(Prop(ref, "snippet"), Null), sites)])
  }

  /** `v.grouped_citation?.refs || []`, iterated. */
  function RefsOf(v: Value): Res<seq<Value>> {
    Iterate(Or(Prop(Prop(v, "grouped_citation"), "refs"), Arr([])))
  }

  /**
   * The reviews a `product_rationale` event pushes: one per ref, in order,
   * then one per supporting website of the citation group itself, in order.
   */
  function RationaleReviews(v: Value): seq<Review> {
    var refs := RefsOf(v);
    var websites := Prop(Prop(v, "grouped_citation"), "supporting_websites");
    (if refs.Ok? then MapSeq(refs.value, RefReviewFor) else [])
    + (if websites.Arr? then MapSeq(websites.items, SiteReviewFor) else [])
  }

  /** The rationale object a `product_rationale` event pushes. */
  function RationaleOf(v: Value): Rationale {
    Rationale(Or(Prop(v, "rationale"), Str("")), Or(Prop(v, "citations"), Arr([])), Or(Prop(v, "grouped_citation"), Null))
  }

  /** The loops over the refs and over the group's own supporting websites. */
  function RationaleReviewsOf(v: Value): (r: Res<seq<Review>>)
    ensures r.Ok? ==> r.value == RationaleReviews(v)
  {
    var refs :- RefsOf(v);
    FlatMapResMap(refs, RefReviewOf, RefReviewFor);
    var fromRefs :- FlatMapRes(refs, RefReviewOf);
    var websites := Prop(Prop(v, "grouped_citation"), "supporting_websites");
    var fromSites :- if websites.Arr? then
        FlatMapResMap(websites.items, SiteReviewItem, SiteReviewFor);
        FlatMapRes(websites.items, SiteReviewItem)
      else Ok([]);
    Ok(fromRefs + fromSites)
  }

  /**
   * A `product_rationale` event: the reviews taken from its citation group's
   * `refs` and `supporting_websites` are pushed, then the new rationale, which
   * becomes the current one.
   */
  function RationaleStart(st: State, v: Value): (r: Res<State>)
    requires Valid(st)
    ensures r.Ok? ==> r.value == st.(
      rationales := st.rationales + [RationaleOf(v)],
      reviews := st.reviews + RationaleReviews(v),
      currentRationale := Some(|st.rationales|))
    ensures r.Ok? ==> Valid(r.value)
  {
    var pushed :- RationaleReviewsOf(v);
    Ok(st.(
      rationales := st.rationales + [RationaleOf(v)],
      reviews := st.reviews + pushed,
      currentRationale := Some(|st.rationales|)))
  }

  /** A `product_reviews` event: the new current review, whose summary is copied to `reviewSummary`. */
  function ReviewsStart(st: State, v: Value): State {
    var block := ReviewBlock(Or(Prop(v, "summary"), Str("")), Or(Prop(v, "reviews"), Arr([])), Or(Prop(v, "cite_map"), Obj(map[])));
    st.(currentReview := Some(block), reviewSummary := block.summary)
  }

  /** The object `v` of a `delta` event, when it is truthy and not an array. */
  function EntryObject(entry: SseEvent): Option<Value> {
    var v := Prop(DataOf(entry), "v");
    if IsDelta(entry) && Truthy(v) && !v.Arr? then Some(v) else None
  }

  /** The reviews one event pushes, in order. */
  function ReviewsPushedByEvent(entry: SseEvent): seq<Review> {
    var v := Prop(DataOf(entry), "v");
    if !IsDelta(entry) || !Truthy(v) then []
    else if v.Arr? then ReviewsPushedByPatches(v.items)
    else if Prop(v, "type") == Str("product_rationale") then RationaleReviews(v)
    else []
  }

  /** The reviews the first events push, in order. */
  function ReviewsPushedByEvents(entries: seq<SseEvent>): seq<Review> {
    if entries == [] then []
    else ReviewsPushedByEvents(entries[..|entries| - 1]) + ReviewsPushedByEvent(entries[|entries| - 1])
  }

  /** The body of the event loop. */
  function Step(st: State, entry: SseEvent): (r: Res<State>)
    requires Valid(st)
    ensures r.Ok? ==> Valid(r.value)
    ensures r.Ok? ==> r.value.reviews == st.reviews + ReviewsPushedByEvent(entry)
  {
    var v := Prop(DataOf(entry), "v");
    if !IsDelta(entry) || !Truthy(v) then Ok(st)
    else if v.Arr? then
      PatchesStepReviews(st, v.items);
      PatchesStep(st, v.items)
    else
      var kind := Prop(v, "type");
      if kind == Str("product_entity") then Ok(st.(productInfo := Some(InfoOf(Or(Prop(v, "product"), Obj(map[]))))))
      else if kind == Str("product_rationale") then RationaleStart(st, v)
      else if kind == Str("product_reviews") then Ok(ReviewsStart(st, v))
      else Ok(st)
  }

  /** The state after the first events. */
  function Run(entries: seq<SseEvent>): (r: Res<State>)
    ensures r.Ok? ==> Valid(r.value)
    ensures r.Ok? ==> r.value.reviews == ReviewsPushedByEvents(entries)
  {
    if entries == [] then Ok(Initial())
    else
      var st :- Run(entries[..|entries| - 1]);
      Step(st, entries[|entries| - 1])
  }

  /** `r.rationale.trim()` for every rationale; `trim` throws on a text that is not a string. */
  function TrimmedTexts(rs: seq<Rationale>): (r: Res<seq<string>>)
    ensures r.Ok? <==> forall i :: 0 <= i < |rs| ==> rs[i].text.Str?
    ensures r.Ok? ==> |r.value| == |rs| && forall i :: 0 <= i < |rs| ==> r.value[i] == Trim(rs[i].text.s)
  {
    if rs == [] then Ok([])
    else
      var init :- TrimmedTexts(rs[..|rs| - 1]);
      var last := rs[|rs| - 1].text;
      if last.Str? then Ok(init + [Trim(last.s)]) else TypeError
  }

  /** The result object, with `summary_text` set only when there are rationales. */
  function Finish(st: State): Res<ProductData> {
    if st.rationales == [] then Ok(ProductData(st.productInfo, [], st.reviews, st.reviewSummary, None))
    else
      var texts :- TrimmedTexts(st.rationales);
      Ok(ProductData(st.productInfo, st.rationales, st.reviews, st.reviewSummary, Some(Join(" ", texts))))
  }

  /** What `extractProductData(entries)` returns, or TypeError when it throws. */
  function ProductDataOf(entries: seq<SseEvent>): (r: Res<ProductData>)
    ensures r.Ok? ==> r.value.reviews == ReviewsPushedByEvents(entries)
  {
    var st :- Run(entries);
    Finish(st)
  }

  /** The body of the event loop, with its `continue`s and its `if`/`else if` chain. */
  method ApplyEntry(st: State, entry: SseEvent) returns (r: Res<State>)
    requires Valid(st)
    ensures r == Step(st, entry)
  {
    if !IsDelta(entry) {
      return Ok(st);
    }
    var v := Prop(DataOf(entry), "v");
    if !Truthy(v) {
      return Ok(st);
    }
    if v.Arr? {
      r := ApplyPatches(st, v.items);
      return;
    }
    var kind := Prop(v, "type");
    if kind == Str("product_entity") {
      r := Ok(st.(productInfo := Some(InfoOf(Or(Prop(v, "product"), Obj(map[]))))));
    } else if kind == Str("product_rationale") {
      r := RationaleStart(st, v);
    } else if kind == Str("product_reviews") {
      r := Ok(ReviewsStart(st, v));
    } else {
      r := Ok(st);
    }
  }

  /** The pass over one more event is the pass so far, then that event. */
  lemma RunSnoc(entries: seq<SseEvent>, k: nat)
    requires k < |entries|
    ensures Run(entries[..k + 1]) ==
      if Run(entries[..k]).TypeError? then TypeError else Step(Run(entries[..k]).value, entries[k])
  {
    assert entries[..k + 1][..k] == entries[..k];
  }

  /** Once an event has thrown, the whole pass has thrown. */
  lemma {:induction false} RunThrows(entries: seq<SseEvent>, k: nat)
    requires k <= |entries| && Run(entries[..k]).TypeError?
    ensures Run(entries).TypeError?
    decreases |entries| - k
  {
    if k < |entries| {
      RunSnoc(entries, k);
      RunThrows(entries, k + 1);
    } else {
      assert entries[..k] == entries;
    }
  }

  /** `extractProductData`. */
  method ExtractProductData(eventsArray: seq<SseEvent>) returns (r: Res<ProductData>)
    ensures r == ProductDataOf(eventsArray)
  {
    var st := Initial();
    var i := 0;
    while i < |eventsArray|
      invariant 0 <= i <= |eventsArray|
      invariant Run(eventsArray[..i]) == Ok(st)
    {
      RunSnoc(eventsArray, i);
      var next := ApplyEntry(st, eventsArray[i]);
      if next.TypeError? {
        RunThrows(eventsArray, i + 1);
        return TypeError;
      }
      st := next.value;
      i := i + 1;
    }
    assert eventsArray[..i] == eventsArray;
    if |st.rationales| > 0 {
      var texts := TrimmedTexts(st.rationales);
      if texts.TypeError? {
        return TypeError;
      }
      return Ok(ProductData(st.productInfo, st.rationales, st.reviews, st.reviewSummary, Some(Join(" ", texts.value))));
    }
    return Ok(ProductData(st.productInfo, [], st.reviews, st.reviewSummary, None));
  }

  // ---------------------------------------------------------------------
  // Properties of the pass

  /** The events the pass acts on: `delta` events with a truthy `v`. */
  predicate Relevant(entry: SseEvent) {
    IsDelta(entry) && Truthy(Prop(DataOf(entry), "v"))
  }

  function RelevantOnly(entries: seq<SseEvent>): seq<SseEvent> {
    if entries == [] then []
    else RelevantOnly(entries[..|entries| - 1]) + if Relevant(entries[|entries| - 1]) then [entries[|entries| - 1]] else []
  }

  /** Non-`delta` events and events with a falsy `v` are ignored: dropping them changes nothing. */
  lemma {:induction false} IrrelevantEventsIgnored(entries: seq<SseEvent>)
    ensures Run(entries) == Run(RelevantOnly(entries))
  {
    if entries != [] {
      var init, last := entries[..|entries| - 1], entries[|entries| - 1];
      IrrelevantEventsIgnored(init);
      var kept := RelevantOnly(init);
      if Relevant(last) {
        assert RelevantOnly(entries) == kept + [last];
        assert (kept + [last])[..|kept|] == kept;
      } else {
        assert RelevantOnly(entries) == kept;
      }
    }
  }

  /** The event starts a rationale. */
  predicate StartsRationale(entry: SseEvent) {
    EntryObject(entry).Some? && Prop(EntryObject(entry).value, "type") == Str("product_rationale")
  }

  function CountRationaleStarts(entries: seq<SseEvent>): nat {
    if entries == [] then 0
    else CountRationaleStarts(entries[..|entries| - 1]) + if StartsRationale(entries[|entries| - 1]) then 1 else 0
  }

  /** `rationales` grows by exactly one per `product_rationale` event. */
  lemma {:induction false} OneRationalePerStart(entries: seq<SseEvent>)
    requires Run(entries).Ok?
    ensures |Run(entries).value.rationales| == CountRationaleStarts(entries)
  {
    if entries != [] {
      var n := |entries| - 1;
      RunSnoc(entries, n);
      assert entries[..n + 1] == entries;
      OneRationalePerStart(entries[..n]);
      StepCountsRationale(Run(entries[..n]).value, entries[n]);
    }
  }

  /** One event adds a rationale exactly when it starts one. */
  lemma StepCountsRationale(st: State, entry: SseEvent)
    requires Valid(st) && Step(st, entry).Ok?
    ensures |Step(st, entry).value.rationales| == |st.rationales| + if StartsRationale(entry) then 1 else 0
  {
    var v := Prop(DataOf(entry), "v");
    if IsDelta(entry) && Truthy(v) && !v.Arr? && Prop(v, "type") == Str("product_rationale") {
      assert Prop(v, "type") != Str("product_entity");
      assert Step(st, entry) == RationaleStart(st, v);
    }
  }

  /** Before the first `product_rationale` event there are no rationales, so `/rationale` appends are dropped. */
  lemma NoRationaleBeforeStart(entries: seq<SseEvent>)
    requires Run(entries).Ok?
    requires forall i :: 0 <= i < |entries| ==> !StartsRationale(entries[i])
    ensures Run(entries).value.rationales == [] && Run(entries).value.currentRationale == None
  {
    OneRationalePerStart(entries);
    NoStartsCountZero(entries);
  }

  lemma {:induction false} NoStartsCountZero(entries: seq<SseEvent>)
    requires forall i :: 0 <= i < |entries| ==> !StartsRationale(entries[i])
    ensures CountRationaleStarts(entries) == 0
  {
    if entries != [] {
      var init := entries[..|entries| - 1];
      forall i | 0 <= i < |init| ensures !StartsRationale(init[i]) {
        assert init[i] == entries[i];
      }
      NoStartsCountZero(init);
    }
  }

  /**
   * Once there is a rationale, a `/rationale...` append patch extends the
   * text of the last one and leaves the others, the reviews and the summary
   * alone.
   */
  lemma RationaleAppendExtendsLast(st: State, patch: Value, path: string, val: Value)
    requires Valid(st) && st.rationales != []
    requires patch.Obj? && Prop(patch, "p") == Str(path) && "/rationale" <= path
    requires Prop(patch, "o") == Str("append") && Prop(patch, "v") == val
    ensures var n := |st.rationales| - 1;
      PatchStep(st, patch) == Ok(st.(rationales := st.rationales[n := st.rationales[n].(text := Concat(st.rationales[n].text, val))]))
  {
    var n := |st.rationales| - 1;
    var st1 := st.(rationales := st.rationales[n := st.rationales[n].(text := Concat(st.rationales[n].text, val))]);
    assert RationaleAppend(st, Str(path), Str("append"), val) == Ok(st1);
    assert !("/summary" <= path) by {
      assert path[1] == 'r';
    }
    assert !("/grouped_citation" <= path) by {
      assert path[1] == 'r';
    }
    assert Str(path) != Str("/reviews") by {
      assert path[1] == 'r';
    }
  }

  /** `reviews` is append-only: what an earlier event pushed stays, in place. */
  lemma {:induction false} ReviewsAppendOnly(entries: seq<SseEvent>, k: nat)
    requires k <= |entries| && Run(entries).Ok?
    ensures Run(entries[..k]).Ok? && Run(entries[..k]).value.reviews <= Run(entries).value.reviews
    decreases |entries| - k
  {
    if k == |entries| {
      assert entries[..k] == entries;
    } else {
      var init := entries[..|entries| - 1];
      assert init[..k] == entries[..k];
      assert Run(init).Ok?;
      ReviewsAppendOnly(init, k);
      StepKeepsReviews(Run(init).value, entries[|entries| - 1]);
    }
  }

  lemma StepKeepsReviews(st: State, entry: SseEvent)
    requires Valid(st) && Step(st, entry).Ok?
    ensures st.reviews <= Step(st, entry).value.reviews
  {
  }

  /** The summary of the latest `product_reviews` event, or "" when there is none. */
  function LatestReviewSummary(entries: seq<SseEvent>): Value {
    if entries == [] then Str("")
    else
      var last := EntryObject(entries[|entries| - 1]);
      if last.Some? && Prop(last.value, "type") == Str("product_reviews") then Or(Prop(last.value, "summary"), Str(""))
      else LatestReviewSummary(entries[..|entries| - 1])
  }

  /** `reviewSummary` is the summary of the latest `product_reviews` event; `/summary` appends never reach it. */
  lemma {:induction false} ReviewSummaryIsLatest(entries: seq<SseEvent>)
    requires Run(entries).Ok?
    ensures Run(entries).value.reviewSummary == LatestReviewSummary(entries)
  {
    if entries != [] {
      var init, last := entries[..|entries| - 1], entries[|entries| - 1];
      ReviewSummaryIsLatest(init);
      var v := Prop(DataOf(last), "v");
      if IsDelta(last) && Truthy(v) && !v.Arr? {
        var kind := Prop(v, "type");
        if kind == Str("product_reviews") {
          assert kind != Str("product_entity") && kind != Str("product_rationale");
        }
      }
    }
  }

  /**
   * `summary_text` is present exactly when there are rationales, and is then
   * their trimmed texts joined by single spaces; the pass throws when a
   * rationale text is not a string.
   */
  lemma SummaryText(st: State)
    ensures Finish(st).Ok? <==> forall i :: 0 <= i < |st.rationales| ==> st.rationales[i].text.Str?
    ensures Finish(st).Ok? ==> (Finish(st).value.summaryText.Some? <==> st.rationales != [])
    ensures Finish(st).Ok? && st.rationales != [] ==>
      Finish(st).value.summaryText == Some(Join(" ", seq(|st.rationales|, i requires 0 <= i < |st.rationales| => Trim(st.rationales[i].text.s))))
  {
    if st.rationales != [] && Finish(st).Ok? {
      var texts := TrimmedTexts(st.rationales).value;
      assert texts == seq(|st.rationales|, i requires 0 <= i < |st.rationales| => Trim(st.rationales[i].text.s));
    }
  }
}
