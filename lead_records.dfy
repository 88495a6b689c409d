/** The lead record builder and the per-URL precedence of failures
    (ai_scraper.py lines 59-98). One URL gives exactly one record: three fixed
    failure rows, or a row built from the decoded classification. */
module LeadRecords {
  import opened Wrappers
  import opened PyStr
  import opened Normalizer
  import opened Requester
  import opened ResponseParser

  /** One report row: the dictionary with the keys "URL", "Type", "Is Store",
      "Products" and "Reasoning". "Type" and "Reasoning" hold whatever the
      decoded payload held; the other three are always strings. */
  datatype LeadRecord = LeadRecord(url: string, leadType: Value, isStore: string, products: string, reasoning: Value)

  /** What `page.goto(url)` followed by `page.inner_text("body")` gives: the
      visible text, or an exception (timeout, DNS failure, navigation error). */
  datatype Fetched = Page(text: string) | FetchFailed

  /** The row of the outer exception handler (lines 95-98). Its "Is Store"
      is neither "YES" nor "NO", so it never passes for a classified row. */
  function LinkDead(url: string): (r: LeadRecord)
    ensures r.url == url && r.leadType == Str("Link Dead")
    ensures r.isStore != "YES" && r.isStore != "NO"
  {
    LeadRecord(url, Str("Link Dead"), "-", "-", Str("Site unreachable"))
  }

  /** The row for a missing or empty payload (lines 91-93). */
  function ScrapeFail(url: string): (r: LeadRecord)
    ensures r.url == url && r.leadType == Str("Scrape Fail")
    ensures r.isStore != "YES" && r.isStore != "NO"
  {
    LeadRecord(url, Str("Scrape Fail"), "-", "-", Str("Could not read text"))
  }

  /** The row for a payload that is not JSON (lines 88-90). */
  function AiError(url: string): (r: LeadRecord)
    ensures r.url == url && r.leadType == Str("AI Error")
    ensures r.isStore != "YES" && r.isStore != "NO"
  {
    LeadRecord(url, Str("AI Error"), "Error", "", Str("Invalid JSON returned"))
  }

  predicate IsFailureRow(r: LeadRecord)
  {
    r == LinkDead(r.url) || r == ScrapeFail(r.url) || r == AiError(r.url)
  }

  /** Lines 75-87 for a payload decoded to a dict: the classified row, or
      `None` when building it raises (a products list with a non-string item
      makes `", ".join` raise `TypeError`). */
  function ClassifiedRecord(url: string, fields: map<string, Value>): (r: Option<LeadRecord>)
    ensures r == None <==> RenderProducts(Get(fields, "products", List([]))) == None
    ensures r != None ==> r.value.url == url && (r.value.isStore == "YES" || r.value.isStore == "NO")
  {
    match RenderProducts(Get(fields, "products", List([])))
    case None => None
    case Some(products) =>
      Some(LeadRecord(url,
                      Get(fields, "type", Str("Unknown")),
                      if Truthy(Get(fields, "is_store", Null)) then "YES" else "NO",
                      products,
                      Get(fields, "reasoning", Str(""))))
  }

  /** Python's `if raw_ai_text:` on the value `ai_analysis` returned. */
  predicate HasPayload(payload: Option<string>)
    ensures HasPayload(payload) <==> payload.Some? && Truthy(Str(payload.value))
  {
    payload != None && payload.value != ""
  }

  /** Lines 67-98 once the page text has been read: what becomes of the
      classifier's payload. Only `JSONDecodeError` is caught by the inner
      handler; a decoded value that is not a dict (so `data.get` raises
      `AttributeError`) and a failing join reach the outer handler. */
  function PayloadRecord(url: string, payload: Option<string>, decode: string -> Decoded): (r: LeadRecord)
    ensures r.url == url
    ensures r == ScrapeFail(url) <==> !HasPayload(payload)
    ensures r == AiError(url) <==> HasPayload(payload) && decode(StripFences(payload.value)) == Malformed
    ensures (r.isStore == "YES" || r.isStore == "NO")
            <==> HasPayload(payload) && decode(StripFences(payload.value)).Object?
                 && ClassifiedRecord(url, decode(StripFences(payload.value)).fields) != None
    ensures (r.isStore == "YES" || r.isStore == "NO")
            ==> Some(r) == ClassifiedRecord(url, decode(StripFences(payload.value)).fields)
  {
    if !HasPayload(payload) then ScrapeFail(url)
    else
      match decode(StripFences(payload.value))
      case Malformed => AiError(url)
      case NotAnObject => LinkDead(url)
      case Object(fields) =>
        match ClassifiedRecord(url, fields)
        case None => LinkDead(url)
        case Some(r) => r
  }

  /** One pass of the loop body (lines 59-98). */
  function ProcessUrl(url: string, fetched: Fetched, classify: Request -> Reply, decode: string -> Decoded): (r: LeadRecord)
    ensures r.url == url
    ensures IsFailureRow(r) <==> !(r.isStore == "YES" || r.isStore == "NO")
  {
    match fetched
    case FetchFailed => LinkDead(url)
    case Page(text) => PayloadRecord(url, AiAnalysis(Normalize(text), classify).payload, decode)
  }

  // ---------------------------------------------------------------------------

  /** The order in which failures are reported, first match wins; a page
      that passes them all gets the row built from its decoded dict. */
  lemma FailurePrecedence(url: string, fetched: Fetched, classify: Request -> Reply, decode: string -> Decoded)
    ensures fetched == FetchFailed ==> ProcessUrl(url, fetched, classify, decode) == LinkDead(url)
    ensures fetched.Page? ==>
              var a := AiAnalysis(Normalize(fetched.text), classify);
              && (!HasPayload(a.payload) ==> ProcessUrl(url, fetched, classify, decode) == ScrapeFail(url))
              && (HasPayload(a.payload) && decode(StripFences(a.payload.value)) == Malformed
                  ==> ProcessUrl(url, fetched, classify, decode) == AiError(url))
              && (HasPayload(a.payload) && decode(StripFences(a.payload.value)) == NotAnObject
                  ==> ProcessUrl(url, fetched, classify, decode) == LinkDead(url))
              && (HasPayload(a.payload) && decode(StripFences(a.payload.value)).Object?
                  && ClassifiedRecord(url, decode(StripFences(a.payload.value)).fields) != None
                  ==> ProcessUrl(url, fetched, classify, decode)
                      == ClassifiedRecord(url, decode(StripFences(a.payload.value)).fields).value)
  {
  }

  /** The three failure rows are told apart by their "Type" and "Is Store",
      and never pass for a classified row. */
  lemma FailureRowsDistinct(url: string)
    ensures LinkDead(url) != ScrapeFail(url) && ScrapeFail(url) != AiError(url) && AiError(url) != LinkDead(url)
    ensures AiError(url).isStore == "Error"
    ensures LinkDead(url).isStore == "-" && ScrapeFail(url).isStore == "-"
  {
  }

  /** A blank page is a "Scrape Fail" and never reaches the classifier. */
  lemma BlankPageNotClassified(url: string, text: string, classify: Request -> Reply, decode: string -> Decoded)
    requires AllSpace(text)
    ensures AiAnalysis(Normalize(text), classify).sent == None
    ensures ProcessUrl(url, Page(text), classify, decode) == ScrapeFail(url)
  {
    NormalizeBlank(text);
  }

  /** A page with at least 50 non-whitespace characters is always sent to the
      classifier, as the request built from its normalised text. */
  lemma LongPageClassified(text: string, classify: Request -> Reply)
    requires |NonSpace(text)| >= MinTextLength
    ensures AiAnalysis(Normalize(text), classify).sent == Some(BuildRequest(Normalize(text)))
  {
    NormalizeLength(text);
  }

  /** A classifier answer wrapped in "```json" ... "```" gives the same row as
      the same answer without the fences. */
  lemma FencesDoNotMatter(url: string, text: string, body: string, c1: Request -> Reply, c2: Request -> Reply, decode: string -> Decoded)
    requires NoTicks(body) && body != ""
    requires c1(BuildRequest(Normalize(text))) == Answered(Some(FenceJson + body + Fence))
    requires c2(BuildRequest(Normalize(text))) == Answered(Some(body))
    ensures ProcessUrl(url, Page(text), c1, decode) == ProcessUrl(url, Page(text), c2, decode)
  {
    var t := Normalize(text);
    if Analysable(t) {
      AnalysableTextSent(t, c1, Some(FenceJson + body + Fence));
      AnalysableTextSent(t, c2, Some(body));
      FencedAlone(body);
      SameCleanPayload(url, Some(FenceJson + body + Fence), Some(body), decode);
    }
  }

  /** Two payloads that clean to the same text give the same record. */
  lemma SameCleanPayload(url: string, p1: Option<string>, p2: Option<string>, decode: string -> Decoded)
    requires HasPayload(p1) && HasPayload(p2)
    requires StripFences(p1.value) == StripFences(p2.value)
    ensures PayloadRecord(url, p1, decode) == PayloadRecord(url, p2, decode)
  {
  }

  /** The classified row of any dict whose products render: "Type" and
      "Reasoning" are the fields as decoded, or "Unknown" and "" when absent;
      "Is Store" is "YES" exactly when `is_store` is present and truthy (so
      the string "false" counts as yes); "Products" is the rendered field, so
      "" when absent and the string itself for `"products": "None"`. */
  lemma ClassifiedFields(url: string, fields: map<string, Value>)
    requires RenderProducts(Get(fields, "products", List([]))) != None
    ensures ClassifiedRecord(url, fields) != None
    ensures var r := ClassifiedRecord(url, fields).value;
            && r.url == url
            && ("type" in fields ==> r.leadType == fields["type"])
            && ("type" !in fields ==> r.leadType == Str("Unknown"))
            && (r.isStore == "YES" <==> "is_store" in fields && Truthy(fields["is_store"]))
            && (r.isStore == "NO" <==> !("is_store" in fields && Truthy(fields["is_store"])))
            && ("products" !in fields ==> r.products == "")
            && r.products == RenderProducts(Get(fields, "products", List([]))).value
            && ("reasoning" in fields ==> r.reasoning == fields["reasoning"])
            && ("reasoning" !in fields ==> r.reasoning == Str(""))
  {
    assert Texts([]) == [];
  }

  /** `{"products": ["Shoes"]}` gets every default, `"is_store": "false"`
      is a store, and `"products": "None"` is written as "None". */
  lemma ClassifiedExamples(url: string)
    ensures ClassifiedRecord(url, map["products" := List([Str("Shoes")])])
            == Some(LeadRecord(url, Str("Unknown"), "NO", "Shoes", Str("")))
    ensures ClassifiedRecord(url, map["is_store" := Str("false")])
            == Some(LeadRecord(url, Str("Unknown"), "YES", "", Str("")))
    ensures ClassifiedRecord(url, map["products" := Str("None")])
            == Some(LeadRecord(url, Str("Unknown"), "NO", "None", Str("")))
  {
    assert Texts([]) == [];
    var items := [Str("Shoes")];
    assert Texts(items) == ["Shoes"];
  }

  /** A decoded dict with a string "type" and "reasoning", a boolean
      "is_store" and a list of product names, whatever else it holds, yields
      the row that carries exactly those, with the names joined by ", ". */
  lemma ClassifiedRow(url: string, fields: map<string, Value>, kind: string, isStore: bool, names: seq<string>, reason: string)
    requires "type" in fields && fields["type"] == Str(kind)
    requires "is_store" in fields && fields["is_store"] == Bool(isStore)
    requires "products" in fields
             && fields["products"] == List(seq(|names|, k requires 0 <= k < |names| => Str(names[k])))
    requires "reasoning" in fields && fields["reasoning"] == Str(reason)
    ensures ClassifiedRecord(url, fields)
            == Some(LeadRecord(url, Str(kind), if isStore then "YES" else "NO", Join(names, ", "), Str(reason)))
  {
    RenderNames(names);
  }

  /** The classification of a typical shop. */
  const ShopFields: map<string, Value> :=
    map["type" := Str("E-commerce Store"), "is_store" := Bool(true),
        "products" := List([Str("Shoes"), Str("Bags")]),
        "reasoning" := Str("Sells physical goods")]

  /** The shop dict's row: its type, "YES", the two products joined by ", ",
      and its reasoning. */
  lemma ShopRecord(url: string)
    ensures ClassifiedRecord(url, ShopFields)
            == Some(LeadRecord(url, Str("E-commerce Store"), "YES", "Shoes, Bags", Str("Sells physical goods")))
  {
    var names := ["Shoes", "Bags"];
    assert ShopFields["products"] == List(seq(|names|, k requires 0 <= k < |names| => Str(names[k])));
    ClassifiedRow(url, ShopFields, "E-commerce Store", true, names, "Sells physical goods");
    assert Join(names, ", ") == "Shoes, Bags";
  }

  /** A page that is sent, answered, and whose answer decodes to a dict with
      a row gets that row. */
  lemma AnsweredPageRow(url: string, text: string, answer: string, classify: Request -> Reply, decode: string -> Decoded)
    requires Analysable(Normalize(text)) && answer != ""
    requires classify(BuildRequest(Normalize(text))) == Answered(Some(answer))
    requires decode(StripFences(answer)).Object?
    requires ClassifiedRecord(url, decode(StripFences(answer)).fields) != None
    ensures ProcessUrl(url, Page(text), classify, decode)
            == ClassifiedRecord(url, decode(StripFences(answer)).fields).value
  {
    AnalysableTextSent(Normalize(text), classify, Some(answer));
  }

  /** A page with enough text whose classifier answer decodes to the shop
      dict gets exactly the shop's row. */
  lemma {:induction false} ShopPageRow(url: string, text: string, answer: string, classify: Request -> Reply, decode: string -> Decoded)
    requires |NonSpace(text)| >= MinTextLength
    requires classify(BuildRequest(Normalize(text))) == Answered(Some(answer)) && answer != ""
    requires decode(StripFences(answer)) == Object(ShopFields)
    ensures ProcessUrl(url, Page(text), classify, decode)
            == LeadRecord(url, Str("E-commerce Store"), "YES", "Shoes, Bags", Str("Sells physical goods"))
  {
    NormalizeLength(text);
    assert Analysable(Normalize(text));
    ShopRecord(url);
    AnsweredPageRow(url, text, answer, classify, decode);
  }

  /** A page that loaded and was classified is still reported as "Link Dead"
      when the payload decodes to something other than a dict, or when its
      products list holds a non-string item: the exception raised by
      `data.get` or `", ".join` reaches the outer handler. */
  lemma ClassifiedPageReadAsDead(url: string, text: string, payload: string, classify: Request -> Reply, decode: string -> Decoded)
    requires Analysable(Normalize(text)) && payload != ""
    requires classify(BuildRequest(Normalize(text))) == Answered(Some(payload))
    requires decode(StripFences(payload)) == NotAnObject
          || (decode(StripFences(payload)).Object?
              && RenderProducts(Get(decode(StripFences(payload)).fields, "products", List([]))) == None)
    ensures ProcessUrl(url, Page(text), classify, decode) == LinkDead(url)
  {
  }
}
