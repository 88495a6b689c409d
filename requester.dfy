/** The classification requester, `ai_analysis` (ai_scraper.py lines 14-39):
    text that is too short is never sent; otherwise a fixed two-message request
    embedding a bounded prefix of the text goes to the classifier, whose reply
    content comes back as it is, or `None` when the call raises. The
    classifier itself is the parameter `classify`. */
module Requester {
  import opened Wrappers

  /** Texts shorter than this are not worth a classifier call. */
  const MinTextLength: nat := 50
  /** At most this many characters of the text are embedded in the prompt. */
  const ExcerptLength: nat := 2500

  const ModelName: string := "gpt-4o-mini"
  const SystemInstruction: string := "You are an E-commerce Analyst. Output ONLY valid JSON."

  /** The indentation that the triple-quoted prompt carries on every line. */
  const Indent: string := "                    "
  /** The user message up to the excerpt. */
  const PromptOpening: string := "\n" + Indent + "Analyze this website text: \""
  /** The user message after the excerpt: the four fields and the closed list of types. */
  const PromptClosing: string :=
    "\" \n\n"
    + Indent + "Return a JSON object with:\n"
    + Indent + "1. \"type\": (Pick one: \"E-commerce Store\", \"Blog\", \"Corporate Site\", \"Dead Link\")\n"
    + Indent + "2. \"is_store\": (true/false)\n"
    + Indent + "3. \"products\": (List 2-3 main products sold, or \"None\")\n"
    + Indent + "4. \"reasoning\": (One short sentence why)\n"
    + Indent

  /** A chat-completion request: the model and the system and user messages. */
  datatype Request = Request(model: string, system: string, user: string)

  /** What the classifier call gives back. */
  datatype Reply =
    | Answered(content: Option<string>)  // `choices[0].message.content`, which may be null
    | Raised                             // the call raised (network, authentication, quota, ...)

  /** The outcome of `ai_analysis`: the request it sent, if any, and the
      payload it returns (`None` for Python's `None`). */
  datatype Analysis = Analysis(sent: Option<Request>, payload: Option<string>)

  /** The guard `not text or len(text) < 50`, negated. Its first test is
      subsumed by the second: only the length decides. */
  predicate Analysable(text: string)
    ensures Analysable(text) <==> |text| >= MinTextLength
  {
    !(text == [] || |text| < MinTextLength)
  }

  function Min(a: nat, b: nat): nat
  {
    if a < b then a else b
  }

  /** `text[:2500]`. */
  function Excerpt(text: string): (r: string)
    ensures r <= text
    ensures |r| == Min(|text|, ExcerptLength)
  {
    text[..Min(|text|, ExcerptLength)]
  }

  /** The request of lines 20-34: the fixed model and system message, and a
      user message that opens and closes with the fixed prompt parts and is
      at most 2500 characters longer than they are. */
  function BuildRequest(text: string): (r: Request)
    ensures r.model == ModelName && r.system == SystemInstruction
    ensures |PromptOpening| + |PromptClosing| <= |r.user| <= |PromptOpening| + ExcerptLength + |PromptClosing|
    ensures r.user[..|PromptOpening|] == PromptOpening
    ensures r.user[|r.user| - |PromptClosing|..] == PromptClosing
  {
    Request(ModelName, SystemInstruction, PromptOpening + Excerpt(text) + PromptClosing)
  }

  /** `ai_analysis(text)`. */
  function AiAnalysis(text: string, classify: Request -> Reply): (a: Analysis)
    ensures a.sent == None <==> !Analysable(text)
    ensures a.sent == None ==> a.payload == None
    ensures a.sent != None ==> a.sent.value == BuildRequest(text)
    ensures a.sent != None && classify(a.sent.value) == Raised ==> a.payload == None
  {
    if !Analysable(text) then
      Analysis(None, None)
    else
      var req := BuildRequest(text);
      match classify(req)
      case Answered(content) => Analysis(Some(req), content)
      case Raised => Analysis(Some(req), None)
  }

  // ---------------------------------------------------------------------------

  /** Empty text and text under 50 characters never reach the classifier and
      give no payload, whatever the classifier would have answered. */
  lemma ShortTextNotSent(text: string, classify: Request -> Reply)
    requires |text| < MinTextLength
    ensures AiAnalysis(text, classify) == Analysis(None, None)
  {
  }

  /** The text between the fixed parts of the user message is a prefix of the
      input of length `min(|text|, 2500)`. */
  lemma PromptEmbedsPrefix(text: string)
    ensures var u := BuildRequest(text).user;
            |PromptOpening| <= |u| - |PromptClosing|
            && var e := u[|PromptOpening|..|u| - |PromptClosing|];
            e <= text && |e| == Min(|text|, ExcerptLength)
  {
    var u := BuildRequest(text).user;
    assert u[|PromptOpening|..|u| - |PromptClosing|] == Excerpt(text);
  }

  /** The request is bounded in size, and characters past the first 2500
      never influence it. */
  lemma RequestIgnoresTail(t1: string, t2: string)
    requires |t1| >= ExcerptLength && |t2| >= ExcerptLength
    requires t1[..ExcerptLength] == t2[..ExcerptLength]
    ensures BuildRequest(t1) == BuildRequest(t2)
    ensures |BuildRequest(t1).user| == |PromptOpening| + ExcerptLength + |PromptClosing|
  {
  }

  /** An analysable text is sent once, as the fixed request built from it, and
      the reply's content is passed back unchanged. */
  lemma AnalysableTextSent(text: string, classify: Request -> Reply, content: Option<string>)
    requires Analysable(text)
    requires classify(BuildRequest(text)) == Answered(content)
    ensures AiAnalysis(text, classify) == Analysis(Some(BuildRequest(text)), content)
  {
  }
}
