/** The batch loop of `filter_leads` (ai_scraper.py lines 55-100): the URLs
    are processed one at a time, in input order, and each appends exactly one
    record to `results`, whatever failed for it. The renderer, the classifier
    and the JSON decoder are the parameters `fetch`, `classify` and `decode`. */
module Pipeline {
  import opened Requester
  import opened ResponseParser
  import opened LeadRecords

  /** The records of a whole batch, built the way the loop builds them: the
      record of the last URL is appended to the records of the others, so
      there is one record per URL. */
  function Qualify(urls: seq<string>, fetch: string -> Fetched, classify: Request -> Reply, decode: string -> Decoded): (rs: seq<LeadRecord>)
    ensures |rs| == |urls|
  {
    if urls == [] then []
    else Qualify(urls[..|urls| - 1], fetch, classify, decode)
         + [ProcessUrl(urls[|urls| - 1], fetch(urls[|urls| - 1]), classify, decode)]
  }

  /** The loop of lines 55-100. */
  method FilterLeads(urls: seq<string>, fetch: string -> Fetched, classify: Request -> Reply, decode: string -> Decoded)
    returns (results: seq<LeadRecord>)
    ensures results == Qualify(urls, fetch, classify, decode)
    ensures |results| == |urls|
    ensures forall i :: 0 <= i < |urls| ==> results[i].url == urls[i]
  {
    results := [];
    var i := 0;
    while i < |urls|
      invariant 0 <= i <= |urls|
      invariant results == Qualify(urls[..i], fetch, classify, decode)
    {
      var record := ProcessUrl(urls[i], fetch(urls[i]), classify, decode);
      QualifyStep(urls, i, fetch, classify, decode);
      results := results + [record];
      i := i + 1;
    }
    assert urls[..|urls|] == urls;
    QualifyAt(urls, fetch, classify, decode);
  }

  // ---------------------------------------------------------------------------

  /** One more pass of the loop appends the record of the next URL. */
  lemma QualifyStep(urls: seq<string>, i: nat, fetch: string -> Fetched, classify: Request -> Reply, decode: string -> Decoded)
    requires i < |urls|
    ensures Qualify(urls[..i + 1], fetch, classify, decode)
            == Qualify(urls[..i], fetch, classify, decode) + [ProcessUrl(urls[i], fetch(urls[i]), classify, decode)]
  {
    assert urls[..i + 1][..i] == urls[..i];
  }

  /** One record per URL, in input order: the i-th record is the outcome of
      the i-th URL alone. */
  lemma {:induction false} QualifyAt(urls: seq<string>, fetch: string -> Fetched, classify: Request -> Reply, decode: string -> Decoded)
    ensures forall i :: 0 <= i < |urls| ==>
              Qualify(urls, fetch, classify, decode)[i] == ProcessUrl(urls[i], fetch(urls[i]), classify, decode)
  {
    if urls != [] {
      var n := |urls| - 1;
      var front := urls[..n];
      var rs := Qualify(urls, fetch, classify, decode);
      QualifyAt(front, fetch, classify, decode);
      assert rs == Qualify(front, fetch, classify, decode) + [ProcessUrl(urls[n], fetch(urls[n]), classify, decode)];
      forall i | 0 <= i < |urls|
        ensures rs[i] == ProcessUrl(urls[i], fetch(urls[i]), classify, decode)
      {
        if i < n {
          assert urls[i] == front[i];
          assert rs[i] == Qualify(front, fetch, classify, decode)[i];
        }
      }
    }
  }

  /** Failures are isolated: processing a batch is processing its two halves
      and putting their records one after the other, so no URL, failing or
      not, changes the records of the URLs before or after it. */
  lemma {:induction false} QualifySplit(a: seq<string>, b: seq<string>, fetch: string -> Fetched, classify: Request -> Reply, decode: string -> Decoded)
    ensures Qualify(a + b, fetch, classify, decode) == Qualify(a, fetch, classify, decode) + Qualify(b, fetch, classify, decode)
    decreases |b|
  {
    if b == [] {
      assert a + b == a;
    } else {
      var front := b[..|b| - 1];
      assert (a + b)[..|a + b| - 1] == a + front;
      assert (a + b)[|a + b| - 1] == b[|b| - 1];
      QualifySplit(a, front, fetch, classify, decode);
    }
  }

  /** The same URL twice in a batch gives the same record twice: nothing is
      de-duplicated or remembered between iterations. */
  lemma DuplicateUrls(urls: seq<string>, i: nat, j: nat, fetch: string -> Fetched, classify: Request -> Reply, decode: string -> Decoded)
    requires i < |urls| && j < |urls| && urls[i] == urls[j]
    ensures |Qualify(urls, fetch, classify, decode)| == |urls|
    ensures Qualify(urls, fetch, classify, decode)[i] == Qualify(urls, fetch, classify, decode)[j]
  {
    QualifyAt(urls, fetch, classify, decode);
  }

  /** Every record of a batch is a failure row exactly when its "Is Store" is
      neither "YES" nor "NO". */
  lemma BatchRowsWellFormed(urls: seq<string>, fetch: string -> Fetched, classify: Request -> Reply, decode: string -> Decoded)
    ensures forall r :: r in Qualify(urls, fetch, classify, decode) ==>
              (IsFailureRow(r) <==> !(r.isStore == "YES" || r.isStore == "NO"))
  {
    QualifyAt(urls, fetch, classify, decode);
  }
}
