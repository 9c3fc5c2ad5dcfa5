/**
 * The crew's "Symptom Scraper Tool" (backend/tools.py): fetch the page of a
 * symptom from a base URL read from the environment and return its text,
 * or an error string when the status is not 200.
 */
module Tools {
  import opened Wrappers
  import opened Text
  import opened Scraping
  import ScrapScript

  /** Why the tool raises instead of returning a string. */
  datatype ToolFailure =
    | BaseUrlUnset     // SYMPTOM_BASE_URL is not set: `None + str` raises TypeError
    | RequestFailed    // requests.get raised (connection error, 10-second timeout)

  datatype ToolResult = Returned(text: string) | Raised(failure: ToolFailure)

  /** The page URL for a symptom under a base URL. */
  function ToolUrl(base: string, symptomSlug: string): (url: string)
    ensures url == base + Normalize(symptomSlug) + ".html"
  {
    base + Slug(symptomSlug)
  }

  /** Normalising a name that is already normalised yields the same URL. */
  lemma ToolUrlIdempotent(base: string, symptomSlug: string)
    ensures ToolUrl(base, Normalize(symptomSlug)) == ToolUrl(base, symptomSlug)
  {
    NormalizeIdempotent(symptomSlug);
  }

  function FetchErrorText(url: string, status: nat): (msg: string)
    ensures "Error fetching " + url + ": " < msg
  {
    "Error fetching " + url + ": " + NatToString(status)
  }

  /** The tool's result for a base URL, a symptom name and the HTTP oracle. */
  function SymptomScraperTool(base: Option<string>, symptomSlug: string, get: string -> HttpResult): (r: ToolResult)
    ensures base.None? ==> r == Raised(BaseUrlUnset)
    ensures base.Some? ==>
      var url := base.value + Normalize(symptomSlug) + ".html";
      match get(url)
      case NoResponse => r == Raised(RequestFailed)
      case Response(status, texts) =>
        r == Returned(if status == 200 then PageText(texts) else FetchErrorText(url, status))
  {
    match base
    case None => Raised(BaseUrlUnset)
    case Some(b) =>
      var url := ToolUrl(b, symptomSlug);
      match get(url)
      case NoResponse => Raised(RequestFailed)
      case Response(status, texts) =>
        if status != 200 then Returned(FetchErrorText(url, status)) else Returned(PageText(texts))
  }

  /** The error string names the URL and ends with the status in decimal, which reads back as the status. */
  lemma FetchErrorTextReadsBack(url: string, status: nat)
    ensures var msg := FetchErrorText(url, status);
      var prefix := "Error fetching " + url + ": ";
      |prefix| < |msg| && msg[..|prefix|] == prefix
      && (forall i :: |prefix| <= i < |msg| ==> '0' <= msg[i] <= '9')
      && ParseDecimal(msg[|prefix|..]) == status
  {
    var prefix := "Error fetching " + url + ": ";
    var msg := FetchErrorText(url, status);
    assert msg[|prefix|..] == NatToString(status);
    NatToStringRoundTrip(status);
  }

  /** A symptom name that is already normalised gives the same tool result as the raw name. */
  lemma ToolIgnoresNormalisedInput(base: Option<string>, symptomSlug: string, get: string -> HttpResult)
    ensures SymptomScraperTool(base, Normalize(symptomSlug), get) == SymptomScraperTool(base, symptomSlug, get)
  {
    NormalizeIdempotent(symptomSlug);
  }

  /**
   * With the script's MedlinePlus base URL, the tool requests the same page
   * as `process_symptoms` for the same symptom; it returns the same text
   * where the script's fetch succeeds, returns an error string where the
   * script's fetch raises on the status, and raises where the request does.
   */
  lemma ToolAgreesWithScript(symptom: string, get: string -> HttpResult)
    ensures ToolUrl(ScrapScript.SymptomBaseUrl, symptom) == ScrapScript.SymptomBaseUrl + Slug(symptom)
    ensures var tool := SymptomScraperTool(Some(ScrapScript.SymptomBaseUrl), symptom, get);
      var url := ScrapScript.SymptomBaseUrl + Slug(symptom);
      match ScrapScript.FetchPageText(get, Slug(symptom))
      case Success(text) => tool == Returned(text)
      case Failure(e) =>
        if e.BadStatus? then tool == Returned(FetchErrorText(url, e.status)) else tool == Raised(RequestFailed)
  {
  }
}
