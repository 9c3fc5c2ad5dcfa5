/**
 * The offline pipeline of backend/scrap_script.py: parse a comma-separated
 * symptom line, map each phrase onto a fixed catalog by embedding
 * similarity, fetch the MedlinePlus page of every matched symptom (skipping
 * the ones that fail), and assemble the two reports.
 *
 * The embedding service, the cosine similarity, the HTTP request and the
 * text generator are parameters: `embed` gives a phrase's vector, `cos`
 * compares two vectors, `get` answers a request, and `summarize` / `plan`
 * give the raw text the generator returns for the fetched texts and the
 * matched names. The cache file is a value `file` that the operations take
 * and give back.
 */
module ScrapScript {
  import opened Wrappers
  import opened Text
  import opened Scraping

  const SymptomBaseUrl: string := "https://medlineplus.gov/"

  /** The catalog the embedding cache is built from, in its insertion order. */
  const PredefinedSymptoms: seq<string> := ["headache", "cough", "gas", "fever"]

  /** A phrase matches only when its best similarity is strictly above this. */
  const Threshold: real := 0.6

  /** One entry of the embedding dictionary. */
  datatype Entry<E> = Entry(name: string, embedding: E)

  /** The embedding dictionary, in its iteration (insertion) order. */
  type Cache<E> = seq<Entry<E>>

  function Names<E>(cache: Cache<E>): (r: seq<string>)
    ensures |r| == |cache|
    ensures forall i :: 0 <= i < |cache| ==> r[i] == cache[i].name
  {
    seq(|cache|, i requires 0 <= i < |cache| => cache[i].name)
  }

  predicate NoDuplicates(s: seq<string>) {
    forall i, j :: 0 <= i < j < |s| ==> s[i] != s[j]
  }

  // ---------------------------------------------------------------- parsing

  /** `[s.strip().lower() for s in user_input.split(",") if s.strip()]`. */
  function UserSymptoms(userInput: string): (r: seq<string>)
    ensures |r| == |CommaItems(userInput)|
    ensures forall k :: 0 <= k < |r| ==> r[k] == Lower(CommaItems(userInput)[k])
  {
    var items := CommaItems(userInput);
    seq(|items|, k requires 0 <= k < |items| => Lower(items[k]))
  }

  /** Every parsed phrase is non-empty, stripped, lower-case and free of commas. */
  lemma UserSymptomsClean(userInput: string)
    ensures forall k :: 0 <= k < |UserSymptoms(userInput)| ==>
      var x := UserSymptoms(userInput)[k];
      x != [] && Stripped(x) && NoUpper(x) && ',' !in x
  {
    var items := CommaItems(userInput);
    var pieces := Split(userInput, ',');
    forall k | 0 <= k < |items|
      ensures ',' !in items[k]
    {
      StrippedItemsSound(pieces, items[k]);
      var j :| 0 <= j < |pieces| && items[k] == Strip(pieces[j]);
      StripIsInfix(pieces[j]);
    }
    forall k | 0 <= k < |items| ensures NoUpper(Lower(items[k])) {
      LowerResult(items[k]);
    }
  }

  /** A clean lower-case list written out comma-separated is parsed back to itself. */
  lemma UserSymptomsRoundTrip(phrases: seq<string>)
    requires forall k :: 0 <= k < |phrases| ==>
      phrases[k] != [] && Stripped(phrases[k]) && NoUpper(phrases[k]) && ',' !in phrases[k]
    ensures UserSymptoms(Join(phrases, ",")) == phrases
  {
    CommaItemsRoundTrip(phrases);
    forall k | 0 <= k < |phrases| ensures Lower(phrases[k]) == phrases[k] {
      LowerOfLowered(phrases[k]);
    }
  }

  // -------------------------------------------------------- embedding cache

  /** What `get_or_create_embeddings` returns, together with the cache file afterwards. */
  datatype CacheLoad<E> = CacheLoad(data: Cache<E>, file: Option<Cache<E>>)

  function FreshCache<E>(embed: string -> E): (c: Cache<E>)
    ensures Names(c) == PredefinedSymptoms
    ensures forall i :: 0 <= i < |c| ==> c[i].embedding == embed(c[i].name)
  {
    seq(|PredefinedSymptoms|, i requires 0 <= i < |PredefinedSymptoms|
      => Entry(PredefinedSymptoms[i], embed(PredefinedSymptoms[i])))
  }

  /**
   * An existing cache file is returned verbatim, whatever catalog it holds;
   * otherwise every catalog name is embedded once and the result is saved.
   */
  function GetOrCreateEmbeddings<E>(file: Option<Cache<E>>, embed: string -> E): (r: CacheLoad<E>)
    ensures file.Some? ==> r.data == file.value && r.file == file
    ensures file.None? ==> r.file == Some(r.data)
    ensures file.None? ==> Names(r.data) == ["headache", "cough", "gas", "fever"]
    ensures file.None? ==> forall i :: 0 <= i < |r.data| ==> r.data[i].embedding == embed(r.data[i].name)
  {
    match file
    case Some(data) => CacheLoad(data, file)
    case None => var data := FreshCache(embed); CacheLoad(data, Some(data))
  }

  /**
   * Building the cache and then loading it again gives the same mapping,
   * and the second call does not depend on the embedding service at all.
   */
  lemma CacheReloadRoundTrip<E>(embed: string -> E, later: string -> E)
    ensures var first := GetOrCreateEmbeddings(None, embed);
      GetOrCreateEmbeddings(first.file, later) == first
  {
  }

  // --------------------------------------------------------------- matching

  /** `{s: cosine_similarity(phrase_emb, emb) for s, emb in cache.items()}`, as values in order. */
  function Similarities<E>(cache: Cache<E>, phraseEmbedding: E, cos: (E, E) -> real): (r: seq<real>)
    ensures |r| == |cache|
    ensures forall i :: 0 <= i < |cache| ==> r[i] == cos(phraseEmbedding, cache[i].embedding)
  {
    seq(|cache|, i requires 0 <= i < |cache| => cos(phraseEmbedding, cache[i].embedding))
  }

  /** Position `k` holds a largest value of `xs`, and no earlier position holds one. */
  predicate IsFirstMax(xs: seq<real>, k: nat) {
    k < |xs| && (forall j :: 0 <= j < |xs| ==> xs[j] <= xs[k]) && (forall j :: 0 <= j < k ==> xs[j] < xs[k])
  }

  /** Python's `max` with a key: a largest value, the first one among equals. */
  function ArgMax(xs: seq<real>): (k: nat)
    requires |xs| > 0
    ensures IsFirstMax(xs, k)
  {
    if |xs| == 1 then 0
    else
      var k := ArgMax(xs[..|xs| - 1]);
      if xs[|xs| - 1] > xs[k] then |xs| - 1 else k
  }

  /** The catalog name one phrase contributes, if its best score clears the threshold: the body of the matcher's loop. */
  function Contribution<E>(cache: Cache<E>, embed: string -> E, cos: (E, E) -> real, phrase: string): (c: Option<string>)
    requires |cache| > 0
    ensures c.Some? ==> c.value in Names(cache)
    ensures (forall i :: 0 <= i < |cache| ==> cos(embed(phrase), cache[i].embedding) <= Threshold) ==> c.None?
  {
    var sims := Similarities(cache, embed(phrase), cos);
    var best := ArgMax(sims);
    if sims[best] > Threshold then Some(cache[best].name) else None
  }

  /**
   * A phrase contributes a name exactly when some catalog entry scores
   * strictly above 0.6; the name it contributes is that of the first entry
   * with the highest score.
   */
  lemma ContributionMeaning<E>(cache: Cache<E>, embed: string -> E, cos: (E, E) -> real, phrase: string)
    requires |cache| > 0
    ensures var c := Contribution(cache, embed, cos, phrase);
      c.Some? <==> exists i :: 0 <= i < |cache| && cos(embed(phrase), cache[i].embedding) > Threshold
    ensures var c := Contribution(cache, embed, cos, phrase);
      c.Some? ==> exists k :: 0 <= k < |cache| && c.value == cache[k].name
                               && IsFirstMax(Similarities(cache, embed(phrase), cos), k)
  {
    var sims := Similarities(cache, embed(phrase), cos);
    var best := ArgMax(sims);
    if exists i :: 0 <= i < |cache| && cos(embed(phrase), cache[i].embedding) > Threshold {
      var i :| 0 <= i < |cache| && cos(embed(phrase), cache[i].embedding) > Threshold;
      assert sims[i] <= sims[best];
    }
  }

  /** The list `matched` that the matcher's loop over the phrases builds, before duplicates are removed. */
  function MatchedNames<E>(phrases: seq<string>, cache: Cache<E>, embed: string -> E, cos: (E, E) -> real): (r: seq<string>)
    requires |cache| > 0
    ensures |r| <= |phrases|
    ensures forall k :: 0 <= k < |r| ==> r[k] in Names(cache)
  {
    if phrases == [] then []
    else
      var rest := MatchedNames(phrases[..|phrases| - 1], cache, embed, cos);
      match Contribution(cache, embed, cos, phrases[|phrases| - 1])
      case Some(name) => rest + [name]
      case None => rest
  }

  /** Every matched name is contributed by some phrase. */
  lemma {:induction false} MatchedNamesSound<E>(phrases: seq<string>, cache: Cache<E>, embed: string -> E,
                                                 cos: (E, E) -> real, name: string)
    requires |cache| > 0 && name in MatchedNames(phrases, cache, embed, cos)
    ensures exists k :: 0 <= k < |phrases| && Contribution(cache, embed, cos, phrases[k]) == Some(name)
  {
    var init := phrases[..|phrases| - 1];
    var last := |phrases| - 1;
    if name in MatchedNames(init, cache, embed, cos) {
      MatchedNamesSound(init, cache, embed, cos, name);
      var k :| 0 <= k < |init| && Contribution(cache, embed, cos, init[k]) == Some(name);
      assert phrases[k] == init[k];
    } else {
      assert Contribution(cache, embed, cos, phrases[last]) == Some(name);
    }
  }

  /** The name every phrase contributes is matched. */
  lemma {:induction false} MatchedNamesComplete<E>(phrases: seq<string>, cache: Cache<E>, embed: string -> E,
                                                    cos: (E, E) -> real, k: nat)
    requires |cache| > 0 && k < |phrases| && Contribution(cache, embed, cos, phrases[k]).Some?
    ensures Contribution(cache, embed, cos, phrases[k]).value in MatchedNames(phrases, cache, embed, cos)
  {
    var init := phrases[..|phrases| - 1];
    if k < |init| {
      assert init[k] == phrases[k];
      MatchedNamesComplete(init, cache, embed, cos, k);
    }
  }

  /** `list(set(matched))`, keeping first occurrences (the source leaves the order open). */
  function Dedup(s: seq<string>): (r: seq<string>)
    ensures NoDuplicates(r)
    ensures forall x :: x in r <==> x in s
    ensures |r| <= |s|
  {
    if s == [] then []
    else
      var r := Dedup(s[..|s| - 1]);
      if s[|s| - 1] in r then r else r + [s[|s| - 1]]
  }

  datatype MatchError = EmptyCatalog   // `max()` of an empty dictionary raises ValueError

  /**
   * `map_to_predefined_symptoms`: the distinct catalog names that the phrases
   * contribute, in an order the contract leaves open, and the cache file
   * after `get_or_create_embeddings`.
   */
  method MapToPredefinedSymptoms<E>(phrases: seq<string>, file: Option<Cache<E>>, embed: string -> E,
                                    cos: (E, E) -> real)
    returns (r: Result<seq<string>, MatchError>, file': Option<Cache<E>>)
    ensures file' == GetOrCreateEmbeddings(file, embed).file
    ensures var cache := GetOrCreateEmbeddings(file, embed).data;
      r.Failure? <==> |phrases| > 0 && |cache| == 0
    ensures var cache := GetOrCreateEmbeddings(file, embed).data;
      r.Success? && |cache| > 0 ==>
        NoDuplicates(r.value) && (forall x :: x in r.value <==> x in MatchedNames(phrases, cache, embed, cos))
    ensures r.Success? ==> NoDuplicates(r.value) && |r.value| <= |phrases|
    ensures |phrases| == 0 ==> r == Success([])
    ensures r.Success? ==> forall k :: 0 <= k < |r.value| ==> r.value[k] in Names(GetOrCreateEmbeddings(file, embed).data)
  {
    var load := GetOrCreateEmbeddings(file, embed);
    file' := load.file;
    var cache := load.data;
    if |phrases| == 0 {
      return Success([]), file';
    }
    if |cache| == 0 {
      return Failure(EmptyCatalog), file';
    }
    var matched: seq<string> := [];
    for i := 0 to |phrases|
      invariant matched == MatchedNames(phrases[..i], cache, embed, cos)
    {
      assert phrases[..i + 1][..i] == phrases[..i];
      var sims := Similarities(cache, embed(phrases[i]), cos);
      var best := ArgMax(sims);
      if sims[best] > Threshold {
        matched := matched + [cache[best].name];
      }
    }
    assert phrases[..|phrases|] == phrases;
    r := Success(Dedup(matched));
    forall k | 0 <= k < |r.value| ensures r.value[k] in Names(cache) {
      assert r.value[k] in matched;
    }
  }

  // --------------------------------------------------------------- fetching

  datatype FetchError = RequestFailed | BadStatus(status: nat)

  /** `fetch_page_text`: raises on a missing response or a status other than 200. */
  function FetchPageText(get: string -> HttpResult, slug: string): (r: Result<string, FetchError>)
    ensures get(SymptomBaseUrl + slug).NoResponse? ==> r == Failure(RequestFailed)
    ensures get(SymptomBaseUrl + slug).Response? && get(SymptomBaseUrl + slug).status != 200
      ==> r == Failure(BadStatus(get(SymptomBaseUrl + slug).status))
    ensures get(SymptomBaseUrl + slug).Response? && get(SymptomBaseUrl + slug).status == 200
      ==> r == Success(PageText(get(SymptomBaseUrl + slug).elementTexts))
  {
    match get(SymptomBaseUrl + slug)
    case NoResponse => Failure(RequestFailed)
    case Response(status, texts) =>
      if status != 200 then Failure(BadStatus(status)) else Success(PageText(texts))
  }

  /** The texts that `process_symptoms` collects in its fetch loop: the successful fetches, in order. */
  function FetchedTexts(get: string -> HttpResult, symptoms: seq<string>): (r: seq<string>)
    ensures |r| <= |symptoms|
    ensures symptoms == [] ==> r == []
  {
    if symptoms == [] then []
    else
      var init := FetchedTexts(get, symptoms[..|symptoms| - 1]);
      match FetchPageText(get, Slug(symptoms[|symptoms| - 1]))
      case Success(text) => init + [text]
      case Failure(_) => init
  }

  /** Fetching two lists one after the other collects both lists' texts in order. */
  lemma {:induction false} FetchedTextsAppend(get: string -> HttpResult, a: seq<string>, b: seq<string>)
    ensures FetchedTexts(get, a + b) == FetchedTexts(get, a) + FetchedTexts(get, b)
  {
    if b != [] {
      var b' := b[..|b| - 1];
      assert (a + b)[..|a + b| - 1] == a + b';
      FetchedTextsAppend(get, a, b');
    } else {
      assert a + b == a;
    }
  }

  lemma {:induction false} FetchedTextsSkip(get: string -> HttpResult, init: seq<string>, symptom: string)
    requires FetchPageText(get, Slug(symptom)).Failure?
    ensures FetchedTexts(get, init + [symptom]) == FetchedTexts(get, init)
  {
    assert (init + [symptom])[..|init|] == init;
  }

  /** A symptom whose fetch fails is skipped, and only that symptom. */
  lemma {:induction false} FailedFetchSkipsOnlyThatSymptom(get: string -> HttpResult, symptoms: seq<string>, i: nat)
    requires i < |symptoms| && FetchPageText(get, Slug(symptoms[i])).Failure?
    ensures FetchedTexts(get, symptoms) == FetchedTexts(get, symptoms[..i]) + FetchedTexts(get, symptoms[i + 1..])
  {
    var before, after := symptoms[..i], symptoms[i + 1..];
    var upTo := before + [symptoms[i]];
    assert symptoms == upTo + after;
    FetchedTextsAppend(get, upTo, after);
    FetchedTextsSkip(get, before, symptoms[i]);
  }

  /** At most one text per symptom; exactly one each when every fetch succeeds. */
  lemma {:induction false} FetchedTextsCount(get: string -> HttpResult, symptoms: seq<string>)
    ensures |FetchedTexts(get, symptoms)| <= |symptoms|
    ensures (forall k :: 0 <= k < |symptoms| ==> FetchPageText(get, Slug(symptoms[k])).Success?)
      ==> |FetchedTexts(get, symptoms)| == |symptoms|
  {
    if symptoms != [] {
      var init := symptoms[..|symptoms| - 1];
      FetchedTextsCount(get, init);
      if forall k :: 0 <= k < |symptoms| ==> FetchPageText(get, Slug(symptoms[k])).Success? {
        forall k | 0 <= k < |init| ensures FetchPageText(get, Slug(init[k])).Success? {
          assert init[k] == symptoms[k];
        }
      }
    }
  }

  /** Every collected text is the page text of one of the symptoms. */
  lemma {:induction false} FetchedTextsSound(get: string -> HttpResult, symptoms: seq<string>, text: string)
    requires text in FetchedTexts(get, symptoms)
    ensures exists k :: 0 <= k < |symptoms| && FetchPageText(get, Slug(symptoms[k])) == Success(text)
  {
    var init := symptoms[..|symptoms| - 1];
    var last := |symptoms| - 1;
    if text in FetchedTexts(get, init) {
      FetchedTextsSound(get, init, text);
      var k :| 0 <= k < |init| && FetchPageText(get, Slug(init[k])) == Success(text);
      assert init[k] == symptoms[k];
    } else {
      assert FetchPageText(get, Slug(symptoms[last])) == Success(text);
    }
  }

  // ---------------------------------------------------------------- reports

  const SummaryHeader: string := "# \U{1FA7A} Combined Symptom Summary\n\n"
  const SummaryFooter: string := "\n\n---\n\n*AI-generated for educational purposes only.*"
  const PlanHeader: string := "# \U{1F48A} Treatment Plan & Medical Reasoning\n\n"
  const PlanFooter: string :=
    "\n\n---\n\n*Always consult a licensed healthcare provider before acting on this information.*"

  /** A report file's contents: its header, the generated text, its footer. */
  function Report(header: string, body: string, footer: string): (r: string)
    ensures |r| == |header| + |body| + |footer|
    ensures header <= r
  {
    header + body + footer
  }

  /** The header and footer of a report can be peeled off to recover the generated text. */
  lemma ReportBodyRecoverable(header: string, body: string, footer: string)
    ensures var r := Report(header, body, footer);
      |r| == |header| + |body| + |footer|
      && r[..|header|] == header
      && r[|r| - |footer|..] == footer
      && r[|header|..|r| - |footer|] == body
  {
    var r := Report(header, body, footer);
    assert r[..|header|] == header;
    assert r[|header|..|r| - |footer|] == body;
    assert r[|r| - |footer|..] == footer;
  }

  /** How a run of `process_symptoms` ends. */
  datatype Outcome =
    | MatchRaised                       // the matcher raised: a loaded cache file was empty
    | NoValidSymptoms                   // nothing matched: no report is written
    | NoDataFetched                     // every fetch failed: no report is written
    | Reports(summary: string, plan: string)   // the contents of the two report files

  /**
   * `process_symptoms`: parse, match, fetch with skipping, and write the two
   * reports only when something matched and something was fetched. `matched`
   * is the order the matcher chose.
   */
  method ProcessSymptoms<E>(userInput: string, file: Option<Cache<E>>, embed: string -> E,
                            cos: (E, E) -> real, get: string -> HttpResult,
                            summarize: (seq<string>, seq<string>) -> string,
                            plan: (seq<string>, seq<string>) -> string)
    returns (outcome: Outcome, matched: seq<string>, file': Option<Cache<E>>)
    ensures file' == GetOrCreateEmbeddings(file, embed).file
    ensures var cache := GetOrCreateEmbeddings(file, embed).data;
      outcome == MatchRaised <==> |UserSymptoms(userInput)| > 0 && |cache| == 0
    ensures outcome != MatchRaised ==>
      NoDuplicates(matched) && |matched| <= |UserSymptoms(userInput)|
      && (forall k :: 0 <= k < |matched| ==> matched[k] in Names(GetOrCreateEmbeddings(file, embed).data))
    ensures var cache := GetOrCreateEmbeddings(file, embed).data;
      outcome != MatchRaised && |cache| > 0 ==>
        forall x :: x in matched <==> x in MatchedNames(UserSymptoms(userInput), cache, embed, cos)
    ensures outcome == NoValidSymptoms <==> outcome != MatchRaised && matched == []
    ensures outcome == NoDataFetched <==> matched != [] && FetchedTexts(get, matched) == []
    ensures outcome.Reports? ==>
      var texts := FetchedTexts(get, matched);
      texts != [] && matched != []
      && outcome.summary == Report(SummaryHeader, Strip(summarize(texts, matched)), SummaryFooter)
      && outcome.plan == Report(PlanHeader, Strip(plan(texts, matched)), PlanFooter)
  {
    var phrases := UserSymptoms(userInput);
    var r;
    r, file' := MapToPredefinedSymptoms(phrases, file, embed, cos);
    if r.Failure? {
      return MatchRaised, [], file';
    }
    matched := r.value;
    if matched == [] {
      return NoValidSymptoms, matched, file';
    }
    var texts: seq<string> := [];
    for i := 0 to |matched|
      invariant texts == FetchedTexts(get, matched[..i])
    {
      assert matched[..i + 1][..i] == matched[..i];
      var slug := Slug(matched[i]);
      var fetched := FetchPageText(get, slug);
      if fetched.Success? {
        texts := texts + [fetched.value];
      }
    }
    assert matched[..|matched|] == matched;
    if texts == [] {
      return NoDataFetched, matched, file';
    }
    var combinedSummary := Strip(summarize(texts, matched));
    var treatmentPlan := Strip(plan(texts, matched));
    outcome := Reports(Report(SummaryHeader, combinedSummary, SummaryFooter),
                       Report(PlanHeader, treatmentPlan, PlanFooter));
  }
}
