/**
 * What backend/scrap_script.py and backend/tools.py share: the page-name
 * normalisation of a symptom and the text assembled from a fetched page.
 * The HTTP request and the HTML parsing are an oracle: a request either
 * gets no response or a response with a status and the texts of the
 * page's paragraph and list elements, in document order, each as
 * BeautifulSoup's `get_text(strip=True)` gives it.
 */
module Scraping {
  import opened Text

  datatype HttpResult = Response(status: nat, elementTexts: seq<string>) | NoResponse

  /** `re.sub(r"\s+", "", name.lower())`: lower-cased, every whitespace character removed. */
  function Normalize(name: string): (r: string)
    ensures NoSpace(r) && NoUpper(r)
    ensures |r| <= |name|
  {
    LowerResult(name);
    RemoveSpaceKeepsNoUpper(Lower(name));
    RemoveSpace(Lower(name))
  }

  /** The page name of a symptom: its normalised name followed by ".html". */
  function Slug(name: string): (r: string)
    ensures |r| >= 5 && r[|r| - 5..] == ".html"
    ensures r[..|r| - 5] == Normalize(name)
  {
    Normalize(name) + ".html"
  }

  /** One character normalises to nothing when it is whitespace and to its lower-case form otherwise. */
  lemma NormalizeChar(c: char)
    ensures Normalize([c]) == if IsSpace(c) then [] else [LowerChar(c)]
  {
    assert Lower([c]) == [LowerChar(c)];
    RemoveSpaceChar(LowerChar(c));
  }

  /** Normalisation distributes over concatenation; with NormalizeChar it fixes the normal form of every name. */
  lemma NormalizeAppend(a: string, b: string)
    ensures Normalize(a + b) == Normalize(a) + Normalize(b)
  {
    assert Lower(a + b) == Lower(a) + Lower(b);
    RemoveSpaceAppend(Lower(a), Lower(b));
  }

  /** The order of lowering and whitespace removal does not matter. */
  lemma NormalizeCommutes(name: string)
    ensures Normalize(name) == Lower(RemoveSpace(name))
  {
    LowerRemoveSpaceCommute(name);
  }

  /** A name without whitespace or capitals is its own normal form. */
  lemma NormalizeFixesCleanName(name: string)
    requires NoSpace(name) && NoUpper(name)
    ensures Normalize(name) == name
  {
    LowerOfLowered(name);
    RemoveSpaceOfSpaceFree(name);
  }

  lemma NormalizeIdempotent(name: string)
    ensures Normalize(Normalize(name)) == Normalize(name)
    ensures Slug(Normalize(name)) == Slug(name)
  {
    NormalizeFixesCleanName(Normalize(name));
  }

  /** The element texts that are not empty, in document order. */
  function NonEmptyTexts(texts: seq<string>): (r: seq<string>)
    ensures |r| <= |texts|
    ensures forall k :: 0 <= k < |r| ==> r[k] != [] && r[k] in texts
    ensures forall k :: 0 <= k < |texts| && texts[k] != [] ==> texts[k] in r
  {
    if texts == [] then []
    else (if texts[0] != [] then [texts[0]] else []) + NonEmptyTexts(texts[1..])
  }

  lemma NonEmptyTextsOne(text: string)
    ensures NonEmptyTexts([text]) == if text != [] then [text] else []
  {
    assert [text][1..] == [];
  }

  /** The non-empty texts of two runs of elements are those of the first followed by those of the second: document order and repetitions are kept. */
  lemma {:induction false} NonEmptyTextsAppend(a: seq<string>, b: seq<string>)
    ensures NonEmptyTexts(a + b) == NonEmptyTexts(a) + NonEmptyTexts(b)
  {
    if a != [] {
      assert (a + b)[0] == a[0];
      assert (a + b)[1..] == a[1..] + b;
      NonEmptyTextsAppend(a[1..], b);
    } else {
      assert a + b == b;
    }
  }

  /** `"\n".join(e.get_text(strip=True) for e in elems if e.get_text(strip=True))`. */
  function PageText(texts: seq<string>): (r: string)
    ensures r == [] <==> forall k :: 0 <= k < |texts| ==> texts[k] == []
  {
    Join(NonEmptyTexts(texts), "\n")
  }

  /** When no element text holds a newline, the page text splits back into exactly the non-empty texts. */
  lemma PageTextLines(texts: seq<string>)
    requires forall k :: 0 <= k < |texts| ==> '\n' !in texts[k]
    requires NonEmptyTexts(texts) != []
    ensures Split(PageText(texts), '\n') == NonEmptyTexts(texts)
  {
    SplitJoin(NonEmptyTexts(texts), '\n');
  }
}
