/**
 * The agent's tax tools (app/tools.py): the listing of regional deductions
 * from the scraped deductions file, the description of the valid region
 * slugs, and the text the document-retrieval and web-search tools hand back
 * to the agent.  The retriever, the search service and the environment are
 * oracles: what they return is a parameter.
 */
module TaxTools {
  import opened Wrappers
  import opened Text

  /**
   * The deductions file as loaded: its region slugs in file order and, for
   * each, the names of its deductions.
   */
  datatype DeductionData = DeductionData(slugs: seq<string>, entries: map<string, seq<string>>)
  {
    /** The slugs are the dictionary's keys, each once, as a JSON object gives them. */
    ghost predicate Valid()
    {
      (forall i, j :: 0 <= i < j < |slugs| ==> slugs[i] != slugs[j])
      && (forall s :: s in entries <==> s in slugs)
    }
  }

  const NoDataMessage := "No hay datos de deducciones autonómicas cargados. Verifica la configuración del scraper."
  const InvalidArgumentMessage := "Argumento 'ccaa_slugs' inválido. Debe ser un string o una lista de strings."
  const NoSlugsLoaded := "No hay slugs cargados."
  const EmptySlugLead := "No se encontraron deducciones listadas para '"
  const UnknownSlugMiddle := " no es válido o no se encontraron datos. Los slugs válidos son: "
  const NoSlugsLead := "No se especificaron slugs de CCAA para procesar. Los slugs válidos son: "

  function Quoted(s: string): string
  {
    "'" + s + "'"
  }

  function QuotedAll(ss: seq<string>): (r: seq<string>)
    ensures |r| == |ss|
  {
    seq(|ss|, i requires 0 <= i < |ss| => Quoted(ss[i]))
  }

  /** `SLUGS_DESCRIPTION`: the valid slugs, quoted and comma-separated. */
  function SlugsDescription(data: DeductionData): string
  {
    if data.slugs == [] then NoSlugsLoaded else Join(QuotedAll(data.slugs), ", ")
  }

  /** The description names every valid slug in quotes; with none loaded it is the fallback text. */
  lemma SlugsDescriptionNamesEvery(data: DeductionData)
    ensures data.slugs == [] ==> SlugsDescription(data) == NoSlugsLoaded
    ensures forall i :: 0 <= i < |data.slugs| ==> Contains(SlugsDescription(data), Quoted(data.slugs[i]))
  {
    forall i | 0 <= i < |data.slugs|
      ensures Contains(SlugsDescription(data), Quoted(data.slugs[i]))
    {
      JoinContainsPart(QuotedAll(data.slugs), ", ", i);
    }
  }

  /** The argument of `list_regional_tax_deductions`. */
  datatype SlugArgument = OneSlug(slug: string) | SlugList(slugs: seq<string>) | OtherArgument

  function HeaderLine(slug: string): string
  {
    "Deducciones para '" + slug + "':"
  }

  function Bullets(ds: seq<string>): (r: seq<string>)
    ensures |r| == |ds|
  {
    seq(|ds|, i requires 0 <= i < |ds| => "- " + ds[i])
  }

  /** The block of a slug with deductions: its header line and one bullet per deduction. */
  function DeductionsBlock(slug: string, ds: seq<string>): string
  {
    HeaderLine(slug) + "\n" + Join(Bullets(ds), "\n")
  }

  /** The block of a known slug without deductions. */
  function EmptySlugBlock(slug: string): string
  {
    EmptySlugLead + slug + "'."
  }

  /** The block of an unknown slug: it names the valid ones. */
  function UnknownSlugBlock(data: DeductionData, slug: string): string
  {
    "El slug " + Quoted(slug) + UnknownSlugMiddle + SlugsDescription(data)
  }

  /** The block reported for one requested slug. */
  function SlugBlock(data: DeductionData, slug: string): string
  {
    if slug in data.entries then
      if data.entries[slug] != [] then DeductionsBlock(slug, data.entries[slug])
      else EmptySlugBlock(slug)
    else
      UnknownSlugBlock(data, slug)
  }

  function Blocks(data: DeductionData, slugs: seq<string>): (r: seq<string>)
    ensures |r| == |slugs|
  {
    seq(|slugs|, i requires 0 <= i < |slugs| => SlugBlock(data, slugs[i]))
  }

  function NoSlugsMessage(data: DeductionData): string
  {
    NoSlugsLead + SlugsDescription(data)
  }

  /** What `list_regional_tax_deductions` answers. */
  function ListDeductions(data: DeductionData, arg: SlugArgument): string
  {
    if data.entries == map[] then NoDataMessage
    else match arg
      case OtherArgument => InvalidArgumentMessage
      case OneSlug(s) => Join(Blocks(data, [s]), "\n\n")
      case SlugList(ss) => if ss == [] then NoSlugsMessage(data) else Join(Blocks(data, ss), "\n\n")
  }

  /** `list_regional_tax_deductions`: one block per requested slug, collected in a loop. */
  method ListRegionalTaxDeductions(data: DeductionData, arg: SlugArgument) returns (out: string)
    ensures out == ListDeductions(data, arg)
  {
    if data.entries == map[] {
      return NoDataMessage;
    }
    var toProcess: seq<string>;
    match arg {
      case OneSlug(s) => toProcess := [s];
      case SlugList(ss) => toProcess := ss;
      case OtherArgument => return InvalidArgumentMessage;
    }
    var results: seq<string> := [];
    for i := 0 to |toProcess|
      invariant results == Blocks(data, toProcess[..i])
    {
      var slug := toProcess[i];
      var block: string;
      if slug in data.entries {
        var deductions := data.entries[slug];
        if deductions != [] {
          block := DeductionsBlock(slug, deductions);
        } else {
          block := EmptySlugBlock(slug);
        }
      } else {
        block := UnknownSlugBlock(data, slug);
      }
      BlocksStep(data, toProcess, i);
      results := results + [block];
    }
    assert toProcess[..|toProcess|] == toProcess;
    if results == [] {
      return NoSlugsMessage(data);
    }
    out := Join(results, "\n\n");
  }

  lemma BlocksStep(data: DeductionData, slugs: seq<string>, i: nat)
    requires i < |slugs|
    ensures Blocks(data, slugs[..i + 1]) == Blocks(data, slugs[..i]) + [SlugBlock(data, slugs[i])]
  {
    assert slugs[..i + 1] == slugs[..i] + [slugs[i]];
    BlocksAppend(data, slugs[..i], [slugs[i]]);
  }

  lemma BlocksAppend(data: DeductionData, a: seq<string>, b: seq<string>)
    ensures Blocks(data, a + b) == Blocks(data, a) + Blocks(data, b)
  {
  }

  /** With no data loaded, every argument gets the same fixed answer. */
  lemma NoDataAnyArgument(data: DeductionData, a: SlugArgument, b: SlugArgument)
    requires data.Valid() && data.slugs == []
    ensures ListDeductions(data, a) == ListDeductions(data, b) == NoDataMessage
  {
  }

  /**
   * With data loaded, an argument that is neither a string nor a list gets the
   * fixed refusal, and an empty list gets the notice naming the valid slugs.
   */
  lemma ArgumentNotices(data: DeductionData)
    requires data.entries != map[]
    ensures ListDeductions(data, OtherArgument) == InvalidArgumentMessage
    ensures var r := ListDeductions(data, SlugList([]));
            StartsWith(r, NoSlugsLead) && EndsWith(r, SlugsDescription(data))
  {
    var d := SlugsDescription(data);
    assert (NoSlugsLead + d)[..|NoSlugsLead|] == NoSlugsLead;
    assert (NoSlugsLead + d)[|NoSlugsLead + d| - |d|..] == d;
  }

  /** A single string is handled as the list holding just that string. */
  lemma StringIsOneElementList(data: DeductionData, s: string)
    ensures ListDeductions(data, OneSlug(s)) == ListDeductions(data, SlugList([s]))
  {
  }

  /** A single slug is reported as exactly its own block. */
  lemma OneSlugOneBlock(data: DeductionData, s: string)
    requires data.entries != map[]
    ensures ListDeductions(data, SlugList([s])) == SlugBlock(data, s)
  {
    assert Blocks(data, [s]) == [SlugBlock(data, s)];
  }

  /**
   * The report for a list is the reports for its two halves, in order, one
   * blank line apart: one block per requested slug, duplicates included.
   */
  lemma ListConcat(data: DeductionData, a: seq<string>, b: seq<string>)
    requires data.entries != map[] && a != [] && b != []
    ensures ListDeductions(data, SlugList(a + b))
            == ListDeductions(data, SlugList(a)) + "\n\n" + ListDeductions(data, SlugList(b))
  {
    BlocksAppend(data, a, b);
    JoinAppend(Blocks(data, a), Blocks(data, b), "\n\n");
  }

  /**
   * A known slug with deductions is reported as a header line followed by one
   * `- ` line per deduction, in stored order (when no name spans lines).
   */
  lemma KnownSlugLines(data: DeductionData, slug: string)
    requires slug in data.entries && data.entries[slug] != []
    requires '\n' !in slug && forall i :: 0 <= i < |data.entries[slug]| ==> '\n' !in data.entries[slug][i]
    ensures Split(SlugBlock(data, slug), '\n') == [HeaderLine(slug)] + Bullets(data.entries[slug])
  {
    var ds := data.entries[slug];
    var lines := [HeaderLine(slug)] + Bullets(ds);
    assert lines[1..] == Bullets(ds);
    assert Join(lines, "\n") == SlugBlock(data, slug);
    forall i | 0 <= i < |lines|
      ensures '\n' !in lines[i]
    {
      if i > 0 {
        assert lines[i] == "- " + ds[i - 1];
      }
    }
    SplitJoin(lines, '\n');
  }

  /** A known slug without deductions, and an unknown slug, get their fixed notices. */
  lemma OtherSlugBlocks(data: DeductionData, slug: string)
    ensures slug in data.entries && data.entries[slug] == [] ==>
              SlugBlock(data, slug) == EmptySlugLead + slug + "'."
    ensures slug !in data.entries ==>
              StartsWith(SlugBlock(data, slug), "El slug " + Quoted(slug))
              && EndsWith(SlugBlock(data, slug), SlugsDescription(data))
  {
    if slug !in data.entries {
      var p := "El slug " + Quoted(slug);
      var t := UnknownSlugMiddle + SlugsDescription(data);
      assert SlugBlock(data, slug) == p + t;
    }
  }

  const NoDocumentsMessage := "No se han encontrado documentos relevantes para esa consulta."

  /** What `regional_tax_deductions_details` answers for the documents the retriever returned. */
  function FormatDetails(docs: seq<string>): string
  {
    if docs == [] then NoDocumentsMessage
    else Join(seq(|docs|, i requires 0 <= i < |docs| => "* " + docs[i]), "\n\n")
  }

  /** One document is `* ` and its content; more are the same, one blank line apart, in retrieval order. */
  lemma DetailsLayout(d: string, a: seq<string>, b: seq<string>)
    ensures FormatDetails([d]) == "* " + d
    ensures a != [] && b != [] ==> FormatDetails(a + b) == FormatDetails(a) + "\n\n" + FormatDetails(b)
  {
    if a != [] && b != [] {
      var bullet := (docs: seq<string>) => seq(|docs|, i requires 0 <= i < |docs| => "* " + docs[i]);
      assert bullet(a + b) == bullet(a) + bullet(b);
      JoinAppend(bullet(a), bullet(b), "\n\n");
    }
  }

  /** A field of one result dictionary: a string, Python's `None`, or no such key. */
  datatype Field = Str(text: string) | NoneValue | Missing

  /** One search result. */
  datatype SearchHit = SearchHit(title: Field, url: Field, content: Field)

  /** What the search service gives back. */
  datatype SearchOutcome =
    | Hits(hits: seq<SearchHit>)     // a list of result dictionaries
    | PlainText(text: string)        // a string
    | OtherFormat                    // anything else
    | SearchRaised(message: string)  // the call raised, with this message

  const NoApiKeyMessage := "Error: La variable de entorno TAVILY_API_KEY no está configurada. Esta herramienta no puede funcionar."
  const SnippetLength := 250
  /** The message of the `TypeError` that slicing `None` raises. */
  const NoneSliceError := "'NoneType' object is not subscriptable"

  /** A field as the f-string prints it: `get` gives `N/A` for a missing key, and `None` prints as `None`. */
  function Shown(f: Field): string
  {
    match f
    case Str(s) => s
    case NoneValue => "None"
    case Missing => "N/A"
  }

  /** The content can be sliced: it is not `None`. */
  predicate Sliceable(h: SearchHit)
  {
    !h.content.NoneValue?
  }

  /** The first `n` characters of `s` (Python's `s[:n]`). */
  function Take(s: string, n: nat): (r: string)
    ensures |r| == if |s| <= n then |s| else n
    ensures StartsWith(s, r)
  {
    if |s| <= n then s else s[..n]
  }

  /** The four lines that present the `i`-th result (counted from zero). */
  function HitLines(i: nat, h: SearchHit): seq<string>
    requires Sliceable(h)
  {
    [ "Resultado " + NatToDecimal(i + 1) + ":",
      "Titulo: " + Shown(h.title),
      "URL: " + Shown(h.url),
      "Fragmento: " + Take(Shown(h.content), SnippetLength) + "..." ]
  }

  /** The text presenting the `i`-th result: its lines, newline-separated. */
  function HitBlock(i: nat, h: SearchHit): string
    requires Sliceable(h)
  {
    Join(HitLines(i, h), "\n")
  }

  /** What `internet_search_tool` answers. */
  function InternetSearch(apiKeySet: bool, outcome: SearchOutcome): string
  {
    if !apiKeySet then NoApiKeyMessage
    else match outcome
      case Hits(hs) =>
        if exists i | 0 <= i < |hs| :: !Sliceable(hs[i]) then SearchFailure(NoneSliceError)
        else if hs == [] then "No se encontraron resultados."
        else Join(seq(|hs|, i requires 0 <= i < |hs| => HitBlock(i, hs[i])), "\n\n")
      case PlainText(t) => t
      case OtherFormat => "Formato de resultados de búsqueda inesperado."
      case SearchRaised(m) => SearchFailure(m)
  }

  /** The answer when anything in the search raised. */
  function SearchFailure(message: string): string
  {
    "Error durante la búsqueda en internet: " + message
  }

  /**
   * The `i`-th result block reads as four lines: its number counted from one,
   * the title, the URL, and at most 250 characters of the content followed by
   * `...` (when no field spans lines).
   */
  lemma HitBlockLines(i: nat, h: SearchHit)
    requires Sliceable(h)
    requires '\n' !in Shown(h.title) && '\n' !in Shown(h.url) && '\n' !in Shown(h.content)
    ensures var lines := Split(HitBlock(i, h), '\n');
            |lines| == 4 && lines == HitLines(i, h)
            && DecimalValue(lines[0][|"Resultado "|..|lines[0]| - 1]) == i + 1
            && |lines[3]| <= |"Fragmento: "| + SnippetLength + 3
  {
    var ls := HitLines(i, h);
    var snippet := Take(Shown(h.content), SnippetLength);
    assert ls[1..][1..][1..] == [ls[3]];
    SplitJoin(ls, '\n');
    assert ls[0][|"Resultado "|..|ls[0]| - 1] == NatToDecimal(i + 1);
    DecimalRoundTrip(i + 1);
  }

  /** Without an API key nothing else matters; a plain-text answer is passed through as is. */
  lemma SearchPassThrough(o: SearchOutcome, t: string)
    ensures InternetSearch(false, o) == NoApiKeyMessage
    ensures InternetSearch(true, PlainText(t)) == t
  {
  }

  /**
   * A result whose content is `None` makes the slice raise inside the `try`,
   * whatever the other results hold: the answer is that of a search that
   * raised the `TypeError`.
   */
  lemma NoneContentFails(hs: seq<SearchHit>, i: nat)
    requires i < |hs| && hs[i].content == NoneValue
    ensures InternetSearch(true, Hits(hs)) == InternetSearch(true, SearchRaised(NoneSliceError))
    ensures StartsWith(InternetSearch(true, Hits(hs)), "Error durante la búsqueda en internet: ")
  {
    assert !Sliceable(hs[i]);
  }
}
