/**
 * The scraper of the tax agency's regional-deduction pages
 * (scraping/aeat_loader.py): the clean-up of the text taken from a page, the
 * grouping of a page's elements into titled sections, and the loader's
 * configuration.  A parsed page is abstracted to its list of top-level
 * elements, each with its tag name and its extracted text.
 */
module AeatLoader {
  import opened Wrappers
  import opened Text

  const Nbsp: char := '\U{A0}'
  const ZeroWidthSpace: char := '\U{200B}'
  const NarrowNbsp: char := '\U{202F}'
  const SoftHyphen: char := '\U{AD}'

  /** `normalizar_espacios`: four replacements, in the source's order. */
  function NormalizarEspacios(texto: string): string
  {
    ReplaceAll(ReplaceAll(ReplaceAll(ReplaceAll(texto, [Nbsp], " "), [ZeroWidthSpace], ""), [NarrowNbsp], " "), [SoftHyphen], "")
  }

  /** What normalisation makes of one character: the two no-break spaces become spaces, the invisible ones vanish. */
  function NormalizeChar(c: char): string
  {
    if c == Nbsp || c == NarrowNbsp then " "
    else if c == ZeroWidthSpace || c == SoftHyphen then ""
    else [c]
  }

  /** Reference definition: every character normalised on its own, order kept. */
  function Normalized(s: string): string
  {
    if s == [] then [] else NormalizeChar(s[0]) + Normalized(s[1..])
  }

  predicate IsRemapped(c: char)
  {
    c == Nbsp || c == ZeroWidthSpace || c == NarrowNbsp || c == SoftHyphen
  }

  /** The text holds none of the four characters normalisation removes. */
  predicate Clean(s: string)
  {
    forall i :: 0 <= i < |s| ==> !IsRemapped(s[i])
  }

  function Chain(s: string): string
  {
    MapChar(MapChar(MapChar(MapChar(s, Nbsp, " "), ZeroWidthSpace, ""), NarrowNbsp, " "), SoftHyphen, "")
  }

  lemma ChainAppend(a: string, b: string)
    ensures Chain(a + b) == Chain(a) + Chain(b)
  {
    var a1, b1 := MapChar(a, Nbsp, " "), MapChar(b, Nbsp, " ");
    MapCharAppend(a, b, Nbsp, " ");
    var a2, b2 := MapChar(a1, ZeroWidthSpace, ""), MapChar(b1, ZeroWidthSpace, "");
    MapCharAppend(a1, b1, ZeroWidthSpace, "");
    var a3, b3 := MapChar(a2, NarrowNbsp, " "), MapChar(b2, NarrowNbsp, " ");
    MapCharAppend(a2, b2, NarrowNbsp, " ");
    MapCharAppend(a3, b3, SoftHyphen, "");
  }

  lemma ChainOne(c: char)
    ensures Chain([c]) == NormalizeChar(c)
  {
    MapCharOne(c, Nbsp, " ");
    var a := MapChar([c], Nbsp, " ");
    MapCharOne(c, ZeroWidthSpace, "");
    MapCharOne(' ', ZeroWidthSpace, "");
    var b := MapChar(a, ZeroWidthSpace, "");
    MapCharOne(c, NarrowNbsp, " ");
    MapCharOne(' ', NarrowNbsp, " ");
    assert MapChar([], NarrowNbsp, " ") == [];
    var d := MapChar(b, NarrowNbsp, " ");
    MapCharOne(c, SoftHyphen, "");
    MapCharOne(' ', SoftHyphen, "");
    assert MapChar([], SoftHyphen, "") == [];
  }

  lemma {:induction false} ChainCharwise(s: string)
    ensures Chain(s) == Normalized(s)
  {
    if s != [] {
      ChainCharwise(s[1..]);
      ChainOne(s[0]);
      ChainAppend([s[0]], s[1..]);
      assert [s[0]] + s[1..] == s;
    }
  }

  /** The chain of `replace` calls is the character-wise normalisation. */
  lemma NormalizarIsCharwise(s: string)
    ensures NormalizarEspacios(s) == Normalized(s)
  {
    var a := ReplaceAll(s, [Nbsp], " ");
    ReplaceOneCharIsMap(s, Nbsp, " ");
    var b := ReplaceAll(a, [ZeroWidthSpace], "");
    ReplaceOneCharIsMap(a, ZeroWidthSpace, "");
    var c := ReplaceAll(b, [NarrowNbsp], " ");
    ReplaceOneCharIsMap(b, NarrowNbsp, " ");
    ReplaceOneCharIsMap(c, SoftHyphen, "");
    ChainCharwise(s);
  }

  lemma {:induction false} NormalizedFacts(s: string)
    ensures Clean(Normalized(s))
    ensures |Normalized(s)| <= |s|
    ensures Clean(s) ==> Normalized(s) == s
  {
    if s != [] {
      NormalizedFacts(s[1..]);
      var h, t := NormalizeChar(s[0]), Normalized(s[1..]);
      assert forall i :: 0 <= i < |h| ==> !IsRemapped(h[i]);
      assert forall i :: |h| <= i < |h + t| ==> (h + t)[i] == t[i - |h|];
      if Clean(s) {
        assert !IsRemapped(s[0]) && Clean(s[1..]);
        assert [s[0]] + s[1..] == s;
      }
    }
  }

  /**
   * `normalizar_espacios` leaves none of U+00A0, U+200B, U+202F, U+00AD
   * behind, never lengthens the text, and is idempotent.
   */
  lemma NormalizarEspaciosProperties(s: string)
    ensures Clean(NormalizarEspacios(s))
    ensures |NormalizarEspacios(s)| <= |s|
    ensures NormalizarEspacios(NormalizarEspacios(s)) == NormalizarEspacios(s)
  {
    NormalizarIsCharwise(s);
    NormalizedFacts(s);
    NormalizarIsCharwise(Normalized(s));
    NormalizedFacts(Normalized(s));
  }

  /** The boilerplate of the page's PDF-export dialog. */
  const PdfWidgetPhrase := "\nGenerar PDF Cerrar La generación del PDF puede tardar varios minutos dependiendo de la cantidad de información. Seleccione la información que desee incluir en el PDF: Página actual Apartado actual y subapartados Todo el documento Puede cancelar la generación del PDF en cualquier momento. Cancelar Continuar"

  const JunkPhrases: seq<string> := [PdfWidgetPhrase]

  predicate NonEmptyPhrases(phrases: seq<string>)
  {
    forall i :: 0 <= i < |phrases| ==> |phrases[i]| > 0
  }

  /** Every phrase deleted from `s`, one phrase after the other. */
  function RemoveAll(s: string, phrases: seq<string>): string
    requires NonEmptyPhrases(phrases)
  {
    if phrases == [] then s
    else ReplaceAll(RemoveAll(s, phrases[..|phrases| - 1]), phrases[|phrases| - 1], "")
  }

  /** What `limpiar_pdf_widget` returns. */
  function Cleaned(texto: string): string
  {
    PyStrip(RemoveAll(texto, JunkPhrases))
  }

  /**
   * `limpiar_pdf_widget`: deletes the boilerplate phrases, then strips.  The
   * result has no whitespace at either end, and a text without the phrase is
   * only stripped.
   */
  method LimpiarPdfWidget(texto: string) returns (r: string)
    ensures r == Cleaned(texto)
    ensures r == [] || (!PyIsSpace(r[0]) && !PyIsSpace(r[|r| - 1]))
    ensures !Contains(texto, PdfWidgetPhrase) ==> r == PyStrip(texto)
  {
    var t := texto;
    for i := 0 to |JunkPhrases|
      invariant t == RemoveAll(texto, JunkPhrases[..i])
    {
      assert JunkPhrases[..i + 1][..i] == JunkPhrases[..i];
      t := ReplaceAll(t, JunkPhrases[i], "");
    }
    assert JunkPhrases[..|JunkPhrases|] == JunkPhrases;
    r := PyStrip(t);
    if !Contains(texto, PdfWidgetPhrase) {
      ReplaceAllAbsent(texto, PdfWidgetPhrase, "");
      assert JunkPhrases[..0] == [];
    }
  }

  /**
   * A top-level element of a page: its tag name (`None` for a text node) and
   * its text, extracted with single spaces between pieces and stripped.
   */
  datatype Element = Element(name: Option<string>, text: string)

  predicate IsHeading(e: Element)
  {
    e.name == Some("h2") || e.name == Some("h3")
  }

  /**
   * The text a non-heading element adds to the open section: its normalised
   * text, if named and non-empty.  (Here and below, normalised text is written
   * with `Normalized`, which is `normalizar_espacios` by `NormalizarIsCharwise`.)
   */
  function KeptText(e: Element): Option<string>
  {
    if IsHeading(e) || e.name.None? || e.name.value == [] then None
    else
      var t := Normalized(e.text);
      if t != [] then Some(t) else None
  }

  function KeptTexts(elems: seq<Element>): seq<string>
  {
    if elems == [] then []
    else (match KeptText(elems[0]) case Some(t) => [t] case None => []) + KeptTexts(elems[1..])
  }

  /** A titled section of a page. */
  datatype Section = Section(title: string, content: string)

  /** Non-empty text with no whitespace at either end. */
  predicate Stripped(c: string)
  {
    c != [] && !PyIsSpace(c[0]) && !PyIsSpace(c[|c| - 1])
  }

  /** Closing a section: its texts, newline-joined and cleaned, if anything is left. */
  function Flush(title: string, content: seq<string>): (r: seq<Section>)
    ensures |r| <= 1
    ensures forall i :: 0 <= i < |r| ==> r[i].title == title && Stripped(r[i].content)
  {
    if content == [] then []
    else
      var c := Cleaned(Join(content, "\n"));
      if c == [] then [] else [Section(title, c)]
  }

  /** A section before clean-up: its title and the texts gathered under it. */
  datatype Group = Group(title: string, texts: seq<string>)

  function KeptOf(e: Element): seq<string>
  {
    match KeptText(e) case Some(t) => [t] case None => []
  }

  /**
   * The grouping of a page's elements, given the section already open
   * (titled `title`, holding `content`): a heading closes the open section and
   * opens one titled with its normalised text; any other element adds its
   * kept text to the open section.
   */
  function GroupsFrom(title: string, content: seq<string>, elems: seq<Element>): (r: seq<Group>)
    ensures |r| >= 1 && r[0].title == title
    decreases |elems|
  {
    if elems == [] then [Group(title, content)]
    else if IsHeading(elems[0]) then [Group(title, content)] + GroupsFrom(Normalized(elems[0].text), [], elems[1..])
    else GroupsFrom(title, content + KeptOf(elems[0]), elems[1..])
  }

  const IntroTitle := "Introducción"

  /** The sections that survive clean-up, in order. */
  function SectionsOf(gs: seq<Group>): (r: seq<Section>)
    ensures |r| <= |gs|
    ensures forall i :: 0 <= i < |r| ==> Stripped(r[i].content)
  {
    if gs == [] then [] else Flush(gs[0].title, gs[0].texts) + SectionsOf(gs[1..])
  }

  /** The sections of a page; what comes before the first heading is the introduction. */
  function Sections(elems: seq<Element>): seq<Section>
  {
    SectionsOf(GroupsFrom(IntroTitle, [], elems))
  }

  lemma SectionsOfCons(g: Group, gs: seq<Group>)
    ensures SectionsOf([g] + gs) == Flush(g.title, g.texts) + SectionsOf(gs)
  {
    assert ([g] + gs)[1..] == gs;
  }

  /** A page document's metadata. */
  datatype Metadata = Metadata(ccaa: string, categoria: string, subapartado: string, url: string)

  datatype Document = Document(pageContent: string, metadata: Metadata)

  function Documents(sections: seq<Section>, categoria: string, url: string, ccaa: string): (r: seq<Document>)
    ensures |r| == |sections|
  {
    seq(|sections|, i requires 0 <= i < |sections| =>
      Document(sections[i].content, Metadata(ccaa, categoria, sections[i].title, url)))
  }

  /** Closes the open section: cleans its joined texts and keeps the section if anything is left. */
  method CloseSection(secciones: seq<Section>, title: string, content: seq<string>) returns (r: seq<Section>)
    ensures r == secciones + Flush(title, content)
  {
    r := secciones;
    if content != [] {
      var contenido := LimpiarPdfWidget(Join(content, "\n"));
      if contenido != [] {
        r := r + [Section(title, contenido)];
      }
    }
  }

  /**
   * `extraer_subapartados`: walks the page's elements once, closing the open
   * section at each heading, and makes one document per non-empty section.
   */
  method ExtraerSubapartados(elems: seq<Element>, categoria: string, url: string, ccaa: string)
    returns (docs: seq<Document>)
    ensures docs == Documents(Sections(elems), categoria, url, ccaa)
  {
    var secciones: seq<Section> := [];
    var currentTitle := IntroTitle;
    var currentContent: seq<string> := [];
    for i := 0 to |elems|
      invariant secciones + SectionsOf(GroupsFrom(currentTitle, currentContent, elems[i..])) == Sections(elems)
    {
      var elem := elems[i];
      assert elems[i..][0] == elem && elems[i..][1..] == elems[i + 1..];
      if IsHeading(elem) {
        ghost var later := GroupsFrom(Normalized(elem.text), [], elems[i + 1..]);
        SectionsOfCons(Group(currentTitle, currentContent), later);
        ghost var before, closed := secciones, Flush(currentTitle, currentContent);
        secciones := CloseSection(secciones, currentTitle, currentContent);
        currentContent := [];
        currentTitle := NormalizarEspacios(elem.text);
        NormalizarIsCharwise(elem.text);
        AppendAssoc(before, closed, SectionsOf(later));
      } else {
        ghost var grown := currentContent + KeptOf(elem);
        if elem.name.Some? && elem.name.value != [] {
          var text := NormalizarEspacios(elem.text);
          NormalizarIsCharwise(elem.text);
          if text != [] {
            currentContent := currentContent + [text];
          }
        }
        assert currentContent == grown;
      }
    }
    assert elems[|elems|..] == [];
    SectionsOfCons(Group(currentTitle, currentContent), []);
    assert Flush(currentTitle, currentContent) + [] == Flush(currentTitle, currentContent);
    secciones := CloseSection(secciones, currentTitle, currentContent);
    docs := Documents(secciones, categoria, url, ccaa);
  }

  function HeadingCount(elems: seq<Element>): nat
  {
    if elems == [] then 0 else (if IsHeading(elems[0]) then 1 else 0) + HeadingCount(elems[1..])
  }

  /** There is exactly one group per heading, plus the one open at the start. */
  lemma {:induction false} GroupsCount(title: string, content: seq<string>, elems: seq<Element>)
    ensures |GroupsFrom(title, content, elems)| == HeadingCount(elems) + 1
    decreases |elems|
  {
    if elems != [] {
      if IsHeading(elems[0]) {
        GroupsCount(Normalized(elems[0].text), [], elems[1..]);
      } else {
        GroupsCount(title, content + KeptOf(elems[0]), elems[1..]);
      }
    }
  }

  /**
   * Every group is titled either with the title of the group open at the
   * start or with the normalised text of one of the headings.
   */
  lemma {:induction false} GroupTitles(title: string, content: seq<string>, elems: seq<Element>)
    ensures forall g :: g in GroupsFrom(title, content, elems) ==>
              g.title == title || exists j :: 0 <= j < |elems| && IsHeading(elems[j]) && g.title == Normalized(elems[j].text)
    decreases |elems|
  {
    if elems != [] {
      var rest := elems[1..];
      if IsHeading(elems[0]) {
        var t := Normalized(elems[0].text);
        GroupTitles(t, [], rest);
        forall g | g in GroupsFrom(t, [], rest)
          ensures exists j :: 0 <= j < |elems| && IsHeading(elems[j]) && g.title == Normalized(elems[j].text)
        {
          if g.title == t {
            assert IsHeading(elems[0]);
          } else {
            var j :| 0 <= j < |rest| && IsHeading(rest[j]) && g.title == Normalized(rest[j].text);
            assert rest[j] == elems[1 + j];
          }
        }
      } else {
        GroupTitles(title, content + KeptOf(elems[0]), rest);
        forall g | g in GroupsFrom(title, content + KeptOf(elems[0]), rest) && g.title != title
          ensures exists j :: 0 <= j < |elems| && IsHeading(elems[j]) && g.title == Normalized(elems[j].text)
        {
          var j :| 0 <= j < |rest| && IsHeading(rest[j]) && g.title == Normalized(rest[j].text);
          assert rest[j] == elems[1 + j];
        }
      }
    }
  }

  /** Sections keep the titles of their groups and come out in group order. */
  lemma {:induction false} SectionsOfTitles(gs: seq<Group>)
    ensures forall s :: s in SectionsOf(gs) ==> exists g :: g in gs && s.title == g.title
  {
    if gs != [] {
      SectionsOfTitles(gs[1..]);
      forall s | s in SectionsOf(gs)
        ensures exists g :: g in gs && s.title == g.title
      {
        if s in Flush(gs[0].title, gs[0].texts) {
          assert gs[0] in gs;
        } else {
          var g :| g in gs[1..] && s.title == g.title;
          assert g in gs;
        }
      }
    }
  }

  /**
   * The sections of a page: at most one per heading plus the introduction,
   * each titled "Introducción" or with a heading's normalised text.
   */
  lemma SectionsShape(elems: seq<Element>)
    ensures |Sections(elems)| <= HeadingCount(elems) + 1
    ensures forall s :: s in Sections(elems) ==>
              s.title == IntroTitle
              || exists j :: 0 <= j < |elems| && IsHeading(elems[j]) && s.title == Normalized(elems[j].text)
  {
    GroupsCount(IntroTitle, [], elems);
    GroupTitles(IntroTitle, [], elems);
    SectionsOfTitles(GroupsFrom(IntroTitle, [], elems));
  }

  /** Without headings, everything goes to the open section, in order. */
  lemma {:induction false} NoHeadingsGroup(title: string, content: seq<string>, elems: seq<Element>)
    requires forall j :: 0 <= j < |elems| ==> !IsHeading(elems[j])
    ensures GroupsFrom(title, content, elems) == [Group(title, content + KeptTexts(elems))]
    decreases |elems|
  {
    if elems == [] {
      assert content + [] == content;
    } else {
      NoHeadingsGroup(title, content + KeptOf(elems[0]), elems[1..]);
      assert (content + KeptOf(elems[0])) + KeptTexts(elems[1..]) == content + KeptTexts(elems);
    }
  }

  /** A page without headings is at most one section, the introduction, holding all kept texts. */
  lemma NoHeadings(elems: seq<Element>)
    requires forall j :: 0 <= j < |elems| ==> !IsHeading(elems[j])
    ensures Sections(elems) == Flush(IntroTitle, KeptTexts(elems))
  {
    NoHeadingsFrom(IntroTitle, elems);
  }

  lemma NoHeadingsFrom(title: string, elems: seq<Element>)
    requires forall j :: 0 <= j < |elems| ==> !IsHeading(elems[j])
    ensures SectionsOf(GroupsFrom(title, [], elems)) == Flush(title, KeptTexts(elems))
  {
    NoHeadingsGroup(title, [], elems);
    var kept := KeptTexts(elems);
    assert [] + kept == kept;
    var g := Group(title, kept);
    assert [g][1..] == [];
  }

  /** A heading followed directly by another heading yields no section of its own. */
  lemma AdjacentHeadings(title: string, content: seq<string>, es: seq<Element>)
    requires |es| >= 2 && IsHeading(es[0]) && IsHeading(es[1])
    ensures SectionsOf(GroupsFrom(title, content, es))
            == Flush(title, content) + SectionsOf(GroupsFrom(Normalized(es[1].text), [], es[2..]))
  {
    var t0 := Normalized(es[0].text);
    var later := GroupsFrom(Normalized(es[1].text), [], es[2..]);
    assert es[1..][0] == es[1] && es[1..][1..] == es[2..];
    var reopened := [Group(t0, [])] + later;
    assert GroupsFrom(title, content, es) == [Group(title, content)] + reopened;
    SectionsOfCons(Group(title, content), reopened);
    SectionsOfCons(Group(t0, []), later);
  }

  /**
   * The documents of a page: each has cleaned, non-empty content and the
   * metadata of its page and section.
   */
  lemma PageDocuments(elems: seq<Element>, categoria: string, url: string, ccaa: string)
    ensures var docs := Documents(Sections(elems), categoria, url, ccaa);
            |docs| <= HeadingCount(elems) + 1
            && forall i :: 0 <= i < |docs| ==>
                 Stripped(docs[i].pageContent)
                 && docs[i].metadata.ccaa == ccaa && docs[i].metadata.categoria == categoria
                 && docs[i].metadata.url == url
                 && docs[i].pageContent == Sections(elems)[i].content
                 && docs[i].metadata.subapartado == Sections(elems)[i].title
  {
    SectionsShape(elems);
  }

  predicate IsUpper(c: char) { 'A' <= c <= 'Z' }
  predicate IsLower(c: char) { 'a' <= c <= 'z' }

  /** A letter with an upper- and a lower-case form (ASCII letters only in this model). */
  predicate IsCased(c: char) { IsUpper(c) || IsLower(c) }

  function ToUpper(c: char): char
  {
    if IsLower(c) then (c as int - 32) as char else c
  }

  function ToLower(c: char): char
  {
    if IsUpper(c) then (c as int + 32) as char else c
  }

  /** `str.title()` continued from a point where the previous character was (or was not) cased. */
  function TitleFrom(s: string, prevCased: bool): (r: string)
    ensures |r| == |s|
  {
    if s == [] then []
    else [if prevCased then ToLower(s[0]) else ToUpper(s[0])] + TitleFrom(s[1..], IsCased(s[0]))
  }

  /** `str.title()`: a cased character is upper-cased after an uncased one and lower-cased after a cased one. */
  function TitleCase(s: string): (r: string)
    ensures |r| == |s|
  {
    TitleFrom(s, false)
  }

  lemma {:induction false} TitleFromPointwise(s: string, prevCased: bool, i: nat)
    requires i < |s|
    ensures TitleFrom(s, prevCased)[i]
            == if (if i == 0 then prevCased else IsCased(s[i - 1])) then ToLower(s[i]) else ToUpper(s[i])
  {
    if i > 0 {
      TitleFromPointwise(s[1..], IsCased(s[0]), i - 1);
      if i > 1 {
        assert s[1..][i - 2] == s[i - 1];
      }
    }
  }

  /** Each character of a title-cased text depends only on it and the character before it. */
  lemma TitleCasePointwise(s: string, i: nat)
    requires i < |s|
    ensures TitleCase(s)[i] == if i > 0 && IsCased(s[i - 1]) then ToLower(s[i]) else ToUpper(s[i])
  {
    TitleFromPointwise(s, false, i);
  }

  /** Title-casing a title-cased text changes nothing. */
  lemma {:induction false} TitleFromIdempotent(s: string, prevCased: bool)
    ensures TitleFrom(TitleFrom(s, prevCased), prevCased) == TitleFrom(s, prevCased)
  {
    if s != [] {
      var t := TitleFrom(s, prevCased);
      TitleFromIdempotent(s[1..], IsCased(s[0]));
      assert t[1..] == TitleFrom(s[1..], IsCased(s[0]));
      assert IsCased(t[0]) == IsCased(s[0]);
    }
  }

  const Base := "https://sede.agenciatributaria.gob.es/Sede/ayuda/manuales-videos-folletos/manuales-practicos/irpf-2024-deducciones-autonomicas/"
  const DefaultSlug := "comunitat-valenciana"

  /** The page listing a region's deductions. */
  function IndexUrl(slug: string): string
  {
    Base + slug + ".html"
  }

  /** The region's display name: the slug with hyphens as spaces, title-cased. */
  function RegionName(slug: string): string
  {
    TitleCase(ReplaceAll(slug, "-", " "))
  }

  lemma {:induction false} MapCharSameLength(s: string, c: char, rep: string)
    requires |rep| == 1 && c !in rep
    ensures |MapChar(s, c, rep)| == |s| && c !in MapChar(s, c, rep)
  {
    if s != [] {
      MapCharSameLength(s[1..], c, rep);
    }
  }

  /** The region name is as long as the slug and has no hyphen left. */
  lemma RegionNameFacts(slug: string)
    ensures |RegionName(slug)| == |slug|
    ensures '-' !in RegionName(slug)
  {
    ReplaceOneCharIsMap(slug, '-', " ");
    MapCharSameLength(slug, '-', " ");
    var spaced := ReplaceAll(slug, "-", " ");
    forall i | 0 <= i < |spaced|
      ensures RegionName(slug)[i] != '-'
    {
      TitleCasePointwise(spaced, i);
      assert spaced[i] != '-';
    }
  }

  lemma {:induction false} MapCharAbsent(s: string, c: char, rep: string)
    requires c !in s
    ensures MapChar(s, c, rep) == s
  {
    if s != [] {
      MapCharAbsent(s[1..], c, rep);
    }
  }

  /** Two hyphen-free words joined by a hyphen read as the words joined by a space. */
  lemma HyphenToSpace(a: string, b: string)
    requires '-' !in a && '-' !in b
    ensures ReplaceAll(a + "-" + b, "-", " ") == a + " " + b
  {
    ReplaceOneCharIsMap(a + "-" + b, '-', " ");
    MapCharAppend(a + "-", b, '-', " ");
    MapCharAppend(a, "-", '-', " ");
    MapCharOne('-', '-', " ");
    MapCharAbsent(a, '-', " ");
    MapCharAbsent(b, '-', " ");
  }

  /** Whether the character before what follows `a` is cased. */
  function CasedAfter(a: string, prevCased: bool): bool
  {
    if a == [] then prevCased else IsCased(a[|a| - 1])
  }

  /** Title-casing a concatenation continues from the last character of the first part. */
  lemma {:induction false} TitleFromAppend(a: string, b: string, prevCased: bool)
    ensures TitleFrom(a + b, prevCased) == TitleFrom(a, prevCased) + TitleFrom(b, CasedAfter(a, prevCased))
    decreases |a|
  {
    if a == [] {
      assert a + b == b;
    } else {
      var c := if prevCased then ToLower(a[0]) else ToUpper(a[0]);
      var q := CasedAfter(a, prevCased);
      TitleFromAppend(a[1..], b, IsCased(a[0]));
      assert CasedAfter(a[1..], IsCased(a[0])) == q by {
        if a[1..] != [] {
          assert a[1..][|a[1..]| - 1] == a[|a| - 1];
        }
      }
      assert (a + b)[0] == a[0] && (a + b)[1..] == a[1..] + b;
      assert TitleFrom(a + b, prevCased) == [c] + TitleFrom(a[1..] + b, IsCased(a[0]));
      AppendAssoc([c], TitleFrom(a[1..], IsCased(a[0])), TitleFrom(b, q));
    }
  }

  /** After a cased character, a run of lower-case letters stays as it is. */
  lemma {:induction false} TitleLowerRun(w: string)
    requires forall k :: 0 <= k < |w| ==> IsLower(w[k])
    ensures TitleFrom(w, true) == w
  {
    if w != [] {
      TitleLowerRun(w[1..]);
    }
  }

  /** A lower-case word title-cased on its own has its first letter capitalised. */
  lemma TitleWord(w: string)
    requires w != [] && forall k :: 0 <= k < |w| ==> IsLower(w[k])
    ensures TitleFrom(w, false) == [ToUpper(w[0])] + w[1..]
  {
    TitleLowerRun(w[1..]);
  }

  /** A word and a space title-case to the word's title case and the space. */
  lemma TitleWordSpace(a: string)
    requires a != [] && IsCased(a[|a| - 1])
    ensures TitleFrom(a + " ", false) == TitleFrom(a, false) + " " && CasedAfter(a + " ", false) == false
  {
    TitleFromAppend(a, " ", false);
    assert TitleFrom(" ", true) == " ";
    assert (a + " ")[|a + " "| - 1] == ' ';
  }

  /** Two lower-case words with a space between them are title-cased by capitalising each. */
  lemma TitleTwoWords(a: string, b: string)
    requires a != [] && forall k :: 0 <= k < |a| ==> IsLower(a[k])
    requires b != [] && forall k :: 0 <= k < |b| ==> IsLower(b[k])
    ensures TitleCase(a + " " + b) == [ToUpper(a[0])] + a[1..] + " " + [ToUpper(b[0])] + b[1..]
  {
    TitleFromAppend(a + " ", b, false);
    TitleWordSpace(a);
    TitleWord(a);
    TitleWord(b);
  }

  lemma TitleOfDefault()
    ensures TitleCase("comunitat valenciana") == "Comunitat Valenciana"
  {
    var a, b := "comunitat", "valenciana";
    assert a + " " + b == "comunitat valenciana";
    TitleTwoWords(a, b);
    assert [ToUpper(a[0])] + a[1..] + " " + [ToUpper(b[0])] + b[1..] == "Comunitat Valenciana";
  }

  /** The default slug names "Comunitat Valenciana". */
  lemma DefaultRegionName()
    ensures RegionName(DefaultSlug) == "Comunitat Valenciana"
  {
    var a, b := "comunitat", "valenciana";
    assert DefaultSlug == a + "-" + b;
    assert a + " " + b == "comunitat valenciana";
    HyphenToSpace(a, b);
    TitleOfDefault();
  }

  /** The loader of one region's deduction pages. */
  class HaciendaLoader
  {
    const indexUrl: string
    const ccaa: string

    constructor(ccaaSlug: string)
      ensures indexUrl == IndexUrl(ccaaSlug) && ccaa == RegionName(ccaaSlug)
    {
      indexUrl := IndexUrl(ccaaSlug);
      ccaa := RegionName(ccaaSlug);
    }
  }
}
