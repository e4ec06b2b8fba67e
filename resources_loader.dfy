/**
 * The resource loader of js/resources-loader.js: the `##`-chunk markdown
 * reader, the loop over the eight category documents and the card renderer.
 */
module ResourcesLoader {
  import opened Wrappers
  import opened Sequences
  import opened JsStrings
  import opened LinePatterns
  import opened Levels
  import opened Page

  /** A resource record as the loader builds it. */
  datatype Resource = Resource(
    title: string,
    url: string,
    description: string,
    category: string,
    subcategory: string,
    level: Level,
    tags: seq<string>)

  /** Why the reader throws: no chunk survives, or a chunk has no non-blank line to be its title. */
  datatype ParseError = NoSections | UntitledSection

  /** `s.trim().length > 0`, the filter on chunks and on lines. */
  predicate NonBlank(s: string) {
    |Trim(s)| > 0
  }

  /** The category tag: the lowercase category with each whitespace run replaced by `-`. */
  function CategoryTag(category: string): (tag: string)
    ensures NoWhitespace(tag)
  {
    HyphenateWhitespace(ToLower(category))
  }

  /** A line that yields a resource: it starts with `- [` and both the title and the URL pattern match. */
  predicate IsResourceLine(line: string) {
    StartsWith(line, "- [") && TitleMatch(line).Some? && UrlMatch(line).Some?
  }

  /** The description group, or `""` when the `) - …` pattern does not match. */
  function DescriptionOf(line: string): string {
    match DescriptionMatch(line)
    case Some(d) => d
    case None => ""
  }

  /** The record a resource line yields. */
  function Entry(line: string, category: string, subcategory: string, level: Level): Resource
    requires IsResourceLine(line)
  {
    Resource(TitleMatch(line).value, UrlMatch(line).value, DescriptionOf(line),
             category, subcategory, level, [Name(level), CategoryTag(category)])
  }

  /** A record carries the category it was read under, and exactly its level and category tag as tags. */
  predicate Tagged(res: Resource, category: string) {
    res.category == category && res.tags == [Name(res.level), CategoryTag(category)]
  }

  /** No line is a `### ` subsection heading. */
  predicate NoSubheadings(lines: seq<string>) {
    forall k | 0 <= k < |lines| :: !StartsWith(lines[k], "### ")
  }

  /**
   * The body lines of one chunk, read in order: a `### ` line sets the
   * subsection, a resource line yields a record, any other line is skipped.
   */
  function LineResources(lines: seq<string>, subcategory: string, level: Level, category: string): seq<Resource>
    decreases |lines|
  {
    if lines == [] then []
    else
      var line, rest := lines[0], lines[1..];
      if StartsWith(line, "### ") then
        LineResources(rest, Trim(ReplaceFirst(line, "### ", "")), level, category)
      else if IsResourceLine(line) then
        [Entry(line, category, subcategory, level)] + LineResources(rest, subcategory, level, category)
      else
        LineResources(rest, subcategory, level, category)
  }

  /** One step of the line loop. */
  lemma LineStep(lines: seq<string>, subcategory: string, level: Level, category: string)
    requires lines != []
    ensures var line, rest := lines[0], lines[1..];
      LineResources(lines, subcategory, level, category) ==
        if StartsWith(line, "### ") then LineResources(rest, Trim(ReplaceFirst(line, "### ", "")), level, category)
        else if IsResourceLine(line) then
          [Resource(TitleMatch(line).value, UrlMatch(line).value, DescriptionOf(line), category, subcategory, level,
                    [Name(level), CategoryTag(category)])] + LineResources(rest, subcategory, level, category)
        else LineResources(rest, subcategory, level, category)
  {
  }

  /** Every record carries `level`, and `category` with its two tags. */
  predicate AllTagged(rs: seq<Resource>, category: string, level: Level) {
    forall k | 0 <= k < |rs| :: Tagged(rs[k], category) && rs[k].level == level
  }

  /** A tagged record pushed in front of tagged records. */
  lemma AllTaggedCons(e: Resource, t: seq<Resource>, category: string, level: Level)
    requires Tagged(e, category) && e.level == level && AllTagged(t, category, level)
    ensures AllTagged([e] + t, category, level)
  {
    forall k | 0 <= k < |[e] + t| ensures Tagged(([e] + t)[k], category) && ([e] + t)[k].level == level {
      if k > 0 { assert ([e] + t)[k] == t[k - 1]; }
    }
  }

  /** Every record read from body lines carries the level and the category with its two tags. */
  lemma {:induction false} LinesTagged(lines: seq<string>, subcategory: string, level: Level, category: string)
    ensures AllTagged(LineResources(lines, subcategory, level, category), category, level)
    decreases |lines|
  {
    if lines != [] {
      var line, rest := lines[0], lines[1..];
      if StartsWith(line, "### ") {
        var sub := Trim(ReplaceFirst(line, "### ", ""));
        assert LineResources(lines, subcategory, level, category) == LineResources(rest, sub, level, category);
        LinesTagged(rest, sub, level, category);
      } else if IsResourceLine(line) {
        var e, t := Entry(line, category, subcategory, level), LineResources(rest, subcategory, level, category);
        assert LineResources(lines, subcategory, level, category) == [e] + t;
        LinesTagged(rest, subcategory, level, category);
        AllTaggedCons(e, t, category, level);
      } else {
        assert LineResources(lines, subcategory, level, category) == LineResources(rest, subcategory, level, category);
        LinesTagged(rest, subcategory, level, category);
      }
    }
  }

  /** A record is the one a resource line yields under `subcategory`. */
  function IsEntryOf(subcategory: string, level: Level, category: string): (Resource, string) -> bool {
    (r: Resource, line: string) => IsResourceLine(line) && r == Entry(line, category, subcategory, level)
  }

  /** `r` holds one record per resource line of `rl`, in order, each under `subcategory`. */
  predicate EntriesOf(r: seq<Resource>, rl: seq<string>, subcategory: string, level: Level, category: string) {
    Pointwise(r, rl, IsEntryOf(subcategory, level, category))
  }

  /** The lines after the first have no `### ` heading when none of the lines has. */
  lemma NoSubheadingsTail(lines: seq<string>)
    requires lines != [] && NoSubheadings(lines)
    ensures NoSubheadings(lines[1..]) && !StartsWith(lines[0], "### ")
  {
    forall k | 0 <= k < |lines| - 1 ensures !StartsWith(lines[1..][k], "### ") {
      assert lines[1..][k] == lines[k + 1];
    }
  }

  /**
   * Without `### ` lines, body lines yield exactly one record per resource
   * line, in line order, each under the given subcategory.
   */
  lemma {:induction false} LinesInOrder(lines: seq<string>, subcategory: string, level: Level, category: string)
    requires NoSubheadings(lines)
    ensures EntriesOf(LineResources(lines, subcategory, level, category), Filter(lines, IsResourceLine), subcategory, level, category)
    decreases |lines|
  {
    if lines != [] {
      var line, rest := lines[0], lines[1..];
      NoSubheadingsTail(lines);
      LinesInOrder(rest, subcategory, level, category);
      var t, tl := LineResources(rest, subcategory, level, category), Filter(rest, IsResourceLine);
      if IsResourceLine(line) {
        var e := Entry(line, category, subcategory, level);
        assert LineResources(lines, subcategory, level, category) == [e] + t;
        assert Filter(lines, IsResourceLine) == [line] + tl;
        PointwiseCons(e, line, t, tl, IsEntryOf(subcategory, level, category));
      } else {
        assert LineResources(lines, subcategory, level, category) == t;
        assert Filter(lines, IsResourceLine) == tl;
      }
    }
  }

  /** The non-blank lines of a chunk. */
  function ChunkLines(chunk: string): seq<string> {
    Filter(Split(chunk, "\n"), NonBlank)
  }

  /** A `### ` line contains `##`. */
  lemma SubheadingHasMarker(line: string)
    requires StartsWith(line, "### ")
    ensures Contains(line, "##")
  {
    assert line[0..2] == "##";
    ContainsAt(line, "##", 0);
  }

  /** A chunk without `##` has no `### ` line. */
  lemma ChunkHasNoSubheadings(chunk: string)
    requires !Contains(chunk, "##")
    ensures NoSubheadings(ChunkLines(chunk))
  {
    var parts, lines := Split(chunk, "\n"), ChunkLines(chunk);
    forall k | 0 <= k < |lines| ensures !StartsWith(lines[k], "### ") {
      if StartsWith(lines[k], "### ") {
        SubheadingHasMarker(lines[k]);
        assert lines[k] in parts;
        var j :| 0 <= j < |parts| && parts[j] == lines[k];
        JoinContainsPart(parts, "\n", j, "##");
      }
    }
  }

  /**
   * One chunk: its first non-blank line, trimmed, is the section title that
   * sets the level; the rest are read with an empty subsection. A chunk
   * without a non-blank line makes the reader throw.
   */
  function SectionResources(chunk: string, category: string): (r: Result<seq<Resource>, ParseError>)
    ensures r.Err? <==> ChunkLines(chunk) == []
    ensures r.Err? ==> r.error == UntitledSection
  {
    var lines := ChunkLines(chunk);
    if lines == [] then Err(UntitledSection)
    else Ok(LineResources(lines[1..], "", LevelOf(Trim(lines[0])), category))
  }

  /**
   * A chunk's records all carry the level its title announces and the
   * category with its two tags; a chunk without `##` gives them no subcategory.
   */
  lemma SectionRecords(chunk: string, category: string)
    requires SectionResources(chunk, category).Ok?
    ensures AllTagged(SectionResources(chunk, category).value, category, LevelOf(Trim(ChunkLines(chunk)[0])))
    ensures !Contains(chunk, "##") ==> NoSubcategory(SectionResources(chunk, category).value)
  {
    var lines := ChunkLines(chunk);
    var body, level := lines[1..], LevelOf(Trim(lines[0]));
    LinesTagged(body, "", level, category);
    if !Contains(chunk, "##") {
      ChunkHasNoSubheadings(chunk);
      assert NoSubheadings(body) by {
        forall k | 0 <= k < |body| ensures !StartsWith(body[k], "### ") { assert body[k] == lines[k + 1]; }
      }
      LinesInOrder(body, "", level, category);
      EntriesHaveNoSubcategory(SectionResources(chunk, category).value, Filter(body, IsResourceLine), level, category);
    }
  }

  /** Records read under an empty subsection have no subcategory. */
  lemma EntriesHaveNoSubcategory(r: seq<Resource>, rl: seq<string>, level: Level, category: string)
    requires EntriesOf(r, rl, "", level, category)
    ensures NoSubcategory(r)
  {
    forall k | 0 <= k < |r| ensures r[k].subcategory == "" {
      assert IsEntryOf("", level, category)(r[k], rl[k]);
      assert IsResourceLine(rl[k]) && r[k] == Entry(rl[k], category, "", level);
    }
  }

  /** No record has a subcategory. */
  predicate NoSubcategory(rs: seq<Resource>) {
    forall k | 0 <= k < |rs| :: rs[k].subcategory == ""
  }

  /** Every chunk has a non-blank line to serve as its title. */
  predicate AllTitled(chunks: seq<string>) {
    forall i | 0 <= i < |chunks| :: ChunkLines(chunks[i]) != []
  }

  /** The chunks in order, concatenating their records; the first chunk that throws ends the run. */
  function SectionsResources(chunks: seq<string>, category: string): (r: Result<seq<Resource>, ParseError>)
    ensures r.Err? ==> r.error == UntitledSection
    decreases |chunks|
  {
    if chunks == [] then Ok([])
    else
      var head, tail := SectionResources(chunks[0], category), SectionsResources(chunks[1..], category);
      if head.Err? then head
      else if tail.Err? then tail
      else Ok(head.value + tail.value)
  }

  /** The chunks are read without error exactly when each has a title line. */
  lemma {:induction false} SectionsOkIffTitled(chunks: seq<string>, category: string)
    ensures SectionsResources(chunks, category).Ok? <==> AllTitled(chunks)
    decreases |chunks|
  {
    if chunks != [] {
      SectionsOkIffTitled(chunks[1..], category);
      if AllTitled(chunks) {
        forall i | 0 <= i < |chunks| - 1 ensures ChunkLines(chunks[1..][i]) != [] {
          assert chunks[1..][i] == chunks[i + 1];
        }
      } else {
        var i :| 0 <= i < |chunks| && ChunkLines(chunks[i]) == [];
        if i > 0 {
          assert chunks[1..][i - 1] == chunks[i];
        }
      }
    }
  }

  /** Every record carries `category` with its two tags. */
  predicate AllUnder(rs: seq<Resource>, category: string) {
    forall k | 0 <= k < |rs| :: Tagged(rs[k], category)
  }

  lemma AllUnderConcat(a: seq<Resource>, b: seq<Resource>, category: string)
    requires AllUnder(a, category) && AllUnder(b, category)
    ensures AllUnder(a + b, category)
  {
    forall k | 0 <= k < |a + b| ensures Tagged((a + b)[k], category) {
      if k >= |a| { assert (a + b)[k] == b[k - |a|]; }
    }
  }

  /** Every record read from the chunks carries the category and its two tags. */
  lemma {:induction false} SectionsTagged(chunks: seq<string>, category: string)
    requires SectionsResources(chunks, category).Ok?
    ensures AllUnder(SectionsResources(chunks, category).value, category)
    decreases |chunks|
  {
    if chunks != [] {
      var h, t := SectionResources(chunks[0], category), SectionsResources(chunks[1..], category);
      assert h.Ok? && t.Ok? && SectionsResources(chunks, category).value == h.value + t.value;
      assert AllUnder(h.value, category) by {
        SectionRecords(chunks[0], category);
      }
      SectionsTagged(chunks[1..], category);
      AllUnderConcat(h.value, t.value, category);
    }
  }

  /** No chunk contains `##`. */
  predicate NoMarkers(chunks: seq<string>) {
    forall i | 0 <= i < |chunks| :: !Contains(chunks[i], "##")
  }

  /** Chunks without `##` yield only records with an empty subcategory. */
  lemma {:induction false} SectionsWithoutSubcategory(chunks: seq<string>, category: string)
    requires SectionsResources(chunks, category).Ok?
    requires NoMarkers(chunks)
    ensures NoSubcategory(SectionsResources(chunks, category).value)
    decreases |chunks|
  {
    if chunks != [] {
      var h, t := SectionResources(chunks[0], category), SectionsResources(chunks[1..], category);
      assert h.Ok? && t.Ok? && SectionsResources(chunks, category).value == h.value + t.value;
      assert NoSubcategory(h.value) by {
        assert !Contains(chunks[0], "##");
        SectionRecords(chunks[0], category);
      }
      NoMarkersTail(chunks);
      SectionsWithoutSubcategory(chunks[1..], category);
      NoSubcategoryConcat(h.value, t.value);
    }
  }

  /** The chunks after the first have no `##` when none of the chunks has. */
  lemma NoMarkersTail(chunks: seq<string>)
    requires chunks != [] && NoMarkers(chunks)
    ensures NoMarkers(chunks[1..])
  {
    var rest := chunks[1..];
    forall i | 0 <= i < |rest| ensures !Contains(rest[i], "##") {
      var j := i + 1;
      assert !Contains(chunks[j], "##");
      assert rest[i] == chunks[j];
    }
  }

  /** Two lists without subcategories, concatenated. */
  lemma NoSubcategoryConcat(a: seq<Resource>, b: seq<Resource>)
    requires NoSubcategory(a) && NoSubcategory(b)
    ensures NoSubcategory(a + b)
  {
    forall k | 0 <= k < |a + b| ensures (a + b)[k].subcategory == "" {
      if k < |a| {
        assert (a + b)[k] == a[k];
      } else {
        assert (a + b)[k] == b[k - |a|];
      }
    }
  }

  /** The chunks that survive the split on `##`: those that are not blank. */
  function Chunks(markdown: string): seq<string> {
    Filter(Split(markdown, "##"), NonBlank)
  }

  /** The main category: the first line of a first chunk starting with `# `, minus that marker, trimmed. */
  function MainCategory(first: string): string {
    if StartsWith(first, "# ") then Trim(ReplaceFirst(Split(first, "\n")[0], "# ", "")) else ""
  }

  /** The first chunk with its `# ` title line removed, when it has one. */
  function WithoutTitle(first: string): (r: string)
    ensures !Contains(first, "##") ==> !Contains(r, "##")
  {
    if StartsWith(first, "# ") then
      var lines := Split(first, "\n");
      var rest := Join(lines[1..], "\n");
      assert Contains(rest, "##") ==> Contains(first, "##") by {
        if |lines| > 1 && Contains(rest, "##") {
          assert first == (lines[0] + "\n") + rest;
          ContainsInConcat(lines[0] + "\n", rest, "##");
        }
      }
      rest
    else first
  }

  /** A result with `prefix` in front of its records; an error passes through. */
  function Prepend(prefix: seq<Resource>, r: Result<seq<Resource>, ParseError>): Result<seq<Resource>, ParseError> {
    match r
    case Ok(rs) => Ok(prefix + rs)
    case Err(e) => Err(e)
  }

  /**
   * What `parseMarkdown` returns or throws: nothing for a missing or empty
   * document, `NoSections` when every chunk is blank, otherwise the chunks
   * (the first without its title line) read in order under the main category.
   */
  function MarkdownResources(markdown: Option<string>): (r: Result<seq<Resource>, ParseError>)
    ensures markdown == None || markdown == Some("") ==> r == Ok([])
    ensures r == Err(NoSections) <==> markdown.Some? && markdown.value != "" && Chunks(markdown.value) == []
  {
    if markdown.None? || markdown.value == "" then Ok([])
    else
      var chunks := Chunks(markdown.value);
      if chunks == [] then Err(NoSections)
      else SectionsResources(chunks[0 := WithoutTitle(chunks[0])], MainCategory(chunks[0]))
  }

  /** A document with a chunk is read as its chunks, the first without its title line, under the main category. */
  lemma MarkdownSections(markdown: string)
    requires markdown != "" && Chunks(markdown) != []
    ensures var chunks := Chunks(markdown);
      MarkdownResources(Some(markdown)) == SectionsResources(chunks[0 := WithoutTitle(chunks[0])], MainCategory(chunks[0]))
  {
  }

  /** An empty document has no chunks. */
  lemma NoChunksInEmpty()
    ensures Chunks("") == []
  {
    SplitNone("", "##");
    assert !NonBlank("");
  }

  /** Removing the `# ` title line of a chunk leaves the lines after it. */
  lemma TitleRemoved(t: string, w: string)
    requires '\n' !in t
    ensures WithoutTitle("# " + t + "\n" + w) == w
  {
    var first := "# " + t + "\n" + w;
    assert first[..2] == "# ";
    assert first == ("# " + t) + "\n" + w;
    SplitAfter("# " + t, "\n", w);
  }

  /** A chunk of blank lines has no title line for its section. */
  lemma BlankChunkUntitled(w: string, category: string)
    requires IsBlank(w)
    ensures SectionResources(w, category) == Err(UntitledSection)
  {
    var parts := Split(w, "\n");
    JoinBlankParts(parts, "\n");
    FilterDropsAll(parts, NonBlank);
  }

  /**
   * A first chunk holding only its `# ` title line and blank lines (a title
   * followed by `##` after an empty line) has no title line left for its
   * section once the title is removed: the reader throws, and that category
   * contributes no records.
   */
  lemma TitleOnlyFirstChunk(markdown: string, t: string, w: string, docs: Documents, category: string)
    requires Chunks(markdown) != [] && Chunks(markdown)[0] == "# " + t + "\n" + w
    requires '\n' !in t && IsBlank(w)
    ensures MarkdownResources(Some(markdown)) == Err(UntitledSection)
    ensures Fetch(docs, CategoryPath(category)) == Some(markdown) ==> CategoryResources(docs, category) == []
  {
    NoChunksInEmpty();
    var chunks := Chunks(markdown);
    MarkdownSections(markdown);
    TitleRemoved(t, w);
    BlankChunkUntitled(w, MainCategory(chunks[0]));
    assert chunks[0 := w][0] == w;
  }

  /**
   * The reader as evidently intended: a chunk without a title line is
   * skipped instead of throwing, so the records of the other chunks survive.
   */
  function TitledSections(chunks: seq<string>, category: string): seq<Resource>
    decreases |chunks|
  {
    if chunks == [] then []
    else
      var head := SectionResources(chunks[0], category);
      (if head.Ok? then head.value else []) + TitledSections(chunks[1..], category)
  }

  /** `parseMarkdown` with untitled chunks skipped; it throws only for a document of blank chunks. */
  function IntendedMarkdownResources(markdown: Option<string>): (r: Result<seq<Resource>, ParseError>)
    ensures r.Err? <==> MarkdownResources(markdown) == Err(NoSections)
    ensures r.Err? ==> r.error == NoSections
  {
    if markdown.None? || markdown.value == "" then Ok([])
    else
      var chunks := Chunks(markdown.value);
      if chunks == [] then Err(NoSections)
      else Ok(TitledSections(chunks[0 := WithoutTitle(chunks[0])], MainCategory(chunks[0])))
  }

  /** When every chunk has a title line, skipping untitled chunks changes nothing. */
  lemma {:induction false} TitledSectionsAgree(chunks: seq<string>, category: string)
    requires AllTitled(chunks)
    ensures SectionsResources(chunks, category) == Ok(TitledSections(chunks, category))
    decreases |chunks|
  {
    if chunks != [] {
      assert ChunkLines(chunks[0]) != [];
      assert AllTitled(chunks[1..]) by {
        forall i | 0 <= i < |chunks| - 1 ensures ChunkLines(chunks[1..][i]) != [] {
          assert chunks[1..][i] == chunks[i + 1];
        }
      }
      TitledSectionsAgree(chunks[1..], category);
    }
  }

  /** The intended reader returns what the reader as written returns whenever that does not throw. */
  lemma IntendedAgreesWhenRead(markdown: Option<string>)
    requires MarkdownResources(markdown).Ok?
    ensures IntendedMarkdownResources(markdown) == MarkdownResources(markdown)
  {
    if markdown.Some? && markdown.value != "" && Chunks(markdown.value) != [] {
      var chunks := Chunks(markdown.value);
      var first := chunks[0 := WithoutTitle(chunks[0])];
      SectionsOkIffTitled(first, MainCategory(chunks[0]));
      TitledSectionsAgree(first, MainCategory(chunks[0]));
    }
  }

  /**
   * With the intended reader, a first chunk holding only its `# ` title line
   * and blank lines is skipped: the document yields the records of its other
   * chunks, under the main category the title names.
   */
  lemma TitleOnlyFirstChunkIntended(markdown: string, t: string, w: string)
    requires Chunks(markdown) != [] && Chunks(markdown)[0] == "# " + t + "\n" + w
    requires '\n' !in t && IsBlank(w)
    ensures IntendedMarkdownResources(Some(markdown))
      == Ok(TitledSections(Chunks(markdown)[1..], MainCategory(Chunks(markdown)[0])))
  {
    NoChunksInEmpty();
    var chunks := Chunks(markdown);
    var category := MainCategory(chunks[0]);
    IntendedSections(markdown);
    TitleRemoved(t, w);
    BlankChunkUntitled(w, category);
    var read := chunks[0 := w];
    assert read[1..] == chunks[1..];
    SkipUntitledHead(read, category);
  }

  /** The intended reader on a document with a chunk. */
  lemma IntendedSections(markdown: string)
    requires markdown != "" && Chunks(markdown) != []
    ensures var chunks := Chunks(markdown);
      IntendedMarkdownResources(Some(markdown))
        == Ok(TitledSections(chunks[0 := WithoutTitle(chunks[0])], MainCategory(chunks[0])))
  {
  }

  /** The intended reader skips a first chunk that has no title line. */
  lemma SkipUntitledHead(chunks: seq<string>, category: string)
    requires chunks != [] && SectionResources(chunks[0], category).Err?
    ensures TitledSections(chunks, category) == TitledSections(chunks[1..], category)
  {
  }

  /** A first chunk without a `# ` title line keeps all its lines and names no main category. */
  lemma Untitled(first: string)
    requires !StartsWith(first, "# ")
    ensures WithoutTitle(first) == first && MainCategory(first) == ""
  {
  }

  /** No chunk of a document contains `##`, the separator it was split on. */
  lemma ChunksHaveNoMarkers(markdown: string)
    ensures NoMarkers(Chunks(markdown))
  {
    var parts, chunks := Split(markdown, "##"), Chunks(markdown);
    forall i | 0 <= i < |chunks| ensures !Contains(chunks[i], "##") {
      assert chunks[i] in parts;
    }
  }

  /**
   * Every record `parseMarkdown` returns has an empty subcategory, the
   * document's main category, and exactly its level and category tag as tags.
   */
  lemma MarkdownRecords(markdown: string)
    requires MarkdownResources(Some(markdown)).Ok?
    ensures var rs := MarkdownResources(Some(markdown)).value;
      NoSubcategory(rs) && (rs != [] ==> Chunks(markdown) != [] && AllUnder(rs, MainCategory(Chunks(markdown)[0])))
  {
    if markdown != "" {
      var chunks := Chunks(markdown);
      var sections, category := chunks[0 := WithoutTitle(chunks[0])], MainCategory(chunks[0]);
      MarkdownSections(markdown);
      ChunksHaveNoMarkers(markdown);
      assert NoMarkers(sections) by {
        forall i | 0 <= i < |sections| ensures !Contains(sections[i], "##") {
          assert !Contains(chunks[i], "##");
          if i > 0 {
            assert sections[i] == chunks[i];
          }
        }
      }
      SectionsWithoutSubcategory(sections, category);
      SectionsTagged(sections, category);
    }
  }

  /**
   * The inner `forEach` of `parseMarkdown`: reads the body lines of a chunk,
   * pushing one record per resource line onto `resources`.
   */
  method ReadSectionLines(resources: seq<Resource>, body: seq<string>, sectionTitle: string, mainCategory: string)
    returns (pushed: seq<Resource>)
    ensures pushed == resources + LineResources(body, "", LevelOf(sectionTitle), mainCategory)
  {
    ghost var level0 := LevelOf(sectionTitle);
    var currentSubsection := "";
    pushed := resources;
    assert body[0..] == body;
    for i := 0 to |body|
      invariant pushed + LineResources(body[i..], currentSubsection, level0, mainCategory)
        == resources + LineResources(body, "", level0, mainCategory)
    {
      var line := body[i];
      LineStep(body[i..], currentSubsection, level0, mainCategory);
      assert body[i..][0] == line && body[i..][1..] == body[i + 1..];
      if StartsWith(line, "### ") {
        currentSubsection := Trim(ReplaceFirst(line, "### ", ""));
      } else if StartsWith(line, "- [") {
        var titleMatch, urlMatch, descriptionMatch := TitleMatch(line), UrlMatch(line), DescriptionMatch(line);
        if titleMatch.Some? && urlMatch.Some? {
          var description := if descriptionMatch.Some? then descriptionMatch.value else "";
          var level := LevelOf(sectionTitle);
          var resource := Resource(titleMatch.value, urlMatch.value, description,
                                   mainCategory, currentSubsection, level,
                                   [Name(level), CategoryTag(mainCategory)]);
          assert IsResourceLine(line) && description == DescriptionOf(line);
          ghost var rest := LineResources(body[i + 1..], currentSubsection, level0, mainCategory);
          ConcatAssoc(pushed, [resource], rest);
          pushed := pushed + [resource];
        }
      }
    }
    assert body[|body|..] == [];
  }

  /**
   * The `forEach` callback of `parseMarkdown` for one chunk: pushes the
   * chunk's records onto `resources`, or throws for a chunk without a title line.
   */
  method ReadSection(resources: seq<Resource>, section: string, mainCategory: string)
    returns (r: Result<seq<Resource>, ParseError>)
    ensures r == Prepend(resources, SectionResources(section, mainCategory))
  {
    var lines := Filter(Split(section, "\n"), NonBlank);
    if lines == [] {
      return Err(UntitledSection);
    }
    var sectionTitle := Trim(lines[0]);
    var pushed := ReadSectionLines(resources, lines[1..], sectionTitle, mainCategory);
    assert lines == ChunkLines(section);
    return Ok(pushed);
  }

  lemma PrependNothing(r: Result<seq<Resource>, ParseError>)
    ensures Prepend([], r) == r
  {
    if r.Ok? { assert [] + r.value == r.value; }
  }

  lemma NoMoreSections(prefix: seq<Resource>, chunks: seq<string>, category: string)
    requires chunks == []
    ensures Prepend(prefix, SectionsResources(chunks, category)) == Ok(prefix)
  {
    assert prefix + [] == prefix;
  }

  /** One step of the chunk loop. */
  lemma SectionsStep(prefix: seq<Resource>, chunks: seq<string>, category: string)
    requires chunks != []
    ensures var h := SectionResources(chunks[0], category);
      h.Err? ==> Prepend(prefix, SectionsResources(chunks, category)) == h
    ensures var h := SectionResources(chunks[0], category);
      h.Ok? ==> Prepend(prefix, SectionsResources(chunks, category)) == Prepend(prefix + h.value, SectionsResources(chunks[1..], category))
  {
    var h, t := SectionResources(chunks[0], category), SectionsResources(chunks[1..], category);
    if h.Ok? && t.Ok? {
      ConcatAssoc(prefix, h.value, t.value);
    }
  }

  /** The `sections.forEach` loop of `parseMarkdown`, pushing each chunk's records in turn. */
  method ReadSections(sections: seq<string>, mainCategory: string) returns (r: Result<seq<Resource>, ParseError>)
    ensures r == SectionsResources(sections, mainCategory)
  {
    var resources: seq<Resource> := [];
    var s := 0;
    PrependNothing(SectionsResources(sections, mainCategory));
    while s < |sections|
      invariant 0 <= s <= |sections|
      invariant Prepend(resources, SectionsResources(sections[s..], mainCategory)) == SectionsResources(sections, mainCategory)
    {
      ghost var rest := sections[s..];
      assert rest[0] == sections[s] && rest[1..] == sections[s + 1..];
      SectionsStep(resources, rest, mainCategory);
      ghost var h := SectionResources(sections[s], mainCategory);
      var next := ReadSection(resources, sections[s], mainCategory);
      if next.Err? {
        assert h.Err?;
        return next;
      }
      assert h.Ok? && next.value == resources + h.value;
      resources := next.value;
      s := s + 1;
    }
    NoMoreSections(resources, sections[s..], mainCategory);
    r := Ok(resources);
  }

  /** `parseMarkdown`: the empty-input guard, the split into chunks, the title line, then the chunk loop. */
  method ParseMarkdown(markdown: Option<string>) returns (r: Result<seq<Resource>, ParseError>)
    ensures r == MarkdownResources(markdown)
  {
    if markdown.None? || markdown.value == "" {
      return Ok([]);
    }
    var sections := Filter(Split(markdown.value, "##"), NonBlank);
    if sections == [] {
      return Err(NoSections);
    }
    MarkdownSections(markdown.value);
    var mainCategory := "";
    if StartsWith(sections[0], "# ") {
      mainCategory := MainCategory(sections[0]);
      sections := sections[0 := WithoutTitle(sections[0])];
    } else {
      Untitled(sections[0]);
      assert sections == sections[0 := sections[0]];
    }
    r := ReadSections(sections, mainCategory);
  }

  /** The eight category documents `loadAllResources` reads, in this order. */
  const Categories: seq<string> := [
    "fundamentals", "machine-learning", "deep-learning", "nlp",
    "computer-vision", "reinforcement-learning", "ai-ethics", "ai-applications"]

  /** Where a category's document is fetched from. */
  function CategoryPath(category: string): string {
    "resources/" + category + ".md"
  }

  /**
   * `loadResourcesForCategory` inside the `try` of `loadAllResources`: a
   * failed fetch reads as no document (no records), and a reader that throws
   * is caught, so that category contributes nothing.
   */
  function CategoryResources(docs: Documents, category: string): seq<Resource> {
    match MarkdownResources(Fetch(docs, CategoryPath(category)))
    case Ok(rs) => rs
    case Err(_) => []
  }

  /** The per-category loader as a function value. */
  function CategoryLoader(docs: Documents): string -> seq<Resource> {
    category => CategoryResources(docs, category)
  }

  /** The records of the given categories, concatenated in their order. */
  function LoadedFrom(docs: Documents, categories: seq<string>): seq<Resource> {
    FlatMap(categories, CategoryLoader(docs))
  }

  /**
   * A category whose fetch fails or whose document makes the reader throw
   * is skipped: the others are loaded as if it were not in the list.
   */
  lemma FailedCategorySkipped(docs: Documents, a: seq<string>, c: string, b: seq<string>)
    requires CategoryPath(c) !in docs || MarkdownResources(Some(docs[CategoryPath(c)])).Err?
    ensures LoadedFrom(docs, a + [c] + b) == LoadedFrom(docs, a) + LoadedFrom(docs, b)
  {
    var f := CategoryLoader(docs);
    FlatMapConcat(a + [c], b, f);
    FlatMapConcat(a, [c], f);
    assert [c][..0] == [];
    assert FlatMap([c], f) == [] + f(c);
  }

  /**
   * Every loaded record comes from one of the categories whose document
   * was fetched and read without error.
   */
  lemma LoadedProvenance(docs: Documents, categories: seq<string>, k: nat)
    requires k < |LoadedFrom(docs, categories)|
    ensures exists i | 0 <= i < |categories| ::
      CategoryPath(categories[i]) in docs &&
      MarkdownResources(Some(docs[CategoryPath(categories[i])])).Ok? &&
      LoadedFrom(docs, categories)[k] in CategoryResources(docs, categories[i])
  {
    FlatMapMember(categories, CategoryLoader(docs), k);
    var i :| 0 <= i < |categories| && LoadedFrom(docs, categories)[k] in CategoryLoader(docs)(categories[i]);
    assert CategoryResources(docs, categories[i]) != [];
  }

  /** The resource store that `loadAllResources` fills. */
  class ResourceStore {
    var globalResources: seq<Resource>

    constructor ()
      ensures globalResources == []
    {
      globalResources := [];
    }

    /**
     * `loadAllResources`: the eight categories in order, each failure
     * skipped; the concatenation is both stored and returned.
     */
    method LoadAllResources(docs: Documents) returns (all: seq<Resource>)
      modifies this
      ensures all == LoadedFrom(docs, Categories)
      ensures globalResources == all
    {
      var allResources: seq<Resource> := [];
      for i := 0 to |Categories|
        invariant allResources == LoadedFrom(docs, Categories[..i])
      {
        assert Categories[..i + 1][..i] == Categories[..i];
        var category := Categories[i];
        var markdown := Fetch(docs, CategoryPath(category));
        var parsed := ParseMarkdown(markdown);
        if parsed.Ok? {
          allResources := allResources + parsed.value;
        }
      }
      assert Categories[..|Categories|] == Categories;
      globalResources := allResources;
      all := allResources;
    }
  }

  /** The message `renderResourceCards` shows for an empty list. */
  const NoMatchText := "No resources found matching your criteria."

  /**
   * The card for one record: class `resource-card` plus its tags, the image
   * named by the second tag (the placeholder when that is missing or empty),
   * the description falling back to the subcategory.
   */
  function CardFor(r: Resource): Card {
    var imageTag := if |r.tags| > 1 && r.tags[1] != "" then r.tags[1] else "placeholder";
    Card("resource-card " + Join(r.tags, " "),
         "images/" + imageTag + ".jpg",
         r.title,
         if r.description != "" then r.description else r.subcategory,
         r.tags,
         r.url)
  }

  /** What the container holds after `renderResourceCards(resources)`. */
  function Rendered(resources: seq<Resource>): (nodes: seq<Node>)
    ensures resources == [] ==> nodes == [NoResources(NoMatchText)]
    ensures resources != [] ==> |nodes| == |resources|
    ensures resources != [] ==> forall i | 0 <= i < |nodes| :: nodes[i] == CardNode(CardFor(resources[i]))
  {
    if resources == [] then [NoResources(NoMatchText)]
    else seq(|resources|, i requires 0 <= i < |resources| => CardNode(CardFor(resources[i])))
  }

  /** The class list of a card whose first tag is `n` carries `n` as a class. */
  lemma LevelClass(n: string, t: string)
    requires n != "" && ' ' !in n
    ensures HasClass("resource-card " + (n + " " + t), n)
  {
    assert "resource-card " + (n + " " + t) == "resource-card" + " " + (n + " " + t);
    SplitAfter("resource-card", " ", n + " " + t);
    SplitAfter(n, " ", t);
    assert n == Split("resource-card " + (n + " " + t), " ")[1];
  }

  /** The card of a record the reader produced carries the record's level as a class. */
  lemma ParsedCardClass(r: Resource)
    requires Tagged(r, r.category)
    ensures HasClass(CardFor(r).className, Name(r.level))
  {
    var n, t := Name(r.level), CategoryTag(r.category);
    assert Join(r.tags, " ") == n + " " + t by {
      assert r.tags[1..] == [t];
    }
    assert n != "" && ' ' !in n by { match r.level case Beginner => case Intermediate => case Advanced => }
    LevelClass(n, t);
  }

  /**
   * The image of a parsed record's card is named by its category tag, or is
   * the placeholder when that tag is empty.
   */
  lemma ParsedCardImage(r: Resource)
    requires Tagged(r, r.category)
    ensures CardFor(r).image ==
      "images/" + (if CategoryTag(r.category) == "" then "placeholder" else CategoryTag(r.category)) + ".jpg"
  {
  }

  /** A parsed record has no subcategory, so its card shows its own description, even an empty one. */
  lemma ParsedCardDescription(r: Resource)
    requires r.subcategory == ""
    ensures CardFor(r).description == r.description
  {
  }

  /** `renderResourceCards`: clears the container, then appends one card per record, or the message. */
  method RenderResourceCards(resources: seq<Resource>, container: Container)
    modifies container
    ensures container.nodes == Rendered(resources)
  {
    container.nodes := [];
    if |resources| == 0 {
      container.nodes := [NoResources(NoMatchText)];
      return;
    }
    for i := 0 to |resources|
      invariant |container.nodes| == i
      invariant forall k | 0 <= k < i :: container.nodes[k] == CardNode(CardFor(resources[k]))
    {
      container.nodes := container.nodes + [CardNode(CardFor(resources[i]))];
    }
  }
}
