/**
 * The markdown reader of `fix.js` (`parseMarkdownToResources`): one pass over
 * the lines of a category document, in which only `## ` headings change the
 * current section and every resource line yields a listing, in line order.
 */
module FixParser {
  import opened Sequences
  import opened JsStrings
  import opened LinePatterns
  import opened Levels
  import opened ResourcesLoader

  /** One record `parseMarkdownToResources` pushes. */
  datatype Listing = Listing(title: string, url: string, description: string, level: Level, category: string)

  /** A line that names a new section. */
  predicate IsSectionHeading(line: string) {
    StartsWith(line, "## ")
  }

  /** The section a heading line names: the heading marker replaced by nothing, then trimmed. */
  function SectionName(line: string): (r: string)
    requires IsSectionHeading(line)
    ensures r == Trim(line[3..])
  {
    var rest := ReplaceFirst(line, "## ", "");
    assert rest == line[3..] by {
      assert rest == "" + line[|"## "|..];
    }
    Trim(rest)
  }

  /** The test this reader applies: `- [` at the start, `](` somewhere, and the title and url patterns match. */
  predicate IsListingLine(line: string) {
    StartsWith(line, "- [") && Contains(line, "](") && TitleMatch(line).Some? && UrlMatch(line).Some?
  }

  /** The extra `](` test is implied by the url pattern: both readers accept exactly the same lines. */
  lemma ListingLineIsResourceLine(line: string)
    ensures IsListingLine(line) <==> IsResourceLine(line)
  {
    if IsResourceLine(line) {
      DelimitedNeedsOpen(line, "](", ')');
    }
  }

  /** The listing a resource line yields in the given section. */
  function ListingOf(line: string, section: string, category: string): Listing
    requires IsListingLine(line)
  {
    Listing(TitleMatch(line).value, UrlMatch(line).value, DescriptionOf(line), LevelOf(section), category)
  }

  /** The listings of `lines`, read with `section` as the current section. */
  function Listings(lines: seq<string>, section: string, category: string): seq<Listing>
    decreases |lines|
  {
    if lines == [] then []
    else
      var line, rest := lines[0], lines[1..];
      if IsSectionHeading(line) then Listings(rest, SectionName(line), category)
      else if IsListingLine(line) then [ListingOf(line, section, category)] + Listings(rest, section, category)
      else Listings(rest, section, category)
  }

  /** The current section once `lines` have been read from `section`. */
  function SectionAfter(lines: seq<string>, section: string): string
    decreases |lines|
  {
    if lines == [] then section
    else SectionAfter(lines[1..], if IsSectionHeading(lines[0]) then SectionName(lines[0]) else section)
  }

  /** The listings of a whole document: its `\n`-separated lines, read from an empty section. */
  function MarkdownListings(markdown: string, category: string): seq<Listing> {
    Listings(Split(markdown, "\n"), "", category)
  }

  /** No line is a section heading. */
  predicate NoSectionHeadings(lines: seq<string>) {
    forall k | 0 <= k < |lines| :: !IsSectionHeading(lines[k])
  }

  /** Every listing has `level` and `category`. */
  predicate AllAt(ls: seq<Listing>, level: Level, category: string) {
    forall k | 0 <= k < |ls| :: ls[k].level == level && ls[k].category == category
  }

  /** Every listing has `category`. */
  predicate AllInCategory(ls: seq<Listing>, category: string) {
    forall k | 0 <= k < |ls| :: ls[k].category == category
  }

  /** One step of the line loop. */
  lemma ListingsStep(lines: seq<string>, section: string, category: string)
    requires lines != []
    ensures var line, rest := lines[0], lines[1..];
      Listings(lines, section, category) ==
        if StartsWith(line, "## ") then Listings(rest, Trim(ReplaceFirst(line, "## ", "")), category)
        else if IsListingLine(line) then
          [Listing(TitleMatch(line).value, UrlMatch(line).value, DescriptionOf(line), LevelOf(section), category)]
            + Listings(rest, section, category)
        else Listings(rest, section, category)
  {
  }

  /**
   * Reading a concatenation reads the first part, then the second from the
   * section the first part ends in.
   */
  lemma {:induction false} ListingsConcat(a: seq<string>, b: seq<string>, section: string, category: string)
    ensures Listings(a + b, section, category) == Listings(a, section, category) + Listings(b, SectionAfter(a, section), category)
    decreases |a|
  {
    if a == [] {
      assert a + b == b;
    } else {
      var line := a[0];
      assert (a + b)[0] == line && (a + b)[1..] == a[1..] + b;
      var next := if IsSectionHeading(line) then SectionName(line) else section;
      ListingsConcat(a[1..], b, next, category);
      if !IsSectionHeading(line) && IsListingLine(line) {
        ConcatAssoc([ListingOf(line, section, category)], Listings(a[1..], section, category),
                    Listings(b, SectionAfter(a, section), category));
      }
    }
  }

  /** Without headings the section does not change. */
  lemma {:induction false} SectionAfterNoHeading(lines: seq<string>, section: string)
    requires NoSectionHeadings(lines)
    ensures SectionAfter(lines, section) == section
    decreases |lines|
  {
    if lines != [] {
      assert !IsSectionHeading(lines[0]);
      assert NoSectionHeadings(lines[1..]) by {
        forall k | 0 <= k < |lines| - 1 ensures !IsSectionHeading(lines[1..][k]) {
          assert lines[1..][k] == lines[k + 1];
        }
      }
      SectionAfterNoHeading(lines[1..], section);
    }
  }

  /** The lines after the first have no heading past index `k - 1` when `lines` has none past `k`. */
  lemma HeadingsAfterFirst(lines: seq<string>, k: nat)
    requires k < |lines|
    requires forall j | k < j < |lines| :: !IsSectionHeading(lines[j])
    ensures forall j | k <= j < |lines| - 1 :: !IsSectionHeading(lines[1..][j])
    ensures k == 0 ==> NoSectionHeadings(lines[1..])
  {
    forall j | k <= j < |lines| - 1 ensures !IsSectionHeading(lines[1..][j]) {
      assert lines[1..][j] == lines[j + 1];
    }
  }

  /** The section in force after the lines is named by the last heading among them. */
  lemma {:induction false} SectionAfterLastHeading(lines: seq<string>, section: string, k: nat)
    requires k < |lines| && IsSectionHeading(lines[k])
    requires forall j | k < j < |lines| :: !IsSectionHeading(lines[j])
    ensures SectionAfter(lines, section) == SectionName(lines[k])
    decreases k
  {
    var next := if IsSectionHeading(lines[0]) then SectionName(lines[0]) else section;
    if k == 0 {
      HeadingsAfterFirst(lines, 0);
      SectionAfterNoHeading(lines[1..], next);
      assert SectionAfter(lines, section) == SectionAfter(lines[1..], next);
    } else {
      var rest := lines[1..];
      assert rest[k - 1] == lines[k];
      forall j | k - 1 < j < |rest| ensures !IsSectionHeading(rest[j]) {
        assert rest[j] == lines[j + 1];
      }
      SectionAfterLastHeading(rest, next, k - 1);
    }
  }

  /** Every listing carries the category the reader was given. */
  lemma {:induction false} ListingsCategory(lines: seq<string>, section: string, category: string)
    ensures AllInCategory(Listings(lines, section, category), category)
    decreases |lines|
  {
    if lines != [] {
      var line := lines[0];
      var next := if IsSectionHeading(line) then SectionName(line) else section;
      ListingsCategory(lines[1..], next, category);
    }
  }

  /** Between two headings, every listing has the level the current section's name gives. */
  lemma {:induction false} ListingsUnderSection(lines: seq<string>, section: string, category: string)
    requires NoSectionHeadings(lines)
    ensures AllAt(Listings(lines, section, category), LevelOf(section), category)
    decreases |lines|
  {
    if lines != [] {
      var line, rest := lines[0], lines[1..];
      assert !IsSectionHeading(line);
      HeadingsAfterFirst(lines, 0);
      ListingsUnderSection(rest, section, category);
      var t := Listings(rest, section, category);
      if IsListingLine(line) {
        var l := ListingOf(line, section, category);
        assert Listings(lines, section, category) == [l] + t;
        AllAtCons(l, t, LevelOf(section), category);
      } else {
        assert Listings(lines, section, category) == t;
      }
    }
  }

  /** A listing with the level and category pushed in front of listings that have them. */
  lemma AllAtCons(l: Listing, t: seq<Listing>, level: Level, category: string)
    requires l.level == level && l.category == category && AllAt(t, level, category)
    ensures AllAt([l] + t, level, category)
  {
    forall k | 0 <= k < |[l] + t| ensures ([l] + t)[k].level == level && ([l] + t)[k].category == category {
      if k > 0 {
        var j := k - 1;
        assert t[j].level == level && t[j].category == category;
        assert ([l] + t)[k] == t[j];
      }
    }
  }

  /** Listings read before the first heading of a document are intermediate, as the section starts out empty. */
  lemma BeforeFirstHeading(a: seq<string>, b: seq<string>, category: string)
    requires NoSectionHeadings(a)
    ensures var ls := Listings(a + b, "", category);
      |Listings(a, "", category)| <= |ls| &&
      forall k | 0 <= k < |Listings(a, "", category)| :: ls[k].level == Intermediate
  {
    ListingsConcat(a, b, "", category);
    ListingsUnderSection(a, "", category);
    EmptyHeadingIsIntermediate();
  }

  /** The listing view of a record of the other reader: everything but its subcategory and tags. */
  function AsListing(r: Resource): Listing {
    Listing(r.title, r.url, r.description, r.level, r.category)
  }

  /** `AsListing` on every record, in order. */
  function AsListings(rs: seq<Resource>): (ls: seq<Listing>)
    ensures |ls| == |rs|
  {
    if rs == [] then [] else [AsListing(rs[0])] + AsListings(rs[1..])
  }

  /** `AsListings` of a record pushed in front. */
  lemma AsListingsCons(e: Resource, rs: seq<Resource>)
    ensures AsListings([e] + rs) == [AsListing(e)] + AsListings(rs)
  {
    assert ([e] + rs)[0] == e && ([e] + rs)[1..] == rs;
  }

  /** A subsection heading of the other reader is no resource line. */
  lemma SubheadingIsNoListing(line: string)
    requires StartsWith(line, "### ")
    ensures !IsListingLine(line)
  {
    assert line[0] == '#';
  }

  /**
   * Within one section, the two readers agree: the listings this reader
   * yields are the records the chunk reader yields for the same lines with
   * the section's level, less their subcategory and tags.
   */
  lemma {:induction false} ReadersAgree(lines: seq<string>, section: string, subcategory: string, category: string)
    requires NoSectionHeadings(lines)
    ensures Listings(lines, section, category) == AsListings(LineResources(lines, subcategory, LevelOf(section), category))
    decreases |lines|
  {
    if lines != [] {
      var line, rest, level := lines[0], lines[1..], LevelOf(section);
      assert !IsSectionHeading(line);
      HeadingsAfterFirst(lines, 0);
      ListingLineIsResourceLine(line);
      if StartsWith(line, "### ") {
        SubheadingIsNoListing(line);
        var sub := Trim(ReplaceFirst(line, "### ", ""));
        assert LineResources(lines, subcategory, level, category) == LineResources(rest, sub, level, category);
        assert Listings(lines, section, category) == Listings(rest, section, category);
        ReadersAgree(rest, section, sub, category);
      } else if IsListingLine(line) {
        var e := Entry(line, category, subcategory, level);
        var rs := LineResources(rest, subcategory, level, category);
        assert LineResources(lines, subcategory, level, category) == [e] + rs;
        assert Listings(lines, section, category) == [ListingOf(line, section, category)] + Listings(rest, section, category);
        assert AsListing(e) == ListingOf(line, section, category);
        ReadersAgree(rest, section, subcategory, category);
        AsListingsCons(e, rs);
      } else {
        assert LineResources(lines, subcategory, level, category) == LineResources(rest, subcategory, level, category);
        assert Listings(lines, section, category) == Listings(rest, section, category);
        ReadersAgree(rest, section, subcategory, category);
      }
    }
  }

  /** `parseMarkdownToResources(markdown, category)`: the line loop. */
  method ParseMarkdownToResources(markdown: string, category: string) returns (resources: seq<Listing>)
    ensures resources == MarkdownListings(markdown, category)
  {
    var lines := Split(markdown, "\n");
    resources := [];
    var currentSection := "";
    assert lines[0..] == lines;
    for i := 0 to |lines|
      invariant resources + Listings(lines[i..], currentSection, category) == Listings(lines, "", category)
    {
      var line := lines[i];
      ListingsStep(lines[i..], currentSection, category);
      assert lines[i..][0] == line && lines[i..][1..] == lines[i + 1..];
      if StartsWith(line, "## ") {
        currentSection := Trim(ReplaceFirst(line, "## ", ""));
      } else if StartsWith(line, "- [") && Contains(line, "](") {
        var titleMatch, urlMatch := TitleMatch(line), UrlMatch(line);
        if titleMatch.Some? && urlMatch.Some? {
          var description := DescriptionOf(line);
          var level := Intermediate;
          var lower := ToLower(currentSection);
          if Contains(lower, "beginner") {
            level := Beginner;
          } else if Contains(lower, "advanced") {
            level := Advanced;
          }
          var listing := Listing(titleMatch.value, urlMatch.value, description, level, category);
          ConcatAssoc(resources, [listing], Listings(lines[i + 1..], currentSection, category));
          resources := resources + [listing];
        }
      }
    }
    assert lines[|lines|..] == [];
  }
}
