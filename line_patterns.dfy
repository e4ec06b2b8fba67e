/**
 * The three regular expressions both markdown readers apply to a resource line,
 * written as explicit scans and proved against declarative statements of
 * JavaScript's matching order (leftmost start, lazy `+?`, greedy `*` and `+`):
 *   title        /- \[(.+?)\]/
 *   url          /\]\((.+?)\)/
 *   description  /\)\s*-\s*(.+)$/
 */
module LinePatterns {
  import opened Wrappers
  import opened JsStrings

  /** The characters `.` does not match in a JavaScript regular expression without the `s` flag. */
  predicate IsLineTerminator(c: char) {
    c == '\n' || c == '\r' || c == '\U{2028}' || c == '\U{2029}'
  }

  /** `.` matches every character of `s[lo..hi]`. */
  ghost predicate DotsMatch(s: string, lo: int, hi: int) {
    0 <= lo <= hi <= |s| && forall k | lo <= k < hi :: !IsLineTerminator(s[k])
  }

  /** No character of `t` is a line terminator. */
  predicate NoLineTerminator(t: string) {
    forall k | 0 <= k < |t| :: !IsLineTerminator(t[k])
  }

  // ---------------------------------------------------------------------------
  // `open (.+?) close`
  // ---------------------------------------------------------------------------

  /**
   * A lazy group `(.+?)` that starts at `lo` and is followed by `close` ends
   * just before `j`: at least one character, all matched by `.`, and `j` is the
   * first `close` after the first character.
   */
  ghost predicate LazyGroupEndsAt(s: string, lo: int, j: int, close: char) {
    0 <= lo < j < |s| && s[j] == close && DotsMatch(s, lo, j)
    && forall k | lo < k < j :: s[k] != close
  }

  /** Scans from `k` for the end of the lazy group that starts at `lo`. */
  function LazyClose(s: string, lo: nat, k: nat, close: char): (r: Option<nat>)
    requires lo <= k <= |s|
    requires DotsMatch(s, lo, k)
    requires forall m | lo < m < k :: s[m] != close
    ensures r.Some? ==> LazyGroupEndsAt(s, lo, r.value, close)
    ensures r.None? ==> forall j :: !LazyGroupEndsAt(s, lo, j, close)
    decreases |s| - k
  {
    if k == |s| then None
    else if k > lo && s[k] == close then Some(k)
    else if IsLineTerminator(s[k]) then None
    else LazyClose(s, lo, k + 1, close)
  }

  /** `open (.+?) close` matches with `open` at `i` and `close` at `j`. */
  ghost predicate DelimitedAt(s: string, open: string, close: char, i: int, j: int) {
    OccursAt(s, open, i) && LazyGroupEndsAt(s, i + |open|, j, close)
  }

  /** The match JavaScript reports: the leftmost start `i`, its group `t`. */
  ghost predicate DelimitedCaptures(s: string, open: string, close: char, i: int, j: int, t: string) {
    DelimitedAt(s, open, close, i, j) && t == s[i + |open|..j]
    && forall i2, j2 | 0 <= i2 < i :: !DelimitedAt(s, open, close, i2, j2)
  }

  /** Tries the start positions from `i` on, left to right. */
  function DelimitedFrom(s: string, open: string, close: char, i: nat): (r: Option<string>)
    requires forall i2, j | 0 <= i2 < i :: !DelimitedAt(s, open, close, i2, j)
    ensures r.Some? ==> exists i2, j :: DelimitedCaptures(s, open, close, i2, j, r.value)
    ensures r.None? ==> forall i2, j :: !DelimitedAt(s, open, close, i2, j)
    decreases |s| - i
  {
    if i + |open| > |s| then None
    else if OccursAt(s, open, i) && LazyClose(s, i + |open|, i + |open|, close).Some? then
      var j := LazyClose(s, i + |open|, i + |open|, close).value;
      assert DelimitedCaptures(s, open, close, i, j, s[i + |open|..j]);
      Some(s[i + |open|..j])
    else
      DelimitedFrom(s, open, close, i + 1)
  }

  /** The group of the first match of `open (.+?) close` in `s`, if any. */
  function Delimited(s: string, open: string, close: char): Option<string> {
    DelimitedFrom(s, open, close, 0)
  }

  /** `line.match(/- \[(.+?)\]/)`, its group. */
  function TitleMatch(line: string): Option<string> {
    Delimited(line, "- [", ']')
  }

  /** `line.match(/\]\((.+?)\)/)`, its group. */
  function UrlMatch(line: string): Option<string> {
    Delimited(line, "](", ')')
  }

  /** Every first match lies on an occurrence of the opening text. */
  lemma DelimitedNeedsOpen(s: string, open: string, close: char)
    requires Delimited(s, open, close).Some?
    ensures Contains(s, open)
  {
    var i, j :| DelimitedCaptures(s, open, close, i, j, Delimited(s, open, close).value);
    ContainsAt(s, open, i);
  }

  /** The group is determined: any leftmost match with a lazy close gives the group `Delimited` reports. */
  lemma DelimitedUnique(s: string, open: string, close: char, i: int, j: int)
    requires DelimitedAt(s, open, close, i, j)
    requires forall i2, j2 | 0 <= i2 < i :: !DelimitedAt(s, open, close, i2, j2)
    ensures Delimited(s, open, close) == Some(s[i + |open|..j])
  {
    var r := Delimited(s, open, close);
    var i2, j2 :| DelimitedCaptures(s, open, close, i2, j2, r.value);
    assert i2 == i;
  }

  // ---------------------------------------------------------------------------
  // `\)\s*-\s*(.+)$`
  // ---------------------------------------------------------------------------

  /** The number of whitespace characters starting at `k`. */
  function WhitespaceRun(s: string, k: nat): (n: nat)
    requires k <= |s|
    ensures k + n <= |s|
    ensures forall m | k <= m < k + n :: IsWhitespace(s[m])
    ensures k + n < |s| ==> !IsWhitespace(s[k + n])
    decreases |s| - k
  {
    if k < |s| && IsWhitespace(s[k]) then 1 + WhitespaceRun(s, k + 1) else 0
  }

  /** `s[lo..hi]` is all whitespace. */
  ghost predicate WhitespaceBetween(s: string, lo: int, hi: int) {
    0 <= lo <= hi <= |s| && forall m | lo <= m < hi :: IsWhitespace(s[m])
  }

  /**
   * `\)\s*-\s*(.+)$` matches with `)` at `i`, the first `\s*` taking `w`
   * characters and the second `k`; the group runs to the end of `s`.
   */
  ghost predicate DescriptionAt(s: string, i: int, w: int, k: int) {
    0 <= i && 0 <= w && 0 <= k && i + w + k + 2 < |s|
    && s[i] == ')' && WhitespaceBetween(s, i + 1, i + 1 + w) && s[i + 1 + w] == '-'
    && WhitespaceBetween(s, i + 2 + w, i + 2 + w + k) && DotsMatch(s, i + 2 + w + k, |s|)
  }

  /** At `i`, the greedy stars prefer the most whitespace for `w`, then for `k`. */
  ghost predicate GreediestAt(s: string, i: int, w: int, k: int) {
    DescriptionAt(s, i, w, k)
    && forall w2, k2 | DescriptionAt(s, i, w2, k2) :: w2 < w || (w2 == w && k2 <= k)
  }

  /** The match JavaScript reports: leftmost `)`, greediest stars, group `t`. */
  ghost predicate DescriptionCaptures(s: string, i: int, w: int, k: int, t: string) {
    GreediestAt(s, i, w, k) && t == s[i + 2 + w + k..]
    && forall i2, w2, k2 | 0 <= i2 < i :: !DescriptionAt(s, i2, w2, k2)
  }

  /** The match attempt with `)` at `i`. */
  function DescriptionTry(s: string, i: nat): Option<string>
    requires i < |s|
  {
    if s[i] != ')' then None
    else
      var p := i + 1 + WhitespaceRun(s, i + 1);
      if p == |s| || s[p] != '-' then None
      else
        var m := WhitespaceRun(s, p + 1);
        if p + 1 + m < |s| then
          if NoLineTerminator(s[p + 1 + m..]) then Some(s[p + 1 + m..]) else None
        else if m > 0 && !IsLineTerminator(s[|s| - 1]) then Some(s[|s| - 1..])
        else None
  }

  /** Any match at `i` takes the whole first whitespace run and at most the whole second one. */
  lemma StarsWithinRuns(s: string, i: nat, w: int, k: int)
    requires DescriptionAt(s, i, w, k)
    ensures w == WhitespaceRun(s, i + 1)
    ensures k <= WhitespaceRun(s, i + 2 + w)
  {
  }

  /** With the `-` in place and text after the second run: the greediest match, if the text has no line terminator. */
  lemma DescriptionWithText(s: string, i: nat, w: nat, m: nat)
    requires i < |s| && s[i] == ')'
    requires w == WhitespaceRun(s, i + 1) && i + 1 + w < |s| && s[i + 1 + w] == '-'
    requires m == WhitespaceRun(s, i + 2 + w) && i + 2 + w + m < |s|
    ensures NoLineTerminator(s[i + 2 + w + m..]) ==> GreediestAt(s, i, w, m)
    ensures !NoLineTerminator(s[i + 2 + w + m..]) ==> forall w2, k2 :: !DescriptionAt(s, i, w2, k2)
  {
    var lo := i + 2 + w + m;
    var tail := s[lo..];
    if NoLineTerminator(tail) {
      forall q | lo <= q < |s| ensures !IsLineTerminator(s[q]) {
        assert s[q] == tail[q - lo];
      }
      forall w2, k2 | DescriptionAt(s, i, w2, k2) ensures w2 == w && k2 <= m {
        StarsWithinRuns(s, i, w2, k2);
      }
    } else {
      var q :| 0 <= q < |tail| && IsLineTerminator(tail[q]);
      assert IsLineTerminator(s[lo + q]);
      forall w2, k2 | DescriptionAt(s, i, w2, k2) ensures false {
        StarsWithinRuns(s, i, w2, k2);
      }
    }
  }

  /** With the `-` in place and only whitespace after it: the group is the last character, if `.` matches it. */
  lemma DescriptionAtEnd(s: string, i: nat, w: nat, m: nat)
    requires i < |s| && s[i] == ')'
    requires w == WhitespaceRun(s, i + 1) && i + 1 + w < |s| && s[i + 1 + w] == '-'
    requires m == WhitespaceRun(s, i + 2 + w) && i + 2 + w + m == |s|
    ensures m > 0 && !IsLineTerminator(s[|s| - 1]) ==> GreediestAt(s, i, w, m - 1)
    ensures !(m > 0 && !IsLineTerminator(s[|s| - 1])) ==> forall w2, k2 :: !DescriptionAt(s, i, w2, k2)
  {
    forall w2, k2 | DescriptionAt(s, i, w2, k2)
      ensures w2 == w && k2 <= m - 1 && m > 0 && !IsLineTerminator(s[|s| - 1])
    {
      StarsWithinRuns(s, i, w2, k2);
    }
    if m > 0 && !IsLineTerminator(s[|s| - 1]) {
      assert DescriptionAt(s, i, w, m - 1);
    }
  }

  /** The attempt at `i` reports exactly the greediest match there, and nothing when there is none. */
  lemma DescriptionTryMeaning(s: string, i: nat)
    requires i < |s|
    ensures DescriptionTry(s, i).Some? ==>
      exists w, k :: GreediestAt(s, i, w, k) && DescriptionTry(s, i).value == s[i + 2 + w + k..]
    ensures DescriptionTry(s, i).None? ==> forall w, k :: !DescriptionAt(s, i, w, k)
  {
    if s[i] == ')' {
      var w := WhitespaceRun(s, i + 1);
      var p := i + 1 + w;
      if p < |s| && s[p] == '-' {
        DescriptionTryAtDash(s, i, w);
      } else {
        assert DescriptionTry(s, i) == None;
        forall w2, k2 | DescriptionAt(s, i, w2, k2) ensures false {
          StarsWithinRuns(s, i, w2, k2);
        }
      }
    }
  }

  /** `DescriptionTryMeaning` once the `-` after the first whitespace run is in place. */
  lemma DescriptionTryAtDash(s: string, i: nat, w: nat)
    requires i < |s| && s[i] == ')'
    requires w == WhitespaceRun(s, i + 1) && i + 1 + w < |s| && s[i + 1 + w] == '-'
    ensures DescriptionTry(s, i).Some? ==>
      exists w, k :: GreediestAt(s, i, w, k) && DescriptionTry(s, i).value == s[i + 2 + w + k..]
    ensures DescriptionTry(s, i).None? ==> forall w, k :: !DescriptionAt(s, i, w, k)
  {
    var m := WhitespaceRun(s, i + 2 + w);
    if i + 2 + w + m < |s| {
      DescriptionTryWithText(s, i, w, m);
    } else {
      DescriptionTryAtEnd(s, i, w, m);
    }
  }

  /** `DescriptionTryMeaning` with text after the second whitespace run. */
  lemma DescriptionTryWithText(s: string, i: nat, w: nat, m: nat)
    requires i < |s| && s[i] == ')'
    requires w == WhitespaceRun(s, i + 1) && i + 1 + w < |s| && s[i + 1 + w] == '-'
    requires m == WhitespaceRun(s, i + 2 + w) && i + 2 + w + m < |s|
    ensures DescriptionTry(s, i).Some? ==>
      GreediestAt(s, i, w, m) && DescriptionTry(s, i).value == s[i + 2 + w + m..]
    ensures DescriptionTry(s, i).None? ==> forall w, k :: !DescriptionAt(s, i, w, k)
  {
    var lo := i + 2 + w + m;
    DescriptionWithText(s, i, w, m);
    if NoLineTerminator(s[lo..]) {
      assert DescriptionTry(s, i) == Some(s[lo..]);
    } else {
      assert DescriptionTry(s, i) == None;
    }
  }

  /** `DescriptionTryMeaning` with only whitespace after the `-`. */
  lemma DescriptionTryAtEnd(s: string, i: nat, w: nat, m: nat)
    requires i < |s| && s[i] == ')'
    requires w == WhitespaceRun(s, i + 1) && i + 1 + w < |s| && s[i + 1 + w] == '-'
    requires m == WhitespaceRun(s, i + 2 + w) && i + 2 + w + m == |s|
    ensures DescriptionTry(s, i).Some? ==>
      m > 0 && GreediestAt(s, i, w, m - 1) && DescriptionTry(s, i).value == s[i + 2 + w + (m - 1)..]
    ensures DescriptionTry(s, i).None? ==> forall w, k :: !DescriptionAt(s, i, w, k)
  {
    DescriptionAtEnd(s, i, w, m);
    if m > 0 && !IsLineTerminator(s[|s| - 1]) {
      assert DescriptionTry(s, i) == Some(s[|s| - 1..]);
      assert i + 2 + w + (m - 1) == |s| - 1;
    } else {
      assert DescriptionTry(s, i) == None;
    }
  }

  /** Tries the positions from `i` on, left to right. */
  function DescriptionFrom(s: string, i: nat): (r: Option<string>)
    requires i <= |s|
    requires forall i2, w, k | 0 <= i2 < i :: !DescriptionAt(s, i2, w, k)
    ensures r.Some? ==> exists i2, w, k :: DescriptionCaptures(s, i2, w, k, r.value)
    ensures r.None? ==> forall i2, w, k :: !DescriptionAt(s, i2, w, k)
    decreases |s| - i
  {
    if i == |s| then None
    else
      DescriptionFromStep(s, i);
      match DescriptionTry(s, i)
      case Some(d) => Some(d)
      case None => DescriptionFrom(s, i + 1)
  }

  /** The attempt at `i`, with no match further left: its text is the reported match, or no match starts at `i` either. */
  lemma DescriptionFromStep(s: string, i: nat)
    requires i < |s|
    requires forall i2, w, k | 0 <= i2 < i :: !DescriptionAt(s, i2, w, k)
    ensures DescriptionTry(s, i).Some? ==> exists w, k :: DescriptionCaptures(s, i, w, k, DescriptionTry(s, i).value)
    ensures DescriptionTry(s, i).None? ==> forall i2, w, k | 0 <= i2 < i + 1 :: !DescriptionAt(s, i2, w, k)
  {
    DescriptionTryMeaning(s, i);
    if DescriptionTry(s, i).Some? {
      var d := DescriptionTry(s, i).value;
      var w, k :| GreediestAt(s, i, w, k) && d == s[i + 2 + w + k..];
      assert DescriptionCaptures(s, i, w, k, d);
    }
  }

  /** `line.match(/\)\s*-\s*(.+)$/)`, its group. */
  function DescriptionMatch(line: string): Option<string> {
    DescriptionFrom(line, 0)
  }

  /** A line that ends in a carriage return (a CRLF file split on `\n`) never yields a description. */
  lemma CarriageReturnHidesDescription(line: string)
    requires line != [] && line[|line| - 1] == '\r'
    ensures DescriptionMatch(line) == None
  {
  }
  // ---------------------------------------------------------------------------
  // Reading back a resource line
  // ---------------------------------------------------------------------------

  /** One entry of a resource list as the markdown writes it. */
  datatype Item = Item(title: string, url: string, description: string)

  /** `- [title](url) - description`, or `- [title](url)` when the description is empty. */
  function ItemLine(it: Item): string {
    "- [" + it.title + "](" + it.url + ")" + (if it.description == "" then "" else " - " + it.description)
  }

  /**
   * An item the three patterns read back: a non-empty title without `]` or `)`,
   * a non-empty url without `)`, neither holding a line terminator, and a
   * description that, when present, starts with a non-whitespace character and
   * holds no line terminator.
   */
  predicate WellFormedItem(it: Item) {
    it.title != "" && ']' !in it.title && ')' !in it.title && NoLineTerminator(it.title)
    && it.url != "" && ')' !in it.url && NoLineTerminator(it.url)
    && (it.description != "" ==> !IsWhitespace(it.description[0]) && NoLineTerminator(it.description))
  }

  /** Where the pieces of a resource line sit, character by character. */
  lemma ItemLineLayout(it: Item)
    ensures var s, t, u := ItemLine(it), it.title, it.url;
      && |s| == 6 + |t| + |u| + (if it.description == "" then 0 else 3 + |it.description|)
      && s[0] == '-' && s[1] == ' ' && s[2] == '['
      && (forall q | 3 <= q < 3 + |t| :: s[q] == t[q - 3])
      && s[3 + |t|] == ']' && s[4 + |t|] == '('
      && (forall q | 5 + |t| <= q < 5 + |t| + |u| :: s[q] == u[q - (5 + |t|)])
      && s[5 + |t| + |u|] == ')'
      && (it.description != "" ==>
            && s[6 + |t| + |u|] == ' ' && s[7 + |t| + |u|] == '-' && s[8 + |t| + |u|] == ' '
            && s[9 + |t| + |u|..] == it.description)
  {
  }

  /** The characters of `s` from `lo` on spell `u`. */
  lemma SliceIs(s: string, lo: nat, u: string)
    requires lo + |u| <= |s|
    requires forall q | lo <= q < lo + |u| :: s[q] == u[q - lo]
    ensures s[lo..lo + |u|] == u
  {
  }

  /** Before the `)` that closes the url, a well-formed line has no `)` and no `]` outside the title's end. */
  lemma NoCloserBefore(it: Item, q: int)
    requires WellFormedItem(it) && 0 <= q < 5 + |it.title| + |it.url|
    ensures ItemLine(it)[q] != ')'
    ensures q < 3 + |it.title| ==> ItemLine(it)[q] != ']'
  {
    ItemLineLayout(it);
    var s, t, u := ItemLine(it), it.title, it.url;
    if 3 <= q < 3 + |t| {
      assert s[q] == t[q - 3] && t[q - 3] in t;
    } else if 5 + |t| <= q {
      assert s[q] == u[q - (5 + |t|)] && u[q - (5 + |t|)] in u;
    }
  }

  /** The title pattern reads back the title. */
  lemma {:induction false} TitleRoundTrip(it: Item)
    requires WellFormedItem(it)
    ensures TitleMatch(ItemLine(it)) == Some(it.title)
  {
    var s, t := ItemLine(it), it.title;
    var j := 3 + |t|;
    ItemLineLayout(it);
    assert s[..3] == "- [";
    forall q | 3 <= q < j ensures !IsLineTerminator(s[q]) && (q > 3 ==> s[q] != ']') {
      NoCloserBefore(it, q);
      assert s[q] == t[q - 3];
    }
    assert DelimitedAt(s, "- [", ']', 0, j);
    DelimitedUnique(s, "- [", ']', 0, j);
    SliceIs(s, 3, t);
  }

  /** The url pattern reads back the url. */
  lemma {:induction false} UrlRoundTrip(it: Item)
    requires WellFormedItem(it)
    ensures UrlMatch(ItemLine(it)) == Some(it.url)
  {
    var s, t, u := ItemLine(it), it.title, it.url;
    var i := 3 + |t|;
    var j := i + 2 + |u|;
    ItemLineLayout(it);
    assert s[i..i + 2] == "](";
    forall q | i + 2 <= q < j ensures !IsLineTerminator(s[q]) && s[q] != ')' {
      NoCloserBefore(it, q);
      assert s[q] == u[q - (5 + |t|)];
    }
    assert DelimitedAt(s, "](", ')', i, j);
    forall i2, j2 | 0 <= i2 < i ensures !DelimitedAt(s, "](", ')', i2, j2) {
      NoCloserBefore(it, i2);
    }
    UrlSlice(it);
    UrlAt(s, i, u);
  }

  /** A leftmost url match at `i` whose group is `u` makes the url pattern report `u`. */
  lemma UrlAt(s: string, i: int, u: string)
    requires DelimitedAt(s, "](", ')', i, i + 2 + |u|) && s[i + 2..i + 2 + |u|] == u
    requires forall i2, j2 | 0 <= i2 < i :: !DelimitedAt(s, "](", ')', i2, j2)
    ensures UrlMatch(s) == Some(u)
  {
    DelimitedUnique(s, "](", ')', i, i + 2 + |u|);
  }

  /** The url sits right after `- [title](`. */
  lemma UrlSlice(it: Item)
    ensures ItemLine(it)[5 + |it.title|..5 + |it.title| + |it.url|] == it.url
  {
    var p := "- [" + it.title + "](";
    var r := ")" + (if it.description == "" then "" else " - " + it.description);
    assert ItemLine(it) == p + it.url + r;
    SliceOfConcat(p, it.url, r);
  }

  /** The middle part of a concatenation of three. */
  lemma SliceOfConcat(a: string, b: string, c: string)
    ensures (a + b + c)[|a|..|a| + |b|] == b
  {
  }

  /** No match of the description pattern starts before the `)` that closes the url. */
  lemma NoDescriptionBefore(it: Item)
    requires WellFormedItem(it)
    ensures forall i2, w, k | 0 <= i2 < 5 + |it.title| + |it.url| :: !DescriptionAt(ItemLine(it), i2, w, k)
  {
    forall i2, w, k | 0 <= i2 < 5 + |it.title| + |it.url| ensures !DescriptionAt(ItemLine(it), i2, w, k) {
      NoCloserBefore(it, i2);
    }
  }

  /** Without a description the pattern finds nothing. */
  lemma {:induction false} DescriptionAbsent(it: Item)
    requires WellFormedItem(it) && it.description == ""
    ensures DescriptionMatch(ItemLine(it)) == None
  {
    var s := ItemLine(it);
    ItemLineLayout(it);
    NoDescriptionBefore(it);
  }

  /**
   * A `) - ` at `c`, with no match starting earlier, followed by text that
   * starts with a non-whitespace character and holds no line terminator: the
   * pattern reads back that text.
   */
  lemma DescriptionAfterDash(s: string, c: nat)
    requires c + 4 < |s| && s[c] == ')' && s[c + 1] == ' ' && s[c + 2] == '-' && s[c + 3] == ' '
    requires !IsWhitespace(s[c + 4]) && NoLineTerminator(s[c + 4..])
    requires forall i2, w, k | 0 <= i2 < c :: !DescriptionAt(s, i2, w, k)
    ensures DescriptionMatch(s) == Some(s[c + 4..])
  {
    assert DotsMatch(s, c + 4, |s|) by {
      forall q | c + 4 <= q < |s| ensures !IsLineTerminator(s[q]) {
        assert s[q] == s[c + 4..][q - c - 4];
      }
    }
    assert DescriptionAt(s, c, 1, 1);
    var r := DescriptionMatch(s);
    assert r.Some?;
    var i2, w, k :| DescriptionCaptures(s, i2, w, k, r.value);
    assert !(i2 < c) && !(c < i2);
    GreediestAtDash(s, c, w, k);
    assert r.value == s[c + 4..];
    assert r == Some(s[c + 4..]);
  }

  /** A run of exactly one whitespace character. */
  lemma SingleWhitespace(s: string, k: nat)
    requires k + 1 < |s| && IsWhitespace(s[k]) && !IsWhitespace(s[k + 1])
    ensures WhitespaceRun(s, k) == 1
  {
    assert WhitespaceRun(s, k + 1) == 0;
  }

  /** Around a `) - `, the greediest stars take one space each. */
  lemma GreediestAtDash(s: string, c: nat, w: int, k: int)
    requires c + 4 < |s| && s[c + 1] == ' ' && s[c + 2] == '-' && s[c + 3] == ' ' && !IsWhitespace(s[c + 4])
    requires DescriptionAt(s, c, 1, 1) && GreediestAt(s, c, w, k)
    ensures w == 1 && k == 1
  {
    SingleWhitespace(s, c + 1);
    SingleWhitespace(s, c + 3);
    StarsWithinRuns(s, c, w, k);
  }

  /** With a description the pattern reads it back. */
  lemma DescriptionPresent(it: Item)
    requires WellFormedItem(it) && it.description != ""
    ensures DescriptionMatch(ItemLine(it)) == Some(it.description)
  {
    var s, d := ItemLine(it), it.description;
    var c := 5 + |it.title| + |it.url|;
    ItemLineLayout(it);
    NoDescriptionBefore(it);
    assert s[c + 4..] == d;
    assert s[c + 4] == d[0];
    DescriptionAfterDash(s, c);
  }

  /** All three patterns together read a well-formed line back into its item. */
  lemma ItemLineRoundTrip(it: Item)
    requires WellFormedItem(it)
    ensures TitleMatch(ItemLine(it)) == Some(it.title)
    ensures UrlMatch(ItemLine(it)) == Some(it.url)
    ensures DescriptionMatch(ItemLine(it)) == if it.description == "" then None else Some(it.description)
  {
    TitleRoundTrip(it);
    UrlRoundTrip(it);
    if it.description == "" { DescriptionAbsent(it); } else { DescriptionPresent(it); }
  }
}
