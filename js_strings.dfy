/**
 * The JavaScript string built-ins the scripts rely on (`trim`, `startsWith`,
 * `includes`, `indexOf`, `replace`, `split`, `join`, `toLowerCase`,
 * `toUpperCase` and `replace(/\s+/g, '-')`), on strings of code points.
 */
module JsStrings {
  import opened Wrappers

  /** ECMAScript WhiteSpace and LineTerminator: what `trim()` strips and what `\s` matches. */
  predicate IsWhitespace(c: char) {
    c == '\t' || c == '\n' || c == '\U{B}' || c == '\U{C}' || c == '\r' || c == ' '
    || c == '\U{A0}' || c == '\U{1680}' || ('\U{2000}' <= c <= '\U{200A}')
    || c == '\U{2028}' || c == '\U{2029}' || c == '\U{202F}' || c == '\U{205F}'
    || c == '\U{3000}' || c == '\U{FEFF}'
  }

  /** Every character of `s` is whitespace. */
  predicate IsBlank(s: string) {
    forall i | 0 <= i < |s| :: IsWhitespace(s[i])
  }

  /** `s.trimStart()`: the suffix left after the leading whitespace. */
  function TrimStart(s: string): (r: string)
    ensures |r| <= |s| && r == s[|s| - |r|..]
    ensures IsBlank(s[..|s| - |r|])
    ensures r != [] ==> !IsWhitespace(r[0])
    ensures s != [] && IsWhitespace(s[0]) ==> |r| < |s|
  {
    if s != [] && IsWhitespace(s[0]) then
      var r := TrimStart(s[1..]);
      assert s[..|s| - |r|] == [s[0]] + s[1..][..|s[1..]| - |r|];
      r
    else s
  }

  /** `s.trimEnd()`: the prefix left before the trailing whitespace. */
  function TrimEnd(s: string): (r: string)
    ensures |r| <= |s| && r == s[..|r|]
    ensures IsBlank(s[|r|..])
    ensures r != [] ==> !IsWhitespace(r[|r| - 1])
  {
    if s != [] && IsWhitespace(s[|s| - 1]) then
      var r := TrimEnd(s[..|s| - 1]);
      assert s[|r|..] == s[..|s| - 1][|r|..] + [s[|s| - 1]];
      r
    else s
  }

  /** Two blank strings make a blank string. */
  lemma BlankConcat(a: string, b: string)
    requires IsBlank(a) && IsBlank(b)
    ensures IsBlank(a + b)
  {
    forall i | 0 <= i < |a + b| ensures IsWhitespace((a + b)[i]) {
      if i < |a| { assert (a + b)[i] == a[i]; } else { assert (a + b)[i] == b[i - |a|]; }
    }
  }

  /** `s.trim()`: empty exactly for a blank string, otherwise it starts and ends with a non-whitespace character. */
  function Trim(s: string): (r: string)
    ensures r == [] <==> IsBlank(s)
    ensures r != [] ==> !IsWhitespace(r[0]) && !IsWhitespace(r[|r| - 1])
  {
    var t := TrimStart(s);
    var r := TrimEnd(t);
    assert r == [] ==> IsBlank(s) by {
      if r == [] {
        assert t == t[|r|..];
        BlankConcat(s[..|s| - |t|], t);
        assert s == s[..|s| - |t|] + t;
      }
    }
    assert IsBlank(s) ==> t == [];
    assert r != [] ==> r[0] == t[0];
    r
  }

  /**
   * `trim()` is the infix of `s` between a blank prefix and a blank suffix:
   * `k` is where it starts, so only leading and trailing whitespace is removed.
   */
  lemma TrimInfix(s: string) returns (k: nat)
    ensures k + |Trim(s)| <= |s|
    ensures Trim(s) == s[k..k + |Trim(s)|]
    ensures IsBlank(s[..k]) && IsBlank(s[k + |Trim(s)|..])
  {
    var t := TrimStart(s);
    var r := TrimEnd(t);
    k := |s| - |t|;
    assert t == s[k..];
    assert r == t[..|r|];
    assert s[k + |r|..] == t[|r|..];
  }

  /** Whitespace in front of a string does not change its trimmed form. */
  lemma {:induction false} TrimSkipsLeadingWhitespace(w: string, s: string)
    requires IsBlank(w)
    ensures Trim(w + s) == Trim(s)
  {
    if w != [] {
      assert (w + s)[1..] == w[1..] + s;
      TrimSkipsLeadingWhitespace(w[1..], s);
    } else {
      assert w + s == s;
    }
  }

  /** A string that neither starts nor ends with whitespace is its own trimmed form. */
  lemma TrimOfTrimmed(s: string)
    requires s != [] ==> !IsWhitespace(s[0]) && !IsWhitespace(s[|s| - 1])
    ensures Trim(s) == s
  {
  }

  /** `s.startsWith(p)`. */
  predicate StartsWith(s: string, p: string) {
    |p| <= |s| && s[..|p|] == p
  }

  /** `p` occurs in `s` at index `j`. */
  predicate OccursAt(s: string, p: string, j: int) {
    0 <= j && j + |p| <= |s| && s[j..j + |p|] == p
  }

  /** `s.indexOf(p, k)`: the leftmost occurrence of `p` at or after `k`. */
  function IndexFrom(s: string, p: string, k: nat): (r: Option<nat>)
    ensures r.Some? ==> k <= r.value && OccursAt(s, p, r.value)
    ensures r.Some? ==> forall j | k <= j < r.value :: !OccursAt(s, p, j)
    ensures r.None? ==> forall j | k <= j :: !OccursAt(s, p, j)
    decreases |s| - k
  {
    if k + |p| > |s| then None
    else if OccursAt(s, p, k) then Some(k)
    else IndexFrom(s, p, k + 1)
  }

  /** `s.indexOf(p)`, with `None` for -1. */
  function IndexOf(s: string, p: string): Option<nat> {
    IndexFrom(s, p, 0)
  }

  /** `s.includes(p)`. */
  predicate Contains(s: string, p: string) {
    IndexOf(s, p).Some?
  }

  /** Any occurrence makes `includes` hold. */
  lemma ContainsAt(s: string, p: string, j: int)
    requires OccursAt(s, p, j)
    ensures Contains(s, p)
  {
  }

  /** An occurrence in either half is an occurrence in the concatenation. */
  lemma ContainsInConcat(a: string, b: string, p: string)
    requires Contains(a, p) || Contains(b, p)
    ensures Contains(a + b, p)
  {
    if Contains(a, p) {
      var j := IndexOf(a, p).value;
      assert (a + b)[j..j + |p|] == a[j..j + |p|];
      ContainsAt(a + b, p, j);
    } else {
      var j := IndexOf(b, p).value;
      assert (a + b)[|a| + j..|a| + j + |p|] == b[j..j + |p|];
      ContainsAt(a + b, p, |a| + j);
    }
  }

  /** `s.replace(p, rep)` with a string pattern: only the first occurrence is replaced. */
  function ReplaceFirst(s: string, p: string, rep: string): (r: string)
    ensures StartsWith(s, p) ==> r == rep + s[|p|..]
    ensures !Contains(s, p) ==> r == s
  {
    match IndexOf(s, p)
    case None => s
    case Some(k) =>
      assert StartsWith(s, p) ==> OccursAt(s, p, 0) && k == 0;
      s[..k] + rep + s[k + |p|..]
  }

  /** `replace` cuts out the leftmost occurrence of the pattern, wherever it is, and puts the replacement there. */
  lemma ReplaceAtLeftmost(s: string, p: string, rep: string, k: nat)
    requires OccursAt(s, p, k)
    requires forall j | 0 <= j < k :: !OccursAt(s, p, j)
    ensures ReplaceFirst(s, p, rep) == s[..k] + rep + s[k + |p|..]
  {
    assert IndexOf(s, p) == Some(k);
  }

  /** `parts.join(sep)`. */
  function Join(parts: seq<string>, sep: string): string {
    if parts == [] then ""
    else if |parts| == 1 then parts[0]
    else parts[0] + sep + Join(parts[1..], sep)
  }

  /** Both halves of a blank string are blank. */
  lemma BlankHalves(a: string, b: string)
    requires IsBlank(a + b)
    ensures IsBlank(a) && IsBlank(b)
  {
    forall i | 0 <= i < |a| ensures IsWhitespace(a[i]) { assert a[i] == (a + b)[i]; }
    forall i | 0 <= i < |b| ensures IsWhitespace(b[i]) { assert b[i] == (a + b)[|a| + i]; }
  }

  /** Every part of a blank join is blank. */
  lemma {:induction false} JoinBlankParts(parts: seq<string>, sep: string)
    requires IsBlank(Join(parts, sep))
    ensures forall i | 0 <= i < |parts| :: IsBlank(parts[i])
    decreases |parts|
  {
    if |parts| > 1 {
      var rest := parts[1..];
      BlankHalves(parts[0] + sep, Join(rest, sep));
      BlankHalves(parts[0], sep);
      JoinBlankParts(rest, sep);
      forall i | 0 <= i < |parts| ensures IsBlank(parts[i]) {
        if i > 0 { assert parts[i] == rest[i - 1]; }
      }
    }
  }

  /** An occurrence inside one of the parts is an occurrence in their join. */
  lemma {:induction false} JoinContainsPart(parts: seq<string>, sep: string, i: nat, p: string)
    requires i < |parts| && Contains(parts[i], p)
    ensures Contains(Join(parts, sep), p)
  {
    if |parts| > 1 {
      var rest := Join(parts[1..], sep);
      assert Join(parts, sep) == parts[0] + (sep + rest) == (parts[0] + sep) + rest;
      if i == 0 {
        ContainsInConcat(parts[0], sep + rest, p);
      } else {
        JoinContainsPart(parts[1..], sep, i - 1, p);
        ContainsInConcat(parts[0] + sep, rest, p);
      }
    }
  }

  /** An occurrence inside a prefix is an occurrence in the whole string. */
  lemma OccursInPrefix(s: string, p: string, k: nat, j: int)
    requires k <= |s| && OccursAt(s[..k], p, j)
    ensures OccursAt(s, p, j) && j + |p| <= k
  {
    assert s[..k][j..j + |p|] == s[j..j + |p|];
  }

  /**
   * `s.split(sep)` for a non-empty separator: the pieces between leftmost,
   * non-overlapping occurrences. Joining them back gives `s`, no piece
   * contains the separator, and the first cut is at the leftmost occurrence.
   */
  function Split(s: string, sep: string): (parts: seq<string>)
    requires sep != []
    ensures parts != []
    ensures Join(parts, sep) == s
    ensures forall i | 0 <= i < |parts| :: !Contains(parts[i], sep)
    ensures |parts| == 1 <==> IndexOf(s, sep).None?
    ensures |parts| > 1 ==> IndexOf(s, sep) == Some(|parts[0]|)
    decreases |s|
  {
    match IndexOf(s, sep)
    case None => [s]
    case Some(k) =>
      var head, rest := s[..k], Split(s[k + |sep|..], sep);
      assert s == head + sep + s[k + |sep|..];
      assert !Contains(head, sep) by {
        if Contains(head, sep) {
          OccursInPrefix(s, sep, k, IndexOf(head, sep).value);
        }
      }
      [head] + rest
  }

  /**
   * Every cut of `split` is at the leftmost occurrence of the separator in
   * what is left: for a self-overlapping separator such as `##`, this fixes
   * the pieces, not just their join.
   */
  lemma EveryCutLeftmost(s: string, sep: string)
    requires sep != []
    ensures var parts := Split(s, sep);
      forall i | 0 <= i < |parts| - 1 :: IndexOf(Join(parts[i..], sep), sep) == Some(|parts[i]|)
  {
    forall i | 0 <= i < |Split(s, sep)| - 1
      ensures IndexOf(Join(Split(s, sep)[i..], sep), sep) == Some(|Split(s, sep)[i]|)
    {
      CutLeftmost(s, sep, i);
    }
  }

  /** The `i`-th cut of `split` is at the leftmost occurrence in what is left. */
  lemma {:induction false} CutLeftmost(s: string, sep: string, i: nat)
    requires sep != [] && i < |Split(s, sep)| - 1
    ensures IndexOf(Join(Split(s, sep)[i..], sep), sep) == Some(|Split(s, sep)[i]|)
    decreases i
  {
    var parts := Split(s, sep);
    if i == 0 {
      assert parts[i..] == parts;
    } else {
      var k := IndexOf(s, sep).value;
      var tail := s[k + |sep|..];
      var rest := Split(tail, sep);
      assert parts == [s[..k]] + rest;
      CutLeftmost(tail, sep, i - 1);
      assert parts[i..] == rest[i - 1..];
    }
  }

  /** The separator found right after a piece that cannot start it. */
  lemma IndexOfAfter(a: string, sep: string, b: string)
    requires sep != [] && sep[0] !in a
    ensures IndexOf(a + sep + b, sep) == Some(|a|)
  {
    var s := a + sep + b;
    assert OccursAt(s, sep, |a|) by {
      assert s[|a|..|a| + |sep|] == sep;
    }
    forall j | 0 <= j < |a| ensures !OccursAt(s, sep, j) {
      assert s[j] == a[j];
    }
  }

  /** A piece that cannot start the separator does not contain it. */
  lemma IndexOfAbsent(a: string, sep: string)
    requires sep != [] && sep[0] !in a
    ensures IndexOf(a, sep) == None
  {
    forall j | 0 <= j ensures !OccursAt(a, sep, j) {
      if j < |a| { assert a[j] != sep[0]; }
    }
  }

  /** Splitting a piece with no separator start, then the separator, then the rest. */
  lemma SplitAfter(a: string, sep: string, b: string)
    requires sep != [] && sep[0] !in a
    ensures Split(a + sep + b, sep) == [a] + Split(b, sep)
  {
    var s := a + sep + b;
    IndexOfAfter(a, sep, b);
    assert s[..|a|] == a;
    assert s[|a| + |sep|..] == b;
  }

  /** Splitting a piece that cannot start the separator gives the piece alone. */
  lemma SplitNone(a: string, sep: string)
    requires sep != [] && sep[0] !in a
    ensures Split(a, sep) == [a]
  {
    IndexOfAbsent(a, sep);
  }

  /** Splitting on a single character undoes joining on it, for pieces without that character. */
  lemma {:induction false} SplitJoin(parts: seq<string>, c: char)
    requires parts != []
    requires forall i | 0 <= i < |parts| :: c !in parts[i]
    ensures Split(Join(parts, [c]), [c]) == parts
  {
    if |parts| == 1 {
      SplitNone(parts[0], [c]);
    } else {
      SplitJoin(parts[1..], c);
      SplitAfter(parts[0], [c], Join(parts[1..], [c]));
    }
  }

  /** ASCII lowering, as `toLowerCase` does for A-Z. */
  function LowerChar(c: char): char {
    if 'A' <= c <= 'Z' then (c as int + 32) as char else c
  }

  /** ASCII raising, as `toUpperCase` does for a-z. */
  function UpperChar(c: char): char {
    if 'a' <= c <= 'z' then (c as int - 32) as char else c
  }

  /** `s.toLowerCase()` on ASCII letters: same length, each letter lowered in place. */
  function ToLower(s: string): (r: string)
    ensures |r| == |s|
    ensures forall i | 0 <= i < |s| :: r[i] == LowerChar(s[i])
  {
    if s == [] then [] else [LowerChar(s[0])] + ToLower(s[1..])
  }

  /** Lowering distributes over concatenation. */
  lemma ToLowerConcat(a: string, b: string)
    ensures ToLower(a + b) == ToLower(a) + ToLower(b)
  {
  }

  /** `s.charAt(0).toUpperCase() + s.slice(1)`: the first letter raised, the rest kept. */
  function Capitalize(s: string): (r: string)
    ensures |r| == |s|
    ensures s != [] ==> r[0] == UpperChar(s[0]) && r[1..] == s[1..]
  {
    if s == [] then [] else [UpperChar(s[0])] + s[1..]
  }

  /** No whitespace at all in `s`. */
  predicate NoWhitespace(s: string) {
    forall i | 0 <= i < |s| :: !IsWhitespace(s[i])
  }

  /**
   * `s.replace(/\s+/g, '-')`: every maximal run of whitespace becomes one hyphen.
   * The result holds no whitespace, and a string without whitespace is unchanged.
   */
  function HyphenateWhitespace(s: string): (r: string)
    ensures NoWhitespace(r)
    ensures NoWhitespace(s) ==> r == s
    decreases |s|
  {
    if s == [] then []
    else if IsWhitespace(s[0]) then
      var rest := HyphenateWhitespace(TrimStart(s));
      assert forall i | 1 <= i < |rest| + 1 :: ("-" + rest)[i] == rest[i - 1];
      "-" + rest
    else
      var rest := HyphenateWhitespace(s[1..]);
      assert forall i | 1 <= i < |rest| + 1 :: ([s[0]] + rest)[i] == rest[i - 1];
      assert NoWhitespace(s) ==> NoWhitespace(s[1..]) by {
        if NoWhitespace(s) {
          forall i | 0 <= i < |s| - 1 ensures !IsWhitespace(s[1..][i]) { assert s[1..][i] == s[i + 1]; }
        }
      }
      [s[0]] + rest
  }

  /** Trimming the front of whitespace followed by a string that starts with none leaves that string. */
  lemma {:induction false} TrimStartBlank(w: string, b: string)
    requires IsBlank(w) && (b == [] || !IsWhitespace(b[0]))
    ensures TrimStart(w + b) == b
  {
    if w == [] {
      assert w + b == b;
    } else {
      assert (w + b)[0] == w[0] && (w + b)[1..] == w[1..] + b;
      TrimStartBlank(w[1..], b);
    }
  }

  /** A character that is not whitespace passes through the hyphenation unchanged. */
  lemma HyphenatePlainHead(c: char, t: string)
    requires !IsWhitespace(c)
    ensures HyphenateWhitespace([c] + t) == [c] + HyphenateWhitespace(t)
  {
    assert ([c] + t)[0] == c && ([c] + t)[1..] == t;
  }

  /** A whitespace-free prefix passes through the hyphenation unchanged. */
  lemma {:induction false} HyphenatePlainPrefix(a: string, t: string)
    requires NoWhitespace(a)
    ensures HyphenateWhitespace(a + t) == a + HyphenateWhitespace(t)
    decreases |a|
  {
    if a != [] {
      NoWhitespaceTail(a);
      HyphenatePlainPrefix(a[1..], t);
      ConsAppend(a, t);
      HyphenatePlainHead(a[0], a[1..] + t);
      ConsAppend(a, HyphenateWhitespace(t));
    } else {
      assert a + t == t;
    }
  }

  /** A whitespace-free string starts with a non-whitespace character and its tail stays free. */
  lemma NoWhitespaceTail(a: string)
    requires a != [] && NoWhitespace(a)
    ensures NoWhitespace(a[1..]) && !IsWhitespace(a[0])
  {
    assert forall i | 0 <= i < |a[1..]| :: a[1..][i] == a[i + 1];
  }

  /** Appending to a non-empty string appends to its tail. */
  lemma ConsAppend(a: string, t: string)
    requires a != []
    ensures a + t == [a[0]] + (a[1..] + t)
  {
    assert a == [a[0]] + a[1..];
  }

  /**
   * `replace(/\s+/g, '-')` turns a whole run of whitespace into one hyphen:
   * text without whitespace, then a run, then text that does not start with
   * whitespace, becomes the text, `-`, and the rest hyphenated in turn.
   */
  lemma HyphenateRun(a: string, w: string, b: string)
    requires NoWhitespace(a) && w != [] && IsBlank(w) && (b == [] || !IsWhitespace(b[0]))
    ensures HyphenateWhitespace(a + w + b) == a + "-" + HyphenateWhitespace(b)
  {
    assert a + w + b == a + (w + b);
    HyphenatePlainPrefix(a, w + b);
    HyphenateBlankHead(w, b);
    assert a + ("-" + HyphenateWhitespace(b)) == a + "-" + HyphenateWhitespace(b);
  }

  /** A run of whitespace in front of text that does not start with whitespace becomes one `-`. */
  lemma HyphenateBlankHead(w: string, b: string)
    requires w != [] && IsBlank(w) && (b == [] || !IsWhitespace(b[0]))
    ensures HyphenateWhitespace(w + b) == "-" + HyphenateWhitespace(b)
  {
    assert (w + b)[0] == w[0];
    TrimStartBlank(w, b);
  }

  /** Hyphenating twice is hyphenating once. */
  lemma HyphenateIdempotent(s: string)
    ensures HyphenateWhitespace(HyphenateWhitespace(s)) == HyphenateWhitespace(s)
  {
  }

  /** Lowering a character never changes whether it is whitespace. */
  lemma LowerKeepsWhitespace(c: char)
    ensures IsWhitespace(LowerChar(c)) == IsWhitespace(c)
  {
  }

  /** Trimming the front commutes with lowering. */
  lemma {:induction false} TrimStartLower(s: string)
    ensures TrimStart(ToLower(s)) == ToLower(TrimStart(s))
  {
    if s != [] {
      LowerKeepsWhitespace(s[0]);
      assert ToLower(s)[1..] == ToLower(s[1..]);
      TrimStartLower(s[1..]);
    }
  }

  /** Lowering and hyphenating can be done in either order. */
  lemma {:induction false} HyphenateLower(s: string)
    ensures HyphenateWhitespace(ToLower(s)) == ToLower(HyphenateWhitespace(s))
    decreases |s|
  {
    if s != [] {
      var l := ToLower(s);
      LowerKeepsWhitespace(s[0]);
      assert l[0] == LowerChar(s[0]);
      if IsWhitespace(s[0]) {
        TrimStartLower(s);
        HyphenateLower(TrimStart(s));
        ToLowerConcat("-", HyphenateWhitespace(TrimStart(s)));
      } else {
        assert l[1..] == ToLower(s[1..]);
        HyphenateLower(s[1..]);
        ToLowerConcat([s[0]], HyphenateWhitespace(s[1..]));
      }
    }
  }
}
