// html_order_parser.py:67-95: `_clean_html`, which turns a saved page into
// plain text: script and style blocks dropped, block-level tags turned into
// line breaks, every other tag removed, eight entities decoded, and the lines
// trimmed, collapsed and stripped of blanks.

module HtmlClean {
  import opened Text

  // ---------------------------------------------------------------------
  // Case-insensitive matching (`re.IGNORECASE` against lower-case words)
  // ---------------------------------------------------------------------

  /** The lower-case word `p` occurs at index `j` of `s` when case is ignored. */
  predicate OccursCI(s: string, p: string, j: nat)
  {
    j + |p| <= |s| && forall k :: 0 <= k < |p| ==> LowerChar(s[j + k]) == p[k]
  }

  /** The first index at or after `from` where `p` occurs, ignoring case. */
  function FindCI(s: string, p: string, from: nat): (r: Option<nat>)
    ensures r.Some? ==> from <= r.value && OccursCI(s, p, r.value)
    ensures r.Some? ==> forall j :: from <= j < r.value ==> !OccursCI(s, p, j)
    ensures r.None? ==> forall j :: from <= j ==> !OccursCI(s, p, j)
    decreases |s| - from
  {
    if from + |p| > |s| then None
    else if OccursCI(s, p, from) then Some(from)
    else FindCI(s, p, from + 1)
  }

  // ---------------------------------------------------------------------
  // Steps 1-3: the three tag substitutions
  // ---------------------------------------------------------------------

  /**
   * The three patterns of `_clean_html`:
   *   Dropped  `<(script|style)[^>]*>.*?</\1>`   (DOTALL, IGNORECASE) -> ' '
   *   Block    `<(div|p|br|tr|li|h[1-6]|header|footer)[^>]*>` (IGNORECASE) -> '\n'
   *   AnyTag   `<[^>]+>`                                              -> ' '
   */
  datatype TagRule = Dropped | Block | AnyTag

  const BlockNames: seq<string> :=
    ["div", "p", "br", "tr", "li", "h1", "h2", "h3", "h4", "h5", "h6", "header", "footer"]

  predicate BlockNameAt(s: string, i: nat)
  {
    exists k :: 0 <= k < |BlockNames| && OccursCI(s, BlockNames[k], i)
  }

  /**
   * End of a dropped block that opens at `i` with the tag `name`: the first
   * `>` after the name closes the opening tag, and the lazy `.*?` stops at
   * the first closing tag of the same name.
   */
  function DroppedEnd(s: string, i: nat, name: string): (r: Option<nat>)
    ensures r.Some? ==> i < r.value <= |s|
  {
    match FindFrom(s, ">", i + 1 + |name|)
    case None => None
    case Some(g) =>
      match FindCI(s, "</" + name + ">", g + 1)
      case None => None
      case Some(c) => Some(c + |name| + 3)
  }

  /** Where a match of `rule` that starts at `i` ends, if there is one. */
  function MatchEnd(rule: TagRule, s: string, i: nat): (r: Option<nat>)
    requires i < |s|
    ensures r.Some? ==> i < r.value <= |s| && s[i] == '<'
  {
    if s[i] != '<' then None
    else
      match rule
      case Dropped =>
        if OccursCI(s, "script", i + 1) then DroppedEnd(s, i, "script")
        else if OccursCI(s, "style", i + 1) then DroppedEnd(s, i, "style")
        else None
      case Block =>
        if BlockNameAt(s, i + 1) then
          match FindFrom(s, ">", i + 1)
          case None => None
          case Some(g) => Some(g + 1)
        else None
      case AnyTag =>
        if i + 1 < |s| && s[i + 1] != '>' then
          match FindFrom(s, ">", i + 1)
          case None => None
          case Some(g) => Some(g + 1)
        else None
  }

  function Replacement(rule: TagRule): (r: string)
  {
    if rule == Block then "\n" else " "
  }

  /**
   * `re.sub(pattern, replacement, s[i:])`: the leftmost match is replaced and
   * scanning resumes where it ended. Text with no `<` passes unchanged.
   */
  function Sub(rule: TagRule, s: string, i: nat): (r: string)
    ensures (forall k :: i <= k < |s| ==> s[k] != '<') ==> r == if i < |s| then s[i..] else []
    decreases |s| - i
  {
    if i >= |s| then []
    else
      match MatchEnd(rule, s, i)
      case Some(e) => Replacement(rule) + Sub(rule, s, e)
      case None => [s[i]] + Sub(rule, s, i + 1)
  }

  /**
   * Nothing in `t` matches `<[^>]+>`: every `<` that has a `>` somewhere
   * after it is immediately followed by `>`.
   */
  predicate TagFree(t: string)
  {
    forall j, k :: 0 <= j && j + 1 < k < |t| && t[j] == '<' && t[k] == '>' ==> t[j + 1] == '>'
  }

  /** `TagFree` says exactly that the tag pattern matches nowhere. */
  lemma TagFreeNoMatch(t: string)
    ensures TagFree(t) <==> forall j :: 0 <= j < |t| ==> MatchEnd(AnyTag, t, j).None?
  {
    if TagFree(t) {
      forall j | 0 <= j < |t|
        ensures MatchEnd(AnyTag, t, j).None?
      {
        if j + 1 < |t| && t[j] == '<' && t[j + 1] != '>' {
          var f := FindFrom(t, ">", j + 1);
        }
      }
    } else {
      var j, k :| 0 <= j && j + 1 < k < |t| && t[j] == '<' && t[k] == '>' && t[j + 1] != '>';
      assert OccursAt(t, ">", k) by {
        assert t[k..k + 1] == [t[k]];
      }
      assert MatchEnd(AnyTag, t, j).Some?;
    }
  }

  /** Putting one character in front keeps a text tag-free, unless it opens a tag. */
  lemma ConsTagFree(c: char, rest: string)
    requires TagFree(rest)
    requires c == '<' ==> rest == [] || rest[0] == '>' || forall k :: 0 <= k < |rest| ==> rest[k] != '>'
    ensures TagFree([c] + rest)
  {
    var t := [c] + rest;
    forall j, k | 0 <= j && j + 1 < k < |t| && t[j] == '<' && t[k] == '>'
      ensures t[j + 1] == '>'
    {
      if j > 0 {
        assert rest[j - 1] == '<' && rest[k - 1] == '>';
      } else {
        assert rest[k - 1] == '>';
      }
    }
  }

  /** The substitutions only add spaces or line breaks, never a `>`. */
  lemma {:induction false} SubNoGt(rule: TagRule, s: string, i: nat)
    requires forall k :: i <= k < |s| ==> s[k] != '>'
    ensures forall k :: 0 <= k < |Sub(rule, s, i)| ==> Sub(rule, s, i)[k] != '>'
    decreases |s| - i
  {
    if i < |s| {
      match MatchEnd(rule, s, i)
      case Some(e) => SubNoGt(rule, s, e);
      case None => SubNoGt(rule, s, i + 1);
    }
  }

  /** Step 3 leaves no tag behind. */
  lemma {:induction false} SubTagFree(s: string, i: nat)
    ensures TagFree(Sub(AnyTag, s, i))
    decreases |s| - i
  {
    if i < |s| {
      match MatchEnd(AnyTag, s, i)
      case Some(e) =>
        SubTagFree(s, e);
        ConsTagFree(' ', Sub(AnyTag, s, e));
      case None =>
        var rest := Sub(AnyTag, s, i + 1);
        SubTagFree(s, i + 1);
        if s[i] == '<' && i + 1 < |s| {
          if s[i + 1] == '>' {
            assert MatchEnd(AnyTag, s, i + 1).None?;
            assert rest[0] == '>';
          } else {
            forall k | i + 1 <= k < |s|
              ensures s[k] != '>'
            {
              assert !OccursAt(s, ">", k);
              assert s[k..k + 1] == [s[k]];
            }
            SubNoGt(AnyTag, s, i + 1);
          }
        }
        ConsTagFree(s[i], rest);
    }
  }

  /** The text after steps 1-3. */
  function Untagged(html: string): (r: string)
    ensures TagFree(r)
  {
    var t := Sub(AnyTag, Sub(Block, Sub(Dropped, html, 0), 0), 0);
    SubTagFree(Sub(Block, Sub(Dropped, html, 0), 0), 0);
    t
  }

  // ---------------------------------------------------------------------
  // Step 4: entity decoding (`str.replace` in the dictionary's order)
  // ---------------------------------------------------------------------

  /** `s.replace(p, rep)`: non-overlapping occurrences, left to right. */
  function ReplaceAll(s: string, p: string, rep: string): (r: string)
    requires |p| > 0
    ensures !Contains(s, p) ==> r == s
    decreases |s|
  {
    if |s| < |p| then s
    else if s[..|p|] == p then rep + ReplaceAll(s[|p|..], p, rep)
    else [s[0]] + ReplaceAll(s[1..], p, rep)
  }

  predicate CharFree(q: string, c: char)
  {
    forall i :: 0 <= i < |q| ==> q[i] != c
  }

  lemma ContainsLength(s: string, q: string)
    requires Contains(s, q)
    ensures |q| <= |s|
  {
    var i := ContainsWitness(s, q);
  }

  lemma ContainsSlice(s: string, a: nat, b: nat, q: string)
    requires a <= b <= |s| && Contains(s[a..b], q)
    ensures Contains(s, q)
  {
    var i := ContainsWitness(s[a..b], q);
    assert s[a + i..a + i + |q|] == q by {
      forall t | 0 <= t < |q|
        ensures s[a + i + t] == q[t]
      {
        assert s[a..b][i..i + |q|][t] == q[t];
      }
    }
    ContainsAt(s, q, a + i);
  }

  /** A replacement by a character foreign to `q` cannot start a new `q`. */
  lemma {:induction false} ReplacedPrefix(s: string, p: string, c: char, q: string)
    requires |p| > 0 && CharFree(q, c)
    ensures StartsWith(ReplaceAll(s, p, [c]), q) ==> StartsWith(s, q)
    decreases |s|
  {
    var r := ReplaceAll(s, p, [c]);
    if |s| >= |p| && |q| > 0 {
      if s[..|p|] == p {
        assert r[0] == c;
      } else {
        var t := ReplaceAll(s[1..], p, [c]);
        assert r == [s[0]] + t;
        ReplacedPrefix(s[1..], p, c, q[1..]);
        if StartsWith(r, q) {
          assert StartsWith(t, q[1..]) by {
            assert t[..|q| - 1] == r[..|q|][1..];
          }
          assert s[..|q|] == [s[0]] + s[1..][..|q| - 1];
        }
      }
    }
  }

  /** ... nor any new occurrence of `q`. */
  lemma {:induction false} ReplacedContains(s: string, p: string, c: char, q: string)
    requires |p| > 0 && CharFree(q, c)
    ensures Contains(ReplaceAll(s, p, [c]), q) ==> Contains(s, q)
    decreases |s|
  {
    var r := ReplaceAll(s, p, [c]);
    if |s| >= |p| && Contains(r, q) {
      ReplacedPrefix(s, p, c, q);
      if !StartsWith(r, q) {
        if s[..|p|] == p {
          assert r[1..] == ReplaceAll(s[|p|..], p, [c]);
          ReplacedContains(s[|p|..], p, c, q);
          if Contains(s[|p|..], q) {
            assert s[|p|..|s|] == s[|p|..];
            ContainsSlice(s, |p|, |s|, q);
          }
        } else {
          assert r[1..] == ReplaceAll(s[1..], p, [c]);
          ReplacedContains(s[1..], p, c, q);
        }
      }
    }
  }

  /** Replacing `p` by a character that `p` lacks removes every `p`. */
  lemma {:induction false} ReplacedGone(s: string, p: string, c: char)
    requires |p| > 0 && CharFree(p, c)
    ensures !Contains(ReplaceAll(s, p, [c]), p)
    decreases |s|
  {
    var r := ReplaceAll(s, p, [c]);
    if |s| < |p| {
      if Contains(r, p) {
        ContainsLength(r, p);
      }
    } else if s[..|p|] == p {
      ReplacedGone(s[|p|..], p, c);
      assert r[0] == c && p[0] != c;
      assert r[1..] == ReplaceAll(s[|p|..], p, [c]);
    } else {
      ReplacedPrefix(s, p, c, p);
      ReplacedGone(s[1..], p, c);
      assert r[1..] == ReplaceAll(s[1..], p, [c]);
    }
  }

  /** The entity table of `_clean_html`, in its iteration order. */
  const Entities: seq<(string, char)> :=
    [("&amp;", '&'), ("&lt;", '<'), ("&gt;", '>'), ("&quot;", '"'),
     ("&#39;", '\''), ("&nbsp;", ' '), ("&euro;", '\U{20AC}'), ("&#x27;", '\'')]

  /** Characters an entity name is written with. */
  predicate EntityChar(c: char)
  {
    c == '&' || c == '#' || c == ';' || 'a' <= c <= 'z' || '0' <= c <= '9'
  }

  /** Every entity is a non-empty word of entity characters without blanks or line breaks; every decoded character after the first lies outside that alphabet. */
  lemma EntityTable()
    ensures |Entities| == 8
    ensures forall k :: 0 <= k < |Entities| ==>
      |Entities[k].0| > 0 && forall i :: 0 <= i < |Entities[k].0| ==> EntityChar(Entities[k].0[i])
    ensures forall k :: 1 <= k < |Entities| ==> !EntityChar(Entities[k].1)
  {
  }

  /** The text after the first `n` replacements of the loop. */
  function DecodeUpTo(s: string, n: nat): (r: string)
    requires n <= |Entities|
  {
    if n == 0 then s
    else
      EntityTable();
      ReplaceAll(DecodeUpTo(s, n - 1), Entities[n - 1].0, [Entities[n - 1].1])
  }

  /** After replacement `n`, entity `k` (any but `&amp;`, `k < n`) no longer occurs. */
  lemma {:induction false} EntityGone(s: string, k: nat, n: nat)
    requires 1 <= k < n <= |Entities|
    ensures !Contains(DecodeUpTo(s, n), Entities[k].0)
    decreases n
  {
    EntityTable();
    var q := Entities[k].0;
    var c := Entities[n - 1].1;
    assert CharFree(q, c) by {
      forall i | 0 <= i < |q|
        ensures q[i] != c
      {
        assert EntityChar(q[i]);
      }
    }
    if n == k + 1 {
      ReplacedGone(DecodeUpTo(s, k), q, c);
    } else {
      EntityGone(s, k, n - 1);
      ReplacedContains(DecodeUpTo(s, n - 1), Entities[n - 1].0, c, q);
    }
  }

  /** `&amp;` is decoded first, so a doubly escaped `&amp;lt;` ends up as `<`. */
  lemma AmpDecodedFirst()
    ensures DecodeUpTo("&amp;lt;", |Entities|) == "<"
  {
    assert "&amp;lt;"[..5] == "&amp;";
    assert "&amp;lt;"[5..] == "lt;";
    assert DecodeUpTo("&amp;lt;", 1) == "&lt;";
    assert "&lt;"[..4] == "&lt;";
    assert DecodeUpTo("&amp;lt;", 2) == "<";
    assert DecodeUpTo("&amp;lt;", 3) == "<";
    assert DecodeUpTo("&amp;lt;", 4) == "<";
    assert DecodeUpTo("&amp;lt;", 5) == "<";
    assert DecodeUpTo("&amp;lt;", 6) == "<";
    assert DecodeUpTo("&amp;lt;", 7) == "<";
  }

  // ---------------------------------------------------------------------
  // Step 5: line clean-up
  // ---------------------------------------------------------------------

  predicate IsBlankChar(c: char)
  {
    c == ' ' || c == '\t'
  }

  /** Drops the leading run of spaces and tabs. */
  function SkipBlanks(s: string): (r: string)
    ensures |r| <= |s| && r == s[|s| - |r|..]
    ensures r == [] || !IsBlankChar(r[0])
    ensures |s| > 0 && IsBlankChar(s[0]) ==> |r| < |s|
  {
    if |s| > 0 && IsBlankChar(s[0]) then SkipBlanks(s[1..]) else s
  }

  predicate DoubleSpaceAt(s: string, j: nat)
  {
    j + 1 < |s| && s[j] == ' ' && s[j + 1] == ' '
  }

  /** No two spaces in a row. */
  predicate NoDoubleSpace(s: string)
  {
    forall j :: 0 <= j < |s| ==> !DoubleSpaceAt(s, j)
  }

  lemma ConsNoDoubleSpace(ch: char, t: string)
    ensures NoDoubleSpace(t) && (ch == ' ' ==> t == [] || t[0] != ' ') ==> NoDoubleSpace([ch] + t)
  {
    if NoDoubleSpace(t) && (ch == ' ' ==> t == [] || t[0] != ' ') {
      var u := [ch] + t;
      forall j | 0 <= j < |u|
        ensures !DoubleSpaceAt(u, j)
      {
        if j > 0 && j + 1 < |u| {
          assert !DoubleSpaceAt(t, j - 1);
        }
      }
    }
  }

  /**
   * `re.sub(r'[ \t]+', ' ', s)`: every run of spaces and tabs becomes one
   * space; nothing else changes.
   */
  function Collapse(s: string): (r: string)
    ensures |r| <= |s|
    ensures r == [] <==> s == []
    ensures |s| > 0 && !IsBlankChar(s[0]) ==> r[0] == s[0]
    decreases |s|
  {
    if |s| == 0 then []
    else if IsBlankChar(s[0]) then " " + Collapse(SkipBlanks(s))
    else [s[0]] + Collapse(s[1..])
  }

  lemma ConsCharFree(x: char, t: string, c: char)
    requires CharFree(t, c) && x != c
    ensures CharFree([x] + t, c)
  {
    forall i | 0 <= i < |t| + 1
      ensures ([x] + t)[i] != c
    {
      if i > 0 {
        assert ([x] + t)[i] == t[i - 1];
      }
    }
  }

  lemma SuffixCharFree(s: string, a: nat, c: char)
    requires a <= |s| && CharFree(s, c)
    ensures CharFree(s[a..], c)
  {
    forall i | 0 <= i < |s| - a
      ensures s[a..][i] != c
    {
      assert s[a..][i] == s[a + i];
    }
  }

  /** Collapsing leaves no tab, and adds no character `c` other than a space. */
  lemma {:induction false} CollapseCharFree(s: string, c: char)
    requires c != ' ' && (c == '\t' || CharFree(s, c))
    ensures CharFree(Collapse(s), c)
    decreases |s|
  {
    if |s| > 0 {
      if IsBlankChar(s[0]) {
        var rest := SkipBlanks(s);
        if c != '\t' {
          SuffixCharFree(s, |s| - |rest|, c);
        }
        CollapseCharFree(rest, c);
        ConsCharFree(' ', Collapse(rest), c);
      } else {
        if c != '\t' {
          SuffixCharFree(s, 1, c);
          assert s[0] != c;
        }
        CollapseCharFree(s[1..], c);
        ConsCharFree(s[0], Collapse(s[1..]), c);
      }
    }
  }

  /** Collapsing leaves no two spaces in a row. */
  lemma {:induction false} CollapseNoDoubleSpace(s: string)
    ensures NoDoubleSpace(Collapse(s))
    decreases |s|
  {
    if |s| > 0 {
      if IsBlankChar(s[0]) {
        var rest := SkipBlanks(s);
        CollapseNoDoubleSpace(rest);
        ConsNoDoubleSpace(' ', Collapse(rest));
      } else {
        CollapseNoDoubleSpace(s[1..]);
        ConsNoDoubleSpace(s[0], Collapse(s[1..]));
      }
    }
  }

  /** A cleaned line: not empty, no white space at either end, no tab, no line break, no two spaces in a row. */
  predicate CleanLine(l: string)
  {
    l != [] && !IsSpace(l[0]) && !IsSpace(l[|l| - 1])
    && CharFree(l, '\t') && CharFree(l, '\n') && NoDoubleSpace(l)
  }

  /** `re.sub(r'[ \t]+', ' ', line).strip()`. */
  function Tidy(line: string): (r: string)
    ensures |r| <= |line|
  {
    Strip(Collapse(line))
  }

  /** `Strip(s)` is the slice of `s` between its outer white space. */
  lemma StripSlice(s: string) returns (a: nat)
    ensures a + |Strip(s)| <= |s| && Strip(s) == s[a..a + |Strip(s)|]
  {
    LStripFacts(s);
    var l := LStrip(s);
    RStripFacts(l);
    a := |s| - |l|;
    var r := RStrip(l);
    assert Strip(s) == r;
    forall t | 0 <= t < |r|
      ensures r[t] == s[a + t]
    {
      assert r[t] == l[t];
    }
  }

  /** A slice of a text free of `c` is free of `c`. */
  lemma SliceCharFree(s: string, a: nat, n: nat, c: char)
    requires a + n <= |s| && CharFree(s, c)
    ensures CharFree(s[a..a + n], c)
  {
    var t := s[a..a + n];
    forall i | 0 <= i < |t|
      ensures t[i] != c
    {
      assert t[i] == s[a + i];
    }
  }

  lemma SliceNoDoubleSpace(s: string, a: nat, n: nat)
    requires a + n <= |s| && NoDoubleSpace(s)
    ensures NoDoubleSpace(s[a..a + n])
  {
    var t := s[a..a + n];
    forall j | 0 <= j < |t|
      ensures !DoubleSpaceAt(t, j)
    {
      if j + 1 < |t| {
        assert t[j] == s[a + j] && t[j + 1] == s[a + j + 1];
        assert !DoubleSpaceAt(s, a + j);
      }
    }
  }

  /** Tidying leaves no tab and no two spaces in a row. */
  lemma TidyCollapsed(line: string)
    ensures CharFree(Tidy(line), '\t') && NoDoubleSpace(Tidy(line))
  {
    var c := Collapse(line);
    var a := StripSlice(c);
    var n := |Strip(c)|;
    var t := c[a..a + n];
    assert Tidy(line) == t;
    CollapseCharFree(line, '\t');
    SliceCharFree(c, a, n, '\t');
    assert CharFree(t, '\t');
    CollapseNoDoubleSpace(line);
    SliceNoDoubleSpace(c, a, n);
    assert NoDoubleSpace(t);
  }

  /** Tidying adds no line break. */
  lemma TidyNoBreak(line: string)
    requires CharFree(line, '\n')
    ensures CharFree(Tidy(line), '\n')
  {
    var c := Collapse(line);
    var a := StripSlice(c);
    CollapseCharFree(line, '\n');
    SliceCharFree(c, a, |Strip(c)|, '\n');
  }

  /** A line with no line break tidies to a clean line or to nothing. */
  lemma TidyClean(line: string)
    ensures CharFree(line, '\n') ==> Tidy(line) == [] || CleanLine(Tidy(line))
  {
    StripFacts(Collapse(line));
    TidyCollapsed(line);
    if CharFree(line, '\n') {
      TidyNoBreak(line);
    }
  }

  /** The lines the loop keeps: the non-empty tidied parts, in order. */
  function KeptLines(parts: seq<string>): (r: seq<string>)
    ensures |r| <= |parts|
    ensures (forall m :: 0 <= m < |parts| ==> CharFree(parts[m], '\n')) ==>
      forall k :: 0 <= k < |r| ==> CleanLine(r[k])
  {
    if parts == [] then []
    else
      var prev := KeptLines(parts[..|parts| - 1]);
      var last := parts[|parts| - 1];
      var t := Tidy(last);
      TidyClean(last);
      if t != [] then prev + [t] else prev
  }

  /** The parts `split('\n')` returns contain no line break. */
  lemma {:induction false} SplitPartsFree(s: string)
    ensures forall m :: 0 <= m < |Split(s, "\n")| ==> CharFree(Split(s, "\n")[m], '\n')
    decreases |s|
  {
    match FindFrom(s, "\n", 0)
    case None =>
      forall i | 0 <= i < |s|
        ensures s[i] != '\n'
      {
        assert !OccursAt(s, "\n", i);
        assert s[i..i + 1] == [s[i]];
      }
    case Some(i) =>
      forall j | 0 <= j < i
        ensures s[j] != '\n'
      {
        assert !OccursAt(s, "\n", j);
        assert s[j..j + 1] == [s[j]];
      }
      SplitPartsFree(s[i + 1..]);
  }

  /** Every part `split('\n')` returns is a piece of the text. */
  lemma {:induction false} SplitPartsInside(s: string, q: string)
    requires !Contains(s, q)
    ensures forall m :: 0 <= m < |Split(s, "\n")| ==> !Contains(Split(s, "\n")[m], q)
    decreases |s|
  {
    match FindFrom(s, "\n", 0)
    case None =>
    case Some(i) =>
      if Contains(s[..i], q) {
        ContainsSlice(s, 0, i, q);
      }
      if Contains(s[i + 1..], q) {
        assert s[i + 1..|s|] == s[i + 1..];
        ContainsSlice(s, i + 1, |s|, q);
      }
      SplitPartsInside(s[i + 1..], q);
  }

  /** Collapsing blanks cannot start a word that has no blank in it. */
  lemma {:induction false} CollapsePrefix(s: string, q: string)
    requires CharFree(q, ' ')
    ensures StartsWith(Collapse(s), q) ==> StartsWith(s, q)
    decreases |s|
  {
    var r := Collapse(s);
    if |s| > 0 && |q| > 0 {
      if IsBlankChar(s[0]) {
        assert r[0] == ' ';
      } else {
        var t := Collapse(s[1..]);
        assert r == [s[0]] + t;
        CollapsePrefix(s[1..], q[1..]);
        if StartsWith(r, q) {
          assert StartsWith(t, q[1..]) by {
            assert t[..|q| - 1] == r[..|q|][1..];
          }
          assert s[..|q|] == [s[0]] + s[1..][..|q| - 1];
        }
      }
    }
  }

  /** ... nor create such a word anywhere. */
  lemma {:induction false} CollapseContains(s: string, q: string)
    requires CharFree(q, ' ')
    ensures Contains(Collapse(s), q) ==> Contains(s, q)
    decreases |s|
  {
    if |s| > 0 {
      var r := Collapse(s);
      CollapsePrefix(s, q);
      if IsBlankChar(s[0]) {
        var rest := SkipBlanks(s);
        assert r == " " + Collapse(rest);
        CollapseContains(rest, q);
        if Contains(rest, q) {
          SuffixContains(s, |s| - |rest|, q);
        }
      } else {
        assert r == [s[0]] + Collapse(s[1..]);
        CollapseContains(s[1..], q);
      }
    }
  }

  lemma SuffixContains(s: string, a: nat, q: string)
    requires a <= |s| && Contains(s[a..], q)
    ensures Contains(s, q)
  {
    assert s[a..|s|] == s[a..];
    ContainsSlice(s, a, |s|, q);
  }

  /** Tidying a line cannot create a word without blanks. */
  lemma TidyContains(line: string, q: string)
    requires CharFree(q, ' ')
    ensures Contains(Tidy(line), q) ==> Contains(line, q)
  {
    var c := Collapse(line);
    var a := StripSlice(c);
    if Contains(Tidy(line), q) {
      assert c[a..a + |Tidy(line)|] == Tidy(line);
      ContainsSlice(c, a, a + |Tidy(line)|, q);
      CollapseContains(line, q);
    }
  }

  lemma {:induction false} KeptLinesInside(parts: seq<string>, q: string)
    requires CharFree(q, ' ')
    requires forall m :: 0 <= m < |parts| ==> !Contains(parts[m], q)
    ensures forall k :: 0 <= k < |KeptLines(parts)| ==> !Contains(KeptLines(parts)[k], q)
  {
    if parts != [] {
      KeptLinesInside(parts[..|parts| - 1], q);
      TidyContains(parts[|parts| - 1], q);
    }
  }

  // ---------------------------------------------------------------------
  // The whole of `_clean_html`
  // ---------------------------------------------------------------------

  /** The lines `_clean_html(html)` keeps. */
  function CleanedLinesOf(html: string): (r: seq<string>)
  {
    if html == [] then [] else KeptLines(Split(DecodeUpTo(Untagged(html), |Entities|), "\n"))
  }

  /** What `_clean_html(html)` returns: the kept lines joined by line breaks. */
  function CleanedText(html: string): (r: string)
  {
    Join(CleanedLinesOf(html), "\n")
  }

  /** Loop 4 of `_clean_html`: each entity of the table replaced in turn. */
  method DecodeEntities(start: string) returns (text: string)
    ensures text == DecodeUpTo(start, |Entities|)
  {
    text := start;
    var k := 0;
    EntityTable();
    while k < |Entities|
      invariant 0 <= k <= |Entities|
      invariant text == DecodeUpTo(start, k)
    {
      text := ReplaceAll(text, Entities[k].0, [Entities[k].1]);
      k := k + 1;
    }
  }

  /** Loop 5 of `_clean_html`: the non-blank tidied lines, in order. */
  method KeepLines(parts: seq<string>) returns (lines: seq<string>)
    ensures lines == KeptLines(parts)
  {
    lines := [];
    var i := 0;
    while i < |parts|
      invariant 0 <= i <= |parts|
      invariant lines == KeptLines(parts[..i])
    {
      var line := Tidy(parts[i]);
      assert parts[..i + 1][..i] == parts[..i];
      if line != [] {
        lines := lines + [line];
      }
      i := i + 1;
    }
    assert parts[..|parts|] == parts;
  }

  /** `_clean_html`. */
  method CleanHtml(html: string) returns (r: string)
    ensures r == CleanedText(html)
  {
    if html == [] {
      return [];
    }
    var text := DecodeEntities(Untagged(html));
    var lines := KeepLines(Split(text, "\n"));
    r := Join(lines, "\n");
  }

  /**
   * The cleaned text splits back into exactly the kept lines, and every one
   * of them is clean: none empty, none padded, no tab, no double space.
   */
  lemma CleanedLines(html: string)
    ensures var r := CleanedText(html);
      (r == [] <==> CleanedLinesOf(html) == [])
      && (r != [] ==> Split(r, "\n") == CleanedLinesOf(html))
      && forall k :: 0 <= k < |CleanedLinesOf(html)| ==> CleanLine(CleanedLinesOf(html)[k])
  {
    var lines := CleanedLinesOf(html);
    if html != [] {
      var d := DecodeUpTo(Untagged(html), |Entities|);
      SplitPartsFree(d);
    }
    if |lines| > 0 {
      forall k | 0 <= k < |lines|
        ensures !HasChar(lines[k], '\n')
      {
        assert CleanLine(lines[k]);
      }
      SplitJoin(lines, '\n');
      if |lines| == 1 {
        assert CleanedText(html) == lines[0];
      } else {
        assert |CleanedText(html)| >= |lines[0]| + 1;
      }
    }
  }

  /** No line of the cleaned text holds any of the seven entities after `&amp;`. */
  lemma CleanedEntities(html: string)
    ensures forall k, m :: 1 <= k < |Entities| && 0 <= m < |CleanedLinesOf(html)| ==>
      !Contains(CleanedLinesOf(html)[m], Entities[k].0)
  {
    EntityTable();
    forall k | 1 <= k < |Entities|
      ensures forall m :: 0 <= m < |CleanedLinesOf(html)| ==> !Contains(CleanedLinesOf(html)[m], Entities[k].0)
    {
      var q := Entities[k].0;
      if html != [] {
        assert CharFree(q, ' ') by {
          forall i | 0 <= i < |q|
            ensures q[i] != ' '
          {
            assert EntityChar(q[i]);
          }
        }
        var d := DecodeUpTo(Untagged(html), |Entities|);
        EntityGone(Untagged(html), k, |Entities|);
        SplitPartsInside(d, q);
        KeptLinesInside(Split(d, "\n"), q);
      }
    }
  }
}
