/** `highlightSearchTerm`: wraps every case-insensitive, non-overlapping occurrence of the
    search term, found left to right, in a `<mark>` element. The term is escaped before it
    becomes a regular expression, so it is matched literally; the model therefore scans for
    the literal term directly and shows separately that the escaped pattern denotes exactly
    the term. The highlighted text is a sequence of spans: plain text and marked text. */
module Highlight {
  import opened Wrappers
  import opened Text

  /** The characters the escaping regular expression `/[.*+?^${}()|[\]\\]/g` matches. */
  predicate IsRegexMeta(c: char)
  {
    c in ".*+?^${}()|[]\\"
  }

  function EscapeChar(c: char): string
  {
    if IsRegexMeta(c) then ['\\', c] else [c]
  }

  /** `term.replace(/[.*+?^${}()|[\]\\]/g, '\\$&')`: a backslash before every metacharacter. */
  function Escape(term: string): (p: string)
    ensures |term| <= |p| <= 2 * |term|
    ensures (forall i :: 0 <= i < |term| ==> !IsRegexMeta(term[i])) ==> p == term
    decreases |term|
  {
    if term == [] then [] else EscapeChar(term[0]) + Escape(term[1..])
  }

  /** The text a regular-expression pattern matches when it consists only of ordinary
      characters and backslash-escaped metacharacters; None when it holds anything else
      (an operator, a class, an anchor, any other escape). */
  function LiteralOf(pattern: string): Option<string>
    decreases |pattern|
  {
    if pattern == [] then Some([])
    else if pattern[0] == '\\' then
      if |pattern| >= 2 && IsRegexMeta(pattern[1]) then
        match LiteralOf(pattern[2..])
        case Some(rest) => Some([pattern[1]] + rest)
        case None => None
      else None
    else if IsRegexMeta(pattern[0]) then None
    else
      match LiteralOf(pattern[1..])
      case Some(rest) => Some([pattern[0]] + rest)
      case None => None
  }

  /** Escaping makes the search term a pure literal: the pattern matches exactly the term's
      characters, whatever metacharacters the term contains. */
  lemma {:induction false} EscapeIsLiteral(term: string)
    ensures LiteralOf(Escape(term)) == Some(term)
    decreases |term|
  {
    if term != [] {
      var c, rest := term[0], term[1..];
      EscapeIsLiteral(rest);
      var p := Escape(term);
      assert p == EscapeChar(c) + Escape(rest);
      if IsRegexMeta(c) {
        assert p[0] == '\\' && p[1] == c && p[2..] == Escape(rest);
      } else {
        assert p[0] == c && p[1..] == Escape(rest);
      }
      assert [c] + rest == term;
    }
  }

  /** The regular expression's `i` flag: equal character by character after case folding. */
  predicate SameIgnoringCase(a: string, b: string)
    decreases |a|
  {
    |a| == |b| && (a == [] || (LowerChar(a[0]) == LowerChar(b[0]) && SameIgnoringCase(a[1..], b[1..])))
  }

  lemma LowerCons(a: string)
    requires a != []
    ensures Lower(a) == [LowerChar(a[0])] + Lower(a[1..])
  {
  }

  /** Comparing ignoring case is comparing the lower-cased strings. */
  lemma {:induction false} SameIgnoringCaseIsLowerEqual(a: string, b: string)
    ensures SameIgnoringCase(a, b) <==> |a| == |b| && Lower(a) == Lower(b)
    decreases |a|
  {
    if |a| == |b| && a != [] {
      SameIgnoringCaseIsLowerEqual(a[1..], b[1..]);
      LowerCons(a);
      LowerCons(b);
      if Lower(a) == Lower(b) {
        assert Lower(a)[0] == Lower(b)[0] && Lower(a)[1..] == Lower(b)[1..];
      }
    }
  }

  /** The term matches `text` at index `i`, ignoring case. */
  predicate MatchesAt(text: string, i: int, term: string)
  {
    0 <= i && i + |term| <= |text| && SameIgnoringCase(text[i..i + |term|], term)
  }

  /** A piece of highlighted text: a text node or a `<mark>` element around its text. */
  datatype Span = Plain(text: string) | Mark(text: string)

  /** `element.textContent` of highlighted text: the tags dropped, the text kept. */
  function TextContent(spans: seq<Span>): string
    decreases |spans|
  {
    if spans == [] then [] else spans[0].text + TextContent(spans[1..])
  }

  /** `element.innerHTML` of highlighted text. */
  function Render(spans: seq<Span>): string
    decreases |spans|
  {
    if spans == [] then []
    else
      (match spans[0]
       case Plain(t) => t
       case Mark(t) => "<mark>" + t + "</mark>") + Render(spans[1..])
  }

  predicate HasMark(spans: seq<Span>)
  {
    exists k :: 0 <= k < |spans| && spans[k].Mark?
  }

  /** The global, case-insensitive replace: at each position, a match is marked (with the
      text's own letters, as `$1` keeps them) and the scan resumes after it; otherwise one
      character is kept and the scan moves on. */
  function Marked(text: string, term: string): (r: seq<Span>)
    requires term != []
    ensures r == [] <==> text == []
    ensures |r| <= |text|
    decreases |text|
  {
    if text == [] then []
    else if MatchesAt(text, 0, term) then [Mark(text[..|term|])] + Marked(text[|term|..], term)
    else [Plain([text[0]])] + Marked(text[1..], term)
  }

  /** `highlightSearchTerm(text, term)`: a blank term returns the text untouched; in every
      case the text content of the result is the original text, so restoring an element
      through `textContent` removes exactly the marks. */
  function HighlightSearchTerm(text: string, term: string): (r: seq<Span>)
    ensures TextContent(r) == text
    ensures Trim(term) == [] ==> Render(r) == text && !HasMark(r)
  {
    if Trim(term) == [] then
      assert [Plain(text)][1..] == [];
      [Plain(text)]
    else
      MarkedKeepsText(text, term);
      Marked(text, term)
  }

  lemma {:induction false} MarkedKeepsText(text: string, term: string)
    requires term != []
    ensures TextContent(Marked(text, term)) == text
    decreases |text|
  {
    if text != [] {
      var r := Marked(text, term);
      if MatchesAt(text, 0, term) {
        MarkedKeepsText(text[|term|..], term);
        assert r[1..] == Marked(text[|term|..], term);
        assert text[..|term|] + text[|term|..] == text;
      } else {
        MarkedKeepsText(text[1..], term);
        assert r[1..] == Marked(text[1..], term);
        assert [text[0]] + text[1..] == text;
      }
    }
  }

  /** Where each span of the output sits: span k starts at the length of the text before
      it. A marked span is a case-insensitive match of the term there, holding the text's
      own characters; a plain span is the single character there, at which no match
      starts. So every occurrence the left-to-right scan reaches is marked, none overlap,
      and nothing else is. */
  lemma MarkedSpansAt(text: string, term: string, k: int)
    requires term != [] && 0 <= k < |Marked(text, term)|
    ensures var r := Marked(text, term);
      var at := |TextContent(r[..k])|;
      (r[k].Mark? ==> MatchesAt(text, at, term) && r[k].text == text[at..at + |term|]) &&
      (r[k].Plain? ==> at < |text| && !MatchesAt(text, at, term) && r[k].text == [text[at]])
  {
    var at := MarkedSuffix(text, term, k);
    assert Marked(text, term)[k] == Marked(text[at..], term)[0];
    FirstSpanAt(text, term, at);
  }

  /** The first span of the scan restarted at offset `at` is a match there or the single
      character there. */
  lemma FirstSpanAt(text: string, term: string, at: int)
    requires term != [] && 0 <= at < |text|
    ensures var s := Marked(text[at..], term)[0];
      (s.Mark? ==> MatchesAt(text, at, term) && s.text == text[at..at + |term|]) &&
      (s.Plain? ==> !MatchesAt(text, at, term) && s.text == [text[at]])
  {
    var rest := text[at..];
    var n := FirstSpanLength(rest, term);
    MatchShift(text, at, 0, term);
    assert rest[..n] == text[at..at + n];
  }

  /** The spans from index k on are the scan restarted where span k begins. */
  lemma {:induction false} MarkedSuffix(text: string, term: string, k: int) returns (at: int)
    requires term != [] && 0 <= k <= |Marked(text, term)|
    ensures at == |TextContent(Marked(text, term)[..k])| && at <= |text|
    ensures Marked(text, term)[k..] == Marked(text[at..], term)
    decreases |text|
  {
    var r := Marked(text, term);
    if k == 0 {
      assert r[..0] == [];
      at := 0;
    } else {
      var n := FirstSpanLength(text, term);
      var tail := text[n..];
      var t := Marked(tail, term);
      var at' := MarkedSuffix(tail, term, k - 1);
      assert r[..k] == [r[0]] + t[..k - 1];
      assert r[..k][1..] == t[..k - 1];
      at := n + at';
      assert r[k..] == t[k - 1..];
      assert tail[at'..] == text[at..];
    }
  }

  /** The first span of the output covers the first match, or else the first character. */
  lemma FirstSpanLength(text: string, term: string) returns (n: int)
    requires term != [] && text != []
    ensures n == (if MatchesAt(text, 0, term) then |term| else 1)
    ensures 0 < n <= |text|
    ensures Marked(text, term) == [Marked(text, term)[0]] + Marked(text[n..], term)
    ensures Marked(text, term)[0].Mark? <==> MatchesAt(text, 0, term)
    ensures Marked(text, term)[0].text == text[..n] && |text[..n]| == n
  {
    n := if MatchesAt(text, 0, term) then |term| else 1;
  }

  /** Looking at index i of a suffix is looking at index n + i of the whole text. */
  lemma MatchShift(text: string, n: int, i: int, term: string)
    requires 0 <= n <= |text| && 0 <= i
    ensures MatchesAt(text[n..], i, term) <==> MatchesAt(text, n + i, term)
    ensures i + |term| <= |text| - n ==> text[n..][i..i + |term|] == text[n + i..n + i + |term|]
    ensures i < |text| - n ==> text[n..][i] == text[n + i]
  {
    if i + |term| <= |text| - n {
      assert text[n..][i..i + |term|] == text[n + i..n + i + |term|];
    }
  }

  /** The output holds a mark exactly when the term occurs somewhere in the text,
      ignoring case. */
  lemma {:induction false} MarkedHasMarkIff(text: string, term: string)
    requires term != []
    ensures HasMark(Marked(text, term)) <==> exists i :: MatchesAt(text, i, term)
    decreases |text|
  {
    if text == [] {
      assert forall i :: !MatchesAt(text, i, term);
    } else {
      var n := FirstSpanLength(text, term);
      MarkedHasMarkIff(text[n..], term);
      HasMarkCons(Marked(text, term)[0], Marked(text[n..], term));
      if !MatchesAt(text, 0, term) {
        SkipFirstCharacter(text, term);
      }
    }
  }

  /** A mark sits in front of a span list or in the list itself. */
  lemma HasMarkCons(s: Span, t: seq<Span>)
    ensures HasMark([s] + t) <==> s.Mark? || HasMark(t)
  {
    var r := [s] + t;
    assert r[0] == s;
    if HasMark(t) {
      var k :| 0 <= k < |t| && t[k].Mark?;
      assert r[k + 1] == t[k];
    }
    if HasMark(r) && !s.Mark? {
      var k :| 0 <= k < |r| && r[k].Mark?;
      assert t[k - 1] == r[k];
    }
  }

  /** With no match at the first character, the text matches somewhere exactly when the
      rest of it does. */
  lemma SkipFirstCharacter(text: string, term: string)
    requires text != [] && !MatchesAt(text, 0, term)
    ensures (exists i :: MatchesAt(text, i, term)) <==> exists i :: MatchesAt(text[1..], i, term)
  {
    if exists i :: MatchesAt(text, i, term) {
      var i :| MatchesAt(text, i, term);
      MatchShift(text, 1, i - 1, term);
    }
    if exists i :: MatchesAt(text[1..], i, term) {
      var i :| MatchesAt(text[1..], i, term);
      MatchShift(text, 1, i, term);
    }
  }

  /** Text without marks renders as its text content. */
  lemma {:induction false} RenderWithoutMarks(spans: seq<Span>)
    requires !HasMark(spans)
    ensures Render(spans) == TextContent(spans)
    decreases |spans|
  {
    if spans != [] {
      assert forall k :: 0 <= k < |spans| - 1 ==> spans[1..][k] == spans[k + 1];
      assert spans[0].Plain?;
      RenderWithoutMarks(spans[1..]);
    }
  }
}
