/** The search box's input handler: it normalises the query, shows or hides each menu item,
    highlights the matching fields, counts the visible items and hides the menu sections
    left without a visible item. Each menu item is seen through its heading and its
    description, each a piece of highlighted text. */
module MenuSearch {
  import opened Text
  import opened Highlight

  /** A menu item as the page shows it: hidden or not, emphasised as a hit or not, and
      the current content of its heading and description elements. */
  datatype ItemView = ItemView(hidden: bool, highlighted: bool, title: seq<Span>, description: seq<Span>)

  /** What the handler reports besides the items themselves: the normalised term, the
      count passed to the results counter, whether the "no results" message shows, and
      whether each section is displayed. */
  datatype SearchOutcome = SearchOutcome(term: string, visible: nat, noResults: bool, sectionShown: seq<bool>)

  /** `this.value.toLowerCase().trim()`: a lower-case term, empty exactly when the input is
      all white space, and otherwise starting and ending with a non-space character. */
  function SearchTerm(input: string): (t: string)
    ensures IsLower(t)
    ensures t == [] <==> AllSpace(input)
    ensures t != [] ==> !IsSpace(t[0]) && !IsSpace(t[|t| - 1])
  {
    LowerTrimIsLower(input);
    Trim(Lower(input))
  }

  /** `if (el.innerHTML.includes('<mark>')) el.innerHTML = el.textContent`: marks go, the
      text stays, and unmarked content is left as it is. */
  function ClearMarks(f: seq<Span>): (r: seq<Span>)
    ensures TextContent(r) == TextContent(f) && !HasMark(r)
    ensures !HasMark(f) ==> r == f
  {
    if HasMark(f) then
      assert [Plain(TextContent(f))][1..] == [];
      [Plain(TextContent(f))]
    else f
  }

  /** `el.textContent.toLowerCase().includes(searchTerm)`. */
  predicate FieldMatches(f: seq<Span>, term: string)
  {
    Contains(Lower(TextContent(f)), term)
  }

  predicate ItemMatches(v: ItemView, term: string)
  {
    FieldMatches(v.title, term) || FieldMatches(v.description, term)
  }

  /** The blank-query branch for one item: shown, not emphasised, marks removed. */
  function ShowAll(v: ItemView): ItemView
  {
    ItemView(false, false, ClearMarks(v.title), ClearMarks(v.description))
  }

  /** The non-blank branch for one item exactly as the handler is written: the item is
      hidden exactly when neither field matches, and emphasised exactly when shown; every
      field keeps its text; a matching field shows the highlighting of its text. A matching
      item has only its matching fields re-highlighted, so a field that does not match keeps
      whatever marks an earlier query left in it; a hidden item's fields lose their marks. */
  function ApplyTermAsWritten(v: ItemView, term: string): (w: ItemView)
    ensures w.hidden <==> !ItemMatches(v, term)
    ensures w.highlighted <==> !w.hidden
    ensures TextContent(w.title) == TextContent(v.title)
    ensures TextContent(w.description) == TextContent(v.description)
    ensures FieldMatches(v.title, term) ==> w.title == HighlightSearchTerm(TextContent(v.title), term)
    ensures FieldMatches(v.description, term) ==>
              w.description == HighlightSearchTerm(TextContent(v.description), term)
    ensures w.hidden ==> !HasMark(w.title) && !HasMark(w.description)
    ensures !w.hidden && !FieldMatches(v.title, term) ==> w.title == v.title
    ensures !w.hidden && !FieldMatches(v.description, term) ==> w.description == v.description
  {
    if ItemMatches(v, term) then
      ItemView(false, true,
               if FieldMatches(v.title, term) then HighlightSearchTerm(TextContent(v.title), term) else v.title,
               if FieldMatches(v.description, term) then HighlightSearchTerm(TextContent(v.description), term) else v.description)
    else
      ItemView(true, false, ClearMarks(v.title), ClearMarks(v.description))
  }

  /** The non-blank branch for one item as intended: every field shows either the
      highlighting of its original text or that text unmarked. */
  function ApplyTerm(v: ItemView, term: string): ItemView
  {
    ItemView(!ItemMatches(v, term), ItemMatches(v, term),
             if FieldMatches(v.title, term) then HighlightSearchTerm(TextContent(v.title), term) else ClearMarks(v.title),
             if FieldMatches(v.description, term) then HighlightSearchTerm(TextContent(v.description), term) else ClearMarks(v.description))
  }

  /** One item after the handler has run: the blank branch or the filtering branch, as
      written. */
  function UpdateItem(v: ItemView, term: string): ItemView
  {
    if term == [] then ShowAll(v) else ApplyTermAsWritten(v, term)
  }

  /** Every item after the handler has run with the normalised term. */
  function SearchViews(vs: seq<ItemView>, term: string): seq<ItemView>
  {
    seq(|vs|, i requires 0 <= i < |vs| => UpdateItem(vs[i], term))
  }

  /** The number of items the term matches. */
  function CountMatches(vs: seq<ItemView>, term: string): nat
    decreases |vs|
  {
    if vs == [] then 0
    else CountMatches(vs[..|vs| - 1], term) + (if ItemMatches(vs[|vs| - 1], term) then 1 else 0)
  }

  /** The number of items not hidden. */
  function CountShown(vs: seq<ItemView>): nat
    decreases |vs|
  {
    if vs == [] then 0 else CountShown(vs[..|vs| - 1]) + (if vs[|vs| - 1].hidden then 0 else 1)
  }

  /** Some item of the section (given by the indices of its items) is not hidden. */
  predicate SectionHasVisible(vs: seq<ItemView>, section: seq<int>)
  {
    exists k :: 0 <= k < |section| && 0 <= section[k] < |vs| && !vs[section[k]].hidden
  }

  /** Section display after the handler: every section for a blank term, otherwise the
      sections with a visible item. */
  function SectionDisplay(vs: seq<ItemView>, sections: seq<seq<int>>, term: string): (r: seq<bool>)
    ensures |r| == |sections|
    ensures term == [] ==> forall j :: 0 <= j < |r| ==> r[j]
    ensures term != [] ==> forall j :: 0 <= j < |r| ==>
              (r[j] <==> exists k :: 0 <= k < |sections[j]| && 0 <= sections[j][k] < |vs| && !vs[sections[j][k]].hidden)
  {
    seq(|sections|, j requires 0 <= j < |sections| => term == [] || SectionHasVisible(vs, sections[j]))
  }

  /** The search box's input handler. */
  method OnSearchInput(items: array<ItemView>, sections: seq<seq<int>>, input: string) returns (out: SearchOutcome)
    modifies items
    ensures out.term == SearchTerm(input)
    ensures items[..] == SearchViews(old(items[..]), out.term)
    ensures out.term == [] ==> out.visible == 0 && !out.noResults
    ensures out.term != [] ==> out.visible == CountMatches(old(items[..]), out.term) &&
                               (out.noResults <==> out.visible == 0)
    ensures out.sectionShown == SectionDisplay(items[..], sections, out.term)
  {
    var term := SearchTerm(input);
    if term == [] {
      ShowEveryItem(items);
      out := SearchOutcome(term, 0, false, SectionDisplay(items[..], sections, term));
    } else {
      var totalVisible, hasResults := FilterItems(items, term);
      out := SearchOutcome(term, totalVisible, !hasResults, SectionDisplay(items[..], sections, term));
    }
  }

  /** The blank-query loop: every item shown and stripped of marks. */
  method ShowEveryItem(items: array<ItemView>)
    modifies items
    ensures items[..] == SearchViews(old(items[..]), [])
  {
    for i := 0 to items.Length
      invariant forall k :: 0 <= k < i ==> items[k] == ShowAll(old(items[k]))
      invariant forall k :: i <= k < items.Length ==> items[k] == old(items[k])
    {
      items[i] := ShowAll(items[i]);
    }
  }

  /** The filtering loop for a non-blank term: each item is shown and highlighted or
      hidden, while the visible items are counted. */
  method FilterItems(items: array<ItemView>, term: string) returns (totalVisible: nat, hasResults: bool)
    requires term != []
    modifies items
    ensures items[..] == SearchViews(old(items[..]), term)
    ensures totalVisible == CountMatches(old(items[..]), term)
    ensures hasResults <==> totalVisible > 0
  {
    ghost var before := items[..];
    hasResults, totalVisible := false, 0;
    for i := 0 to items.Length
      invariant items[..i] == SearchViews(before[..i], term)
      invariant items[i..] == before[i..]
      invariant totalVisible == CountMatches(before[..i], term)
      invariant hasResults <==> totalVisible > 0
    {
      var item := items[i];
      assert item == before[i] by { assert items[i..][0] == before[i..][0]; }
      var next, matched := FilterOne(item, term);
      if matched {
        hasResults := true;
        totalVisible := totalVisible + 1;
      }
      assert next == UpdateItem(before[i], term);
      ghost var done := items[..i];
      items[i] := next;
      assert items[..i + 1] == done + [next];
      assert items[i + 1..] == before[i + 1..] by { assert items[i + 1..] == items[i..][1..]; }
      PrefixStep(before, term, i);
    }
    assert before[..items.Length] == before;
  }

  /** The loop body for one item: a matching item is shown and emphasised and each matching
      field re-highlighted from its text, while its other field is left as it is; any other
      item is hidden with both fields stripped of marks. */
  method FilterOne(item: ItemView, term: string) returns (next: ItemView, matched: bool)
    requires term != []
    ensures matched <==> ItemMatches(item, term)
    ensures next == UpdateItem(item, term)
  {
    var titleMatches := FieldMatches(item.title, term);
    var descMatches := FieldMatches(item.description, term);
    matched := titleMatches || descMatches;
    if matched {
      var title := if titleMatches then HighlightSearchTerm(TextContent(item.title), term) else item.title;
      var desc := if descMatches then HighlightSearchTerm(TextContent(item.description), term) else item.description;
      next := ItemView(false, true, title, desc);
    } else {
      next := ItemView(true, false, ClearMarks(item.title), ClearMarks(item.description));
    }
  }

  /** One more item of the prefix: one more updated item, and one more match if it matches. */
  lemma PrefixStep(vs: seq<ItemView>, term: string, i: int)
    requires 0 <= i < |vs|
    ensures SearchViews(vs[..i + 1], term) == SearchViews(vs[..i], term) + [UpdateItem(vs[i], term)]
    ensures CountMatches(vs[..i + 1], term) ==
            CountMatches(vs[..i], term) + if ItemMatches(vs[i], term) then 1 else 0
  {
    assert vs[..i + 1][..i] == vs[..i];
  }

  lemma LowerSlice(s: string, i: int, j: int)
    requires 0 <= i <= j <= |s|
    ensures Lower(s)[i..j] == Lower(s[i..j])
  {
  }

  /** For a normalised, non-blank term the filter and the highlighter agree: a field
      counts as matching exactly when highlighting its original text marks something. */
  lemma FieldMatchIsMarked(f: seq<Span>, input: string)
    requires SearchTerm(input) != []
    ensures FieldMatches(f, SearchTerm(input)) <==>
            HasMark(HighlightSearchTerm(TextContent(f), SearchTerm(input)))
  {
    var term := SearchTerm(input);
    LowerTrimIsLower(input);
    TrimOfTrimmed(term);
    TermFoundIffMarked(TextContent(f), term);
  }

  /** A lower-case term that is its own trim is found in the lower-cased text exactly
      when highlighting the text marks something. */
  lemma TermFoundIffMarked(text: string, term: string)
    requires term != [] && Lower(term) == term && Trim(term) != []
    ensures Contains(Lower(text), term) <==> HasMark(HighlightSearchTerm(text, term))
  {
    MarkedHasMarkIff(text, term);
    forall i ensures OccursAt(Lower(text), term, i) <==> MatchesAt(text, i, term) {
      if 0 <= i && i + |term| <= |text| {
        OccursIsMatch(text, i, term);
      }
    }
  }

  /** A string that starts with a non-space character has a non-empty trim. */
  lemma TrimOfTrimmed(s: string)
    requires s != [] && !IsSpace(s[0])
    ensures Trim(s) != []
  {
  }

  /** For a term unchanged by lower-casing, finding it in the lower-cased text is matching
      it ignoring case. */
  lemma OccursIsMatch(text: string, i: int, term: string)
    requires 0 <= i && i + |term| <= |text| && Lower(term) == term
    ensures OccursAt(Lower(text), term, i) <==> MatchesAt(text, i, term)
  {
    var piece := text[i..i + |term|];
    LowerSlice(text, i, i + |term|);
    SameIgnoringCaseIsLowerEqual(piece, term);
  }

  /** The handler's count is the number of items it leaves visible. */
  lemma {:induction false} CountMatchesIsShown(vs: seq<ItemView>, term: string)
    requires term != []
    ensures CountShown(SearchViews(vs, term)) == CountMatches(vs, term)
    decreases |vs|
  {
    if vs != [] {
      var init := vs[..|vs| - 1];
      CountMatchesIsShown(init, term);
      assert SearchViews(vs, term)[..|vs| - 1] == SearchViews(init, term);
    }
  }

  /** Removing marks from unmarked content changes nothing. */
  lemma RenderClearMarks(f: seq<Span>)
    ensures Render(ClearMarks(f)) == TextContent(f)
  {
    RenderWithoutMarks(ClearMarks(f));
  }

  /** With the intended per-item update, what each field shows depends only on its
      original text and the term: the highlighting of that text when the field matches,
      the plain text otherwise. The item is hidden exactly when neither field matches. */
  lemma ApplyTermShowsOriginal(v: ItemView, term: string)
    ensures var w := ApplyTerm(v, term);
      (w.hidden <==> !ItemMatches(v, term)) && w.highlighted == !w.hidden &&
      TextContent(w.title) == TextContent(v.title) &&
      TextContent(w.description) == TextContent(v.description) &&
      Render(w.title) == (if FieldMatches(v.title, term)
                          then Render(HighlightSearchTerm(TextContent(v.title), term))
                          else TextContent(v.title)) &&
      Render(w.description) == (if FieldMatches(v.description, term)
                                then Render(HighlightSearchTerm(TextContent(v.description), term))
                                else TextContent(v.description))
  {
    RenderClearMarks(v.title);
    RenderClearMarks(v.description);
  }

  /** The handler as written shows stale marks: an item whose heading "Ab" matched the
      query "a" and whose description "c" then matches the query "c" keeps the heading's
      old mark, so the same texts and the same query render differently depending on the
      query before. The intended update renders the heading as plain text. */
  lemma AsWrittenKeepsStaleMarks()
    ensures var v0 := ItemView(false, false, [Plain("Ab")], [Plain("c")]);
      var v1 := ApplyTermAsWritten(v0, "a");
      Render(ApplyTermAsWritten(v1, "c").title) == "<mark>A</mark>b" &&
      Render(ApplyTermAsWritten(v0, "c").title) == "Ab" &&
      Render(ApplyTerm(v1, "c").title) == "Ab"
  {
    var v0 := ItemView(false, false, [Plain("Ab")], [Plain("c")]);
    var m := [Mark("A"), Plain("b")];
    var v1 := ApplyTermAsWritten(v0, "a");
    ExampleFields();
    ExampleHeading();
    PlainFacts("Ab");
    assert v1 == ItemView(false, true, m, [Plain("c")]) by { ExampleHighlight(); }
    assert ApplyTermAsWritten(v1, "c").title == m;
    assert ApplyTermAsWritten(v0, "c").title == [Plain("Ab")];
    assert ApplyTerm(v1, "c").title == [Plain("Ab")];
  }

  /** The heading "Ab" and the description "c" against the queries "a" and "c". */
  lemma ExampleFields()
    ensures FieldMatches([Plain("Ab")], "a") && !FieldMatches([Plain("c")], "a")
    ensures FieldMatches([Plain("c")], "c") && !FieldMatches([Plain("Ab")], "c")
  {
    PlainFacts("Ab");
    PlainFacts("c");
    ExampleLower();
    ExampleHits();
    ExampleMisses();
  }

  /** The heading "Ab" highlighted for "a". */
  lemma ExampleHighlight()
    ensures HighlightSearchTerm("Ab", "a") == [Mark("A"), Plain("b")]
  {
    TrimOfTrimmed("a");
    ExampleMarked();
  }

  /** The highlighted heading: its text, its markup, and no match for "c". */
  lemma ExampleHeading()
    ensures var m := [Mark("A"), Plain("b")];
      TextContent(m) == "Ab" && Render(m) == "<mark>A</mark>b" && HasMark(m) && !FieldMatches(m, "c")
  {
    var m := [Mark("A"), Plain("b")];
    assert m[1..] == [Plain("b")];
    PlainFacts("b");
    assert m[0].Mark?;
    ExampleLower();
    ExampleMisses();
  }

  lemma PlainFacts(s: string)
    ensures TextContent([Plain(s)]) == s && Render([Plain(s)]) == s && !HasMark([Plain(s)])
  {
    assert [Plain(s)][1..] == [];
  }

  lemma ExampleLower()
    ensures Lower("Ab") == "ab" && Lower("c") == "c"
  {
    assert Lower("Ab")[0] == 'a';
  }

  lemma ExampleHits()
    ensures Contains("ab", "a") && Contains("c", "c")
  {
    assert "ab"[..1] == "a" && "c"[..1] == "c";
  }

  lemma ExampleMisses()
    ensures !Contains("ab", "c") && !Contains("c", "a")
  {
    assert "ab"[..1] == "a" && "ab"[1..] == "b";
    assert "b"[..1] == "b" && "b"[1..] == [];
    assert "c"[..1] == "c" && "c"[1..] == [];
    assert !Contains("b", "c");
  }

  lemma ExampleMarked()
    ensures Marked("Ab", "a") == [Mark("A"), Plain("b")]
  {
    assert Lower("A") == "a" && Lower("a") == "a" && Lower("b") == "b";
    assert "Ab"[0..1] == "A" && "Ab"[..1] == "A";
    assert MatchesAt("Ab", 0, "a");
    assert "Ab"[1..] == "b";
    assert "b"[0..1] == "b";
    assert !MatchesAt("b", 0, "a");
    assert "b"[1..] == [];
    assert Marked("b", "a") == [Plain("b")];
  }

  /** Running the same query twice gives the same page: a matching field is rebuilt from
      its text, which highlighting preserves, and every other field is either left as it is
      or already stripped of marks. */
  lemma SearchIdempotent(vs: seq<ItemView>, input: string)
    ensures var term := SearchTerm(input);
      SearchViews(SearchViews(vs, term), term) == SearchViews(vs, term)
  {
    var term := SearchTerm(input);
    var once := SearchViews(vs, term);
    forall i | 0 <= i < |vs| ensures UpdateItem(once[i], term) == once[i] {
      if term != [] {
        ApplyTermAsWrittenTwice(vs[i], term);
      }
    }
  }

  /** The as-written update for one item is idempotent. */
  lemma ApplyTermAsWrittenTwice(v: ItemView, term: string)
    ensures ApplyTermAsWritten(ApplyTermAsWritten(v, term), term) == ApplyTermAsWritten(v, term)
  {
    var w := ApplyTermAsWritten(v, term);
    assert FieldMatches(w.title, term) == FieldMatches(v.title, term);
    assert FieldMatches(w.description, term) == FieldMatches(v.description, term);
  }

  /** A blank or all-white-space query shows every item and every section, and every
      heading and description goes back to its original, unmarked text. */
  lemma BlankQueryRestores(vs: seq<ItemView>, sections: seq<seq<int>>, input: string)
    requires forall i :: 0 <= i < |input| ==> IsSpace(input[i])
    ensures SearchTerm(input) == []
    ensures forall i :: 0 <= i < |vs| ==>
      var w := SearchViews(vs, SearchTerm(input))[i];
      !w.hidden && !HasMark(w.title) && !HasMark(w.description) &&
      Render(w.title) == TextContent(vs[i].title) && Render(w.description) == TextContent(vs[i].description)
    ensures forall j :: 0 <= j < |sections| ==> SectionDisplay(SearchViews(vs, SearchTerm(input)), sections, SearchTerm(input))[j]
  {
    LowerTrimIsLower(input);
    forall i | 0 <= i < |vs|
      ensures Render(ClearMarks(vs[i].title)) == TextContent(vs[i].title)
      ensures Render(ClearMarks(vs[i].description)) == TextContent(vs[i].description)
    {
      RenderClearMarks(vs[i].title);
      RenderClearMarks(vs[i].description);
    }
  }

  /** For a non-blank query a section is hidden exactly when none of its items matched. */
  lemma SectionHiddenIffNoMatch(vs: seq<ItemView>, sections: seq<seq<int>>, term: string, j: int)
    requires term != [] && 0 <= j < |sections|
    ensures !SectionDisplay(SearchViews(vs, term), sections, term)[j] <==>
            forall k :: 0 <= k < |sections[j]| && 0 <= sections[j][k] < |vs| ==> !ItemMatches(vs[sections[j][k]], term)
  {
    var after := SearchViews(vs, term);
    forall k | 0 <= k < |sections[j]| && 0 <= sections[j][k] < |vs|
      ensures after[sections[j][k]].hidden <==> !ItemMatches(vs[sections[j][k]], term)
    {
    }
  }
}
