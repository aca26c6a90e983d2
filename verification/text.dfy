/** String helpers shared by order validation and the menu search: JavaScript's
    `String.prototype.trim`, `toLowerCase` restricted to ASCII letters, and `includes`. */
module Text {

  /** The characters `trim` removes: ECMAScript WhiteSpace and LineTerminator code points. */
  predicate IsSpace(c: char)
  {
    c == ' ' || c == '\t' || c == '\n' || c == '\r' || c == '\U{000B}' || c == '\U{000C}' ||
    c == '\U{00A0}' || c == '\U{1680}' || ('\U{2000}' <= c <= '\U{200A}') ||
    c == '\U{2028}' || c == '\U{2029}' || c == '\U{202F}' || c == '\U{205F}' ||
    c == '\U{3000}' || c == '\U{FEFF}'
  }

  /** `r` is `s` without its leading white space. */
  predicate LeadingStripped(s: string, r: string)
  {
    |r| <= |s| && r == s[|s| - |r|..] &&
    (forall i :: 0 <= i < |s| - |r| ==> IsSpace(s[i])) &&
    (r != [] ==> !IsSpace(r[0]))
  }

  /** `r` is `s` without its trailing white space. */
  predicate TrailingStripped(s: string, r: string)
  {
    |r| <= |s| && r == s[..|r|] &&
    (forall i :: |r| <= i < |s| ==> IsSpace(s[i])) &&
    (r != [] ==> !IsSpace(r[|r| - 1]))
  }

  /** Drops leading white space. */
  function TrimStart(s: string): string
    decreases |s|
  {
    if s != [] && IsSpace(s[0]) then TrimStart(s[1..]) else s
  }

  /** Drops trailing white space. */
  function TrimEnd(s: string): string
    decreases |s|
  {
    if s != [] && IsSpace(s[|s| - 1]) then TrimEnd(s[..|s| - 1]) else s
  }

  lemma {:induction false} TrimStartStrips(s: string)
    ensures LeadingStripped(s, TrimStart(s))
    decreases |s|
  {
    var t := TrimStart(s);
    if s != [] && IsSpace(s[0]) {
      var tail := s[1..];
      TrimStartStrips(tail);
      assert t == TrimStart(tail);
      assert t == tail[|tail| - |t|..];
      assert tail[|tail| - |t|..] == s[|s| - |t|..];
      forall i | 0 <= i < |s| - |t| ensures IsSpace(s[i]) {
        if i > 0 { assert s[i] == tail[i - 1]; }
      }
    } else {
      assert t == s;
      assert s[|s| - |t|..] == s;
    }
  }

  lemma {:induction false} TrimEndStrips(s: string)
    ensures TrailingStripped(s, TrimEnd(s))
    decreases |s|
  {
    var t := TrimEnd(s);
    if s != [] && IsSpace(s[|s| - 1]) {
      var init := s[..|s| - 1];
      TrimEndStrips(init);
      assert t == TrimEnd(init);
      assert t == init[..|t|];
      assert init[..|t|] == s[..|t|];
      forall i | |t| <= i < |s| ensures IsSpace(s[i]) {
        if i < |s| - 1 { assert s[i] == init[i]; }
      }
    } else {
      assert t == s;
      assert s[..|t|] == s;
    }
  }

  /** `s` holds nothing but white space. */
  predicate AllSpace(s: string)
  {
    forall i :: 0 <= i < |s| ==> IsSpace(s[i])
  }

  /** Every character of `r` occurs in `s`. */
  predicate CharsFrom(r: string, s: string)
  {
    forall c :: c in r ==> c in s
  }

  /** `s.trim()`: the result is empty exactly when `s` is all white space, otherwise it
      neither starts nor ends with white space, and it only holds characters of `s`. */
  function Trim(s: string): (r: string)
    ensures r == [] <==> AllSpace(s)
    ensures r != [] ==> !IsSpace(r[0]) && !IsSpace(r[|r| - 1])
    ensures CharsFrom(r, s)
  {
    StripBothEnds(s);
    TrimEnd(TrimStart(s))
  }

  /** Stripping the leading, then the trailing white space leaves a string that is empty
      exactly for all-white-space input, and is otherwise a slice of the input that starts
      and ends with a non-space character. */
  lemma StripBothEnds(s: string)
    ensures var r := TrimEnd(TrimStart(s));
      (r == [] <==> AllSpace(s)) &&
      (r != [] ==> !IsSpace(r[0]) && !IsSpace(r[|r| - 1])) &&
      CharsFrom(r, s)
  {
    var t := TrimStart(s);
    var r := TrimEnd(t);
    TrimStartStrips(s);
    TrimEndStrips(t);
    var d := |s| - |t|;
    assert forall i :: 0 <= i < |t| ==> t[i] == s[d + i];
    assert forall i :: 0 <= i < |r| ==> r[i] == t[i];
    if r == [] {
      assert |t| == 0;
    } else {
      assert r[0] == t[0];
      assert !AllSpace(s) by { assert s[d] == t[0]; }
    }
    forall c | c in r ensures c in s {
      var i :| 0 <= i < |r| && r[i] == c;
      assert s[d + i] == c;
    }
  }

  /** `toLowerCase` on one character; only the ASCII letters A-Z are folded. */
  function LowerChar(c: char): char
  {
    if 'A' <= c <= 'Z' then (c as int + 32) as char else c
  }

  function Lower(s: string): string
  {
    seq(|s|, i requires 0 <= i < |s| => LowerChar(s[i]))
  }

  /** `s` is unchanged by `toLowerCase`. */
  predicate IsLower(s: string)
  {
    forall i :: 0 <= i < |s| ==> LowerChar(s[i]) == s[i]
  }

  /** Lower-casing and trimming give a string that lower-casing leaves alone, and that is
      empty exactly when the input is all white space (the search box's normalisation). */
  lemma LowerTrimIsLower(s: string)
    ensures IsLower(Trim(Lower(s)))
    ensures Lower(Trim(Lower(s))) == Trim(Lower(s))
    ensures Trim(Lower(s)) == [] <==> forall i :: 0 <= i < |s| ==> IsSpace(s[i])
  {
    var l := Lower(s);
    var t := Trim(l);
    forall i | 0 <= i < |t| ensures LowerChar(t[i]) == t[i] {
      assert t[i] in l;
      var j :| 0 <= j < |l| && l[j] == t[i];
      LowerCharTwice(s[j]);
    }
    forall i | 0 <= i < |s| ensures IsSpace(s[i]) <==> IsSpace(l[i]) {
      LowerCharKeepsSpace(s[i]);
    }
  }

  lemma LowerCharTwice(c: char)
    ensures LowerChar(LowerChar(c)) == LowerChar(c)
  {
  }

  lemma LowerCharKeepsSpace(c: char)
    ensures IsSpace(LowerChar(c)) <==> IsSpace(c)
  {
  }

  /** `q` occurs in `s` at index `i`. */
  predicate OccursAt(s: string, q: string, i: int)
  {
    0 <= i && i + |q| <= |s| && s[i..i + |q|] == q
  }

  /** `s.includes(q)`, as a left-to-right scan; the empty query occurs in every text. */
  function Contains(s: string, q: string): (r: bool)
    ensures r <==> exists i :: OccursAt(s, q, i)
    ensures q == [] ==> r
    decreases |s|
  {
    if |q| > |s| then false
    else if s[..|q|] == q then assert OccursAt(s, q, 0); true
    else
      var r := Contains(s[1..], q);
      assert r ==> exists i :: OccursAt(s, q, i) by {
        if r {
          var i :| OccursAt(s[1..], q, i);
          assert s[1..][i..i + |q|] == s[i + 1..i + 1 + |q|];
          assert OccursAt(s, q, i + 1);
        }
      }
      assert (exists i :: OccursAt(s, q, i)) ==> r by {
        if exists i :: OccursAt(s, q, i) {
          var i :| OccursAt(s, q, i);
          assert i != 0;
          assert s[1..][i - 1..i - 1 + |q|] == s[i..i + |q|];
          assert OccursAt(s[1..], q, i - 1);
        }
      }
      r
  }
}
