/**
  * The string operations the editor applies to the contents of its Text
  * widgets: Python's `str.strip()`, `str.split("\n")`, the line-per-item
  * layout of a list, Tk's `get("1.0", END)` and the height heuristic for a
  * plain-text field.
  */
module PyText {

  /** Python's `str.isspace` for one character. */
  predicate IsSpace(c: char)
  {
    || ('\U{0009}' <= c <= '\U{000D}') || ('\U{001C}' <= c <= '\U{0020}')
    || c == '\U{0085}' || c == '\U{00A0}' || c == '\U{1680}'
    || ('\U{2000}' <= c <= '\U{200A}') || c == '\U{2028}' || c == '\U{2029}'
    || c == '\U{202F}' || c == '\U{205F}' || c == '\U{3000}'
  }

  predicate AllSpace(s: string)
  {
    forall i | 0 <= i < |s| :: IsSpace(s[i])
  }

  /** `s.lstrip()`: the suffix of `s` after its leading whitespace. */
  function LStrip(s: string): (r: string)
    ensures |r| <= |s| && r == s[|s| - |r|..]
    ensures AllSpace(s[..|s| - |r|])
    ensures r == [] || !IsSpace(r[0])
  {
    if s != [] && IsSpace(s[0]) then
      var r := LStrip(s[1..]);
      assert s[1..][..|s[1..]| - |r|] == s[1..|s| - |r|];
      r
    else s
  }

  /** `s.rstrip()`: the prefix of `s` before its trailing whitespace. */
  function RStrip(s: string): (r: string)
    ensures |r| <= |s| && r == s[..|r|]
    ensures AllSpace(s[|r|..])
    ensures r == [] || !IsSpace(r[|r| - 1])
  {
    if s != [] && IsSpace(s[|s| - 1]) then
      var r := RStrip(s[..|s| - 1]);
      assert s[|r|..] == s[..|s| - 1][|r|..] + [s[|s| - 1]];
      r
    else s
  }

  /** `r` is the slice of `s` left after cutting off whitespace at both ends. */
  predicate TrimmedFrom(s: string, r: string)
  {
    exists i | 0 <= i <= |s| - |r| :: r == s[i..i + |r|] && AllSpace(s[..i]) && AllSpace(s[i + |r|..])
  }

  /**
    * `s.strip()`: a slice of `s` with only whitespace cut off around it,
    * and neither end of which is whitespace.
    */
  function Strip(s: string): (r: string)
    ensures |r| <= |s|
    ensures TrimmedFrom(s, r)
    ensures r != [] ==> !IsSpace(r[0]) && !IsSpace(r[|r| - 1])
    ensures AllSpace(s) <==> r == []
  {
    var l := LStrip(s);
    var r := RStrip(l);
    StripTrims(s, l, r);
    StripEnds(s, l, r);
    r
  }

  /** After both cuts neither end is whitespace, and nothing is left exactly when `s` was all whitespace. */
  lemma StripEnds(s: string, l: string, r: string)
    requires |l| <= |s| && l == s[|s| - |l|..] && AllSpace(s[..|s| - |l|]) && (l == [] || !IsSpace(l[0]))
    requires |r| <= |l| && r == l[..|r|] && AllSpace(l[|r|..]) && (r == [] || !IsSpace(r[|r| - 1]))
    ensures r != [] ==> !IsSpace(r[0]) && !IsSpace(r[|r| - 1])
    ensures AllSpace(s) <==> r == []
  {
    if r != [] {
      assert r[0] == l[0];
    }
    if l != [] {
      assert s[|s| - |l|] == l[0];
    }
    if r == [] {
      assert l[|r|..] == l;
      assert s[..|s| - |l|] == s || l != [];
    }
  }

  /** Cutting whitespace off the front of `s`, giving `l`, then off the back of `l`, giving `r`, trims `s` to `r`. */
  lemma StripTrims(s: string, l: string, r: string)
    requires |l| <= |s| && l == s[|s| - |l|..] && AllSpace(s[..|s| - |l|])
    requires |r| <= |l| && r == l[..|r|] && AllSpace(l[|r|..])
    ensures TrimmedFrom(s, r)
  {
    var i := |s| - |l|;
    assert s[i + |r|..] == l[|r|..];
    assert r == s[i..i + |r|];
  }

  /** `s.split("\n")`: the pieces of `s` between newlines, never an empty list. */
  function SplitLines(s: string): (r: seq<string>)
    ensures |r| >= 1
    ensures forall i | 0 <= i < |r| :: '\n' !in r[i]
  {
    if s == [] then [""]
    else if s[0] == '\n' then [""] + SplitLines(s[1..])
    else
      var t := SplitLines(s[1..]);
      [[s[0]] + t[0]] + t[1..]
  }

  /** `"\n".join(items)`, the inverse of `SplitLines`. */
  function JoinLines(items: seq<string>): string
    requires |items| >= 1
  {
    if |items| == 1 then items[0]
    else JoinLines(items[..|items| - 1]) + "\n" + items[|items| - 1]
  }

  predicate NewlineFree(items: seq<string>)
  {
    forall i | 0 <= i < |items| :: '\n' !in items[i]
  }

  /** The contents of a list's Text widget: each item followed by a newline. */
  function ListLayout(items: seq<string>): string
  {
    if items == [] then ""
    else ListLayout(items[..|items| - 1]) + items[|items| - 1] + "\n"
  }

  /** Tk's `text.get("1.0", END)`: the buffer plus the newline Tk always keeps at its end. */
  function TextGet(content: string): string
  {
    content + "\n"
  }

  /** What the list callback stores: `text.get("1.0", END).strip().split("\n")`. */
  function ParseListText(content: string): (r: seq<string>)
    ensures |r| >= 1 && NewlineFree(r)
    ensures AllSpace(content) ==> r == [""]
  {
    SplitLines(Strip(TextGet(content)))
  }

  /**
    * What the plain-text callback stores: `text.get("1.0", END).strip()`,
    * the widget's text with its surrounding whitespace cut off.
    */
  function ParseText(content: string): (r: string)
    ensures TrimmedFrom(TextGet(content), r)
    ensures r != [] ==> !IsSpace(r[0]) && !IsSpace(r[|r| - 1])
  {
    Strip(TextGet(content))
  }

  /** `int(len(str(value)) / 40) + 1`: enough 40-character lines for the text, and no more. */
  function TextHeight(len: nat): (h: nat)
    ensures h >= 1
    ensures 40 * (h - 1) <= len < 40 * h
  {
    len / 40 + 1
  }

  /** The insertion loop that fills a list's Text widget, item by item. */
  method LayoutListText(items: seq<string>) returns (content: string)
    ensures content == ListLayout(items)
  {
    content := "";
    for i := 0 to |items|
      invariant content == ListLayout(items[..i])
    {
      assert items[..i + 1][..i] == items[..i];
      content := content + items[i];
      content := content + "\n";
    }
    assert items[..|items|] == items;
  }

  // ----- Lemmas -----

  lemma {:induction false} SplitNewlineFree(s: string)
    requires '\n' !in s
    ensures SplitLines(s) == [s]
  {
    if s != [] {
      SplitNewlineFree(s[1..]);
      assert [s[0]] + s[1..] == s;
    }
  }

  lemma {:induction false} SplitAppendLine(x: string, b: string)
    requires '\n' !in b
    ensures SplitLines(x + "\n" + b) == SplitLines(x) + [b]
  {
    if x == [] {
      assert x + "\n" + b == "\n" + b;
      assert ("\n" + b)[1..] == b;
      SplitNewlineFree(b);
    } else {
      assert (x + "\n" + b)[1..] == x[1..] + "\n" + b;
      SplitAppendLine(x[1..], b);
    }
  }

  /** Splitting a joined list of newline-free items gives the items back. */
  lemma {:induction false} SplitJoin(items: seq<string>)
    requires |items| >= 1 && NewlineFree(items)
    ensures SplitLines(JoinLines(items)) == items
  {
    if |items| == 1 {
      SplitNewlineFree(items[0]);
    } else {
      var init := items[..|items| - 1];
      SplitJoin(init);
      SplitAppendLine(JoinLines(init), items[|items| - 1]);
    }
  }

  /** Joining the pieces of a split gives the text back. */
  lemma {:induction false} JoinSplit(s: string)
    ensures JoinLines(SplitLines(s)) == s
  {
    if s == [] {
    } else if s[0] == '\n' {
      JoinSplit(s[1..]);
      JoinCons("", SplitLines(s[1..]));
    } else {
      var t := SplitLines(s[1..]);
      JoinSplit(s[1..]);
      JoinHead(s[0], t);
    }
  }

  lemma {:induction false} JoinCons(a: string, t: seq<string>)
    requires |t| >= 1
    ensures JoinLines([a] + t) == a + "\n" + JoinLines(t)
  {
    if |t| == 1 {
    } else {
      var u := [a] + t;
      assert u[..|u| - 1] == [a] + t[..|t| - 1];
      JoinCons(a, t[..|t| - 1]);
    }
  }

  lemma {:induction false} JoinHead(c: char, t: seq<string>)
    requires |t| >= 1
    ensures JoinLines([[c] + t[0]] + t[1..]) == [c] + JoinLines(t)
  {
    if |t| == 1 {
    } else {
      var u := [[c] + t[0]] + t[1..];
      var front := t[..|t| - 1];
      assert u[..|u| - 1] == [[c] + front[0]] + front[1..];
      assert u[|u| - 1] == t[|t| - 1];
      JoinHead(c, front);
      assert JoinLines(u) == JoinLines(u[..|u| - 1]) + "\n" + t[|t| - 1];
      assert JoinLines(t) == JoinLines(front) + "\n" + t[|t| - 1];
    }
  }

  lemma {:induction false} LayoutIsJoin(items: seq<string>)
    requires |items| >= 1
    ensures ListLayout(items) == JoinLines(items) + "\n"
  {
    if |items| > 1 {
      LayoutIsJoin(items[..|items| - 1]);
    } else {
      assert items[..0] == [];
    }
  }

  lemma {:induction false} JoinEnds(items: seq<string>)
    requires |items| >= 1 && items[0] != [] && items[|items| - 1] != []
    ensures JoinLines(items) != []
    ensures JoinLines(items)[0] == items[0][0]
    ensures JoinLines(items)[|JoinLines(items)| - 1] == items[|items| - 1][|items[|items| - 1]| - 1]
  {
    if |items| > 1 {
      var init := items[..|items| - 1];
      if |init| > 1 {
        JoinPrefix(init);
      }
    }
  }

  lemma {:induction false} JoinPrefix(items: seq<string>)
    requires |items| >= 1
    ensures |JoinLines(items)| >= |items[0]| && JoinLines(items)[..|items[0]|] == items[0]
  {
    if |items| > 1 {
      var init := items[..|items| - 1];
      JoinPrefix(init);
      var j := JoinLines(init);
      assert JoinLines(items) == j + ("\n" + items[|items| - 1]);
      assert JoinLines(items)[..|items[0]|] == j[..|items[0]|];
    }
  }

  lemma RStripSpaces(a: string, w: string)
    requires a != [] && !IsSpace(a[|a| - 1]) && AllSpace(w)
    ensures RStrip(a + w) == a
  {
    if w != [] {
      assert (a + w)[..|a + w| - 1] == a + w[..|w| - 1];
      RStripSpaces(a, w[..|w| - 1]);
    } else {
      assert a + w == a;
    }
  }

  /**
    * A non-empty list of newline-free items, the first without leading and
    * the last without trailing whitespace, survives the layout into its
    * Text widget and the list callback's parse unchanged.
    */
  lemma LayoutParseRoundTrip(items: seq<string>)
    requires |items| >= 1 && NewlineFree(items)
    requires items[0] != [] && !IsSpace(items[0][0])
    requires items[|items| - 1] != [] && !IsSpace(items[|items| - 1][|items[|items| - 1]| - 1])
    ensures ParseListText(ListLayout(items)) == items
  {
    LayoutIsJoin(items);
    JoinEnds(items);
    var j := JoinLines(items);
    var got := TextGet(ListLayout(items));
    assert got == j + "\n\n";
    assert LStrip(got) == got;
    RStripSpaces(j, "\n\n");
    SplitJoin(items);
  }

  /** An empty list lays out as an empty widget, which parses back as `[""]`, not `[]`. */
  lemma EmptyListParsesAsOneEmptyItem()
    ensures ParseListText(ListLayout([])) == [""]
  {
    assert AllSpace(ListLayout([]));
  }

  /**
    * A non-empty text without whitespace at either end, newlines inside
    * included, is stored by the plain-text callback exactly as written.
    */
  lemma ParseTextRoundTrip(s: string)
    requires s != [] && !IsSpace(s[0]) && !IsSpace(s[|s| - 1])
    ensures ParseText(s) == s
  {
    RStripSpaces(s, "\n");
  }

  /** A single line without whitespace at either end parses back as itself, with or without its newline. */
  lemma ParseOneLine(s: string)
    requires s != [] && '\n' !in s && !IsSpace(s[0]) && !IsSpace(s[|s| - 1])
    ensures ParseListText(s) == [s] && ParseListText(s + "\n") == [s] && ParseText(s) == s
  {
    RStripSpaces(s, "\n");
    RStripSpaces(s, "\n\n");
    assert TextGet(s + "\n") == s + "\n\n";
    SplitNewlineFree(s);
  }
}

