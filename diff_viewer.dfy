/** The replay diff card: how much of two answers differs, counted over the
    edit script of `diff_match_patch`, and the HTML escaping of the script's
    texts. The edit script itself is computed by a library that is not part
    of this model; it is an input here. */
module DiffViewer {
  import opened Common

  /** `-1`, `0` and `1` of `diff_match_patch` */
  datatype Op = Delete | Equal | Insert

  datatype Diff = Diff(op: Op, text: string)

  /** `totalChars`: every segment's length. */
  function TotalChars(diffs: seq<Diff>): nat
    decreases |diffs|
  {
    if diffs == [] then 0 else |diffs[0].text| + TotalChars(diffs[1..])
  }

  /** `changedChars`: the lengths of the deleted and inserted segments. */
  function ChangedChars(diffs: seq<Diff>): (n: nat)
    ensures n <= TotalChars(diffs)
    decreases |diffs|
  {
    if diffs == [] then 0
    else (if diffs[0].op != Equal then |diffs[0].text| else 0) + ChangedChars(diffs[1..])
  }

  /** The lengths of the unchanged segments. */
  function EqualChars(diffs: seq<Diff>): (n: nat)
    ensures n + ChangedChars(diffs) == TotalChars(diffs)
    decreases |diffs|
  {
    if diffs == [] then 0
    else (if diffs[0].op == Equal then |diffs[0].text| else 0) + EqualChars(diffs[1..])
  }

  /** `totalChars > 0 ? (changedChars / totalChars) * 100 : 0` */
  function DiffPercentage(diffs: seq<Diff>): (r: real)
    ensures 0.0 <= r <= 100.0
    ensures TotalChars(diffs) == 0 ==> r == 0.0
  {
    var total := TotalChars(diffs);
    if total > 0 then
      PercentRange(ChangedChars(diffs) as real, total as real);
      Percent(ChangedChars(diffs) as real, total as real)
    else 0.0
  }

  lemma {:induction false} ChangedCharsAppend(diffs: seq<Diff>, d: Diff)
    ensures TotalChars(diffs + [d]) == TotalChars(diffs) + |d.text|
    ensures ChangedChars(diffs + [d]) == ChangedChars(diffs) + (if d.op != Equal then |d.text| else 0)
    decreases |diffs|
  {
    if diffs != [] {
      assert (diffs + [d])[1..] == diffs[1..] + [d];
      ChangedCharsAppend(diffs[1..], d);
    }
  }

  /** `calculateDiffPercentage`, with its loop over the script. */
  method CalculateDiffPercentage(diffs: seq<Diff>) returns (r: real)
    ensures r == DiffPercentage(diffs)
  {
    var totalChars := 0;
    var changedChars := 0;
    for i := 0 to |diffs|
      invariant totalChars == TotalChars(diffs[..i])
      invariant changedChars == ChangedChars(diffs[..i])
    {
      totalChars := totalChars + |diffs[i].text|;
      if diffs[i].op != Equal {
        changedChars := changedChars + |diffs[i].text|;
      }
      ChangedCharsAppend(diffs[..i], diffs[i]);
      assert diffs[..i + 1] == diffs[..i] + [diffs[i]];
    }
    assert diffs[..|diffs|] == diffs;
    r := if totalChars > 0 then Percent(changedChars as real, totalChars as real) else 0.0;
  }

  /** The HTML of one segment: deletions struck through in red, insertions
      in green, the rest as it is. */
  function RenderSegment(d: Diff): string {
    match d.op
    case Delete => "<span class=\"bg-red-500/30 line-through\">" + EscapeHtml(d.text) + "</span>"
    case Insert => "<span class=\"bg-green-500/30\">" + EscapeHtml(d.text) + "</span>"
    case Equal => EscapeHtml(d.text)
  }

  function RenderAll(diffs: seq<Diff>): string
    decreases |diffs|
  {
    if diffs == [] then "" else RenderAll(diffs[..|diffs| - 1]) + RenderSegment(diffs[|diffs| - 1])
  }

  /** `DiffViewer`'s `useMemo`: the `map` callback renders each segment and
      bumps the same two counters, so its percentage is the formula of
      `calculateDiffPercentage` applied to the script it is given. The
      component hands it the script after `diff_cleanupSemantic`, while
      `calculateDiffPercentage` is called on the raw `diff_main` script, so
      for the same two texts the two percentages can differ. */
  method RenderDiff(diffs: seq<Diff>) returns (html: string, percentage: real)
    ensures html == RenderAll(diffs)
    ensures percentage == DiffPercentage(diffs)
  {
    var totalChars := 0;
    var changedChars := 0;
    html := "";
    for i := 0 to |diffs|
      invariant totalChars == TotalChars(diffs[..i])
      invariant changedChars == ChangedChars(diffs[..i])
      invariant html == RenderAll(diffs[..i])
    {
      var d := diffs[i];
      totalChars := totalChars + |d.text|;
      var piece;
      if d.op == Delete {
        changedChars := changedChars + |d.text|;
        piece := "<span class=\"bg-red-500/30 line-through\">" + EscapeHtml(d.text) + "</span>";
      } else if d.op == Insert {
        changedChars := changedChars + |d.text|;
        piece := "<span class=\"bg-green-500/30\">" + EscapeHtml(d.text) + "</span>";
      } else {
        piece := EscapeHtml(d.text);
      }
      assert piece == RenderSegment(d);
      html := html + piece;
      RenderStep(diffs, i);
    }
    assert diffs[..|diffs|] == diffs;
    percentage := if totalChars > 0 then Percent(changedChars as real, totalChars as real) else 0.0;
  }

  lemma RenderStep(diffs: seq<Diff>, i: nat)
    requires i < |diffs|
    ensures TotalChars(diffs[..i + 1]) == TotalChars(diffs[..i]) + |diffs[i].text|
    ensures ChangedChars(diffs[..i + 1]) == ChangedChars(diffs[..i]) + (if diffs[i].op != Equal then |diffs[i].text| else 0)
    ensures RenderAll(diffs[..i + 1]) == RenderAll(diffs[..i]) + RenderSegment(diffs[i])
  {
    ChangedCharsAppend(diffs[..i], diffs[i]);
    assert diffs[..i + 1] == diffs[..i] + [diffs[i]];
    assert diffs[..i + 1][..i] == diffs[..i];
  }

  /** `isSignificant` */
  predicate IsSignificant(percentage: real) {
    percentage > 10.0
  }

  /** The "identical answers" message shows exactly when no character
      changed. */
  lemma IdenticalIffUnchanged(diffs: seq<Diff>)
    ensures DiffPercentage(diffs) == 0.0 <==> ChangedChars(diffs) == 0
  {
    var total := TotalChars(diffs);
    if total > 0 && ChangedChars(diffs) > 0 {
      PercentPositive(ChangedChars(diffs) as real, total as real);
    }
  }

  lemma PercentPositive(a: real, t: real)
    requires a > 0.0 && t > 0.0
    ensures Percent(a, t) > 0.0
  {
  }

  /** A script without changes gives 0; one without unchanged segments
      and with some text gives 100. */
  lemma DiffPercentageExtremes(diffs: seq<Diff>)
    ensures (forall i :: 0 <= i < |diffs| ==> diffs[i].op == Equal) ==> DiffPercentage(diffs) == 0.0
    ensures (forall i :: 0 <= i < |diffs| ==> diffs[i].op != Equal) && TotalChars(diffs) > 0
            ==> DiffPercentage(diffs) == 100.0
  {
    if forall i :: 0 <= i < |diffs| ==> diffs[i].op == Equal {
      NoneChanged(diffs);
      IdenticalIffUnchanged(diffs);
    }
    if forall i :: 0 <= i < |diffs| ==> diffs[i].op != Equal {
      AllChanged(diffs);
      if TotalChars(diffs) > 0 {
        PercentWhole(TotalChars(diffs) as real);
      }
    }
  }

  lemma {:induction false} NoneChanged(diffs: seq<Diff>)
    requires forall i :: 0 <= i < |diffs| ==> diffs[i].op == Equal
    ensures ChangedChars(diffs) == 0
    decreases |diffs|
  {
    if diffs != [] {
      NoneChanged(diffs[1..]);
    }
  }

  lemma {:induction false} AllChanged(diffs: seq<Diff>)
    requires forall i :: 0 <= i < |diffs| ==> diffs[i].op != Equal
    ensures ChangedChars(diffs) == TotalChars(diffs)
    decreases |diffs|
  {
    if diffs != [] {
      AllChanged(diffs[1..]);
    }
  }

  // ---------------------------------------------------------------------
  // What the edit script promises

  /** The text the script turns away from: its unchanged and deleted
      segments. */
  function Source(diffs: seq<Diff>): string
    decreases |diffs|
  {
    if diffs == [] then "" else (if diffs[0].op != Insert then diffs[0].text else "") + Source(diffs[1..])
  }

  /** The text the script arrives at: its unchanged and inserted segments. */
  function Target(diffs: seq<Diff>): string
    decreases |diffs|
  {
    if diffs == [] then "" else (if diffs[0].op != Delete then diffs[0].text else "") + Target(diffs[1..])
  }

  /** Given the contract of `diff_main`, every character of either answer
      is counted, and the unchanged ones once only. */
  lemma {:induction false} TotalCharsOfScript(diffs: seq<Diff>, original: string, replay: string)
    requires Source(diffs) == original && Target(diffs) == replay
    ensures TotalChars(diffs) == |original| + |replay| - EqualChars(diffs)
    ensures ChangedChars(diffs) == |original| + |replay| - 2 * EqualChars(diffs)
    decreases |diffs|
  {
    if diffs != [] {
      TotalCharsOfScript(diffs[1..], Source(diffs[1..]), Target(diffs[1..]));
    }
  }

  // ---------------------------------------------------------------------
  // `escapeHtml`

  /** `s.replace(/c/g, rep)` */
  function ReplaceChar(s: string, c: char, rep: string): string
    decreases |s|
  {
    if s == [] then "" else (if s[0] == c then rep else [s[0]]) + ReplaceChar(s[1..], c, rep)
  }

  /** The five chained replacements, `&` first. */
  function EscapeHtml(s: string): string {
    ReplaceChar(ReplaceChar(ReplaceChar(ReplaceChar(ReplaceChar(
      s, '&', "&amp;"), '<', "&lt;"), '>', "&gt;"), '"', "&quot;"), '\'', "&#039;")
  }

  /** What happens to one character. */
  function EscapeChar(c: char): string {
    if c == '&' then "&amp;"
    else if c == '<' then "&lt;"
    else if c == '>' then "&gt;"
    else if c == '"' then "&quot;"
    else if c == '\'' then "&#039;"
    else [c]
  }

  function EscapeEach(s: string): string
    decreases |s|
  {
    if s == [] then "" else EscapeChar(s[0]) + EscapeEach(s[1..])
  }

  lemma {:induction false} ReplaceCharConcat(a: string, b: string, c: char, rep: string)
    ensures ReplaceChar(a + b, c, rep) == ReplaceChar(a, c, rep) + ReplaceChar(b, c, rep)
    decreases |a|
  {
    if a == [] {
      assert a + b == b;
    } else {
      assert (a + b)[0] == a[0];
      assert (a + b)[1..] == a[1..] + b;
      ReplaceCharConcat(a[1..], b, c, rep);
      var head := if a[0] == c then rep else [a[0]];
      assert ReplaceChar(a + b, c, rep) == head + (ReplaceChar(a[1..], c, rep) + ReplaceChar(b, c, rep));
    }
  }

  lemma {:induction false} ReplaceCharAbsent(s: string, c: char, rep: string)
    requires c !in s
    ensures ReplaceChar(s, c, rep) == s
    decreases |s|
  {
    if s != [] {
      ReplaceCharAbsent(s[1..], c, rep);
    }
  }

  /** Because `&` goes first, no replacement touches what an earlier one
      wrote: the chain escapes each character on its own. */
  lemma {:induction false} EscapeHtmlPerChar(s: string)
    ensures EscapeHtml(s) == EscapeEach(s)
    decreases |s|
  {
    if s != [] {
      var x := s[0];
      var rest := s[1..];
      assert s == [x] + rest;
      EscapeHtmlPerChar(rest);
      var s1 := ReplaceChar(s, '&', "&amp;");
      ReplaceCharConcat([x], rest, '&', "&amp;");
      var r1 := ReplaceChar(rest, '&', "&amp;");
      var x1 := ReplaceChar([x], '&', "&amp;");
      var s2 := ReplaceChar(s1, '<', "&lt;");
      ReplaceCharConcat(x1, r1, '<', "&lt;");
      var r2 := ReplaceChar(r1, '<', "&lt;");
      var x2 := ReplaceChar(x1, '<', "&lt;");
      ReplaceCharConcat(x2, r2, '>', "&gt;");
      var r3 := ReplaceChar(r2, '>', "&gt;");
      var x3 := ReplaceChar(x2, '>', "&gt;");
      ReplaceCharConcat(x3, r3, '"', "&quot;");
      var r4 := ReplaceChar(r3, '"', "&quot;");
      var x4 := ReplaceChar(x3, '"', "&quot;");
      ReplaceCharConcat(x4, r4, '\'', "&#039;");
      EscapeOneChar(x);
    }
  }

  lemma ReplaceOne(x: char, c: char, rep: string)
    ensures ReplaceChar([x], c, rep) == if x == c then rep else [x]
  {
    assert [x][1..] == [];
  }

  lemma EscapeOneChar(x: char)
    ensures EscapeHtml([x]) == EscapeChar(x)
  {
    ReplaceOne(x, '&', "&amp;");
    if x == '&' {
      Survives(EscapeChar(x));
    } else {
      ReplaceOne(x, '<', "&lt;");
      if x == '<' {
        Survives(EscapeChar(x));
      } else {
        ReplaceOne(x, '>', "&gt;");
        if x == '>' {
          Survives(EscapeChar(x));
        } else {
          ReplaceOne(x, '"', "&quot;");
          if x == '"' {
            ReplaceCharAbsent(EscapeChar(x), '\'', "&#039;");
          } else {
            ReplaceOne(x, '\'', "&#039;");
          }
        }
      }
    }
  }

  /** An entity, once written, survives the replacements that follow. */
  lemma Survives(e: string)
    requires forall i :: 0 <= i < |e| ==> e[i] !in "<>\"'"
    ensures ReplaceChar(e, '<', "&lt;") == e
    ensures ReplaceChar(e, '>', "&gt;") == e
    ensures ReplaceChar(e, '"', "&quot;") == e
    ensures ReplaceChar(e, '\'', "&#039;") == e
  {
    ReplaceCharAbsent(e, '<', "&lt;");
    ReplaceCharAbsent(e, '>', "&gt;");
    ReplaceCharAbsent(e, '"', "&quot;");
    ReplaceCharAbsent(e, '\'', "&#039;");
  }

  // ---------------------------------------------------------------------
  // What the escaped text looks like, and how to read it back

  /** One of the five entities starts at `i`. */
  predicate EntityAt(s: string, i: nat)
    requires i <= |s|
  {
    StartsWith(s[i..], "&amp;") || StartsWith(s[i..], "&lt;") || StartsWith(s[i..], "&gt;")
    || StartsWith(s[i..], "&quot;") || StartsWith(s[i..], "&#039;")
  }

  /** No raw `<`, `>`, `"` or `'`, and every `&` begins an entity. */
  predicate SafeHtml(s: string) {
    forall i :: 0 <= i < |s| ==>
      && s[i] != '<' && s[i] != '>' && s[i] != '"' && s[i] != '\''
      && (s[i] == '&' ==> EntityAt(s, i))
  }

  lemma SafeConcat(a: string, b: string)
    requires SafeHtml(a) && SafeHtml(b)
    ensures SafeHtml(a + b)
  {
    var ab := a + b;
    forall i | 0 <= i < |ab| && ab[i] == '&' ensures EntityAt(ab, i) {
      if i < |a| {
        assert ab[i..] == a[i..] + b;
        assert EntityAt(a, i);
        EntityExtends(a[i..], b);
      } else {
        assert ab[i..] == b[i - |a|..];
        assert b[i - |a|] == '&';
      }
    }
  }

  lemma EntityExtends(a: string, b: string)
    requires EntityAt(a, 0)
    ensures EntityAt(a + b, 0)
  {
    assert a[0..] == a && (a + b)[0..] == a + b;
    forall e: string | StartsWith(a, e) ensures StartsWith(a + b, e) {
      assert (a + b)[..|e|] == a[..|e|];
    }
  }

  lemma EscapeCharSafe(c: char)
    ensures SafeHtml(EscapeChar(c))
  {
    var e := EscapeChar(c);
    if c == '&' || c == '<' || c == '>' || c == '"' || c == '\'' {
      assert e[0..] == e;
      assert StartsWith(e, e);
      forall i | 1 <= i < |e| ensures e[i] != '&' && e[i] != '<' && e[i] != '>' && e[i] != '"' && e[i] != '\'' {
      }
    }
  }

  lemma {:induction false} EscapeEachSafe(s: string)
    ensures SafeHtml(EscapeEach(s))
    decreases |s|
  {
    if s != [] {
      EscapeEachSafe(s[1..]);
      EscapeCharSafe(s[0]);
      SafeConcat(EscapeChar(s[0]), EscapeEach(s[1..]));
    }
  }

  /** `escapeHtml` leaves no markup character raw, and uses `&` only to
      start an entity. */
  lemma EscapeHtmlSafe(s: string)
    ensures SafeHtml(EscapeHtml(s))
  {
    EscapeHtmlPerChar(s);
    EscapeEachSafe(s);
  }

  /** Decoding the five entities, left to right. */
  function Unescape(s: string): string
    decreases |s|
  {
    if s == [] then ""
    else if StartsWith(s, "&amp;") then "&" + Unescape(s[5..])
    else if StartsWith(s, "&lt;") then "<" + Unescape(s[4..])
    else if StartsWith(s, "&gt;") then ">" + Unescape(s[4..])
    else if StartsWith(s, "&quot;") then "\"" + Unescape(s[6..])
    else if StartsWith(s, "&#039;") then "'" + Unescape(s[6..])
    else [s[0]] + Unescape(s[1..])
  }

  lemma UnescapeAmp(t: string)
    ensures Unescape("&amp;" + t) == "&" + Unescape(t)
  {
    var s := "&amp;" + t;
    assert s[..5] == "&amp;";
    assert s[5..] == t;
  }

  lemma UnescapeLt(t: string)
    ensures Unescape("&lt;" + t) == "<" + Unescape(t)
  {
    var s := "&lt;" + t;
    assert s[1] == 'l';
    assert !StartsWith(s, "&amp;") by { if |s| >= 5 { assert s[..5][1] == 'l'; } }
    assert s[..4] == "&lt;";
    assert s[4..] == t;
  }

  lemma UnescapeGt(t: string)
    ensures Unescape("&gt;" + t) == ">" + Unescape(t)
  {
    var s := "&gt;" + t;
    assert s[1] == 'g';
    assert !StartsWith(s, "&amp;") by { if |s| >= 5 { assert s[..5][1] == 'g'; } }
    assert !StartsWith(s, "&lt;") by { assert s[..4][1] == 'g'; }
    assert s[..4] == "&gt;";
    assert s[4..] == t;
  }

  lemma UnescapeQuot(t: string)
    ensures Unescape("&quot;" + t) == "\"" + Unescape(t)
  {
    var s := "&quot;" + t;
    assert s[1] == 'q';
    assert !StartsWith(s, "&amp;") by { assert s[..5][1] == 'q'; }
    assert !StartsWith(s, "&lt;") by { assert s[..4][1] == 'q'; }
    assert !StartsWith(s, "&gt;") by { assert s[..4][1] == 'q'; }
    assert s[..6] == "&quot;";
    assert s[6..] == t;
  }

  lemma UnescapeApos(t: string)
    ensures Unescape("&#039;" + t) == "'" + Unescape(t)
  {
    var s := "&#039;" + t;
    assert s[1] == '#';
    assert !StartsWith(s, "&amp;") by { assert s[..5][1] == '#'; }
    assert !StartsWith(s, "&lt;") by { assert s[..4][1] == '#'; }
    assert !StartsWith(s, "&gt;") by { assert s[..4][1] == '#'; }
    assert !StartsWith(s, "&quot;") by { assert s[..6][1] == '#'; }
    assert s[..6] == "&#039;";
    assert s[6..] == t;
  }

  lemma UnescapePlain(c: char, t: string)
    requires c != '&'
    ensures Unescape([c] + t) == [c] + Unescape(t)
  {
    var s := [c] + t;
    assert s[0] == c;
    assert !StartsWith(s, "&amp;") && !StartsWith(s, "&lt;") && !StartsWith(s, "&gt;")
        && !StartsWith(s, "&quot;") && !StartsWith(s, "&#039;") by {
      if |s| >= 4 { assert s[..4][0] == c; }
    }
    assert s[1..] == t;
  }

  lemma UnescapeChar(c: char, t: string)
    ensures Unescape(EscapeChar(c) + t) == [c] + Unescape(t)
  {
    if c == '&' {
      UnescapeAmp(t);
    } else if c == '<' {
      UnescapeLt(t);
    } else if c == '>' {
      UnescapeGt(t);
    } else if c == '"' {
      UnescapeQuot(t);
    } else if c == '\'' {
      UnescapeApos(t);
    } else {
      UnescapePlain(c, t);
    }
  }

  lemma {:induction false} UnescapeEach(s: string)
    ensures Unescape(EscapeEach(s)) == s
    decreases |s|
  {
    if s != [] {
      UnescapeEach(s[1..]);
      UnescapeChar(s[0], EscapeEach(s[1..]));
    }
  }

  /** Decoding the entities gives back the original text: `&` is replaced
      first, so no entity of the output is ambiguous. */
  lemma EscapeHtmlRoundTrip(s: string)
    ensures Unescape(EscapeHtml(s)) == s
  {
    EscapeHtmlPerChar(s);
    UnescapeEach(s);
  }
}
