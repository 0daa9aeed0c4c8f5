/*
 * The string helpers of latex_gestion.py that build pieces of the LaTeX
 * document: the day of a date, lines joined by line breaks, a list of
 * formulas written "a, b and c", and the translation of an expression
 * into LaTeX commands.
 */
module LatexGestion {
  import opened Wrappers
  import opened TextGestion

  // ----------------------------------------------------------------------
  // format_day

  /** The last digit str() writes is the number modulo 10. */
  lemma NatToStringLast(n: nat)
    ensures var s := NatToString(n); s[|s| - 1] == Digit(n % 10)
  {
  }

  /** The day followed by its English ordinal suffix. */
  function FormatDay(day: nat): (r: string)
    ensures day % 10 == 1 && day != 11 ==> r == NatToString(day) + "st"
    ensures day % 10 == 2 && day != 12 ==> r == NatToString(day) + "nd"
    ensures day % 10 == 3 && day != 13 ==> r == NatToString(day) + "rd"
    ensures (day % 10 == 0 || day % 10 > 3 || 11 <= day <= 13) ==> r == NatToString(day) + "th"
  {
    NatToStringLast(day);
    var s := NatToString(day);
    if s[|s| - 1] == '1' && day != 11 then s + "st"
    else if s[|s| - 1] == '2' && day != 12 then s + "nd"
    else if s[|s| - 1] == '3' && day != 13 then s + "rd"
    else s + "th"
  }

  /** Without its two-letter suffix the formatted day reads back as the day. */
  lemma FormatDayReadsBack(day: nat)
    ensures |FormatDay(day)| >= 3
    ensures Evaluate(FormatDay(day)[..|FormatDay(day)| - 2]) == Some(day)
  {
    var s := NatToString(day);
    assert FormatDay(day)[..|FormatDay(day)| - 2] == s;
    EvaluateNatToString(day);
  }

  // ----------------------------------------------------------------------
  // concatenate_lines

  /** Every line followed by a line break, in order. */
  function Lines(lines: seq<string>): string
  {
    if |lines| == 0 then "" else lines[0] + "\n" + Lines(lines[1..])
  }

  lemma {:induction false} LinesAppend(a: seq<string>, b: seq<string>)
    ensures Lines(a + b) == Lines(a) + Lines(b)
    decreases |a|
  {
    if |a| == 0 {
      assert a + b == b;
    } else {
      assert (a + b)[1..] == a[1..] + b;
      LinesAppend(a[1..], b);
    }
  }

  method ConcatenateLines(lines: seq<string>) returns (result: string)
    ensures result == Lines(lines)
  {
    result := "";
    for i := 0 to |lines|
      invariant result == Lines(lines[..i])
    {
      assert lines[..i + 1] == lines[..i] + [lines[i]];
      LinesAppend(lines[..i], [lines[i]]);
      result := result + lines[i] + "\n";
    }
    assert lines[..|lines|] == lines;
  }

  /** One character more per line than the lines themselves. */
  lemma {:induction false} LinesLength(lines: seq<string>)
    ensures |Lines(lines)| == TotalLength(lines) + |lines|
    decreases |lines|
  {
    if |lines| > 0 {
      LinesLength(lines[1..]);
    }
  }

  /** The same text as "\n".join(lines) followed by a final line break. */
  lemma {:induction false} LinesAsJoin(lines: seq<string>)
    ensures Lines(lines) == Join(lines + [""], "\n")
    decreases |lines|
  {
    if |lines| > 0 {
      assert (lines + [""])[1..] == lines[1..] + [""];
      LinesAsJoin(lines[1..]);
    }
  }

  /** Before a run of characters other than c, the split goes on as from the end of the run. */
  lemma {:induction false} SplitFromRun(s: string, c: char, start: nat, i: nat, j: nat)
    requires start <= i <= j <= |s|
    requires forall q :: i <= q < j ==> s[q] != c
    ensures SplitFrom(s, [c], start, i) == SplitFrom(s, [c], start, j)
    decreases j - i
  {
    if i < j {
      assert !MatchAt(s, [c], i) by {
        assert s[i] != [c][0];
      }
      SplitFromRun(s, c, start, i + 1, j);
    }
  }

  lemma {:induction false} SplitFromJoined(s: string, c: char, parts: seq<string>, start: nat)
    requires |parts| >= 1 && start <= |s| && s[start..] == Join(parts, [c])
    requires forall k :: 0 <= k < |parts| ==> c !in parts[k]
    ensures SplitFrom(s, [c], start, start) == parts
    decreases |parts|
  {
    var e := start + |parts[0]|;
    if |parts| == 1 {
      assert s[start..] == parts[0];
      forall q | start <= q < |s| ensures s[q] != c {
        assert s[q] == parts[0][q - start];
      }
      SplitFromRun(s, c, start, start, |s|);
    } else {
      var rest := Join(parts[1..], [c]);
      assert s[start..] == parts[0] + [c] + rest;
      forall q | start <= q < e ensures s[q] != c {
        assert s[q] == s[start..][q - start] == parts[0][q - start];
      }
      assert s[e] == s[start..][|parts[0]|] == c;
      SplitFromRun(s, c, start, start, e);
      assert MatchAt(s, [c], e);
      assert s[start..e] == parts[0];
      assert s[e + 1..] == rest;
      SplitFromJoined(s, c, parts[1..], e + 1);
    }
  }

  /** Joining pieces that avoid a character and splitting on it gives the pieces back. */
  lemma SplitOfJoin(parts: seq<string>, c: char)
    requires |parts| >= 1 && forall k :: 0 <= k < |parts| ==> c !in parts[k]
    ensures Split(Join(parts, [c]), [c]) == parts
  {
    var s := Join(parts, [c]);
    assert s[0..] == s;
    SplitFromJoined(s, c, parts, 0);
  }

  /** Splitting the text on line breaks finds the lines again, and an empty last piece. */
  lemma LinesSplit(lines: seq<string>)
    requires forall k :: 0 <= k < |lines| ==> '\n' !in lines[k]
    ensures Split(Lines(lines), "\n") == lines + [""]
  {
    LinesAsJoin(lines);
    SplitOfJoin(lines + [""], '\n');
  }

  // ----------------------------------------------------------------------
  // write_as_list

  /** str.format on a template whose only fields are "{}": each field takes the next argument. */
  function Format(template: string, args: seq<string>): string
    decreases |template|
  {
    if |template| == 0 then ""
    else if |template| >= 2 && template[0] == '{' && template[1] == '}' && |args| > 0
    then args[0] + Format(template[2..], args[1..])
    else [template[0]] + Format(template[1..], args)
  }

  function Repeat(s: string, n: nat): string
  {
    if n == 0 then "" else s + Repeat(s, n - 1)
  }

  /** The template "${}$", n - 2 times ", ${}$", then " and ${}$" (only the first for one element). */
  function ListTemplate(n: nat): string
    requires n >= 1
  {
    "${}$" + if n > 1 then Repeat(", ${}$", n - 2) + " and ${}$" else ""
  }

  /** The formulas of the list, each between dollars, separated by commas and a final "and". */
  function WriteAsList(expressions: seq<string>): string
  {
    if |expressions| == 0 then "" else Format(ListTemplate(|expressions|), expressions)
  }

  /** The elements between the first and the last, each written ", $x$". */
  function Middle(xs: seq<string>): string
  {
    if |xs| == 0 then "" else ", $" + xs[0] + "$" + Middle(xs[1..])
  }

  lemma {:induction false} FormatPlain(a: string, b: string, args: seq<string>)
    requires '{' !in a
    ensures Format(a + b, args) == a + Format(b, args)
    decreases |a|
  {
    if |a| > 0 {
      assert (a + b)[0] == a[0];
      assert (a + b)[1..] == a[1..] + b;
      FormatPlain(a[1..], b, args);
    } else {
      assert a + b == b;
    }
  }

  /** A field between two plain texts takes the first argument. */
  lemma FormatField(pre: string, post: string, rest: string, args: seq<string>)
    requires '{' !in pre && '{' !in post && |args| > 0
    ensures Format(pre + "{}" + post + rest, args) == pre + args[0] + post + Format(rest, args[1..])
  {
    var tail := post + rest;
    calc {
      Format(pre + "{}" + post + rest, args);
      { assert pre + "{}" + post + rest == pre + ("{}" + tail); }
      Format(pre + ("{}" + tail), args);
      { FormatPlain(pre, "{}" + tail, args); }
      pre + Format("{}" + tail, args);
      { FormatBraces(tail, args); }
      pre + (args[0] + Format(tail, args[1..]));
      { FormatPlain(post, rest, args[1..]); }
      pre + (args[0] + (post + Format(rest, args[1..])));
      pre + args[0] + post + Format(rest, args[1..]);
    }
  }

  /** A field at the head of the template takes the first argument. */
  lemma FormatBraces(tail: string, args: seq<string>)
    requires |args| > 0
    ensures Format("{}" + tail, args) == args[0] + Format(tail, args[1..])
  {
    var field := "{}" + tail;
    assert field[0] == '{' && field[1] == '}' && field[2..] == tail;
  }

  lemma {:induction false} FormatRepeat(m: nat, tail: string, args: seq<string>)
    requires |args| >= m
    ensures Format(Repeat(", ${}$", m) + tail, args) == Middle(args[..m]) + Format(tail, args[m..])
    decreases m
  {
    if m == 0 {
      assert Repeat(", ${}$", 0) + tail == tail;
      assert args[0..] == args;
    } else {
      assert Repeat(", ${}$", m) + tail == ", $" + "{}" + "$" + (Repeat(", ${}$", m - 1) + tail);
      FormatField(", $", "$", Repeat(", ${}$", m - 1) + tail, args);
      FormatRepeat(m - 1, tail, args[1..]);
      assert args[1..][..m - 1] == args[..m][1..];
      assert args[1..][m - 1..] == args[m..];
    }
  }

  lemma ListTemplateSeveral(n: nat)
    requires n >= 2
    ensures ListTemplate(n) == "$" + "{}" + "$" + (Repeat(", ${}$", n - 2) + " and ${}$")
  {
  }

  lemma FormatLast(x: string)
    ensures Format(" and ${}$", [x]) == " and $" + x + "$"
  {
    assert " and ${}$" == " and $" + "{}" + "$" + "";
    FormatField(" and $", "$", "", [x]);
  }

  /** The fields after the first: one ", $x$" per middle argument, then " and $x$" for the last. */
  lemma FormatRest(args: seq<string>)
    requires |args| >= 1
    ensures Format(Repeat(", ${}$", |args| - 1) + " and ${}$", args)
            == Middle(args[..|args| - 1]) + (" and $" + args[|args| - 1] + "$")
  {
    var m := |args| - 1;
    FormatRepeat(m, " and ${}$", args);
    assert args[m..] == [args[m]];
    FormatLast(args[m]);
  }

  lemma WriteAsListSeveral(expressions: seq<string>)
    requires |expressions| >= 2
    ensures WriteAsList(expressions) == "$" + expressions[0] + "$" + Middle(expressions[1..|expressions| - 1])
                                        + " and $" + expressions[|expressions| - 1] + "$"
  {
    var n := |expressions|;
    var rest := Repeat(", ${}$", n - 2) + " and ${}$";
    var first, middle, last := "$" + expressions[0] + "$", Middle(expressions[1..n - 1]), " and $" + expressions[n - 1] + "$";
    ListTemplateSeveral(n);
    FormatField("$", "$", rest, expressions);
    FormatRest(expressions[1..]);
    assert expressions[1..][..n - 2] == expressions[1..n - 1];
    assert WriteAsList(expressions) == first + (middle + last);
    assert first + (middle + last) == first + middle + last;
  }

  /** The list written out: nothing, one formula, or the first, the middle ones after commas and the last after "and". */
  lemma WriteAsListSpelled(expressions: seq<string>)
    ensures |expressions| == 0 ==> WriteAsList(expressions) == ""
    ensures |expressions| == 1 ==> WriteAsList(expressions) == "$" + expressions[0] + "$"
    ensures |expressions| >= 2 ==>
              WriteAsList(expressions) == "$" + expressions[0] + "$" + Middle(expressions[1..|expressions| - 1])
                                          + " and $" + expressions[|expressions| - 1] + "$"
  {
    if |expressions| == 1 {
      assert ListTemplate(1) == "$" + "{}" + "$" + "";
      FormatField("$", "$", "", expressions);
    } else if |expressions| >= 2 {
      WriteAsListSeveral(expressions);
    }
  }

  // ----------------------------------------------------------------------
  // convert_2_latex

  /** What a character adds to the number of open parentheses. */
  function Delta(c: char): int
  {
    if c == '(' then 1 else if c == ')' then -1 else 0
  }

  /** Parentheses opened minus parentheses closed in text[a..b]. */
  function OpenBetween(text: string, a: nat, b: nat): int
    requires a <= b <= |text|
    decreases b - a
  {
    if a == b then 0 else OpenBetween(text, a, b - 1) + Delta(text[b - 1])
  }

  lemma {:induction false} OpenBetweenSplit(text: string, a: nat, b: nat, c: nat)
    requires a <= b <= c <= |text|
    ensures OpenBetween(text, a, c) == OpenBetween(text, a, b) + OpenBetween(text, b, c)
    decreases c - b
  {
    if b < c {
      OpenBetweenSplit(text, a, b, c - 1);
    }
  }

  /** A power whose exponent is between parentheses starts at j: "^(". */
  predicate GroupStart(text: string, j: nat)
  {
    j + 1 < |text| && text[j] == '^' && text[j + 1] == '('
  }

  /** No prefix of text[p..i] closes the parenthesis at p. */
  predicate StillOpen(text: string, p: nat, i: nat)
    requires p <= i <= |text|
    decreases i - p
  {
    i == p || (OpenBetween(text, p, i) > 0 && StillOpen(text, p, i - 1))
  }

  lemma {:induction false} StillOpenAt(text: string, p: nat, i: nat, m: nat)
    requires p < m <= i <= |text| && StillOpen(text, p, i)
    ensures OpenBetween(text, p, m) > 0
    decreases i - m
  {
    if m < i {
      StillOpenAt(text, p, i - 1, m);
    }
  }

  /** The parenthesis after the power at j is still open before index i. */
  predicate Alive(text: string, j: nat, i: nat)
    requires j < i <= |text|
  {
    GroupStart(text, j) && StillOpen(text, j + 1, i)
  }

  /** One of the exponents opened before index j is open before i with one parenthesis left. */
  predicate ClosesFrom(text: string, i: nat, j: nat)
    requires j <= i <= |text|
  {
    j > 0 && ((Alive(text, j - 1, i) && OpenBetween(text, j, i) == 1) || ClosesFrom(text, i, j - 1))
  }

  /** The ')' at i closes the parenthesis of a power's exponent. */
  predicate ClosesGroup(text: string, i: nat)
    requires i < |text|
  {
    text[i] == ')' && ClosesFrom(text, i, i)
  }

  lemma {:induction false} ClosesFromIff(text: string, i: nat, j: nat)
    requires j <= i <= |text|
    ensures ClosesFrom(text, i, j) <==> exists g :: 0 <= g < j && Alive(text, g, i) && OpenBetween(text, g + 1, i) == 1
    decreases j
  {
    if j > 0 {
      ClosesFromIff(text, i, j - 1);
    }
  }

  /**
   * The LaTeX of the character at i: '(' and ')' become \left( and \right),
   * followed by '}' when it closes an exponent; '*' becomes \cdot before a
   * digit and disappears otherwise; '^' before '(' opens a brace; every
   * other character is copied.
   */
  function Piece(text: string, i: nat): string
    requires i < |text|
  {
    var c := text[i];
    if c == '(' then "\\left("
    else if c == ')' then "\\right)" + (if ClosesGroup(text, i) then "}" else "")
    else if c == '*' then (if i + 1 < |text| && IsNumber(text[i + 1]) then "\\cdot" else "")
    else if c == '^' && GroupStart(text, i) then "^{"
    else [c]
  }

  /** The LaTeX of text[..n], character by character. */
  function LatexUpTo(text: string, n: nat): string
    requires n <= |text|
  {
    if n == 0 then "" else LatexUpTo(text, n - 1) + Piece(text, n - 1)
  }

  function Latex(text: string): string
  {
    LatexUpTo(text, |text|)
  }

  /** The piece the loop appends before the parentheses are rewritten. */
  function RawPiece(text: string, i: nat): string
    requires i < |text|
  {
    var c := text[i];
    if c == ')' then ")" + (if ClosesGroup(text, i) then "}" else "")
    else if c == '*' then (if i + 1 < |text| && IsNumber(text[i + 1]) then "\\cdot" else "")
    else if c == '^' && GroupStart(text, i) then "^{"
    else [c]
  }

  function RawUpTo(text: string, n: nat): string
    requires n <= |text|
  {
    if n == 0 then "" else RawUpTo(text, n - 1) + RawPiece(text, n - 1)
  }

  /** str.replace of a single character. */
  function ReplaceChar(s: string, c: char, replacement: string): string
  {
    if |s| == 0 then "" else (if s[0] == c then replacement else [s[0]]) + ReplaceChar(s[1..], c, replacement)
  }

  lemma {:induction false} ReplaceCharAppend(a: string, b: string, c: char, replacement: string)
    ensures ReplaceChar(a + b, c, replacement) == ReplaceChar(a, c, replacement) + ReplaceChar(b, c, replacement)
    decreases |a|
  {
    if |a| == 0 {
      assert a + b == b;
    } else {
      assert (a + b)[1..] == a[1..] + b;
      ReplaceCharAppend(a[1..], b, c, replacement);
    }
  }

  lemma {:induction false} ReplaceCharAbsent(s: string, c: char, replacement: string)
    requires c !in s
    ensures ReplaceChar(s, c, replacement) == s
    decreases |s|
  {
    if |s| > 0 {
      ReplaceCharAbsent(s[1..], c, replacement);
    }
  }

  /** The two replacements that end convert_2_latex. */
  function LatexParens(s: string): string
  {
    ReplaceChar(ReplaceChar(s, '(', "\\left("), ')', "\\right)")
  }

  lemma LatexParensAppend(a: string, b: string)
    ensures LatexParens(a + b) == LatexParens(a) + LatexParens(b)
  {
    ReplaceCharAppend(a, b, '(', "\\left(");
    ReplaceCharAppend(ReplaceChar(a, '(', "\\left("), ReplaceChar(b, '(', "\\left("), ')', "\\right)");
  }

  lemma LatexParensAbsent(s: string)
    requires '(' !in s && ')' !in s
    ensures LatexParens(s) == s
  {
    ReplaceCharAbsent(s, '(', "\\left(");
    ReplaceCharAbsent(s, ')', "\\right)");
  }

  lemma ReplaceCharSingle(d: char, c: char, replacement: string)
    ensures ReplaceChar([d], c, replacement) == if d == c then replacement else [d]
  {
    assert [d][1..] == [];
  }

  lemma LatexParensOpen()
    ensures LatexParens("(") == "\\left("
  {
    ReplaceCharSingle('(', '(', "\\left(");
    ReplaceCharAbsent("\\left(", ')', "\\right)");
  }

  lemma LatexParensClose()
    ensures LatexParens(")") == "\\right)"
  {
    ReplaceCharSingle(')', '(', "\\left(");
    ReplaceCharSingle(')', ')', "\\right)");
  }

  lemma LatexParensPiece(text: string, i: nat)
    requires i < |text|
    ensures LatexParens(RawPiece(text, i)) == Piece(text, i)
  {
    var c := text[i];
    var raw := RawPiece(text, i);
    if c == '(' {
      assert raw == "(";
      LatexParensOpen();
    } else if c == ')' {
      var brace := if ClosesGroup(text, i) then "}" else "";
      assert raw == ")" + brace;
      LatexParensAppend(")", brace);
      LatexParensClose();
      LatexParensAbsent(brace);
    } else {
      LatexParensAbsent(raw);
    }
  }

  lemma {:induction false} LatexParensRaw(text: string, n: nat)
    requires n <= |text|
    ensures LatexParens(RawUpTo(text, n)) == LatexUpTo(text, n)
    decreases n
  {
    if n > 0 {
      LatexParensRaw(text, n - 1);
      LatexParensPiece(text, n - 1);
      LatexParensJoin(RawUpTo(text, n - 1), RawPiece(text, n - 1), LatexUpTo(text, n - 1), Piece(text, n - 1));
    }
  }

  /** Rewriting the parentheses of two texts joined joins their rewritings. */
  lemma LatexParensJoin(before: string, piece: string, latexBefore: string, latexPiece: string)
    requires LatexParens(before) == latexBefore && LatexParens(piece) == latexPiece
    ensures LatexParens(before + piece) == latexBefore + latexPiece
  {
    LatexParensAppend(before, piece);
  }

  /** The counters of the open exponents, in the loop: one per group, its open parentheses. */
  ghost predicate Counters(text: string, i: nat, groups: seq<nat>, closing: seq<int>)
    requires i <= |text|
  {
    && |closing| == |groups|
    && (forall k :: 0 <= k < |groups| ==> groups[k] < i && Alive(text, groups[k], i))
    && (forall k :: 0 <= k < |groups| ==> closing[k] == OpenBetween(text, groups[k] + 1, i))
    && (forall k, l :: 0 <= k < l < |groups| ==> groups[k] < groups[l])
    && (forall j :: 0 <= j < i && Alive(text, j, i) ==> j in groups)
  }

  predicate Positive(closing: seq<int>)
  {
    forall k :: 0 <= k < |closing| ==> closing[k] > 0
  }

  predicate Decreasing(closing: seq<int>)
  {
    forall k, l :: 0 <= k < l < |closing| ==> closing[k] > closing[l]
  }

  /** An exponent opened earlier has more parentheses open than a later one. */
  lemma CountersDecrease(text: string, i: nat, groups: seq<nat>, closing: seq<int>, k: nat, l: nat)
    requires i <= |text| && Counters(text, i, groups, closing) && k < l < |groups|
    ensures closing[k] > closing[l]
  {
    var g, h := groups[k], groups[l];
    assert g + 1 < h + 1 <= i by {
      assert g < h && GroupStart(text, h) && GroupStart(text, g);
    }
    assert Alive(text, g, i);
    StillOpenAt(text, g + 1, i, h + 1);
    OpenBetweenSplit(text, g + 1, h + 1, i);
  }

  lemma CountersPositive(text: string, i: nat, groups: seq<nat>, closing: seq<int>, k: nat)
    requires i < |text| && text[i] == ')' && Counters(text, i, groups, closing) && k < |groups|
    ensures closing[k] > 0
  {
    var g := groups[k];
    assert Alive(text, g, i);
    assert g + 1 != i;
  }

  /** Before a ')', the counters are positive and decrease from the oldest exponent to the newest. */
  lemma CountersReady(text: string, i: nat, groups: seq<nat>, closing: seq<int>)
    requires i < |text| && text[i] == ')' && Counters(text, i, groups, closing)
    ensures Positive(closing) && Decreasing(closing)
  {
    forall k | 0 <= k < |closing| ensures closing[k] > 0 {
      CountersPositive(text, i, groups, closing, k);
    }
    forall k, l | 0 <= k < l < |closing| ensures closing[k] > closing[l] {
      CountersDecrease(text, i, groups, closing, k, l);
    }
  }

  /** After a character that is not a parenthesis, the open exponents stay the same. */
  lemma CountersKeep(text: string, i: nat, groups: seq<nat>, closing: seq<int>)
    requires i < |text| && text[i] != '(' && text[i] != ')' && !GroupStart(text, i)
    requires Counters(text, i, groups, closing)
    ensures Counters(text, i + 1, groups, closing)
  {
    forall k | 0 <= k < |groups| ensures Alive(text, groups[k], i + 1) {
      assert Alive(text, groups[k], i);
      assert OpenBetween(text, groups[k] + 1, i + 1) == OpenBetween(text, groups[k] + 1, i);
    }
    forall j | 0 <= j < i + 1 && Alive(text, j, i + 1) ensures j in groups {
      assert j < i;
      assert Alive(text, j, i);
    }
  }

  /** A power before '(' opens one more exponent, counted from zero. */
  lemma CountersOpen(text: string, i: nat, groups: seq<nat>, closing: seq<int>)
    requires i < |text| && GroupStart(text, i)
    requires Counters(text, i, groups, closing)
    ensures Counters(text, i + 1, groups + [i], closing + [0])
  {
    var groups', closing' := groups + [i], closing + [0];
    forall k | 0 <= k < |groups'| ensures groups'[k] < i + 1 && Alive(text, groups'[k], i + 1)
      && closing'[k] == OpenBetween(text, groups'[k] + 1, i + 1)
    {
      if k < |groups| {
        assert Alive(text, groups[k], i);
        assert OpenBetween(text, groups[k] + 1, i + 1) == OpenBetween(text, groups[k] + 1, i);
      }
    }
    forall j | 0 <= j < i + 1 && Alive(text, j, i + 1) ensures j in groups' {
      if j < i {
        assert Alive(text, j, i);
      } else {
        assert groups'[|groups|] == j;
      }
    }
  }

  /** Every counter plus d. */
  function Shifted(s: seq<int>, d: int): (r: seq<int>)
    ensures |r| == |s| && forall k :: 0 <= k < |s| ==> r[k] == s[k] + d
  {
    seq(|s|, k requires 0 <= k < |s| => s[k] + d)
  }

  /** An opening parenthesis adds one to every open exponent. */
  lemma CountersParen(text: string, i: nat, groups: seq<nat>, closing: seq<int>)
    requires i < |text| && text[i] == '('
    requires Counters(text, i, groups, closing)
    ensures Counters(text, i + 1, groups, Shifted(closing, 1))
  {
    forall k | 0 <= k < |groups| ensures Alive(text, groups[k], i + 1) {
      var p := groups[k] + 1;
      assert Alive(text, groups[k], i);
      assert OpenBetween(text, p, i + 1) == OpenBetween(text, p, i) + 1;
      if p < i {
        assert OpenBetween(text, p, i) > 0;
      }
    }
    forall j | 0 <= j < i + 1 && Alive(text, j, i + 1) ensures j in groups {
      assert j < i;
      assert Alive(text, j, i);
    }
  }

  /** At a ')', an exponent whose counter is above one stays open, with one parenthesis less. */
  lemma CountersCloseKeep(text: string, i: nat, groups: seq<nat>, closing: seq<int>, k: nat)
    requires i < |text| && text[i] == ')' && Counters(text, i, groups, closing)
    requires k < |groups| && closing[k] > 1
    ensures Alive(text, groups[k], i + 1) && OpenBetween(text, groups[k] + 1, i + 1) == closing[k] - 1
  {
    assert Alive(text, groups[k], i);
  }

  /** An exponent open after a ')' was open before it, with a counter above one. */
  lemma CountersCloseSurvivor(text: string, i: nat, groups: seq<nat>, closing: seq<int>, j: nat)
    requires i < |text| && text[i] == ')' && Counters(text, i, groups, closing)
    requires j < i + 1 && Alive(text, j, i + 1)
    ensures exists k :: 0 <= k < |groups| && groups[k] == j && closing[k] > 1
  {
    assert j < i && Alive(text, j, i);
    var k :| 0 <= k < |groups| && groups[k] == j;
    assert OpenBetween(text, j + 1, i + 1) == closing[k] - 1;
  }

  /** A ')' that brings the newest counter to zero closes that exponent. */
  lemma CountersCloseGroup(text: string, i: nat, groups: seq<nat>, closing: seq<int>)
    requires i < |text| && text[i] == ')' && Counters(text, i, groups, closing)
    requires |groups| > 0 && closing[|groups| - 1] == 1
    ensures ClosesGroup(text, i)
    ensures var n := |groups|; Counters(text, i + 1, groups[..n - 1], Shifted(closing[..n - 1], -1))
  {
    var n := |groups|;
    var groups', closing' := groups[..n - 1], Shifted(closing[..n - 1], -1);
    CountersReady(text, i, groups, closing);
    assert Alive(text, groups[n - 1], i) && OpenBetween(text, groups[n - 1] + 1, i) == 1;
    ClosesFromIff(text, i, i);
    forall k | 0 <= k < |groups'|
      ensures groups'[k] < i + 1 && Alive(text, groups'[k], i + 1)
      ensures closing'[k] == OpenBetween(text, groups'[k] + 1, i + 1)
    {
      CountersCloseKeep(text, i, groups, closing, k);
    }
    forall j | 0 <= j < i + 1 && Alive(text, j, i + 1) ensures j in groups' {
      CountersCloseSurvivor(text, i, groups, closing, j);
      var k :| 0 <= k < n && groups[k] == j && closing[k] > 1;
      assert groups'[k] == j;
    }
  }

  /** A ')' that brings no counter to zero closes no exponent. */
  lemma CountersCloseNone(text: string, i: nat, groups: seq<nat>, closing: seq<int>)
    requires i < |text| && text[i] == ')' && Counters(text, i, groups, closing)
    requires !(|groups| > 0 && closing[|groups| - 1] == 1)
    ensures !ClosesGroup(text, i)
    ensures Counters(text, i + 1, groups, Shifted(closing, -1))
  {
    var n := |groups|;
    CountersReady(text, i, groups, closing);
    ClosesFromIff(text, i, i);
    forall k | 0 <= k < n
      ensures Alive(text, groups[k], i + 1) && Shifted(closing, -1)[k] == OpenBetween(text, groups[k] + 1, i + 1)
    {
      assert closing[k] >= closing[n - 1] > 1;
      CountersCloseKeep(text, i, groups, closing, k);
    }
    forall j | 0 <= j < i + 1 && Alive(text, j, i + 1) ensures j in groups {
      CountersCloseSurvivor(text, i, groups, closing, j);
    }
  }

  /** list.remove(x): the list without the first occurrence of x. */
  function RemoveFirst(s: seq<int>, x: int): (r: seq<int>)
    requires x in s
    ensures |r| == |s| - 1
  {
    if s[0] == x then s[1..] else [s[0]] + RemoveFirst(s[1..], x)
  }

  lemma {:induction false} RemoveFirstLast(s: seq<int>, x: int)
    requires |s| > 0 && s[|s| - 1] == x && forall k :: 0 <= k < |s| - 1 ==> s[k] != x
    ensures x in s && RemoveFirst(s, x) == s[..|s| - 1]
    decreases |s|
  {
    if s[0] != x {
      RemoveFirstLast(s[1..], x);
      assert s[..|s| - 1] == [s[0]] + s[1..][..|s| - 2];
    }
  }

  /** The loop of convert_2_latex over the counters at '(': every counter goes up by one. */
  method OpenParenthesis(closing: seq<int>) returns (counters: seq<int>)
    ensures counters == Shifted(closing, 1)
  {
    counters := closing;
    var k := 0;
    while k < |counters|
      invariant 0 <= k <= |counters| == |closing|
      invariant forall q :: 0 <= q < k ==> counters[q] == closing[q] + 1
      invariant forall q :: k <= q < |closing| ==> counters[q] == closing[q]
    {
      counters := counters[k := counters[k] + 1];
      k := k + 1;
    }
    assert counters == Shifted(closing, 1);
  }

  /** Among positive decreasing counters, only the newest can be one. */
  lemma AboveNewest(closing: seq<int>, k: nat)
    requires Positive(closing) && Decreasing(closing) && k < |closing| - 1
    ensures closing[k] > 1
  {
    assert closing[k] > closing[|closing| - 1];
  }

  /**
   * The loop of convert_2_latex over the counters at ')': every counter
   * goes down by one, and the one that reaches zero, necessarily the newest,
   * is removed from the list while the loop runs over it, and a '}' is written.
   */
  method CloseParenthesis(closing: seq<int>, result: string) returns (counters: seq<int>, written: string)
    requires Positive(closing) && Decreasing(closing)
    ensures var n := |closing|;
            if n > 0 && closing[n - 1] == 1
            then counters == Shifted(closing[..n - 1], -1) && written == result + "}"
            else counters == Shifted(closing, -1) && written == result
  {
    var n := |closing|;
    counters, written := closing, result;
    ghost var removed := false;
    var k := 0;
    while k < |counters|
      invariant k <= n
      invariant !removed ==> |counters| == n && written == result
      invariant !removed ==> forall q :: 0 <= q < k ==> counters[q] == closing[q] - 1 && closing[q] != 1
      invariant !removed ==> forall q :: k <= q < n ==> counters[q] == closing[q]
      invariant removed ==> k == n && n > 0 && closing[n - 1] == 1 && |counters| == n - 1 && written == result + "}"
      invariant removed ==> forall q :: 0 <= q < n - 1 ==> counters[q] == closing[q] - 1
      decreases n - k
    {
      if k < n - 1 {
        AboveNewest(closing, k);
      }
      var howManyLeft := counters[k] - 1;
      counters := counters[k := howManyLeft];
      if howManyLeft == 0 {
        RemoveFirstLast(counters, 0);
        counters := RemoveFirst(counters, 0);
        written := written + "}";
        removed := true;
      }
      k := k + 1;
    }
    if removed {
      assert counters == Shifted(closing[..n - 1], -1);
    } else {
      assert counters == Shifted(closing, -1);
    }
  }

  /** One turn of the loop of convert_2_latex: the character at index. */
  method ConvertCharacter(text: string, index: nat, result: string, closing: seq<int>, ghost groups: seq<nat>)
    returns (written: string, counters: seq<int>, ghost groups': seq<nat>)
    requires index < |text| && text[|text| - 1] != '*' && text[|text| - 1] != '^'
    requires Counters(text, index, groups, closing)
    ensures written == result + RawPiece(text, index)
    ensures Counters(text, index + 1, groups', counters)
  {
    var character := text[index];
    written, counters, groups' := result, closing, groups;
    if character == '(' {
      CountersParen(text, index, groups, closing);
      counters := OpenParenthesis(closing);
      written := written + "(";
    } else if character == ')' {
      written := written + ")";
      CountersReady(text, index, groups, closing);
      ghost var n := |closing|;
      ghost var closes := n > 0 && closing[n - 1] == 1;
      if closes {
        CountersCloseGroup(text, index, groups, closing);
        groups' := groups[..n - 1];
      } else {
        CountersCloseNone(text, index, groups, closing);
      }
      counters, written := CloseParenthesis(closing, written);
    } else if character == '*' {
      if IsNumber(text[index + 1]) {
        written := written + "\\cdot";
      }
      CountersKeep(text, index, groups, closing);
    } else if character == '^' && text[index + 1] == '(' {
      written := written + "^{";
      CountersOpen(text, index, groups, closing);
      counters := closing + [0];
      groups' := groups + [index];
    } else {
      written := written + [character];
      CountersKeep(text, index, groups, closing);
    }
  }

  /** Translates an expression into LaTeX, as convert_2_latex does. */
  method Convert2Latex(text: string) returns (result: string)
    requires |text| == 0 || (text[|text| - 1] != '*' && text[|text| - 1] != '^')
    ensures result == Latex(text)
  {
    result := "";
    var closing: seq<int> := [];
    ghost var groups: seq<nat> := [];
    for index := 0 to |text|
      invariant result == RawUpTo(text, index)
      invariant Counters(text, index, groups, closing)
    {
      result, closing, groups := ConvertCharacter(text, index, result, closing, groups);
    }
    LatexParensRaw(text, |text|);
    result := LatexParens(result);
  }

  /** Text without parentheses, products or powers is already LaTeX. */
  lemma {:induction false} LatexOfPlain(text: string, n: nat)
    requires n <= |text|
    requires forall k :: 0 <= k < |text| ==> text[k] !in "()*^"
    ensures LatexUpTo(text, n) == text[..n]
    decreases n
  {
    if n > 0 {
      LatexOfPlain(text, n - 1);
      assert text[..n] == text[..n - 1] + [text[n - 1]];
    }
  }

  /** In "a^(b)" the closing parenthesis ends the exponent opened by the power. */
  lemma PowerExampleCloses()
    ensures ClosesGroup("a^(b)", 4)
  {
    var t := "a^(b)";
    assert OpenBetween(t, 2, 3) == 1 && OpenBetween(t, 2, 4) == 1;
    assert StillOpen(t, 2, 4);
    assert Alive(t, 1, 4);
    assert ClosesFrom(t, 4, 2);
  }

  lemma PowerExamplePieces()
    ensures Piece("a^(b)", 0) == "a" && Piece("a^(b)", 1) == "^{" && Piece("a^(b)", 2) == "\\left("
    ensures Piece("a^(b)", 3) == "b" && Piece("a^(b)", 4) == "\\right)}"
  {
    PowerExampleCloses();
  }

  /** The exponent of a power keeps its parentheses inside a brace. */
  lemma LatexOfPowerExample()
    ensures Latex("a^(b)") == "a^{\\left(b\\right)}"
  {
    var t := "a^(b)";
    PowerExamplePieces();
    assert LatexUpTo(t, 1) == "a";
    assert LatexUpTo(t, 2) == "a^{";
    assert LatexUpTo(t, 3) == "a^{\\left(";
    assert LatexUpTo(t, 4) == "a^{\\left(b";
  }

  /** A product sign is written \cdot only before a digit. */
  lemma LatexOfProductExample()
    ensures Latex("2*3*x") == "2\\cdot3x"
  {
    var t := "2*3*x";
    assert LatexUpTo(t, 1) == "2";
    assert LatexUpTo(t, 2) == "2\\cdot";
    assert LatexUpTo(t, 3) == "2\\cdot3";
    assert LatexUpTo(t, 4) == "2\\cdot3";
  }
}
