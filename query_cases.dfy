/** Queries from the parser's own tests, worked through the model.

    Each query is first described by its layout: which token stands at which position and which
    whitespace character separates it from the next. Lemmas on strings with that layout then read
    the query token by token, row by row and group by group, with the direct readings of the
    grammar in QueryFacts, up to the rule or the error ParseQuery returns. Every position a
    reading lemma talks about is one of its parameters, so that each step only has to match the
    facts of the step before. */
module QueryCases {
  import opened Parsec
  import opened Netmap
  import opened Query
  import opened QueryFacts

  // Tokens

  /** No whitespace at `j`: skipping whitespace stays there. */
  lemma {:induction false} NoSpace(s: string, j: nat)
    requires j == |s| || (j < |s| && !IsSpace(s[j]))
    ensures SkipSpace(s, j) == j
  {
  }

  /** One whitespace character at `j` and none at `k`, the position after it. */
  lemma {:induction false} OneSpace(s: string, j: nat, k: nat)
    requires k == j + 1 && j < |s| && IsSpace(s[j]) && (k == |s| || !IsSpace(s[k]))
    ensures SkipSpace(s, j) == k
  {
  }

  /** A semicolon with one whitespace character on either side of it, then a group. */
  lemma {:induction false} SemicolonBetweenSpaces(s: string, j: nat, g: SFGroup, e: nat)
    requires j + 3 <= |s| && IsSpace(s[j]) && s[j + 1] == ';' && IsSpace(s[j + 2])
    requires j + 3 == |s| || !IsSpace(s[j + 3])
    requires SfGroupSpec(s, j + 3) == Success(g, e)
    ensures NextGroup(s, j) == Success(g, e)
  {
    OneSpace(s, j, j + 1);
    OneSpace(s, j + 2, j + 3);
    NextGroupRead(s, j, g, e);
  }

  /** A number spelled `ds` from `j` to `e`, followed by something other than a digit. */
  lemma {:induction false} DigitsAt(s: string, j: nat, ds: string, e: nat)
    requires |ds| > 0 && AllDigits(ds) && e == j + |ds| && e <= |s| && s[j..e] == ds
    requires e == |s| || !IsDigit(s[e])
    ensures ParseNumber(s, j) == Success(FoldDigits(ds), e)
  {
    assert forall k :: j <= k < e ==> s[k] == ds[k - j];
  }

  /** An identifier `w` from `j` to `e`, followed by something other than a letter or digit. */
  lemma NameAt(s: string, j: nat, w: string, e: nat)
    requires |w| > 0 && (forall k :: 0 <= k < |w| ==> IsIdentChar(w[k]))
    requires e == j + |w| && e <= |s| && s[j..e] == w
    requires e == |s| || !IsIdentChar(s[e])
    ensures ParseString(s, j) == Success(w, e)
  {
    assert forall k :: j <= k < e ==> s[k] == w[k - j];
  }

  /** A token `t` of non-space characters from `j` to `e` that names the operation `op`,
      followed by whitespace or the end. */
  lemma OperatorAt(s: string, j: nat, t: string, op: Operation, e: nat)
    requires |t| > 0 && (forall k :: 0 <= k < |t| ==> IsNonSpace(t[k])) && t in StrToOp && StrToOp[t] == op
    requires e == j + |t| && e <= |s| && s[j..e] == t
    requires e == |s| || IsSpace(s[e])
    ensures ParseOperation(s, j) == Success(op, e)
  {
    assert forall k :: j <= k < e ==> s[k] == t[k - j];
  }

  /** A token `t` of non-space characters from `j` to `e` that names no operation: reading an
      operation fails after it. */
  lemma UnknownAt(s: string, j: nat, t: string, e: nat)
    requires |t| > 0 && (forall k :: 0 <= k < |t| ==> IsNonSpace(t[k])) && t !in StrToOp
    requires e == j + |t| && e <= |s| && s[j..e] == t
    requires e == |s| || IsSpace(s[e])
    ensures ParseOperation(s, j) == Failure(e)
  {
    assert forall k :: j <= k < e ==> s[k] == t[k - j];
  }

  /** The values of the numbers the test queries spell. */
  lemma NumberValues()
    ensures FoldDigits("1") == 1 && FoldDigits("2") == 2 && FoldDigits("3") == 3 && FoldDigits("4") == 4
    ensures FoldDigits("10") == 10 && FoldDigits("11") == 11
  {
  }

  /** The operation words the test queries use; EE is none. */
  lemma OperationWords()
    ensures "NE" in StrToOp && StrToOp["NE"] == NE && "EQ" in StrToOp && StrToOp["EQ"] == EQ
    ensures ">" in StrToOp && StrToOp[">"] == GT && "EE" !in StrToOp
  {
  }

  // Rows

  /** A "count key" row: whitespace at `j` up to the number at `j1`, which ends at `b`, and
      whitespace at `b` up to the key at `b1`, which ends at `e`. */
  lemma {:induction false} SelectorRowRead(s: string, j: nat, j1: nat, n: uint32, b: nat, b1: nat, key: string, e: nat)
    requires j < |s| && IsSpace(s[j]) && SkipSpace(s, j) == j1 && ParseNumber(s, j1) == Success(n, b)
    requires b < |s| && IsSpace(s[b]) && SkipSpace(s, b) == b1 && ParseString(s, b1) == Success(key, e)
    ensures SelectorRowSpec(s, j) == Success(Select(key, n), e)
  {
    NumberAtParse(s, j1);
    IdentAtParse(s, b1);
  }

  /** A row whose count ends the text has no key: it is no selector row, and the selectors before
      it are the last ones. */
  lemma {:induction false} SelectorRowCut(s: string, j: nat, j1: nat, n: uint32, b: nat)
    requires j < |s| && IsSpace(s[j]) && SkipSpace(s, j) == j1 && ParseNumber(s, j1) == Success(n, b)
    requires b == |s|
    ensures SelectorRowSpec(s, j) == Failure(j) && MoreSelectors(s, j) == ([], j)
  {
  }

  /** A "key operation value" row: whitespace at `j` up to the key at `j1`, which ends at `b`,
      whitespace at `b` up to the operation at `b1`, which ends at `c`, and whitespace at `c` up
      to the value at `c1`, which ends at `e`. */
  lemma {:induction false} FilterRowRead(s: string, j: nat, j1: nat, key: string, b: nat, b1: nat, op: Operation, c: nat,
                      c1: nat, value: string, e: nat)
    requires j < |s| && IsSpace(s[j]) && SkipSpace(s, j) == j1 && ParseString(s, j1) == Success(key, b)
    requires b < |s| && IsSpace(s[b]) && SkipSpace(s, b) == b1 && ParseOperation(s, b1) == Success(op, c)
    requires c < |s| && IsSpace(s[c]) && SkipSpace(s, c) == c1 && ParseString(s, c1) == Success(value, e)
    ensures FilterRowSpec(s, j) == Success(Filter(key, op, value), e)
  {
    IdentAtParse(s, j1);
    OperationAtParse(s, b1);
    IdentAtParse(s, c1);
  }

  /** A row whose operation cannot be read is no filter row, and consumes nothing. */
  lemma {:induction false} FilterRowUnknown(s: string, j: nat, j1: nat, key: string, b: nat, b1: nat, c: nat)
    requires j < |s| && IsSpace(s[j]) && SkipSpace(s, j) == j1 && ParseString(s, j1) == Success(key, b)
    requires b < |s| && IsSpace(s[b]) && SkipSpace(s, b) == b1 && ParseOperation(s, b1) == Failure(c)
    ensures FilterRowSpec(s, j) == Failure(j)
  {
    IdentAtParse(s, j1);
    OperationAtParse(s, b1);
  }

  /** The text ends at `e`: no further selector row. */
  lemma {:induction false} NoSelectorRowAtEnd(s: string, e: nat)
    requires e == |s|
    ensures SelectorRowSpec(s, e) == Failure(e) && MoreSelectors(s, e) == ([], e)
  {
  }

  /** Whitespace at `e` followed by something other than whitespace or a digit at `e1`: no
      further selector row. */
  lemma {:induction false} NoSelectorRowAt(s: string, e: nat, e1: nat)
    requires e1 == e + 1 && e1 < |s| && IsSpace(s[e]) && !IsSpace(s[e1]) && !IsDigit(s[e1])
    ensures SelectorRowSpec(s, e) == Failure(e) && MoreSelectors(s, e) == ([], e)
  {
    OneSpace(s, e, e1);
    assert ParseNumber(s, e1).Failure?;
  }

  /** The text ends at `e`: no further filter row. */
  lemma {:induction false} NoFilterRowAtEnd(s: string, e: nat)
    requires e == |s|
    ensures FilterRowSpec(s, e) == Failure(e) && MoreFilters(s, e) == ([], e)
  {
  }

  /** Whitespace at `e` followed by something that is neither whitespace nor a letter or digit at
      `e1`: no further filter row. */
  lemma {:induction false} NoFilterRowAt(s: string, e: nat, e1: nat)
    requires e1 == e + 1 && e1 < |s| && IsSpace(s[e]) && !IsSpace(s[e1]) && !IsIdentChar(s[e1])
    ensures FilterRowSpec(s, e) == Failure(e) && MoreFilters(s, e) == ([], e)
  {
    OneSpace(s, e, e1);
    assert ParseString(s, e1).Failure?;
  }

  // Groups

  /** A selector row at `b` ending at `e`, and after it the rows `rest`: the rows from `b`. */
  lemma {:induction false} MoreSelectorsStep(s: string, b: nat, y: Select, e: nat, rest: seq<Select>, m: nat)
    requires SelectorRowSpec(s, b) == Success(y, e) && MoreSelectors(s, e) == (rest, m)
    ensures MoreSelectors(s, b) == ([y] + rest, m)
  {
  }

  /** A selector row at `j` ending at `b` and the further rows `xs`: the selectors from `j`. */
  lemma {:induction false} SelectorsOf(s: string, j: nat, x: Select, b: nat, xs: seq<Select>, e: nat)
    requires SelectorRowSpec(s, j) == Success(x, b) && MoreSelectors(s, b) == (xs, e)
    ensures SelectorsSpec(s, j) == Success([x] + xs, e)
  {
  }

  lemma {:induction false} SelectorsOne(s: string, j: nat, x: Select, e: nat)
    requires SelectorRowSpec(s, j) == Success(x, e) && MoreSelectors(s, e) == ([], e)
    ensures SelectorsSpec(s, j) == Success([x], e)
  {
    SelectorsOf(s, j, x, e, [], e);
    assert [x] + [] == [x];
  }

  lemma {:induction false} SelectorsTwo(s: string, j: nat, x: Select, b: nat, y: Select, e: nat)
    requires SelectorRowSpec(s, j) == Success(x, b) && SelectorRowSpec(s, b) == Success(y, e)
    requires MoreSelectors(s, e) == ([], e)
    ensures SelectorsSpec(s, j) == Success([x, y], e)
  {
    MoreSelectorsStep(s, b, y, e, [], e);
    assert [y] + [] == [y];
    SelectorsOf(s, j, x, b, [y], e);
    assert [x] + [y] == [x, y];
  }

  /** One filter row and no more: the filter rows are that one. */
  lemma {:induction false} RowsOne(s: string, j: nat, f: Filter, k: nat)
    requires FilterRowSpec(s, j) == Success(f, k) && MoreFilters(s, k) == ([], k)
    ensures FilterRowsSpec(s, j) == Success([f], k)
  {
    RowsOf(s, j, f, k, [], k);
    assert [f] + [] == [f];
  }

  /** A filter row at `j` ending at `b` and the further rows `fs`: the filter rows from `j`. */
  lemma {:induction false} RowsOf(s: string, j: nat, f: Filter, b: nat, fs: seq<Filter>, k: nat)
    requires FilterRowSpec(s, j) == Success(f, b) && MoreFilters(s, b) == (fs, k)
    ensures FilterRowsSpec(s, j) == Success([f] + fs, k)
  {
  }

  /** The word FILTER from `e1` to `e7`: the FILTER group is what the rows from `e7` read. */
  lemma FilterWordAt(s: string, e1: nat, e7: nat)
    requires e7 == e1 + 6 && e7 <= |s| && s[e1..e7] == "FILTER"
    ensures FilterGroupSpec(s, e1) == if FilterRowsSpec(s, e7).Success? then FilterRowsSpec(s, e7) else Failure(e1)
  {
  }

  /** Whitespace at `e` up to `e1`: the clause is what the FILTER group from `e1` reads. */
  lemma {:induction false} ClauseAfterSpace(s: string, e: nat, e1: nat)
    requires e < |s| && IsSpace(s[e]) && SkipSpace(s, e) == e1
    ensures FilterClauseSpec(s, e) == if FilterGroupSpec(s, e1).Success? then FilterGroupSpec(s, e1) else Failure(e)
  {
  }

  /** A FILTER clause with one row: whitespace at `e` up to the word FILTER at `e1`, and the row
      from `e7`, where the word ends. */
  lemma {:induction false} ClauseOne(s: string, e: nat, e1: nat, e7: nat, f: Filter, k: nat)
    requires e < |s| && IsSpace(s[e]) && SkipSpace(s, e) == e1
    requires e7 == e1 + 6 && e7 <= |s| && s[e1..e7] == "FILTER"
    requires FilterRowSpec(s, e7) == Success(f, k) && MoreFilters(s, k) == ([], k)
    ensures FilterClauseSpec(s, e) == Success([f], k)
  {
    RowsOne(s, e7, f, k);
    FilterWordAt(s, e1, e7);
    ClauseAfterSpace(s, e, e1);
  }

  /** A FILTER clause whose first row cannot be read: the clause fails and consumes nothing. */
  lemma {:induction false} ClauseFails(s: string, e: nat, e1: nat, e7: nat)
    requires e < |s| && IsSpace(s[e]) && SkipSpace(s, e) == e1
    requires e7 == e1 + 6 && e7 <= |s| && s[e1..e7] == "FILTER"
    requires FilterRowSpec(s, e7) == Failure(e7)
    ensures FilterClauseSpec(s, e) == Failure(e)
  {
    assert FilterRowsSpec(s, e7).Failure?;
    FilterWordAt(s, e1, e7);
    ClauseAfterSpace(s, e, e1);
  }

  /** The text ends after the selectors: no FILTER clause. */
  lemma NoClauseAtEnd(s: string, e: nat)
    requires e == |s|
    ensures FilterClauseSpec(s, e) == Failure(e)
  {
  }

  /** Whitespace after the selectors, followed by something other than whitespace and F: no
      FILTER clause. */
  lemma NoClauseAt(s: string, e: nat, e1: nat)
    requires e1 == e + 1 && e1 < |s| && IsSpace(s[e]) && !IsSpace(s[e1]) && s[e1] != 'F'
    ensures FilterClauseSpec(s, e) == Failure(e)
  {
    OneSpace(s, e, e1);
    assert FilterGroupSpec(s, e1) == Failure(e1) by {
      if e1 + 6 <= |s| {
        assert s[e1..e1 + 6][0] == s[e1];
      }
    }
  }

  /** No SELECT after the whitespace from `i`: no group, and so no union either. */
  lemma {:induction false} NoSelect(s: string, i: nat, a: nat, a6: nat)
    requires SkipSpace(s, i) == a && a6 == a + 6 && a6 <= |s| && s[a..a6] != "SELECT"
    ensures SfGroupSpec(s, i) == Failure(i) && UnionSpec(s, i) == Failure(i)
  {
  }

  /** SELECT with no selector row after it: no group, and so no union either. */
  lemma {:induction false} NoSelectors(s: string, i: nat, a: nat, a6: nat)
    requires SkipSpace(s, i) == a && a6 == a + 6 && a6 <= |s| && s[a..a6] == "SELECT"
    requires SelectorRowSpec(s, a6) == Failure(a6)
    ensures SfGroupSpec(s, i) == Failure(i) && UnionSpec(s, i) == Failure(i)
  {
  }

  // Unions and whole queries

  /** No RF clause: the first character after the leading whitespace is not R. */
  lemma {:induction false} NoReplFactor(s: string, a: nat)
    requires SkipSpace(s, 0) == a && a < |s| && s[a] != 'R'
    ensures ReplFactorSpec(s, 0) == Failure(0)
  {
  }

  /** RF at the start, one whitespace character, and the number `n` from 3 to `m`. */
  lemma {:induction false} ReplFactorAt(s: string, n: uint32, m: nat)
    requires 3 <= |s| && SkipSpace(s, 0) == 0 && s[0] == 'R' && s[1] == 'F' && IsSpace(s[2])
    requires SkipSpace(s, 2) == 3 && ParseNumber(s, 3) == Success(n, m)
    ensures ReplFactorSpec(s, 0) == Success(n, m)
  {
    NumberAtParse(s, 3);
  }

  /** RF at the start, one whitespace character, and no number at 3: no RF clause. */
  lemma {:induction false} ReplFactorWithoutNumber(s: string)
    requires 3 <= |s| && SkipSpace(s, 0) == 0 && s[0] == 'R' && s[1] == 'F' && IsSpace(s[2])
    requires SkipSpace(s, 2) == 3 && ParseNumber(s, 3).Failure?
    ensures ReplFactorSpec(s, 0) == Failure(0)
  {
  }

  /** No "; SELECT ..." part at the end of the text. */
  lemma {:induction false} MoreGroupsEnd(s: string, n: nat)
    requires n == |s|
    ensures NextGroup(s, n) == Failure(n) && MoreGroups(s, n) == ([], n)
  {
    assert SkipSpace(s, n) == n;
  }

  /** A "; SELECT ..." part at `e` ending at `k`, and after it the groups `rest`: the groups
      from `e`. */
  lemma {:induction false} MoreGroupsStep(s: string, e: nat, h: SFGroup, k: nat, rest: seq<SFGroup>, m: nat)
    requires NextGroup(s, e) == Success(h, k) && MoreGroups(s, k) == (rest, m)
    ensures MoreGroups(s, e) == ([h] + rest, m)
  {
  }

  /** A group at `i` ending at `e` and the groups `gs` of the parts after it, which end at `m`:
      the union reads all of them when `m` is the end of the text, and otherwise fails there. */
  lemma {:induction false} UnionOf(s: string, i: nat, g: SFGroup, e: nat, gs: seq<SFGroup>, m: nat)
    requires SfGroupSpec(s, i) == Success(g, e) && MoreGroups(s, e) == (gs, m)
    ensures UnionSpec(s, i) == if m < |s| then Failure(m) else Success([g] + gs, m)
  {
  }

  lemma UnionOne(s: string, i: nat, g: SFGroup, n: nat)
    requires n == |s| && SfGroupSpec(s, i) == Success(g, n)
    ensures UnionSpec(s, i) == Success([g], n)
  {
    MoreGroupsEnd(s, n);
    UnionOf(s, i, g, n, [], n);
    assert [g] + [] == [g];
  }

  /** The last "; SELECT ..." part, at `e`, reads to the end of the text. */
  lemma {:induction false} MoreGroupsLast(s: string, e: nat, h: SFGroup, n: nat)
    requires n == |s| && NextGroup(s, e) == Success(h, n)
    ensures MoreGroups(s, e) == ([h], n)
  {
    MoreGroupsEnd(s, n);
    MoreGroupsStep(s, e, h, n, [], n);
    assert [h] + [] == [h];
  }

  lemma UnionTwo(s: string, i: nat, g: SFGroup, e: nat, h: SFGroup, n: nat)
    requires n == |s| && SfGroupSpec(s, i) == Success(g, e) && NextGroup(s, e) == Success(h, n)
    ensures UnionSpec(s, i) == Success([g, h], n)
  {
    assert [g] + [h] == [g, h];
    MoreGroupsLast(s, e, h, n);
    UnionOf(s, i, g, e, [h], n);
  }

  /** A group ending at `e` before whitespace up to something other than a semicolon at `a`
      leaves input over, so the union fails there. */
  lemma {:induction false} UnionLeftover(s: string, i: nat, g: SFGroup, e: nat, a: nat)
    requires SfGroupSpec(s, i) == Success(g, e)
    requires SkipSpace(s, e) == a && a < |s| && s[a] != ';'
    ensures UnionSpec(s, i) == Failure(e)
  {
    assert NextGroup(s, e) == Failure(e);
    assert MoreGroups(s, e) == ([], e);
    UnionOf(s, i, g, e, [], e);
  }

  /** A query without an RF clause whose union reads to the end is accepted with the default
      replication factor. */
  lemma QueryWithDefault(s: string, gs: seq<SFGroup>, n: nat)
    requires n == |s| && ReplFactorSpec(s, 0) == Failure(0) && UnionSpec(s, 0) == Success(gs, n)
    ensures ParseQuery(s) == Parsed(PlacementRule(DefaultReplFactor, gs))
  {
    ParseQueryMeaning(s);
  }

  /** A query whose RF clause ends at `m` and whose union reads from there to the end is accepted
      with the factor of the clause. */
  lemma QueryWithFactor(s: string, rf: uint32, m: nat, gs: seq<SFGroup>, n: nat)
    requires n == |s| && ReplFactorSpec(s, 0) == Success(rf, m) && UnionSpec(s, m) == Success(gs, n)
    ensures ParseQuery(s) == Parsed(PlacementRule(rf, gs))
  {
    ParseQueryMeaning(s);
  }

  /** A query without an RF clause whose union fails is rejected. */
  lemma QueryRejected(s: string, k: nat)
    requires ReplFactorSpec(s, 0) == Failure(0) && UnionSpec(s, 0) == Failure(k)
    ensures ParseQuery(s) == SyntaxError("cant parse query")
  {
    ParseQueryMeaning(s);
  }

  // Pieces: a long query is written as the concatenation of shorter pieces

  /** What a later piece `v` holds from `a` to `b` stands from `j` to `e` in the text, `o` being
      the length of what precedes the piece. */
  lemma PieceAt(u: string, v: string, o: nat, a: nat, b: nat, j: nat, e: nat, w: string)
    requires o == |u| && a <= b <= |v| && j == o + a && e == o + b && v[a..b] == w
    ensures j <= e <= |u + v| && (u + v)[j..e] == w
  {
    assert (u + v)[j..e] == v[a..b];
  }

  lemma PieceChar(u: string, v: string, o: nat, a: nat, j: nat, c: char)
    requires o == |u| && a < |v| && j == o + a && v[a] == c
    ensures j < |u + v| && (u + v)[j] == c
  {
  }

  /** What the text so far holds from `j` to `e` it still holds with another piece after it. */
  lemma PrefixAt(u: string, v: string, j: nat, e: nat, w: string)
    requires j <= e <= |u| && u[j..e] == w
    ensures e <= |u + v| && (u + v)[j..e] == w
  {
    assert (u + v)[j..e] == u[j..e];
  }

  lemma PrefixChar(u: string, v: string, j: nat, c: char)
    requires j < |u| && u[j] == c
    ensures j < |u + v| && (u + v)[j] == c
  {
  }

  // SELECT 1 Country

  const SelectOneCountryQuery: string :=
    "SELECT 1 Country"

  predicate SelectOneCountryLayout(s: string) {
    && |s| == 16 && s[0..6] == "SELECT" && s[6] == ' ' && s[7..8] == "1" && s[8] == ' '
    && s[9..16] == "Country"
  }

  lemma SelectOneCountrySelector1(s: string)
    requires SelectOneCountryLayout(s)
    ensures SelectorRowSpec(s, 6) == Success(Select("Country", 1), 16)
  {
    NumberValues();
    assert s[7] == s[7..8][0];
    OneSpace(s, 6, 7);
    DigitsAt(s, 7, "1", 8);
    assert s[9] == s[9..16][0];
    OneSpace(s, 8, 9);
    NameAt(s, 9, "Country", 16);
    SelectorRowRead(s, 6, 7, 1, 8, 9, "Country", 16);
  }

  lemma SelectOneCountrySelectors(s: string)
    requires SelectOneCountryLayout(s)
    ensures SelectorsSpec(s, 6) == Success([Select("Country", 1)], 16)
  {
    SelectOneCountrySelector1(s);
    NoSelectorRowAtEnd(s, 16);
    SelectorsOne(s, 6, Select("Country", 1), 16);
  }

  lemma SelectOneCountryGroup(s: string)
    requires SelectOneCountryLayout(s)
    ensures SfGroupSpec(s, 0) == Success(SFGroup([Select("Country", 1)], []), 16)
  {
    assert s[0] == s[0..6][0];
    NoSpace(s, 0);
    SelectOneCountrySelectors(s);
    NoClauseAtEnd(s, 16);
    GroupWithoutFilters(s, 0, [Select("Country", 1)], 16);
  }

  lemma SelectOneCountryParse(s: string)
    requires SelectOneCountryLayout(s)
    ensures ParseQuery(s)
         == Parsed(PlacementRule(DefaultReplFactor, [SFGroup([Select("Country", 1)], [])]))
  {
    assert s[0] == s[0..6][0];
    NoSpace(s, 0);
    NoReplFactor(s, 0);
    SelectOneCountryGroup(s);
    UnionOne(s, 0, SFGroup([Select("Country", 1)], []), 16);
    QueryWithDefault(s, [SFGroup([Select("Country", 1)], [])], 16);
  }

  lemma SelectOneCountryText1()
    ensures var s := SelectOneCountryQuery; |s| == 16 && s[0..6] == "SELECT" && s[6] == ' '
  {
    var s := SelectOneCountryQuery;
    assert s[0] == 'S' && s[1] == 'E' && s[2] == 'L' && s[3] == 'E' && s[4] == 'C' && s[5] == 'T';
  }

  lemma SelectOneCountryText2()
    ensures var s := SelectOneCountryQuery; s[7..8] == "1" && s[8] == ' '
  {
    var s := SelectOneCountryQuery;
    assert s[7] == '1';
  }

  lemma SelectOneCountryText3()
    ensures var s := SelectOneCountryQuery; s[9..16] == "Country"
  {
    var s := SelectOneCountryQuery;
    assert s[9] == 'C' && s[10] == 'o' && s[11] == 'u' && s[12] == 'n' && s[13] == 't' && s[14] == 'r' && s[15] == 'y';
  }

  /** `SELECT 1 Country`: the default replication factor and one group that selects one Country
      and has no filters. */
  lemma SelectOneCountry()
    ensures ParseQuery(SelectOneCountryQuery) == Parsed(PlacementRule(DefaultReplFactor, [SFGroup([Select("Country", 1)], [])]))
  {
    SelectOneCountryText1();
    SelectOneCountryText2();
    SelectOneCountryText3();
    SelectOneCountryParse(SelectOneCountryQuery);
  }

  // RF 10 SELECT 1 Country

  const ReplFactorTenQuery: string :=
    "RF 10 SELECT 1"
    + " Country"

  predicate ReplFactorTenLayout(s: string) {
    && |s| == 22 && s[0..2] == "RF" && s[2] == ' ' && s[3..5] == "10" && s[5] == ' '
    && s[6..12] == "SELECT" && s[12] == ' ' && s[13..14] == "1" && s[14] == ' '
    && s[15..22] == "Country"
  }

  lemma ReplFactorTenFactor(s: string)
    requires ReplFactorTenLayout(s)
    ensures ReplFactorSpec(s, 0) == Success(10, 5)
  {
    assert s[0] == s[0..2][0] && s[1] == s[0..2][1];
    assert s[0] == s[0..2][0];
    NoSpace(s, 0);
    assert s[3] == s[3..5][0];
    OneSpace(s, 2, 3);
    NumberValues();
    DigitsAt(s, 3, "10", 5);
    ReplFactorAt(s, 10, 5);
  }

  lemma ReplFactorTenSelector1(s: string)
    requires ReplFactorTenLayout(s)
    ensures SelectorRowSpec(s, 12) == Success(Select("Country", 1), 22)
  {
    NumberValues();
    assert s[13] == s[13..14][0];
    OneSpace(s, 12, 13);
    DigitsAt(s, 13, "1", 14);
    assert s[15] == s[15..22][0];
    OneSpace(s, 14, 15);
    NameAt(s, 15, "Country", 22);
    SelectorRowRead(s, 12, 13, 1, 14, 15, "Country", 22);
  }

  lemma ReplFactorTenSelectors(s: string)
    requires ReplFactorTenLayout(s)
    ensures SelectorsSpec(s, 12) == Success([Select("Country", 1)], 22)
  {
    ReplFactorTenSelector1(s);
    NoSelectorRowAtEnd(s, 22);
    SelectorsOne(s, 12, Select("Country", 1), 22);
  }

  lemma ReplFactorTenGroup(s: string)
    requires ReplFactorTenLayout(s)
    ensures SfGroupSpec(s, 5) == Success(SFGroup([Select("Country", 1)], []), 22)
  {
    assert s[6] == s[6..12][0];
    OneSpace(s, 5, 6);
    ReplFactorTenSelectors(s);
    NoClauseAtEnd(s, 22);
    GroupWithoutFilters(s, 5, [Select("Country", 1)], 22);
  }

  lemma ReplFactorTenParse(s: string)
    requires ReplFactorTenLayout(s)
    ensures ParseQuery(s) == Parsed(PlacementRule(10, [SFGroup([Select("Country", 1)], [])]))
  {
    ReplFactorTenFactor(s);
    ReplFactorTenGroup(s);
    UnionOne(s, 5, SFGroup([Select("Country", 1)], []), 22);
    QueryWithFactor(s, 10, 5, [SFGroup([Select("Country", 1)], [])], 22);
  }

  lemma ReplFactorTenText1()
    ensures var s := ReplFactorTenQuery; |s| == 22 && s[0..2] == "RF" && s[2] == ' '
  {
    var p1 := "RF 10 SELECT 1";
    var p2 := " Country";
    assert p1[0] == 'R' && p1[1] == 'F';
    PrefixAt(p1, p2, 0, 2, "RF");
    PrefixChar(p1, p2, 2, ' ');
  }

  lemma ReplFactorTenText2()
    ensures var s := ReplFactorTenQuery; s[3..5] == "10" && s[5] == ' '
  {
    var p1 := "RF 10 SELECT 1";
    var p2 := " Country";
    assert p1[3] == '1' && p1[4] == '0';
    PrefixAt(p1, p2, 3, 5, "10");
    PrefixChar(p1, p2, 5, ' ');
  }

  lemma ReplFactorTenText3()
    ensures var s := ReplFactorTenQuery; s[6..12] == "SELECT" && s[12] == ' '
  {
    var p1 := "RF 10 SELECT 1";
    var p2 := " Country";
    assert p1[6] == 'S' && p1[7] == 'E' && p1[8] == 'L' && p1[9] == 'E' && p1[10] == 'C' && p1[11] == 'T';
    PrefixAt(p1, p2, 6, 12, "SELECT");
    PrefixChar(p1, p2, 12, ' ');
  }

  lemma ReplFactorTenText4()
    ensures var s := ReplFactorTenQuery; s[13..14] == "1" && s[14] == ' '
  {
    var p1 := "RF 10 SELECT 1";
    var p2 := " Country";
    assert p1[13] == '1';
    PrefixAt(p1, p2, 13, 14, "1");
    PieceChar(p1, p2, 14, 0, 14, ' ');
  }

  lemma ReplFactorTenText5()
    ensures var s := ReplFactorTenQuery; s[15..22] == "Country"
  {
    var p1 := "RF 10 SELECT 1";
    var p2 := " Country";
    assert p2[1] == 'C' && p2[2] == 'o' && p2[3] == 'u' && p2[4] == 'n' && p2[5] == 't' && p2[6] == 'r' && p2[7] == 'y';
    PieceAt(p1, p2, 14, 1, 8, 15, 22, "Country");
  }

  /** `RF 10 SELECT 1 Country`: replication factor 10 and the same group. */
  lemma ReplFactorTen()
    ensures ParseQuery(ReplFactorTenQuery) == Parsed(PlacementRule(10, [SFGroup([Select("Country", 1)], [])]))
  {
    ReplFactorTenText1();
    ReplFactorTenText2();
    ReplFactorTenText3();
    ReplFactorTenText4();
    ReplFactorTenText5();
    ReplFactorTenParse(ReplFactorTenQuery);
  }

  // SELECT 1 Country FILTER Country NE Russia

  const FilterNotRussiaQuery: string :=
    "SELECT 1 Country"
    + " FILTER Country"
    + " NE Russia"

  predicate FilterNotRussiaLayout(s: string) {
    && |s| == 41 && s[0..6] == "SELECT" && s[6] == ' ' && s[7..8] == "1" && s[8] == ' '
    && s[9..16] == "Country" && s[16] == ' ' && s[17..23] == "FILTER" && s[23] == ' '
    && s[24..31] == "Country" && s[31] == ' ' && s[32..34] == "NE" && s[34] == ' '
    && s[35..41] == "Russia"
  }

  lemma FilterNotRussiaSelector1(s: string)
    requires FilterNotRussiaLayout(s)
    ensures SelectorRowSpec(s, 6) == Success(Select("Country", 1), 16)
  {
    NumberValues();
    assert s[7] == s[7..8][0];
    OneSpace(s, 6, 7);
    DigitsAt(s, 7, "1", 8);
    assert s[9] == s[9..16][0];
    OneSpace(s, 8, 9);
    NameAt(s, 9, "Country", 16);
    SelectorRowRead(s, 6, 7, 1, 8, 9, "Country", 16);
  }

  lemma FilterNotRussiaSelectors(s: string)
    requires FilterNotRussiaLayout(s)
    ensures SelectorsSpec(s, 6) == Success([Select("Country", 1)], 16)
  {
    FilterNotRussiaSelector1(s);
    assert s[17] == s[17..23][0];
    NoSelectorRowAt(s, 16, 17);
    SelectorsOne(s, 6, Select("Country", 1), 16);
  }

  lemma FilterNotRussiaFilter(s: string)
    requires FilterNotRussiaLayout(s)
    ensures FilterRowSpec(s, 23) == Success(Filter("Country", NE, "Russia"), 41)
  {
    OperationWords();
    assert s[24] == s[24..31][0];
    OneSpace(s, 23, 24);
    NameAt(s, 24, "Country", 31);
    assert s[32] == s[32..34][0];
    OneSpace(s, 31, 32);
    OperatorAt(s, 32, "NE", NE, 34);
    assert s[35] == s[35..41][0];
    OneSpace(s, 34, 35);
    NameAt(s, 35, "Russia", 41);
    FilterRowRead(s, 23, 24, "Country", 31, 32, NE, 34, 35, "Russia", 41);
  }

  lemma FilterNotRussiaClause(s: string)
    requires FilterNotRussiaLayout(s)
    ensures FilterClauseSpec(s, 16) == Success([Filter("Country", NE, "Russia")], 41)
  {
    assert s[17] == s[17..23][0];
    OneSpace(s, 16, 17);
    FilterNotRussiaFilter(s);
    NoFilterRowAtEnd(s, 41);
    ClauseOne(s, 16, 17, 23, Filter("Country", NE, "Russia"), 41);
  }

  lemma FilterNotRussiaGroup(s: string)
    requires FilterNotRussiaLayout(s)
    ensures SfGroupSpec(s, 0)
         == Success(SFGroup([Select("Country", 1)], [Filter("Country", NE, "Russia")]), 41)
  {
    assert s[0] == s[0..6][0];
    NoSpace(s, 0);
    FilterNotRussiaSelectors(s);
    FilterNotRussiaClause(s);
    GroupWithFilters(s, 0, [Select("Country", 1)], 16, [Filter("Country", NE, "Russia")], 41);
  }

  lemma FilterNotRussiaParse(s: string)
    requires FilterNotRussiaLayout(s)
    ensures ParseQuery(s)
         == Parsed(PlacementRule(DefaultReplFactor, [SFGroup([Select("Country", 1)], [Filter("Country", NE, "Russia")])]))
  {
    assert s[0] == s[0..6][0];
    NoSpace(s, 0);
    NoReplFactor(s, 0);
    FilterNotRussiaGroup(s);
    UnionOne(s, 0, SFGroup([Select("Country", 1)], [Filter("Country", NE, "Russia")]), 41);
    QueryWithDefault(s, [SFGroup([Select("Country", 1)], [Filter("Country", NE, "Russia")])], 41);
  }

  lemma FilterNotRussiaText1()
    ensures var s := FilterNotRussiaQuery; |s| == 41 && s[0..6] == "SELECT" && s[6] == ' '
  {
    var p1 := "SELECT 1 Country";
    var p2 := " FILTER Country";
    var p3 := " NE Russia";
    assert p1[0] == 'S' && p1[1] == 'E' && p1[2] == 'L' && p1[3] == 'E' && p1[4] == 'C' && p1[5] == 'T';
    PrefixAt(p1, p2, 0, 6, "SELECT");
    PrefixAt(p1 + p2, p3, 0, 6, "SELECT");
    PrefixChar(p1, p2, 6, ' ');
    PrefixChar(p1 + p2, p3, 6, ' ');
  }

  lemma FilterNotRussiaText2()
    ensures var s := FilterNotRussiaQuery; s[7..8] == "1" && s[8] == ' '
  {
    var p1 := "SELECT 1 Country";
    var p2 := " FILTER Country";
    var p3 := " NE Russia";
    assert p1[7] == '1';
    PrefixAt(p1, p2, 7, 8, "1");
    PrefixAt(p1 + p2, p3, 7, 8, "1");
    PrefixChar(p1, p2, 8, ' ');
    PrefixChar(p1 + p2, p3, 8, ' ');
  }

  lemma FilterNotRussiaText3()
    ensures var s := FilterNotRussiaQuery; s[9..16] == "Country" && s[16] == ' '
  {
    var p1 := "SELECT 1 Country";
    var p2 := " FILTER Country";
    var p3 := " NE Russia";
    assert p1[9] == 'C' && p1[10] == 'o' && p1[11] == 'u' && p1[12] == 'n' && p1[13] == 't' && p1[14] == 'r' && p1[15] == 'y';
    PrefixAt(p1, p2, 9, 16, "Country");
    PrefixAt(p1 + p2, p3, 9, 16, "Country");
    PieceChar(p1, p2, 16, 0, 16, ' ');
    PrefixChar(p1 + p2, p3, 16, ' ');
  }

  lemma FilterNotRussiaText4()
    ensures var s := FilterNotRussiaQuery; s[17..23] == "FILTER" && s[23] == ' '
  {
    var p1 := "SELECT 1 Country";
    var p2 := " FILTER Country";
    var p3 := " NE Russia";
    assert p2[1] == 'F' && p2[2] == 'I' && p2[3] == 'L' && p2[4] == 'T' && p2[5] == 'E' && p2[6] == 'R';
    PieceAt(p1, p2, 16, 1, 7, 17, 23, "FILTER");
    PrefixAt(p1 + p2, p3, 17, 23, "FILTER");
    PieceChar(p1, p2, 16, 7, 23, ' ');
    PrefixChar(p1 + p2, p3, 23, ' ');
  }

  lemma FilterNotRussiaText5()
    ensures var s := FilterNotRussiaQuery; s[24..31] == "Country" && s[31] == ' '
  {
    var p1 := "SELECT 1 Country";
    var p2 := " FILTER Country";
    var p3 := " NE Russia";
    assert p2[8] == 'C' && p2[9] == 'o' && p2[10] == 'u' && p2[11] == 'n' && p2[12] == 't' && p2[13] == 'r' && p2[14] == 'y';
    PieceAt(p1, p2, 16, 8, 15, 24, 31, "Country");
    PrefixAt(p1 + p2, p3, 24, 31, "Country");
    PieceChar(p1 + p2, p3, 31, 0, 31, ' ');
  }

  lemma FilterNotRussiaText6()
    ensures var s := FilterNotRussiaQuery; s[32..34] == "NE" && s[34] == ' '
  {
    var p1 := "SELECT 1 Country";
    var p2 := " FILTER Country";
    var p3 := " NE Russia";
    assert p3[1] == 'N' && p3[2] == 'E';
    PieceAt(p1 + p2, p3, 31, 1, 3, 32, 34, "NE");
    PieceChar(p1 + p2, p3, 31, 3, 34, ' ');
  }

  lemma FilterNotRussiaText7()
    ensures var s := FilterNotRussiaQuery; s[35..41] == "Russia"
  {
    var p1 := "SELECT 1 Country";
    var p2 := " FILTER Country";
    var p3 := " NE Russia";
    assert p3[4] == 'R' && p3[5] == 'u' && p3[6] == 's' && p3[7] == 's' && p3[8] == 'i' && p3[9] == 'a';
    PieceAt(p1 + p2, p3, 31, 4, 10, 35, 41, "Russia");
  }

  /** `SELECT 1 Country FILTER Country NE Russia`: one group whose filter keeps the nodes whose
      Country is not Russia. */
  lemma FilterNotRussia()
    ensures ParseQuery(FilterNotRussiaQuery) == Parsed(PlacementRule(DefaultReplFactor, [SFGroup([Select("Country", 1)], [Filter("Country", NE, "Russia")])]))
  {
    FilterNotRussiaText1();
    FilterNotRussiaText2();
    FilterNotRussiaText3();
    FilterNotRussiaText4();
    FilterNotRussiaText5();
    FilterNotRussiaText6();
    FilterNotRussiaText7();
    FilterNotRussiaParse(FilterNotRussiaQuery);
  }

  // SELECT 11 Country FILTER Trust > 10

  const FilterTrustAboveQuery: string :=
    "SELECT 11"
    + " Country FILTER"
    + " Trust > 10"

  predicate FilterTrustAboveLayout(s: string) {
    && |s| == 35 && s[0..6] == "SELECT" && s[6] == ' ' && s[7..9] == "11" && s[9] == ' '
    && s[10..17] == "Country" && s[17] == ' ' && s[18..24] == "FILTER" && s[24] == ' '
    && s[25..30] == "Trust" && s[30] == ' ' && s[31..32] == ">" && s[32] == ' ' && s[33..35] == "10"
  }

  lemma FilterTrustAboveSelector1(s: string)
    requires FilterTrustAboveLayout(s)
    ensures SelectorRowSpec(s, 6) == Success(Select("Country", 11), 17)
  {
    NumberValues();
    assert s[7] == s[7..9][0];
    OneSpace(s, 6, 7);
    DigitsAt(s, 7, "11", 9);
    assert s[10] == s[10..17][0];
    OneSpace(s, 9, 10);
    NameAt(s, 10, "Country", 17);
    SelectorRowRead(s, 6, 7, 11, 9, 10, "Country", 17);
  }

  lemma FilterTrustAboveSelectors(s: string)
    requires FilterTrustAboveLayout(s)
    ensures SelectorsSpec(s, 6) == Success([Select("Country", 11)], 17)
  {
    FilterTrustAboveSelector1(s);
    assert s[18] == s[18..24][0];
    NoSelectorRowAt(s, 17, 18);
    SelectorsOne(s, 6, Select("Country", 11), 17);
  }

  lemma FilterTrustAboveFilter(s: string)
    requires FilterTrustAboveLayout(s)
    ensures FilterRowSpec(s, 24) == Success(Filter("Trust", GT, "10"), 35)
  {
    OperationWords();
    assert s[25] == s[25..30][0];
    OneSpace(s, 24, 25);
    NameAt(s, 25, "Trust", 30);
    assert s[31] == s[31..32][0];
    OneSpace(s, 30, 31);
    OperatorAt(s, 31, ">", GT, 32);
    assert s[33] == s[33..35][0];
    OneSpace(s, 32, 33);
    NameAt(s, 33, "10", 35);
    FilterRowRead(s, 24, 25, "Trust", 30, 31, GT, 32, 33, "10", 35);
  }

  lemma FilterTrustAboveClause(s: string)
    requires FilterTrustAboveLayout(s)
    ensures FilterClauseSpec(s, 17) == Success([Filter("Trust", GT, "10")], 35)
  {
    assert s[18] == s[18..24][0];
    OneSpace(s, 17, 18);
    FilterTrustAboveFilter(s);
    NoFilterRowAtEnd(s, 35);
    ClauseOne(s, 17, 18, 24, Filter("Trust", GT, "10"), 35);
  }

  lemma FilterTrustAboveGroup(s: string)
    requires FilterTrustAboveLayout(s)
    ensures SfGroupSpec(s, 0)
         == Success(SFGroup([Select("Country", 11)], [Filter("Trust", GT, "10")]), 35)
  {
    assert s[0] == s[0..6][0];
    NoSpace(s, 0);
    FilterTrustAboveSelectors(s);
    FilterTrustAboveClause(s);
    GroupWithFilters(s, 0, [Select("Country", 11)], 17, [Filter("Trust", GT, "10")], 35);
  }

  lemma FilterTrustAboveParse(s: string)
    requires FilterTrustAboveLayout(s)
    ensures ParseQuery(s)
         == Parsed(PlacementRule(DefaultReplFactor, [SFGroup([Select("Country", 11)], [Filter("Trust", GT, "10")])]))
  {
    assert s[0] == s[0..6][0];
    NoSpace(s, 0);
    NoReplFactor(s, 0);
    FilterTrustAboveGroup(s);
    UnionOne(s, 0, SFGroup([Select("Country", 11)], [Filter("Trust", GT, "10")]), 35);
    QueryWithDefault(s, [SFGroup([Select("Country", 11)], [Filter("Trust", GT, "10")])], 35);
  }

  lemma FilterTrustAboveText1()
    ensures var s := FilterTrustAboveQuery; |s| == 35 && s[0..6] == "SELECT" && s[6] == ' '
  {
    var p1 := "SELECT 11";
    var p2 := " Country FILTER";
    var p3 := " Trust > 10";
    assert p1[0] == 'S' && p1[1] == 'E' && p1[2] == 'L' && p1[3] == 'E' && p1[4] == 'C' && p1[5] == 'T';
    PrefixAt(p1, p2, 0, 6, "SELECT");
    PrefixAt(p1 + p2, p3, 0, 6, "SELECT");
    PrefixChar(p1, p2, 6, ' ');
    PrefixChar(p1 + p2, p3, 6, ' ');
  }

  lemma FilterTrustAboveText2()
    ensures var s := FilterTrustAboveQuery; s[7..9] == "11" && s[9] == ' '
  {
    var p1 := "SELECT 11";
    var p2 := " Country FILTER";
    var p3 := " Trust > 10";
    assert p1[7] == '1' && p1[8] == '1';
    PrefixAt(p1, p2, 7, 9, "11");
    PrefixAt(p1 + p2, p3, 7, 9, "11");
    PieceChar(p1, p2, 9, 0, 9, ' ');
    PrefixChar(p1 + p2, p3, 9, ' ');
  }

  lemma FilterTrustAboveText3()
    ensures var s := FilterTrustAboveQuery; s[10..17] == "Country" && s[17] == ' '
  {
    var p1 := "SELECT 11";
    var p2 := " Country FILTER";
    var p3 := " Trust > 10";
    assert p2[1] == 'C' && p2[2] == 'o' && p2[3] == 'u' && p2[4] == 'n' && p2[5] == 't' && p2[6] == 'r' && p2[7] == 'y';
    PieceAt(p1, p2, 9, 1, 8, 10, 17, "Country");
    PrefixAt(p1 + p2, p3, 10, 17, "Country");
    PieceChar(p1, p2, 9, 8, 17, ' ');
    PrefixChar(p1 + p2, p3, 17, ' ');
  }

  lemma FilterTrustAboveText4()
    ensures var s := FilterTrustAboveQuery; s[18..24] == "FILTER" && s[24] == ' '
  {
    var p1 := "SELECT 11";
    var p2 := " Country FILTER";
    var p3 := " Trust > 10";
    assert p2[9] == 'F' && p2[10] == 'I' && p2[11] == 'L' && p2[12] == 'T' && p2[13] == 'E' && p2[14] == 'R';
    PieceAt(p1, p2, 9, 9, 15, 18, 24, "FILTER");
    PrefixAt(p1 + p2, p3, 18, 24, "FILTER");
    PieceChar(p1 + p2, p3, 24, 0, 24, ' ');
  }

  lemma FilterTrustAboveText5()
    ensures var s := FilterTrustAboveQuery; s[25..30] == "Trust" && s[30] == ' '
  {
    var p1 := "SELECT 11";
    var p2 := " Country FILTER";
    var p3 := " Trust > 10";
    assert p3[1] == 'T' && p3[2] == 'r' && p3[3] == 'u' && p3[4] == 's' && p3[5] == 't';
    PieceAt(p1 + p2, p3, 24, 1, 6, 25, 30, "Trust");
    PieceChar(p1 + p2, p3, 24, 6, 30, ' ');
  }

  lemma FilterTrustAboveText6()
    ensures var s := FilterTrustAboveQuery; s[31..32] == ">" && s[32] == ' '
  {
    var p1 := "SELECT 11";
    var p2 := " Country FILTER";
    var p3 := " Trust > 10";
    assert p3[7] == '>';
    PieceAt(p1 + p2, p3, 24, 7, 8, 31, 32, ">");
    PieceChar(p1 + p2, p3, 24, 8, 32, ' ');
  }

  lemma FilterTrustAboveText7()
    ensures var s := FilterTrustAboveQuery; s[33..35] == "10"
  {
    var p1 := "SELECT 11";
    var p2 := " Country FILTER";
    var p3 := " Trust > 10";
    assert p3[9] == '1' && p3[10] == '0';
    PieceAt(p1 + p2, p3, 24, 9, 11, 33, 35, "10");
  }

  /** `SELECT 11 Country FILTER Trust > 10`: a count of two digits and an operation written as a
      symbol; the value 10 is kept as the text the query spells. */
  lemma FilterTrustAbove()
    ensures ParseQuery(FilterTrustAboveQuery) == Parsed(PlacementRule(DefaultReplFactor, [SFGroup([Select("Country", 11)], [Filter("Trust", GT, "10")])]))
  {
    FilterTrustAboveText1();
    FilterTrustAboveText2();
    FilterTrustAboveText3();
    FilterTrustAboveText4();
    FilterTrustAboveText5();
    FilterTrustAboveText6();
    FilterTrustAboveText7();
    FilterTrustAboveParse(FilterTrustAboveQuery);
  }

  // RF 4 SELECT 1 Country 2 City FILTER Location NE Europe

  const TwoSelectorsWithFactorQuery: string :=
    "RF 4 SELECT 1"
    + " Country 2 City"
    + " FILTER Location"
    + " NE Europe"

  predicate TwoSelectorsWithFactorLayout(s: string) {
    && |s| == 54 && s[0..2] == "RF" && s[2] == ' ' && s[3..4] == "4" && s[4] == ' '
    && s[5..11] == "SELECT" && s[11] == ' ' && s[12..13] == "1" && s[13] == ' '
    && s[14..21] == "Country" && s[21] == ' ' && s[22..23] == "2" && s[23] == ' '
    && s[24..28] == "City" && s[28] == ' ' && s[29..35] == "FILTER" && s[35] == ' '
    && s[36..44] == "Location" && s[44] == ' ' && s[45..47] == "NE" && s[47] == ' '
    && s[48..54] == "Europe"
  }

  lemma TwoSelectorsWithFactorFactor(s: string)
    requires TwoSelectorsWithFactorLayout(s)
    ensures ReplFactorSpec(s, 0) == Success(4, 4)
  {
    assert s[0] == s[0..2][0] && s[1] == s[0..2][1];
    assert s[0] == s[0..2][0];
    NoSpace(s, 0);
    assert s[3] == s[3..4][0];
    OneSpace(s, 2, 3);
    NumberValues();
    DigitsAt(s, 3, "4", 4);
    ReplFactorAt(s, 4, 4);
  }

  lemma TwoSelectorsWithFactorSelector1(s: string)
    requires TwoSelectorsWithFactorLayout(s)
    ensures SelectorRowSpec(s, 11) == Success(Select("Country", 1), 21)
  {
    NumberValues();
    assert s[12] == s[12..13][0];
    OneSpace(s, 11, 12);
    DigitsAt(s, 12, "1", 13);
    assert s[14] == s[14..21][0];
    OneSpace(s, 13, 14);
    NameAt(s, 14, "Country", 21);
    SelectorRowRead(s, 11, 12, 1, 13, 14, "Country", 21);
  }

  lemma TwoSelectorsWithFactorSelector2(s: string)
    requires TwoSelectorsWithFactorLayout(s)
    ensures SelectorRowSpec(s, 21) == Success(Select("City", 2), 28)
  {
    NumberValues();
    assert s[22] == s[22..23][0];
    OneSpace(s, 21, 22);
    DigitsAt(s, 22, "2", 23);
    assert s[24] == s[24..28][0];
    OneSpace(s, 23, 24);
    NameAt(s, 24, "City", 28);
    SelectorRowRead(s, 21, 22, 2, 23, 24, "City", 28);
  }

  lemma TwoSelectorsWithFactorSelectors(s: string)
    requires TwoSelectorsWithFactorLayout(s)
    ensures SelectorsSpec(s, 11) == Success([Select("Country", 1), Select("City", 2)], 28)
  {
    TwoSelectorsWithFactorSelector1(s);
    TwoSelectorsWithFactorSelector2(s);
    assert s[29] == s[29..35][0];
    NoSelectorRowAt(s, 28, 29);
    SelectorsTwo(s, 11, Select("Country", 1), 21, Select("City", 2), 28);
  }

  lemma TwoSelectorsWithFactorFilter(s: string)
    requires TwoSelectorsWithFactorLayout(s)
    ensures FilterRowSpec(s, 35) == Success(Filter("Location", NE, "Europe"), 54)
  {
    OperationWords();
    assert s[36] == s[36..44][0];
    OneSpace(s, 35, 36);
    NameAt(s, 36, "Location", 44);
    assert s[45] == s[45..47][0];
    OneSpace(s, 44, 45);
    OperatorAt(s, 45, "NE", NE, 47);
    assert s[48] == s[48..54][0];
    OneSpace(s, 47, 48);
    NameAt(s, 48, "Europe", 54);
    FilterRowRead(s, 35, 36, "Location", 44, 45, NE, 47, 48, "Europe", 54);
  }

  lemma TwoSelectorsWithFactorClause(s: string)
    requires TwoSelectorsWithFactorLayout(s)
    ensures FilterClauseSpec(s, 28) == Success([Filter("Location", NE, "Europe")], 54)
  {
    assert s[29] == s[29..35][0];
    OneSpace(s, 28, 29);
    TwoSelectorsWithFactorFilter(s);
    NoFilterRowAtEnd(s, 54);
    ClauseOne(s, 28, 29, 35, Filter("Location", NE, "Europe"), 54);
  }

  lemma TwoSelectorsWithFactorGroup(s: string)
    requires TwoSelectorsWithFactorLayout(s)
    ensures SfGroupSpec(s, 4)
         == Success(SFGroup([Select("Country", 1), Select("City", 2)], [Filter("Location", NE, "Europe")]), 54)
  {
    assert s[5] == s[5..11][0];
    OneSpace(s, 4, 5);
    TwoSelectorsWithFactorSelectors(s);
    TwoSelectorsWithFactorClause(s);
    GroupWithFilters(s, 4, [Select("Country", 1), Select("City", 2)], 28, [Filter("Location", NE, "Europe")], 54);
  }

  lemma TwoSelectorsWithFactorParse(s: string)
    requires TwoSelectorsWithFactorLayout(s)
    ensures ParseQuery(s)
         == Parsed(PlacementRule(4, [SFGroup([Select("Country", 1), Select("City", 2)], [Filter("Location", NE, "Europe")])]))
  {
    TwoSelectorsWithFactorFactor(s);
    TwoSelectorsWithFactorGroup(s);
    UnionOne(s, 4, SFGroup([Select("Country", 1), Select("City", 2)], [Filter("Location", NE, "Europe")]), 54);
    QueryWithFactor(s, 4, 4, [SFGroup([Select("Country", 1), Select("City", 2)], [Filter("Location", NE, "Europe")])], 54);
  }

  lemma TwoSelectorsWithFactorText1()
    ensures var s := TwoSelectorsWithFactorQuery; |s| == 54 && s[0..2] == "RF" && s[2] == ' '
  {
    var p1 := "RF 4 SELECT 1";
    var p2 := " Country 2 City";
    var p3 := " FILTER Location";
    var p4 := " NE Europe";
    assert p1[0] == 'R' && p1[1] == 'F';
    PrefixAt(p1, p2, 0, 2, "RF");
    PrefixAt(p1 + p2, p3, 0, 2, "RF");
    PrefixAt(p1 + p2 + p3, p4, 0, 2, "RF");
    PrefixChar(p1, p2, 2, ' ');
    PrefixChar(p1 + p2, p3, 2, ' ');
    PrefixChar(p1 + p2 + p3, p4, 2, ' ');
  }

  lemma TwoSelectorsWithFactorText2()
    ensures var s := TwoSelectorsWithFactorQuery; s[3..4] == "4" && s[4] == ' '
  {
    var p1 := "RF 4 SELECT 1";
    var p2 := " Country 2 City";
    var p3 := " FILTER Location";
    var p4 := " NE Europe";
    assert p1[3] == '4';
    PrefixAt(p1, p2, 3, 4, "4");
    PrefixAt(p1 + p2, p3, 3, 4, "4");
    PrefixAt(p1 + p2 + p3, p4, 3, 4, "4");
    PrefixChar(p1, p2, 4, ' ');
    PrefixChar(p1 + p2, p3, 4, ' ');
    PrefixChar(p1 + p2 + p3, p4, 4, ' ');
  }

  lemma TwoSelectorsWithFactorText3()
    ensures var s := TwoSelectorsWithFactorQuery; s[5..11] == "SELECT" && s[11] == ' '
  {
    var p1 := "RF 4 SELECT 1";
    var p2 := " Country 2 City";
    var p3 := " FILTER Location";
    var p4 := " NE Europe";
    assert p1[5] == 'S' && p1[6] == 'E' && p1[7] == 'L' && p1[8] == 'E' && p1[9] == 'C' && p1[10] == 'T';
    PrefixAt(p1, p2, 5, 11, "SELECT");
    PrefixAt(p1 + p2, p3, 5, 11, "SELECT");
    PrefixAt(p1 + p2 + p3, p4, 5, 11, "SELECT");
    PrefixChar(p1, p2, 11, ' ');
    PrefixChar(p1 + p2, p3, 11, ' ');
    PrefixChar(p1 + p2 + p3, p4, 11, ' ');
  }

  lemma TwoSelectorsWithFactorText4()
    ensures var s := TwoSelectorsWithFactorQuery; s[12..13] == "1" && s[13] == ' '
  {
    var p1 := "RF 4 SELECT 1";
    var p2 := " Country 2 City";
    var p3 := " FILTER Location";
    var p4 := " NE Europe";
    assert p1[12] == '1';
    PrefixAt(p1, p2, 12, 13, "1");
    PrefixAt(p1 + p2, p3, 12, 13, "1");
    PrefixAt(p1 + p2 + p3, p4, 12, 13, "1");
    PieceChar(p1, p2, 13, 0, 13, ' ');
    PrefixChar(p1 + p2, p3, 13, ' ');
    PrefixChar(p1 + p2 + p3, p4, 13, ' ');
  }

  lemma TwoSelectorsWithFactorText5()
    ensures var s := TwoSelectorsWithFactorQuery; s[14..21] == "Country" && s[21] == ' '
  {
    var p1 := "RF 4 SELECT 1";
    var p2 := " Country 2 City";
    var p3 := " FILTER Location";
    var p4 := " NE Europe";
    assert p2[1] == 'C' && p2[2] == 'o' && p2[3] == 'u' && p2[4] == 'n' && p2[5] == 't' && p2[6] == 'r' && p2[7] == 'y';
    PieceAt(p1, p2, 13, 1, 8, 14, 21, "Country");
    PrefixAt(p1 + p2, p3, 14, 21, "Country");
    PrefixAt(p1 + p2 + p3, p4, 14, 21, "Country");
    PieceChar(p1, p2, 13, 8, 21, ' ');
    PrefixChar(p1 + p2, p3, 21, ' ');
    PrefixChar(p1 + p2 + p3, p4, 21, ' ');
  }

  lemma TwoSelectorsWithFactorText6()
    ensures var s := TwoSelectorsWithFactorQuery; s[22..23] == "2" && s[23] == ' '
  {
    var p1 := "RF 4 SELECT 1";
    var p2 := " Country 2 City";
    var p3 := " FILTER Location";
    var p4 := " NE Europe";
    assert p2[9] == '2';
    PieceAt(p1, p2, 13, 9, 10, 22, 23, "2");
    PrefixAt(p1 + p2, p3, 22, 23, "2");
    PrefixAt(p1 + p2 + p3, p4, 22, 23, "2");
    PieceChar(p1, p2, 13, 10, 23, ' ');
    PrefixChar(p1 + p2, p3, 23, ' ');
    PrefixChar(p1 + p2 + p3, p4, 23, ' ');
  }

  lemma TwoSelectorsWithFactorText7()
    ensures var s := TwoSelectorsWithFactorQuery; s[24..28] == "City" && s[28] == ' '
  {
    var p1 := "RF 4 SELECT 1";
    var p2 := " Country 2 City";
    var p3 := " FILTER Location";
    var p4 := " NE Europe";
    assert p2[11] == 'C' && p2[12] == 'i' && p2[13] == 't' && p2[14] == 'y';
    PieceAt(p1, p2, 13, 11, 15, 24, 28, "City");
    PrefixAt(p1 + p2, p3, 24, 28, "City");
    PrefixAt(p1 + p2 + p3, p4, 24, 28, "City");
    PieceChar(p1 + p2, p3, 28, 0, 28, ' ');
    PrefixChar(p1 + p2 + p3, p4, 28, ' ');
  }

  lemma TwoSelectorsWithFactorText8()
    ensures var s := TwoSelectorsWithFactorQuery; s[29..35] == "FILTER" && s[35] == ' '
  {
    var p1 := "RF 4 SELECT 1";
    var p2 := " Country 2 City";
    var p3 := " FILTER Location";
    var p4 := " NE Europe";
    assert p3[1] == 'F' && p3[2] == 'I' && p3[3] == 'L' && p3[4] == 'T' && p3[5] == 'E' && p3[6] == 'R';
    PieceAt(p1 + p2, p3, 28, 1, 7, 29, 35, "FILTER");
    PrefixAt(p1 + p2 + p3, p4, 29, 35, "FILTER");
    PieceChar(p1 + p2, p3, 28, 7, 35, ' ');
    PrefixChar(p1 + p2 + p3, p4, 35, ' ');
  }

  lemma TwoSelectorsWithFactorText9()
    ensures var s := TwoSelectorsWithFactorQuery; s[36..44] == "Location" && s[44] == ' '
  {
    var p1 := "RF 4 SELECT 1";
    var p2 := " Country 2 City";
    var p3 := " FILTER Location";
    var p4 := " NE Europe";
    assert p3[8] == 'L' && p3[9] == 'o' && p3[10] == 'c' && p3[11] == 'a' && p3[12] == 't' && p3[13] == 'i' && p3[14] == 'o' && p3[15] == 'n';
    PieceAt(p1 + p2, p3, 28, 8, 16, 36, 44, "Location");
    PrefixAt(p1 + p2 + p3, p4, 36, 44, "Location");
    PieceChar(p1 + p2 + p3, p4, 44, 0, 44, ' ');
  }

  lemma TwoSelectorsWithFactorText10()
    ensures var s := TwoSelectorsWithFactorQuery; s[45..47] == "NE" && s[47] == ' '
  {
    var p1 := "RF 4 SELECT 1";
    var p2 := " Country 2 City";
    var p3 := " FILTER Location";
    var p4 := " NE Europe";
    assert p4[1] == 'N' && p4[2] == 'E';
    PieceAt(p1 + p2 + p3, p4, 44, 1, 3, 45, 47, "NE");
    PieceChar(p1 + p2 + p3, p4, 44, 3, 47, ' ');
  }

  lemma TwoSelectorsWithFactorText11()
    ensures var s := TwoSelectorsWithFactorQuery; s[48..54] == "Europe"
  {
    var p1 := "RF 4 SELECT 1";
    var p2 := " Country 2 City";
    var p3 := " FILTER Location";
    var p4 := " NE Europe";
    assert p4[4] == 'E' && p4[5] == 'u' && p4[6] == 'r' && p4[7] == 'o' && p4[8] == 'p' && p4[9] == 'e';
    PieceAt(p1 + p2 + p3, p4, 44, 4, 10, 48, 54, "Europe");
  }

  /** `RF 4 SELECT 1 Country 2 City FILTER Location NE Europe`: replication factor 4 and one group
      with two selectors, in the order written, and one filter. */
  lemma TwoSelectorsWithFactor()
    ensures ParseQuery(TwoSelectorsWithFactorQuery) == Parsed(PlacementRule(4, [SFGroup([Select("Country", 1), Select("City", 2)], [Filter("Location", NE, "Europe")])]))
  {
    TwoSelectorsWithFactorText1();
    TwoSelectorsWithFactorText2();
    TwoSelectorsWithFactorText3();
    TwoSelectorsWithFactorText4();
    TwoSelectorsWithFactorText5();
    TwoSelectorsWithFactorText6();
    TwoSelectorsWithFactorText7();
    TwoSelectorsWithFactorText8();
    TwoSelectorsWithFactorText9();
    TwoSelectorsWithFactorText10();
    TwoSelectorsWithFactorText11();
    TwoSelectorsWithFactorParse(TwoSelectorsWithFactorQuery);
  }

  // SELECT 1 Country 2 City FILTER Location NE Europe ; SELECT 1 Country FILTER Country EQ Germany

  const TwoGroupsQuery: string :=
    "\nSELECT 1"
    + " Country 2 City"
    + "\nFILTER Location"
    + " NE Europe\n;"
    + "\nSELECT 1"
    + " Country\nFILTER"
    + " Country EQ"
    + " Germany"

  predicate TwoGroupsLayout(s: string) {
    && |s| == 95 && s[0] == '\n' && s[1..7] == "SELECT" && s[7] == ' ' && s[8..9] == "1"
    && s[9] == ' ' && s[10..17] == "Country" && s[17] == ' ' && s[18..19] == "2" && s[19] == ' '
    && s[20..24] == "City" && s[24] == '\n' && s[25..31] == "FILTER" && s[31] == ' '
    && s[32..40] == "Location" && s[40] == ' ' && s[41..43] == "NE" && s[43] == ' '
    && s[44..50] == "Europe" && s[50] == '\n' && s[51] == ';' && s[52] == '\n'
    && s[53..59] == "SELECT" && s[59] == ' ' && s[60..61] == "1" && s[61] == ' '
    && s[62..69] == "Country" && s[69] == '\n' && s[70..76] == "FILTER" && s[76] == ' '
    && s[77..84] == "Country" && s[84] == ' ' && s[85..87] == "EQ" && s[87] == ' '
    && s[88..95] == "Germany"
  }

  lemma TwoGroupsFirstSelector1(s: string)
    requires TwoGroupsLayout(s)
    ensures SelectorRowSpec(s, 7) == Success(Select("Country", 1), 17)
  {
    NumberValues();
    assert s[8] == s[8..9][0];
    OneSpace(s, 7, 8);
    DigitsAt(s, 8, "1", 9);
    assert s[10] == s[10..17][0];
    OneSpace(s, 9, 10);
    NameAt(s, 10, "Country", 17);
    SelectorRowRead(s, 7, 8, 1, 9, 10, "Country", 17);
  }

  lemma TwoGroupsFirstSelector2(s: string)
    requires TwoGroupsLayout(s)
    ensures SelectorRowSpec(s, 17) == Success(Select("City", 2), 24)
  {
    NumberValues();
    assert s[18] == s[18..19][0];
    OneSpace(s, 17, 18);
    DigitsAt(s, 18, "2", 19);
    assert s[20] == s[20..24][0];
    OneSpace(s, 19, 20);
    NameAt(s, 20, "City", 24);
    SelectorRowRead(s, 17, 18, 2, 19, 20, "City", 24);
  }

  lemma TwoGroupsFirstSelectors(s: string)
    requires TwoGroupsLayout(s)
    ensures SelectorsSpec(s, 7) == Success([Select("Country", 1), Select("City", 2)], 24)
  {
    TwoGroupsFirstSelector1(s);
    TwoGroupsFirstSelector2(s);
    assert s[25] == s[25..31][0];
    NoSelectorRowAt(s, 24, 25);
    SelectorsTwo(s, 7, Select("Country", 1), 17, Select("City", 2), 24);
  }

  lemma TwoGroupsFirstFilter(s: string)
    requires TwoGroupsLayout(s)
    ensures FilterRowSpec(s, 31) == Success(Filter("Location", NE, "Europe"), 50)
  {
    OperationWords();
    assert s[32] == s[32..40][0];
    OneSpace(s, 31, 32);
    NameAt(s, 32, "Location", 40);
    assert s[41] == s[41..43][0];
    OneSpace(s, 40, 41);
    OperatorAt(s, 41, "NE", NE, 43);
    assert s[44] == s[44..50][0];
    OneSpace(s, 43, 44);
    NameAt(s, 44, "Europe", 50);
    FilterRowRead(s, 31, 32, "Location", 40, 41, NE, 43, 44, "Europe", 50);
  }

  lemma TwoGroupsFirstClause(s: string)
    requires TwoGroupsLayout(s)
    ensures FilterClauseSpec(s, 24) == Success([Filter("Location", NE, "Europe")], 50)
  {
    assert s[25] == s[25..31][0];
    OneSpace(s, 24, 25);
    TwoGroupsFirstFilter(s);
    NoFilterRowAt(s, 50, 51);
    ClauseOne(s, 24, 25, 31, Filter("Location", NE, "Europe"), 50);
  }

  lemma TwoGroupsFirstGroup(s: string)
    requires TwoGroupsLayout(s)
    ensures SfGroupSpec(s, 0)
         == Success(SFGroup([Select("Country", 1), Select("City", 2)], [Filter("Location", NE, "Europe")]), 50)
  {
    assert s[1] == s[1..7][0];
    OneSpace(s, 0, 1);
    TwoGroupsFirstSelectors(s);
    TwoGroupsFirstClause(s);
    GroupWithFilters(s, 0, [Select("Country", 1), Select("City", 2)], 24, [Filter("Location", NE, "Europe")], 50);
  }

  lemma TwoGroupsSecondSelector1(s: string)
    requires TwoGroupsLayout(s)
    ensures SelectorRowSpec(s, 59) == Success(Select("Country", 1), 69)
  {
    NumberValues();
    assert s[60] == s[60..61][0];
    OneSpace(s, 59, 60);
    DigitsAt(s, 60, "1", 61);
    assert s[62] == s[62..69][0];
    OneSpace(s, 61, 62);
    NameAt(s, 62, "Country", 69);
    SelectorRowRead(s, 59, 60, 1, 61, 62, "Country", 69);
  }

  lemma TwoGroupsSecondSelectors(s: string)
    requires TwoGroupsLayout(s)
    ensures SelectorsSpec(s, 59) == Success([Select("Country", 1)], 69)
  {
    TwoGroupsSecondSelector1(s);
    assert s[70] == s[70..76][0];
    NoSelectorRowAt(s, 69, 70);
    SelectorsOne(s, 59, Select("Country", 1), 69);
  }

  lemma TwoGroupsSecondFilter(s: string)
    requires TwoGroupsLayout(s)
    ensures FilterRowSpec(s, 76) == Success(Filter("Country", EQ, "Germany"), 95)
  {
    OperationWords();
    assert s[77] == s[77..84][0];
    OneSpace(s, 76, 77);
    NameAt(s, 77, "Country", 84);
    assert s[85] == s[85..87][0];
    OneSpace(s, 84, 85);
    OperatorAt(s, 85, "EQ", EQ, 87);
    assert s[88] == s[88..95][0];
    OneSpace(s, 87, 88);
    NameAt(s, 88, "Germany", 95);
    FilterRowRead(s, 76, 77, "Country", 84, 85, EQ, 87, 88, "Germany", 95);
  }

  lemma TwoGroupsSecondClause(s: string)
    requires TwoGroupsLayout(s)
    ensures FilterClauseSpec(s, 69) == Success([Filter("Country", EQ, "Germany")], 95)
  {
    assert s[70] == s[70..76][0];
    OneSpace(s, 69, 70);
    TwoGroupsSecondFilter(s);
    NoFilterRowAtEnd(s, 95);
    ClauseOne(s, 69, 70, 76, Filter("Country", EQ, "Germany"), 95);
  }

  lemma TwoGroupsSecondGroup(s: string)
    requires TwoGroupsLayout(s)
    ensures SfGroupSpec(s, 53)
         == Success(SFGroup([Select("Country", 1)], [Filter("Country", EQ, "Germany")]), 95)
  {
    assert s[53] == s[53..59][0];
    NoSpace(s, 53);
    TwoGroupsSecondSelectors(s);
    TwoGroupsSecondClause(s);
    GroupWithFilters(s, 53, [Select("Country", 1)], 69, [Filter("Country", EQ, "Germany")], 95);
  }

  lemma TwoGroupsNext(s: string)
    requires TwoGroupsLayout(s)
    ensures NextGroup(s, 50)
         == Success(SFGroup([Select("Country", 1)], [Filter("Country", EQ, "Germany")]), 95)
  {
    assert IsSpace(s[50]) && s[51] == ';' && IsSpace(s[52]);
    assert s[53] == s[53..59][0] && !IsSpace(s[53]);
    TwoGroupsSecondGroup(s);
    SemicolonBetweenSpaces(s, 50, SFGroup([Select("Country", 1)], [Filter("Country", EQ, "Germany")]), 95);
  }

  lemma TwoGroupsParse(s: string)
    requires TwoGroupsLayout(s)
    ensures ParseQuery(s)
         == Parsed(PlacementRule(DefaultReplFactor, [SFGroup([Select("Country", 1), Select("City", 2)], [Filter("Location", NE, "Europe")]), SFGroup([Select("Country", 1)], [Filter("Country", EQ, "Germany")])]))
  {
    assert s[1] == s[1..7][0];
    OneSpace(s, 0, 1);
    NoReplFactor(s, 1);
    TwoGroupsFirstGroup(s);
    TwoGroupsNext(s);
    UnionTwo(s, 0, SFGroup([Select("Country", 1), Select("City", 2)], [Filter("Location", NE, "Europe")]), 50, SFGroup([Select("Country", 1)], [Filter("Country", EQ, "Germany")]), 95);
    QueryWithDefault(s, [SFGroup([Select("Country", 1), Select("City", 2)], [Filter("Location", NE, "Europe")]), SFGroup([Select("Country", 1)], [Filter("Country", EQ, "Germany")])], 95);
  }

  lemma TwoGroupsText1()
    ensures var s := TwoGroupsQuery; |s| == 95 && s[0] == '\n' && s[1..7] == "SELECT" && s[7] == ' '
  {
    var p1 := "\nSELECT 1";
    var p2 := " Country 2 City";
    var p3 := "\nFILTER Location";
    var p4 := " NE Europe\n;";
    var p5 := "\nSELECT 1";
    var p6 := " Country\nFILTER";
    var p7 := " Country EQ";
    var p8 := " Germany";
    PrefixChar(p1, p2, 0, '\n');
    PrefixChar(p1 + p2, p3, 0, '\n');
    PrefixChar(p1 + p2 + p3, p4, 0, '\n');
    PrefixChar(p1 + p2 + p3 + p4, p5, 0, '\n');
    PrefixChar(p1 + p2 + p3 + p4 + p5, p6, 0, '\n');
    PrefixChar(p1 + p2 + p3 + p4 + p5 + p6, p7, 0, '\n');
    PrefixChar(p1 + p2 + p3 + p4 + p5 + p6 + p7, p8, 0, '\n');
    assert p1[1] == 'S' && p1[2] == 'E' && p1[3] == 'L' && p1[4] == 'E' && p1[5] == 'C' && p1[6] == 'T';
    PrefixAt(p1, p2, 1, 7, "SELECT");
    PrefixAt(p1 + p2, p3, 1, 7, "SELECT");
    PrefixAt(p1 + p2 + p3, p4, 1, 7, "SELECT");
    PrefixAt(p1 + p2 + p3 + p4, p5, 1, 7, "SELECT");
    PrefixAt(p1 + p2 + p3 + p4 + p5, p6, 1, 7, "SELECT");
    PrefixAt(p1 + p2 + p3 + p4 + p5 + p6, p7, 1, 7, "SELECT");
    PrefixAt(p1 + p2 + p3 + p4 + p5 + p6 + p7, p8, 1, 7, "SELECT");
    PrefixChar(p1, p2, 7, ' ');
    PrefixChar(p1 + p2, p3, 7, ' ');
    PrefixChar(p1 + p2 + p3, p4, 7, ' ');
    PrefixChar(p1 + p2 + p3 + p4, p5, 7, ' ');
    PrefixChar(p1 + p2 + p3 + p4 + p5, p6, 7, ' ');
    PrefixChar(p1 + p2 + p3 + p4 + p5 + p6, p7, 7, ' ');
    PrefixChar(p1 + p2 + p3 + p4 + p5 + p6 + p7, p8, 7, ' ');
  }

  lemma TwoGroupsText2()
    ensures var s := TwoGroupsQuery; s[8..9] == "1" && s[9] == ' '
  {
    var p1 := "\nSELECT 1";
    var p2 := " Country 2 City";
    var p3 := "\nFILTER Location";
    var p4 := " NE Europe\n;";
    var p5 := "\nSELECT 1";
    var p6 := " Country\nFILTER";
    var p7 := " Country EQ";
    var p8 := " Germany";
    assert p1[8] == '1';
    PrefixAt(p1, p2, 8, 9, "1");
    PrefixAt(p1 + p2, p3, 8, 9, "1");
    PrefixAt(p1 + p2 + p3, p4, 8, 9, "1");
    PrefixAt(p1 + p2 + p3 + p4, p5, 8, 9, "1");
    PrefixAt(p1 + p2 + p3 + p4 + p5, p6, 8, 9, "1");
    PrefixAt(p1 + p2 + p3 + p4 + p5 + p6, p7, 8, 9, "1");
    PrefixAt(p1 + p2 + p3 + p4 + p5 + p6 + p7, p8, 8, 9, "1");
    PieceChar(p1, p2, 9, 0, 9, ' ');
    PrefixChar(p1 + p2, p3, 9, ' ');
    PrefixChar(p1 + p2 + p3, p4, 9, ' ');
    PrefixChar(p1 + p2 + p3 + p4, p5, 9, ' ');
    PrefixChar(p1 + p2 + p3 + p4 + p5, p6, 9, ' ');
    PrefixChar(p1 + p2 + p3 + p4 + p5 + p6, p7, 9, ' ');
    PrefixChar(p1 + p2 + p3 + p4 + p5 + p6 + p7, p8, 9, ' ');
  }

  lemma TwoGroupsText3()
    ensures var s := TwoGroupsQuery; s[10..17] == "Country" && s[17] == ' '
  {
    var p1 := "\nSELECT 1";
    var p2 := " Country 2 City";
    var p3 := "\nFILTER Location";
    var p4 := " NE Europe\n;";
    var p5 := "\nSELECT 1";
    var p6 := " Country\nFILTER";
    var p7 := " Country EQ";
    var p8 := " Germany";
    assert p2[1] == 'C' && p2[2] == 'o' && p2[3] == 'u' && p2[4] == 'n' && p2[5] == 't' && p2[6] == 'r' && p2[7] == 'y';
    PieceAt(p1, p2, 9, 1, 8, 10, 17, "Country");
    PrefixAt(p1 + p2, p3, 10, 17, "Country");
    PrefixAt(p1 + p2 + p3, p4, 10, 17, "Country");
    PrefixAt(p1 + p2 + p3 + p4, p5, 10, 17, "Country");
    PrefixAt(p1 + p2 + p3 + p4 + p5, p6, 10, 17, "Country");
    PrefixAt(p1 + p2 + p3 + p4 + p5 + p6, p7, 10, 17, "Country");
    PrefixAt(p1 + p2 + p3 + p4 + p5 + p6 + p7, p8, 10, 17, "Country");
    PieceChar(p1, p2, 9, 8, 17, ' ');
    PrefixChar(p1 + p2, p3, 17, ' ');
    PrefixChar(p1 + p2 + p3, p4, 17, ' ');
    PrefixChar(p1 + p2 + p3 + p4, p5, 17, ' ');
    PrefixChar(p1 + p2 + p3 + p4 + p5, p6, 17, ' ');
    PrefixChar(p1 + p2 + p3 + p4 + p5 + p6, p7, 17, ' ');
    PrefixChar(p1 + p2 + p3 + p4 + p5 + p6 + p7, p8, 17, ' ');
  }

  lemma TwoGroupsText4()
    ensures var s := TwoGroupsQuery; s[18..19] == "2" && s[19] == ' '
  {
    var p1 := "\nSELECT 1";
    var p2 := " Country 2 City";
    var p3 := "\nFILTER Location";
    var p4 := " NE Europe\n;";
    var p5 := "\nSELECT 1";
    var p6 := " Country\nFILTER";
    var p7 := " Country EQ";
    var p8 := " Germany";
    assert p2[9] == '2';
    PieceAt(p1, p2, 9, 9, 10, 18, 19, "2");
    PrefixAt(p1 + p2, p3, 18, 19, "2");
    PrefixAt(p1 + p2 + p3, p4, 18, 19, "2");
    PrefixAt(p1 + p2 + p3 + p4, p5, 18, 19, "2");
    PrefixAt(p1 + p2 + p3 + p4 + p5, p6, 18, 19, "2");
    PrefixAt(p1 + p2 + p3 + p4 + p5 + p6, p7, 18, 19, "2");
    PrefixAt(p1 + p2 + p3 + p4 + p5 + p6 + p7, p8, 18, 19, "2");
    PieceChar(p1, p2, 9, 10, 19, ' ');
    PrefixChar(p1 + p2, p3, 19, ' ');
    PrefixChar(p1 + p2 + p3, p4, 19, ' ');
    PrefixChar(p1 + p2 + p3 + p4, p5, 19, ' ');
    PrefixChar(p1 + p2 + p3 + p4 + p5, p6, 19, ' ');
    PrefixChar(p1 + p2 + p3 + p4 + p5 + p6, p7, 19, ' ');
    PrefixChar(p1 + p2 + p3 + p4 + p5 + p6 + p7, p8, 19, ' ');
  }

  lemma TwoGroupsText5()
    ensures var s := TwoGroupsQuery; s[20..24] == "City" && s[24] == '\n'
  {
    var p1 := "\nSELECT 1";
    var p2 := " Country 2 City";
    var p3 := "\nFILTER Location";
    var p4 := " NE Europe\n;";
    var p5 := "\nSELECT 1";
    var p6 := " Country\nFILTER";
    var p7 := " Country EQ";
    var p8 := " Germany";
    assert p2[11] == 'C' && p2[12] == 'i' && p2[13] == 't' && p2[14] == 'y';
    PieceAt(p1, p2, 9, 11, 15, 20, 24, "City");
    PrefixAt(p1 + p2, p3, 20, 24, "City");
    PrefixAt(p1 + p2 + p3, p4, 20, 24, "City");
    PrefixAt(p1 + p2 + p3 + p4, p5, 20, 24, "City");
    PrefixAt(p1 + p2 + p3 + p4 + p5, p6, 20, 24, "City");
    PrefixAt(p1 + p2 + p3 + p4 + p5 + p6, p7, 20, 24, "City");
    PrefixAt(p1 + p2 + p3 + p4 + p5 + p6 + p7, p8, 20, 24, "City");
    PieceChar(p1 + p2, p3, 24, 0, 24, '\n');
    PrefixChar(p1 + p2 + p3, p4, 24, '\n');
    PrefixChar(p1 + p2 + p3 + p4, p5, 24, '\n');
    PrefixChar(p1 + p2 + p3 + p4 + p5, p6, 24, '\n');
    PrefixChar(p1 + p2 + p3 + p4 + p5 + p6, p7, 24, '\n');
    PrefixChar(p1 + p2 + p3 + p4 + p5 + p6 + p7, p8, 24, '\n');
  }

  lemma TwoGroupsText6()
    ensures var s := TwoGroupsQuery; s[25..31] == "FILTER" && s[31] == ' '
  {
    var p1 := "\nSELECT 1";
    var p2 := " Country 2 City";
    var p3 := "\nFILTER Location";
    var p4 := " NE Europe\n;";
    var p5 := "\nSELECT 1";
    var p6 := " Country\nFILTER";
    var p7 := " Country EQ";
    var p8 := " Germany";
    assert p3[1] == 'F' && p3[2] == 'I' && p3[3] == 'L' && p3[4] == 'T' && p3[5] == 'E' && p3[6] == 'R';
    PieceAt(p1 + p2, p3, 24, 1, 7, 25, 31, "FILTER");
    PrefixAt(p1 + p2 + p3, p4, 25, 31, "FILTER");
    PrefixAt(p1 + p2 + p3 + p4, p5, 25, 31, "FILTER");
    PrefixAt(p1 + p2 + p3 + p4 + p5, p6, 25, 31, "FILTER");
    PrefixAt(p1 + p2 + p3 + p4 + p5 + p6, p7, 25, 31, "FILTER");
    PrefixAt(p1 + p2 + p3 + p4 + p5 + p6 + p7, p8, 25, 31, "FILTER");
    PieceChar(p1 + p2, p3, 24, 7, 31, ' ');
    PrefixChar(p1 + p2 + p3, p4, 31, ' ');
    PrefixChar(p1 + p2 + p3 + p4, p5, 31, ' ');
    PrefixChar(p1 + p2 + p3 + p4 + p5, p6, 31, ' ');
    PrefixChar(p1 + p2 + p3 + p4 + p5 + p6, p7, 31, ' ');
    PrefixChar(p1 + p2 + p3 + p4 + p5 + p6 + p7, p8, 31, ' ');
  }

  lemma TwoGroupsText7()
    ensures var s := TwoGroupsQuery; s[32..40] == "Location" && s[40] == ' '
  {
    var p1 := "\nSELECT 1";
    var p2 := " Country 2 City";
    var p3 := "\nFILTER Location";
    var p4 := " NE Europe\n;";
    var p5 := "\nSELECT 1";
    var p6 := " Country\nFILTER";
    var p7 := " Country EQ";
    var p8 := " Germany";
    assert p3[8] == 'L' && p3[9] == 'o' && p3[10] == 'c' && p3[11] == 'a' && p3[12] == 't' && p3[13] == 'i' && p3[14] == 'o' && p3[15] == 'n';
    PieceAt(p1 + p2, p3, 24, 8, 16, 32, 40, "Location");
    PrefixAt(p1 + p2 + p3, p4, 32, 40, "Location");
    PrefixAt(p1 + p2 + p3 + p4, p5, 32, 40, "Location");
    PrefixAt(p1 + p2 + p3 + p4 + p5, p6, 32, 40, "Location");
    PrefixAt(p1 + p2 + p3 + p4 + p5 + p6, p7, 32, 40, "Location");
    PrefixAt(p1 + p2 + p3 + p4 + p5 + p6 + p7, p8, 32, 40, "Location");
    PieceChar(p1 + p2 + p3, p4, 40, 0, 40, ' ');
    PrefixChar(p1 + p2 + p3 + p4, p5, 40, ' ');
    PrefixChar(p1 + p2 + p3 + p4 + p5, p6, 40, ' ');
    PrefixChar(p1 + p2 + p3 + p4 + p5 + p6, p7, 40, ' ');
    PrefixChar(p1 + p2 + p3 + p4 + p5 + p6 + p7, p8, 40, ' ');
  }

  lemma TwoGroupsText8()
    ensures var s := TwoGroupsQuery; s[41..43] == "NE" && s[43] == ' '
  {
    var p1 := "\nSELECT 1";
    var p2 := " Country 2 City";
    var p3 := "\nFILTER Location";
    var p4 := " NE Europe\n;";
    var p5 := "\nSELECT 1";
    var p6 := " Country\nFILTER";
    var p7 := " Country EQ";
    var p8 := " Germany";
    assert p4[1] == 'N' && p4[2] == 'E';
    PieceAt(p1 + p2 + p3, p4, 40, 1, 3, 41, 43, "NE");
    PrefixAt(p1 + p2 + p3 + p4, p5, 41, 43, "NE");
    PrefixAt(p1 + p2 + p3 + p4 + p5, p6, 41, 43, "NE");
    PrefixAt(p1 + p2 + p3 + p4 + p5 + p6, p7, 41, 43, "NE");
    PrefixAt(p1 + p2 + p3 + p4 + p5 + p6 + p7, p8, 41, 43, "NE");
    PieceChar(p1 + p2 + p3, p4, 40, 3, 43, ' ');
    PrefixChar(p1 + p2 + p3 + p4, p5, 43, ' ');
    PrefixChar(p1 + p2 + p3 + p4 + p5, p6, 43, ' ');
    PrefixChar(p1 + p2 + p3 + p4 + p5 + p6, p7, 43, ' ');
    PrefixChar(p1 + p2 + p3 + p4 + p5 + p6 + p7, p8, 43, ' ');
  }

  lemma TwoGroupsText9()
    ensures var s := TwoGroupsQuery; s[44..50] == "Europe" && s[50] == '\n'
  {
    var p1 := "\nSELECT 1";
    var p2 := " Country 2 City";
    var p3 := "\nFILTER Location";
    var p4 := " NE Europe\n;";
    var p5 := "\nSELECT 1";
    var p6 := " Country\nFILTER";
    var p7 := " Country EQ";
    var p8 := " Germany";
    assert p4[4] == 'E' && p4[5] == 'u' && p4[6] == 'r' && p4[7] == 'o' && p4[8] == 'p' && p4[9] == 'e';
    PieceAt(p1 + p2 + p3, p4, 40, 4, 10, 44, 50, "Europe");
    PrefixAt(p1 + p2 + p3 + p4, p5, 44, 50, "Europe");
    PrefixAt(p1 + p2 + p3 + p4 + p5, p6, 44, 50, "Europe");
    PrefixAt(p1 + p2 + p3 + p4 + p5 + p6, p7, 44, 50, "Europe");
    PrefixAt(p1 + p2 + p3 + p4 + p5 + p6 + p7, p8, 44, 50, "Europe");
    PieceChar(p1 + p2 + p3, p4, 40, 10, 50, '\n');
    PrefixChar(p1 + p2 + p3 + p4, p5, 50, '\n');
    PrefixChar(p1 + p2 + p3 + p4 + p5, p6, 50, '\n');
    PrefixChar(p1 + p2 + p3 + p4 + p5 + p6, p7, 50, '\n');
    PrefixChar(p1 + p2 + p3 + p4 + p5 + p6 + p7, p8, 50, '\n');
  }

  lemma TwoGroupsText10()
    ensures var s := TwoGroupsQuery; s[51] == ';' && s[52] == '\n'
  {
    var p1 := "\nSELECT 1";
    var p2 := " Country 2 City";
    var p3 := "\nFILTER Location";
    var p4 := " NE Europe\n;";
    var p5 := "\nSELECT 1";
    var p6 := " Country\nFILTER";
    var p7 := " Country EQ";
    var p8 := " Germany";
    PieceChar(p1 + p2 + p3, p4, 40, 11, 51, ';');
    PrefixChar(p1 + p2 + p3 + p4, p5, 51, ';');
    PrefixChar(p1 + p2 + p3 + p4 + p5, p6, 51, ';');
    PrefixChar(p1 + p2 + p3 + p4 + p5 + p6, p7, 51, ';');
    PrefixChar(p1 + p2 + p3 + p4 + p5 + p6 + p7, p8, 51, ';');
    PieceChar(p1 + p2 + p3 + p4, p5, 52, 0, 52, '\n');
    PrefixChar(p1 + p2 + p3 + p4 + p5, p6, 52, '\n');
    PrefixChar(p1 + p2 + p3 + p4 + p5 + p6, p7, 52, '\n');
    PrefixChar(p1 + p2 + p3 + p4 + p5 + p6 + p7, p8, 52, '\n');
  }

  lemma TwoGroupsText11()
    ensures var s := TwoGroupsQuery; s[53..59] == "SELECT" && s[59] == ' '
  {
    var p1 := "\nSELECT 1";
    var p2 := " Country 2 City";
    var p3 := "\nFILTER Location";
    var p4 := " NE Europe\n;";
    var p5 := "\nSELECT 1";
    var p6 := " Country\nFILTER";
    var p7 := " Country EQ";
    var p8 := " Germany";
    assert p5[1] == 'S' && p5[2] == 'E' && p5[3] == 'L' && p5[4] == 'E' && p5[5] == 'C' && p5[6] == 'T';
    PieceAt(p1 + p2 + p3 + p4, p5, 52, 1, 7, 53, 59, "SELECT");
    PrefixAt(p1 + p2 + p3 + p4 + p5, p6, 53, 59, "SELECT");
    PrefixAt(p1 + p2 + p3 + p4 + p5 + p6, p7, 53, 59, "SELECT");
    PrefixAt(p1 + p2 + p3 + p4 + p5 + p6 + p7, p8, 53, 59, "SELECT");
    PieceChar(p1 + p2 + p3 + p4, p5, 52, 7, 59, ' ');
    PrefixChar(p1 + p2 + p3 + p4 + p5, p6, 59, ' ');
    PrefixChar(p1 + p2 + p3 + p4 + p5 + p6, p7, 59, ' ');
    PrefixChar(p1 + p2 + p3 + p4 + p5 + p6 + p7, p8, 59, ' ');
  }

  lemma TwoGroupsText12()
    ensures var s := TwoGroupsQuery; s[60..61] == "1" && s[61] == ' '
  {
    var p1 := "\nSELECT 1";
    var p2 := " Country 2 City";
    var p3 := "\nFILTER Location";
    var p4 := " NE Europe\n;";
    var p5 := "\nSELECT 1";
    var p6 := " Country\nFILTER";
    var p7 := " Country EQ";
    var p8 := " Germany";
    assert p5[8] == '1';
    PieceAt(p1 + p2 + p3 + p4, p5, 52, 8, 9, 60, 61, "1");
    PrefixAt(p1 + p2 + p3 + p4 + p5, p6, 60, 61, "1");
    PrefixAt(p1 + p2 + p3 + p4 + p5 + p6, p7, 60, 61, "1");
    PrefixAt(p1 + p2 + p3 + p4 + p5 + p6 + p7, p8, 60, 61, "1");
    PieceChar(p1 + p2 + p3 + p4 + p5, p6, 61, 0, 61, ' ');
    PrefixChar(p1 + p2 + p3 + p4 + p5 + p6, p7, 61, ' ');
    PrefixChar(p1 + p2 + p3 + p4 + p5 + p6 + p7, p8, 61, ' ');
  }

  lemma TwoGroupsText13()
    ensures var s := TwoGroupsQuery; s[62..69] == "Country" && s[69] == '\n'
  {
    var p1 := "\nSELECT 1";
    var p2 := " Country 2 City";
    var p3 := "\nFILTER Location";
    var p4 := " NE Europe\n;";
    var p5 := "\nSELECT 1";
    var p6 := " Country\nFILTER";
    var p7 := " Country EQ";
    var p8 := " Germany";
    assert p6[1] == 'C' && p6[2] == 'o' && p6[3] == 'u' && p6[4] == 'n' && p6[5] == 't' && p6[6] == 'r' && p6[7] == 'y';
    PieceAt(p1 + p2 + p3 + p4 + p5, p6, 61, 1, 8, 62, 69, "Country");
    PrefixAt(p1 + p2 + p3 + p4 + p5 + p6, p7, 62, 69, "Country");
    PrefixAt(p1 + p2 + p3 + p4 + p5 + p6 + p7, p8, 62, 69, "Country");
    PieceChar(p1 + p2 + p3 + p4 + p5, p6, 61, 8, 69, '\n');
    PrefixChar(p1 + p2 + p3 + p4 + p5 + p6, p7, 69, '\n');
    PrefixChar(p1 + p2 + p3 + p4 + p5 + p6 + p7, p8, 69, '\n');
  }

  lemma TwoGroupsText14()
    ensures var s := TwoGroupsQuery; s[70..76] == "FILTER" && s[76] == ' '
  {
    var p1 := "\nSELECT 1";
    var p2 := " Country 2 City";
    var p3 := "\nFILTER Location";
    var p4 := " NE Europe\n;";
    var p5 := "\nSELECT 1";
    var p6 := " Country\nFILTER";
    var p7 := " Country EQ";
    var p8 := " Germany";
    assert p6[9] == 'F' && p6[10] == 'I' && p6[11] == 'L' && p6[12] == 'T' && p6[13] == 'E' && p6[14] == 'R';
    PieceAt(p1 + p2 + p3 + p4 + p5, p6, 61, 9, 15, 70, 76, "FILTER");
    PrefixAt(p1 + p2 + p3 + p4 + p5 + p6, p7, 70, 76, "FILTER");
    PrefixAt(p1 + p2 + p3 + p4 + p5 + p6 + p7, p8, 70, 76, "FILTER");
    PieceChar(p1 + p2 + p3 + p4 + p5 + p6, p7, 76, 0, 76, ' ');
    PrefixChar(p1 + p2 + p3 + p4 + p5 + p6 + p7, p8, 76, ' ');
  }

  lemma TwoGroupsText15()
    ensures var s := TwoGroupsQuery; s[77..84] == "Country" && s[84] == ' '
  {
    var p1 := "\nSELECT 1";
    var p2 := " Country 2 City";
    var p3 := "\nFILTER Location";
    var p4 := " NE Europe\n;";
    var p5 := "\nSELECT 1";
    var p6 := " Country\nFILTER";
    var p7 := " Country EQ";
    var p8 := " Germany";
    assert p7[1] == 'C' && p7[2] == 'o' && p7[3] == 'u' && p7[4] == 'n' && p7[5] == 't' && p7[6] == 'r' && p7[7] == 'y';
    PieceAt(p1 + p2 + p3 + p4 + p5 + p6, p7, 76, 1, 8, 77, 84, "Country");
    PrefixAt(p1 + p2 + p3 + p4 + p5 + p6 + p7, p8, 77, 84, "Country");
    PieceChar(p1 + p2 + p3 + p4 + p5 + p6, p7, 76, 8, 84, ' ');
    PrefixChar(p1 + p2 + p3 + p4 + p5 + p6 + p7, p8, 84, ' ');
  }

  lemma TwoGroupsText16()
    ensures var s := TwoGroupsQuery; s[85..87] == "EQ" && s[87] == ' '
  {
    var p1 := "\nSELECT 1";
    var p2 := " Country 2 City";
    var p3 := "\nFILTER Location";
    var p4 := " NE Europe\n;";
    var p5 := "\nSELECT 1";
    var p6 := " Country\nFILTER";
    var p7 := " Country EQ";
    var p8 := " Germany";
    assert p7[9] == 'E' && p7[10] == 'Q';
    PieceAt(p1 + p2 + p3 + p4 + p5 + p6, p7, 76, 9, 11, 85, 87, "EQ");
    PrefixAt(p1 + p2 + p3 + p4 + p5 + p6 + p7, p8, 85, 87, "EQ");
    PieceChar(p1 + p2 + p3 + p4 + p5 + p6 + p7, p8, 87, 0, 87, ' ');
  }

  lemma TwoGroupsText17()
    ensures var s := TwoGroupsQuery; s[88..95] == "Germany"
  {
    var p1 := "\nSELECT 1";
    var p2 := " Country 2 City";
    var p3 := "\nFILTER Location";
    var p4 := " NE Europe\n;";
    var p5 := "\nSELECT 1";
    var p6 := " Country\nFILTER";
    var p7 := " Country EQ";
    var p8 := " Germany";
    assert p8[1] == 'G' && p8[2] == 'e' && p8[3] == 'r' && p8[4] == 'm' && p8[5] == 'a' && p8[6] == 'n' && p8[7] == 'y';
    PieceAt(p1 + p2 + p3 + p4 + p5 + p6 + p7, p8, 87, 1, 8, 88, 95, "Germany");
  }

  /** The query of two groups joined by a semicolon, over several lines: a line break is
      whitespace like any other, and the groups come out in the order written. */
  lemma TwoGroups()
    ensures ParseQuery(TwoGroupsQuery) == Parsed(PlacementRule(DefaultReplFactor, [
           SFGroup([Select("Country", 1), Select("City", 2)], [Filter("Location", NE, "Europe")]),
           SFGroup([Select("Country", 1)], [Filter("Country", EQ, "Germany")])]))
  {
    TwoGroupsText1();
    TwoGroupsText2();
    TwoGroupsText3();
    TwoGroupsText4();
    TwoGroupsText5();
    TwoGroupsText6();
    TwoGroupsText7();
    TwoGroupsText8();
    TwoGroupsText9();
    TwoGroupsText10();
    TwoGroupsText11();
    TwoGroupsText12();
    TwoGroupsText13();
    TwoGroupsText14();
    TwoGroupsText15();
    TwoGroupsText16();
    TwoGroupsText17();
    TwoGroupsParse(TwoGroupsQuery);
  }

  // SELECT 3

  const SelectWithoutKeyQuery: string :=
    "SELECT 3"

  predicate SelectWithoutKeyLayout(s: string) {
    && |s| == 8 && s[0..6] == "SELECT" && s[6] == ' ' && s[7..8] == "3"
  }

  lemma {:induction false} SelectWithoutKeyCut(s: string)
    requires SelectWithoutKeyLayout(s)
    ensures SelectorRowSpec(s, 6) == Failure(6) && MoreSelectors(s, 6) == ([], 6)
  {
    NumberValues();
    assert s[7] == s[7..8][0];
    OneSpace(s, 6, 7);
    DigitsAt(s, 7, "3", 8);
    SelectorRowCut(s, 6, 7, 3, 8);
  }

  lemma SelectWithoutKeyParse(s: string)
    requires SelectWithoutKeyLayout(s)
    ensures ParseQuery(s) == SyntaxError("cant parse query")
  {
    assert s[0] == s[0..6][0];
    NoSpace(s, 0);
    NoReplFactor(s, 0);
    SelectWithoutKeyCut(s);
    NoSelectors(s, 0, 0, 6);
    QueryRejected(s, 0);
  }

  lemma SelectWithoutKeyText1()
    ensures var s := SelectWithoutKeyQuery; |s| == 8 && s[0..6] == "SELECT" && s[6] == ' '
  {
    var s := SelectWithoutKeyQuery;
    assert s[0] == 'S' && s[1] == 'E' && s[2] == 'L' && s[3] == 'E' && s[4] == 'C' && s[5] == 'T';
  }

  lemma SelectWithoutKeyText2()
    ensures var s := SelectWithoutKeyQuery; s[7..8] == "3"
  {
    var s := SelectWithoutKeyQuery;
    assert s[7] == '3';
  }

  /** `SELECT 3`: the selector row has a count but no key. */
  lemma SelectWithoutKey()
    ensures ParseQuery(SelectWithoutKeyQuery) == SyntaxError("cant parse query")
  {
    SelectWithoutKeyText1();
    SelectWithoutKeyText2();
    SelectWithoutKeyParse(SelectWithoutKeyQuery);
  }

  // SELECT 1 c 2

  const TrailingCountQuery: string :=
    "SELECT 1 c 2"

  predicate TrailingCountLayout(s: string) {
    && |s| == 12 && s[0..6] == "SELECT" && s[6] == ' ' && s[7..8] == "1" && s[8] == ' '
    && s[9..10] == "c" && s[10] == ' ' && s[11..12] == "2"
  }

  lemma TrailingCountSelector1(s: string)
    requires TrailingCountLayout(s)
    ensures SelectorRowSpec(s, 6) == Success(Select("c", 1), 10)
  {
    NumberValues();
    assert s[7] == s[7..8][0];
    OneSpace(s, 6, 7);
    DigitsAt(s, 7, "1", 8);
    assert s[9] == s[9..10][0];
    OneSpace(s, 8, 9);
    NameAt(s, 9, "c", 10);
    SelectorRowRead(s, 6, 7, 1, 8, 9, "c", 10);
  }

  lemma {:induction false} TrailingCountCut(s: string)
    requires TrailingCountLayout(s)
    ensures SelectorRowSpec(s, 10) == Failure(10) && MoreSelectors(s, 10) == ([], 10)
  {
    NumberValues();
    assert s[11] == s[11..12][0];
    OneSpace(s, 10, 11);
    DigitsAt(s, 11, "2", 12);
    SelectorRowCut(s, 10, 11, 2, 12);
  }

  lemma TrailingCountSelectors(s: string)
    requires TrailingCountLayout(s)
    ensures SelectorsSpec(s, 6) == Success([Select("c", 1)], 10)
  {
    TrailingCountSelector1(s);
    TrailingCountCut(s);
    SelectorsOne(s, 6, Select("c", 1), 10);
  }

  lemma TrailingCountGroup(s: string)
    requires TrailingCountLayout(s)
    ensures SfGroupSpec(s, 0) == Success(SFGroup([Select("c", 1)], []), 10)
  {
    assert s[0] == s[0..6][0];
    NoSpace(s, 0);
    TrailingCountSelectors(s);
    assert s[11] == s[11..12][0];
    NoClauseAt(s, 10, 11);
    GroupWithoutFilters(s, 0, [Select("c", 1)], 10);
  }

  lemma TrailingCountParse(s: string)
    requires TrailingCountLayout(s)
    ensures ParseQuery(s) == SyntaxError("cant parse query")
  {
    assert s[0] == s[0..6][0];
    NoSpace(s, 0);
    NoReplFactor(s, 0);
    TrailingCountGroup(s);
    assert s[11] == s[11..12][0];
    OneSpace(s, 10, 11);
    UnionLeftover(s, 0, SFGroup([Select("c", 1)], []), 10, 11);
    QueryRejected(s, 10);
  }

  lemma TrailingCountText1()
    ensures var s := TrailingCountQuery; |s| == 12 && s[0..6] == "SELECT" && s[6] == ' '
  {
    var s := TrailingCountQuery;
    assert s[0] == 'S' && s[1] == 'E' && s[2] == 'L' && s[3] == 'E' && s[4] == 'C' && s[5] == 'T';
  }

  lemma TrailingCountText2()
    ensures var s := TrailingCountQuery; s[7..8] == "1" && s[8] == ' '
  {
    var s := TrailingCountQuery;
    assert s[7] == '1';
  }

  lemma TrailingCountText3()
    ensures var s := TrailingCountQuery; s[9..10] == "c" && s[10] == ' '
  {
    var s := TrailingCountQuery;
    assert s[9] == 'c';
  }

  lemma TrailingCountText4()
    ensures var s := TrailingCountQuery; s[11..12] == "2"
  {
    var s := TrailingCountQuery;
    assert s[11] == '2';
  }

  /** `SELECT 1 c 2`: the second selector row has a count but no key, so the group ends after the
      first row and the count is left over. */
  lemma TrailingCount()
    ensures ParseQuery(TrailingCountQuery) == SyntaxError("cant parse query")
  {
    TrailingCountText1();
    TrailingCountText2();
    TrailingCountText3();
    TrailingCountText4();
    TrailingCountParse(TrailingCountQuery);
  }

  // SELECT 1 c 2 FILTER a EQ b

  const CountBeforeFilterQuery: string :=
    "SELECT 1 c 2"
    + " FILTER a EQ b"

  predicate CountBeforeFilterLayout(s: string) {
    && |s| == 26 && s[0..6] == "SELECT" && s[6] == ' ' && s[7..8] == "1" && s[8] == ' '
    && s[9..10] == "c" && s[10] == ' ' && s[11..12] == "2" && s[12] == ' ' && s[13..19] == "FILTER"
    && s[19] == ' ' && s[20..21] == "a" && s[21] == ' ' && s[22..24] == "EQ" && s[24] == ' '
    && s[25..26] == "b"
  }

  lemma CountBeforeFilterSelector1(s: string)
    requires CountBeforeFilterLayout(s)
    ensures SelectorRowSpec(s, 6) == Success(Select("c", 1), 10)
  {
    NumberValues();
    assert s[7] == s[7..8][0];
    OneSpace(s, 6, 7);
    DigitsAt(s, 7, "1", 8);
    assert s[9] == s[9..10][0];
    OneSpace(s, 8, 9);
    NameAt(s, 9, "c", 10);
    SelectorRowRead(s, 6, 7, 1, 8, 9, "c", 10);
  }

  lemma CountBeforeFilterSelector2(s: string)
    requires CountBeforeFilterLayout(s)
    ensures SelectorRowSpec(s, 10) == Success(Select("FILTER", 2), 19)
  {
    NumberValues();
    assert s[11] == s[11..12][0];
    OneSpace(s, 10, 11);
    DigitsAt(s, 11, "2", 12);
    assert s[13] == s[13..19][0];
    OneSpace(s, 12, 13);
    NameAt(s, 13, "FILTER", 19);
    SelectorRowRead(s, 10, 11, 2, 12, 13, "FILTER", 19);
  }

  lemma CountBeforeFilterSelectors(s: string)
    requires CountBeforeFilterLayout(s)
    ensures SelectorsSpec(s, 6) == Success([Select("c", 1), Select("FILTER", 2)], 19)
  {
    CountBeforeFilterSelector1(s);
    CountBeforeFilterSelector2(s);
    assert s[20] == s[20..21][0];
    NoSelectorRowAt(s, 19, 20);
    SelectorsTwo(s, 6, Select("c", 1), 10, Select("FILTER", 2), 19);
  }

  lemma CountBeforeFilterGroup(s: string)
    requires CountBeforeFilterLayout(s)
    ensures SfGroupSpec(s, 0) == Success(SFGroup([Select("c", 1), Select("FILTER", 2)], []), 19)
  {
    assert s[0] == s[0..6][0];
    NoSpace(s, 0);
    CountBeforeFilterSelectors(s);
    assert s[20] == s[20..21][0];
    NoClauseAt(s, 19, 20);
    GroupWithoutFilters(s, 0, [Select("c", 1), Select("FILTER", 2)], 19);
  }

  lemma CountBeforeFilterParse(s: string)
    requires CountBeforeFilterLayout(s)
    ensures ParseQuery(s) == SyntaxError("cant parse query")
  {
    assert s[0] == s[0..6][0];
    NoSpace(s, 0);
    NoReplFactor(s, 0);
    CountBeforeFilterGroup(s);
    assert s[20] == s[20..21][0];
    OneSpace(s, 19, 20);
    UnionLeftover(s, 0, SFGroup([Select("c", 1), Select("FILTER", 2)], []), 19, 20);
    QueryRejected(s, 19);
  }

  lemma CountBeforeFilterText1()
    ensures var s := CountBeforeFilterQuery; |s| == 26 && s[0..6] == "SELECT" && s[6] == ' '
  {
    var p1 := "SELECT 1 c 2";
    var p2 := " FILTER a EQ b";
    assert p1[0] == 'S' && p1[1] == 'E' && p1[2] == 'L' && p1[3] == 'E' && p1[4] == 'C' && p1[5] == 'T';
    PrefixAt(p1, p2, 0, 6, "SELECT");
    PrefixChar(p1, p2, 6, ' ');
  }

  lemma CountBeforeFilterText2()
    ensures var s := CountBeforeFilterQuery; s[7..8] == "1" && s[8] == ' '
  {
    var p1 := "SELECT 1 c 2";
    var p2 := " FILTER a EQ b";
    assert p1[7] == '1';
    PrefixAt(p1, p2, 7, 8, "1");
    PrefixChar(p1, p2, 8, ' ');
  }

  lemma CountBeforeFilterText3()
    ensures var s := CountBeforeFilterQuery; s[9..10] == "c" && s[10] == ' '
  {
    var p1 := "SELECT 1 c 2";
    var p2 := " FILTER a EQ b";
    assert p1[9] == 'c';
    PrefixAt(p1, p2, 9, 10, "c");
    PrefixChar(p1, p2, 10, ' ');
  }

  lemma CountBeforeFilterText4()
    ensures var s := CountBeforeFilterQuery; s[11..12] == "2" && s[12] == ' '
  {
    var p1 := "SELECT 1 c 2";
    var p2 := " FILTER a EQ b";
    assert p1[11] == '2';
    PrefixAt(p1, p2, 11, 12, "2");
    PieceChar(p1, p2, 12, 0, 12, ' ');
  }

  lemma CountBeforeFilterText5()
    ensures var s := CountBeforeFilterQuery; s[13..19] == "FILTER" && s[19] == ' '
  {
    var p1 := "SELECT 1 c 2";
    var p2 := " FILTER a EQ b";
    assert p2[1] == 'F' && p2[2] == 'I' && p2[3] == 'L' && p2[4] == 'T' && p2[5] == 'E' && p2[6] == 'R';
    PieceAt(p1, p2, 12, 1, 7, 13, 19, "FILTER");
    PieceChar(p1, p2, 12, 7, 19, ' ');
  }

  lemma CountBeforeFilterText6()
    ensures var s := CountBeforeFilterQuery; s[20..21] == "a" && s[21] == ' '
  {
    var p1 := "SELECT 1 c 2";
    var p2 := " FILTER a EQ b";
    assert p2[8] == 'a';
    PieceAt(p1, p2, 12, 8, 9, 20, 21, "a");
    PieceChar(p1, p2, 12, 9, 21, ' ');
  }

  lemma CountBeforeFilterText7()
    ensures var s := CountBeforeFilterQuery; s[22..24] == "EQ" && s[24] == ' '
  {
    var p1 := "SELECT 1 c 2";
    var p2 := " FILTER a EQ b";
    assert p2[10] == 'E' && p2[11] == 'Q';
    PieceAt(p1, p2, 12, 10, 12, 22, 24, "EQ");
    PieceChar(p1, p2, 12, 12, 24, ' ');
  }

  lemma CountBeforeFilterText8()
    ensures var s := CountBeforeFilterQuery; s[25..26] == "b"
  {
    var p1 := "SELECT 1 c 2";
    var p2 := " FILTER a EQ b";
    assert p2[13] == 'b';
    PieceAt(p1, p2, 12, 13, 14, 25, 26, "b");
  }

  /** `SELECT 1 c 2 FILTER a EQ b`: the word FILTER is read as the key of a second selector row,
      and what follows it is left over. */
  lemma CountBeforeFilter()
    ensures ParseQuery(CountBeforeFilterQuery) == SyntaxError("cant parse query")
  {
    CountBeforeFilterText1();
    CountBeforeFilterText2();
    CountBeforeFilterText3();
    CountBeforeFilterText4();
    CountBeforeFilterText5();
    CountBeforeFilterText6();
    CountBeforeFilterText7();
    CountBeforeFilterText8();
    CountBeforeFilterParse(CountBeforeFilterQuery);
  }

  // SELEC 1 c

  const MisspelledSelectQuery: string :=
    "SELEC 1 c"

  predicate MisspelledSelectLayout(s: string) {
    && |s| == 9 && s[0..5] == "SELEC" && s[5] == ' ' && s[6..7] == "1" && s[7] == ' '
    && s[8..9] == "c"
  }

  lemma MisspelledSelectParse(s: string)
    requires MisspelledSelectLayout(s)
    ensures ParseQuery(s) == SyntaxError("cant parse query")
  {
    assert s[0] == s[0..5][0];
    NoSpace(s, 0);
    NoReplFactor(s, 0);
    assert s[0..6] != "SELECT" by { assert s[0..6][5] == s[5]; }
    NoSelect(s, 0, 0, 6);
    QueryRejected(s, 0);
  }

  lemma MisspelledSelectText1()
    ensures var s := MisspelledSelectQuery; |s| == 9 && s[0..5] == "SELEC" && s[5] == ' '
  {
    var s := MisspelledSelectQuery;
    assert s[0] == 'S' && s[1] == 'E' && s[2] == 'L' && s[3] == 'E' && s[4] == 'C';
  }

  lemma MisspelledSelectText2()
    ensures var s := MisspelledSelectQuery; s[6..7] == "1" && s[7] == ' '
  {
    var s := MisspelledSelectQuery;
    assert s[6] == '1';
  }

  lemma MisspelledSelectText3()
    ensures var s := MisspelledSelectQuery; s[8..9] == "c"
  {
    var s := MisspelledSelectQuery;
    assert s[8] == 'c';
  }

  /** `SELEC 1 c`: the keyword is misspelled. */
  lemma MisspelledSelect()
    ensures ParseQuery(MisspelledSelectQuery) == SyntaxError("cant parse query")
  {
    MisspelledSelectText1();
    MisspelledSelectText2();
    MisspelledSelectText3();
    MisspelledSelectParse(MisspelledSelectQuery);
  }

  // SELECT 1 c FILTER a EE b

  const UnknownOperationQuery: string :=
    "SELECT 1 c"
    + " FILTER a EE b"

  predicate UnknownOperationLayout(s: string) {
    && |s| == 24 && s[0..6] == "SELECT" && s[6] == ' ' && s[7..8] == "1" && s[8] == ' '
    && s[9..10] == "c" && s[10] == ' ' && s[11..17] == "FILTER" && s[17] == ' ' && s[18..19] == "a"
    && s[19] == ' ' && s[20..22] == "EE" && s[22] == ' ' && s[23..24] == "b"
  }

  lemma UnknownOperationSelector1(s: string)
    requires UnknownOperationLayout(s)
    ensures SelectorRowSpec(s, 6) == Success(Select("c", 1), 10)
  {
    NumberValues();
    assert s[7] == s[7..8][0];
    OneSpace(s, 6, 7);
    DigitsAt(s, 7, "1", 8);
    assert s[9] == s[9..10][0];
    OneSpace(s, 8, 9);
    NameAt(s, 9, "c", 10);
    SelectorRowRead(s, 6, 7, 1, 8, 9, "c", 10);
  }

  lemma UnknownOperationSelectors(s: string)
    requires UnknownOperationLayout(s)
    ensures SelectorsSpec(s, 6) == Success([Select("c", 1)], 10)
  {
    UnknownOperationSelector1(s);
    assert s[11] == s[11..17][0];
    NoSelectorRowAt(s, 10, 11);
    SelectorsOne(s, 6, Select("c", 1), 10);
  }

  lemma UnknownOperationFilter(s: string)
    requires UnknownOperationLayout(s)
    ensures FilterRowSpec(s, 17) == Failure(17)
  {
    OperationWords();
    assert s[18] == s[18..19][0];
    OneSpace(s, 17, 18);
    NameAt(s, 18, "a", 19);
    assert s[20] == s[20..22][0];
    OneSpace(s, 19, 20);
    UnknownAt(s, 20, "EE", 22);
    FilterRowUnknown(s, 17, 18, "a", 19, 20, 22);
  }

  lemma UnknownOperationClause(s: string)
    requires UnknownOperationLayout(s)
    ensures FilterClauseSpec(s, 10) == Failure(10)
  {
    assert s[11] == s[11..17][0];
    OneSpace(s, 10, 11);
    UnknownOperationFilter(s);
    ClauseFails(s, 10, 11, 17);
  }

  lemma UnknownOperationGroup(s: string)
    requires UnknownOperationLayout(s)
    ensures SfGroupSpec(s, 0) == Success(SFGroup([Select("c", 1)], []), 10)
  {
    assert s[0] == s[0..6][0];
    NoSpace(s, 0);
    UnknownOperationSelectors(s);
    UnknownOperationClause(s);
    GroupWithoutFilters(s, 0, [Select("c", 1)], 10);
  }

  lemma UnknownOperationParse(s: string)
    requires UnknownOperationLayout(s)
    ensures ParseQuery(s) == SyntaxError("cant parse query")
  {
    assert s[0] == s[0..6][0];
    NoSpace(s, 0);
    NoReplFactor(s, 0);
    UnknownOperationGroup(s);
    assert s[11] == s[11..17][0];
    OneSpace(s, 10, 11);
    UnionLeftover(s, 0, SFGroup([Select("c", 1)], []), 10, 11);
    QueryRejected(s, 10);
  }

  lemma UnknownOperationText1()
    ensures var s := UnknownOperationQuery; |s| == 24 && s[0..6] == "SELECT" && s[6] == ' '
  {
    var p1 := "SELECT 1 c";
    var p2 := " FILTER a EE b";
    assert p1[0] == 'S' && p1[1] == 'E' && p1[2] == 'L' && p1[3] == 'E' && p1[4] == 'C' && p1[5] == 'T';
    PrefixAt(p1, p2, 0, 6, "SELECT");
    PrefixChar(p1, p2, 6, ' ');
  }

  lemma UnknownOperationText2()
    ensures var s := UnknownOperationQuery; s[7..8] == "1" && s[8] == ' '
  {
    var p1 := "SELECT 1 c";
    var p2 := " FILTER a EE b";
    assert p1[7] == '1';
    PrefixAt(p1, p2, 7, 8, "1");
    PrefixChar(p1, p2, 8, ' ');
  }

  lemma UnknownOperationText3()
    ensures var s := UnknownOperationQuery; s[9..10] == "c" && s[10] == ' '
  {
    var p1 := "SELECT 1 c";
    var p2 := " FILTER a EE b";
    assert p1[9] == 'c';
    PrefixAt(p1, p2, 9, 10, "c");
    PieceChar(p1, p2, 10, 0, 10, ' ');
  }

  lemma UnknownOperationText4()
    ensures var s := UnknownOperationQuery; s[11..17] == "FILTER" && s[17] == ' '
  {
    var p1 := "SELECT 1 c";
    var p2 := " FILTER a EE b";
    assert p2[1] == 'F' && p2[2] == 'I' && p2[3] == 'L' && p2[4] == 'T' && p2[5] == 'E' && p2[6] == 'R';
    PieceAt(p1, p2, 10, 1, 7, 11, 17, "FILTER");
    PieceChar(p1, p2, 10, 7, 17, ' ');
  }

  lemma UnknownOperationText5()
    ensures var s := UnknownOperationQuery; s[18..19] == "a" && s[19] == ' '
  {
    var p1 := "SELECT 1 c";
    var p2 := " FILTER a EE b";
    assert p2[8] == 'a';
    PieceAt(p1, p2, 10, 8, 9, 18, 19, "a");
    PieceChar(p1, p2, 10, 9, 19, ' ');
  }

  lemma UnknownOperationText6()
    ensures var s := UnknownOperationQuery; s[20..22] == "EE" && s[22] == ' '
  {
    var p1 := "SELECT 1 c";
    var p2 := " FILTER a EE b";
    assert p2[10] == 'E' && p2[11] == 'E';
    PieceAt(p1, p2, 10, 10, 12, 20, 22, "EE");
    PieceChar(p1, p2, 10, 12, 22, ' ');
  }

  lemma UnknownOperationText7()
    ensures var s := UnknownOperationQuery; s[23..24] == "b"
  {
    var p1 := "SELECT 1 c";
    var p2 := " FILTER a EE b";
    assert p2[13] == 'b';
    PieceAt(p1, p2, 10, 13, 14, 23, 24, "b");
  }

  /** `SELECT 1 c FILTER a EE b`: EE is no operation, so the FILTER clause cannot be read and is
      left over. */
  lemma UnknownOperation()
    ensures ParseQuery(UnknownOperationQuery) == SyntaxError("cant parse query")
  {
    UnknownOperationText1();
    UnknownOperationText2();
    UnknownOperationText3();
    UnknownOperationText4();
    UnknownOperationText5();
    UnknownOperationText6();
    UnknownOperationText7();
    UnknownOperationParse(UnknownOperationQuery);
  }

  // SELECT 1 c FILTER a EE b ; SELECT 3

  const UnknownOperationInUnionQuery: string :=
    "SELECT 1 c"
    + " FILTER a EE b ;"
    + " SELECT 3"

  predicate UnknownOperationInUnionLayout(s: string) {
    && |s| == 35 && s[0..6] == "SELECT" && s[6] == ' ' && s[7..8] == "1" && s[8] == ' '
    && s[9..10] == "c" && s[10] == ' ' && s[11..17] == "FILTER" && s[17] == ' ' && s[18..19] == "a"
    && s[19] == ' ' && s[20..22] == "EE" && s[22] == ' ' && s[23..24] == "b" && s[24] == ' '
    && s[25] == ';' && s[26] == ' ' && s[27..33] == "SELECT" && s[33] == ' ' && s[34..35] == "3"
  }

  lemma UnknownOperationInUnionSelector1(s: string)
    requires UnknownOperationInUnionLayout(s)
    ensures SelectorRowSpec(s, 6) == Success(Select("c", 1), 10)
  {
    NumberValues();
    assert s[7] == s[7..8][0];
    OneSpace(s, 6, 7);
    DigitsAt(s, 7, "1", 8);
    assert s[9] == s[9..10][0];
    OneSpace(s, 8, 9);
    NameAt(s, 9, "c", 10);
    SelectorRowRead(s, 6, 7, 1, 8, 9, "c", 10);
  }

  lemma UnknownOperationInUnionSelectors(s: string)
    requires UnknownOperationInUnionLayout(s)
    ensures SelectorsSpec(s, 6) == Success([Select("c", 1)], 10)
  {
    UnknownOperationInUnionSelector1(s);
    assert s[11] == s[11..17][0];
    NoSelectorRowAt(s, 10, 11);
    SelectorsOne(s, 6, Select("c", 1), 10);
  }

  lemma UnknownOperationInUnionFilter(s: string)
    requires UnknownOperationInUnionLayout(s)
    ensures FilterRowSpec(s, 17) == Failure(17)
  {
    OperationWords();
    assert s[18] == s[18..19][0];
    OneSpace(s, 17, 18);
    NameAt(s, 18, "a", 19);
    assert s[20] == s[20..22][0];
    OneSpace(s, 19, 20);
    UnknownAt(s, 20, "EE", 22);
    FilterRowUnknown(s, 17, 18, "a", 19, 20, 22);
  }

  lemma UnknownOperationInUnionClause(s: string)
    requires UnknownOperationInUnionLayout(s)
    ensures FilterClauseSpec(s, 10) == Failure(10)
  {
    assert s[11] == s[11..17][0];
    OneSpace(s, 10, 11);
    UnknownOperationInUnionFilter(s);
    ClauseFails(s, 10, 11, 17);
  }

  lemma UnknownOperationInUnionGroup(s: string)
    requires UnknownOperationInUnionLayout(s)
    ensures SfGroupSpec(s, 0) == Success(SFGroup([Select("c", 1)], []), 10)
  {
    assert s[0] == s[0..6][0];
    NoSpace(s, 0);
    UnknownOperationInUnionSelectors(s);
    UnknownOperationInUnionClause(s);
    GroupWithoutFilters(s, 0, [Select("c", 1)], 10);
  }

  lemma UnknownOperationInUnionParse(s: string)
    requires UnknownOperationInUnionLayout(s)
    ensures ParseQuery(s) == SyntaxError("cant parse query")
  {
    assert s[0] == s[0..6][0];
    NoSpace(s, 0);
    NoReplFactor(s, 0);
    UnknownOperationInUnionGroup(s);
    assert s[11] == s[11..17][0];
    OneSpace(s, 10, 11);
    UnionLeftover(s, 0, SFGroup([Select("c", 1)], []), 10, 11);
    QueryRejected(s, 10);
  }

  lemma UnknownOperationInUnionText1()
    ensures var s := UnknownOperationInUnionQuery; |s| == 35 && s[0..6] == "SELECT" && s[6] == ' '
  {
    var p1 := "SELECT 1 c";
    var p2 := " FILTER a EE b ;";
    var p3 := " SELECT 3";
    assert p1[0] == 'S' && p1[1] == 'E' && p1[2] == 'L' && p1[3] == 'E' && p1[4] == 'C' && p1[5] == 'T';
    PrefixAt(p1, p2, 0, 6, "SELECT");
    PrefixAt(p1 + p2, p3, 0, 6, "SELECT");
    PrefixChar(p1, p2, 6, ' ');
    PrefixChar(p1 + p2, p3, 6, ' ');
  }

  lemma UnknownOperationInUnionText2()
    ensures var s := UnknownOperationInUnionQuery; s[7..8] == "1" && s[8] == ' '
  {
    var p1 := "SELECT 1 c";
    var p2 := " FILTER a EE b ;";
    var p3 := " SELECT 3";
    assert p1[7] == '1';
    PrefixAt(p1, p2, 7, 8, "1");
    PrefixAt(p1 + p2, p3, 7, 8, "1");
    PrefixChar(p1, p2, 8, ' ');
    PrefixChar(p1 + p2, p3, 8, ' ');
  }

  lemma UnknownOperationInUnionText3()
    ensures var s := UnknownOperationInUnionQuery; s[9..10] == "c" && s[10] == ' '
  {
    var p1 := "SELECT 1 c";
    var p2 := " FILTER a EE b ;";
    var p3 := " SELECT 3";
    assert p1[9] == 'c';
    PrefixAt(p1, p2, 9, 10, "c");
    PrefixAt(p1 + p2, p3, 9, 10, "c");
    PieceChar(p1, p2, 10, 0, 10, ' ');
    PrefixChar(p1 + p2, p3, 10, ' ');
  }

  lemma UnknownOperationInUnionText4()
    ensures var s := UnknownOperationInUnionQuery; s[11..17] == "FILTER" && s[17] == ' '
  {
    var p1 := "SELECT 1 c";
    var p2 := " FILTER a EE b ;";
    var p3 := " SELECT 3";
    assert p2[1] == 'F' && p2[2] == 'I' && p2[3] == 'L' && p2[4] == 'T' && p2[5] == 'E' && p2[6] == 'R';
    PieceAt(p1, p2, 10, 1, 7, 11, 17, "FILTER");
    PrefixAt(p1 + p2, p3, 11, 17, "FILTER");
    PieceChar(p1, p2, 10, 7, 17, ' ');
    PrefixChar(p1 + p2, p3, 17, ' ');
  }

  lemma UnknownOperationInUnionText5()
    ensures var s := UnknownOperationInUnionQuery; s[18..19] == "a" && s[19] == ' '
  {
    var p1 := "SELECT 1 c";
    var p2 := " FILTER a EE b ;";
    var p3 := " SELECT 3";
    assert p2[8] == 'a';
    PieceAt(p1, p2, 10, 8, 9, 18, 19, "a");
    PrefixAt(p1 + p2, p3, 18, 19, "a");
    PieceChar(p1, p2, 10, 9, 19, ' ');
    PrefixChar(p1 + p2, p3, 19, ' ');
  }

  lemma UnknownOperationInUnionText6()
    ensures var s := UnknownOperationInUnionQuery; s[20..22] == "EE" && s[22] == ' '
  {
    var p1 := "SELECT 1 c";
    var p2 := " FILTER a EE b ;";
    var p3 := " SELECT 3";
    assert p2[10] == 'E' && p2[11] == 'E';
    PieceAt(p1, p2, 10, 10, 12, 20, 22, "EE");
    PrefixAt(p1 + p2, p3, 20, 22, "EE");
    PieceChar(p1, p2, 10, 12, 22, ' ');
    PrefixChar(p1 + p2, p3, 22, ' ');
  }

  lemma UnknownOperationInUnionText7()
    ensures var s := UnknownOperationInUnionQuery; s[23..24] == "b" && s[24] == ' '
  {
    var p1 := "SELECT 1 c";
    var p2 := " FILTER a EE b ;";
    var p3 := " SELECT 3";
    assert p2[13] == 'b';
    PieceAt(p1, p2, 10, 13, 14, 23, 24, "b");
    PrefixAt(p1 + p2, p3, 23, 24, "b");
    PieceChar(p1, p2, 10, 14, 24, ' ');
    PrefixChar(p1 + p2, p3, 24, ' ');
  }

  lemma UnknownOperationInUnionText8()
    ensures var s := UnknownOperationInUnionQuery; s[25] == ';' && s[26] == ' '
  {
    var p1 := "SELECT 1 c";
    var p2 := " FILTER a EE b ;";
    var p3 := " SELECT 3";
    PieceChar(p1, p2, 10, 15, 25, ';');
    PrefixChar(p1 + p2, p3, 25, ';');
    PieceChar(p1 + p2, p3, 26, 0, 26, ' ');
  }

  lemma UnknownOperationInUnionText9()
    ensures var s := UnknownOperationInUnionQuery; s[27..33] == "SELECT" && s[33] == ' '
  {
    var p1 := "SELECT 1 c";
    var p2 := " FILTER a EE b ;";
    var p3 := " SELECT 3";
    assert p3[1] == 'S' && p3[2] == 'E' && p3[3] == 'L' && p3[4] == 'E' && p3[5] == 'C' && p3[6] == 'T';
    PieceAt(p1 + p2, p3, 26, 1, 7, 27, 33, "SELECT");
    PieceChar(p1 + p2, p3, 26, 7, 33, ' ');
  }

  lemma UnknownOperationInUnionText10()
    ensures var s := UnknownOperationInUnionQuery; s[34..35] == "3"
  {
    var p1 := "SELECT 1 c";
    var p2 := " FILTER a EE b ;";
    var p3 := " SELECT 3";
    assert p3[8] == '3';
    PieceAt(p1 + p2, p3, 26, 8, 9, 34, 35, "3");
  }

  /** `SELECT 1 c FILTER a EE b ; SELECT 3`: the first group already stops before its FILTER
      clause, so the union never reaches the semicolon. */
  lemma UnknownOperationInUnion()
    ensures ParseQuery(UnknownOperationInUnionQuery) == SyntaxError("cant parse query")
  {
    UnknownOperationInUnionText1();
    UnknownOperationInUnionText2();
    UnknownOperationInUnionText3();
    UnknownOperationInUnionText4();
    UnknownOperationInUnionText5();
    UnknownOperationInUnionText6();
    UnknownOperationInUnionText7();
    UnknownOperationInUnionText8();
    UnknownOperationInUnionText9();
    UnknownOperationInUnionText10();
    UnknownOperationInUnionParse(UnknownOperationInUnionQuery);
  }

  // RF SELECT 1 c

  const FactorWithoutNumberQuery: string :=
    "RF SELECT 1 c"

  predicate FactorWithoutNumberLayout(s: string) {
    && |s| == 13 && s[0..2] == "RF" && s[2] == ' ' && s[3..9] == "SELECT" && s[9] == ' '
    && s[10..11] == "1" && s[11] == ' ' && s[12..13] == "c"
  }

  lemma FactorWithoutNumberParse(s: string)
    requires FactorWithoutNumberLayout(s)
    ensures ParseQuery(s) == SyntaxError("cant parse query")
  {
    assert s[0] == s[0..2][0] && s[1] == s[0..2][1];
    assert s[0] == s[0..2][0];
    NoSpace(s, 0);
    assert s[3] == s[3..9][0];
    OneSpace(s, 2, 3);
    assert ParseNumber(s, 3).Failure?;
    ReplFactorWithoutNumber(s);
    assert s[0..6] != "SELECT" by { assert s[0..6][0] == s[0]; }
    NoSelect(s, 0, 0, 6);
    QueryRejected(s, 0);
  }

  lemma FactorWithoutNumberText1()
    ensures var s := FactorWithoutNumberQuery; |s| == 13 && s[0..2] == "RF" && s[2] == ' '
  {
    var s := FactorWithoutNumberQuery;
    assert s[0] == 'R' && s[1] == 'F';
  }

  lemma FactorWithoutNumberText2()
    ensures var s := FactorWithoutNumberQuery; s[3..9] == "SELECT" && s[9] == ' '
  {
    var s := FactorWithoutNumberQuery;
    assert s[3] == 'S' && s[4] == 'E' && s[5] == 'L' && s[6] == 'E' && s[7] == 'C' && s[8] == 'T';
  }

  lemma FactorWithoutNumberText3()
    ensures var s := FactorWithoutNumberQuery; s[10..11] == "1" && s[11] == ' '
  {
    var s := FactorWithoutNumberQuery;
    assert s[10] == '1';
  }

  lemma FactorWithoutNumberText4()
    ensures var s := FactorWithoutNumberQuery; s[12..13] == "c"
  {
    var s := FactorWithoutNumberQuery;
    assert s[12] == 'c';
  }

  /** `RF SELECT 1 c`: RF without its number is no RF clause, and the query does not start with
      SELECT. */
  lemma FactorWithoutNumber()
    ensures ParseQuery(FactorWithoutNumberQuery) == SyntaxError("cant parse query")
  {
    FactorWithoutNumberText1();
    FactorWithoutNumberText2();
    FactorWithoutNumberText3();
    FactorWithoutNumberText4();
    FactorWithoutNumberParse(FactorWithoutNumberQuery);
  }
}
