/** The placement-query parser of query.go, as functions: what each parser replies for an input
    string and a cursor position.

    In the source, forceCollect gathers the untyped results of heterogeneous parsers into a list and
    each grammar rule picks them apart with type assertions. Here those results are the closed sum
    type `Item`, each grammar rule returns its own concrete type, and every type assertion is a
    precondition of the function that takes the list apart, proved from the shape of what the
    parts can return. */
module Query {
  import opened Parsec
  import opened Netmap

  const DefaultReplFactor: uint32 := 2

  /** The operator table: a mnemonic and a symbolic spelling for each operation. */
  const StrToOp: map<string, Operation> := map[
    "EQ" := EQ, "=" := EQ,
    "NE" := NE, "!=" := NE,
    "LT" := LT, "<" := LT,
    "LE" := LE, "<=" := LE,
    "GT" := GT, ">" := GT,
    "GE" := GE, ">=" := GE
  ]

  /** What the parsers gathered by forceCollect return. */
  datatype Item =
    | Nil                           // trySucceed after a failure
    | Text(text: string)            // whitespace, keywords and identifiers
    | Count(n: uint32)              // parseNumber
    | Op(op: Operation)             // parseOperation
    | List(items: seq<Item>)        // forceCollect, Many and Many1
    | Filters(filters: seq<Filter>) // filterGroup
    | Group(group: SFGroup)         // sfGroup
    | Groups(groups: seq<SFGroup>)  // sfUnion

  /** The reply of ParseQuery: the rule, or the one error message the source has. */
  datatype QueryResult = Parsed(rule: PlacementRule) | SyntaxError(message: string)

  // ---------------------------------------------------------------------------------------------
  // Combinators

  /** forceCollect: runs the parsers in order from `i`, each where the previous one stopped. If one
      fails, the whole sequence fails with the cursor back at `i`; otherwise it returns one result
      per parser. */
  function ForceCollect<T>(ps: seq<Parser<T>>, s: string, i: nat): (r: Reply<seq<T>>)
    ensures r.Failure? ==> r.pos == i
    ensures r.Success? ==> |r.value| == |ps|
    decreases |ps|, |s|
  {
    if ps == [] then Success([], i)
    else
      match ps[0](s, i)
      case Failure(_) => Failure(i)
      case Success(v, j) =>
        match ForceCollect(ps[1..], s, j)
        case Failure(_) => Failure(i)
        case Success(vs, k) => Success([v] + vs, k)
  }

  /** The cursor before each parser of `ps` runs, up to the first that fails, and after the last
      one when none fails. */
  ghost function Stops<T>(ps: seq<Parser<T>>, s: string, i: nat): seq<nat>
    decreases |ps|, |s|
  {
    if ps == [] then [i]
    else
      match ps[0](s, i)
      case Failure(_) => [i]
      case Success(_, j) => [i] + Stops(ps[1..], s, j)
  }

  ghost predicate AllForward<T>(ps: seq<Parser<T>>, s: string) {
    forall k :: 0 <= k < |ps| ==> Forward(ps[k], s)
  }

  /** trySucceed: always succeeds; when `p` fails, the reply is Nil with the cursor back at `i`. */
  function TrySucceed(p: Parser<Item>, s: string, i: nat): (r: Reply<Item>)
    ensures r.Success?
    ensures p(s, i).Failure? ==> r == Success(Nil, i)
    ensures p(s, i).Success? ==> r == p(s, i)
  {
    match p(s, i)
    case Success(v, j) => Success(v, j)
    case Failure(_) => Success(Nil, i)
  }

  function AsList(r: Reply<seq<Item>>): Reply<Item> {
    match r
    case Success(v, j) => Success(List(v), j)
    case Failure(k) => Failure(k)
  }

  // ---------------------------------------------------------------------------------------------
  // Token parsers

  predicate IsIdentChar(c: char) { IsDigit(c) || IsLetter(c) }

  predicate IsNonSpace(c: char) { !IsSpace(c) }

  function DigitValue(c: char): nat
    requires IsDigit(c)
  {
    c as int - '0' as int
  }

  predicate AllDigits(ds: string) {
    forall k :: 0 <= k < |ds| ==> IsDigit(ds[k])
  }

  /** The value of a string of decimal digits, unbounded. */
  function DecimalValue(ds: string): nat
    requires AllDigits(ds)
    decreases |ds|
  {
    if ds == [] then 0 else DecimalValue(ds[..|ds| - 1]) * 10 + DigitValue(ds[|ds| - 1])
  }

  /** parseNumber's fold: uint32 arithmetic wraps, so the result is the decimal value of the
      digits taken modulo 2^32. */
  function FoldDigits(ds: string): (r: uint32)
    requires AllDigits(ds)
    ensures r as int == DecimalValue(ds) % Uint32Modulus
    decreases |ds|
  {
    if ds == [] then 0
    else
      var init := ds[..|ds| - 1];
      ModStep(DecimalValue(init), DigitValue(ds[|ds| - 1]));
      ((FoldDigits(init) as int * 10 + DigitValue(ds[|ds| - 1])) % Uint32Modulus) as uint32
  }

  lemma ModStep(a: int, d: int)
    ensures ((a % Uint32Modulus) * 10 + d) % Uint32Modulus == (a * 10 + d) % Uint32Modulus
  {
    var q := a / Uint32Modulus;
    assert a == q * Uint32Modulus + a % Uint32Modulus;
    assert a * 10 + d == (a % Uint32Modulus) * 10 + d + (q * 10) * Uint32Modulus;
    ModMultiple((a % Uint32Modulus) * 10 + d, q * 10);
  }

  lemma ModMultiple(x: int, q: int)
    ensures (x + q * Uint32Modulus) % Uint32Modulus == x % Uint32Modulus
  {
  }

  /** parseNumber: reads the longest run of digits at the cursor, failing without consuming when
      there is none. */
  function ParseNumber(s: string, i: nat): (r: Reply<uint32>)
    ensures r.Failure? <==> !(i < |s| && IsDigit(s[i]))
    ensures r.Failure? ==> r.pos == i
    ensures r.Success? ==> i < r.pos && MaximalRun(IsDigit, s, i, r.pos)
    ensures r.Success? ==> AllDigits(s[i..r.pos]) && r.value == FoldDigits(s[i..r.pos])
  {
    Many1Satisfy(IsDigit, s, i);
    match Many1(Satisfy(IsDigit), s, i)
    case Failure(k) => Failure(k)
    case Success(ds, j) => Success(FoldDigits(ds), j)
  }

  /** parseString: reads the longest run of letters and digits at the cursor, failing without
      consuming when there is none. */
  function ParseString(s: string, i: nat): (r: Reply<string>)
    ensures r.Failure? <==> !(i < |s| && IsIdentChar(s[i]))
    ensures r.Failure? ==> r.pos == i
    ensures r.Success? ==> i < r.pos && MaximalRun(IsIdentChar, s, i, r.pos) && r.value == s[i..r.pos]
  {
    Many1Satisfy(IsIdentChar, s, i);
    match Many1(Satisfy(IsIdentChar), s, i)
    case Failure(k) => Failure(k)
    case Success(cs, j) => Success(cs, j)
  }

  /** parseOperation: reads the longest run of non-space characters and looks it up in the
      operator table. An unknown token fails with the cursor after the run. */
  function ParseOperation(s: string, i: nat): (r: Reply<Operation>)
    ensures !(i < |s| && IsNonSpace(s[i])) ==> r == Failure(i)
    ensures i < |s| && IsNonSpace(s[i]) ==> i < r.pos && MaximalRun(IsNonSpace, s, i, r.pos)
    ensures r.Success? <==> i < |s| && IsNonSpace(s[i]) && s[i..r.pos] in StrToOp
    ensures r.Success? ==> r.value == StrToOp[s[i..r.pos]]
  {
    Many1Satisfy(IsNonSpace, s, i);
    match Many1(Satisfy(IsNonSpace), s, i)
    case Failure(k) => Failure(k)
    case Success(cs, j) => if cs in StrToOp then Success(StrToOp[cs], j) else Failure(j)
  }

  // The token parsers as parsers of items.

  /** ws: a possibly empty run of whitespace. */
  function Ws(s: string, i: nat): (r: Reply<Item>)
    ensures r.Success? && Moves(r, i, s)
  {
    SatisfyAdvances(IsSpace, s);
    var m := Many(Satisfy(IsSpace), s, i);
    Success(Text(m.value), m.pos)
  }

  /** ws1: a non-empty run of whitespace. */
  function Ws1(s: string, i: nat): (r: Reply<Item>)
    ensures Moves(r, i, s) && (r.Failure? ==> r.pos == i)
    ensures r.Success? ==> i < r.pos <= |s|
  {
    Many1Satisfy(IsSpace, s, i);
    match Many1(Satisfy(IsSpace), s, i)
    case Failure(k) => Failure(k)
    case Success(cs, j) => Success(Text(cs), j)
  }

  /** String(word) as a parser of items. */
  function Keyword(word: string): Parser<Item> {
    (s: string, i: nat) =>
      match Literal(word)(s, i)
      case Success(w, j) => Success(Text(w), j)
      case Failure(k) => Failure(k)
  }

  lemma KeywordMoves(word: string, s: string)
    ensures Forward(Keyword(word), s) && Atomic(Keyword(word), s)
    ensures |word| > 0 ==> Advances(Keyword(word), s)
  {
    forall i: nat
      ensures var r := Keyword(word)(s, i);
        && Moves(r, i, s) && (r.Failure? ==> r.pos == i)
        && (|word| > 0 && r.Success? ==> i < r.pos <= |s|)
    {
      var l := Literal(word)(s, i);
      assert l == if i + |word| <= |s| && s[i..i + |word|] == word then Success(word, i + |word|) else Failure(i);
    }
  }

  function NumberItem(s: string, i: nat): (r: Reply<Item>)
    ensures Moves(r, i, s) && (r.Failure? ==> r.pos == i)
    ensures r.Success? ==> i < r.pos <= |s|
    ensures r.Success? == ParseNumber(s, i).Success? && r.pos == ParseNumber(s, i).pos
    ensures r.Success? ==> r.value == Count(ParseNumber(s, i).value)
  {
    match ParseNumber(s, i)
    case Success(n, j) => Success(Count(n), j)
    case Failure(k) => Failure(k)
  }

  function StringItem(s: string, i: nat): (r: Reply<Item>)
    ensures Moves(r, i, s) && (r.Failure? ==> r.pos == i)
    ensures r.Success? ==> i < r.pos <= |s|
    ensures r.Success? == ParseString(s, i).Success? && r.pos == ParseString(s, i).pos
    ensures r.Success? ==> r.value == Text(ParseString(s, i).value)
  {
    match ParseString(s, i)
    case Success(w, j) => Success(Text(w), j)
    case Failure(k) => Failure(k)
  }

  function OperationItem(s: string, i: nat): (r: Reply<Item>)
    ensures Moves(r, i, s)
    ensures r.Success? ==> i < r.pos <= |s|
    ensures r.Success? == ParseOperation(s, i).Success? && r.pos == ParseOperation(s, i).pos
    ensures r.Success? ==> r.value == Op(ParseOperation(s, i).value)
  {
    match ParseOperation(s, i)
    case Success(op, j) => Success(Op(op), j)
    case Failure(k) => Failure(k)
  }

  // ---------------------------------------------------------------------------------------------
  // Grammar rules

  /** The shapes of the lists the grammar rules take apart. */

  predicate IsSelectorRow(it: Item) {
    it.List? && |it.items| == 4 && it.items[1].Count? && it.items[3].Text?
  }

  predicate IsFilterRow(it: Item) {
    it.List? && |it.items| == 6 && it.items[1].Text? && it.items[3].Op? && it.items[5].Text?
  }

  predicate IsFilterClause(it: Item) {
    it.List? && |it.items| == 2 && it.items[1].Filters?
  }

  predicate IsUnionRow(it: Item) {
    it.List? && |it.items| == 4 && it.items[3].Group?
  }

  predicate AllRows(items: seq<Item>, row: Item -> bool) {
    forall k :: 0 <= k < |items| ==> row(items[k])
  }

  // replFactor := ws "RF" ws1 number

  function ReplFactorParts(): seq<Parser<Item>> {
    [Ws, Keyword("RF"), Ws1, NumberItem]
  }

  function ReplFactor(s: string, i: nat): (r: Reply<uint32>)
    ensures Moves(r, i, s) && (r.Failure? ==> r.pos == i)
  {
    var out := ForceCollect(ReplFactorParts(), s, i);
    ReplFactorShape(s, i);
    if out.Failure? then Failure(i)
    else Success(out.value[3].n, out.pos)
  }

  function ReplFactorItem(s: string, i: nat): (r: Reply<Item>)
    ensures Moves(r, i, s) && (r.Failure? ==> r.pos == i)
    ensures r.Success? == ReplFactor(s, i).Success? && r.pos == ReplFactor(s, i).pos
    ensures r.Success? ==> r.value == Count(ReplFactor(s, i).value)
  {
    match ReplFactor(s, i)
    case Success(n, j) => Success(Count(n), j)
    case Failure(k) => Failure(k)
  }

  // filterGroup := "FILTER" (ws1 string ws1 operation ws1 string)+

  function FilterRowParts(): seq<Parser<Item>> {
    [Ws1, StringItem, Ws1, OperationItem, Ws1, StringItem]
  }

  function FilterRowItem(s: string, i: nat): (r: Reply<Item>)
    ensures Moves(r, i, s) && (r.Failure? ==> r.pos == i)
    ensures r.Success? ==> i < r.pos <= |s| && IsFilterRow(r.value)
  {
    FilterRowShape(s, i);
    AsList(ForceCollect(FilterRowParts(), s, i))
  }

  function FilterRowsItem(s: string, i: nat): (r: Reply<Item>)
    ensures Moves(r, i, s) && (r.Failure? ==> r.pos == i)
    ensures r.Success? ==> r.value.List? && |r.value.items| >= 1 && AllRows(r.value.items, IsFilterRow)
  {
    assert Advances(FilterRowItem, s);
    Many1Yields(FilterRowItem, s, i, IsFilterRow);
    AsList(Many1(FilterRowItem, s, i))
  }

  function FilterGroupParts(): seq<Parser<Item>> {
    [Keyword("FILTER"), FilterRowsItem]
  }

  function FilterOf(row: Item): Filter
    requires IsFilterRow(row)
  {
    Filter(row.items[1].text, row.items[3].op, row.items[5].text)
  }

  function FiltersOf(rows: seq<Item>): seq<Filter>
    requires AllRows(rows, IsFilterRow)
  {
    seq(|rows|, k requires 0 <= k < |rows| => FilterOf(rows[k]))
  }

  function FilterGroup(s: string, i: nat): (r: Reply<seq<Filter>>)
    ensures Moves(r, i, s) && (r.Failure? ==> r.pos == i)
    ensures r.Success? ==> i < r.pos <= |s| && |r.value| >= 1
  {
    var out := ForceCollect(FilterGroupParts(), s, i);
    FilterGroupShape(s, i);
    if out.Failure? then Failure(i)
    else Success(FiltersOf(out.value[1].items), out.pos)
  }

  function FilterGroupItem(s: string, i: nat): (r: Reply<Item>)
    ensures Moves(r, i, s) && (r.Failure? ==> r.pos == i)
    ensures r.Success? == FilterGroup(s, i).Success? && r.pos == FilterGroup(s, i).pos
    ensures r.Success? ==> r.value == Filters(FilterGroup(s, i).value)
  {
    match FilterGroup(s, i)
    case Success(fs, j) => Success(Filters(fs), j)
    case Failure(k) => Failure(k)
  }

  // sfGroup := ws "SELECT" (ws1 number ws1 string)+ (ws1 filterGroup)?

  function SelectorParts(): seq<Parser<Item>> {
    [Ws1, NumberItem, Ws1, StringItem]
  }

  function SelectorItem(s: string, i: nat): (r: Reply<Item>)
    ensures Moves(r, i, s) && (r.Failure? ==> r.pos == i)
    ensures r.Success? ==> i < r.pos <= |s| && IsSelectorRow(r.value)
  {
    SelectorShape(s, i);
    AsList(ForceCollect(SelectorParts(), s, i))
  }

  function SelectorsItem(s: string, i: nat): (r: Reply<Item>)
    ensures Moves(r, i, s) && (r.Failure? ==> r.pos == i)
    ensures r.Success? ==> r.value.List? && |r.value.items| >= 1 && AllRows(r.value.items, IsSelectorRow)
  {
    assert Advances(SelectorItem, s);
    Many1Yields(SelectorItem, s, i, IsSelectorRow);
    AsList(Many1(SelectorItem, s, i))
  }

  function FilterClauseParts(): seq<Parser<Item>> {
    [Ws1, FilterGroupItem]
  }

  function FilterClauseItem(s: string, i: nat): (r: Reply<Item>)
    ensures Moves(r, i, s) && (r.Failure? ==> r.pos == i)
    ensures r.Success? ==> IsFilterClause(r.value)
  {
    FilterClauseShape(s, i);
    AsList(ForceCollect(FilterClauseParts(), s, i))
  }

  function OptFilterClauseItem(s: string, i: nat): (r: Reply<Item>)
    ensures r.Success? && Moves(r, i, s)
    ensures r.value == Nil || IsFilterClause(r.value)
  {
    TrySucceed(FilterClauseItem, s, i)
  }

  function SfGroupParts(): seq<Parser<Item>> {
    [Ws, Keyword("SELECT"), SelectorsItem, OptFilterClauseItem]
  }

  function SelectOf(row: Item): Select
    requires IsSelectorRow(row)
  {
    Select(row.items[3].text, row.items[1].n)
  }

  function SelectsOf(rows: seq<Item>): seq<Select>
    requires AllRows(rows, IsSelectorRow)
  {
    seq(|rows|, k requires 0 <= k < |rows| => SelectOf(rows[k]))
  }

  function SfGroup(s: string, i: nat): (r: Reply<SFGroup>)
    ensures Moves(r, i, s) && (r.Failure? ==> r.pos == i)
    ensures r.Success? ==> i < r.pos <= |s| && |r.value.selectors| >= 1
  {
    var out := ForceCollect(SfGroupParts(), s, i);
    SfGroupShape(s, i);
    if out.Failure? then Failure(i)
    else
      var fs := if out.value[3] != Nil then out.value[3].items[1].filters else [];
      Success(SFGroup(SelectsOf(out.value[2].items), fs), out.pos)
  }

  function SfGroupItem(s: string, i: nat): (r: Reply<Item>)
    ensures Moves(r, i, s) && (r.Failure? ==> r.pos == i)
    ensures r.Success? == SfGroup(s, i).Success? && r.pos == SfGroup(s, i).pos
    ensures r.Success? ==> r.value == Group(SfGroup(s, i).value)
  {
    match SfGroup(s, i)
    case Success(g, j) => Success(Group(g), j)
    case Failure(k) => Failure(k)
  }

  // sfUnion := sfGroup (ws ";" ws sfGroup)* <end of input>

  function UnionRowParts(): seq<Parser<Item>> {
    [Ws, Keyword(";"), Ws, SfGroupItem]
  }

  function UnionRowItem(s: string, i: nat): (r: Reply<Item>)
    ensures Moves(r, i, s) && (r.Failure? ==> r.pos == i)
    ensures r.Success? ==> i < r.pos <= |s| && IsUnionRow(r.value)
  {
    UnionRowShape(s, i);
    AsList(ForceCollect(UnionRowParts(), s, i))
  }

  function UnionRowsItem(s: string, i: nat): (r: Reply<Item>)
    ensures r.Success? && Moves(r, i, s)
    ensures r.value.List? && AllRows(r.value.items, IsUnionRow)
  {
    assert Advances(UnionRowItem, s);
    ManyYields(UnionRowItem, s, i, IsUnionRow);
    AsList(Many(UnionRowItem, s, i))
  }

  function SfUnionParts(): seq<Parser<Item>> {
    [SfGroupItem, UnionRowsItem]
  }

  function GroupsOf(rows: seq<Item>): seq<SFGroup>
    requires AllRows(rows, IsUnionRow)
  {
    seq(|rows|, k requires 0 <= k < |rows| => rows[k].items[3].group)
  }

  function SfUnion(s: string, i: nat): (r: Reply<seq<SFGroup>>)
    ensures Moves(r, i, s)
    ensures r.Success? ==> |r.value| >= 1 && r.pos == |s|
  {
    var out := ForceCollect(SfUnionParts(), s, i);
    SfUnionShape(s, i);
    if out.Failure? then Failure(i)
    else if out.pos < |s| then Failure(out.pos)
    else Success([out.value[0].group] + GroupsOf(out.value[1].items), out.pos)
  }

  function SfUnionItem(s: string, i: nat): (r: Reply<Item>)
    ensures Moves(r, i, s)
    ensures r.Success? == SfUnion(s, i).Success? && r.pos == SfUnion(s, i).pos
    ensures r.Success? ==> r.value == Groups(SfUnion(s, i).value)
  {
    match SfUnion(s, i)
    case Success(gs, j) => Success(Groups(gs), j)
    case Failure(k) => Failure(k)
  }

  // rule := replFactor? sfUnion

  function OptReplFactorItem(s: string, i: nat): (r: Reply<Item>)
    ensures r.Success? && Moves(r, i, s)
    ensures r.value == Nil || r.value.Count?
  {
    TrySucceed(ReplFactorItem, s, i)
  }

  function RuleParts(): seq<Parser<Item>> {
    [OptReplFactorItem, SfUnionItem]
  }

  function ParseRule(s: string, i: nat): (r: Reply<PlacementRule>)
    ensures Moves(r, i, s) && (r.Failure? ==> r.pos == i)
    ensures r.Success? ==> |r.value.groups| >= 1 && r.pos == |s|
  {
    var out := ForceCollect(RuleParts(), s, i);
    RuleShape(s, i);
    if out.Failure? then Failure(i)
    else
      var rf := if out.value[0] != Nil then out.value[0].n else DefaultReplFactor;
      Success(PlacementRule(rf, out.value[1].groups), out.pos)
  }

  /** ParseQuery: parses the whole string from its start; a query is accepted only when the rule
      consumes all of it, and then holds at least one group. Every failure reports the same
      message. */
  function ParseQuery(s: string): (r: QueryResult)
    ensures r.Parsed? <==> ParseRule(s, 0).Success?
    ensures r.Parsed? ==> |r.rule.groups| >= 1
    ensures r.SyntaxError? ==> r.message == "cant parse query"
  {
    match ParseRule(s, 0)
    case Success(rule, _) => Parsed(rule)
    case Failure(_) => SyntaxError("cant parse query")
  }

  // ---------------------------------------------------------------------------------------------
  // What forceCollect does, parser by parser

  /** On success forceCollect returns exactly one result per parser, in order: the k-th result is
      what the k-th parser returned when started where the (k-1)-th stopped. It fails exactly when
      some parser fails where the previous ones left the cursor. */
  lemma {:induction false} ForceCollectInOrder<T>(ps: seq<Parser<T>>, s: string, i: nat)
    ensures var r := ForceCollect(ps, s, i); var st := Stops(ps, s, i);
      && 1 <= |st| <= |ps| + 1 && st[0] == i
      && (r.Success? <==> |st| == |ps| + 1)
      && (r.Success? ==> st[|ps|] == r.pos)
      && (r.Success? ==> forall k :: 0 <= k < |ps| ==> ps[k](s, st[k]) == Success(r.value[k], st[k + 1]))
      && (forall k :: 0 <= k < |st| - 1 ==> ps[k](s, st[k]).Success? && ps[k](s, st[k]).pos == st[k + 1])
      && (r.Failure? ==> ps[|st| - 1](s, st[|st| - 1]).Failure?)
    decreases |ps|
  {
    if ps != [] {
      match ps[0](s, i)
      case Failure(_) =>
      case Success(v, j) =>
        ForceCollectInOrder(ps[1..], s, j);
        var st' := Stops(ps[1..], s, j);
        assert Stops(ps, s, i) == [i] + st';
        forall k | 1 <= k < |ps| ensures ps[k] == ps[1..][k - 1] { }
    }
  }

  /** Where forceCollect stopped: the stops start at `i`, it succeeds exactly when every parser
      got its turn, and it then ends at the last stop; otherwise the last stop is where the
      failing parser failed. */
  lemma {:induction false} ForceCollectEnd<T>(ps: seq<Parser<T>>, s: string, i: nat)
    ensures var r := ForceCollect(ps, s, i); var st := Stops(ps, s, i);
      && 1 <= |st| <= |ps| + 1 && st[0] == i
      && (r.Success? <==> |st| == |ps| + 1)
      && (r.Success? ==> st[|ps|] == r.pos)
      && (r.Failure? ==> ps[|st| - 1](s, st[|st| - 1]).Failure?)
  {
    ForceCollectInOrder(ps, s, i);
  }

  /** The k-th parser that got its turn succeeded from the k-th stop and ended at the next one,
      with the k-th result. */
  lemma {:induction false} ForceCollectStep<T>(ps: seq<Parser<T>>, s: string, i: nat, k: nat)
    requires k < |ps| && k + 1 < |Stops(ps, s, i)|
    ensures var r := ForceCollect(ps, s, i); var st := Stops(ps, s, i);
      && ps[k](s, st[k]).Success? && ps[k](s, st[k]).pos == st[k + 1]
      && (r.Success? ==> ps[k](s, st[k]).value == r.value[k])
  {
    ForceCollectInOrder(ps, s, i);
  }

  /** There is one stop more than the parsers that got their turn, the first at `i`. */
  lemma {:induction false} StopsLength<T>(ps: seq<Parser<T>>, s: string, i: nat)
    ensures 1 <= |Stops(ps, s, i)| <= |ps| + 1 && Stops(ps, s, i)[0] == i
    decreases |ps|
  {
    if ps != [] {
      match ps[0](s, i)
      case Failure(_) =>
      case Success(_, j) =>
        StopsLength(ps[1..], s, j);
    }
  }

  /** Once the k-th parser has had its turn, there is a next stop exactly when it succeeded, and
      that stop is where it ended. */
  lemma {:induction false} ForceCollectNext<T>(ps: seq<Parser<T>>, s: string, i: nat, k: nat)
    requires k < |ps| && k < |Stops(ps, s, i)|
    ensures var st := Stops(ps, s, i);
      && (k + 1 < |st| <==> ps[k](s, st[k]).Success?)
      && (k + 1 < |st| ==> st[k + 1] == ps[k](s, st[k]).pos)
  {
    ForceCollectInOrder(ps, s, i);
  }

  /** Conversely, when each parser succeeds where the previous one stopped, forceCollect returns
      their results in order and ends where the last one did. */
  lemma {:induction false} ForceCollectAll<T>(ps: seq<Parser<T>>, s: string, st: seq<nat>, vs: seq<T>)
    requires |vs| == |ps| && |st| == |ps| + 1
    requires forall k :: 0 <= k < |ps| ==> ps[k](s, st[k]) == Success(vs[k], st[k + 1])
    ensures ForceCollect(ps, s, st[0]) == Success(vs, st[|ps|])
    decreases |ps|
  {
    if ps != [] {
      ForceCollectAll(ps[1..], s, st[1..], vs[1..]);
      assert [vs[0]] + vs[1..] == vs;
    }
  }

  /** ... and when a parser fails after the ones before it succeeded, forceCollect fails with the
      cursor back where it started. */
  lemma {:induction false} ForceCollectFails<T>(ps: seq<Parser<T>>, s: string, st: seq<nat>, vs: seq<T>)
    requires 1 <= |st| <= |ps| && |vs| == |st| - 1
    requires forall k :: 0 <= k < |st| - 1 ==> ps[k](s, st[k]) == Success(vs[k], st[k + 1])
    requires ps[|st| - 1](s, st[|st| - 1]).Failure?
    ensures ForceCollect(ps, s, st[0]) == Failure(st[0])
    decreases |ps|
  {
    if |st| > 1 {
      ForceCollectFails(ps[1..], s, st[1..], vs[1..]);
    }
  }

  /** When every parser moves forward, so do the stops of forceCollect, and forceCollect itself. */
  lemma {:induction false} ForceCollectMoves<T>(ps: seq<Parser<T>>, s: string, i: nat)
    requires AllForward(ps, s)
    ensures var r := ForceCollect(ps, s, i); var st := Stops(ps, s, i);
      && Moves(r, i, s)
      && (forall a, b :: 0 <= a <= b < |st| ==> st[a] <= st[b] && (st[a] <= |s| ==> st[b] <= |s|))
    decreases |ps|
  {
    if ps != [] {
      assert Forward(ps[0], s);
      assert Moves(ps[0](s, i), i, s);
      match ps[0](s, i)
      case Failure(_) =>
      case Success(v, j) =>
        assert AllForward(ps[1..], s) by {
          forall k | 0 <= k < |ps[1..]| ensures Forward(ps[1..][k], s) {
            assert ps[1..][k] == ps[k + 1];
          }
        }
        ForceCollectMoves(ps[1..], s, j);
        ForceCollectInOrder(ps[1..], s, j);
        ForceCollectInOrder(ps, s, i);
        assert Stops(ps, s, i) == [i] + Stops(ps[1..], s, j);
    }
  }

  /** forceCollect consumes input when one of its parsers always does. */
  lemma {:induction false} ForceCollectAdvances<T>(ps: seq<Parser<T>>, s: string, i: nat, k: nat)
    requires AllForward(ps, s) && k < |ps| && Advances(ps[k], s)
    ensures var r := ForceCollect(ps, s, i); r.Success? ==> i < r.pos <= |s|
  {
    ForceCollectInOrder(ps, s, i);
    ForceCollectMoves(ps, s, i);
    var r := ForceCollect(ps, s, i);
    var st := Stops(ps, s, i);
    if r.Success? {
      assert ps[k](s, st[k]).Success?;
      assert st[k] < st[k + 1] <= |s|;
      assert st[0] <= st[k] && st[k + 1] <= st[|ps|];
    }
  }

  // ---------------------------------------------------------------------------------------------
  // The type assertions of the grammar rules hold

  lemma {:induction false} ReplFactorShape(s: string, i: nat)
    ensures var out := ForceCollect(ReplFactorParts(), s, i);
      && Moves(out, i, s)
      && (out.Success? ==> out.value[3].Count?)
  {
    var ps := ReplFactorParts();
    KeywordMoves("RF", s);
    assert AllForward(ps, s);
    ForceCollectMoves(ps, s, i);
    ForceCollectInOrder(ps, s, i);
  }

  lemma {:induction false} FilterRowShape(s: string, i: nat)
    ensures var out := ForceCollect(FilterRowParts(), s, i);
      && Moves(out, i, s)
      && (out.Success? ==> i < out.pos <= |s| && IsFilterRow(List(out.value)))
  {
    var ps := FilterRowParts();
    assert AllForward(ps, s);
    ForceCollectMoves(ps, s, i);
    ForceCollectAdvances(ps, s, i, 0);
    if ForceCollect(ps, s, i).Success? {
      FilterRowItems(s, i);
    }
  }

  /** A filter row collects a key, an operation and a value, in that order. */
  lemma {:induction false} FilterRowItems(s: string, i: nat)
    requires ForceCollect(FilterRowParts(), s, i).Success?
    ensures IsFilterRow(List(ForceCollect(FilterRowParts(), s, i).value))
  {
    var ps := FilterRowParts();
    var out := ForceCollect(ps, s, i);
    ForceCollectEnd(ps, s, i);
    var st := Stops(ps, s, i);
    ForceCollectStep(ps, s, i, 1);
    assert StringItem(s, st[1]) == Success(out.value[1], st[2]);
    ForceCollectStep(ps, s, i, 3);
    assert OperationItem(s, st[3]) == Success(out.value[3], st[4]);
    ForceCollectStep(ps, s, i, 5);
    assert StringItem(s, st[5]) == Success(out.value[5], st[6]);
  }

  lemma {:induction false} FilterGroupShape(s: string, i: nat)
    ensures var out := ForceCollect(FilterGroupParts(), s, i);
      && Moves(out, i, s)
      && (out.Success? ==> i < out.pos <= |s|)
      && (out.Success? ==> out.value[1].List? && |out.value[1].items| >= 1
                           && AllRows(out.value[1].items, IsFilterRow))
  {
    var ps := FilterGroupParts();
    KeywordMoves("FILTER", s);
    assert AllForward(ps, s);
    ForceCollectMoves(ps, s, i);
    ForceCollectAdvances(ps, s, i, 0);
    ForceCollectInOrder(ps, s, i);
  }

  lemma {:induction false} SelectorShape(s: string, i: nat)
    ensures var out := ForceCollect(SelectorParts(), s, i);
      && Moves(out, i, s)
      && (out.Success? ==> i < out.pos <= |s| && IsSelectorRow(List(out.value)))
  {
    var ps := SelectorParts();
    assert AllForward(ps, s);
    ForceCollectMoves(ps, s, i);
    ForceCollectInOrder(ps, s, i);
    ForceCollectAdvances(ps, s, i, 0);
  }

  lemma {:induction false} FilterClauseShape(s: string, i: nat)
    ensures var out := ForceCollect(FilterClauseParts(), s, i);
      && Moves(out, i, s)
      && (out.Success? ==> IsFilterClause(List(out.value)))
  {
    var ps := FilterClauseParts();
    assert AllForward(ps, s);
    ForceCollectMoves(ps, s, i);
    ForceCollectInOrder(ps, s, i);
  }

  lemma {:induction false} SfGroupShape(s: string, i: nat)
    ensures var out := ForceCollect(SfGroupParts(), s, i);
      && Moves(out, i, s)
      && (out.Success? ==> i < out.pos <= |s|)
      && (out.Success? ==> && out.value[2].List? && |out.value[2].items| >= 1
                           && AllRows(out.value[2].items, IsSelectorRow)
                           && (out.value[3] == Nil || IsFilterClause(out.value[3])))
  {
    var ps := SfGroupParts();
    KeywordMoves("SELECT", s);
    assert AllForward(ps, s);
    ForceCollectMoves(ps, s, i);
    ForceCollectAdvances(ps, s, i, 1);
    var out := ForceCollect(ps, s, i);
    if out.Success? {
      ForceCollectInOrder(ps, s, i);
      var st := Stops(ps, s, i);
      assert SelectorsItem(s, st[2]) == Success(out.value[2], st[3]);
      assert OptFilterClauseItem(s, st[3]) == Success(out.value[3], st[4]);
    }
  }

  lemma {:induction false} UnionRowShape(s: string, i: nat)
    ensures var out := ForceCollect(UnionRowParts(), s, i);
      && Moves(out, i, s)
      && (out.Success? ==> i < out.pos <= |s| && IsUnionRow(List(out.value)))
  {
    var ps := UnionRowParts();
    KeywordMoves(";", s);
    assert AllForward(ps, s);
    ForceCollectMoves(ps, s, i);
    ForceCollectInOrder(ps, s, i);
    assert Advances(ps[1], s);
    ForceCollectAdvances(ps, s, i, 1);
  }

  lemma {:induction false} SfUnionShape(s: string, i: nat)
    ensures var out := ForceCollect(SfUnionParts(), s, i);
      && Moves(out, i, s)
      && (out.Success? ==> out.value[0].Group? && out.value[1].List?
                           && AllRows(out.value[1].items, IsUnionRow))
  {
    var ps := SfUnionParts();
    assert AllForward(ps, s);
    ForceCollectMoves(ps, s, i);
    ForceCollectInOrder(ps, s, i);
  }

  lemma {:induction false} RuleShape(s: string, i: nat)
    ensures var out := ForceCollect(RuleParts(), s, i);
      && Moves(out, i, s)
      && (out.Success? ==> (out.value[0] == Nil || out.value[0].Count?) && out.value[1].Groups?)
      && (out.Success? ==> |out.value[1].groups| >= 1 && out.pos == |s|)
  {
    var ps := RuleParts();
    assert AllForward(ps, s);
    ForceCollectMoves(ps, s, i);
    ForceCollectInOrder(ps, s, i);
  }
}
