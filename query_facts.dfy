/** What the parser promises, stated against definitions that do not share its code: the decimal
    value of a digit string, the spellings of each operation, and a direct reading of the grammar
    rules. */
module QueryFacts {
  import opened Parsec
  import opened Netmap
  import opened Query

  // ---------------------------------------------------------------------------------------------
  // The operator table

  /** The mnemonic spelling of each operation. */
  function Mnemonic(op: Operation): string {
    match op
    case EQ => "EQ"
    case NE => "NE"
    case LT => "LT"
    case LE => "LE"
    case GT => "GT"
    case GE => "GE"
  }

  /** The symbolic spelling of each operation. */
  function Symbol(op: Operation): string {
    match op
    case EQ => "="
    case NE => "!="
    case LT => "<"
    case LE => "<="
    case GT => ">"
    case GE => ">="
  }

  /** The table holds exactly the two spellings of each operation, and maps both back to it. */
  lemma OperatorTable(t: string)
    ensures t in StrToOp <==> exists op :: t == Mnemonic(op) || t == Symbol(op)
    ensures forall op :: Mnemonic(op) in StrToOp && StrToOp[Mnemonic(op)] == op
    ensures forall op :: Symbol(op) in StrToOp && StrToOp[Symbol(op)] == op
  {
    if t in StrToOp {
      var op := StrToOp[t];
      assert t == Mnemonic(op) || t == Symbol(op);
    }
  }

  /** parseOperation reads a whole token, up to the first whitespace or the end of input, and
      succeeds exactly when that token is in the table. Either way the cursor ends after the token:
      an unknown operation is not put back. */
  lemma ParseOperationToken(t: string, rest: string)
    requires |t| > 0 && forall k :: 0 <= k < |t| ==> IsNonSpace(t[k])
    requires rest == [] || IsSpace(rest[0])
    ensures var r := ParseOperation(t + rest, 0);
      && r.pos == |t|
      && (r.Success? <==> t in StrToOp)
      && (r.Success? ==> r.value == StrToOp[t])
  {
    var s := t + rest;
    assert forall k :: 0 <= k < |t| ==> s[k] == t[k];
    assert rest != [] ==> s[|t|] == rest[0];
    assert s[0..|t|] == t;
  }

  /** Every spelling in the table parses to its operation. */
  lemma ParseOperationSpellings(op: Operation)
    ensures ParseOperation(Mnemonic(op), 0) == Success(op, |Mnemonic(op)|)
    ensures ParseOperation(Symbol(op), 0) == Success(op, |Symbol(op)|)
  {
    OperatorTable(Mnemonic(op));
    assert Mnemonic(op) + [] == Mnemonic(op);
    ParseOperationToken(Mnemonic(op), []);
    assert Symbol(op) + [] == Symbol(op);
    ParseOperationToken(Symbol(op), []);
  }

  /** A whole input that is not in the table fails, with the cursor after it. */
  lemma ParseOperationUnknown(t: string)
    requires |t| > 0 && forall k :: 0 <= k < |t| ==> IsNonSpace(t[k])
    requires t !in StrToOp
    ensures ParseOperation(t, 0) == Failure(|t|)
  {
    assert t + [] == t;
    ParseOperationToken(t, []);
  }

  /** Near misses fail, and leave the cursor after the token they read. */
  lemma ParseOperationRejects()
    ensures ParseOperation("EE", 0) == Failure(2)
    ensures ParseOperation(">>", 0) == Failure(2)
    ensures ParseOperation("===", 0) == Failure(3)
  {
    ParseOperationUnknown("EE");
    ParseOperationUnknown(">>");
    ParseOperationUnknown("===");
  }

  // ---------------------------------------------------------------------------------------------
  // Numbers

  function DigitChar(d: nat): char
    requires d < 10
  {
    ('0' as int + d) as char
  }

  /** The decimal rendering of `n`, as strconv.FormatInt writes it. */
  function Decimal(n: nat): string
    decreases n
  {
    if n < 10 then [DigitChar(n)] else Decimal(n / 10) + [DigitChar(n % 10)]
  }

  lemma {:induction false} DecimalDigits(n: nat)
    ensures |Decimal(n)| >= 1 && AllDigits(Decimal(n)) && DecimalValue(Decimal(n)) == n
    decreases n
  {
    if n >= 10 {
      DecimalDigits(n / 10);
      var ds := Decimal(n);
      assert ds[..|ds| - 1] == Decimal(n / 10);
    }
  }

  /** parseNumber reads back the decimal rendering of any number, modulo 2^32, stopping at the
      first character that is not a digit. */
  lemma {:induction false} ParseNumberDigits(ds: string, rest: string)
    requires |ds| >= 1 && AllDigits(ds)
    requires rest == [] || !IsDigit(rest[0])
    ensures ParseNumber(ds + rest, 0) == Success((DecimalValue(ds) % Uint32Modulus) as uint32, |ds|)
  {
    var s := ds + rest;
    assert forall k :: 0 <= k < |ds| ==> s[k] == ds[k];
    assert rest != [] ==> s[|ds|] == rest[0];
    assert s[0..|ds|] == ds;
  }

  lemma {:induction false} ParseNumberDecimal(n: nat, rest: string)
    requires rest == [] || !IsDigit(rest[0])
    ensures ParseNumber(Decimal(n) + rest, 0) == Success((n % Uint32Modulus) as uint32, |Decimal(n)|)
  {
    DecimalDigits(n);
    ParseNumberDigits(Decimal(n), rest);
  }

  /** Every uint32 round-trips through its decimal rendering. */
  lemma ParseNumberRoundTrip(n: uint32)
    ensures ParseNumber(Decimal(n as nat), 0) == Success(n, |Decimal(n as nat)|)
  {
    assert Decimal(n as nat) + [] == Decimal(n as nat);
    assert (n as nat) % Uint32Modulus == n as nat;
    ParseNumberDecimal(n as nat, []);
  }

  /** One more than the largest uint32 wraps around to zero. */
  lemma ParseNumberWraps()
    ensures ParseNumber("4294967296", 0) == Success(0, 10)
  {
    assert Decimal(4) == "4";
    assert Decimal(42) == "42";
    assert Decimal(429) == "429";
    assert Decimal(4294) == "4294";
    assert Decimal(42949) == "42949";
    assert Decimal(429496) == "429496";
    assert Decimal(4294967) == "4294967";
    assert Decimal(42949672) == "42949672";
    assert Decimal(429496729) == "429496729";
    assert Decimal(4294967296) == "4294967296";
    assert Decimal(4294967296) + [] == Decimal(4294967296);
    ParseNumberDecimal(4294967296, []);
  }

  // ---------------------------------------------------------------------------------------------
  // Whitespace and keywords

  /** The first position at or after `j` that does not hold whitespace. */
  function SkipSpace(s: string, j: nat): (k: nat)
    ensures j <= k && (j <= |s| ==> k <= |s|)
    ensures k < |s| ==> !IsSpace(s[k])
    decreases |s| - j
  {
    if j < |s| && IsSpace(s[j]) then SkipSpace(s, j + 1) else j
  }

  // The token readings below follow SkipSpace: each is a first-order recursion over the string,
  // and each is shown equal to the corresponding parser of the Query module.

  /** The first position at or after `j` that does not hold a digit. */
  function SkipDigits(s: string, j: nat): (k: nat)
    ensures j <= k && (j <= |s| ==> k <= |s|)
    decreases |s| - j
  {
    if j < |s| && IsDigit(s[j]) then SkipDigits(s, j + 1) else j
  }

  /** The first position at or after `j` that holds neither a letter nor a digit. */
  function SkipIdent(s: string, j: nat): (k: nat)
    ensures j <= k && (j <= |s| ==> k <= |s|)
    decreases |s| - j
  {
    if j < |s| && IsIdentChar(s[j]) then SkipIdent(s, j + 1) else j
  }

  /** The first position at or after `j` that holds whitespace. */
  function SkipNonSpace(s: string, j: nat): (k: nat)
    ensures j <= k && (j <= |s| ==> k <= |s|)
    decreases |s| - j
  {
    if j < |s| && IsNonSpace(s[j]) then SkipNonSpace(s, j + 1) else j
  }

  lemma {:induction false} SkipDigitsAll(s: string, j: nat)
    requires j <= |s|
    ensures AllDigits(s[j..SkipDigits(s, j)])
    decreases |s| - j
  {
    if j < |s| && IsDigit(s[j]) {
      SkipDigitsAll(s, j + 1);
      assert s[j..SkipDigits(s, j)] == [s[j]] + s[j + 1..SkipDigits(s, j + 1)];
    }
  }

  /** A number read directly: the value of the digits up to the first non-digit. */
  function NumberAt(s: string, i: nat): (r: Reply<uint32>)
  {
    if i < |s| && IsDigit(s[i]) then
      SkipDigitsAll(s, i);
      Success(FoldDigits(s[i..SkipDigits(s, i)]), SkipDigits(s, i))
    else Failure(i)
  }

  /** A key read directly: the letters and digits up to the first other character. */
  function IdentAt(s: string, i: nat): (r: Reply<string>)
  {
    if i < |s| && IsIdentChar(s[i]) then Success(s[i..SkipIdent(s, i)], SkipIdent(s, i)) else Failure(i)
  }

  /** An operation read directly: the characters up to the next whitespace, looked up in the
      operator table; an unknown token fails after it. */
  function OperationAt(s: string, i: nat): (r: Reply<Operation>)
  {
    if i < |s| && IsNonSpace(s[i]) then
      if s[i..SkipNonSpace(s, i)] in StrToOp then Success(StrToOp[s[i..SkipNonSpace(s, i)]], SkipNonSpace(s, i))
      else Failure(SkipNonSpace(s, i))
    else Failure(i)
  }

  lemma {:induction false} SkipDigitsMaximal(s: string, j: nat, k: nat)
    requires MaximalRun(IsDigit, s, j, k)
    ensures k == SkipDigits(s, j)
    decreases |s| - j
  {
    if j < k {
      SkipDigitsMaximal(s, j + 1, k);
    }
  }

  lemma {:induction false} SkipIdentMaximal(s: string, j: nat, k: nat)
    requires MaximalRun(IsIdentChar, s, j, k)
    ensures k == SkipIdent(s, j)
    decreases |s| - j
  {
    if j < k {
      SkipIdentMaximal(s, j + 1, k);
    }
  }

  lemma {:induction false} SkipNonSpaceMaximal(s: string, j: nat, k: nat)
    requires MaximalRun(IsNonSpace, s, j, k)
    ensures k == SkipNonSpace(s, j)
    decreases |s| - j
  {
    if j < k {
      SkipNonSpaceMaximal(s, j + 1, k);
    }
  }

  /** parseNumber reads exactly the number read directly. */
  lemma NumberAtParse(s: string, i: nat)
    ensures ParseNumber(s, i) == NumberAt(s, i)
  {
    var r := ParseNumber(s, i);
    if r.Success? {
      SkipDigitsMaximal(s, i, r.pos);
    }
  }

  /** parseString reads exactly the key read directly. */
  lemma IdentAtParse(s: string, i: nat)
    ensures ParseString(s, i) == IdentAt(s, i)
  {
    var r := ParseString(s, i);
    if r.Success? {
      SkipIdentMaximal(s, i, r.pos);
    }
  }

  /** parseOperation reads exactly the operation read directly, and fails at the same place. */
  lemma OperationAtParse(s: string, i: nat)
    ensures ParseOperation(s, i) == OperationAt(s, i)
  {
    var r := ParseOperation(s, i);
    if i < |s| && IsNonSpace(s[i]) {
      SkipNonSpaceMaximal(s, i, r.pos);
    }
  }

  lemma {:induction false} SkipSpaceMaximal(s: string, j: nat, k: nat)
    requires MaximalRun(IsSpace, s, j, k)
    ensures k == SkipSpace(s, j)
    decreases |s| - j
  {
    if j < k {
      SkipSpaceMaximal(s, j + 1, k);
    }
  }

  /** ws skips all the whitespace at the cursor. */
  lemma {:induction false} WsSkips(s: string, j: nat)
    ensures Ws(s, j).pos == SkipSpace(s, j)
  {
    if j <= |s| {
      ManySatisfy(IsSpace, s, j);
      SkipSpaceMaximal(s, j, Ws(s, j).pos);
    }
  }

  /** ws1 fails unless the cursor is on whitespace, and otherwise skips all of it. */
  lemma {:induction false} Ws1Skips(s: string, j: nat)
    ensures Ws1(s, j).Success? <==> j < |s| && IsSpace(s[j])
    ensures Ws1(s, j).Success? ==> Ws1(s, j).pos == SkipSpace(s, j)
  {
    Many1Satisfy(IsSpace, s, j);
    if Ws1(s, j).Success? {
      SkipSpaceMaximal(s, j, Ws1(s, j).pos);
    }
  }

  /** A keyword matches exactly its own characters at the cursor. */
  lemma KeywordAt(word: string, s: string, j: nat)
    ensures Keyword(word)(s, j) ==
      if j + |word| <= |s| && s[j..j + |word|] == word then Success(Text(word), j + |word|) else Failure(j)
  {
    var l := Literal(word)(s, j);
    assert l == if j + |word| <= |s| && s[j..j + |word|] == word then Success(word, j + |word|) else Failure(j);
  }

  // ---------------------------------------------------------------------------------------------
  // The replication factor

  /** replFactor read directly: optional whitespace, the letters RF, at least one whitespace
      character, more optional whitespace and a number. A failure consumes nothing. */
  function ReplFactorSpec(s: string, i: nat): Reply<uint32> {
    var a := SkipSpace(s, i);
    if a + 2 < |s| && s[a] == 'R' && s[a + 1] == 'F' && IsSpace(s[a + 2]) then
      match NumberAt(s, SkipSpace(s, a + 2))
      case Success(n, j) => Success(n, j)
      case Failure(_) => Failure(i)
    else Failure(i)
  }

  // The stops of replFactor's forceCollect: after the whitespace, after RF, after the
  // whitespace that must follow it, and after the number.

  /** replFactor's forceCollect gets past "RF" exactly when RF follows the leading whitespace. */
  lemma {:induction false} ReplFactorKeyword(s: string, i: nat)
    ensures var st := Stops(ReplFactorParts(), s, i); var a := SkipSpace(s, i);
      && |st| >= 2 && st[1] == a
      && (|st| >= 3 <==> a + 2 <= |s| && s[a] == 'R' && s[a + 1] == 'F')
      && (|st| >= 3 ==> st[2] == a + 2)
  {
    var ps := ReplFactorParts();
    ForceCollectEnd(ps, s, i);
    var st := Stops(ps, s, i);
    var a := SkipSpace(s, i);
    WsSkips(s, i);
    assert |st| >= 2;
    ForceCollectStep(ps, s, i, 0);
    KeywordRF(s, a);
    if |st| >= 3 {
      ForceCollectStep(ps, s, i, 1);
    }
  }

  lemma KeywordRF(s: string, a: nat)
    ensures Keyword("RF")(s, a).Success? <==> a + 2 <= |s| && s[a] == 'R' && s[a + 1] == 'F'
    ensures Keyword("RF")(s, a).Success? ==> Keyword("RF")(s, a).pos == a + 2
  {
    KeywordAt("RF", s, a);
    assert a + 2 <= |s| ==> (s[a..a + 2] == "RF" <==> s[a] == 'R' && s[a + 1] == 'F');
  }

  /** ... then gets past the whitespace after RF exactly when there is some. */
  lemma ReplFactorSpace(s: string, i: nat)
    ensures var st := Stops(ReplFactorParts(), s, i); var a := SkipSpace(s, i);
      && (|st| >= 4 <==> |st| >= 3 && a + 2 < |s| && IsSpace(s[a + 2]))
      && (|st| >= 4 ==> st[3] == SkipSpace(s, a + 2))
  {
    var ps := ReplFactorParts();
    ReplFactorKeyword(s, i);
    ForceCollectEnd(ps, s, i);
    var st := Stops(ps, s, i);
    var a := SkipSpace(s, i);
    Ws1Skips(s, a + 2);
    if |st| >= 4 {
      ForceCollectStep(ps, s, i, 2);
    }
  }

  /** ... and then succeeds exactly when a number follows, ending where it ends. */
  lemma {:induction false} ReplFactorNumber(s: string, i: nat)
    ensures var st := Stops(ReplFactorParts(), s, i); var r := ReplFactor(s, i);
      && (|st| == 5 <==> |st| >= 4 && ParseNumber(s, st[3]).Success?)
      && (r.Success? <==> |st| == 5)
      && (r.Success? ==> ParseNumber(s, st[3]).Success? && r.value == ParseNumber(s, st[3]).value
                         && r.pos == ParseNumber(s, st[3]).pos)
  {
    var ps := ReplFactorParts();
    var out := ForceCollect(ps, s, i);
    ForceCollectEnd(ps, s, i);
    var st := Stops(ps, s, i);
    if |st| == 5 {
      ForceCollectStep(ps, s, i, 3);
      assert NumberItem(s, st[3]) == Success(out.value[3], st[4]);
    }
  }

  lemma ReplFactorSteps(s: string, i: nat)
    ensures var r := ReplFactor(s, i);
      var a := SkipSpace(s, i);
      var b := SkipSpace(s, a + 2);
      var rf := a + 2 < |s| && s[a] == 'R' && s[a + 1] == 'F' && IsSpace(s[a + 2]);
      && (r.Success? <==> rf && ParseNumber(s, b).Success?)
      && (r.Success? ==> ParseNumber(s, b).Success? && r.value == ParseNumber(s, b).value
                         && r.pos == ParseNumber(s, b).pos)
  {
    ReplFactorKeyword(s, i);
    ReplFactorSpace(s, i);
    ReplFactorNumber(s, i);
  }

  lemma ReplFactorSpecCases(s: string, i: nat)
    ensures var a := SkipSpace(s, i);
      var n := ParseNumber(s, SkipSpace(s, a + 2));
      var rf := a + 2 < |s| && s[a] == 'R' && s[a + 1] == 'F' && IsSpace(s[a + 2]);
      ReplFactorSpec(s, i) == if rf && n.Success? then Success(n.value, n.pos) else Failure(i)
  {
    NumberAtParse(s, SkipSpace(s, SkipSpace(s, i) + 2));
  }

  lemma ReplFactorMeaning(s: string, i: nat)
    ensures ReplFactor(s, i) == ReplFactorSpec(s, i)
  {
    ReplFactorSteps(s, i);
    ReplFactorSpecCases(s, i);
  }

  // ---------------------------------------------------------------------------------------------
  // Selector rows, filter rows and groups

  /** A "count key" row read directly: at least one whitespace character, a number, at least one
      whitespace character and a key. A failure consumes nothing. */
  function SelectorRowSpec(s: string, j: nat): (r: Reply<Select>)
    ensures r.Failure? ==> r.pos == j
    ensures r.Success? ==> j < r.pos <= |s|
  {
    if j < |s| && IsSpace(s[j]) then
      match NumberAt(s, SkipSpace(s, j))
      case Failure(_) => Failure(j)
      case Success(n, b) =>
        if b < |s| && IsSpace(s[b]) then
          match IdentAt(s, SkipSpace(s, b))
          case Failure(_) => Failure(j)
          case Success(key, e) => Success(Select(key, n), e)
        else Failure(j)
    else Failure(j)
  }

  /** A "key operation value" row read directly: whitespace, a key, whitespace, an operation,
      whitespace and a value, each whitespace run non-empty. A failure consumes nothing, even when
      the operation was unknown. */
  function FilterRowSpec(s: string, j: nat): (r: Reply<Filter>)
    ensures r.Failure? ==> r.pos == j
    ensures r.Success? ==> j < r.pos <= |s|
  {
    if j < |s| && IsSpace(s[j]) then
      match IdentAt(s, SkipSpace(s, j))
      case Failure(_) => Failure(j)
      case Success(key, b) =>
        if b < |s| && IsSpace(s[b]) then
          match OperationAt(s, SkipSpace(s, b))
          case Failure(_) => Failure(j)
          case Success(op, c) =>
            if c < |s| && IsSpace(s[c]) then
              match IdentAt(s, SkipSpace(s, c))
              case Failure(_) => Failure(j)
              case Success(value, e) => Success(Filter(key, op, value), e)
            else Failure(j)
        else Failure(j)
    else Failure(j)
  }

  /** The selectors of the rows that follow one another from `j`, and where the last one ends. */
  function MoreSelectors(s: string, j: nat): (r: (seq<Select>, nat))
    ensures j <= r.1 && (j <= |s| ==> r.1 <= |s|)
    decreases |s| - j
  {
    match SelectorRowSpec(s, j)
    case Failure(_) => ([], j)
    case Success(x, e) =>
      var rest := MoreSelectors(s, e);
      ([x] + rest.0, rest.1)
  }

  /** The filters of the rows that follow one another from `j`, and where the last one ends. */
  function MoreFilters(s: string, j: nat): (r: (seq<Filter>, nat))
    ensures j <= r.1 && (j <= |s| ==> r.1 <= |s|)
    decreases |s| - j
  {
    match FilterRowSpec(s, j)
    case Failure(_) => ([], j)
    case Success(f, e) =>
      var rest := MoreFilters(s, e);
      ([f] + rest.0, rest.1)
  }

  /** One selector row or more, read directly. */
  function SelectorsSpec(s: string, j: nat): (r: Reply<seq<Select>>)
    ensures r.Failure? ==> r.pos == j
    ensures r.Success? ==> j < r.pos <= |s| && |r.value| >= 1
  {
    var (xs, e) := MoreSelectors(s, j);
    if |xs| == 0 then Failure(j) else Success(xs, e)
  }

  /** One filter row or more, read directly. */
  function FilterRowsSpec(s: string, j: nat): (r: Reply<seq<Filter>>)
    ensures r.Failure? ==> r.pos == j
    ensures r.Success? ==> j < r.pos <= |s| && |r.value| >= 1
  {
    var (fs, e) := MoreFilters(s, j);
    if |fs| == 0 then Failure(j) else Success(fs, e)
  }

  /** A FILTER clause read directly: the word FILTER, then one filter row or more. */
  function FilterGroupSpec(s: string, j: nat): (r: Reply<seq<Filter>>)
    ensures r.Failure? ==> r.pos == j
    ensures r.Success? ==> j < r.pos <= |s| && |r.value| >= 1
  {
    if j + 6 <= |s| && s[j..j + 6] == "FILTER" then
      match FilterRowsSpec(s, j + 6)
      case Failure(_) => Failure(j)
      case Success(fs, k) => Success(fs, k)
    else Failure(j)
  }

  /** What may follow the selectors of a group: at least one whitespace character and a FILTER
      clause. */
  function FilterClauseSpec(s: string, e: nat): (r: Reply<seq<Filter>>)
    ensures r.Failure? ==> r.pos == e
    ensures r.Success? ==> e < r.pos <= |s|
  {
    if e < |s| && IsSpace(s[e]) then
      match FilterGroupSpec(s, SkipSpace(s, e))
      case Failure(_) => Failure(e)
      case Success(fs, k) => Success(fs, k)
    else Failure(e)
  }

  /** A group read directly: optional whitespace, the word SELECT, the selector rows, and then a
      FILTER clause if one can be read there. A group without one has no filters. A failure
      consumes nothing. */
  function SfGroupSpec(s: string, i: nat): (r: Reply<SFGroup>)
    ensures r.Failure? ==> r.pos == i
    ensures r.Success? ==> i < r.pos <= |s| && |r.value.selectors| >= 1
  {
    var a := SkipSpace(s, i);
    if a + 6 <= |s| && s[a..a + 6] == "SELECT" then
      match SelectorsSpec(s, a + 6)
      case Failure(_) => Failure(i)
      case Success(xs, e) =>
        match FilterClauseSpec(s, e)
        case Success(fs, k) => Success(SFGroup(xs, fs), k)
        case Failure(_) => Success(SFGroup(xs, []), e)
    else Failure(i)
  }

  // An SF group read from `i`, case by case. Like the NextGroup lemmas further on, these speak
  // of the very positions SfGroupSpec computes, rather than of names for them.

  /** No SELECT where the whitespace ends: there is no group. */
  lemma {:induction false} GroupNoKeyword(s: string, i: nat)
    requires !(SkipSpace(s, i) + 6 <= |s| && s[SkipSpace(s, i)..SkipSpace(s, i) + 6] == "SELECT")
    ensures SfGroupSpec(s, i) == Failure(i)
  {
  }

  /** SELECT, but no selector row after it: there is no group. */
  lemma {:induction false} GroupNoSelectors(s: string, i: nat)
    requires SkipSpace(s, i) + 6 <= |s| && s[SkipSpace(s, i)..SkipSpace(s, i) + 6] == "SELECT"
    requires SelectorsSpec(s, SkipSpace(s, i) + 6).Failure?
    ensures SfGroupSpec(s, i) == Failure(i)
  {
  }

  /** SELECT, selectors `xs` up to `e` and the FILTER clause `fs` from `e` to `k`: the group has
      both and ends at `k`. */
  lemma {:induction false} GroupWithFilters(s: string, i: nat, xs: seq<Select>, e: nat, fs: seq<Filter>, k: nat)
    requires SkipSpace(s, i) + 6 <= |s| && s[SkipSpace(s, i)..SkipSpace(s, i) + 6] == "SELECT"
    requires SelectorsSpec(s, SkipSpace(s, i) + 6) == Success(xs, e)
    requires FilterClauseSpec(s, e) == Success(fs, k)
    ensures SfGroupSpec(s, i) == Success(SFGroup(xs, fs), k)
  {
  }

  /** SELECT and selectors `xs` up to `e`, with no FILTER clause at `e`: the group has no
      filters and ends at `e`. */
  lemma {:induction false} GroupWithoutFilters(s: string, i: nat, xs: seq<Select>, e: nat)
    requires SkipSpace(s, i) + 6 <= |s| && s[SkipSpace(s, i)..SkipSpace(s, i) + 6] == "SELECT"
    requires SelectorsSpec(s, SkipSpace(s, i) + 6) == Success(xs, e)
    requires FilterClauseSpec(s, e).Failure?
    ensures SfGroupSpec(s, i) == Success(SFGroup(xs, []), e)
  {
  }

  // The stops of a selector row's forceCollect: after the whitespace, after the number, after
  // the second whitespace and after the key.

  lemma {:induction false} SelectorRowNumber(s: string, j: nat)
    ensures var st := Stops(SelectorParts(), s, j);
      && |st| >= 1 && st[0] == j
      && (|st| >= 2 <==> j < |s| && IsSpace(s[j]))
      && (|st| >= 2 ==> st[1] == SkipSpace(s, j))
      && (|st| >= 3 <==> |st| >= 2 && ParseNumber(s, st[1]).Success?)
      && (|st| >= 3 ==> st[2] == ParseNumber(s, st[1]).pos)
  {
    var ps := SelectorParts();
    ForceCollectEnd(ps, s, j);
    ForceCollectNext(ps, s, j, 0);
    Ws1Skips(s, j);
    var st := Stops(ps, s, j);
    if |st| >= 2 {
      ForceCollectNext(ps, s, j, 1);
    }
  }

  lemma {:induction false} SelectorRowKey(s: string, j: nat)
    ensures var st := Stops(SelectorParts(), s, j);
      && (|st| >= 4 <==> |st| >= 3 && st[2] < |s| && IsSpace(s[st[2]]))
      && (|st| >= 4 ==> st[3] == SkipSpace(s, st[2]))
      && (|st| == 5 <==> |st| >= 4 && ParseString(s, st[3]).Success?)
      && (|st| == 5 ==> st[4] == ParseString(s, st[3]).pos)
  {
    var ps := SelectorParts();
    StopsLength(ps, s, j);
    var st := Stops(ps, s, j);
    if |st| >= 3 {
      ForceCollectNext(ps, s, j, 2);
      Ws1Skips(s, st[2]);
      if |st| >= 4 {
        ForceCollectNext(ps, s, j, 3);
      }
    }
  }

  /** A "count key" row agrees with its direct reading. */
  lemma SelectorRowMeaning(s: string, j: nat)
    ensures var r := SelectorItem(s, j); var d := SelectorRowSpec(s, j);
      && r.Success? == d.Success? && r.pos == d.pos
      && (r.Success? ==> SelectOf(r.value) == d.value)
  {
    var ps := SelectorParts();
    var out := ForceCollect(ps, s, j);
    assert SelectorItem(s, j) == AsList(out);
    SelectorRowNumber(s, j);
    SelectorRowKey(s, j);
    ForceCollectEnd(ps, s, j);
    var st := Stops(ps, s, j);
    if |st| >= 2 {
      NumberAtParse(s, st[1]);
    }
    if |st| >= 4 {
      IdentAtParse(s, st[3]);
    }
    if |st| == 5 {
      ForceCollectStep(ps, s, j, 1);
      ForceCollectStep(ps, s, j, 3);
      assert out.value[1] == Count(ParseNumber(s, st[1]).value);
      assert out.value[3] == Text(ParseString(s, st[3]).value);
    }
  }

  // The stops of a filter row's forceCollect: after each whitespace run and each token.

  lemma {:induction false} FilterRowKey(s: string, j: nat)
    ensures var st := Stops(FilterRowParts(), s, j);
      && |st| >= 1 && st[0] == j
      && (|st| >= 2 <==> j < |s| && IsSpace(s[j]))
      && (|st| >= 2 ==> st[1] == SkipSpace(s, j))
      && (|st| >= 3 <==> |st| >= 2 && ParseString(s, st[1]).Success?)
      && (|st| >= 3 ==> st[2] == ParseString(s, st[1]).pos)
  {
    var ps := FilterRowParts();
    ForceCollectEnd(ps, s, j);
    ForceCollectNext(ps, s, j, 0);
    Ws1Skips(s, j);
    var st := Stops(ps, s, j);
    if |st| >= 2 {
      ForceCollectNext(ps, s, j, 1);
    }
  }

  lemma {:induction false} FilterRowOperation(s: string, j: nat)
    ensures var st := Stops(FilterRowParts(), s, j);
      && (|st| >= 4 <==> |st| >= 3 && st[2] < |s| && IsSpace(s[st[2]]))
      && (|st| >= 4 ==> st[3] == SkipSpace(s, st[2]))
      && (|st| >= 5 <==> |st| >= 4 && ParseOperation(s, st[3]).Success?)
      && (|st| >= 5 ==> st[4] == ParseOperation(s, st[3]).pos)
  {
    var ps := FilterRowParts();
    var st := Stops(ps, s, j);
    if |st| >= 3 {
      ForceCollectNext(ps, s, j, 2);
      Ws1Skips(s, st[2]);
      if |st| >= 4 {
        ForceCollectNext(ps, s, j, 3);
      }
    }
  }

  lemma {:induction false} FilterRowValue(s: string, j: nat)
    ensures var st := Stops(FilterRowParts(), s, j);
      && (|st| >= 6 <==> |st| >= 5 && st[4] < |s| && IsSpace(s[st[4]]))
      && (|st| >= 6 ==> st[5] == SkipSpace(s, st[4]))
      && (|st| == 7 <==> |st| >= 6 && ParseString(s, st[5]).Success?)
      && (|st| == 7 ==> st[6] == ParseString(s, st[5]).pos)
  {
    var ps := FilterRowParts();
    StopsLength(ps, s, j);
    var st := Stops(ps, s, j);
    if |st| >= 5 {
      ForceCollectNext(ps, s, j, 4);
      Ws1Skips(s, st[4]);
      if |st| >= 6 {
        ForceCollectNext(ps, s, j, 5);
      }
    }
  }

  /** A "key operation value" row agrees with its direct reading. */
  lemma FilterRowMeaning(s: string, j: nat)
    ensures var r := FilterRowItem(s, j); var d := FilterRowSpec(s, j);
      && r.Success? == d.Success? && r.pos == d.pos
      && (r.Success? ==> FilterOf(r.value) == d.value)
  {
    var ps := FilterRowParts();
    var out := ForceCollect(ps, s, j);
    assert FilterRowItem(s, j) == AsList(out);
    FilterRowKey(s, j);
    FilterRowOperation(s, j);
    FilterRowValue(s, j);
    ForceCollectEnd(ps, s, j);
    var st := Stops(ps, s, j);
    if |st| >= 2 {
      IdentAtParse(s, st[1]);
    }
    if |st| >= 4 {
      OperationAtParse(s, st[3]);
    }
    if |st| >= 6 {
      IdentAtParse(s, st[5]);
    }
    if |st| == 7 {
      ForceCollectStep(ps, s, j, 1);
      ForceCollectStep(ps, s, j, 3);
      ForceCollectStep(ps, s, j, 5);
      assert out.value[1] == Text(ParseString(s, st[1]).value);
      assert out.value[3] == Op(ParseOperation(s, st[3]).value);
      assert out.value[5] == Text(ParseString(s, st[5]).value);
    }
  }

  lemma SelectsOfCons(row: Item, rows: seq<Item>)
    requires IsSelectorRow(row) && AllRows(rows, IsSelectorRow)
    ensures AllRows([row] + rows, IsSelectorRow)
    ensures SelectsOf([row] + rows) == [SelectOf(row)] + SelectsOf(rows)
  {
    assert forall k :: 0 <= k < |rows| ==> ([row] + rows)[k + 1] == rows[k];
  }

  lemma FiltersOfCons(row: Item, rows: seq<Item>)
    requires IsFilterRow(row) && AllRows(rows, IsFilterRow)
    ensures AllRows([row] + rows, IsFilterRow)
    ensures FiltersOf([row] + rows) == [FilterOf(row)] + FiltersOf(rows)
  {
    assert forall k :: 0 <= k < |rows| ==> ([row] + rows)[k + 1] == rows[k];
  }

  /** The rows Many gathers from `j` are the selectors that follow one another in the text, in
      order, and Many ends where the last of them ends. */
  lemma {:induction false} SelectorRowsMeaning(s: string, j: nat)
    ensures Advances(SelectorItem, s)
    ensures var m := Many(SelectorItem, s, j);
      && AllRows(m.value, IsSelectorRow)
      && SelectsOf(m.value) == MoreSelectors(s, j).0 && m.pos == MoreSelectors(s, j).1
    decreases |s| - j
  {
    assert Advances(SelectorItem, s);
    ManyYields(SelectorItem, s, j, IsSelectorRow);
    SelectorRowMeaning(s, j);
    var m := Many(SelectorItem, s, j);
    match SelectorItem(s, j)
    case Failure(k) =>
      assert m == Success([], j);
    case Success(v, e) =>
      SelectorRowsMeaning(s, e);
      var m' := Many(SelectorItem, s, e);
      assert m == Success([v] + m'.value, m'.pos);
      SelectsOfCons(v, m'.value);
      assert MoreSelectors(s, j) == ([SelectorRowSpec(s, j).value] + MoreSelectors(s, e).0, MoreSelectors(s, e).1);
  }

  /** The same for the rows of a FILTER clause. */
  lemma {:induction false} FilterRowsMeaning(s: string, j: nat)
    ensures Advances(FilterRowItem, s)
    ensures var m := Many(FilterRowItem, s, j);
      && AllRows(m.value, IsFilterRow)
      && FiltersOf(m.value) == MoreFilters(s, j).0 && m.pos == MoreFilters(s, j).1
    decreases |s| - j
  {
    assert Advances(FilterRowItem, s);
    ManyYields(FilterRowItem, s, j, IsFilterRow);
    FilterRowMeaning(s, j);
    var m := Many(FilterRowItem, s, j);
    match FilterRowItem(s, j)
    case Failure(k) =>
      assert m == Success([], j);
    case Success(v, e) =>
      FilterRowsMeaning(s, e);
      var m' := Many(FilterRowItem, s, e);
      assert m == Success([v] + m'.value, m'.pos);
      FiltersOfCons(v, m'.value);
      assert MoreFilters(s, j) == ([FilterRowSpec(s, j).value] + MoreFilters(s, e).0, MoreFilters(s, e).1);
  }

  /** The rows of a FILTER clause, read directly. */
  lemma FilterRowsItemMeaning(s: string, j: nat)
    ensures var r := FilterRowsItem(s, j); var d := FilterRowsSpec(s, j);
      && r.Success? == d.Success? && r.pos == d.pos
      && (r.Success? ==> FiltersOf(r.value.items) == d.value)
  {
    FilterRowMeaning(s, j);
    assert Advances(FilterRowItem, s);
    match FilterRowItem(s, j)
    case Failure(_) =>
    case Success(v, e) =>
      FilterRowsMeaning(s, e);
      var m := Many(FilterRowItem, s, e);
      assert FilterRowsItem(s, j) == Success(List([v] + m.value), m.pos);
      FiltersOfCons(v, m.value);
  }

  /** filterGroup agrees with its direct reading. */
  lemma FilterGroupMeaning(s: string, j: nat)
    ensures FilterGroup(s, j) == FilterGroupSpec(s, j)
  {
    var ps := FilterGroupParts();
    var out := ForceCollect(ps, s, j);
    ForceCollectEnd(ps, s, j);
    ForceCollectNext(ps, s, j, 0);
    KeywordAt("FILTER", s, j);
    var st := Stops(ps, s, j);
    if |st| >= 2 {
      assert st[1] == j + 6;
      ForceCollectNext(ps, s, j, 1);
      FilterRowsItemMeaning(s, j + 6);
      if |st| == 3 {
        ForceCollectStep(ps, s, j, 1);
      }
    }
  }

  /** The clause after the selectors agrees with its direct reading, and carries the filters as
      its second result. */
  lemma FilterClauseMeaning(s: string, e: nat)
    ensures var c := FilterClauseItem(s, e); var d := FilterClauseSpec(s, e);
      && c.Success? == d.Success? && c.pos == d.pos
      && (c.Success? ==> c.value.items[1] == Filters(d.value))
  {
    var ps := FilterClauseParts();
    var out := ForceCollect(ps, s, e);
    assert FilterClauseItem(s, e) == AsList(out);
    ForceCollectEnd(ps, s, e);
    ForceCollectNext(ps, s, e, 0);
    Ws1Skips(s, e);
    var st := Stops(ps, s, e);
    if |st| >= 2 {
      ForceCollectNext(ps, s, e, 1);
      FilterGroupMeaning(s, st[1]);
      if |st| == 3 {
        ForceCollectStep(ps, s, e, 1);
      }
    }
  }

  // The stops of a group's forceCollect: after the whitespace, after SELECT, after the
  // selectors, and after the optional FILTER clause.

  lemma {:induction false} SfGroupKeyword(s: string, i: nat)
    ensures var st := Stops(SfGroupParts(), s, i); var a := SkipSpace(s, i);
      && |st| >= 2 && st[1] == a
      && (|st| >= 3 <==> a + 6 <= |s| && s[a..a + 6] == "SELECT")
      && (|st| >= 3 ==> st[2] == a + 6)
  {
    var ps := SfGroupParts();
    ForceCollectEnd(ps, s, i);
    ForceCollectNext(ps, s, i, 0);
    WsSkips(s, i);
    var st := Stops(ps, s, i);
    ForceCollectNext(ps, s, i, 1);
    KeywordAt("SELECT", s, st[1]);
  }

  lemma {:induction false} SfGroupSelectors(s: string, i: nat)
    ensures var st := Stops(SfGroupParts(), s, i);
      && (|st| >= 4 <==> |st| >= 3 && SelectorsItem(s, st[2]).Success?)
      && (|st| >= 4 ==> st[3] == SelectorsItem(s, st[2]).pos)
  {
    var ps := SfGroupParts();
    StopsLength(ps, s, i);
    if |Stops(ps, s, i)| >= 3 {
      ForceCollectNext(ps, s, i, 2);
    }
  }

  lemma {:induction false} SfGroupClause(s: string, i: nat)
    ensures var st := Stops(SfGroupParts(), s, i);
      |st| >= 4 ==> |st| == 5 && st[4] == OptFilterClauseItem(s, st[3]).pos
  {
    var ps := SfGroupParts();
    StopsLength(ps, s, i);
    if |Stops(ps, s, i)| >= 4 {
      ForceCollectNext(ps, s, i, 3);
    }
  }

  /** The selector list after SELECT agrees with its direct reading. */
  lemma SelectorsMeaning(s: string, j: nat)
    ensures var r := SelectorsItem(s, j); var d := SelectorsSpec(s, j);
      && r.Success? == d.Success? && r.pos == d.pos
      && (r.Success? ==> SelectsOf(r.value.items) == d.value)
  {
    SelectorRowMeaning(s, j);
    assert Advances(SelectorItem, s);
    match SelectorItem(s, j)
    case Failure(_) =>
    case Success(v, e) =>
      SelectorRowsMeaning(s, e);
      var m := Many(SelectorItem, s, e);
      assert SelectorsItem(s, j) == Success(List([v] + m.value), m.pos);
      SelectsOfCons(v, m.value);
  }

  /** What sfGroup builds from the results of its forceCollect: the selectors of the rows, and the
      filters of the clause when there is one. */
  lemma {:induction false} SfGroupResults(s: string, i: nat)
    ensures var r := SfGroup(s, i); var st := Stops(SfGroupParts(), s, i);
      && (|st| < 4 ==> r == Failure(i))
      && (|st| >= 4 ==>
            && SelectorsItem(s, st[2]).Success? && r.Success?
            && r.value.selectors == SelectsOf(SelectorsItem(s, st[2]).value.items)
            && var c := FilterClauseItem(s, st[3]);
            && (c.Success? ==> r.value.filters == c.value.items[1].filters && r.pos == c.pos)
            && (c.Failure? ==> r.value.filters == [] && r.pos == st[3]))
  {
    var ps := SfGroupParts();
    var out := ForceCollect(ps, s, i);
    SfGroupSelectors(s, i);
    SfGroupClause(s, i);
    ForceCollectEnd(ps, s, i);
    var st := Stops(ps, s, i);
    if |st| >= 4 {
      ForceCollectStep(ps, s, i, 2);
      ForceCollectStep(ps, s, i, 3);
    }
  }

  /** sfGroup agrees with its direct reading: what its selectors and its filters are. */
  lemma SfGroupMeaning(s: string, i: nat)
    ensures SfGroup(s, i) == SfGroupSpec(s, i)
  {
    SfGroupKeyword(s, i);
    SfGroupSelectors(s, i);
    SfGroupClause(s, i);
    SfGroupResults(s, i);
    var st := Stops(SfGroupParts(), s, i);
    var a := SkipSpace(s, i);
    if |st| >= 3 {
      SelectorsMeaning(s, a + 6);
      if |st| >= 4 {
        FilterClauseMeaning(s, st[3]);
      }
    }
  }

  // ---------------------------------------------------------------------------------------------
  // The union of groups

  /** One "; SELECT ..." part read directly: optional whitespace, a semicolon, optional whitespace
      and a group. A failure consumes nothing. */
  function NextGroup(s: string, j: nat): (r: Reply<SFGroup>)
    ensures r.Failure? ==> r.pos == j
    ensures r.Success? ==> j < r.pos <= |s|
  {
    var a := SkipSpace(s, j);
    if a < |s| && s[a] == ';' then
      match SfGroupSpec(s, SkipSpace(s, a + 1))
      case Success(g, e) => Success(g, e)
      case Failure(_) => Failure(j)
    else Failure(j)
  }

  // A "; SELECT ..." part read from `j`, case by case. These three speak of the very positions
  // NextGroup computes, rather than of names for them: the solver then has nothing to equate.

  /** No semicolon where the whitespace ends: nothing is read. */
  lemma {:induction false} NextGroupNoSemicolon(s: string, j: nat)
    requires !(SkipSpace(s, j) < |s| && s[SkipSpace(s, j)] == ';')
    ensures NextGroup(s, j) == Failure(j)
  {
  }

  /** A semicolon, but no group after it: nothing is read. */
  lemma NextGroupNoGroup(s: string, j: nat)
    requires SkipSpace(s, j) < |s| && s[SkipSpace(s, j)] == ';'
    requires SfGroupSpec(s, SkipSpace(s, SkipSpace(s, j) + 1)).Failure?
    ensures NextGroup(s, j) == Failure(j)
  {
  }

  /** A semicolon and a group after it: the part is that group. */
  lemma NextGroupRead(s: string, j: nat, g: SFGroup, e: nat)
    requires SkipSpace(s, j) < |s| && s[SkipSpace(s, j)] == ';'
    requires SfGroupSpec(s, SkipSpace(s, SkipSpace(s, j) + 1)) == Success(g, e)
    ensures NextGroup(s, j) == Success(g, e)
  {
  }

  /** The groups of the "; SELECT ..." parts that follow one another from `j`, and where the last
      of them ends. */
  function MoreGroups(s: string, j: nat): (seq<SFGroup>, nat)
    decreases |s| - j
  {
    match NextGroup(s, j)
    case Failure(_) => ([], j)
    case Success(g, e) =>
      var rest := MoreGroups(s, e);
      ([g] + rest.0, rest.1)
  }

  /** sfUnion read directly: a group, the groups of the "; SELECT ..." parts after it, and then the
      end of the input. */
  function UnionSpec(s: string, i: nat): Reply<seq<SFGroup>> {
    match SfGroupSpec(s, i)
    case Failure(_) => Failure(i)
    case Success(g, j) =>
      var (gs, k) := MoreGroups(s, j);
      if k < |s| then Failure(k) else Success([g] + gs, k)
  }

  /** The forceCollect of a "; SELECT ..." part succeeds exactly when the semicolon is there and
      a group follows it, and then ends where the group ends. */
  lemma KeywordSemicolon(s: string, a: nat)
    ensures Keyword(";")(s, a).Success? <==> a < |s| && s[a] == ';'
    ensures Keyword(";")(s, a).Success? ==> Keyword(";")(s, a).pos == a + 1
  {
    KeywordAt(";", s, a);
    assert a + 1 <= |s| ==> (s[a..a + 1] == ";" <==> s[a] == ';');
  }

  /** The forceCollect of a "; SELECT ..." part gets past the semicolon exactly when one follows
      the whitespace, ... */
  lemma {:induction false} UnionRowSemicolon(s: string, j: nat)
    ensures var st := Stops(UnionRowParts(), s, j); var a := SkipSpace(s, j);
      && |st| >= 2 && st[1] == a
      && (|st| >= 3 <==> a < |s| && s[a] == ';')
      && (|st| >= 3 ==> st[2] == a + 1)
  {
    var ps := UnionRowParts();
    ForceCollectEnd(ps, s, j);
    var st := Stops(ps, s, j);
    var a := SkipSpace(s, j);
    WsSkips(s, j);
    assert |st| >= 2;
    ForceCollectStep(ps, s, j, 0);
    KeywordSemicolon(s, a);
    if |st| >= 3 {
      ForceCollectStep(ps, s, j, 1);
    }
  }

  /** ... and then on to the start of the group. */
  lemma {:induction false} UnionRowGroupStart(s: string, j: nat)
    ensures var st := Stops(UnionRowParts(), s, j);
      |st| >= 3 ==> |st| >= 4 && st[3] == SkipSpace(s, st[2])
  {
    var ps := UnionRowParts();
    ForceCollectEnd(ps, s, j);
    var st := Stops(ps, s, j);
    if |st| >= 3 {
      WsSkips(s, st[2]);
      assert |st| >= 4;
      ForceCollectStep(ps, s, j, 2);
    }
  }

  lemma UnionRowSteps(s: string, j: nat)
    ensures var u := UnionRowItem(s, j);
      var a := SkipSpace(s, j);
      var g := SfGroupItem(s, SkipSpace(s, a + 1));
      && (u.Success? <==> a < |s| && s[a] == ';' && g.Success?)
      && (u.Success? ==> g.Success? && u.pos == g.pos && u.value.items[3] == g.value)
  {
    assert UnionRowItem(s, j) == AsList(ForceCollect(UnionRowParts(), s, j));
    var ps := UnionRowParts();
    var out := ForceCollect(ps, s, j);
    ForceCollectEnd(ps, s, j);
    UnionRowSemicolon(s, j);
    UnionRowGroupStart(s, j);
    var st := Stops(ps, s, j);
    if |st| == 5 {
      ForceCollectStep(ps, s, j, 3);
      assert SfGroupItem(s, st[3]) == Success(out.value[3], st[4]);
    }
  }

  lemma UnionRowMeaning(s: string, j: nat)
    ensures var u := UnionRowItem(s, j); var n := NextGroup(s, j);
      && u.Success? == n.Success? && u.pos == n.pos
      && (u.Success? ==> u.value.items[3] == Group(n.value))
  {
    UnionRowSteps(s, j);
    var u := UnionRowItem(s, j);
    var a := SkipSpace(s, j);
    var b := SkipSpace(s, a + 1);
    var g := SfGroupItem(s, b);
    var sg := SfGroup(s, b);
    SfGroupMeaning(s, b);
    assert g.Success? == sg.Success? && g.pos == sg.pos;
    if !(a < |s| && s[a] == ';') || sg.Failure? {
      assert u.Failure? && u.pos == j;
      assert NextGroup(s, j) == Failure(j);
    } else {
      assert g.value == Group(sg.value);
      assert NextGroup(s, j) == Success(sg.value, sg.pos);
    }
  }

  lemma GroupsOfCons(row: Item, rows: seq<Item>)
    requires IsUnionRow(row) && AllRows(rows, IsUnionRow)
    ensures AllRows([row] + rows, IsUnionRow)
    ensures GroupsOf([row] + rows) == [row.items[3].group] + GroupsOf(rows)
  {
    assert forall k :: 0 <= k < |rows| ==> ([row] + rows)[k + 1] == rows[k];
  }

  lemma {:induction false} UnionRowsMeaning(s: string, j: nat)
    ensures var u := UnionRowsItem(s, j);
      GroupsOf(u.value.items) == MoreGroups(s, j).0 && u.pos == MoreGroups(s, j).1
    decreases |s| - j
  {
    assert Advances(UnionRowItem, s);
    UnionRowMeaning(s, j);
    var m := Many(UnionRowItem, s, j);
    assert UnionRowsItem(s, j) == Success(List(m.value), m.pos);
    match UnionRowItem(s, j)
    case Failure(k) =>
      assert m == Success([], j);
    case Success(v, e) =>
      UnionRowsMeaning(s, e);
      var m' := Many(UnionRowItem, s, e);
      assert UnionRowsItem(s, e) == Success(List(m'.value), m'.pos);
      assert m == Success([v] + m'.value, m'.pos);
      GroupsOfCons(v, m'.value);
      assert MoreGroups(s, j) == ([NextGroup(s, j).value] + MoreGroups(s, e).0, MoreGroups(s, e).1);
  }

  lemma SfUnionMeaning(s: string, i: nat)
    ensures SfUnion(s, i) == UnionSpec(s, i)
  {
    var ps := SfUnionParts();
    ForceCollectInOrder(ps, s, i);
    var st := Stops(ps, s, i);
    SfGroupMeaning(s, i);
    if SfGroup(s, i).Success? {
      var j := SfGroup(s, i).pos;
      assert |st| > 1 && st[1] == j;
      UnionRowsMeaning(s, j);
      assert |st| == 3;
    }
  }

  // ---------------------------------------------------------------------------------------------
  // Selectors and filters keep their textual order

  /** The k-th selector of a group is the "count key" row read at the k-th stop of the selector
      list, which starts after SELECT. */
  lemma {:induction false} SfGroupSelectorsInOrder(s: string, i: nat)
    ensures var r := SfGroup(s, i); var st := Stops(SfGroupParts(), s, i);
      r.Success? ==>
        && |st| == 5 && Advances(SelectorItem, s)
        && var ms := ManyStops(SelectorItem, s, st[2]);
        && |ms| == |r.value.selectors| + 1 && ms[0] == st[2]
        && forall k :: 0 <= k < |r.value.selectors| ==>
             && SelectorItem(s, ms[k]).Success? && SelectorItem(s, ms[k]).pos == ms[k + 1]
             && r.value.selectors[k] == SelectOf(SelectorItem(s, ms[k]).value)
  {
    var ps := SfGroupParts();
    var out := ForceCollect(ps, s, i);
    if out.Success? {
      ForceCollectEnd(ps, s, i);
      var st := Stops(ps, s, i);
      ForceCollectStep(ps, s, i, 2);
      assert Advances(SelectorItem, s);
      assert SelectorsItem(s, st[2]) == Success(out.value[2], st[3]);
      Many1IsMany(SelectorItem, s, st[2]);
      ManyInOrder(SelectorItem, s, st[2]);
      var rows := out.value[2].items;
      assert Many(SelectorItem, s, st[2]).value == rows;
      var ss := SfGroup(s, i).value.selectors;
      assert ss == SelectsOf(rows);
      var ms := ManyStops(SelectorItem, s, st[2]);
      forall k | 0 <= k < |ss|
        ensures SelectorItem(s, ms[k]).Success? && SelectorItem(s, ms[k]).pos == ms[k + 1]
        ensures ss[k] == SelectOf(SelectorItem(s, ms[k]).value)
      {
        assert SelectorItem(s, ms[k]) == Success(rows[k], ms[k + 1]);
      }
    }
  }

  /** The k-th filter of a FILTER clause is the "key operation value" row read at the k-th stop
      of the row list, which starts after FILTER. */
  lemma {:induction false} FilterGroupInOrder(s: string, i: nat)
    ensures var r := FilterGroup(s, i); var st := Stops(FilterGroupParts(), s, i);
      r.Success? ==>
        && |st| == 3 && Advances(FilterRowItem, s)
        && var ms := ManyStops(FilterRowItem, s, st[1]);
        && |ms| == |r.value| + 1 && ms[0] == st[1]
        && forall k :: 0 <= k < |r.value| ==>
             && FilterRowItem(s, ms[k]).Success? && FilterRowItem(s, ms[k]).pos == ms[k + 1]
             && r.value[k] == FilterOf(FilterRowItem(s, ms[k]).value)
  {
    var ps := FilterGroupParts();
    var out := ForceCollect(ps, s, i);
    if out.Success? {
      ForceCollectEnd(ps, s, i);
      var st := Stops(ps, s, i);
      ForceCollectStep(ps, s, i, 1);
      assert Advances(FilterRowItem, s);
      assert FilterRowsItem(s, st[1]) == Success(out.value[1], st[2]);
      Many1IsMany(FilterRowItem, s, st[1]);
      ManyInOrder(FilterRowItem, s, st[1]);
      var rows := out.value[1].items;
      assert Many(FilterRowItem, s, st[1]).value == rows;
      var fs := FilterGroup(s, i).value;
      assert fs == FiltersOf(rows);
      var ms := ManyStops(FilterRowItem, s, st[1]);
      forall k | 0 <= k < |fs|
        ensures FilterRowItem(s, ms[k]).Success? && FilterRowItem(s, ms[k]).pos == ms[k + 1]
        ensures fs[k] == FilterOf(FilterRowItem(s, ms[k]).value)
      {
        assert FilterRowItem(s, ms[k]) == Success(rows[k], ms[k + 1]);
      }
    }
  }

  // ---------------------------------------------------------------------------------------------
  // The whole rule

  /** parseRule: the optional RF clause, then the groups up to the end of the input. The
      replication factor is the clause's number, or 2 when there is no clause. */
  lemma ParseRuleMeaning(s: string, i: nat)
    ensures var rf := ReplFactor(s, i);
      var m := if rf.Success? then rf.pos else i;
      var u := SfUnion(s, m);
      ParseRule(s, i) ==
        if u.Failure? then Failure(i)
        else Success(PlacementRule(if rf.Success? then rf.value else DefaultReplFactor, u.value), |s|)
  {
    var ps := RuleParts();
    ForceCollectInOrder(ps, s, i);
    var st := Stops(ps, s, i);
    var rf := ReplFactor(s, i);
    var m := if rf.Success? then rf.pos else i;
    assert st[1] == m;
  }

  /** ParseQuery, read directly: the rule is the RF clause's number (2 without one) and the groups
      of the union, of which there is at least one; anything else is the one syntax error. */
  lemma ParseQueryMeaning(s: string)
    ensures var rf := ReplFactorSpec(s, 0);
      var m := if rf.Success? then rf.pos else 0;
      var u := UnionSpec(s, m);
      ParseQuery(s) ==
        if u.Failure? then SyntaxError("cant parse query")
        else Parsed(PlacementRule(if rf.Success? then rf.value else DefaultReplFactor, u.value))
    ensures ParseQuery(s).Parsed? ==> |ParseQuery(s).rule.groups| >= 1
  {
    ReplFactorMeaning(s, 0);
    ParseRuleMeaning(s, 0);
    var rf := ReplFactor(s, 0);
    SfUnionMeaning(s, if rf.Success? then rf.pos else 0);
  }

  // ---------------------------------------------------------------------------------------------
  // Where a successful parse ends

  /** The cursor `j` stands right after a letter or digit. */
  predicate AfterIdent(s: string, j: nat) {
    0 < j <= |s| && IsIdentChar(s[j - 1])
  }

  /** When every success of `p` ends after a letter or digit, Many ends there too unless it read
      nothing, and Many1 always does. */
  lemma {:induction false} ManyEnds<T>(p: Parser<T>, s: string, i: nat)
    requires Advances(p, s) && Atomic(p, s)
    requires forall j: nat :: p(s, j).Success? ==> AfterIdent(s, p(s, j).pos)
    ensures Many(p, s, i).pos == i || AfterIdent(s, Many(p, s, i).pos)
    ensures Many1(p, s, i).Success? ==> AfterIdent(s, Many1(p, s, i).pos)
    decreases |s| - i
  {
    match p(s, i)
    case Failure(_) =>
    case Success(v, j) =>
      ManyEnds(p, s, j);
  }

  lemma StringEnds(s: string, j: nat)
    ensures StringItem(s, j).Success? ==> AfterIdent(s, StringItem(s, j).pos)
  {
    var r := StringItem(s, j);
    if r.Success? {
      assert j <= r.pos - 1 < r.pos;
    }
  }

  lemma FilterRowEnds(s: string, j: nat)
    ensures FilterRowItem(s, j).Success? ==> AfterIdent(s, FilterRowItem(s, j).pos)
  {
    var ps := FilterRowParts();
    var out := ForceCollect(ps, s, j);
    if out.Success? {
      ForceCollectInOrder(ps, s, j);
      var st := Stops(ps, s, j);
      assert StringItem(s, st[5]) == Success(out.value[5], st[6]);
      StringEnds(s, st[5]);
    }
  }

  lemma FilterGroupEnds(s: string, j: nat)
    ensures FilterGroup(s, j).Success? ==> AfterIdent(s, FilterGroup(s, j).pos)
  {
    var ps := FilterGroupParts();
    var out := ForceCollect(ps, s, j);
    if out.Success? {
      ForceCollectInOrder(ps, s, j);
      var st := Stops(ps, s, j);
      assert Many1(FilterRowItem, s, st[1]).Success? && Many1(FilterRowItem, s, st[1]).pos == st[2];
      forall k: nat | FilterRowItem(s, k).Success? ensures AfterIdent(s, FilterRowItem(s, k).pos) {
        FilterRowEnds(s, k);
      }
      ManyEnds(FilterRowItem, s, st[1]);
    }
  }

  lemma SelectorEnds(s: string, j: nat)
    ensures SelectorItem(s, j).Success? ==> AfterIdent(s, SelectorItem(s, j).pos)
  {
    var ps := SelectorParts();
    var out := ForceCollect(ps, s, j);
    if out.Success? {
      ForceCollectInOrder(ps, s, j);
      var st := Stops(ps, s, j);
      assert StringItem(s, st[3]) == Success(out.value[3], st[4]);
      StringEnds(s, st[3]);
    }
  }

  /** The optional FILTER clause either reads nothing or ends after a letter or digit. */
  lemma OptFilterClauseEnds(s: string, j: nat)
    ensures var c := OptFilterClauseItem(s, j); c.pos == j || AfterIdent(s, c.pos)
  {
    var ps := FilterClauseParts();
    var out := ForceCollect(ps, s, j);
    if out.Success? {
      ForceCollectEnd(ps, s, j);
      var ct := Stops(ps, s, j);
      ForceCollectStep(ps, s, j, 1);
      assert FilterGroupItem(s, ct[1]).pos == ct[2] == out.pos;
      FilterGroupEnds(s, ct[1]);
    }
  }

  lemma SelectorsEnds(s: string, j: nat)
    ensures SelectorsItem(s, j).Success? ==> AfterIdent(s, SelectorsItem(s, j).pos)
  {
    assert Advances(SelectorItem, s);
    forall k: nat | SelectorItem(s, k).Success? ensures AfterIdent(s, SelectorItem(s, k).pos) {
      SelectorEnds(s, k);
    }
    ManyEnds(SelectorItem, s, j);
  }

  lemma SfGroupEnds(s: string, j: nat)
    ensures SfGroup(s, j).Success? ==> AfterIdent(s, SfGroup(s, j).pos)
  {
    var ps := SfGroupParts();
    var out := ForceCollect(ps, s, j);
    if out.Success? {
      ForceCollectEnd(ps, s, j);
      var st := Stops(ps, s, j);
      assert SfGroup(s, j).pos == out.pos == st[4];
      ForceCollectStep(ps, s, j, 2);
      ForceCollectStep(ps, s, j, 3);
      assert SelectorsItem(s, st[2]).Success? && SelectorsItem(s, st[2]).pos == st[3];
      assert OptFilterClauseItem(s, st[3]).pos == st[4];
      SelectorsEnds(s, st[2]);
      OptFilterClauseEnds(s, st[3]);
    }
  }

  lemma UnionRowEnds(s: string, j: nat)
    ensures UnionRowItem(s, j).Success? ==> AfterIdent(s, UnionRowItem(s, j).pos)
  {
    var ps := UnionRowParts();
    var out := ForceCollect(ps, s, j);
    if out.Success? {
      ForceCollectInOrder(ps, s, j);
      var st := Stops(ps, s, j);
      assert SfGroupItem(s, st[3]).pos == st[4];
      SfGroupEnds(s, st[3]);
    }
  }

  /** A union that parses ends right after a letter or digit. */
  lemma SfUnionEnds(s: string, i: nat)
    ensures SfUnion(s, i).Success? ==> AfterIdent(s, |s|)
  {
    var ps := SfUnionParts();
    var out := ForceCollect(ps, s, i);
    if out.Success? {
      ForceCollectInOrder(ps, s, i);
      var st := Stops(ps, s, i);
      SfGroupEnds(s, i);
      assert Advances(UnionRowItem, s);
      assert Many(UnionRowItem, s, st[1]).pos == st[2];
      forall k: nat | UnionRowItem(s, k).Success? ensures AfterIdent(s, UnionRowItem(s, k).pos) {
        UnionRowEnds(s, k);
      }
      ManyEnds(UnionRowItem, s, st[1]);
    }
  }

  /** A query that parses ends with a letter or digit: trailing whitespace, a trailing semicolon or
      any other trailing character is a syntax error. */
  lemma ParseQueryEnds(s: string)
    ensures ParseQuery(s).Parsed? ==> |s| > 0 && IsIdentChar(s[|s| - 1])
  {
    ParseRuleMeaning(s, 0);
    var rf := ReplFactor(s, 0);
    SfUnionEnds(s, if rf.Success? then rf.pos else 0);
  }

  lemma TrailingCharacterRejected(s: string, c: char)
    requires !IsIdentChar(c)
    ensures ParseQuery(s + [c]) == SyntaxError("cant parse query")
  {
    ParseQueryEnds(s + [c]);
  }
}
