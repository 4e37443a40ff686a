/** The loops of query.go, written as loops: forceCollect's walk over its parsers with the
    save-and-restore of the cursor, the accumulation loops of the token parsers, and the append
    loops with which filterGroup, sfGroup and sfUnion build their results. Each method returns
    exactly what the corresponding function of module Query specifies. */
module QueryExec {
  import opened Parsec
  import opened Netmap
  import Query

  /** The reply of forceCollect once the results `vs` are gathered and the remaining parsers have
      replied `r`: a failure anywhere restores the cursor to `i`. */
  ghost function Join<T>(i: nat, vs: seq<T>, r: Reply<seq<T>>): Reply<seq<T>> {
    match r
    case Failure(_) => Failure(i)
    case Success(ws, m) => Success(vs + ws, m)
  }

  /** forceCollect: saves the cursor, runs the parsers in turn appending their results, and on the
      first failure puts the cursor back and fails. */
  method ForceCollect<T>(ps: seq<Parser<T>>, s: string, i: nat) returns (r: Reply<seq<T>>)
    ensures r == Query.ForceCollect(ps, s, i)
  {
    var saved := i;
    var matches: seq<T> := [];
    var pos := i;
    assert ps[0..] == ps;
    assert Query.ForceCollect(ps, s, i).Success? ==> [] + Query.ForceCollect(ps, s, i).value == Query.ForceCollect(ps, s, i).value;
    for k := 0 to |ps|
      invariant Query.ForceCollect(ps, s, saved) == Join(saved, matches, Query.ForceCollect(ps[k..], s, pos))
    {
      assert ps[k..][0] == ps[k] && ps[k..][1..] == ps[k + 1..];
      var reply := ps[k](s, pos);
      if reply.Failure? {
        return Failure(saved);
      }
      var rest := Query.ForceCollect(ps[k + 1..], s, reply.pos);
      if rest.Success? {
        assert matches + ([reply.value] + rest.value) == (matches + [reply.value]) + rest.value;
      }
      matches := matches + [reply.value];
      pos := reply.pos;
    }
    assert ps[|ps|..] == [] && matches + [] == matches;
    return Success(matches, pos);
  }

  /** parseNumber: Many1 collects the digits, then the loop folds them in uint32 arithmetic. */
  method ParseNumber(s: string, i: nat) returns (r: Reply<uint32>)
    ensures r == Query.ParseNumber(s, i)
  {
    Many1Satisfy(IsDigit, s, i);
    var out := Many1(Satisfy(IsDigit), s, i);
    if out.Failure? {
      return Failure(out.pos);
    }
    var ds := out.value;
    var n: uint32 := 0;
    for k := 0 to |ds|
      invariant n == Query.FoldDigits(ds[..k])
    {
      assert ds[..k + 1][..k] == ds[..k];
      n := ((n as int * 10 + Query.DigitValue(ds[k])) % Uint32Modulus) as uint32;
    }
    assert ds[..|ds|] == ds;
    return Success(n, out.pos);
  }

  /** The rune-slice loop of parseString and parseOperation. */
  method CollectRunes(cs: seq<char>) returns (str: string)
    ensures str == cs
  {
    str := [];
    for k := 0 to |cs|
      invariant str == cs[..k]
    {
      str := str + [cs[k]];
    }
  }

  /** parseString: Many1 collects the letters and digits, then the loop turns them into a string. */
  method ParseString(s: string, i: nat) returns (r: Reply<string>)
    ensures r == Query.ParseString(s, i)
  {
    Many1Satisfy(Query.IsIdentChar, s, i);
    var out := Many1(Satisfy(Query.IsIdentChar), s, i);
    if out.Failure? {
      return Failure(out.pos);
    }
    var str := CollectRunes(out.value);
    return Success(str, out.pos);
  }

  /** parseOperation: Many1 collects the non-space run, the loop turns it into a string, and the
      operator table decides. */
  method ParseOperation(s: string, i: nat) returns (r: Reply<Operation>)
    ensures r == Query.ParseOperation(s, i)
  {
    Many1Satisfy(Query.IsNonSpace, s, i);
    var out := Many1(Satisfy(Query.IsNonSpace), s, i);
    if out.Failure? {
      return Failure(out.pos);
    }
    var str := CollectRunes(out.value);
    if str in Query.StrToOp {
      return Success(Query.StrToOp[str], out.pos);
    }
    return Failure(out.pos);
  }

  /** filterGroup: one Filter per key/operation/value row, appended in order. */
  method FilterGroup(s: string, i: nat) returns (r: Reply<seq<Filter>>)
    ensures r == Query.FilterGroup(s, i)
  {
    var out := ForceCollect(Query.FilterGroupParts(), s, i);
    Query.FilterGroupShape(s, i);
    if out.Failure? {
      return Failure(i);
    }
    var lst := out.value;
    var fs: seq<Filter> := [];
    if |lst| == 2 {
      var rows := lst[1].items;
      for k := 0 to |rows|
        invariant |fs| == k && forall m :: 0 <= m < k ==> fs[m] == Query.FilterOf(rows[m])
      {
        fs := fs + [Query.FilterOf(rows[k])];
      }
      assert fs == Query.FiltersOf(rows);
    }
    return Success(fs, out.pos);
  }

  /** sfGroup: one Select per count/key row, appended in order, and the filters of the optional
      FILTER clause. */
  method SfGroup(s: string, i: nat) returns (r: Reply<SFGroup>)
    ensures r == Query.SfGroup(s, i)
  {
    var out := ForceCollect(Query.SfGroupParts(), s, i);
    Query.SfGroupShape(s, i);
    if out.Failure? {
      return Failure(i);
    }
    var lst := out.value;
    var rows := lst[2].items;
    var ss: seq<Select> := [];
    for k := 0 to |rows|
      invariant |ss| == k && forall m :: 0 <= m < k ==> ss[m] == Query.SelectOf(rows[m])
    {
      ss := ss + [Query.SelectOf(rows[k])];
    }
    assert ss == Query.SelectsOf(rows);
    var fs: seq<Filter> := [];
    if lst[3] != Query.Nil {
      fs := lst[3].items[1].filters;
    }
    return Success(SFGroup(ss, fs), out.pos);
  }

  /** sfUnion: fails if any input is left after the groups; otherwise the first group followed by
      the group of each "; SELECT ..." part, appended in order. */
  method SfUnion(s: string, i: nat) returns (r: Reply<seq<SFGroup>>)
    ensures r == Query.SfUnion(s, i)
  {
    var out := ForceCollect(Query.SfUnionParts(), s, i);
    Query.SfUnionShape(s, i);
    if out.Failure? {
      return Failure(i);
    }
    if out.pos < |s| {
      return Failure(out.pos);
    }
    var lst := out.value;
    var gs := [lst[0].group];
    var rows := lst[1].items;
    for k := 0 to |rows|
      invariant |gs| == k + 1 && gs[0] == lst[0].group
      invariant forall m :: 0 <= m < k ==> gs[m + 1] == rows[m].items[3].group
    {
      gs := gs + [rows[k].items[3].group];
    }
    GroupsAppended(lst[0].group, rows, gs);
    return Success(gs, out.pos);
  }

  /** What sfUnion's append loop builds is the first group followed by the group of each row. */
  lemma GroupsAppended(first: SFGroup, rows: seq<Query.Item>, gs: seq<SFGroup>)
    requires Query.AllRows(rows, Query.IsUnionRow)
    requires |gs| == |rows| + 1 && gs[0] == first
    requires forall m :: 0 <= m < |rows| ==> gs[m + 1] == rows[m].items[3].group
    ensures gs == [first] + Query.GroupsOf(rows)
  {
    var want := [first] + Query.GroupsOf(rows);
    forall m | 0 <= m < |gs| ensures gs[m] == want[m] {
      if m > 0 {
        assert want[m] == Query.GroupsOf(rows)[m - 1];
      }
    }
  }
}
