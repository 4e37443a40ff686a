/** Reading a query after some leading text.

    Every reading of the grammar looks only at the characters from its start onwards, so reading
    a text `t` that holds `s` from position `d` on, starting at `d + j`, is reading `s` from `j`
    with every position moved by `d`. Together with the optional whitespace that every query and
    every group starts with, this gives the promise that whitespace in front of a query changes
    nothing: `ParseQuery(w + s) == ParseQuery(s)` whenever `w` is all whitespace.

    Every lemma takes each position twice, once in `s` and once in `t`, tied by a requires: the
    readings are then compared at the very positions the definitions unfold to. */
module QueryShift {
  import opened Parsec
  import opened Netmap
  import opened Query
  import opened QueryFacts

  /** `t` holds `s` from position `d` on, to its end. */
  ghost predicate Extends(t: string, s: string, d: nat) {
    |t| == d + |s| && forall k :: 0 <= k < |s| ==> t[d + k] == s[k]
  }

  /** `u + s` holds `s` after `u`. */
  lemma AppendExtends(u: string, s: string)
    ensures Extends(u + s, s, |u|)
  {
  }

  /** The reply `r` with its position moved by `d`. */
  function Shifted<T>(r: Reply<T>, d: nat): (q: Reply<T>)
    ensures q.Success? == r.Success? && q.pos == r.pos + d
    ensures q.Success? ==> q.value == r.value
  {
    match r
    case Success(v, j) => Success(v, j + d)
    case Failure(j) => Failure(j + d)
  }

  // ---------------------------------------------------------------------------------------------
  // Characters and tokens

  /** The same character is at `j` in `s` and at `jt` in `t`. */
  lemma CharShift(t: string, s: string, d: nat, j: nat, jt: nat)
    requires Extends(t, s, d) && jt == d + j
    ensures j < |s| <==> jt < |t|
    ensures j < |s| ==> t[jt] == s[j]
  {
  }

  /** The same text is between `i` and `k` in `s` and between `it` and `kt` in `t`. */
  lemma SliceShift(t: string, s: string, d: nat, i: nat, it: nat, k: nat, kt: nat)
    requires Extends(t, s, d) && it == d + i && kt == d + k
    requires i <= k <= |s|
    ensures kt <= |t| && t[it..kt] == s[i..k]
  {
    assert forall m :: 0 <= m < k - i ==> t[it..kt][m] == s[i..k][m];
  }

  /** A six-letter keyword is at `j` in `s` exactly when it is at `jt` in `t`. */
  lemma WordShift(t: string, s: string, d: nat, j: nat, jt: nat, j6: nat, jt6: nat, word: string)
    requires Extends(t, s, d) && jt == d + j && j6 == j + 6 && jt6 == jt + 6 && |word| == 6
    ensures (j6 <= |s| && s[j..j6] == word) <==> (jt6 <= |t| && t[jt..jt6] == word)
  {
    if j6 <= |s| {
      SliceShift(t, s, d, j, jt, j6, jt6);
    }
  }

  /** Skipping whitespace ends at the same place in `s` and in `t`. */
  lemma {:induction false} SkipSpaceShift(t: string, s: string, d: nat, j: nat, jt: nat)
    requires Extends(t, s, d) && jt == d + j
    ensures SkipSpace(t, jt) == d + SkipSpace(s, j)
    decreases |s| - j
  {
    CharShift(t, s, d, j, jt);
    if j < |s| && IsSpace(s[j]) {
      SkipSpaceShift(t, s, d, j + 1, jt + 1);
    }
  }

  lemma {:induction false} SkipDigitsShift(t: string, s: string, d: nat, j: nat, jt: nat)
    requires Extends(t, s, d) && jt == d + j
    ensures SkipDigits(t, jt) == d + SkipDigits(s, j)
    decreases |s| - j
  {
    CharShift(t, s, d, j, jt);
    if j < |s| && IsDigit(s[j]) {
      SkipDigitsShift(t, s, d, j + 1, jt + 1);
    }
  }

  lemma {:induction false} SkipIdentShift(t: string, s: string, d: nat, j: nat, jt: nat)
    requires Extends(t, s, d) && jt == d + j
    ensures SkipIdent(t, jt) == d + SkipIdent(s, j)
    decreases |s| - j
  {
    CharShift(t, s, d, j, jt);
    if j < |s| && IsIdentChar(s[j]) {
      SkipIdentShift(t, s, d, j + 1, jt + 1);
    }
  }

  lemma {:induction false} SkipNonSpaceShift(t: string, s: string, d: nat, j: nat, jt: nat)
    requires Extends(t, s, d) && jt == d + j
    ensures SkipNonSpace(t, jt) == d + SkipNonSpace(s, j)
    decreases |s| - j
  {
    CharShift(t, s, d, j, jt);
    if j < |s| && IsNonSpace(s[j]) {
      SkipNonSpaceShift(t, s, d, j + 1, jt + 1);
    }
  }

  lemma NumberShift(t: string, s: string, d: nat, j: nat, jt: nat)
    requires Extends(t, s, d) && jt == d + j
    ensures NumberAt(t, jt) == Shifted(NumberAt(s, j), d)
  {
    CharShift(t, s, d, j, jt);
    SkipDigitsShift(t, s, d, j, jt);
    if j < |s| && IsDigit(s[j]) {
      SliceShift(t, s, d, j, jt, SkipDigits(s, j), SkipDigits(t, jt));
    }
  }

  lemma StringShift(t: string, s: string, d: nat, j: nat, jt: nat)
    requires Extends(t, s, d) && jt == d + j
    ensures IdentAt(t, jt) == Shifted(IdentAt(s, j), d)
  {
    CharShift(t, s, d, j, jt);
    SkipIdentShift(t, s, d, j, jt);
    if j < |s| && IsIdentChar(s[j]) {
      SliceShift(t, s, d, j, jt, SkipIdent(s, j), SkipIdent(t, jt));
    }
  }

  lemma OperationShift(t: string, s: string, d: nat, j: nat, jt: nat)
    requires Extends(t, s, d) && jt == d + j
    ensures OperationAt(t, jt) == Shifted(OperationAt(s, j), d)
  {
    CharShift(t, s, d, j, jt);
    SkipNonSpaceShift(t, s, d, j, jt);
    if j < |s| && IsNonSpace(s[j]) {
      SliceShift(t, s, d, j, jt, SkipNonSpace(s, j), SkipNonSpace(t, jt));
    }
  }

  // ---------------------------------------------------------------------------------------------
  // One step of the repetitions, stated part by part

  /** A selector row at `j` ending at `e`: the selectors from `j` are its own and those from `e`. */
  lemma {:induction false} MoreSelectorsNext(s: string, j: nat, x: Select, e: nat)
    requires SelectorRowSpec(s, j) == Success(x, e)
    ensures MoreSelectors(s, j).0 == [x] + MoreSelectors(s, e).0
    ensures MoreSelectors(s, j).1 == MoreSelectors(s, e).1
  {
  }

  lemma {:induction false} MoreFiltersNext(s: string, j: nat, f: Filter, e: nat)
    requires FilterRowSpec(s, j) == Success(f, e)
    ensures MoreFilters(s, j).0 == [f] + MoreFilters(s, e).0
    ensures MoreFilters(s, j).1 == MoreFilters(s, e).1
  {
  }

  lemma {:induction false} MoreGroupsNext(s: string, j: nat, g: SFGroup, e: nat)
    requires NextGroup(s, j) == Success(g, e)
    ensures MoreGroups(s, j).0 == [g] + MoreGroups(s, e).0
    ensures MoreGroups(s, j).1 == MoreGroups(s, e).1
  {
  }

  lemma {:induction false} SelectorsNext(s: string, j: nat, x: Select, b: nat)
    requires SelectorRowSpec(s, j) == Success(x, b)
    ensures SelectorsSpec(s, j) == Success([x] + MoreSelectors(s, b).0, MoreSelectors(s, b).1)
  {
  }

  lemma {:induction false} FilterRowsNext(s: string, j: nat, f: Filter, b: nat, fs: seq<Filter>, e: nat)
    requires FilterRowSpec(s, j) == Success(f, b)
    requires MoreFilters(s, b).0 == fs && MoreFilters(s, b).1 == e
    ensures FilterRowsSpec(s, j) == Success([f] + fs, e)
  {
  }

  lemma {:induction false} UnionNext(s: string, i: nat, g: SFGroup, j: nat)
    requires SfGroupSpec(s, i) == Success(g, j)
    ensures var m := MoreGroups(s, j).1;
      UnionSpec(s, i) == if m < |s| then Failure(m) else Success([g] + MoreGroups(s, j).0, m)
  {
  }

  // ---------------------------------------------------------------------------------------------
  // The replication factor and the rows

  lemma ReplFactorShift(t: string, s: string, d: nat, i: nat, it: nat)
    requires Extends(t, s, d) && it == d + i
    ensures ReplFactorSpec(t, it) == Shifted(ReplFactorSpec(s, i), d)
  {
    var a, at := SkipSpace(s, i), SkipSpace(t, it);
    SkipSpaceShift(t, s, d, i, it);
    var a1, at1, a2, at2 := a + 1, at + 1, a + 2, at + 2;
    CharShift(t, s, d, a, at);
    CharShift(t, s, d, a1, at1);
    CharShift(t, s, d, a2, at2);
    var c, ct := SkipSpace(s, a2), SkipSpace(t, at2);
    SkipSpaceShift(t, s, d, a2, at2);
    NumberShift(t, s, d, c, ct);
    ReplFactorRead(s, i, a, a1, a2, c);
    ReplFactorRead(t, it, at, at1, at2, ct);
  }

  lemma SelectorRowShift(t: string, s: string, d: nat, j: nat, jt: nat)
    requires Extends(t, s, d) && jt == d + j
    ensures SelectorRowSpec(t, jt) == Shifted(SelectorRowSpec(s, j), d)
  {
    CharShift(t, s, d, j, jt);
    var a, at := SkipSpace(s, j), SkipSpace(t, jt);
    SkipSpaceShift(t, s, d, j, jt);
    NumberShift(t, s, d, a, at);
    match NumberAt(s, a)
    case Failure(_) =>
    case Success(n, b) =>
      var bt := NumberAt(t, at).pos;
      CharShift(t, s, d, b, bt);
      SkipSpaceShift(t, s, d, b, bt);
      StringShift(t, s, d, SkipSpace(s, b), SkipSpace(t, bt));
  }

  lemma FilterRowShift(t: string, s: string, d: nat, j: nat, jt: nat)
    requires Extends(t, s, d) && jt == d + j
    ensures FilterRowSpec(t, jt) == Shifted(FilterRowSpec(s, j), d)
  {
    CharShift(t, s, d, j, jt);
    var a, at := SkipSpace(s, j), SkipSpace(t, jt);
    SkipSpaceShift(t, s, d, j, jt);
    StringShift(t, s, d, a, at);
    match IdentAt(s, a)
    case Failure(_) =>
    case Success(key, b) =>
      var bt := IdentAt(t, at).pos;
      CharShift(t, s, d, b, bt);
      SkipSpaceShift(t, s, d, b, bt);
      var c0, ct0 := SkipSpace(s, b), SkipSpace(t, bt);
      OperationShift(t, s, d, c0, ct0);
      match OperationAt(s, c0)
      case Failure(_) =>
      case Success(op, c) =>
        var ct := OperationAt(t, ct0).pos;
        CharShift(t, s, d, c, ct);
        SkipSpaceShift(t, s, d, c, ct);
        StringShift(t, s, d, SkipSpace(s, c), SkipSpace(t, ct));
  }

  lemma {:induction false} MoreSelectorsShift(t: string, s: string, d: nat, j: nat, jt: nat)
    requires Extends(t, s, d) && jt == d + j
    ensures MoreSelectors(t, jt).0 == MoreSelectors(s, j).0
    ensures MoreSelectors(t, jt).1 == d + MoreSelectors(s, j).1
    decreases |s| - j
  {
    SelectorRowShift(t, s, d, j, jt);
    match SelectorRowSpec(s, j)
    case Failure(_) =>
    case Success(x, e) =>
      var et := d + e;
      MoreSelectorsShift(t, s, d, e, et);
      MoreSelectorsNext(s, j, x, e);
      MoreSelectorsNext(t, jt, x, et);
  }

  lemma {:induction false} MoreFiltersShift(t: string, s: string, d: nat, j: nat, jt: nat)
    requires Extends(t, s, d) && jt == d + j
    ensures MoreFilters(t, jt).0 == MoreFilters(s, j).0
    ensures MoreFilters(t, jt).1 == d + MoreFilters(s, j).1
    decreases |s| - j
  {
    FilterRowShift(t, s, d, j, jt);
    match FilterRowSpec(s, j)
    case Failure(_) =>
    case Success(f, e) =>
      var et := d + e;
      MoreFiltersShift(t, s, d, e, et);
      MoreFiltersNext(s, j, f, e);
      MoreFiltersNext(t, jt, f, et);
  }

  lemma SelectorsShift(t: string, s: string, d: nat, j: nat, jt: nat)
    requires Extends(t, s, d) && jt == d + j
    ensures SelectorsSpec(t, jt) == Shifted(SelectorsSpec(s, j), d)
  {
    SelectorRowShift(t, s, d, j, jt);
    match SelectorRowSpec(s, j)
    case Failure(_) =>
    case Success(x, b) =>
      var bt := d + b;
      MoreSelectorsShift(t, s, d, b, bt);
      SelectorsNext(s, j, x, b);
      SelectorsNext(t, jt, x, bt);
  }

  lemma FilterRowsShift(t: string, s: string, d: nat, j: nat, jt: nat)
    requires Extends(t, s, d) && jt == d + j
    ensures FilterRowsSpec(t, jt) == Shifted(FilterRowsSpec(s, j), d)
  {
    FilterRowShift(t, s, d, j, jt);
    match FilterRowSpec(s, j)
    case Failure(_) =>
    case Success(f, b) => FilterRowsShiftRead(t, s, d, j, jt, f, b, d + b);
  }

  /** The case where the first filter row is read, up to `b`. */
  lemma FilterRowsShiftRead(t: string, s: string, d: nat, j: nat, jt: nat, f: Filter, b: nat, bt: nat)
    requires Extends(t, s, d) && jt == d + j && bt == d + b
    requires FilterRowSpec(s, j) == Success(f, b) && FilterRowSpec(t, jt) == Success(f, bt)
    ensures FilterRowsSpec(t, jt) == Shifted(FilterRowsSpec(s, j), d)
  {
    MoreFiltersShift(t, s, d, b, bt);
    FilterRowsSame(t, s, d, j, jt, f, b, bt);
  }

  /** Rows read alike in both texts: the first up to `b` and `bt`, the rest to places `d` apart. */
  lemma {:induction false} FilterRowsSame(t: string, s: string, d: nat, j: nat, jt: nat, f: Filter, b: nat, bt: nat)
    requires FilterRowSpec(s, j) == Success(f, b) && FilterRowSpec(t, jt) == Success(f, bt)
    requires MoreFilters(t, bt).0 == MoreFilters(s, b).0
    requires MoreFilters(t, bt).1 == d + MoreFilters(s, b).1
    ensures FilterRowsSpec(t, jt) == Shifted(FilterRowsSpec(s, j), d)
  {
    var fs, e := MoreFilters(s, b).0, MoreFilters(s, b).1;
    FilterRowsNext(s, j, f, b, fs, e);
    FilterRowsNext(t, jt, f, bt, fs, d + e);
  }

  lemma FilterGroupShift(t: string, s: string, d: nat, j: nat, jt: nat)
    requires Extends(t, s, d) && jt == d + j
    ensures FilterGroupSpec(t, jt) == Shifted(FilterGroupSpec(s, j), d)
  {
    var j6, jt6 := j + 6, jt + 6;
    WordShift(t, s, d, j, jt, j6, jt6, "FILTER");
    FilterRowsShift(t, s, d, j6, jt6);
  }

  lemma FilterClauseShift(t: string, s: string, d: nat, e: nat, et: nat)
    requires Extends(t, s, d) && et == d + e
    ensures FilterClauseSpec(t, et) == Shifted(FilterClauseSpec(s, e), d)
  {
    CharShift(t, s, d, e, et);
    SkipSpaceShift(t, s, d, e, et);
    FilterGroupShift(t, s, d, SkipSpace(s, e), SkipSpace(t, et));
  }

  lemma SfGroupShift(t: string, s: string, d: nat, i: nat, it: nat)
    requires Extends(t, s, d) && it == d + i
    ensures SfGroupSpec(t, it) == Shifted(SfGroupSpec(s, i), d)
  {
    SkipSpaceShift(t, s, d, i, it);
    WordShift(t, s, d, SkipSpace(s, i), SkipSpace(t, it), SkipSpace(s, i) + 6, SkipSpace(t, it) + 6, "SELECT");
    SelectorsShift(t, s, d, SkipSpace(s, i) + 6, SkipSpace(t, it) + 6);
    if !(SkipSpace(s, i) + 6 <= |s| && s[SkipSpace(s, i)..SkipSpace(s, i) + 6] == "SELECT") {
      GroupNoKeyword(s, i);
      GroupNoKeyword(t, it);
    } else if SelectorsSpec(s, SkipSpace(s, i) + 6).Failure? {
      GroupNoSelectors(s, i);
      GroupNoSelectors(t, it);
    } else {
      var r := SelectorsSpec(s, SkipSpace(s, i) + 6);
      GroupShiftRead(t, s, d, i, it, r.value, r.pos, d + r.pos);
    }
  }

  /** The case of SfGroupShift where the group is read: its selectors `xs` end at `e` in `s`
      and at `et` in `t`. */
  lemma {:induction false} GroupShiftRead(t: string, s: string, d: nat, i: nat, it: nat, xs: seq<Select>, e: nat, et: nat)
    requires Extends(t, s, d) && et == d + e
    requires SkipSpace(s, i) + 6 <= |s| && s[SkipSpace(s, i)..SkipSpace(s, i) + 6] == "SELECT"
    requires SkipSpace(t, it) + 6 <= |t| && t[SkipSpace(t, it)..SkipSpace(t, it) + 6] == "SELECT"
    requires SelectorsSpec(s, SkipSpace(s, i) + 6) == Success(xs, e)
    requires SelectorsSpec(t, SkipSpace(t, it) + 6) == Success(xs, et)
    ensures SfGroupSpec(t, it) == Shifted(SfGroupSpec(s, i), d)
  {
    FilterClauseShift(t, s, d, e, et);
    var c := FilterClauseSpec(s, e);
    if c.Success? {
      GroupWithFilters(s, i, xs, e, c.value, c.pos);
      GroupWithFilters(t, it, xs, et, c.value, d + c.pos);
    } else {
      GroupWithoutFilters(s, i, xs, e);
      GroupWithoutFilters(t, it, xs, et);
    }
  }

  lemma NextGroupShift(t: string, s: string, d: nat, j: nat, jt: nat)
    requires Extends(t, s, d) && jt == d + j
    ensures NextGroup(t, jt) == Shifted(NextGroup(s, j), d)
  {
    SkipSpaceShift(t, s, d, j, jt);
    CharShift(t, s, d, SkipSpace(s, j), SkipSpace(t, jt));
    SkipSpaceShift(t, s, d, SkipSpace(s, j) + 1, SkipSpace(t, jt) + 1);
    SfGroupShift(t, s, d, SkipSpace(s, SkipSpace(s, j) + 1), SkipSpace(t, SkipSpace(t, jt) + 1));
    if !(SkipSpace(s, j) < |s| && s[SkipSpace(s, j)] == ';') {
      NextGroupNoSemicolon(s, j);
      NextGroupNoSemicolon(t, jt);
    } else if SfGroupSpec(s, SkipSpace(s, SkipSpace(s, j) + 1)).Failure? {
      NextGroupNoGroup(s, j);
      NextGroupNoGroup(t, jt);
    } else {
      var r := SfGroupSpec(s, SkipSpace(s, SkipSpace(s, j) + 1));
      NextGroupRead(s, j, r.value, r.pos);
      NextGroupRead(t, jt, r.value, d + r.pos);
    }
  }

  lemma {:induction false} MoreGroupsShift(t: string, s: string, d: nat, j: nat, jt: nat)
    requires Extends(t, s, d) && jt == d + j
    ensures MoreGroups(t, jt).0 == MoreGroups(s, j).0
    ensures MoreGroups(t, jt).1 == d + MoreGroups(s, j).1
    decreases |s| - j
  {
    NextGroupShift(t, s, d, j, jt);
    match NextGroup(s, j)
    case Failure(_) =>
    case Success(g, e) =>
      var et := d + e;
      MoreGroupsShift(t, s, d, e, et);
      MoreGroupsNext(s, j, g, e);
      MoreGroupsNext(t, jt, g, et);
  }

  lemma UnionShift(t: string, s: string, d: nat, i: nat, it: nat)
    requires Extends(t, s, d) && it == d + i
    ensures UnionSpec(t, it) == Shifted(UnionSpec(s, i), d)
  {
    SfGroupShift(t, s, d, i, it);
    match SfGroupSpec(s, i)
    case Failure(_) =>
    case Success(g, j) =>
      var jt := d + j;
      MoreGroupsShift(t, s, d, j, jt);
      UnionNext(s, i, g, j);
      UnionNext(t, it, g, jt);
  }

  // ---------------------------------------------------------------------------------------------
  // Leading whitespace

  /** Inside a run of whitespace, skipping it ends in the same place wherever it starts. */
  lemma {:induction false} SkipSpaceFrom(w: string, s: string, j: nat)
    requires forall k :: 0 <= k < |w| ==> IsSpace(w[k])
    requires j <= |w|
    ensures SkipSpace(w + s, j) == SkipSpace(w + s, |w|)
    decreases |w| - j
  {
    if j < |w| {
      assert (w + s)[j] == w[j];
      SkipSpaceFrom(w, s, j + 1);
    }
  }

  /** replFactor starts with optional whitespace, so two starts `i` and `i2` that skip to the
      same place `a` read the same factor; only the position of a failure tells them apart. */
  lemma {:induction false} ReplFactorSameStart(s: string, i: nat, i2: nat, a: nat)
    requires SkipSpace(s, i) == a && SkipSpace(s, i2) == a
    ensures ReplFactorSpec(s, i).Success? == ReplFactorSpec(s, i2).Success?
    ensures ReplFactorSpec(s, i).Success? ==> ReplFactorSpec(s, i) == ReplFactorSpec(s, i2)
  {
    var a1, a2 := a + 1, a + 2;
    var c := SkipSpace(s, a2);
    ReplFactorRead(s, i, a, a1, a2, c);
    ReplFactorRead(s, i2, a, a1, a2, c);
  }

  /** The RF clause read from `i`: the keyword at `a`, where the whitespace ends, and the number
      at `c`, where the whitespace after the keyword ends. */
  lemma {:induction false} ReplFactorRead(s: string, i: nat, a: nat, a1: nat, a2: nat, c: nat)
    requires SkipSpace(s, i) == a && a1 == a + 1 && a2 == a + 2 && SkipSpace(s, a2) == c
    ensures ReplFactorSpec(s, i).Success? <==>
      a2 < |s| && s[a] == 'R' && s[a1] == 'F' && IsSpace(s[a2]) && NumberAt(s, c).Success?
    ensures ReplFactorSpec(s, i).Success? ==> ReplFactorSpec(s, i) == NumberAt(s, c)
    ensures ReplFactorSpec(s, i).Failure? ==> ReplFactorSpec(s, i) == Failure(i)
  {
  }

  /** The same for a group. */
  lemma {:induction false} SfGroupSameStart(s: string, i: nat, i2: nat, a: nat)
    requires SkipSpace(s, i) == a && SkipSpace(s, i2) == a
    ensures SfGroupSpec(s, i).Success? == SfGroupSpec(s, i2).Success?
    ensures SfGroupSpec(s, i).Success? ==> SfGroupSpec(s, i) == SfGroupSpec(s, i2)
  {
    if !(a + 6 <= |s| && s[a..a + 6] == "SELECT") {
      GroupNoKeyword(s, i);
      GroupNoKeyword(s, i2);
    } else if SelectorsSpec(s, a + 6).Failure? {
      GroupNoSelectors(s, i);
      GroupNoSelectors(s, i2);
    } else {
      var r := SelectorsSpec(s, a + 6);
      var c := FilterClauseSpec(s, r.pos);
      if c.Success? {
        GroupWithFilters(s, i, r.value, r.pos, c.value, c.pos);
        GroupWithFilters(s, i2, r.value, r.pos, c.value, c.pos);
      } else {
        GroupWithoutFilters(s, i, r.value, r.pos);
        GroupWithoutFilters(s, i2, r.value, r.pos);
      }
    }
  }

  /** And so for the union, which starts with a group. */
  lemma {:induction false} UnionSameStart(s: string, i: nat, i2: nat, a: nat)
    requires SkipSpace(s, i) == a && SkipSpace(s, i2) == a
    ensures UnionSpec(s, i).Success? == UnionSpec(s, i2).Success?
    ensures UnionSpec(s, i).Success? ==> UnionSpec(s, i) == UnionSpec(s, i2)
  {
    SfGroupSameStart(s, i, i2, a);
    if SfGroupSpec(s, i).Success? {
      var g, j := SfGroupSpec(s, i).value, SfGroupSpec(s, i).pos;
      UnionNext(s, i, g, j);
      UnionNext(s, i2, g, j);
    }
  }

  /** Two texts whose RF clauses read alike, and whose unions after them read alike, parse to
      the same rule or to the same error. */
  lemma SameQuery(s1: string, s2: string, m1: nat, m2: nat)
    requires ReplFactorSpec(s1, 0).Success? == ReplFactorSpec(s2, 0).Success?
    requires ReplFactorSpec(s1, 0).Success? ==> ReplFactorSpec(s1, 0).value == ReplFactorSpec(s2, 0).value
    requires m1 == if ReplFactorSpec(s1, 0).Success? then ReplFactorSpec(s1, 0).pos else 0
    requires m2 == if ReplFactorSpec(s2, 0).Success? then ReplFactorSpec(s2, 0).pos else 0
    requires UnionSpec(s1, m1).Success? == UnionSpec(s2, m2).Success?
    requires UnionSpec(s1, m1).Success? ==> UnionSpec(s1, m1).value == UnionSpec(s2, m2).value
    ensures ParseQuery(s1) == ParseQuery(s2)
  {
    ParseQueryMeaning(s1);
    ParseQueryMeaning(s2);
  }

  /** Whitespace in front of a query changes nothing: the same rule, or the same error. */
  lemma LeadingWhitespace(w: string, s: string)
    requires forall k :: 0 <= k < |w| ==> IsSpace(w[k])
    ensures ParseQuery(w + s) == ParseQuery(s)
  {
    var t, d := w + s, |w|;
    AppendExtends(w, s);
    var a := SkipSpace(s, 0);
    var at := d + a;
    SkipSpaceFrom(w, s, 0);
    SkipSpaceShift(t, s, d, 0, d);
    ReplFactorSameStart(t, 0, d, at);
    ReplFactorShift(t, s, d, 0, d);
    var rf := ReplFactorSpec(s, 0);
    if rf.Success? {
      var m := rf.pos;
      var mt := d + m;
      UnionShift(t, s, d, m, mt);
      SameQuery(t, s, mt, m);
    } else {
      UnionSameStart(t, 0, d, at);
      UnionShift(t, s, d, 0, d);
      SameQuery(t, s, 0, 0);
    }
  }
}
