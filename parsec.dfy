/** The part of the parser-combinator library that the query parser is built from.

    The library's vessel (the input text and a read position) is modelled as a position threaded
    through every parser: a parser reads the string `s` starting at position `i` and replies either
    with a value and the position after it, or with a failure and the position at which it left the
    cursor. Most failures leave the cursor where it was; the ones that do not are visible in the
    `pos` of the failure. */
module Parsec {

  datatype Reply<+T> = Success(value: T, pos: nat) | Failure(pos: nat)

  type Parser<T> = (string, nat) -> Reply<T>

  /** The reply `r` of a parser started at `i` never moves the cursor backwards, and from a start
      inside `s` never past its end. */
  predicate Moves<T>(r: Reply<T>, i: nat, s: string) {
    i <= r.pos && (i <= |s| ==> r.pos <= |s|)
  }

  ghost predicate Forward<T>(p: Parser<T>, s: string) {
    forall i: nat :: Moves(p(s, i), i, s)
  }

  /** `p` moves forward, and consumes at least one character of `s` whenever it succeeds. */
  ghost predicate Advances<T>(p: Parser<T>, s: string) {
    && Forward(p, s)
    && forall i: nat :: p(s, i).Success? ==> i < p(s, i).pos <= |s|
  }

  /** A failure of `p` consumes nothing. */
  ghost predicate Atomic<T>(p: Parser<T>, s: string) {
    forall i: nat :: p(s, i).Failure? ==> p(s, i).pos == i
  }

  // Character classes. unicode.IsSpace is the Unicode White_Space property, stated here in full;
  // digits and letters are restricted to ASCII.

  predicate IsSpace(c: char) {
    || c == ' ' || '\t' <= c <= '\r' || c == '\U{85}' || c == '\U{A0}' || c == '\U{1680}'
    || '\U{2000}' <= c <= '\U{200A}' || c == '\U{2028}' || c == '\U{2029}'
    || c == '\U{202F}' || c == '\U{205F}' || c == '\U{3000}'
  }

  predicate IsDigit(c: char) { '0' <= c <= '9' }

  predicate IsLetter(c: char) { 'a' <= c <= 'z' || 'A' <= c <= 'Z' }

  /** `s[i..j]` is the longest run of characters satisfying `pred` that starts at `i`. */
  predicate MaximalRun(pred: char -> bool, s: string, i: nat, j: nat) {
    && i <= j <= |s|
    && (forall k :: i <= k < j ==> pred(s[k]))
    && (j == |s| || !pred(s[j]))
  }

  /** Satisfy: consumes one character if it satisfies `pred`, otherwise fails without consuming. */
  function Satisfy(pred: char -> bool): Parser<char> {
    (s: string, i: nat) => if i < |s| && pred(s[i]) then Success(s[i], i + 1) else Failure(i)
  }

  /** String: matches the literal `word`, otherwise fails without consuming. */
  function Literal(word: string): Parser<string> {
    (s: string, i: nat) =>
      if i + |word| <= |s| && s[i..i + |word|] == word then Success(word, i + |word|) else Failure(i)
  }

  /** Satisfy succeeds exactly on a matching character, returns it and consumes it alone; a
      failure consumes nothing. */
  lemma SatisfyReply(pred: char -> bool, s: string, i: nat)
    ensures Satisfy(pred)(s, i).Success? <==> i < |s| && pred(s[i])
    ensures Satisfy(pred)(s, i).Success? ==> i < |s| && Satisfy(pred)(s, i) == Success(s[i], i + 1)
    ensures Satisfy(pred)(s, i).Failure? ==> Satisfy(pred)(s, i).pos == i
  {
  }

  /** A literal succeeds exactly when the input continues with `word`, returns `word` and consumes
      exactly it; a failure consumes nothing. */
  lemma LiteralReply(word: string, s: string, i: nat)
    ensures Literal(word)(s, i).Success? <==> i + |word| <= |s| && s[i..i + |word|] == word
    ensures Literal(word)(s, i).Success? ==> Literal(word)(s, i) == Success(word, i + |word|)
    ensures Literal(word)(s, i).Failure? ==> Literal(word)(s, i).pos == i
  {
  }

  /** Many: applies `p` until it fails and always succeeds with the results in order. The cursor
      stays where the failing application left it. */
  function Many<T>(p: Parser<T>, s: string, i: nat): (r: Reply<seq<T>>)
    requires Advances(p, s)
    ensures r.Success? && Moves(r, i, s)
    ensures Atomic(p, s) ==> p(s, r.pos).Failure?
    decreases |s| - i
  {
    match p(s, i)
    case Failure(k) => Success([], k)
    case Success(v, j) =>
      var rest := Many(p, s, j);
      Success([v] + rest.value, rest.pos)
  }

  /** Many1: like Many, but fails, where `p` failed, when `p` does not succeed at least once. */
  function Many1<T>(p: Parser<T>, s: string, i: nat): (r: Reply<seq<T>>)
    requires Advances(p, s)
    ensures r.Failure? <==> p(s, i).Failure?
    ensures r.Failure? ==> r.pos == p(s, i).pos
    ensures r.Success? ==> |r.value| >= 1 && i < r.pos <= |s|
    ensures Moves(r, i, s)
  {
    match p(s, i)
    case Failure(k) => Failure(k)
    case Success(v, j) =>
      var rest := Many(p, s, j);
      Success([v] + rest.value, rest.pos)
  }

  /** The cursor before each application of `p` by Many, ending with the one that fails. */
  ghost function ManyStops<T>(p: Parser<T>, s: string, i: nat): seq<nat>
    requires Advances(p, s)
    decreases |s| - i
  {
    match p(s, i)
    case Failure(_) => [i]
    case Success(_, j) => [i] + ManyStops(p, s, j)
  }

  /** Many returns the results of `p` in the order it read them: the k-th is what `p` returned
      where the (k-1)-th stopped, and Many ends where the first failing application left the
      cursor. */
  lemma {:induction false} ManyInOrder<T>(p: Parser<T>, s: string, i: nat)
    requires Advances(p, s)
    ensures var r := Many(p, s, i); var st := ManyStops(p, s, i);
      && |st| == |r.value| + 1 && st[0] == i
      && (forall k :: 0 <= k < |r.value| ==> p(s, st[k]) == Success(r.value[k], st[k + 1]))
      && p(s, st[|r.value|]).Failure? && p(s, st[|r.value|]).pos == r.pos
    decreases |s| - i
  {
    match p(s, i)
    case Failure(_) =>
    case Success(v, j) =>
      ManyInOrder(p, s, j);
      var rest := Many(p, s, j);
      assert Many(p, s, i).value == [v] + rest.value;
      assert ManyStops(p, s, i) == [i] + ManyStops(p, s, j);
  }

  /** When Many1 succeeds it returns what Many returns. */
  lemma {:induction false} Many1IsMany<T>(p: Parser<T>, s: string, i: nat)
    requires Advances(p, s)
    ensures Many1(p, s, i).Success? ==> Many1(p, s, i) == Many(p, s, i)
  {
  }

  /** Many1 of a parser that succeeds once and then fails returns that one result. */
  lemma Many1Once<T>(p: Parser<T>, s: string, i: nat, v: T, j: nat)
    requires Advances(p, s) && p(s, i) == Success(v, j) && p(s, j).Failure?
    ensures Many1(p, s, i) == Success([v], p(s, j).pos)
  {
    assert Many(p, s, j) == Success([], p(s, j).pos);
    assert [v] + [] == [v];
  }

  lemma SatisfyAdvances(pred: char -> bool, s: string)
    ensures Advances(Satisfy(pred), s) && Atomic(Satisfy(pred), s)
  {
  }

  /** Many over Satisfy collects exactly the maximal run of matching characters. */
  lemma {:induction false} ManySatisfy(pred: char -> bool, s: string, i: nat)
    requires i <= |s|
    ensures Advances(Satisfy(pred), s)
    ensures var r := Many(Satisfy(pred), s, i);
            MaximalRun(pred, s, i, r.pos) && r.value == s[i..r.pos]
    decreases |s| - i
  {
    SatisfyAdvances(pred, s);
    if i < |s| && pred(s[i]) {
      ManySatisfy(pred, s, i + 1);
      var rest := Many(Satisfy(pred), s, i + 1);
      assert Many(Satisfy(pred), s, i) == Success([s[i]] + rest.value, rest.pos);
      assert s[i..rest.pos] == [s[i]] + s[i + 1..rest.pos];
    } else {
      assert Many(Satisfy(pred), s, i) == Success([], i);
    }
  }

  /** Many1 over Satisfy fails exactly when the first character does not match, and otherwise
      collects the maximal run, which is then non-empty. */
  lemma Many1Satisfy(pred: char -> bool, s: string, i: nat)
    ensures Advances(Satisfy(pred), s)
    ensures var r := Many1(Satisfy(pred), s, i);
            && (r.Failure? <==> !(i < |s| && pred(s[i])))
            && (r.Failure? ==> r.pos == i)
            && (r.Success? ==> i < r.pos && MaximalRun(pred, s, i, r.pos) && r.value == s[i..r.pos])
  {
    SatisfyAdvances(pred, s);
    if i < |s| && pred(s[i]) {
      ManySatisfy(pred, s, i + 1);
      var rest := Many(Satisfy(pred), s, i + 1);
      assert s[i..rest.pos] == [s[i]] + s[i + 1..rest.pos];
    }
  }

  /** Every value Many returns is one that `p` can return: whatever holds of all successful
      results of `p` holds of all the elements. */
  lemma {:induction false} ManyYields<T>(p: Parser<T>, s: string, i: nat, ok: T -> bool)
    requires Advances(p, s)
    requires forall j: nat :: p(s, j).Success? ==> ok(p(s, j).value)
    ensures forall k :: 0 <= k < |Many(p, s, i).value| ==> ok(Many(p, s, i).value[k])
    decreases |s| - i
  {
    match p(s, i)
    case Failure(_) =>
    case Success(v, j) =>
      ManyYields(p, s, j, ok);
  }

  lemma Many1Yields<T>(p: Parser<T>, s: string, i: nat, ok: T -> bool)
    requires Advances(p, s)
    requires forall j: nat :: p(s, j).Success? ==> ok(p(s, j).value)
    ensures Many1(p, s, i).Success? ==> forall k :: 0 <= k < |Many1(p, s, i).value| ==> ok(Many1(p, s, i).value[k])
  {
    match p(s, i)
    case Failure(_) =>
    case Success(v, j) =>
      ManyYields(p, s, j, ok);
  }
}
