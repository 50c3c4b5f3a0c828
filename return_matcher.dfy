/**
 * The value matcher: a two-state machine.  `Open` still tests each new
 * case against its subject; `Closed` holds the committed result and
 * absorbs every further `Case` and `Default` (the NullReturnMatcher).
 */
module ReturnMatchers {
  import opened Wrappers
  import opened Cases

  /** `Result` of a matcher: the committed value, or the no-match failure (NoMatchException). */
  datatype Outcome<R> = Success(value: R) | NoMatch

  datatype ReturnMatcher<!S(==), !T, !U, P, R> =
    | Open(subject: S, types: TypeInfo<S, T, U, P>)
    | Closed(result: R)
  {
    /**
     * Adds a case.  A closed matcher returns itself whatever the case, so
     * neither the case's test nor its producer is evaluated; an open one
     * commits to the case's result when the case holds.
     */
    function Case(c: Clause<S, T, U, P, R>): (m: ReturnMatcher<S, T, U, P, R>)
      ensures Closed? ==> m == this
      ensures Open? && Holds(types, subject, c) ==> m == Closed(Fire(types, subject, c))
      ensures Open? && !Holds(types, subject, c) ==> m == this
    {
      match this
      case Closed(_) => this
      case Open(s, ty) => if Holds(ty, s, c) then Closed(Fire(ty, s, c)) else this
    }

    /** Closes an open matcher with `v`; a closed matcher keeps its result. */
    function Default(v: R): (m: ReturnMatcher<S, T, U, P, R>)
      ensures m.Closed?
      ensures Closed? ==> m == this
      ensures Open? ==> m.result == v
    {
      match this
      case Closed(_) => this
      case Open(_, _) => Closed(v)
    }

    /** The committed result, or NoMatch when no case matched and no default was given. */
    function Result(): (r: Outcome<R>)
      ensures r.Success? <==> Closed?
      ensures Closed? ==> r.value == result
    {
      match this
      case Closed(x) => Success(x)
      case Open(_, _) => NoMatch
    }

    /**
     * The value of a closed chain, where C# converts the matcher
     * implicitly to its result type.
     */
    function Value(): (r: R)
      requires Closed?
      ensures Result() == Success(r)
    {
      result
    }

    /** The chain `this.Case(cs[0]).Case(cs[1])...`: a left fold of `Case` over `cs`. */
    function Chain(cs: seq<Clause<S, T, U, P, R>>): ReturnMatcher<S, T, U, P, R>
      decreases |cs|
    {
      if cs == [] then this else Case(cs[0]).Chain(cs[1..])
    }
  }

  /** Chaining `a` then `b` is chaining `a + b`. */
  lemma {:induction false} ChainAppend<S, T, U, P, R>(m: ReturnMatcher<S, T, U, P, R>, a: seq<Clause<S, T, U, P, R>>, b: seq<Clause<S, T, U, P, R>>)
    ensures m.Chain(a + b) == m.Chain(a).Chain(b)
    decreases |a|
  {
    if a == [] {
      assert a + b == b;
    } else {
      assert (a + b)[1..] == a[1..] + b;
      ChainAppend(m.Case(a[0]), a[1..], b);
    }
  }

  /**
   * A closed matcher absorbs any sequence of cases: its result is the
   * value it was created with, so no later case can change the outcome.
   */
  lemma {:induction false} ClosedAbsorbs<S, T, U, P, R>(m: ReturnMatcher<S, T, U, P, R>, cs: seq<Clause<S, T, U, P, R>>)
    requires m.Closed?
    ensures m.Chain(cs) == m
    ensures m.Chain(cs).Result() == Success(m.result)
    decreases |cs|
  {
    if cs != [] {
      ClosedAbsorbs(m.Case(cs[0]), cs[1..]);
    }
  }

  /**
   * First match wins: a chain over an open matcher closes with the result
   * of the first case that holds, and stays open when none holds.
   */
  lemma {:induction false} FirstMatchWins<S, T, U, P, R>(subject: S, types: TypeInfo<S, T, U, P>, cs: seq<Clause<S, T, U, P, R>>)
    ensures Open(subject, types).Chain(cs) ==
      match FirstMatch(types, subject, cs)
      case None => Open(subject, types)
      case Some(k) => Closed(Fire(types, subject, cs[k]))
    decreases |cs|
  {
    var m: ReturnMatcher<S, T, U, P, R> := Open(subject, types);
    if cs != [] {
      if Holds(types, subject, cs[0]) {
        ClosedAbsorbs(m.Case(cs[0]), cs[1..]);
      } else {
        FirstMatchWins(subject, types, cs[1..]);
        match FirstMatch(types, subject, cs[1..])
        case None =>
        case Some(k) => assert cs[1..][k] == cs[k + 1];
      }
    }
  }

  /** Result fails with NoMatch exactly when no case holds. */
  lemma NoMatchIff<S, T, U, P, R>(subject: S, types: TypeInfo<S, T, U, P>, cs: seq<Clause<S, T, U, P, R>>)
    ensures Open(subject, types).Chain(cs).Result() == NoMatch <==>
      forall j :: 0 <= j < |cs| ==> !Holds(types, subject, cs[j])
  {
    FirstMatchWins(subject, types, cs);
  }

  /**
   * `Default(v)` supplies `v` exactly when no earlier case matched, and
   * never overrides a result already committed.
   */
  lemma DefaultSupplies<S, T, U, P, R>(subject: S, types: TypeInfo<S, T, U, P>, cs: seq<Clause<S, T, U, P, R>>, v: R)
    ensures Open(subject, types).Chain(cs).Default(v).Result() ==
      match FirstMatch(types, subject, cs)
      case None => Success(v)
      case Some(k) => Success(Fire(types, subject, cs[k]))
  {
    FirstMatchWins(subject, types, cs);
  }

  /** Cases after `Default` change nothing: the defaulted chain is closed. */
  lemma CasesAfterDefaultIgnored<S, T, U, P, R>(m: ReturnMatcher<S, T, U, P, R>, v: R, cs: seq<Clause<S, T, U, P, R>>)
    ensures m.Default(v).Chain(cs) == m.Default(v)
  {
    ClosedAbsorbs(m.Default(v), cs);
  }

  /**
   * Once a case of `a` has matched, cases appended after `a` change
   * nothing: the chain over `a + b` is the chain over `a`, and its result
   * is the first match's.
   */
  lemma MatchInPrefixDecides<S, T, U, P, R>(subject: S, types: TypeInfo<S, T, U, P>, a: seq<Clause<S, T, U, P, R>>, b: seq<Clause<S, T, U, P, R>>)
    requires FirstMatch(types, subject, a).Some?
    ensures Open(subject, types).Chain(a + b) == Open(subject, types).Chain(a)
    ensures Open(subject, types).Chain(a + b).Result() == Success(Fire(types, subject, a[FirstMatch(types, subject, a).value]))
  {
    var m: ReturnMatcher<S, T, U, P, R> := Open(subject, types);
    ChainAppend(m, a, b);
    FirstMatchWins(subject, types, a);
    ClosedAbsorbs(m.Chain(a), b);
  }

  /** The i-th `Case` call of a chain evaluates its case's test: the matcher it is called on is still open. */
  ghost predicate Evaluates<S, T, U, P, R>(m: ReturnMatcher<S, T, U, P, R>, cs: seq<Clause<S, T, U, P, R>>, i: nat)
    requires i < |cs|
  {
    m.Chain(cs[..i]).Open?
  }

  /**
   * Laziness: in a chain over an open matcher, the test of case i is
   * evaluated exactly when no earlier case held.
   */
  lemma EvaluatesIff<S, T, U, P, R>(subject: S, types: TypeInfo<S, T, U, P>, cs: seq<Clause<S, T, U, P, R>>, i: nat)
    requires i < |cs|
    ensures Evaluates(Open(subject, types), cs, i) <==> forall j :: 0 <= j < i ==> !Holds(types, subject, cs[j])
  {
    var pre := cs[..i];
    FirstMatchWins(subject, types, pre);
    match FirstMatch(types, subject, pre)
    case None =>
      forall j | 0 <= j < i ensures !Holds(types, subject, cs[j]) {
        assert pre[j] == cs[j];
      }
    case Some(k) =>
      assert pre[k] == cs[k];
  }

  /** The value matcher evaluates a test exactly when the void matcher's trace records that test. */
  lemma EvaluatesAsTraced<S, T, U, P, R>(subject: S, types: TypeInfo<S, T, U, P>, cs: seq<Clause<S, T, U, P, R>>, i: nat)
    requires i < |cs|
    ensures Evaluates(Open(subject, types), cs, i) <==> Tested(i) in Trace(types, subject, cs)
  {
    EvaluatesIff(subject, types, cs, i);
    TraceOrder(types, subject, cs, i);
  }

  /** The producer of case i runs, that is case i is evaluated and holds, exactly when i is the first match. */
  lemma FiresIffFirstMatch<S, T, U, P, R>(subject: S, types: TypeInfo<S, T, U, P>, cs: seq<Clause<S, T, U, P, R>>, i: nat)
    requires i < |cs|
    ensures Evaluates(Open(subject, types), cs, i) && Holds(types, subject, cs[i]) <==>
      FirstMatch(types, subject, cs) == Some(i)
  {
    EvaluatesIff(subject, types, cs, i);
  }

  /** At most one producer runs per chain. */
  lemma AtMostOneProducer<S, T, U, P, R>(subject: S, types: TypeInfo<S, T, U, P>, cs: seq<Clause<S, T, U, P, R>>, i: nat, i': nat)
    requires i < |cs| && i' < |cs|
    requires Evaluates(Open(subject, types), cs, i) && Holds(types, subject, cs[i])
    requires Evaluates(Open(subject, types), cs, i') && Holds(types, subject, cs[i'])
    ensures i == i'
  {
    FiresIffFirstMatch(subject, types, cs, i);
    FiresIffFirstMatch(subject, types, cs, i');
  }
}
