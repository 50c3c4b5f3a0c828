/**
 * The clauses a match chain is built from, and how one clause is tested
 * against a subject.  Both matcher families (the value matcher in
 * ReturnMatchers, the void matcher in Matchers) share these definitions,
 * so they agree on which clause is the first to hold.
 */
module Cases {
  import opened Wrappers

  /**
   * What the engine may ask about a subject's runtime type.  `isA(s, t)`
   * holds when the runtime type of `s` is `t` or a subtype of `t` (type
   * cases match covariantly); `getArg(s, u)` is the payload of `s` when its
   * runtime type offers extraction of a `u`-typed value, and None otherwise.
   */
  datatype TypeInfo<!S, !T, !U, P> = TypeInfo(isA: (S, T) -> bool, getArg: (S, U) -> Option<P>)

  /** A subject type without subtypes and without extraction: its one type case always holds. */
  function SealedTypes<S>(): TypeInfo<S, (), (), ()>
  {
    TypeInfo((s, t) => true, (s, u) => None)
  }

  /** The predicate forms of a case. */
  datatype Test<!S, T> =
    | Always(holds: bool)                       // no-argument boolean test
    | Where(condition: S -> bool)               // boolean test over the subject
    | Equal(literal: S)                         // equality with a literal value
    | OfType(tag: T)                            // the subject's runtime type is-a `tag`
    | OfTypeWhere(tag: T, narrowed: S -> bool)  // type test, then a test of the narrowed value

  /**
   * A case: a test paired with a producer.  A producer that ignores its
   * argument stands for the overloads taking a literal result or a
   * no-argument function.  An extraction case hands its producer the
   * payload instead of the subject.
   */
  datatype Clause<!S, T, U, !P, R> =
    | Clause(test: Test<S, T>, onSubject: S -> R)
    | Extraction(tag: T, payloadType: U, onPayload: P -> R)

  /** The value handed to the action or producer of a case that fires. */
  datatype Arg<S, P> = Subject(subject: S) | Payload(payload: P)

  /** Whether test `t` holds of `subject`. */
  function TestHolds<S(==), T, U, P>(types: TypeInfo<S, T, U, P>, subject: S, t: Test<S, T>): bool
  {
    match t
    case Always(b) => b
    case Where(p) => p(subject)
    case Equal(lit) => subject == lit
    case OfType(tag) => types.isA(subject, tag)
    case OfTypeWhere(tag, p) => types.isA(subject, tag) && p(subject)
  }

  /** Whether case `c` matches `subject`. */
  function Holds<S(==), T, U, P, R>(types: TypeInfo<S, T, U, P>, subject: S, c: Clause<S, T, U, P, R>): bool
  {
    match c
    case Clause(t, _) => TestHolds(types, subject, t)
    case Extraction(tag, u, _) => types.isA(subject, tag) && types.getArg(subject, u).Some?
  }

  /** What a matching case hands to its action or producer. */
  function ArgOf<S(==), T, U, P, R>(types: TypeInfo<S, T, U, P>, subject: S, c: Clause<S, T, U, P, R>): (a: Arg<S, P>)
    requires Holds(types, subject, c)
    ensures c.Clause? ==> a == Subject(subject)
    ensures c.Extraction? ==> a.Payload? && Some(a.payload) == types.getArg(subject, c.payloadType)
  {
    match c
    case Clause(_, _) => Subject(subject)
    case Extraction(_, u, _) => Payload(types.getArg(subject, u).value)
  }

  /** The result a matching case produces: its producer applied to what `ArgOf` hands it. */
  function Fire<S(==), T, U, P, R>(types: TypeInfo<S, T, U, P>, subject: S, c: Clause<S, T, U, P, R>): (r: R)
    requires Holds(types, subject, c)
    ensures c.Clause? ==> r == c.onSubject(ArgOf(types, subject, c).subject)
    ensures c.Extraction? ==> r == c.onPayload(ArgOf(types, subject, c).payload)
  {
    match c
    case Clause(_, f) => f(subject)
    case Extraction(_, u, g) => g(types.getArg(subject, u).value)
  }

  /**
   * The reference definition of "first match wins": the least index of a
   * case that holds, or None when no case holds.
   */
  function FirstMatch<S(==), T, U, P, R>(types: TypeInfo<S, T, U, P>, subject: S, cs: seq<Clause<S, T, U, P, R>>): (k: Option<nat>)
    ensures k.Some? ==> k.value < |cs| && Holds(types, subject, cs[k.value])
    ensures k.Some? ==> forall j :: 0 <= j < k.value ==> !Holds(types, subject, cs[j])
    ensures k.None? ==> forall j :: 0 <= j < |cs| ==> !Holds(types, subject, cs[j])
  {
    if cs == [] then None
    else if Holds(types, subject, cs[0]) then Some(0)
    else
      match FirstMatch(types, subject, cs[1..])
      case None => None
      case Some(k) => Some(k + 1)
  }

  /** Any least matching index is the one FirstMatch finds. */
  lemma FirstMatchIs<S, T, U, P, R>(types: TypeInfo<S, T, U, P>, subject: S, cs: seq<Clause<S, T, U, P, R>>, k: nat)
    requires k < |cs| && Holds(types, subject, cs[k])
    requires forall j :: 0 <= j < k ==> !Holds(types, subject, cs[j])
    ensures FirstMatch(types, subject, cs) == Some(k)
  {
  }

  /** Appending a case: the first match is kept if there was one, otherwise the new case decides. */
  lemma FirstMatchSnoc<S, T, U, P, R>(types: TypeInfo<S, T, U, P>, subject: S, cs: seq<Clause<S, T, U, P, R>>, c: Clause<S, T, U, P, R>)
    ensures FirstMatch(types, subject, cs).Some? ==> FirstMatch(types, subject, cs + [c]) == FirstMatch(types, subject, cs)
    ensures FirstMatch(types, subject, cs).None? ==>
      FirstMatch(types, subject, cs + [c]) == if Holds(types, subject, c) then Some(|cs|) else None
  {
    var cs' := cs + [c];
    match FirstMatch(types, subject, cs)
    case Some(k) =>
      assert cs'[k] == cs[k];
      forall j | 0 <= j < k ensures !Holds(types, subject, cs'[j]) {
        assert cs'[j] == cs[j];
      }
      FirstMatchIs(types, subject, cs', k);
    case None =>
      forall j | 0 <= j < |cs| ensures !Holds(types, subject, cs'[j]) {
        assert cs'[j] == cs[j];
      }
      if Holds(types, subject, c) {
        FirstMatchIs(types, subject, cs', |cs|);
      }
  }

  /**
   * One event of a chain's evaluation: a case was tried (its first test
   * ran), a type-plus-predicate case's predicate ran on the narrowed
   * subject, or a case's action ran with an argument.
   */
  datatype Event<S, P> = Tested(index: nat) | Narrowed(index: nat) | Fired(index: nat, arg: Arg<S, P>)

  /**
   * Whether trying case `c` runs a predicate over the narrowed subject:
   * a type-plus-predicate case calls its predicate only once its type
   * test has passed.
   */
  function NarrowedRuns<S, T, U, P, R>(types: TypeInfo<S, T, U, P>, subject: S, c: Clause<S, T, U, P, R>): (b: bool)
    ensures b <==> (c.Clause? && c.test.OfTypeWhere? && types.isA(subject, c.test.tag))
  {
    match c
    case Clause(OfTypeWhere(tag, _), _) => types.isA(subject, tag)
    case _ => false
  }

  /** The events of trying case `c` at position i. */
  ghost function Attempt<S, T, U, P, R>(types: TypeInfo<S, T, U, P>, subject: S, c: Clause<S, T, U, P, R>, i: nat): seq<Event<S, P>>
  {
    [Tested(i)] + if NarrowedRuns(types, subject, c) then [Narrowed(i)] else []
  }

  /** The events of trying cases 0..n-1 of `cs` in order. */
  ghost function Attempts<S, T, U, P, R>(types: TypeInfo<S, T, U, P>, subject: S, cs: seq<Clause<S, T, U, P, R>>, n: nat): seq<Event<S, P>>
    requires n <= |cs|
  {
    if n == 0 then [] else Attempts(types, subject, cs, n - 1) + Attempt(types, subject, cs[n - 1], n - 1)
  }

  /** Which events trying the first n cases produces: their tests, the narrowed predicates that ran, and no action. */
  lemma {:induction false} AttemptsContain<S, T, U, P, R>(types: TypeInfo<S, T, U, P>, subject: S, cs: seq<Clause<S, T, U, P, R>>, n: nat, i: nat)
    requires n <= |cs|
    ensures Tested(i) in Attempts(types, subject, cs, n) <==> i < n
    ensures Narrowed(i) in Attempts(types, subject, cs, n) <==> i < n && NarrowedRuns(types, subject, cs[i])
    ensures forall j :: 0 <= j < |Attempts(types, subject, cs, n)| ==> !Attempts(types, subject, cs, n)[j].Fired?
  {
    if n > 0 {
      AttemptsContain(types, subject, cs, n - 1, i);
    }
  }

  /** Appending a case leaves the attempts at the cases already present unchanged. */
  lemma {:induction false} AttemptsSnoc<S, T, U, P, R>(types: TypeInfo<S, T, U, P>, subject: S, cs: seq<Clause<S, T, U, P, R>>, c: Clause<S, T, U, P, R>, n: nat)
    requires n <= |cs|
    ensures Attempts(types, subject, cs + [c], n) == Attempts(types, subject, cs, n)
  {
    if n > 0 {
      AttemptsSnoc(types, subject, cs, c, n - 1);
      assert (cs + [c])[n - 1] == cs[n - 1];
    }
  }

  /**
   * The events a chain over `cs` produces when every case is tried in
   * order and the chain commits at the first match: the attempts at
   * cases 0..k, then the action of case k; or every attempt when
   * nothing matches.
   */
  ghost function Trace<S, T, U, P, R>(types: TypeInfo<S, T, U, P>, subject: S, cs: seq<Clause<S, T, U, P, R>>): seq<Event<S, P>>
  {
    match FirstMatch(types, subject, cs)
    case None => Attempts(types, subject, cs, |cs|)
    case Some(k) => Attempts(types, subject, cs, k + 1) + [Fired(k, ArgOf(types, subject, cs[k]))]
  }

  /**
   * What the trace promises: case i is tried exactly when no earlier
   * case held; its narrowed predicate runs exactly when it is tried, it
   * is a type-plus-predicate case and its type test passed; at most one
   * action runs, and it is the action of the first case that holds,
   * handed that case's argument.
   */
  lemma TraceOrder<S, T, U, P, R>(types: TypeInfo<S, T, U, P>, subject: S, cs: seq<Clause<S, T, U, P, R>>, i: nat)
    requires i < |cs|
    ensures Tested(i) in Trace(types, subject, cs) <==> forall j :: 0 <= j < i ==> !Holds(types, subject, cs[j])
    ensures Narrowed(i) in Trace(types, subject, cs) <==>
      ((forall j :: 0 <= j < i ==> !Holds(types, subject, cs[j])) &&
       cs[i].Clause? && cs[i].test.OfTypeWhere? && types.isA(subject, cs[i].test.tag))
    ensures forall a :: Fired(i, a) in Trace(types, subject, cs) <==>
      (FirstMatch(types, subject, cs) == Some(i) && a == ArgOf(types, subject, cs[i]))
  {
    var tr := Trace(types, subject, cs);
    match FirstMatch(types, subject, cs)
    case None =>
      AttemptsContain(types, subject, cs, |cs|, i);
    case Some(k) =>
      var pre := Attempts(types, subject, cs, k + 1);
      AttemptsContain(types, subject, cs, k + 1, i);
      assert Tested(i) in tr <==> Tested(i) in pre;
      assert Narrowed(i) in tr <==> Narrowed(i) in pre;
      forall a ensures Fired(i, a) in tr <==> (k == i && a == ArgOf(types, subject, cs[i])) {
        assert Fired(i, a) in tr <==> Fired(i, a) in pre || Fired(i, a) == Fired(k, ArgOf(types, subject, cs[k]));
      }
  }

  /** At most one action runs in a chain, and it is the last event of the trace. */
  lemma TraceAtMostOneAction<S, T, U, P, R>(types: TypeInfo<S, T, U, P>, subject: S, cs: seq<Clause<S, T, U, P, R>>, n: nat, n': nat)
    requires n < |Trace(types, subject, cs)| && n' < |Trace(types, subject, cs)|
    requires Trace(types, subject, cs)[n].Fired? && Trace(types, subject, cs)[n'].Fired?
    ensures n == n' == |Trace(types, subject, cs)| - 1
  {
    match FirstMatch(types, subject, cs)
    case None =>
      AttemptsContain(types, subject, cs, |cs|, 0);
    case Some(k) =>
      AttemptsContain(types, subject, cs, k + 1, 0);
  }
}
