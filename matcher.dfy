/**
 * The void matcher: runs at most one action, that of the first case whose
 * test holds.  Each `Case` call tests its case at once, unless an earlier
 * case already fired.  The actions' own effects are the client's; the
 * model keeps a ghost log of which cases were tried, which narrowed
 * predicates ran and which action ran, with the argument it was handed.
 */
module Matchers {
  import opened Cases

  class Matcher<S(==), T, U, P> {
    const subject: S
    const types: TypeInfo<S, T, U, P>
    var matched: bool
    /** The cases passed to `Case` so far, in call order. */
    ghost var cases: seq<Clause<S, T, U, P, ()>>
    /** The cases tried, the narrowed predicates run and the action run so far. */
    ghost var log: seq<Event<S, P>>

    ghost predicate Valid()
      reads this
    {
      && matched == FirstMatch(types, subject, cases).Some?
      && log == Trace(types, subject, cases)
    }

    /** A fresh matcher over `subject`: nothing matched, nothing evaluated. */
    constructor (subject: S, types: TypeInfo<S, T, U, P>)
      ensures Valid()
      ensures this.subject == subject && this.types == types
      ensures !matched && cases == [] && log == []
    {
      this.subject := subject;
      this.types := types;
      matched := false;
      cases := [];
      log := [];
    }

    /**
     * Adds a case and returns this matcher for chaining.  Once a case has
     * fired, the call evaluates nothing; otherwise it tests `c` (a
     * type-plus-predicate case runs its predicate only once its type test
     * passed) and, when `c` holds, runs its action and records a match.
     */
    method Case(c: Clause<S, T, U, P, ()>) returns (self: Matcher<S, T, U, P>)
      requires Valid()
      modifies this
      ensures Valid() && self == this
      ensures cases == old(cases) + [c]
      ensures old(matched) ==> matched && log == old(log)
      ensures !old(matched) ==> matched == Holds(types, subject, c)
      ensures !old(matched) ==>
        log == old(log) + Attempt(types, subject, c, |old(cases)|) +
               (if Holds(types, subject, c) then [Fired(|old(cases)|, ArgOf(types, subject, c))] else [])
    {
      FirstMatchSnoc(types, subject, cases, c);
      if !matched {
        var n := |cases|;
        log := log + [Tested(n)];
        if NarrowedRuns(types, subject, c) {
          log := log + [Narrowed(n)];
        }
        if Holds(types, subject, c) {
          matched := true;
          log := log + [Fired(n, ArgOf(types, subject, c))];
        }
      }
      cases := cases + [c];
      TraceSnoc(types, subject, old(cases), c);
      self := this;
    }
  }

  /** How one more case extends the trace of a chain. */
  lemma TraceSnoc<S, T, U, P, R>(types: TypeInfo<S, T, U, P>, subject: S, cs: seq<Clause<S, T, U, P, R>>, c: Clause<S, T, U, P, R>)
    ensures FirstMatch(types, subject, cs).Some? ==> Trace(types, subject, cs + [c]) == Trace(types, subject, cs)
    ensures FirstMatch(types, subject, cs).None? ==>
      Trace(types, subject, cs + [c]) ==
        Trace(types, subject, cs) + Attempt(types, subject, c, |cs|) +
        (if Holds(types, subject, c) then [Fired(|cs|, ArgOf(types, subject, c))] else [])
  {
    FirstMatchSnoc(types, subject, cs, c);
    var cs' := cs + [c];
    match FirstMatch(types, subject, cs)
    case Some(k) =>
      assert cs'[k] == cs[k];
      AttemptsSnoc(types, subject, cs, c, k + 1);
    case None =>
      AttemptsSnoc(types, subject, cs, c, |cs|);
      assert cs'[|cs|] == c;
  }
}
