# Ifp.PatternMatching: the match-chain state machine in Dafny

Ifp.PatternMatching is a fluent pattern-matching library for C#. A subject is
tested against an ordered chain of `Case` calls. The first case whose test
holds commits, and no later test or action is evaluated. The library has two
kinds of matcher:

- the **void matcher** (`Pattern.Match(subject)`) runs the action of the first
  matching case, or nothing at all, and never fails;
- the **value matcher** (`Pattern.Match<TValue, TResult>(subject)`) computes
  the result of the first matching case. `Default(v)` closes it with `v`, and
  `Result` on a matcher that never matched fails with `NoMatchException`.

This project models both kinds and proves the promises of the chain.

- `cases.dfy` (module `Cases`) holds the case forms. A case's test is a
  no-argument boolean, a subject predicate, literal equality, a type test, a
  type test plus a predicate, or a type test plus `IMatchable<U>` extraction.
  Runtime type tests are asked of a `TypeInfo`: `isA(s, t)` is the
  (covariant) `s is t`, and `getArg(s, u)` is the matchable capability.
  `FirstMatch` is the reference definition of "first match wins". `Trace`
  gives the evaluation events a chain produces: which cases were tried,
  which type-plus-predicate cases ran their predicate (only after their type
  test passed), and which action ran with which argument.
- `return_matcher.dfy` (module `ReturnMatchers`) holds the value matcher.
  `Open(subject, types)` is the open state and `Closed(result)` is the
  `NullReturnMatcher`. Both have the members `Case`, `Default` and `Result`.
  `Value` exists on closed matchers only, and `Chain` is the left fold of
  `Case` over a sequence.
- `matcher.dfy` (module `Matchers`) holds the void matcher. It is a class
  with a `matched` flag and a ghost log of evaluation events. Its invariant
  ties the log to `Trace` of the cases passed so far.
- `animals.dfy` and `shoping_cart.dfy` hold the test classes as tagged
  datatypes. A type case is a switch on the tag.
- `pattern_tests.dfy` and `documentation_tests.dfy` restate the unit tests
  and documentation examples as methods and lemmas over the model.

## Model

| member | source | states |
|---|---|---|
| `ReturnMatchers.ReturnMatcher.Case` | Ifp.PatternMatching/NullReturnMatcher.cs:18-21 | On a closed matcher a case returns the same matcher, whatever its test and producer. The cited overrides cover the four cases with a boolean or subject-predicate test; the model gives every case form the same closed behaviour. An open matcher closes with the case's result when the case holds, and is otherwise unchanged. |
| `ReturnMatchers.ReturnMatcher.Result` | Ifp.PatternMatching/NullReturnMatcher.cs:16 | `Result` succeeds exactly on a closed matcher and returns the value it holds. An open matcher gives the no-match failure. So a closed state always holds a result. |
| `ReturnMatchers.ReturnMatcher.Default` | Ifp.PatternMatching.TestProxyTests/DocumentationTests.cs:21-25 | `Default(v)` always yields a closed matcher. An open matcher closes with `v`; a closed matcher is returned unchanged. |
| `ReturnMatchers.ReturnMatcher.Value` | Ifp.PatternMatching.TestProxyTests/DocumentationTests.cs:39-43 | The explicit accessor for the implicit conversion of a closed chain to its result: it is the value `Result` returns. |
| `ReturnMatchers.ClosedAbsorbs` | Ifp.PatternMatching/NullReturnMatcher.cs:16-29 | Folding any sequence of cases over a closed matcher leaves it unchanged, and `Result` stays the value it was constructed with. |
| `ReturnMatchers.ChainAppend` | Ifp.PatternMatching/NullReturnMatcher.cs:18-21 | Chaining cases `a` and then `b` is the same as chaining `a + b`: the chain is a left fold of `Case`. |
| `ReturnMatchers.FirstMatchWins` | Ifp.PatternMatching.TestProxyTests/DocumentationTests.cs:38-43 | A chain over an open matcher closes with the result of the first case that holds, computed from that case's argument. It stays open when no case holds. |
| `ReturnMatchers.NoMatchIff` | Ifp.PatternMatching.TestProxyTests/PatternTests.cs:163-172 | `Result` of a chain without default is the no-match failure exactly when no case holds. |
| `ReturnMatchers.DefaultSupplies` | Ifp.PatternMatching.TestProxyTests/DocumentationTests.cs:21-36 | After a chain, `Default(v)` gives `v` when no case matched. Otherwise it keeps the first match's result. |
| `ReturnMatchers.CasesAfterDefaultIgnored` | Ifp.PatternMatching/NullReturnMatcher.cs:18-21 | Once `Default` has closed a chain, any later cases leave it unchanged. |
| `ReturnMatchers.MatchInPrefixDecides` | Ifp.PatternMatching/NullReturnMatcher.cs:16-21 | When some case of a chain `a` matches, appending cases `b` changes nothing: the chain over `a + b` is the chain over `a`, and its result is the first match's. |
| `ReturnMatchers.EvaluatesIff` | Ifp.PatternMatching/NullReturnMatcher.cs:18-21 | In a chain over an open matcher, the `Case` call for case i evaluates its test exactly when no earlier case held. |
| `ReturnMatchers.EvaluatesAsTraced` | Ifp.PatternMatching.TestProxyTests/PatternTests.cs:63-103 | The value matcher evaluates the test of case i exactly when the void matcher's trace records that test, so both families test the same cases. |
| `ReturnMatchers.FiresIffFirstMatch` | Ifp.PatternMatching.TestProxyTests/DocumentationTests.cs:38-43 | The producer of case i runs, meaning case i is evaluated and holds, exactly when i is the first match. |
| `ReturnMatchers.AtMostOneProducer` | Ifp.PatternMatching.TestProxyTests/DocumentationTests.cs:38-43 | Two cases that are both evaluated and both hold are the same case, so at most one producer runs per chain. |
| `Cases.FirstMatch` | Ifp.PatternMatching.TestProxyTests/PatternTests.cs:26-35 | The index found holds, and no earlier case holds. None means that no case holds. |
| `Cases.ArgOf` | Ifp.PatternMatching.TestProxyTests/PatternTests.cs:50-59 | A matching case hands its action the subject itself. An extraction case hands over the payload that the subject's capability returns for the requested type. |
| `Cases.Fire` | Ifp.PatternMatching.TestProxyTests/DocumentationTests.cs:28-36 | The result of a matching case is its producer applied to the subject, or to the extracted payload for an extraction case. |
| `Cases.TraceOrder` | Ifp.PatternMatching.TestProxyTests/PatternTests.cs:63-103 | In a chain's trace, case i is tried exactly when no earlier case held. Its narrowed predicate runs exactly when it is tried, it is a type-plus-predicate case and its type test passed. An action of case i runs exactly when i is the first match, and it gets that case's argument. |
| `Cases.TraceAtMostOneAction` | Ifp.PatternMatching.TestProxyTests/PatternTests.cs:26-35 | A trace holds at most one action event, and it is the last event. |
| `Matchers.Matcher.constructor` | Ifp.PatternMatching.TestProxyTests/PatternTests.cs:21 | A fresh void matcher over the subject: nothing matched, no cases, nothing evaluated. |
| `Matchers.Matcher.Case` | Ifp.PatternMatching.TestProxyTests/PatternTests.cs:26-46 | Once matched, a `Case` call evaluates nothing and the matcher stays matched. Otherwise it logs that the case was tried, logs its narrowed predicate when a type-plus-predicate case passes its type test, and, if the case holds, logs the action with its argument and becomes matched. The log always equals `Trace` of the cases so far. |
| `Animals.NewDog` | Ifp.PatternMatching.TestProxyTests/TestClasses/Animals.cs:54-57 | `Dog(gender)` keeps the gender, has fur `Unspecified` and is not a search-and-rescue dog. |
| `Animals.NewDogWithFur` | Ifp.PatternMatching.TestProxyTests/TestClasses/Animals.cs:58-61 | `Dog(gender, fur)` keeps the gender and the fur, and is not a search-and-rescue dog. |
| `Animals.NewSearchAndRescueDog` | Ifp.PatternMatching.TestProxyTests/TestClasses/Animals.cs:63-67 | The full dog constructor keeps all three values. |
| `Animals.NewChicken` | Ifp.PatternMatching.TestProxyTests/TestClasses/Animals.cs:81-84 | `Chicken(gender)` keeps the gender and has feathering `Unspecified`. |
| `Animals.NewChickenWithFeathering` | Ifp.PatternMatching.TestProxyTests/TestClasses/Animals.cs:85-88 | `Chicken(gender, feathering)` keeps both values. |
| `Animals.IsA` | Ifp.PatternMatching.TestProxyTests/TestClasses/Animals.cs:43-52 | Every animal is an `Animal`. Only dogs are `Dog` and only chickens are `Chicken`. |
| `Animals.GetArg` | Ifp.PatternMatching.TestProxyTests/TestClasses/Animals.cs:74-97 | A dog offers only `Furs` and returns its fur. A chicken offers only `Featherings` and returns its feathering. Any other request gets nothing, and a payload's type is the type requested. |
| `Animals.TypeCasesOnAnimals` | Ifp.PatternMatching.TestProxyTests/PatternTests.cs:106-161 | `Case<Dog>` holds only for dogs and `Case<Chicken>` only for chickens. A type case with a test also needs that test. `Case<Dog, U>` holds exactly for U = Furs and passes the fur; the same holds for chickens and Featherings. |
| `ShopingCarts.IsCustomerA` | Ifp.PatternMatching.TestProxyTests/TestClasses/ShopingCart.cs:9-26 | A club member is a standard customer, and only club members are club members. |
| `ShopingCarts.NewWebShopingCart` | Ifp.PatternMatching.TestProxyTests/TestClasses/ShopingCart.cs:49-54 | A new web cart has a standard customer without debts, distance 0, order value 0 and no promotion code. |
| `PatternTests.ObjectMatchesItself` | Ifp.PatternMatching.TestProxyTests/PatternTests.cs:17-23 | A literal case equal to the subject fires its action. |
| `PatternTests.OnlyOneMatchIsExecuted` | Ifp.PatternMatching.TestProxyTests/PatternTests.cs:26-36 | Of two matching cases, only the first action runs, and the second test is never evaluated. |
| `PatternTests.NoMatchPassesOnActions` | Ifp.PatternMatching.TestProxyTests/PatternTests.cs:39-47 | With no matching case, no action runs and the matcher stays unmatched, with no failure. |
| `PatternTests.ObjectMatchesItselfAndIsPassedToTheActionDelegate` | Ifp.PatternMatching.TestProxyTests/PatternTests.cs:50-60 | The action of the literal case gets the subject itself. |
| `PatternTests.BoolReturningCaseFunctionMatchesOnTrue` | Ifp.PatternMatching.TestProxyTests/PatternTests.cs:63-73 | A false no-argument test is skipped, and the following true one fires. |
| `PatternTests.BoolReturningCaseFunctionMatchesOnTrueAndPassesTestValue` | Ifp.PatternMatching.TestProxyTests/PatternTests.cs:76-90 | As above, and the firing action gets the subject. |
| `PatternTests.TrueReturningPredicateActionIsCalledWithTheRightParameter` | Ifp.PatternMatching.TestProxyTests/PatternTests.cs:93-103 | Subject predicates are tested in order. The first true one fires, and its action gets the subject. |
| `PatternTests.TypeMatchingActionIsCalled` | Ifp.PatternMatching.TestProxyTests/PatternTests.cs:106-116 | For a dog, `Case<Chicken>` is skipped and `Case<Dog>` fires. |
| `PatternTests.TypeMatchingActionIsCalledWithCastParameter` | Ifp.PatternMatching.TestProxyTests/PatternTests.cs:119-129 | The `Case<Dog>` action gets the subject, which is a dog. |
| `PatternTests.TypeMatchingWithPredicateActionIsCalledWithCastParameter` | Ifp.PatternMatching.TestProxyTests/PatternTests.cs:132-148 | All four cases are tried. The two chicken cases fail on the type test, so their gender tests never run; the two dog cases run their gender tests, and only the fourth (a male dog) fires. |
| `PatternTests.OneFieldExtractedByMatch` | Ifp.PatternMatching.TestProxyTests/PatternTests.cs:151-161 | `Case<Dog, Featherings>` does not fire. `Case<Dog, Furs>` fires with the payload `Blond`. |
| `PatternTests.NoMatchRaisesExceptionOnFunctions` | Ifp.PatternMatching.TestProxyTests/PatternTests.cs:163-172 | A value match of a dog against a chicken literal, without default, gives the no-match failure. |
| `DocumentationTests.SpecialFrontendOffers` | Ifp.PatternMatching.TestProxyTests/DocumentationTests.cs:21-25 | 5% for a first-run app cart and 4% for a web cart with code "WebSpecial". Otherwise the default is 0. |
| `DocumentationTests.CustomerDiscount` | Ifp.PatternMatching.TestProxyTests/DocumentationTests.cs:29-33 | Club members get 10%, even though they are also standard customers. A standard customer gets 5% without debts and 0 with debts. Anyone else gets 0. |
| `DocumentationTests.CartDiscount` | Ifp.PatternMatching.TestProxyTests/DocumentationTests.cs:28-36 | Above an order value of 100, the result is that of the nested customer match. Above 50 it is 2%. Otherwise it is 0. |
| `DocumentationTests.Shipping` | Ifp.PatternMatching.TestProxyTests/DocumentationTests.cs:39-43 | The first threshold the distance exceeds decides the cost (7, 5, 3), with default 2. The chain is used as a value without `Result`. |
| `DocumentationTests.FirstThresholdWins` | Ifp.PatternMatching.TestProxyTests/DocumentationTests.cs:38-43 | Distance 2000 passes all three thresholds, yet the result is the first one's (7). |
| `DocumentationTests.ShopingCardTest` | Ifp.PatternMatching.TestProxyTests/DocumentationTests.cs:16-49 | The example's fresh web cart gets offer 0, discount 0 and shipping 2, for an overall figure of 2. |
| `DocumentationTests.SchulNote` | Ifp.PatternMatching.TestProxyTests/DocumentationTests.cs:52-62 | Literal cases map "A" to 1, and so on up to "E" to 5, each through the first equal case. Any other grade gives the no-match failure. |
| `DocumentationTests.AnimalNoises` | Ifp.PatternMatching.TestProxyTests/DocumentationTests.cs:65-71 | For a male chicken, `Case<Dog>` fails its type test. The chicken case passes its type test, runs its gender test and fires. |

## Left out

- The sources of the open value matcher (`ReturnMatcher`), the void matcher (`Matcher`) and `Pattern.Match` are not part of this model. Their behaviour here follows the unit tests and the documentation examples. The rows above cite those tests, not those classes.
- Reference identity: a literal case compares with Dafny value equality. In C#, two distinct `new Dog(Gender.Male)` objects are unequal under the default `Animal` equality; in the model they are equal.
- Side effects of client actions and producers are not modelled, and neither are exceptions they throw. The void matcher keeps only a ghost log of the cases tried, the narrowed predicates run and the action run, with its argument.
- Overloads: a no-argument test is a boolean value. A literal result, a no-argument producer and a producer taking the subject are all functions of the subject; the first two ignore it. `Default(Func<TResult>)` is `Default(v)`. A void action that takes no argument is logged with the argument it would have been handed.
- C# generics, runtime type tests and downcasts are a tag switch over closed datatypes. The narrowed value is the same tagged value, so a predicate on a narrowed value checks the tag itself.
- `ReturnMatchers.ReturnMatcher.Case`: `NullReturnMatcher.cs` overrides only the four `Case` overloads whose test is a `Func<bool>` or `Func<TValue, bool>`. The literal, type, type-plus-predicate and extraction cases and `Default` on a closed matcher are inherited from `ReturnMatcher`, which is not part of this model. The model gives them the same closed behaviour the library documents for a committed chain: they return the matcher unchanged.
- The trace records the predicate of a type-plus-predicate case as its own event, but not the capability call of an extraction case: its `Tested(i)` stands for both the type test and the extraction.
- The implicit conversion of a matcher to `TResult` is the explicit accessor `Value`, defined on closed matchers only.
- `decimal` rates are `real`. `Address.ShippingDistance`, a `float`, is an `int`.
- The bodies of `Bark` and `Cockadoodledoo` are empty no-ops, so a test's call to them is not modelled. The unused `SpecialAbility` enumeration is not modelled either.
- The shopping-cart classes are named `ShoppingCart`, `WebShoppingCart` and `AppShoppingCart` in `ShopingCart.cs`. The model follows the spelling the documentation examples use.
- The customer and cart datatypes are more general than the C# classes. `HasOutstandingDebts`, `ShippingDistance`, `OrderValue`, `PromoCode` and `IsFirstRunExperience` are get-only properties in `ShopingCart.cs`, and no constructor sets them, so a C# object always holds their defaults. The datatypes range over every value, and only the fresh web cart of the example is built from the defaults.
- `PayMethod`, `ClubMember.MembershipNumber` and `ClubMember.MembershipAge` are carried as data only; no behaviour depends on them.
- The MSTest attributes, the `Assert` calls and the `ExpectedException` mechanism are not modelled. The no-match exception is the `NoMatch` outcome of `Result`.
