/**
 * The documentation examples as value-matcher chains: sub-type matching
 * with conditions, a nested match as a producer, ordered thresholds
 * ending in a default, and a literal table.
 */
module DocumentationTests {
  import opened Wrappers
  import opened Cases
  import opened ReturnMatchers
  import opened Matchers
  import opened Animals
  import PatternTests
  import opened ShopingCarts

  type CartMatcher = ReturnMatcher<ShopingCart, CartType, (), (), real>

  /**
   * Frontend offers: 5% for a first-run app order, 4% for the web
   * promotion code "WebSpecial", otherwise the default 0.
   */
  function SpecialFrontendOffers(cart: ShopingCart): (offer: real)
    ensures cart.AppShopingCart? && cart.isFirstRunExperience ==> offer == 0.05
    ensures cart.WebShopingCart? && cart.promoCode == Some("WebSpecial") ==> offer == 0.04
    ensures (!(cart.AppShopingCart? && cart.isFirstRunExperience) &&
             !(cart.WebShopingCart? && cart.promoCode == Some("WebSpecial"))) ==> offer == 0.0
  {
    var m: CartMatcher := Open(cart, CartTypes());
    m.Case(Clause(OfTypeWhere(AppShopingCartT, (c: ShopingCart) => c.AppShopingCart? && c.isFirstRunExperience), _ => 0.05))
     .Case(Clause(OfTypeWhere(WebShopingCartT, (c: ShopingCart) => c.WebShopingCart? && c.promoCode == Some("WebSpecial")), _ => 0.04))
     .Default(0.0)
     .Result().value
  }

  /**
   * The nested match on the customer: a club member always gets 10%, a
   * standard customer 5% when without outstanding debts, anyone else 0.
   * A club member is also a standard customer; the earlier case wins.
   */
  function CustomerDiscount(customer: Customer): (discount: real)
    ensures customer.ClubMember? ==> discount == 0.1
    ensures customer.StandardCustomer? ==> discount == if customer.hasOutstandingDebts then 0.0 else 0.05
    ensures customer.FirstTimeCustomer? ==> discount == 0.0
  {
    var m: ReturnMatcher<Customer, CustomerType, (), (), real> := Open(customer, CustomerTypes());
    m.Case(Clause(OfType(ClubMemberT), _ => 0.1))
     .Case(Clause(OfTypeWhere(StandardCustomerT, (c: Customer) => !c.FirstTimeCustomer? && !c.hasOutstandingDebts), _ => 0.05))
     .Default(0.0)
     .Result().value
  }

  /**
   * Cart discounts: above an order value of 100 the nested customer match
   * decides; above 50 the discount is 2%; otherwise 0.
   */
  function CartDiscount(cart: ShopingCart): (discount: real)
    ensures cart.orderValue > 100 ==> discount == CustomerDiscount(cart.customer)
    ensures 50 < cart.orderValue <= 100 ==> discount == 0.02
    ensures cart.orderValue <= 50 ==> discount == 0.0
  {
    var m: CartMatcher := Open(cart, CartTypes());
    m.Case(Clause(Where((c: ShopingCart) => c.orderValue > 100), (c: ShopingCart) => CustomerDiscount(c.customer)))
     .Case(Clause(Where((c: ShopingCart) => c.orderValue > 50), _ => 0.02))
     .Default(0.0)
     .Result().value
  }

  /**
   * Shipping cost by ordered distance thresholds: the first threshold the
   * distance exceeds decides, the default is 2.  The chain is used as the
   * value directly, without `Result`.
   */
  function Shipping(address: Address): (cost: real)
    ensures address.shippingDistance > 1000 ==> cost == 7.0
    ensures 500 < address.shippingDistance <= 1000 ==> cost == 5.0
    ensures 50 < address.shippingDistance <= 500 ==> cost == 3.0
    ensures address.shippingDistance <= 50 ==> cost == 2.0
  {
    var m: ReturnMatcher<Address, (), (), (), real> := Open(address, SealedTypes());
    m.Case(Clause(Where((a: Address) => a.shippingDistance > 1000), _ => 7.0))
     .Case(Clause(Where((a: Address) => a.shippingDistance > 500), _ => 5.0))
     .Case(Clause(Where((a: Address) => a.shippingDistance > 50), _ => 3.0))
     .Default(2.0)
     .Value()
  }

  /** The overall figure the example computes: order value, plus order value times each rate, plus shipping. */
  function Overall(cart: ShopingCart): real
  {
    var value := cart.orderValue as real;
    value + value * SpecialFrontendOffers(cart) + value * CartDiscount(cart) + Shipping(cart.shippingAddress)
  }

  /** The example's own cart: a fresh web cart gets no offer, no discount, shipping 2 and costs 2 overall. */
  lemma ShopingCardTest()
    ensures SpecialFrontendOffers(NewWebShopingCart()) == 0.0
    ensures CartDiscount(NewWebShopingCart()) == 0.0
    ensures Shipping(NewWebShopingCart().shippingAddress) == 2.0
    ensures Overall(NewWebShopingCart()) == 2.0
  {
  }

  /**
   * After the first match all other cases are ignored: a distance of 2000
   * passes all three thresholds, yet the result is that of the first.
   */
  lemma FirstThresholdWins()
    ensures
      var cs: seq<Clause<Address, (), (), (), real>> := [
        Clause(Where((a: Address) => a.shippingDistance > 1000), _ => 7.0),
        Clause(Where((a: Address) => a.shippingDistance > 500), _ => 5.0),
        Clause(Where((a: Address) => a.shippingDistance > 50), _ => 3.0)];
      (forall j :: 0 <= j < |cs| ==> Holds(SealedTypes(), Address(2000), cs[j])) &&
      Open(Address(2000), SealedTypes()).Chain(cs).Default(2.0).Value() == 7.0
  {
    var cs: seq<Clause<Address, (), (), (), real>> := [
      Clause(Where((a: Address) => a.shippingDistance > 1000), _ => 7.0),
      Clause(Where((a: Address) => a.shippingDistance > 500), _ => 5.0),
      Clause(Where((a: Address) => a.shippingDistance > 50), _ => 3.0)];
    DefaultSupplies(Address(2000), SealedTypes(), cs, 2.0);
  }

  /** Grades "A" to "E" map to 1 to 5 through literal cases; any other grade has no match. */
  function SchulNote(grade: string): (note: Outcome<int>)
    ensures grade == "A" ==> note == Success(1)
    ensures grade == "B" ==> note == Success(2)
    ensures grade == "C" ==> note == Success(3)
    ensures grade == "D" ==> note == Success(4)
    ensures grade == "E" ==> note == Success(5)
    ensures grade !in {"A", "B", "C", "D", "E"} ==> note == NoMatch
  {
    var m: ReturnMatcher<string, (), (), (), int> := Open(grade, SealedTypes());
    m.Case(Clause(Equal("A"), _ => 1))
     .Case(Clause(Equal("B"), _ => 2))
     .Case(Clause(Equal("C"), _ => 3))
     .Case(Clause(Equal("D"), _ => 4))
     .Case(Clause(Equal("E"), _ => 5))
     .Result()
  }

  /** A male chicken: `Case<Dog>` is skipped, the chicken case runs its gender test and fires. */
  method AnimalNoises() returns (m: Matcher<Animal, AnimalType, PayloadType, Payload>)
    ensures m.log == [Tested(0), Tested(1), Narrowed(1), Fired(1, Subject(NewChicken(Male)))]
  {
    var animal := NewChicken(Male);
    m := new Matcher(animal, AnimalTypes());
    m := m.Case(Clause(OfType(DogT), PatternTests.Act));
    m := m.Case(Clause(OfTypeWhere(ChickenT, (c: Animal) => c.gender == Male), PatternTests.Act));
  }
}
