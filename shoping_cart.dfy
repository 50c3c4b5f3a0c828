/**
 * The shopping-cart domain that the documentation examples match on:
 * customers with a subtype relation, addresses and the two cart kinds.
 */
module ShopingCarts {
  import opened Wrappers
  import opened Cases

  /** A ClubMember is a StandardCustomer with membership data. */
  datatype Customer =
    | FirstTimeCustomer
    | StandardCustomer(hasOutstandingDebts: bool)
    | ClubMember(hasOutstandingDebts: bool, membershipNumber: string, membershipAge: int)

  datatype CustomerType = CustomerT | FirstTimeCustomerT | StandardCustomerT | ClubMemberT

  /** `c is t`, with ClubMember a subtype of StandardCustomer. */
  function IsCustomerA(c: Customer, t: CustomerType): (b: bool)
    ensures t == StandardCustomerT ==> (b <==> c.StandardCustomer? || c.ClubMember?)
    ensures t == ClubMemberT ==> (b <==> c.ClubMember?)
  {
    match t
    case CustomerT => true
    case FirstTimeCustomerT => c.FirstTimeCustomer?
    case StandardCustomerT => c.StandardCustomer? || c.ClubMember?
    case ClubMemberT => c.ClubMember?
  }

  datatype PayMethod = CreditCard | AdvancePayment

  /** The shipping distance, a float in C#, is an integer here. */
  datatype Address = Address(shippingDistance: int)

  datatype ShopingCart =
    | WebShopingCart(orderValue: int, customer: Customer, shippingAddress: Address, payMethod: PayMethod,
                     promoCode: Option<string>)
    | AppShopingCart(orderValue: int, customer: Customer, shippingAddress: Address, payMethod: PayMethod,
                     isFirstRunExperience: bool)

  datatype CartType = ShopingCartT | WebShopingCartT | AppShopingCartT

  function IsCartA(c: ShopingCart, t: CartType): bool
  {
    match t
    case ShopingCartT => true
    case WebShopingCartT => c.WebShopingCart?
    case AppShopingCartT => c.AppShopingCart?
  }

  /**
   * `new WebShopingCart()`: a standard customer without debts, a default
   * address, advance payment, order value 0 and no promotion code.
   */
  function NewWebShopingCart(): (c: ShopingCart)
    ensures c.WebShopingCart? && c.orderValue == 0 && c.promoCode.None?
    ensures c.customer == StandardCustomer(false) && c.shippingAddress.shippingDistance == 0
  {
    WebShopingCart(0, StandardCustomer(false), Address(0), AdvancePayment, None)
  }

  /** None of these types offers extraction. */
  function CustomerTypes(): TypeInfo<Customer, CustomerType, (), ()>
  {
    TypeInfo(IsCustomerA, (c, u) => None)
  }

  function CartTypes(): TypeInfo<ShopingCart, CartType, (), ()>
  {
    TypeInfo(IsCartA, (c, u) => None)
  }
}
