/** CustomerService: read-only lookups over the customer table. */
module CustomerService {
  import opened Wrappers
  import opened Text
  import opened Sorting
  import opened Domain
  import opened Dtos

  /** The `new CustomerDTO(...)` projection. */
  function ToCustomerDto(c: Customer): CustomerDto
  {
    CustomerDto(c.customerId, c.fullName, c.email, c.createdAt)
  }

  /** `GetCustomerByIdAsync`: the customer with that id, projected, or null. */
  function GetCustomerById(cs: seq<Customer>, id: int): (r: Option<CustomerDto>)
    ensures r.None? <==> forall k :: 0 <= k < |cs| ==> cs[k].customerId != id
    ensures r.Some? ==> exists c :: c in cs && c.customerId == id && r.value == ToCustomerDto(c)
  {
    match FindCustomer(cs, id)
    case None => None
    case Some(c) => Some(ToCustomerDto(c))
  }

  /** With unique ids the row holding the id is the one returned, its fields copied unchanged. */
  lemma GetCustomerByIdOfRow(cs: seq<Customer>, k: nat)
    requires UniqueCustomerIds(cs)
    requires k < |cs|
    ensures GetCustomerById(cs, cs[k].customerId)
         == Some(CustomerDto(cs[k].customerId, cs[k].fullName, cs[k].email, cs[k].createdAt))
  {
    FindCustomerUnique(cs, k);
  }

  /** `OrderBy(c => c.FullName)`. */
  predicate FullNameLe(a: Customer, b: Customer)
  {
    StrLe(a.fullName, b.fullName)
  }

  lemma FullNameLeIsTotalPreorder()
    ensures TotalPreorder(FullNameLe)
  {
    forall a: Customer, b: Customer
      ensures FullNameLe(a, b) || FullNameLe(b, a)
    {
      StrLeTotal(a.fullName, b.fullName);
    }
    forall a: Customer, b: Customer, c: Customer | FullNameLe(a, b) && FullNameLe(b, c)
      ensures FullNameLe(a, c)
    {
      StrLeTransitive(a.fullName, b.fullName, c.fullName);
    }
  }

  /** `GetAllCustomersAsync`: one DTO per customer row, none dropped or repeated, sorted by full name. */
  function GetAllCustomers(cs: seq<Customer>): (r: seq<CustomerDto>)
    ensures |r| == |cs|
    ensures multiset(r) == multiset(SeqMap(ToCustomerDto, cs))
    ensures forall i, j :: 0 <= i < j < |r| ==> StrLe(r[i].fullName, r[j].fullName)
  {
    var sorted := SortBy(cs, FullNameLe);
    FullNameLeIsTotalPreorder();
    SortBySorted(cs, FullNameLe);
    SeqMapPermutation(ToCustomerDto, sorted, cs);
    SeqMap(ToCustomerDto, sorted)
  }
}
