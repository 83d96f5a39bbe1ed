/** The products store: the catalogue list, a `loading` flag and an
    optional error message, with `fetchProducts`, `clearError` and
    `updateProduct`. The network request behind `fetchProducts` is replaced
    by the outcome it settles with, given as a parameter. */
module ProductsStore {
  import opened Wrappers
  import opened ProductTypes

  datatype ProductsState = ProductsState(
    products: seq<Product>,
    loading: bool,
    error: Option<string>   // `null` is `None`
  )

  /** The state the store is created with. */
  const InitialState: ProductsState := ProductsState([], false, None)

  /** The store starts idle, with no products and no error, and clearing
      the error there changes nothing. */
  lemma InitialStateIdle()
    ensures !InitialState.loading && InitialState.error.None? && |InitialState.products| == 0
    ensures ClearError(InitialState) == InitialState
  {
  }

  /** The message stored when the value thrown is not an `Error`. */
  const FetchFailedMessage: string := "Failed to fetch products"

  /** What a rejected request threw: an `Error` instance, which carries a
      message, or any other value. */
  datatype Thrown = ErrorInstance(message: string) | OtherValue

  /** How the awaited request settled. */
  datatype FetchOutcome = Resolved(fetched: seq<Product>) | Rejected(reason: Thrown)

  // ---------------------------------------------------------------------
  // fetchProducts

  /** The message the `catch` block stores for a thrown value. */
  function ErrorMessage(reason: Thrown): string {
    match reason
    case ErrorInstance(msg) => msg
    case OtherValue => FetchFailedMessage
  }

  /** The state while the request is pending: loading, no error, the old
      list still shown. */
  function StartFetch(s: ProductsState): ProductsState {
    s.(loading := true, error := None)
  }

  /** While the request is pending the store shows it is loading, holds no
      error, and still shows the list it had before the call. */
  lemma StartFetchPending(s: ProductsState)
    ensures StartFetch(s).loading
    ensures StartFetch(s).error == None
    ensures StartFetch(s).products == s.products
  {
  }

  /** The state once the request settles: the `try` stores the list, the
      `catch` stores a message, the `finally` clears `loading`. */
  function SettleFetch(pending: ProductsState, outcome: FetchOutcome): ProductsState {
    var afterTry :=
      match outcome
      case Resolved(list) => pending.(products := list)
      case Rejected(reason) => pending.(error := Some(ErrorMessage(reason)));
    afterTry.(loading := false)
  }

  /** `fetchProducts`, from the state before the call to the state after
      the awaited request has settled with `outcome`. */
  function FetchProducts(s: ProductsState, outcome: FetchOutcome): (r: ProductsState)
    ensures !r.loading
    ensures outcome.Resolved? ==> r.products == outcome.fetched && r.error == None
    ensures outcome.Rejected? ==> r.products == s.products
    ensures outcome.Rejected? && outcome.reason.ErrorInstance? ==> r.error == Some(outcome.reason.message)
    ensures outcome.Rejected? && outcome.reason.OtherValue? ==> r.error == Some(FetchFailedMessage)
  {
    SettleFetch(StartFetch(s), outcome)
  }

  /** After a fetch the error is clear exactly when the request succeeded. */
  lemma FetchErrorIffRejected(s: ProductsState, outcome: FetchOutcome)
    ensures FetchProducts(s, outcome).error.None? <==> outcome.Resolved?
  {
  }

  /** The result of a fetch does not depend on the flag or message held
      before it: only the old list survives, and only on failure. */
  lemma FetchForgetsPreviousStatus(s: ProductsState, t: ProductsState, outcome: FetchOutcome)
    requires s.products == t.products
    ensures FetchProducts(s, outcome) == FetchProducts(t, outcome)
  {
  }

  /** A successful fetch replaces the whole list, so repeating it with the
      same response changes nothing more. */
  lemma FetchResolvedIdempotent(s: ProductsState, list: seq<Product>)
    ensures FetchProducts(FetchProducts(s, Resolved(list)), Resolved(list))
         == FetchProducts(s, Resolved(list))
  {
  }

  // ---------------------------------------------------------------------
  // clearError

  /** `clearError`. */
  function ClearError(s: ProductsState): ProductsState {
    s.(error := None)
  }

  /** `clearError` empties the error, leaves the list and the flag alone,
      and doing it twice is doing it once. */
  lemma ClearErrorSpec(s: ProductsState)
    ensures ClearError(s).error == None
    ensures ClearError(s).products == s.products && ClearError(s).loading == s.loading
    ensures ClearError(ClearError(s)) == ClearError(s)
    ensures s.error == None ==> ClearError(s) == s
  {
  }

  // ---------------------------------------------------------------------
  // updateProduct

  /** `products.findIndex(p => p.id === id)`: the first position holding
      that id, or -1 when there is none. */
  function FindIndex(products: seq<Product>, id: int): (r: int)
    ensures -1 <= r < |products|
    ensures r == -1 <==> forall k :: 0 <= k < |products| ==> products[k].id != id
    ensures r != -1 ==> products[r].id == id && forall j :: 0 <= j < r ==> products[j].id != id
  {
    if |products| == 0 then -1
    else if products[0].id == id then 0
    else
      var k := FindIndex(products[1..], id);
      if k == -1 then -1 else k + 1
  }

  /** `updateProduct`: the first product with the same id is replaced by
      `updated`; with no such product nothing changes. */
  function UpdateProduct(s: ProductsState, updated: Product): (r: ProductsState)
    ensures r.loading == s.loading && r.error == s.error
    ensures |r.products| == |s.products|
    ensures (forall k :: 0 <= k < |s.products| ==> s.products[k].id != updated.id) ==> r == s
    ensures forall k :: 0 <= k < |s.products| && s.products[k].id == updated.id
                        && (forall j :: 0 <= j < k ==> s.products[j].id != updated.id) ==>
      && r.products[k] == updated
      && (forall j :: 0 <= j < |s.products| && j != k ==> r.products[j] == s.products[j])
  {
    var index := FindIndex(s.products, updated.id);
    if index != -1 then s.(products := s.products[index := updated]) else s
  }

  /** No position changes its id: the list keeps the same sequence of
      keys, so later lookups find the same positions. */
  lemma UpdateProductKeepsIds(s: ProductsState, updated: Product)
    ensures forall k :: 0 <= k < |s.products| ==>
      UpdateProduct(s, updated).products[k].id == s.products[k].id
    ensures FindIndex(UpdateProduct(s, updated).products, updated.id) == FindIndex(s.products, updated.id)
  {
    var i := FindIndex(s.products, updated.id);
    if i != -1 {
      var r := s.products[i := updated];
      assert UpdateProduct(s, updated).products == r;
      assert forall j :: 0 <= j < i ==> r[j] == s.products[j];
    }
  }

  /** Applying the same update twice is applying it once. */
  lemma UpdateProductIdempotent(s: ProductsState, updated: Product)
    ensures UpdateProduct(UpdateProduct(s, updated), updated) == UpdateProduct(s, updated)
  {
    UpdateProductKeepsIds(s, updated);
    var i := FindIndex(s.products, updated.id);
    if i != -1 {
      var once := UpdateProduct(s, updated);
      assert once.products[i] == updated;
      assert once.products[i := updated] == once.products;
    }
  }

  /** Only the first of several products sharing an id is replaced: any
      later one keeps its old record. */
  lemma UpdateProductFirstOnly(s: ProductsState, updated: Product, i: int, j: int)
    requires 0 <= i < j < |s.products|
    requires s.products[i].id == updated.id && s.products[j].id == updated.id
    ensures UpdateProduct(s, updated).products[j] == s.products[j]
  {
    var k := FindIndex(s.products, updated.id);
    assert k <= i;
  }
}
