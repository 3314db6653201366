/**
 * The state of the products page: the cart, kept in local storage under
 * "cart", the list on show, and the checkout with its error text, loading
 * flag and purchase summary.
 *
 * Each React effect of the page runs here as part of the operation that
 * triggers it: a change of the cart writes the cart through to storage, and
 * a cart that is no longer empty hides the summary of the last purchase.
 */
module ProductsPage {
  import opened Wrappers
  import opened JsNumbers
  import opened JsStrings
  import opened Catalog
  import opened ViewProjector
  import opened PurchaseSummaries
  import opened WebStorage

  const CartKey := "cart"
  const EmptyCartError := "O carrinho está vazio."
  const BuyFailedError := "Erro ao comprar"

  /* Storage */

  /**
   * The cart after the page reads storage on mount: an absent or empty
   * value (`!saved`) and a value that does not parse as an array of products
   * leave the cart as it was.
   */
  function Hydrate(saved: Option<string>, cart: seq<Product>): seq<Product> {
    if saved.None? || saved.value == "" then cart
    else
      var parsed := ParseCart(saved.value);
      if parsed.Some? then parsed.value else cart
  }

  /** What the page writes back is what it reads on the next visit. */
  lemma HydratePersisted(cart: seq<Product>, before: seq<Product>)
    ensures Hydrate(Some(SerializeCart(cart)), before) == cart
  {
    CartRoundTrip(cart);
    assert |SerializeCart(cart)| > 0;
  }

  /** With nothing stored the cart stays as it was. */
  lemma HydrateNothing(cart: seq<Product>)
    ensures Hydrate(None, cart) == cart && Hydrate(Some(""), cart) == cart
  {
  }

  /* Removing */

  /** `cart.findIndex(p => p.id === id)`: the first position holding the id, or -1. */
  function FindIndex(cart: seq<Product>, id: int): (i: int)
    ensures -1 <= i < |cart|
    ensures i >= 0 ==> cart[i].id == id && forall j :: 0 <= j < i ==> cart[j].id != id
    ensures i == -1 ==> forall j :: 0 <= j < |cart| ==> cart[j].id != id
  {
    if |cart| == 0 then -1
    else if cart[0].id == id then 0
    else
      var i := FindIndex(cart[1..], id);
      if i == -1 then -1 else i + 1
  }

  /** The cart after `removeFromCart(id)`: a copy with the first item of that id spliced out. */
  function RemoveFirst(cart: seq<Product>, id: int): seq<Product> {
    var i := FindIndex(cart, id);
    if i == -1 then cart else cart[..i] + cart[i + 1..]
  }

  /**
   * Exactly the first item with the id goes, the others keep their order;
   * with no such item the cart is unchanged.
   */
  lemma RemoveFirstSpec(cart: seq<Product>, id: int)
    ensures (forall j :: 0 <= j < |cart| ==> cart[j].id != id) ==> RemoveFirst(cart, id) == cart
    ensures forall i :: 0 <= i < |cart| && cart[i].id == id && (forall j :: 0 <= j < i ==> cart[j].id != id) ==>
      RemoveFirst(cart, id) == cart[..i] + cart[i + 1..]
    ensures (exists j :: 0 <= j < |cart| && cart[j].id == id) ==> |RemoveFirst(cart, id)| == |cart| - 1
    ensures multiset(RemoveFirst(cart, id)) <= multiset(cart)
  {
    RemoveNoMatch(cart, id);
    forall k | 0 <= k < |cart| && cart[k].id == id && (forall j :: 0 <= j < k ==> cart[j].id != id)
      ensures RemoveFirst(cart, id) == cart[..k] + cart[k + 1..]
    {
      RemoveAtFirstMatch(cart, id, k);
    }
    RemoveShortens(cart, id);
    RemoveTakesOne(cart, id);
  }

  lemma RemoveNoMatch(cart: seq<Product>, id: int)
    ensures (forall j :: 0 <= j < |cart| ==> cart[j].id != id) ==> RemoveFirst(cart, id) == cart
  {
  }

  lemma RemoveAtFirstMatch(cart: seq<Product>, id: int, k: int)
    requires 0 <= k < |cart| && cart[k].id == id && forall j :: 0 <= j < k ==> cart[j].id != id
    ensures RemoveFirst(cart, id) == cart[..k] + cart[k + 1..]
  {
    FirstMatchIsFound(cart, id, k);
  }

  /** The first position holding the id is the one `findIndex` returns. */
  lemma FirstMatchIsFound(cart: seq<Product>, id: int, k: int)
    requires 0 <= k < |cart| && cart[k].id == id && forall j :: 0 <= j < k ==> cart[j].id != id
    ensures FindIndex(cart, id) == k
  {
  }

  lemma RemoveShortens(cart: seq<Product>, id: int)
    ensures (exists j :: 0 <= j < |cart| && cart[j].id == id) ==> |RemoveFirst(cart, id)| == |cart| - 1
  {
  }

  lemma RemoveTakesOne(cart: seq<Product>, id: int)
    ensures multiset(RemoveFirst(cart, id)) <= multiset(cart)
  {
    var i := FindIndex(cart, id);
    if i != -1 {
      RemoveKeepsOthers(cart, i);
    }
  }

  /** A product's id is found no later than the product's own position. */
  lemma FoundNoLater(cart: seq<Product>, i: int)
    requires 0 <= i < |cart|
    ensures 0 <= FindIndex(cart, cart[i].id) <= i
  {
  }

  /**
   * The remove button of the card at position i passes only that product's
   * id, so it removes the first item with the same id; when that item is
   * the same product, the cart left has the same contents as if position i
   * itself had been removed.
   */
  lemma CardRemoveClick(cart: seq<Product>, i: int)
    requires 0 <= i < |cart|
    ensures var j := FindIndex(cart, cart[i].id);
      0 <= j <= i && cart[j].id == cart[i].id && RemoveFirst(cart, cart[i].id) == cart[..j] + cart[j + 1..]
    ensures cart[FindIndex(cart, cart[i].id)] == cart[i] ==>
      multiset(RemoveFirst(cart, cart[i].id)) == multiset(cart[..i] + cart[i + 1..])
  {
    FoundNoLater(cart, i);
    var j := FindIndex(cart, cart[i].id);
    if cart[j] == cart[i] {
      RemoveKeepsOthers(cart, j);
      RemoveKeepsOthers(cart, i);
    }
  }

  /** Removing one position leaves the list's contents less that element. */
  lemma RemoveKeepsOthers(cart: seq<Product>, i: int)
    requires 0 <= i < |cart|
    ensures multiset(cart[..i] + cart[i + 1..]) == multiset(cart) - multiset{cart[i]}
  {
    assert cart == cart[..i] + [cart[i]] + cart[i + 1..];
  }

  /* The total */

  /** `Number(p.price) || 0`. */
  function Coerced(p: Product): (r: JsNumber)
    ensures !r.NaN?
    ensures PriceNumber(p.price).NaN? ==> r == Zero
  {
    OrZero(PriceNumber(p.price))
  }

  /** `cart.reduce((acc, p) => acc + Coerced(p), 0)`. */
  function Total(cart: seq<Product>): JsNumber {
    if |cart| == 0 then Zero else Add(Total(cart[..|cart| - 1]), Coerced(cart[|cart| - 1]))
  }

  /** The sum of the prices in hundredths, from the front, as a reference. */
  function SumHundredths(cart: seq<Product>): int
    requires forall p :: p in cart ==> Coerced(p).Finite?
  {
    if |cart| == 0 then 0
    else
      assert cart[0] in cart;
      Coerced(cart[0]).hundredths + SumHundredths(cart[1..])
  }

  lemma {:induction false} SumHundredthsSnoc(cart: seq<Product>, p: Product)
    requires forall q :: q in cart + [p] ==> Coerced(q).Finite?
    ensures forall q :: q in cart ==> Coerced(q).Finite?
    ensures SumHundredths(cart + [p]) == SumHundredths(cart) + Coerced(p).hundredths
  {
    var all := cart + [p];
    forall q | q in cart ensures Coerced(q).Finite? {
      assert q in all;
    }
    if |cart| > 0 {
      assert all[0] == cart[0] && all[1..] == cart[1..] + [p];
      forall q | q in all[1..] ensures Coerced(q).Finite? {
        assert q in all;
      }
      SumHundredthsSnoc(cart[1..], p);
    } else {
      assert all == [p] && p in all;
    }
  }

  /** The reference sum, split before the last item. */
  lemma SumHundredthsLast(cart: seq<Product>)
    requires |cart| > 0 && forall p :: p in cart ==> Coerced(p).Finite?
    ensures forall q :: q in cart[..|cart| - 1] ==> Coerced(q).Finite?
    ensures SumHundredths(cart) == SumHundredths(cart[..|cart| - 1]) + Coerced(cart[|cart| - 1]).hundredths
  {
    var init, last := cart[..|cart| - 1], cart[|cart| - 1];
    assert cart == init + [last];
    SumHundredthsSnoc(init, last);
  }

  /**
   * When every price reads as a finite number or as nothing, the total is
   * the plain sum of the prices, non-numeric ones counting 0.
   */
  lemma {:induction false} TotalIsSum(cart: seq<Product>)
    requires forall p :: p in cart ==> Coerced(p).Finite?
    ensures Total(cart) == Finite(SumHundredths(cart))
  {
    if |cart| > 0 {
      var init, last := cart[..|cart| - 1], cart[|cart| - 1];
      SumHundredthsLast(cart);
      TotalIsSum(init);
      assert last in cart;
      assert Total(cart) == Add(Total(init), Coerced(last));
      AddFinite(SumHundredths(init), Coerced(last).hundredths);
    }
  }

  /* Checkout */

  /** The reply to the checkout request: an answer with a JSON body, or a thrown error and its message. */
  datatype Reply = Answered(ok: bool, body: BuyResponse) | Failed(message: Option<string>)

  /** The body of the checkout request. */
  datatype BuyRequest = BuyRequest(products: seq<int>, student: bool, coupon: string, name: string)

  /** `cart.map(p => p.id)`. */
  function CartIds(cart: seq<Product>): (r: seq<int>)
    ensures |r| == |cart| && forall i :: 0 <= i < |cart| ==> r[i] == cart[i].id
  {
    seq(|cart|, i requires 0 <= i < |cart| => cart[i].id)
  }

  /** `data?.error || "Erro ao comprar"`: an absent or empty error text falls back. */
  function ErrorText(body: BuyResponse): (r: string)
    ensures r != ""
    ensures body.error.Some? && body.error.value != "" ==> r == body.error.value
    ensures !(body.error.Some? && body.error.value != "") ==> r == BuyFailedError
  {
    if body.error.Some? && body.error.value != "" then body.error.value else BuyFailedError
  }

  /** `e?.message ?? "Erro ao comprar"`: only a missing message falls back; an empty one is kept. */
  function CaughtText(message: Option<string>): (r: string)
    ensures message.Some? ==> r == message.value
    ensures message.None? ==> r == BuyFailedError
  {
    if message.Some? then message.value else BuyFailedError
  }

  class CartSession {
    var cart: seq<Product>
    var storage: map<string, string>
    var buyError: Option<string>
    var buyLoading: bool
    var summary: Option<PurchaseSummary>
    var filtered: seq<Product>

    /**
     * Between operations the stored cart is the cart, no checkout is in
     * flight, and a purchase summary shows only while the cart is empty.
     */
    ghost predicate Valid()
      reads this
    {
      && GetItem(storage, CartKey) == Some(SerializeCart(cart))
      && !buyLoading
      && (summary.Some? ==> cart == [])
    }

    /** Mounting the page: read the stored cart, then write it through. */
    constructor(saved: map<string, string>)
      ensures cart == Hydrate(GetItem(saved, CartKey), [])
      ensures storage == saved[CartKey := SerializeCart(cart)]
      ensures buyError == None && summary == None && filtered == []
      ensures Valid()
    {
      cart := Hydrate(GetItem(saved, CartKey), []);
      storage := saved;
      buyError := None;
      buyLoading := false;
      summary := None;
      filtered := [];
      new;
      PersistCart();
    }

    /** The effect on `[cart]`: `localStorage.setItem("cart", JSON.stringify(cart))`. */
    method PersistCart()
      modifies this
      ensures storage == old(storage)[CartKey := SerializeCart(cart)]
      ensures GetItem(storage, CartKey) == Some(SerializeCart(cart))
      ensures cart == old(cart) && buyError == old(buyError) && buyLoading == old(buyLoading)
      ensures summary == old(summary) && filtered == old(filtered)
    {
      storage := storage[CartKey := SerializeCart(cart)];
    }

    /** The effect on `[cart.length, purchaseSummary]`: a cart with items hides the summary. */
    method HideSummaryIfCartFilled()
      modifies this
      ensures summary == if |cart| > 0 then None else old(summary)
      ensures cart == old(cart) && storage == old(storage) && buyError == old(buyError)
      ensures buyLoading == old(buyLoading) && filtered == old(filtered)
    {
      if summary.Some? && |cart| > 0 {
        summary := None;
      }
    }

    /** `addToCart(p)`: the product goes to the end of the cart and any error text is cleared. */
    method AddToCart(p: Product)
      requires Valid()
      modifies this
      ensures cart == old(cart) + [p]
      ensures storage == old(storage)[CartKey := SerializeCart(cart)]
      ensures buyError == None && summary == None
      ensures buyLoading == old(buyLoading) && filtered == old(filtered)
      ensures Valid()
    {
      cart := cart + [p];
      buyError := None;
      PersistCart();
      HideSummaryIfCartFilled();
    }

    /** `removeFromCart(id)`: the first item with the id leaves the cart and any error text is cleared. */
    method RemoveFromCart(id: int)
      requires Valid()
      modifies this
      ensures cart == RemoveFirst(old(cart), id)
      ensures storage == old(storage)[CartKey := SerializeCart(cart)]
      ensures buyError == None && summary == old(summary)
      ensures buyLoading == old(buyLoading) && filtered == old(filtered)
      ensures Valid()
    {
      var index := FindIndex(cart, id);
      if index != -1 {
        cart := cart[..index] + cart[index + 1..];
      }
      buyError := None;
      PersistCart();
      HideSummaryIfCartFilled();
    }

    /** The effect on `[search, sortOption, data]`: nothing until the catalogue has loaded. */
    method Refresh(data: Option<seq<Product>>, search: string, sortOption: string)
      modifies this
      ensures filtered == if data.Some? then Project(data.value, search, sortOption) else old(filtered)
      ensures cart == old(cart) && storage == old(storage) && buyError == old(buyError)
      ensures buyLoading == old(buyLoading) && summary == old(summary)
    {
      if data.Some? {
        filtered := Project(data.value, search, sortOption);
      }
    }

    /**
     * `buy()` with the form's student flag and coupon text; reply is how the
     * checkout endpoint answers. Returns the request sent, if any. The
     * button that calls it is disabled while a checkout is in flight, which
     * `Valid()` (no checkout in flight) stands for.
     */
    method Buy(student: bool, coupon: string, reply: Reply) returns (request: Option<BuyRequest>)
      requires Valid()
      modifies this
      ensures old(cart) == [] ==>
        request == None && buyError == Some(EmptyCartError) && cart == old(cart) && summary == old(summary) && storage == old(storage)
      ensures old(cart) != [] ==> request == Some(BuyRequest(CartIds(old(cart)), student, Trim(coupon), ""))
      ensures old(cart) != [] && reply.Answered? && reply.ok ==>
        && summary == Some(PurchaseSummary(old(cart), reply.body, student, Trim(coupon)))
        && cart == [] && buyError == None
        && storage == old(storage)[CartKey := SerializeCart([])]
      ensures old(cart) != [] && reply.Answered? && !reply.ok ==>
        buyError == Some(ErrorText(reply.body)) && cart == old(cart) && summary == old(summary) && storage == old(storage)
      ensures old(cart) != [] && reply.Failed? ==>
        buyError == Some(CaughtText(reply.message)) && cart == old(cart) && summary == old(summary) && storage == old(storage)
      ensures !buyLoading && filtered == old(filtered)
      ensures Valid()
    {
      buyLoading := true;
      buyError := None;
      if |cart| == 0 {
        buyError := Some(EmptyCartError);
        request := None;
      } else {
        request := Some(BuyRequest(CartIds(cart), student, Trim(coupon), ""));
        match reply
        case Answered(ok, body) =>
          if !ok {
            buyError := Some(CaughtText(Some(ErrorText(body))));
          } else {
            summary := Some(PurchaseSummary(cart, body, student, Trim(coupon)));
            cart := [];
            PersistCart();
            HideSummaryIfCartFilled();
          }
        case Failed(message) =>
          buyError := Some(CaughtText(message));
      }
      buyLoading := false;
    }
  }

  /** Reloading the page after any sequence of operations brings back the same cart. */
  lemma ReloadRestoresCart(s: CartSession)
    requires s.Valid()
    ensures Hydrate(GetItem(s.storage, CartKey), []) == s.cart
  {
    HydratePersisted(s.cart, []);
  }
}
