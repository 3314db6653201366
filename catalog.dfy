/**
 * The products of the storefront's catalogue, as they arrive from the
 * product listing and as the cart stores them: JSON objects with an id, a
 * title, a price, a description, a category, an image path and a rating.
 */
module Catalog {
  import opened Wrappers
  import opened JsNumbers
  import opened Json
  import NumberText

  /**
   * A price as it arrives in the JSON: a number, a text that `Number` must
   * coerce, or null.
   */
  datatype Price = NumberPrice(hundredths: int) | TextPrice(text: string) | NullPrice

  /** A product; the rating is kept as the JSON value it arrived as, since nothing reads it. */
  datatype Product = Product(
    id: int,
    title: string,
    price: Price,
    description: string,
    category: string,
    image: string,
    rating: Json)

  /** `Number(product.price)`: `Number(null)` is 0 and a text is read as a numeric literal. */
  function PriceNumber(price: Price): (r: JsNumber)
    ensures price.NumberPrice? ==> r == Finite(price.hundredths)
    ensures price.NullPrice? ==> r == Zero
    ensures !r.Finite? ==> price.TextPrice?
  {
    match price
    case NumberPrice(v) => Finite(v)
    case TextPrice(t) => NumberText.StringToNumber(t)
    case NullPrice => Zero
  }

  /* The JSON form of a product */

  function PriceJson(price: Price): Json {
    match price
    case NumberPrice(v) => JNum(v)
    case TextPrice(t) => JStr(t)
    case NullPrice => JNull
  }

  function PriceFromJson(j: Json): (r: Option<Price>)
    ensures r.Some? ==> PriceJson(r.value) == j
  {
    match j
    case JNum(v) => Some(NumberPrice(v))
    case JStr(t) => Some(TextPrice(t))
    case JNull => Some(NullPrice)
    case _ => None
  }

  function ToJson(p: Product): Json {
    JObj([
      Member("id", JNum(100 * p.id)),
      Member("title", JStr(p.title)),
      Member("price", PriceJson(p.price)),
      Member("description", JStr(p.description)),
      Member("category", JStr(p.category)),
      Member("image", JStr(p.image)),
      Member("rating", p.rating)])
  }

  /** The value of a key in an object; `JSON.parse` keeps the last of repeated keys. */
  function Lookup(members: seq<Member>, key: string): (r: Option<Json>)
    ensures r.Some? <==> exists m :: m in members && m.key == key
  {
    if |members| == 0 then None
    else if members[|members| - 1].key == key then Some(members[|members| - 1].value)
    else
      var r := Lookup(members[..|members| - 1], key);
      assert forall m :: m in members <==> m in members[..|members| - 1] || m == members[|members| - 1];
      r
  }

  function StringField(members: seq<Member>, key: string): Option<string> {
    var v := Lookup(members, key);
    if v.Some? && v.value.JStr? then Some(v.value.s) else None
  }

  /** The id field, which must be a whole number. */
  function IdField(members: seq<Member>): Option<int> {
    var v := Lookup(members, "id");
    if v.Some? && v.value.JNum? && v.value.hundredths % 100 == 0 then Some(v.value.hundredths / 100) else None
  }

  /** A product from a JSON object that has every field with the expected kind of value. */
  function FromJson(j: Json): Option<Product> {
    if !j.JObj? then None
    else
      var ms := j.members;
      var id := IdField(ms);
      var title := StringField(ms, "title");
      var price := Lookup(ms, "price");
      var description := StringField(ms, "description");
      var category := StringField(ms, "category");
      var image := StringField(ms, "image");
      var rating := Lookup(ms, "rating");
      if id.None? || title.None? || price.None? || description.None? || category.None?
         || image.None? || rating.None? then None
      else
        var pr := PriceFromJson(price.value);
        if pr.None? then None
        else Some(Product(id.value, title.value, pr.value, description.value, category.value, image.value, rating.value))
  }

  /** A key that no later member repeats has the value of its own member. */
  lemma {:induction false} LookupFinds(members: seq<Member>, i: nat)
    requires i < |members|
    requires forall k :: i < k < |members| ==> members[k].key != members[i].key
    ensures Lookup(members, members[i].key) == Some(members[i].value)
  {
    if i < |members| - 1 {
      var init := members[..|members| - 1];
      assert init[i] == members[i];
      LookupFinds(init, i);
    }
  }

  /* Each field of a written product reads back as itself */

  lemma IdFieldOf(p: Product)
    ensures IdField(ToJson(p).members) == Some(p.id)
  {
    LookupFinds(ToJson(p).members, 0);
    WholeHundredths(p.id);
  }

  lemma TitleAndPriceFieldsOf(p: Product)
    ensures StringField(ToJson(p).members, "title") == Some(p.title)
    ensures Lookup(ToJson(p).members, "price") == Some(PriceJson(p.price))
  {
    LookupFinds(ToJson(p).members, 1);
    LookupFinds(ToJson(p).members, 2);
  }

  lemma TextFieldsOf(p: Product)
    ensures StringField(ToJson(p).members, "description") == Some(p.description)
    ensures StringField(ToJson(p).members, "category") == Some(p.category)
  {
    LookupFinds(ToJson(p).members, 3);
    LookupFinds(ToJson(p).members, 4);
  }

  lemma ImageAndRatingFieldsOf(p: Product)
    ensures StringField(ToJson(p).members, "image") == Some(p.image)
    ensures Lookup(ToJson(p).members, "rating") == Some(p.rating)
  {
    LookupFinds(ToJson(p).members, 5);
    LookupFinds(ToJson(p).members, 6);
  }

  lemma ProductRoundTrip(p: Product)
    ensures FromJson(ToJson(p)) == Some(p)
  {
    IdFieldOf(p);
    TitleAndPriceFieldsOf(p);
    TextFieldsOf(p);
    ImageAndRatingFieldsOf(p);
    PriceRoundTrip(p.price);
  }

  lemma WholeHundredths(x: int)
    ensures (100 * x) % 100 == 0 && (100 * x) / 100 == x
  {
  }

  lemma PriceRoundTrip(price: Price)
    ensures PriceFromJson(PriceJson(price)) == Some(price)
  {
  }

  /* The cart as stored text */

  /** `cart` as the elements of a JSON array. */
  function CartJson(cart: seq<Product>): (r: seq<Json>)
    ensures |r| == |cart|
  {
    if |cart| == 0 then [] else [ToJson(cart[0])] + CartJson(cart[1..])
  }

  /** Each product of the cart is written in its own place of the array. */
  lemma {:induction false} CartJsonElements(cart: seq<Product>)
    ensures forall i :: 0 <= i < |cart| ==> CartJson(cart)[i] == ToJson(cart[i])
  {
    if |cart| > 0 {
      CartJsonElements(cart[1..]);
      forall i | 1 <= i < |cart|
        ensures CartJson(cart)[i] == ToJson(cart[i])
      {
        assert cart[1..][i - 1] == cart[i];
      }
    }
  }

  /** The products of a JSON array, when every element is one. */
  function ProductsFromJson(items: seq<Json>): Option<seq<Product>> {
    if |items| == 0 then Some([])
    else
      var first := FromJson(items[0]);
      var rest := ProductsFromJson(items[1..]);
      if first.None? || rest.None? then None else Some([first.value] + rest.value)
  }

  lemma {:induction false} ProductsRoundTrip(cart: seq<Product>)
    ensures ProductsFromJson(CartJson(cart)) == Some(cart)
  {
    if |cart| > 0 {
      var items := CartJson(cart);
      assert items[0] == ToJson(cart[0]) && items[1..] == CartJson(cart[1..]);
      ProductRoundTrip(cart[0]);
      ProductsRoundTrip(cart[1..]);
      assert [cart[0]] + cart[1..] == cart;
    }
  }

  /** `JSON.stringify(cart)`. */
  function SerializeCart(cart: seq<Product>): string {
    Stringify(JArr(CartJson(cart)))
  }

  /** `JSON.parse(text)` read as a cart: None when the text is not JSON or not an array of products. */
  function ParseCart(text: string): (r: Option<seq<Product>>)
    ensures r.Some? ==> exists items :: Parse(text) == Some(JArr(items))
  {
    var j := Parse(text);
    if j.Some? && j.value.JArr? then ProductsFromJson(j.value.items) else None
  }

  /** A stored cart reads back as the same cart. */
  lemma CartRoundTrip(cart: seq<Product>)
    ensures ParseCart(SerializeCart(cart)) == Some(cart)
  {
    ParseStringify(JArr(CartJson(cart)));
    ProductsRoundTrip(cart);
  }
}
