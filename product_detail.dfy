/**
 * The product detail view, which carries its own copy of the card's image
 * URL function and price rule.
 */
module ProductDetail {
  import opened JsNumbers
  import opened JsStrings
  import opened Catalog
  import ProductCard

  const ApiDomain := "https://deisishop.pythonanywhere.com"
  const Dash := "—"

  /** The detail view's `toAbsoluteImageUrl`. */
  function ToAbsoluteImageUrl(path: string): string {
    if StartsWith(path, "http://") || StartsWith(path, "https://") then path
    else ApiDomain + (if StartsWith(path, "/") then path else "/" + path)
  }

  /** The detail view's price text. */
  function PriceLabel(price: Price, format: int -> string): string {
    var preco := PriceNumber(price);
    if IsFinite(preco) then format(preco.hundredths) else Dash
  }

  /** Both copies give the same URL for every path, so the detail copy keeps every property of the card's. */
  lemma CopiesAgree(path: string)
    ensures ToAbsoluteImageUrl(path) == ProductCard.ToAbsoluteImageUrl(path)
  {
  }

  /** A relative path gets exactly one "/" between the domain and the path, added only when missing. */
  lemma RelativePathJoined(path: string)
    requires !(StartsWith(path, "http://") || StartsWith(path, "https://"))
    ensures ToAbsoluteImageUrl(path) == ApiDomain + "/" + ProductCard.WithoutLeadingSlash(path)
  {
    CopiesAgree(path);
    ProductCard.ImageUrlJoin(path);
  }

  /** The URL is absolute, and normalizing it again changes nothing. */
  lemma DetailUrlIdempotent(path: string)
    ensures ProductCard.IsAbsolute(ToAbsoluteImageUrl(path))
    ensures ToAbsoluteImageUrl(ToAbsoluteImageUrl(path)) == ToAbsoluteImageUrl(path)
  {
    CopiesAgree(path);
    CopiesAgree(ToAbsoluteImageUrl(path));
    ProductCard.ImageUrlIdempotent(path);
  }

  /** The detail view shows the same price text as the card. */
  lemma PriceLabelsAgree(price: Price, format: int -> string)
    ensures PriceLabel(price, format) == ProductCard.PriceLabel(price, format)
  {
  }
}
