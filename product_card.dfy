/**
 * The product card: the absolute URL of its image and its price label. The
 * card's buttons hand the whole product to the page's add handler and only
 * the product's id to its remove handler (see `ProductsPage.CardRemoveClick`).
 */
module ProductCard {
  import opened JsNumbers
  import opened JsStrings
  import opened Catalog

  const ApiDomain := "https://deisishop.pythonanywhere.com"
  const Dash := "—"

  /** An image path that already names its server. */
  predicate IsAbsolute(path: string) {
    StartsWith(path, "http://") || StartsWith(path, "https://")
  }

  /**
   * `toAbsoluteImageUrl(imagePath)`: absolute paths are kept, relative ones
   * are put under the shop's domain with exactly one "/" added when missing.
   */
  function ToAbsoluteImageUrl(path: string): (r: string)
    ensures IsAbsolute(r)
  {
    if IsAbsolute(path) then path
    else
      var normalized := if StartsWith(path, "/") then path else "/" + path;
      assert ApiDomain[..8] == "https://";
      ApiDomain + normalized
  }

  /** The relative part of a path that the URL carries after the domain and its "/". */
  function WithoutLeadingSlash(path: string): string {
    if StartsWith(path, "/") then path[1..] else path
  }

  /**
   * The three cases of the function: an absolute path unchanged, and a
   * relative path as the domain, one "/" and the path without its own
   * leading "/".
   */
  lemma ImageUrlCases(path: string)
    ensures IsAbsolute(path) ==> ToAbsoluteImageUrl(path) == path
    ensures !IsAbsolute(path) && StartsWith(path, "/") ==> ToAbsoluteImageUrl(path) == ApiDomain + path
    ensures !IsAbsolute(path) && !StartsWith(path, "/") ==> ToAbsoluteImageUrl(path) == ApiDomain + "/" + path
  {
  }

  /** Whichever way a relative path starts, exactly one "/" separates it from the domain. */
  lemma ImageUrlJoin(path: string)
    requires !IsAbsolute(path)
    ensures ToAbsoluteImageUrl(path) == ApiDomain + "/" + WithoutLeadingSlash(path)
  {
    if StartsWith(path, "/") {
      assert path == "/" + path[1..];
    }
  }

  /** Dropping the domain and the one "/" from the URL of a relative path gives the path back, less its leading "/". */
  lemma ImageUrlRecoversPath(path: string)
    requires !IsAbsolute(path)
    ensures var r := ToAbsoluteImageUrl(path);
      |r| > |ApiDomain| && r[..|ApiDomain| + 1] == ApiDomain + "/" && r[|ApiDomain| + 1..] == WithoutLeadingSlash(path)
  {
    ImageUrlJoin(path);
  }

  /** The URL is already absolute, so normalizing it again changes nothing. */
  lemma ImageUrlIdempotent(path: string)
    ensures ToAbsoluteImageUrl(ToAbsoluteImageUrl(path)) == ToAbsoluteImageUrl(path)
  {
  }

  /**
   * The card's price text: the currency formatting of `Number(price)` when
   * that is finite, "—" otherwise. The formatter (`Intl.NumberFormat`) is a
   * parameter taking the amount in hundredths.
   */
  function PriceLabel(price: Price, format: int -> string): string {
    var n := PriceNumber(price);
    if IsFinite(n) then format(n.hundredths) else Dash
  }

  /** With a formatter that never writes "—", the label is "—" exactly when the price is not a finite number. */
  lemma PriceLabelDash(price: Price, format: int -> string)
    requires forall v :: format(v) != Dash
    ensures PriceLabel(price, format) == Dash <==> !IsFinite(PriceNumber(price))
    ensures IsFinite(PriceNumber(price)) ==> PriceLabel(price, format) == format(PriceNumber(price).hundredths)
  {
  }

  /** Only a text price can fail to be a finite number; a number or null always shows an amount. */
  lemma DashOnlyForText(price: Price, format: int -> string)
    requires PriceLabel(price, format) == Dash && forall v :: format(v) != Dash
    ensures price.TextPrice?
  {
  }
}
