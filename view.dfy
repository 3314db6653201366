/**
 * The product list the page shows: the catalogue filtered by a search term
 * on the lower-cased title, then sorted by the chosen key with
 * `Array.prototype.sort`.
 */
module ViewProjector {
  import opened JsNumbers
  import opened JsStrings
  import opened Catalog
  import StableSort

  /* Filtering */

  /** `p.title.toLowerCase().includes(search.toLowerCase())`. */
  predicate TitleMatches(p: Product, search: string) {
    Includes(ToLower(p.title), ToLower(search))
  }

  /** `data.filter(p => TitleMatches(p, search))`. */
  function KeepMatching(data: seq<Product>, search: string): (r: seq<Product>)
    ensures forall p :: multiset(r)[p] == if TitleMatches(p, search) then multiset(data)[p] else 0
  {
    if |data| == 0 then []
    else
      assert data == [data[0]] + data[1..];
      (if TitleMatches(data[0], search) then [data[0]] else []) + KeepMatching(data[1..], search)
  }

  lemma EmptyAppend<T>(a: seq<T>, b: seq<T>)
    requires |a| == 0
    ensures a + b == b
  {
  }

  lemma ConsAppend<T>(a: seq<T>, b: seq<T>)
    requires |a| > 0
    ensures a + b == [a[0]] + (a[1..] + b)
  {
  }

  lemma AppendAssoc<T>(a: seq<T>, b: seq<T>, c: seq<T>)
    ensures a + (b + c) == (a + b) + c
  {
  }

  /** Filtering a list that starts with `x` decides `x` first and then filters the rest. */
  lemma KeepMatchingCons(x: Product, rest: seq<Product>, search: string)
    ensures KeepMatching([x] + rest, search)
         == (if TitleMatches(x, search) then [x] else []) + KeepMatching(rest, search)
  {
    assert ([x] + rest)[0] == x;
    assert ([x] + rest)[1..] == rest;
  }

  /**
   * `filter` keeps the catalogue's order: filtering two lists joined is
   * joining the two filtered lists.
   */
  lemma {:induction false} KeepMatchingAppend(a: seq<Product>, b: seq<Product>, search: string)
    ensures KeepMatching(a + b, search) == KeepMatching(a, search) + KeepMatching(b, search)
    decreases |a|
  {
    if |a| == 0 {
      EmptyAppend(a, b);
    } else {
      var x, c := a[0], (if TitleMatches(a[0], search) then [a[0]] else []);
      KeepMatchingAppend(a[1..], b, search);
      ConsAppend(a, b);
      KeepMatchingCons(x, a[1..] + b, search);
      ConsAppend(a, []);
      KeepMatchingCons(x, a[1..], search);
      AppendAssoc(c, KeepMatching(a[1..], search), KeepMatching(b, search));
    }
  }

  /**
   * The products of the filtered list that tie with `t` are the catalogue's
   * products tying with `t` that match, in catalogue order.
   */
  lemma {:induction false} TiesOfKeepMatching(cmp: (Product, Product) -> int, data: seq<Product>, search: string, t: Product)
    ensures StableSort.Ties(cmp, KeepMatching(data, search), t)
         == KeepMatching(StableSort.Ties(cmp, data, t), search)
    decreases |data|
  {
    if |data| > 0 {
      var x, rest := data[0], data[1..];
      var kept, tied := KeepMatching(rest, search), StableSort.Ties(cmp, rest, t);
      TiesOfKeepMatching(cmp, rest, search, t);
      ConsAppend(data, []);
      KeepMatchingCons(x, rest, search);
      StableSort.TiesCons(cmp, x, rest, t);
      if TitleMatches(x, search) {
        StableSort.TiesCons(cmp, x, kept, t);
      } else {
        EmptyAppend([], kept);
      }
      if cmp(x, t) == 0 {
        KeepMatchingCons(x, tied, search);
      } else {
        EmptyAppend([], tied);
      }
    }
  }

  /** The filter step: an empty search term (falsy in JavaScript) keeps the whole list. */
  function FilterByTitle(data: seq<Product>, search: string): seq<Product> {
    if search == "" then data else KeepMatching(data, search)
  }

  /** A product is shown as many times as it is listed if its title matches, otherwise not at all. */
  lemma FilterContents(data: seq<Product>, search: string, p: Product)
    ensures multiset(FilterByTitle(data, search))[p]
         == if search == "" || TitleMatches(p, search) then multiset(data)[p] else 0
  {
  }

  /** An empty search term matches every title, so it keeps every product. */
  lemma EmptySearchMatchesAll(p: Product)
    ensures TitleMatches(p, "")
  {
    IncludesEmpty(ToLower(p.title));
  }

  /* Sorting */

  const NameAsc := "name-asc"
  const NameDesc := "name-desc"
  const PriceAsc := "price-asc"
  const PriceDesc := "price-desc"

  predicate KnownKey(key: string) {
    key == NameAsc || key == NameDesc || key == PriceAsc || key == PriceDesc
  }

  /**
   * The sign `sort` reads from the comparator chosen by key: `localeCompare`
   * on the titles, or the difference of `Number(price)`.
   */
  function Compare(key: string, a: Product, b: Product): (r: int)
    ensures -1 <= r <= 1
  {
    if key == NameAsc then LocaleCompare(a.title, b.title)
    else if key == NameDesc then LocaleCompare(b.title, a.title)
    else if key == PriceAsc then CompareSign(Sub(PriceNumber(a.price), PriceNumber(b.price)))
    else if key == PriceDesc then CompareSign(Sub(PriceNumber(b.price), PriceNumber(a.price)))
    else 0
  }

  /**
   * Under a price key a product whose price reads as NaN ties with every
   * product, in either order: the difference is NaN and `sort` reads it as 0.
   */
  lemma NaNPriceTies(key: string, a: Product, b: Product)
    requires key == PriceAsc || key == PriceDesc
    requires PriceNumber(a.price).NaN?
    ensures Compare(key, a, b) == 0 && Compare(key, b, a) == 0
  {
    assert key != NameAsc && key != NameDesc;
    var x, y := PriceNumber(a.price), PriceNumber(b.price);
    SubNaN(x, y);
    SubNaN(y, x);
  }

  /** The comparator `sort` is called with under key. */
  function Comparator(key: string): (Product, Product) -> int {
    (a, b) => Compare(key, a, b)
  }

  /** The sort step: a key outside the four listed falls through the `switch` and sorts nothing. */
  function SortStep(key: string, s: seq<Product>): seq<Product> {
    if KnownKey(key) then StableSort.Sort(Comparator(key), s) else s
  }

  /** The list the page shows for a catalogue, a search term and a sort key. */
  function Project(data: seq<Product>, search: string, key: string): seq<Product> {
    SortStep(key, FilterByTitle(data, search))
  }

  /* What sorting keeps */

  /**
   * The comparator orders s consistently: always for titles, and for prices
   * when no price in s reads as NaN (`NaNPriceTies`).
   */
  predicate Consistent(key: string, s: seq<Product>) {
    key == NameAsc || key == NameDesc || forall p :: p in s ==> !PriceNumber(p.price).NaN?
  }

  /** On consistent products the comparator is antisymmetric and "not after" is transitive. */
  lemma CompareIsPreorder(key: string, a: Product, b: Product, c: Product)
    requires KnownKey(key) && Consistent(key, [a, b, c])
    ensures Compare(key, a, b) == -Compare(key, b, a)
    ensures Compare(key, a, b) <= 0 && Compare(key, b, c) <= 0 ==> Compare(key, a, c) <= 0
  {
    if key == NameAsc {
      LocaleCompareAntisymmetric(a.title, b.title);
      if Compare(key, a, b) <= 0 && Compare(key, b, c) <= 0 {
        LocaleCompareTransitive(a.title, b.title, c.title);
      }
    } else if key == NameDesc {
      LocaleCompareAntisymmetric(b.title, a.title);
      if Compare(key, a, b) <= 0 && Compare(key, b, c) <= 0 {
        LocaleCompareTransitive(c.title, b.title, a.title);
      }
    } else {
      assert a in [a, b, c] && b in [a, b, c] && c in [a, b, c];
      var x, y, z := PriceNumber(a.price), PriceNumber(b.price), PriceNumber(c.price);
      SubOrdersNumbers(x, y);
      SubOrdersNumbers(y, z);
      SubOrdersNumbers(x, z);
      SubOrdersNumbers(y, x);
      SubOrdersNumbers(z, y);
      SubOrdersNumbers(z, x);
      LessIsStrictOrder(x, y, z);
      LessIsStrictOrder(z, y, x);
      LessIsStrictOrder(x, z, y);
      LessIsStrictOrder(y, x, z);
    }
  }

  lemma ComparatorIsPreorder(key: string, s: seq<Product>)
    requires KnownKey(key) && Consistent(key, s)
    ensures StableSort.PreorderOn(Comparator(key), set p | p in s)
  {
    var cmp := Comparator(key);
    var dom := set p | p in s;
    forall a, b, c | a in dom && b in dom && c in dom
      ensures cmp(a, b) == -cmp(b, a)
      ensures cmp(a, b) <= 0 && cmp(b, c) <= 0 ==> cmp(a, c) <= 0
    {
      assert Consistent(key, [a, b, c]);
      CompareIsPreorder(key, a, b, c);
    }
    forall a, b | a in dom && b in dom
      ensures cmp(a, b) == -cmp(b, a)
    {
      assert Consistent(key, [a, b, b]);
      CompareIsPreorder(key, a, b, b);
    }
  }

  /** Sorting under any key reorders the list and nothing more. */
  lemma SortStepPermutes(key: string, s: seq<Product>)
    ensures multiset(SortStep(key, s)) == multiset(s)
  {
    StableSort.SortPermutes(Comparator(key), s);
  }

  /* The projected list */

  /**
   * What the page shows: the catalogue's products whose title matches the
   * search, each as many times as listed, nothing added.
   */
  lemma ProjectContents(data: seq<Product>, search: string, key: string, p: Product)
    ensures multiset(Project(data, search, key))[p]
         == if search == "" || TitleMatches(p, search) then multiset(data)[p] else 0
  {
    FilterContents(data, search, p);
    SortStepPermutes(key, FilterByTitle(data, search));
  }

  /**
   * Under a listed key and a consistent comparator the list is ordered, and
   * products the comparator ties keep the order the filter left them in,
   * which is their catalogue order.
   */
  lemma ProjectOrdered(data: seq<Product>, search: string, key: string, t: Product)
    requires KnownKey(key) && Consistent(key, [t] + FilterByTitle(data, search))
    ensures StableSort.Sorted(Comparator(key), Project(data, search, key))
    ensures StableSort.Ties(Comparator(key), Project(data, search, key), t)
         == StableSort.Ties(Comparator(key), FilterByTitle(data, search), t)
    ensures StableSort.Ties(Comparator(key), Project(data, search, key), t)
         == FilterByTitle(StableSort.Ties(Comparator(key), data, t), search)
  {
    var f := FilterByTitle(data, search);
    var all := [t] + f;
    var dom := set p | p in all;
    ComparatorIsPreorder(key, all);
    assert StableSort.Within(f, dom);
    assert t in dom;
    StableSort.SortSorts(Comparator(key), dom, f);
    StableSort.SortKeepsTies(Comparator(key), dom, f, t);
    if search != "" {
      TiesOfKeepMatching(Comparator(key), data, search, t);
    }
  }

  /** A key the `switch` does not list leaves the filtered list in catalogue order. */
  lemma UnknownKeyKeepsOrder(data: seq<Product>, search: string, key: string)
    requires !KnownKey(key)
    ensures Project(data, search, key) == FilterByTitle(data, search)
  {
  }
}
