/**
 * The purchase summary shown after a successful checkout: the bought items
 * grouped by id with a quantity each, the amount of each line, and whether
 * a discount was applied.
 *
 * The grouping is a `reduce` into a plain object keyed by id, read back with
 * `Object.values`. JavaScript lists an object's own keys that are array
 * indices (the integers 0 to 2^32 - 2) first, in ascending order, and then
 * the other keys in the order they were added; the accumulator below keeps
 * exactly that order.
 */
module PurchaseSummaries {
  import opened Wrappers
  import opened JsNumbers
  import opened JsStrings
  import opened Catalog

  /** The reply of the checkout endpoint; each field may be missing. */
  datatype BuyResponse = BuyResponse(
    totalCost: Option<string>,
    reference: Option<string>,
    message: Option<string>,
    error: Option<string>)

  /** What was bought, the reply, and the discount inputs as submitted. */
  datatype PurchaseSummary = PurchaseSummary(
    items: seq<Product>,
    response: BuyResponse,
    student: bool,
    coupon: string)

  /** `{...p, qty}`: a product's fields and how many times it was bought. */
  datatype Line = Line(product: Product, qty: nat)

  /** The accumulator object: a line per id, and its keys in enumeration order. */
  datatype Acc = Acc(lines: map<int, Line>, indexKeys: seq<int>, otherKeys: seq<int>)

  const MaxArrayIndex := 0xFFFF_FFFE

  /** `String(id)` is an array index. */
  predicate IsArrayIndex(id: int) {
    0 <= id <= MaxArrayIndex
  }

  /** Places a new index key among the others in ascending order. */
  function InsertKey(keys: seq<int>, k: int): (r: seq<int>)
    ensures multiset(r) == multiset(keys) + multiset{k}
  {
    if |keys| == 0 then [k]
    else if k < keys[0] then [k] + keys
    else
      assert keys == [keys[0]] + keys[1..];
      [keys[0]] + InsertKey(keys[1..], k)
  }

  /** `acc[p.id] ??= {...p, qty: 0}; acc[p.id].qty += 1`. */
  function AddItem(acc: Acc, p: Product): Acc {
    if p.id in acc.lines then
      var l := acc.lines[p.id];
      acc.(lines := acc.lines[p.id := l.(qty := l.qty + 1)])
    else if IsArrayIndex(p.id) then
      Acc(acc.lines[p.id := Line(p, 1)], InsertKey(acc.indexKeys, p.id), acc.otherKeys)
    else
      Acc(acc.lines[p.id := Line(p, 1)], acc.indexKeys, acc.otherKeys + [p.id])
  }

  /** `items.reduce(AddItem, {})`. */
  function GroupAcc(items: seq<Product>): Acc {
    if |items| == 0 then Acc(map[], [], [])
    else AddItem(GroupAcc(items[..|items| - 1]), items[|items| - 1])
  }

  function Keys(acc: Acc): seq<int> {
    acc.indexKeys + acc.otherKeys
  }

  /** `Object.values(items.reduce(...))`. */
  function Group(items: seq<Product>): (r: seq<Line>)
    ensures |r| == |Keys(GroupAcc(items))|
  {
    var acc := GroupAcc(items);
    GroupAccInvariant(items);
    Values(Keys(acc), acc.lines)
  }

  /** The lines the keys name, in key order. */
  function Values(keys: seq<int>, lines: map<int, Line>): (r: seq<Line>)
    requires forall k :: k in keys ==> k in lines
    ensures |r| == |keys|
    ensures forall i :: 0 <= i < |keys| ==> keys[i] in lines && r[i] == lines[keys[i]]
  {
    if |keys| == 0 then []
    else
      var k := keys[0];
      assert k in keys;
      var rest := Values(keys[1..], lines);
      assert forall i :: 1 <= i < |keys| ==> keys[i] == keys[1..][i - 1];
      [lines[k]] + rest
  }

  /* Reference definitions */

  /** The ids that occur in items. */
  function Ids(items: seq<Product>): set<int> {
    set p | p in items :: p.id
  }

  /** How many items have the id. */
  function Count(items: seq<Product>, id: int): nat {
    if |items| == 0 then 0
    else Count(items[..|items| - 1], id) + (if items[|items| - 1].id == id then 1 else 0)
  }

  /** Where the id first occurs. */
  function FirstIndex(items: seq<Product>, id: int): (i: nat)
    requires id in Ids(items)
    ensures i < |items| && items[i].id == id
    ensures forall j :: 0 <= j < i ==> items[j].id != id
  {
    var p :| p in items && p.id == id;
    if items[0].id == id then 0
    else
      assert p in items[1..];
      1 + FirstIndex(items[1..], id)
  }

  predicate Increasing(keys: seq<int>) {
    forall i, j :: 0 <= i < j < |keys| ==> keys[i] < keys[j]
  }

  predicate Distinct(keys: seq<int>) {
    forall i, j :: 0 <= i < j < |keys| ==> keys[i] != keys[j]
  }

  function SumQty(lines: seq<Line>): nat {
    if |lines| == 0 then 0 else lines[0].qty + SumQty(lines[1..])
  }

  /** The quantities of the lines the keys name. */
  function SumOver(keys: seq<int>, lines: map<int, Line>): nat
    requires forall k :: k in keys ==> k in lines
  {
    if |keys| == 0 then 0
    else
      var k := keys[0];
      assert k in keys;
      lines[k].qty + SumOver(keys[1..], lines)
  }

  /* The accumulator's invariant */

  /** A line per id that occurs, holding its count and its first occurrence. */
  ghost predicate LinesInv(acc: Acc, items: seq<Product>) {
    && acc.lines.Keys == Ids(items)
    && (forall k :: k in acc.lines ==>
          acc.lines[k].qty == Count(items, k) && acc.lines[k].product == items[FirstIndex(items, k)])
  }

  /** The index keys: ascending, and exactly the lines' ids that are array indices. */
  ghost predicate IndexKeysInv(acc: Acc) {
    && Increasing(acc.indexKeys)
    && (forall k :: k in acc.indexKeys <==> k in acc.lines && IsArrayIndex(k))
  }

  /** The other keys: exactly the remaining ids, each once, in the order they first occur. */
  ghost predicate OtherKeysInv(acc: Acc, items: seq<Product>)
    requires LinesInv(acc, items)
  {
    && Distinct(acc.otherKeys)
    && (forall k :: k in acc.otherKeys <==> k in acc.lines && !IsArrayIndex(k))
    && (forall i, j :: 0 <= i < j < |acc.otherKeys| ==>
          FirstIndex(items, acc.otherKeys[i]) < FirstIndex(items, acc.otherKeys[j]))
  }

  /** The quantities add up to the number of items. */
  ghost predicate SumInv(acc: Acc, items: seq<Product>) {
    && (forall k :: k in Keys(acc) ==> k in acc.lines)
    && SumOver(Keys(acc), acc.lines) == |items|
  }

  ghost predicate Inv(acc: Acc, items: seq<Product>) {
    LinesInv(acc, items) && IndexKeysInv(acc) && OtherKeysInv(acc, items) && SumInv(acc, items)
  }

  lemma IdsSnoc(items: seq<Product>, p: Product)
    ensures Ids(items + [p]) == Ids(items) + {p.id}
  {
    forall k | k in Ids(items + [p]) ensures k in Ids(items) + {p.id} {
      var q :| q in items + [p] && q.id == k;
    }
    forall k | k in Ids(items) ensures k in Ids(items + [p]) {
      var q :| q in items && q.id == k;
      assert q in items + [p];
    }
    assert p in items + [p];
  }

  lemma CountSnoc(items: seq<Product>, p: Product, k: int)
    ensures Count(items + [p], k) == Count(items, k) + (if p.id == k then 1 else 0)
  {
    assert (items + [p])[..|items|] == items;
  }

  lemma {:induction false} FirstIndexSnoc(items: seq<Product>, p: Product, k: int)
    requires k in Ids(items + [p])
    ensures k in Ids(items) ==> FirstIndex(items + [p], k) == FirstIndex(items, k)
    ensures k !in Ids(items) ==> FirstIndex(items + [p], k) == |items|
  {
    IdsSnoc(items, p);
    var i := FirstIndex(items + [p], k);
    if k in Ids(items) {
      var j := FirstIndex(items, k);
      assert (items + [p])[j] == items[j];
      assert i <= j;
      assert items[i] == (items + [p])[i];
    } else {
      forall j | 0 <= j < |items| ensures (items + [p])[j].id != k {
        assert items[j] in items && (items + [p])[j] == items[j];
      }
    }
  }

  lemma PrependIncreasing(h: int, t: seq<int>)
    requires Increasing(t) && forall m :: 0 <= m < |t| ==> h < t[m]
    ensures Increasing([h] + t)
  {
    var r := [h] + t;
    forall i, j | 0 <= i < j < |r| ensures r[i] < r[j] {
      assert r[j] == t[j - 1];
      if i > 0 {
        assert r[i] == t[i - 1];
      }
    }
  }

  lemma TailIncreasing(keys: seq<int>)
    requires Increasing(keys) && |keys| > 0
    ensures Increasing(keys[1..])
    ensures forall n :: 0 <= n < |keys[1..]| ==> keys[0] < keys[1..][n]
  {
    var tl := keys[1..];
    forall i, j | 0 <= i < j < |tl| ensures tl[i] < tl[j] {
      assert tl[i] == keys[i + 1] && tl[j] == keys[j + 1];
    }
    forall n | 0 <= n < |tl| ensures keys[0] < tl[n] {
      assert tl[n] == keys[n + 1];
    }
  }

  /** Inserting a key above a bound into keys above it keeps every key above it. */
  lemma InsertKeyAbove(h: int, keys: seq<int>, k: int)
    requires h < k && forall n :: 0 <= n < |keys| ==> h < keys[n]
    ensures forall m :: 0 <= m < |InsertKey(keys, k)| ==> h < InsertKey(keys, k)[m]
  {
    var t := InsertKey(keys, k);
    forall m | 0 <= m < |t| ensures h < t[m] {
      assert t[m] in multiset(t);
      if t[m] != k {
        assert t[m] in keys;
      }
    }
  }

  lemma {:induction false} InsertKeyIncreasing(keys: seq<int>, k: int)
    requires Increasing(keys) && k !in keys
    ensures Increasing(InsertKey(keys, k))
  {
    if |keys| > 0 && k >= keys[0] {
      var h, tl := keys[0], keys[1..];
      assert keys == [h] + tl;
      TailIncreasing(keys);
      InsertKeyIncreasing(tl, k);
      InsertKeyAbove(h, tl, k);
      assert InsertKey(keys, k) == [h] + InsertKey(tl, k);
      PrependIncreasing(h, InsertKey(tl, k));
    } else {
      forall m | 0 <= m < |keys| ensures k < keys[m] {
        if m > 0 {
          assert keys[0] < keys[m];
        }
      }
      assert InsertKey(keys, k) == [k] + keys;
      PrependIncreasing(k, keys);
    }
  }

  lemma {:induction false} SumOverInsert(keys: seq<int>, k: int, lines: map<int, Line>)
    requires forall j :: j in keys ==> j in lines
    requires k in lines
    ensures forall j :: j in InsertKey(keys, k) ==> j in lines
    ensures SumOver(InsertKey(keys, k), lines) == SumOver(keys, lines) + lines[k].qty
  {
    var r := InsertKey(keys, k);
    forall j | j in r ensures j in lines {
      assert j in multiset(r);
    }
    if |keys| > 0 && k >= keys[0] {
      SumOverInsert(keys[1..], k, lines);
      assert r[1..] == InsertKey(keys[1..], k);
    } else if |keys| > 0 {
      assert r[1..] == keys;
    }
  }

  lemma {:induction false} SumOverAppend(a: seq<int>, b: seq<int>, lines: map<int, Line>)
    requires forall j :: j in a + b ==> j in lines
    ensures SumOver(a + b, lines) == SumOver(a, lines) + SumOver(b, lines)
  {
    if |a| > 0 {
      assert (a + b)[1..] == a[1..] + b;
      SumOverAppend(a[1..], b, lines);
    } else {
      assert a + b == b;
    }
  }

  /** A line's change at k shows in the sum once if k is listed once, not at all if not listed. */
  lemma {:induction false} SumOverUpdate(keys: seq<int>, lines: map<int, Line>, k: int, l: Line)
    requires forall j :: j in keys ==> j in lines
    requires k in lines && forall i, j :: 0 <= i < j < |keys| ==> keys[i] != keys[j]
    ensures SumOver(keys, lines[k := l]) + (if k in keys then lines[k].qty else 0)
         == SumOver(keys, lines) + (if k in keys then l.qty else 0)
  {
    if |keys| > 0 {
      assert k == keys[0] ==> k !in keys[1..];
      SumOverUpdate(keys[1..], lines, k, l);
    }
  }

  lemma KeysDistinct(acc: Acc, items: seq<Product>)
    requires Inv(acc, items)
    ensures forall i, j :: 0 <= i < j < |Keys(acc)| ==> Keys(acc)[i] != Keys(acc)[j]
  {
    var keys := Keys(acc);
    forall i, j | 0 <= i < j < |keys| ensures keys[i] != keys[j] {
      if j < |acc.indexKeys| {
      } else if i >= |acc.indexKeys| {
        assert keys[i] == acc.otherKeys[i - |acc.indexKeys|];
      } else {
        assert keys[i] in acc.indexKeys;
        assert keys[j] in acc.otherKeys;
      }
    }
  }

  /** Adding p touches only the line of p's id: one more of it, or a new line holding p once. */
  lemma AddItemLines(acc: Acc, p: Product)
    ensures var lines := AddItem(acc, p).lines;
      && lines.Keys == acc.lines.Keys + {p.id}
      && (forall k :: k in acc.lines && k != p.id ==> lines[k] == acc.lines[k])
      && lines[p.id] == if p.id in acc.lines then Line(acc.lines[p.id].product, acc.lines[p.id].qty + 1) else Line(p, 1)
  {
  }

  lemma LineStep(acc: Acc, items: seq<Product>, p: Product, k: int)
    requires LinesInv(acc, items) && k in AddItem(acc, p).lines
    ensures var all := items + [p];
      AddItem(acc, p).lines[k].qty == Count(all, k) && AddItem(acc, p).lines[k].product == all[FirstIndex(all, k)]
  {
    var all := items + [p];
    AddItemLines(acc, p);
    IdsSnoc(items, p);
    CountSnoc(items, p, k);
    FirstIndexSnoc(items, p, k);
    if k in acc.lines {
      assert all[FirstIndex(items, k)] == items[FirstIndex(items, k)];
    } else {
      CountZero(items, k);
      assert all[|items|] == p;
    }
  }

  lemma LinesStep(acc: Acc, items: seq<Product>, p: Product)
    requires LinesInv(acc, items)
    ensures LinesInv(AddItem(acc, p), items + [p])
  {
    AddItemLines(acc, p);
    IdsSnoc(items, p);
    forall k | k in AddItem(acc, p).lines
      ensures AddItem(acc, p).lines[k].qty == Count(items + [p], k)
      ensures AddItem(acc, p).lines[k].product == (items + [p])[FirstIndex(items + [p], k)]
    {
      LineStep(acc, items, p, k);
    }
  }

  lemma IndexKeysStep(acc: Acc, items: seq<Product>, p: Product)
    requires LinesInv(acc, items) && IndexKeysInv(acc)
    ensures IndexKeysInv(AddItem(acc, p))
  {
    var next := AddItem(acc, p);
    if p.id !in acc.lines && IsArrayIndex(p.id) {
      InsertKeyIncreasing(acc.indexKeys, p.id);
      forall k ensures k in next.indexKeys <==> k in next.lines && IsArrayIndex(k) {
        assert k in next.indexKeys <==> k in multiset(next.indexKeys);
      }
    }
  }

  /** The other keys stay distinct and stay exactly the ids that are not array indices. */
  lemma OtherKeysMembershipStep(acc: Acc, items: seq<Product>, p: Product)
    requires Distinct(acc.otherKeys)
    requires forall k :: k in acc.otherKeys <==> k in acc.lines && !IsArrayIndex(k)
    ensures Distinct(AddItem(acc, p).otherKeys)
    ensures forall k :: k in AddItem(acc, p).otherKeys <==> k in AddItem(acc, p).lines && !IsArrayIndex(k)
  {
  }

  /** The other keys stay in the order their ids first occur. */
  lemma OtherKeysOrderStep(acc: Acc, items: seq<Product>, p: Product)
    requires acc.lines.Keys == Ids(items)
    requires forall k :: k in acc.otherKeys ==> k in acc.lines
    requires forall i, j :: 0 <= i < j < |acc.otherKeys| ==>
      FirstIndex(items, acc.otherKeys[i]) < FirstIndex(items, acc.otherKeys[j])
    ensures forall k :: k in AddItem(acc, p).otherKeys ==> k in Ids(items + [p])
    ensures forall i, j :: 0 <= i < j < |AddItem(acc, p).otherKeys| ==>
      FirstIndex(items + [p], AddItem(acc, p).otherKeys[i]) < FirstIndex(items + [p], AddItem(acc, p).otherKeys[j])
  {
    var keys := AddItem(acc, p).otherKeys;
    var all := items + [p];
    IdsSnoc(items, p);
    forall i | 0 <= i < |acc.otherKeys|
      ensures FirstIndex(all, acc.otherKeys[i]) == FirstIndex(items, acc.otherKeys[i])
    {
      assert acc.otherKeys[i] in acc.otherKeys;
      FirstIndexSnoc(items, p, acc.otherKeys[i]);
    }
    if keys != acc.otherKeys {
      assert keys == acc.otherKeys + [p.id];
      FirstIndexSnoc(items, p, p.id);
      forall i, j | 0 <= i < j < |keys|
        ensures FirstIndex(all, keys[i]) < FirstIndex(all, keys[j])
      {
        if j == |acc.otherKeys| {
          assert keys[i] == acc.otherKeys[i];
        } else {
          assert keys[i] == acc.otherKeys[i] && keys[j] == acc.otherKeys[j];
        }
      }
    }
  }

  /** Every key names a line, every line has a key, and no key is listed twice. */
  predicate KeysCover(acc: Acc) {
    && (forall k :: k in Keys(acc) ==> k in acc.lines)
    && (forall k :: k in acc.lines ==> k in Keys(acc))
    && Distinct(Keys(acc))
  }

  lemma InvKeysCover(acc: Acc, items: seq<Product>)
    requires Inv(acc, items)
    ensures KeysCover(acc)
  {
    KeysDistinct(acc, items);
  }

  lemma SumExistingStep(acc: Acc, items: seq<Product>, p: Product)
    requires KeysCover(acc) && SumInv(acc, items) && p.id in acc.lines
    ensures SumInv(AddItem(acc, p), items + [p])
  {
    var l := acc.lines[p.id];
    SumOverUpdate(Keys(acc), acc.lines, p.id, l.(qty := l.qty + 1));
  }

  lemma SumIndexStep(acc: Acc, items: seq<Product>, p: Product)
    requires KeysCover(acc) && SumInv(acc, items) && p.id !in acc.lines && IsArrayIndex(p.id)
    ensures SumInv(AddItem(acc, p), items + [p])
  {
    var next := AddItem(acc, p);
    SumOverFresh(Keys(acc), acc.lines, p.id, Line(p, 1));
    SumOverAppend(acc.indexKeys, acc.otherKeys, next.lines);
    SumOverInsert(acc.indexKeys, p.id, next.lines);
    SumOverAppend(next.indexKeys, next.otherKeys, next.lines);
    forall k | k in Keys(next) ensures k in next.lines {
      assert k in next.indexKeys ==> k in multiset(next.indexKeys);
    }
  }

  lemma SumOtherStep(acc: Acc, items: seq<Product>, p: Product)
    requires KeysCover(acc) && SumInv(acc, items) && p.id !in acc.lines && !IsArrayIndex(p.id)
    ensures SumInv(AddItem(acc, p), items + [p])
  {
    var next := AddItem(acc, p);
    SumOverFresh(Keys(acc), acc.lines, p.id, Line(p, 1));
    assert Keys(next) == Keys(acc) + [p.id];
    SumOverAppend(Keys(acc), [p.id], next.lines);
  }

  /** A new line under a key not listed leaves the sum alone. */
  lemma {:induction false} SumOverFresh(keys: seq<int>, lines: map<int, Line>, k: int, l: Line)
    requires forall j :: j in keys ==> j in lines
    requires k !in keys
    ensures SumOver(keys, lines[k := l]) == SumOver(keys, lines)
  {
    if |keys| > 0 {
      SumOverFresh(keys[1..], lines, k, l);
    }
  }

  lemma {:induction false} CountZero(items: seq<Product>, k: int)
    requires k !in Ids(items)
    ensures Count(items, k) == 0
  {
    if |items| > 0 {
      var init := items[..|items| - 1];
      assert items == init + [items[|items| - 1]];
      IdsSnoc(init, items[|items| - 1]);
      CountZero(init, k);
    }
  }

  lemma {:induction false} GroupAccInvariant(items: seq<Product>)
    ensures Inv(GroupAcc(items), items)
  {
    if |items| > 0 {
      var init := items[..|items| - 1];
      var p := items[|items| - 1];
      assert items == init + [p];
      GroupAccInvariant(init);
      var acc := GroupAcc(init);
      LinesStep(acc, init, p);
      IndexKeysStep(acc, init, p);
      OtherKeysMembershipStep(acc, init, p);
      OtherKeysOrderStep(acc, init, p);
      InvKeysCover(acc, init);
      if p.id in acc.lines {
        SumExistingStep(acc, init, p);
      } else if IsArrayIndex(p.id) {
        SumIndexStep(acc, init, p);
      } else {
        SumOtherStep(acc, init, p);
      }
    }
  }

  /* What the grouped list shows */

  lemma GroupLineAt(items: seq<Product>, i: int)
    requires 0 <= i < |Group(items)|
    ensures Keys(GroupAcc(items))[i] in GroupAcc(items).lines
    ensures Group(items)[i] == GroupAcc(items).lines[Keys(GroupAcc(items))[i]]
    ensures Group(items)[i].product.id == Keys(GroupAcc(items))[i]
  {
    GroupAccInvariant(items);
    var acc := GroupAcc(items);
    var k := Keys(acc)[i];
    assert k in Keys(acc);
  }

  /**
   * Each line holds the first bought item with its id, and its quantity is
   * the number of items bought with that id.
   */
  lemma GroupLines(items: seq<Product>)
    ensures forall i :: 0 <= i < |Group(items)| ==>
      var l := Group(items)[i];
      l.product.id in Ids(items) && l.qty == Count(items, l.product.id) && l.product == items[FirstIndex(items, l.product.id)]
  {
    GroupAccInvariant(items);
    forall i | 0 <= i < |Group(items)|
      ensures var l := Group(items)[i];
        l.product.id in Ids(items) && l.qty == Count(items, l.product.id) && l.product == items[FirstIndex(items, l.product.id)]
    {
      GroupLineAt(items, i);
    }
  }

  /** One line per distinct id. */
  lemma GroupOnePerId(items: seq<Product>)
    ensures forall i, j :: 0 <= i < j < |Group(items)| ==> Group(items)[i].product.id != Group(items)[j].product.id
    ensures forall id :: id in Ids(items) ==> exists i :: 0 <= i < |Group(items)| && Group(items)[i].product.id == id
  {
    GroupAccInvariant(items);
    var acc := GroupAcc(items);
    KeysDistinct(acc, items);
    forall i, j | 0 <= i < j < |Group(items)|
      ensures Group(items)[i].product.id != Group(items)[j].product.id
    {
      GroupLineAt(items, i);
      GroupLineAt(items, j);
    }
    InvKeysCover(acc, items);
    forall id | id in Ids(items)
      ensures exists i :: 0 <= i < |Group(items)| && Group(items)[i].product.id == id
    {
      assert id in acc.lines && id in Keys(acc);
      var i :| 0 <= i < |Keys(acc)| && Keys(acc)[i] == id;
      GroupLineAt(items, i);
    }
  }

  /**
   * The order `Object.values` gives: lines whose id is an array index come
   * first, in ascending id; the others follow in the order their id was first bought.
   */
  lemma GroupOrder(items: seq<Product>)
    ensures forall i, j :: 0 <= i < j < |Group(items)| ==>
      var a, b := Group(items)[i].product.id, Group(items)[j].product.id;
      && (IsArrayIndex(a) && IsArrayIndex(b) ==> a < b)
      && (!IsArrayIndex(a) ==> !IsArrayIndex(b) && a in Ids(items) && b in Ids(items) && FirstIndex(items, a) < FirstIndex(items, b))
  {
    GroupAccInvariant(items);
    var acc := GroupAcc(items);
    var n := |acc.indexKeys|;
    forall i, j | 0 <= i < j < |Group(items)|
      ensures var a, b := Group(items)[i].product.id, Group(items)[j].product.id;
        && (IsArrayIndex(a) && IsArrayIndex(b) ==> a < b)
        && (!IsArrayIndex(a) ==> !IsArrayIndex(b) && a in Ids(items) && b in Ids(items) && FirstIndex(items, a) < FirstIndex(items, b))
    {
      GroupLineAt(items, i);
      GroupLineAt(items, j);
      var keys := Keys(acc);
      if j < n {
        assert keys[i] == acc.indexKeys[i] && keys[j] == acc.indexKeys[j];
      } else if i >= n {
        assert keys[i] == acc.otherKeys[i - n] && keys[j] == acc.otherKeys[j - n];
        assert keys[i] in acc.otherKeys && keys[j] in acc.otherKeys;
      } else {
        assert keys[i] == acc.indexKeys[i] && keys[i] in acc.indexKeys;
        assert keys[j] == acc.otherKeys[j - n] && keys[j] in acc.otherKeys;
      }
    }
  }

  lemma {:induction false} SumQtyOver(keys: seq<int>, lines: map<int, Line>)
    requires forall k :: k in keys ==> k in lines
    ensures SumQty(Values(keys, lines)) == SumOver(keys, lines)
  {
    if |keys| > 0 {
      assert Values(keys, lines)[1..] == Values(keys[1..], lines);
      SumQtyOver(keys[1..], lines);
    }
  }

  /** The quantities add up to the number of items bought. */
  lemma GroupTotalQty(items: seq<Product>)
    ensures SumQty(Group(items)) == |items|
  {
    GroupAccInvariant(items);
    var acc := GroupAcc(items);
    SumQtyOver(Keys(acc), acc.lines);
  }

  /* The amount of a line and the discount flag */

  /** `n * q` for a whole q; an infinity times 0 is NaN. */
  function Times(n: JsNumber, q: nat): JsNumber {
    match n
    case Finite(v) => Finite(v * q)
    case NaN => NaN
    case PosInf => if q == 0 then NaN else PosInf
    case NegInf => if q == 0 then NaN else NegInf
  }

  /** `(Number(item.price) || 0) * item.qty`. */
  function LineAmount(l: Line): JsNumber {
    Times(OrZero(PriceNumber(l.product.price)), l.qty)
  }

  /** `price` added to itself q times, starting from 0. */
  function RepeatAdd(n: JsNumber, q: nat): JsNumber {
    if q == 0 then Zero else Add(RepeatAdd(n, q - 1), n)
  }

  /** A line's amount is its coerced price added once per unit bought. */
  lemma {:induction false} LineAmountIsRepeatedPrice(l: Line)
    requires l.qty > 0
    ensures LineAmount(l) == RepeatAdd(OrZero(PriceNumber(l.product.price)), l.qty)
  {
    TimesIsRepeatAdd(OrZero(PriceNumber(l.product.price)), l.qty);
  }

  lemma {:induction false} TimesIsRepeatAdd(n: JsNumber, q: nat)
    requires q > 0 && !n.NaN?
    ensures Times(n, q) == RepeatAdd(n, q)
  {
    if q > 1 {
      TimesIsRepeatAdd(n, q - 1);
      if n.Finite? {
        assert n.hundredths * (q - 1) + n.hundredths == n.hundredths * q;
      }
    }
  }

  /** "Desconto aplicado": the student flag is set or the coupon is a non-empty string. */
  predicate DiscountApplied(s: PurchaseSummary) {
    s.student || s.coupon != ""
  }

  /**
   * The summary keeps the coupon trimmed, so a discount shows exactly when
   * the student box was ticked or the coupon field held something other than white space.
   */
  lemma DiscountFromForm(items: seq<Product>, response: BuyResponse, student: bool, coupon: string)
    ensures DiscountApplied(PurchaseSummary(items, response, student, Trim(coupon)))
        <==> student || exists k :: 0 <= k < |coupon| && !IsWhiteSpace(coupon[k])
  {
    TrimEmptyIffBlank(coupon);
  }
}
