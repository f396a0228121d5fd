/** The shared cart (frontend/src/contexts/CartContext.tsx): lines keyed by
    "articleId-declinaisonId", quantities merged on a repeated add, a line
    removed when its quantity is set to zero or below, and the two totals.
    Each updater computes the new list from the previous one, so they are
    functions here; the moment `new Date()` reads is a parameter. */
module CartContext {
  import opened Common
  import opened StockTypes

  datatype CartLine = CartLine(id: string, article: Article, declinaison: Declinaison, quantity: int, addedAt: nat)

  /** `${article.id}-${declinaison.id}` */
  function ItemKey(article: Article, decl: Declinaison): string
  {
    article.id + "-" + decl.id
  }

  predicate HasId(items: seq<CartLine>, id: string)
  {
    exists k :: 0 <= k < |items| && items[k].id == id
  }

  /** Lines whose id is `id` get `quantity` added. */
  function AddToLine(items: seq<CartLine>, id: string, quantity: int): (r: seq<CartLine>)
    ensures |r| == |items|
    ensures forall k :: 0 <= k < |items| ==>
      r[k] == if items[k].id == id then items[k].(quantity := items[k].quantity + quantity) else items[k]
  {
    seq(|items|, k requires 0 <= k < |items| =>
      if items[k].id == id then items[k].(quantity := items[k].quantity + quantity) else items[k])
  }

  /** `addToCart(article, declinaison, quantity)` at time `now`. */
  function AddToCart(items: seq<CartLine>, article: Article, decl: Declinaison, quantity: int, now: nat): seq<CartLine>
  {
    var key := ItemKey(article, decl);
    if HasId(items, key) then AddToLine(items, key, quantity)
    else items + [CartLine(key, article, decl, quantity, now)]
  }

  function KeepsId(id: string): CartLine -> bool
  {
    (line: CartLine) => line.id != id
  }

  /** `removeFromCart(itemId)` */
  function RemoveFromCart(items: seq<CartLine>, id: string): seq<CartLine>
  {
    Filter(items, KeepsId(id))
  }

  /** Lines whose id is `id` get quantity `quantity`. */
  function SetQuantity(items: seq<CartLine>, id: string, quantity: int): (r: seq<CartLine>)
    ensures |r| == |items|
    ensures forall k :: 0 <= k < |items| ==>
      r[k] == if items[k].id == id then items[k].(quantity := quantity) else items[k]
  {
    seq(|items|, k requires 0 <= k < |items| =>
      if items[k].id == id then items[k].(quantity := quantity) else items[k])
  }

  /** `updateQuantity(itemId, quantity)` */
  function UpdateQuantity(items: seq<CartLine>, id: string, quantity: int): seq<CartLine>
  {
    if quantity <= 0 then RemoveFromCart(items, id) else SetQuantity(items, id, quantity)
  }

  /** `clearCart()` */
  function ClearCart(): (r: seq<CartLine>)
    ensures |r| == 0
  {
    []
  }

  function LinePrice(line: CartLine): int
  {
    line.article.prix_vente * line.quantity
  }

  function LineQuantity(line: CartLine): int
  {
    line.quantity
  }

  /** `getTotalPrice()` */
  function TotalPrice(items: seq<CartLine>): int
  {
    SumOf(items, LinePrice)
  }

  /** `getTotalItems()` */
  function TotalItems(items: seq<CartLine>): int
  {
    SumOf(items, LineQuantity)
  }

  // ------------------------------------------------------------ invariants

  /** No two lines share an id. */
  ghost predicate UniqueIds(items: seq<CartLine>)
  {
    forall i, j :: 0 <= i < j < |items| ==> items[i].id != items[j].id
  }

  /** Adding keeps ids unique; a new key is appended as one line with the
      quantity asked, an existing key has that quantity added to its line
      and to the item count, with no bound from the stock. */
  lemma AddToCartSpec(items: seq<CartLine>, article: Article, decl: Declinaison, quantity: int, now: nat)
    requires UniqueIds(items)
    ensures var r := AddToCart(items, article, decl, quantity, now);
      var key := ItemKey(article, decl);
      && UniqueIds(r)
      && TotalItems(r) == TotalItems(items) + quantity
      && (!HasId(items, key) ==> r == items + [CartLine(key, article, decl, quantity, now)])
      && (HasId(items, key) ==>
            && |r| == |items|
            && forall k :: 0 <= k < |items| ==>
                 r[k] == if items[k].id == key then items[k].(quantity := items[k].quantity + quantity) else items[k])
  {
    var key := ItemKey(article, decl);
    var r := AddToCart(items, article, decl, quantity, now);
    if HasId(items, key) {
      var i :| 0 <= i < |items| && items[i].id == key;
      assert r == items[i := items[i].(quantity := items[i].quantity + quantity)];
      SumOfUpdate(items, i, items[i].(quantity := items[i].quantity + quantity), LineQuantity);
    } else {
      SumOfAppend(items, [CartLine(key, article, decl, quantity, now)], LineQuantity);
      assert SumOf([CartLine(key, article, decl, quantity, now)], LineQuantity) == quantity;
    }
  }

  /** Removing takes out exactly the line with that id, when there is one,
      and keeps the rest in order and unique. */
  lemma RemoveFromCartSpec(items: seq<CartLine>, id: string)
    requires UniqueIds(items)
    ensures var r := RemoveFromCart(items, id);
      && UniqueIds(r)
      && !HasId(r, id)
      && (forall k :: 0 <= k < |items| && items[k].id != id ==> items[k] in r)
      && (HasId(items, id) ==> |r| == |items| - 1)
      && (!HasId(items, id) ==> r == items)
  {
    RemoveKeepsUnique(items, id);
    if HasId(items, id) {
      var i :| 0 <= i < |items| && items[i].id == id;
      RemoveSplit(items, id, i);
    } else {
      FilterAll(items, KeepsId(id));
    }
  }

  /** With unique ids, removing the line at i leaves the lines around it. */
  lemma RemoveSplit(items: seq<CartLine>, id: string, i: nat)
    requires UniqueIds(items) && i < |items| && items[i].id == id
    ensures RemoveFromCart(items, id) == items[..i] + items[i + 1..]
  {
    var pre, post := items[..i], items[i + 1..];
    assert items == pre + [items[i]] + post;
    assert forall k :: 0 <= k < |pre| ==> KeepsId(id)(pre[k]) by {
      forall k | 0 <= k < |pre| ensures KeepsId(id)(pre[k]) {
        assert pre[k] == items[k];
      }
    }
    assert forall k :: 0 <= k < |post| ==> KeepsId(id)(post[k]) by {
      forall k | 0 <= k < |post| ensures KeepsId(id)(post[k]) {
        assert post[k] == items[i + 1 + k];
      }
    }
    FilterDropsOne(pre, items[i], post, KeepsId(id));
  }

  lemma {:induction false} RemoveKeepsUnique(items: seq<CartLine>, id: string)
    requires UniqueIds(items)
    ensures UniqueIds(RemoveFromCart(items, id))
  {
    if items != [] {
      var tail := items[1..];
      var rest := RemoveFromCart(tail, id);
      UniqueTail(items);
      RemoveKeepsUnique(tail, id);
      if KeepsId(id)(items[0]) {
        assert RemoveFromCart(items, id) == [items[0]] + rest;
        forall k | 0 <= k < |rest| ensures rest[k].id != items[0].id {
          var m :| 0 <= m < |tail| && tail[m] == rest[k];
          assert items[m + 1] == rest[k];
        }
        UniqueCons(items[0], rest);
      } else {
        assert RemoveFromCart(items, id) == rest;
      }
    }
  }

  lemma UniqueTail(items: seq<CartLine>)
    requires items != [] && UniqueIds(items)
    ensures UniqueIds(items[1..])
  {
    forall i, j | 0 <= i < j < |items| - 1 ensures items[1..][i].id != items[1..][j].id {
      assert items[1..][i] == items[i + 1] && items[1..][j] == items[j + 1];
    }
  }

  lemma UniqueCons(x: CartLine, rest: seq<CartLine>)
    requires UniqueIds(rest)
    requires forall k :: 0 <= k < |rest| ==> rest[k].id != x.id
    ensures UniqueIds([x] + rest)
  {
    var r := [x] + rest;
    forall i, j | 0 <= i < j < |r| ensures r[i].id != r[j].id {
      assert r[j] == rest[j - 1];
      if i > 0 {
        assert r[i] == rest[i - 1];
      }
    }
  }

  /** A quantity of zero or below removes the line; a positive one sets that
      line's quantity and changes nothing else; ids stay unique. */
  lemma UpdateQuantitySpec(items: seq<CartLine>, id: string, quantity: int)
    requires UniqueIds(items)
    ensures var r := UpdateQuantity(items, id, quantity);
      && UniqueIds(r)
      && (quantity <= 0 ==> r == RemoveFromCart(items, id))
      && (quantity > 0 ==>
            && |r| == |items|
            && forall k :: 0 <= k < |items| ==>
              && r[k].id == items[k].id
              && (items[k].id == id ==> r[k] == items[k].(quantity := quantity))
              && (items[k].id != id ==> r[k] == items[k]))
  {
    if quantity <= 0 {
      RemoveKeepsUnique(items, id);
    }
  }

  /** Two different (article, variant) pairs can share a key when an id
      contains "-", and then the second add merges into the first pair's
      line. */
  lemma KeyCollision()
    ensures var a1 := Article("a-b", "R1", "N1", None, "ETE_2024", 0, 100, [], "", []);
      var d1 := Declinaison("c", "a-b", "M", "Noir", 1, 0, None);
      var a2 := Article("a", "R2", "N2", None, "ETE_2024", 0, 200, [], "", []);
      var d2 := Declinaison("b-c", "a", "M", "Noir", 1, 0, None);
      && (a1.id, d1.id) != (a2.id, d2.id)
      && ItemKey(a1, d1) == ItemKey(a2, d2)
      && var once := AddToCart([], a1, d1, 1, 0);
         var twice := AddToCart(once, a2, d2, 1, 1);
         |twice| == 1 && twice[0].article == a1 && twice[0].quantity == 2
  {
    var a1 := Article("a-b", "R1", "N1", None, "ETE_2024", 0, 100, [], "", []);
    var d1 := Declinaison("c", "a-b", "M", "Noir", 1, 0, None);
    var a2 := Article("a", "R2", "N2", None, "ETE_2024", 0, 200, [], "", []);
    var d2 := Declinaison("b-c", "a", "M", "Noir", 1, 0, None);
    assert ItemKey(a1, d1) == "a-b-c";
    assert ItemKey(a2, d2) == "a-b-c";
    var once := AddToCart([], a1, d1, 1, 0);
    assert once == [CartLine("a-b-c", a1, d1, 1, 0)];
    assert HasId(once, ItemKey(a2, d2)) by { assert once[0].id == ItemKey(a2, d2); }
  }

  /** An empty cart totals zero, in price and in items. */
  lemma ClearCartTotals()
    ensures TotalPrice(ClearCart()) == 0 && TotalItems(ClearCart()) == 0
  {
  }

  /** The price total gains the new line's price when a new key is added. */
  lemma AddNewLinePrice(items: seq<CartLine>, article: Article, decl: Declinaison, quantity: int, now: nat)
    requires !HasId(items, ItemKey(article, decl))
    ensures TotalPrice(AddToCart(items, article, decl, quantity, now)) == TotalPrice(items) + article.prix_vente * quantity
  {
    var line := CartLine(ItemKey(article, decl), article, decl, quantity, now);
    SumOfAppend(items, [line], LinePrice);
    assert SumOf([line], LinePrice) == LinePrice(line);
  }
}
