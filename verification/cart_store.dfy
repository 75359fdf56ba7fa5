/** The cart context (src/hooks/useCart.tsx). Inside a `CartProvider` the cart
    is a state list that `addToCart` appends to and `removeFromCart` filters;
    outside one, `useCart` returns the context's default value, an empty cart
    whose operations do nothing. */
module CartStore {
  import opened Common

  datatype CartItem = CartItem(id: string, name: string, description: string, price: int, quantity: int)

  /** `prev.filter((item) => item.id !== id)`. */
  function RemoveId(cart: seq<CartItem>, id: string): (r: seq<CartItem>)
    ensures forall i :: 0 <= i < |r| ==> r[i].id != id
    ensures forall c: CartItem :: c.id != id ==> multiset(r)[c] == multiset(cart)[c]
    ensures IsSubsequence(r, cart)
  {
    FilterIsSubsequence(cart, (c: CartItem) => c.id != id);
    FilterCountsAll(cart, (c: CartItem) => c.id != id);
    Filter(cart, (c: CartItem) => c.id != id)
  }

  /** Items with another id are all kept, every copy of them, and the cart
      loses exactly the items that carry the id. */
  lemma RemoveIdKeepsOthers(cart: seq<CartItem>, id: string)
    ensures forall i :: 0 <= i < |cart| && cart[i].id != id ==> cart[i] in RemoveId(cart, id)
    ensures |RemoveId(cart, id)| == |cart| - |Filter(cart, (c: CartItem) => c.id == id)|
  {
    FilterPartition(cart, (c: CartItem) => c.id != id, (c: CartItem) => c.id == id);
  }

  /** Removing an id nobody has changes nothing. */
  lemma RemoveAbsentId(cart: seq<CartItem>, id: string)
    requires forall i :: 0 <= i < |cart| ==> cart[i].id != id
    ensures RemoveId(cart, id) == cart
  {
    FilterKeepsAll(cart, (c: CartItem) => c.id != id);
  }

  /** Adding an item whose id is new and then removing that id restores the cart. */
  lemma AddThenRemove(cart: seq<CartItem>, item: CartItem)
    requires forall i :: 0 <= i < |cart| ==> cart[i].id != item.id
    ensures RemoveId(cart + [item], item.id) == cart
  {
    var keep := (c: CartItem) => c.id != item.id;
    FilterAppend(cart, [item], keep);
    FilterKeepsAll(cart, keep);
  }

  /** Adding an item already present keeps both copies: the add does not
      de-duplicate, and one remove then drops them all. */
  method AddKeepsDuplicates(start: seq<CartItem>, item: CartItem) returns (copiesAfterAdd: nat, copiesAfterRemove: nat)
    requires item in start
    ensures copiesAfterAdd == multiset(start)[item] + 1 && copiesAfterAdd >= 2
    ensures copiesAfterRemove == 0
  {
    var c := new CartContext.Provider();
    var i := 0;
    while i < |start|
      invariant 0 <= i <= |start| && c.provided && c.cart == start[..i]
    {
      c.AddToCart(start[i]);
      assert start[..i + 1] == start[..i] + [start[i]];
      i := i + 1;
    }
    assert start[..|start|] == start;
    c.AddToCart(item);
    copiesAfterAdd := multiset(c.cart)[item];
    c.RemoveFromCart(item.id);
    copiesAfterRemove := multiset(c.cart)[item];
    assert item !in c.cart;
  }

  class CartContext {
    var cart: seq<CartItem>
    /** Whether a `CartProvider` is above the caller. */
    const provided: bool

    /** The state a `CartProvider` starts with. */
    constructor Provider()
      ensures provided && cart == []
    {
      provided := true;
      cart := [];
    }

    /** The default value of `createContext`. */
    constructor Default()
      ensures !provided && cart == []
    {
      provided := false;
      cart := [];
    }

    /** `addToCart(item)`: appended at the end, even if already present. */
    method AddToCart(item: CartItem)
      modifies this
      ensures provided ==> cart == old(cart) + [item] && |cart| == |old(cart)| + 1
      ensures provided ==> multiset(cart)[item] == multiset(old(cart))[item] + 1
      ensures !provided ==> cart == old(cart)
    {
      if provided {
        cart := cart + [item];
      }
    }

    /** `removeFromCart(id)`: every item with that id goes, the rest keep their order. */
    method RemoveFromCart(id: string)
      modifies this
      ensures provided ==> cart == RemoveId(old(cart), id)
      ensures !provided ==> cart == old(cart)
    {
      if provided {
        cart := RemoveId(cart, id);
      }
    }
  }

  /** Without a provider the cart stays empty whatever is called. */
  method DefaultIsInert(item: CartItem) returns (finalCart: seq<CartItem>)
    ensures finalCart == []
  {
    var c := new CartContext.Default();
    c.AddToCart(item);
    c.RemoveFromCart(item.id);
    c.AddToCart(item);
    finalCart := c.cart;
  }
}
