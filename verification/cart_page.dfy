/** The cart page (src/app/carrinho/page.tsx): the cart held in component
    state, mirrored under the "cart" key of the browser's local storage, and
    the checkout that opens a WhatsApp link listing the chosen services. Local
    storage is a map from keys to the (already parsed) stored list. */
module CartPage {
  import opened Common

  datatype Service = Service(id: string, name: string, description: string, coverImage: string)

  const CartKey: string := "cart"
  const EmptyCartAlert: string := "O carrinho está vazio!"
  const LineBreak: string := "%0A"
  const LinkPrefix: string :=
    "https://api.whatsapp.com/send/?phone=+5551999068850&text=Ol%C3%A1%21+Gostaria+de+um+or%C3%A7amento+para+os+seguintes+servi%C3%A7os%3A%0A"
  const LinkSuffix: string := "&type=phone_number&app_absent=0"

  /** `cart.filter((item) => item._id !== id)`. */
  function WithoutId(cart: seq<Service>, id: string): (r: seq<Service>)
    ensures forall i :: 0 <= i < |r| ==> r[i].id != id
    ensures forall s: Service :: s.id != id ==> multiset(r)[s] == multiset(cart)[s]
    ensures IsSubsequence(r, cart)
    ensures (forall i :: 0 <= i < |cart| ==> cart[i].id != id) ==> r == cart
  {
    var keep := (s: Service) => s.id != id;
    WithoutIdFilter(cart, id, keep);
    Filter(cart, keep)
  }

  /** The facts WithoutId promises, read off Filter's own lemmas. */
  lemma WithoutIdFilter(cart: seq<Service>, id: string, keep: Service -> bool)
    requires forall s: Service :: keep(s) == (s.id != id)
    ensures forall s: Service :: s.id != id ==> multiset(Filter(cart, keep))[s] == multiset(cart)[s]
    ensures IsSubsequence(Filter(cart, keep), cart)
    ensures (forall i :: 0 <= i < |cart| ==> cart[i].id != id) ==> Filter(cart, keep) == cart
  {
    FilterIsSubsequence(cart, keep);
    FilterCountsAll(cart, keep);
    if forall i :: 0 <= i < |cart| ==> cart[i].id != id {
      FilterKeepsAll(cart, keep);
    }
  }

  /** Every service with another id survives the removal, with all its copies,
      and the cart shrinks by exactly the copies that carry the id. */
  lemma WithoutIdKeepsOthers(cart: seq<Service>, id: string, s: Service)
    requires s in cart && s.id != id
    ensures s in WithoutId(cart, id)
    ensures multiset(WithoutId(cart, id))[s] == multiset(cart)[s]
    ensures |WithoutId(cart, id)| == |cart| - |Filter(cart, (x: Service) => x.id == id)|
  {
    FilterPartition(cart, (x: Service) => x.id != id, (x: Service) => x.id == id);
  }

  /** One "• name" line per service, in cart order. */
  function Lines(cart: seq<Service>): (r: seq<string>)
    ensures |r| == |cart|
    ensures forall i :: 0 <= i < |cart| ==> r[i] == "• " + cart[i].name
  {
    seq(|cart|, i requires 0 <= i < |cart| => "• " + cart[i].name)
  }

  /** The checkout: no link for an empty cart, otherwise the fixed greeting,
      the lines joined by "%0A", and the fixed parameters. */
  function CheckoutLink(cart: seq<Service>): (r: Option<string>)
    ensures r.None? <==> cart == []
    ensures r.Some? ==>
      && |r.value| >= |LinkPrefix| + |LinkSuffix|
      && r.value[..|LinkPrefix|] == LinkPrefix
      && r.value[|r.value| - |LinkSuffix|..] == LinkSuffix
  {
    if cart == [] then None
    else
      var link := LinkPrefix + Join(Lines(cart), LineBreak) + LinkSuffix;
      assert link[..|LinkPrefix|] == LinkPrefix;
      assert link[|link| - |LinkSuffix|..] == LinkSuffix;
      Some(link)
  }

  /** When no name holds a '%', cutting the message at "%0A" gives back exactly
      one line per service, in cart order. */
  lemma MessageListsCart(cart: seq<Service>)
    requires cart != []
    requires forall i :: 0 <= i < |cart| ==> '%' !in cart[i].name
    ensures var link := CheckoutLink(cart).value;
      var message := link[|LinkPrefix|..|link| - |LinkSuffix|];
      Split(message, LineBreak) == Lines(cart)
  {
    var lines := Lines(cart);
    var message := Join(lines, LineBreak);
    var link := LinkPrefix + message + LinkSuffix;
    assert link[|LinkPrefix|..|link| - |LinkSuffix|] == message;
    forall k | 0 <= k < |lines|
      ensures LineBreak[0] !in lines[k]
    {
      assert lines[k] == "• " + cart[k].name;
    }
    SplitJoin(lines, LineBreak);
  }

  class Cart {
    var cart: seq<Service>
    var storage: map<string, seq<Service>>

    /** The page after a remove: storage holds what the page shows. */
    ghost predicate Mirrored()
      reads this
    {
      CartKey in storage && storage[CartKey] == cart
    }

    constructor (storage: map<string, seq<Service>>)
      ensures cart == [] && this.storage == storage
    {
      cart := [];
      this.storage := storage;
    }

    /** The mount effect: a stored cart replaces the empty one. */
    method Mount()
      modifies this
      ensures cart == (if CartKey in storage then storage[CartKey] else old(cart))
      ensures storage == old(storage)
      ensures old(cart) == [] && CartKey in storage ==> Mirrored()
    {
      if CartKey in storage {
        cart := storage[CartKey];
      }
    }

    /** `removeFromCart(id)`: filter the cart and write the result back. */
    method RemoveFromCart(id: string)
      modifies this
      ensures cart == WithoutId(old(cart), id)
      ensures storage == old(storage)[CartKey := cart]
      ensures Mirrored()
    {
      cart := WithoutId(cart, id);
      storage := storage[CartKey := cart];
    }

    /** `handleCheckout`: the alert for an empty cart, or the link to open. */
    method Checkout() returns (alert: Option<string>, link: Option<string>)
      ensures cart == [] ==> alert == Some(EmptyCartAlert) && link == None
      ensures cart != [] ==> alert == None && link == CheckoutLink(cart)
    {
      if |cart| == 0 {
        return Some(EmptyCartAlert), None;
      }
      alert := None;
      link := CheckoutLink(cart);
    }
  }
}
