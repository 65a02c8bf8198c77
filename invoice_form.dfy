/** The invoice form's state (src/components/Invoices.tsx): the invoice
    being edited (`form`), the item being picked (`itemForm`), adding the
    picked item with the product's current price, and submitting. */
module InvoiceForm {

  import opened Rows
  import opened Ledger

  datatype Product = Product(id: int, name: string, price: real)

  /** `form`: customer, invoice type, due date as typed, and the items so far. */
  datatype Form = Form(customerId: int, kind: string, dueDate: string, items: seq<InvoiceItem>)

  /** `itemForm`: the product picked and the quantity typed. */
  datatype ItemForm = ItemForm(productId: int, quantity: int)

  /** The form as it starts and as a submit leaves it. */
  const EmptyForm: Form := Form(0, "NF-e", "", [])

  /** The item picker as it starts and as a successful add leaves it. */
  const EmptyItemForm: ItemForm := ItemForm(0, 1)

  /** `products.find(p => p.id === id)`: the first product with that id. */
  function FindProduct(products: seq<Product>, id: int): (r: Option<Product>)
    ensures r.Some? ==> r.value in products && r.value.id == id
    ensures r.Some? ==> exists i :: 0 <= i < |products| && products[i] == r.value &&
                                    forall j :: 0 <= j < i ==> products[j].id != id
    ensures r.None? <==> forall p :: p in products ==> p.id != id
  {
    if products == [] then None
    else if products[0].id == id then Some(products[0])
    else
      var r := FindProduct(products[1..], id);
      if r.Some? then
        var i :| 0 <= i < |products[1..]| && products[1..][i] == r.value &&
                 forall j :: 0 <= j < i ==> products[1..][j].id != id;
        assert products[i + 1] == r.value;
        r
      else r
  }

  /** The state `addItem` leaves: with a matching product, the picked item at
      that product's price appended and the picker reset; without one,
      nothing changes. */
  function AddedItem(form: Form, itemForm: ItemForm, products: seq<Product>): (r: (Form, ItemForm))
    ensures FindProduct(products, itemForm.productId).None? ==> r == (form, itemForm)
    ensures FindProduct(products, itemForm.productId).Some? ==>
              var price := FindProduct(products, itemForm.productId).value.price;
              r.0.items == form.items + [InvoiceItem(itemForm.productId, itemForm.quantity, price)] &&
              r.0.customerId == form.customerId && r.0.kind == form.kind && r.0.dueDate == form.dueDate &&
              r.1 == EmptyItemForm
  {
    match FindProduct(products, itemForm.productId)
    case None => (form, itemForm)
    case Some(product) =>
      (form.(items := form.items + [InvoiceItem(itemForm.productId, itemForm.quantity, product.price)]), EmptyItemForm)
  }

  /** Adding grows the item list by at most one and never touches the items already there. */
  lemma AddedItemKeepsItems(form: Form, itemForm: ItemForm, products: seq<Product>)
    ensures var after := AddedItem(form, itemForm, products).0;
            |form.items| <= |after.items| <= |form.items| + 1 && after.items[..|form.items|] == form.items
  {
    var after := AddedItem(form, itemForm, products).0;
    if after.items != form.items {
      assert after.items[..|form.items|] == form.items;
    }
  }

  /** Items added one after another, each at its product's price, in order. */
  lemma AddTwo(form: Form, a: ItemForm, b: ItemForm, products: seq<Product>, pa: Product, pb: Product)
    requires FindProduct(products, a.productId) == Some(pa)
    requires FindProduct(products, b.productId) == Some(pb)
    ensures var first := AddedItem(form, a, products);
            var second := AddedItem(first.0, b, products);
            second.0.items == form.items + [InvoiceItem(a.productId, a.quantity, pa.price),
                                            InvoiceItem(b.productId, b.quantity, pb.price)]
  {
    var first := AddedItem(form, a, products);
    assert first.0.items + [InvoiceItem(b.productId, b.quantity, pb.price)]
        == form.items + [InvoiceItem(a.productId, a.quantity, pa.price), InvoiceItem(b.productId, b.quantity, pb.price)];
  }

  /** The component's state. */
  class InvoiceEditor {
    var form: Form
    var itemForm: ItemForm
    var products: seq<Product>

    constructor(products: seq<Product>)
      ensures form == EmptyForm && itemForm == EmptyItemForm && this.products == products
    {
      form := EmptyForm;
      itemForm := EmptyItemForm;
      this.products := products;
    }

    /** `addItem`. */
    method AddItem()
      modifies this
      ensures (form, itemForm) == AddedItem(old(form), old(itemForm), products)
      ensures products == old(products)
    {
      var product := FindProduct(products, itemForm.productId);
      if product.Some? {
        form := form.(items := form.items + [InvoiceItem(itemForm.productId, itemForm.quantity, product.value.price)]);
        itemForm := ItemForm(0, 1);
      }
    }

    /** `handleSubmit`: the form is posted as it stands; `accepted` is the
        outcome of the post. An accepted post resets the form; a rejected one
        throws before the reset, so the form keeps what was typed. The item
        picker is left as it is either way. */
    method Submit(accepted: bool) returns (posted: Form)
      modifies this
      ensures posted == old(form)
      ensures accepted ==> form == EmptyForm
      ensures !accepted ==> form == old(form)
      ensures itemForm == old(itemForm) && products == old(products)
    {
      posted := form;
      if accepted {
        form := Form(0, "NF-e", "", []);
      }
    }
  }
}
