/** The "add category" form (`app/dashboard/categories/new/page.tsx`): the
    product picker that adds and removes products of the new category and
    mirrors them into the form's `products` ids, and the `CategorySchema`
    validation that guards the submit. */
module NewCategory {
  import opened Wrappers
  import opened Lists

  /** `ProductType`: the products offered by the picker. */
  datatype ProductRef = ProductRef(id: string, name: string, images: seq<string>)

  function RefId(p: ProductRef): string {
    p.id
  }

  /** `products.map(p => p._id)`. */
  function Ids(products: seq<ProductRef>): (r: seq<string>)
    ensures |r| == |products|
    ensures forall i :: 0 <= i < |r| ==> r[i] == products[i].id
  {
    MapSeq(products, RefId)
  }

  /** `products.some(p => p._id === id)`. */
  predicate HasId(products: seq<ProductRef>, id: string) {
    exists i :: 0 <= i < |products| && products[i].id == id
  }

  /** `products[i]` is the first product with the id. */
  predicate FirstWithId(products: seq<ProductRef>, id: string, i: int) {
    0 <= i < |products| && products[i].id == id && forall j :: 0 <= j < i ==> products[j].id != id
  }

  /** `products.find(p => p._id === id)`: the first product with the id. */
  function FindById(products: seq<ProductRef>, id: string): (r: Option<ProductRef>)
    ensures r.Some? <==> HasId(products, id)
    ensures r.Some? ==> r.value.id == id && r.value in products
    ensures r.Some? ==> exists i :: FirstWithId(products, id, i) && products[i] == r.value
    decreases |products|
  {
    if products == [] then None
    else if products[0].id == id then Some(products[0])
    else
      var r := FindById(products[1..], id);
      assert HasId(products, id) ==> HasId(products[1..], id) by {
        if HasId(products, id) {
          var i :| 0 <= i < |products| && products[i].id == id;
          assert products[1..][i - 1] == products[i];
        }
      }
      assert r.Some? ==> exists i :: FirstWithId(products, id, i) && products[i] == r.value by {
        if r.Some? {
          var i :| FirstWithId(products[1..], id, i) && products[1..][i] == r.value;
          assert products[i + 1] == r.value;
          forall j | 0 <= j < i + 1 ensures products[j].id != id {
            if j > 0 { assert products[j] == products[1..][j - 1]; }
          }
          assert FirstWithId(products, id, i + 1);
        }
      }
      assert r.Some? ==> HasId(products, id) by {
        if r.Some? {
          var i :| FirstWithId(products[1..], id, i) && products[1..][i] == r.value;
          assert products[i + 1] == r.value;
        }
      }
      r
  }

  /** No two products of the list share an id. */
  predicate DistinctIds(products: seq<ProductRef>) {
    forall i, j :: 0 <= i < j < |products| ==> products[i].id != products[j].id
  }

  /** Removing products keeps the ids distinct. */
  lemma {:induction false} RemoveKeepsDistinct(products: seq<ProductRef>, id: string)
    requires DistinctIds(products)
    ensures DistinctIds(RemoveById(products, RefId, id))
    decreases |products|
  {
    if products != [] {
      var tail := products[1..];
      assert DistinctIds(tail) by {
        forall i, j | 0 <= i < j < |tail| ensures tail[i].id != tail[j].id {
          assert tail[i] == products[i + 1] && tail[j] == products[j + 1];
        }
      }
      RemoveKeepsDistinct(tail, id);
      var rest := RemoveById(tail, RefId, id);
      if KeyIsNot(RefId, id)(products[0]) {
        assert RemoveById(products, RefId, id) == [products[0]] + rest;
        forall x | x in rest ensures x.id != products[0].id {
          var k :| 0 <= k < |tail| && tail[k] == x;
          assert products[k + 1] == x;
        }
      } else {
        assert RemoveById(products, RefId, id) == rest;
      }
    }
  }

  /** After a removal no selected product has the id. */
  lemma RemovedIdIsGone(products: seq<ProductRef>, id: string)
    ensures !HasId(RemoveById(products, RefId, id), id)
  {
    var r := RemoveById(products, RefId, id);
    forall i | 0 <= i < |r| ensures r[i].id != id {
      assert r[i] in r;
    }
  }

  /** Removing a product that was just appended gives back the earlier list. */
  lemma RemoveUndoesAdd(products: seq<ProductRef>, p: ProductRef)
    requires !HasId(products, p.id)
    ensures RemoveById(products + [p], RefId, p.id) == products
  {
    FilterAppend(products, p, KeyIsNot(RefId, p.id));
    forall x | x in products ensures RefId(x) != p.id {
      var i :| 0 <= i < |products| && products[i] == x;
    }
  }

  /** The form values of `CategoryFormValues`; a `None` field is absent. */
  datatype CategoryForm = CategoryForm(
    name: string,
    image: Option<string>,
    description: Option<string>,
    products: Option<seq<string>>,
    id: Option<string>,
    createdAt: Option<string>)

  /** `defaultValues`, also what `form.reset()` restores: no `_id` and no
      `createdAt`. */
  const DefaultForm: CategoryForm :=
    CategoryForm("", Some(""), Some(""), Some([]), None, None)

  /** The complaints `CategorySchema` can raise. */
  datatype Issue = NameTooShort | IdRequired | CreatedAtRequired

  /** `CategorySchema` as written: a name of at least two characters, and
      `_id` and `createdAt` present. */
  function SchemaIssuesAsWritten(v: CategoryForm): (issues: set<Issue>)
    ensures NameTooShort in issues <==> |v.name| < 2
    ensures IdRequired in issues <==> v.id.None?
    ensures CreatedAtRequired in issues <==> v.createdAt.None?
  {
    (if |v.name| < 2 then {NameTooShort} else {})
    + (if v.id.None? then {IdRequired} else {})
    + (if v.createdAt.None? then {CreatedAtRequired} else {})
  }

  /** The schema as written rejects every form value without `_id`, and no
      input of the form ever sets `_id`: the submit handler is unreachable. */
  lemma AsWrittenRejectsTheForm(v: CategoryForm)
    requires v.id.None? && v.createdAt.None?
    ensures SchemaIssuesAsWritten(v) != {}
    ensures IdRequired in SchemaIssuesAsWritten(v) && CreatedAtRequired in SchemaIssuesAsWritten(v)
  {
  }

  /** Even a well-named category is rejected as written. */
  lemma AsWrittenRejectsGoodName()
    ensures SchemaIssuesAsWritten(DefaultForm.(name := "Seeds")) == {IdRequired, CreatedAtRequired}
  {
  }

  /** `CategorySchema` with `_id` and `createdAt` optional, as the form that
      never sets them needs. */
  function SchemaIssues(v: CategoryForm): (issues: set<Issue>)
    ensures issues == {} <==> |v.name| >= 2
    ensures issues <= {NameTooShort}
  {
    if |v.name| < 2 then {NameTooShort} else {}
  }

  /** The corrected schema only ever complains where the written one does. */
  lemma CorrectedIsWeaker(v: CategoryForm)
    ensures SchemaIssues(v) <= SchemaIssuesAsWritten(v)
    ensures v.id.Some? && v.createdAt.Some? ==> SchemaIssues(v) == SchemaIssuesAsWritten(v)
  {
  }

  /** The state of the form. */
  class NewCategoryPage {
    var allProducts: seq<ProductRef>
    var selectedProducts: seq<ProductRef>
    var form: CategoryForm

    /** The selection holds each product once, the form's `products` are its
        ids in order, and the form never carries `_id` or `createdAt`. */
    predicate Valid()
      reads this
    {
      && DistinctIds(selectedProducts)
      && form.products == Some(Ids(selectedProducts))
      && form.id.None? && form.createdAt.None?
    }

    constructor ()
      ensures Valid()
      ensures allProducts == [] && selectedProducts == [] && form == DefaultForm
    {
      allProducts := [];
      selectedProducts := [];
      form := DefaultForm;
    }

    /** `fetchProducts`: the products on offer (`[]` when the response has
        none); a failed request changes nothing. */
    method LoadProducts(response: Option<seq<ProductRef>>)
      requires Valid()
      modifies this
      ensures Valid()
      ensures response.Some? ==> allProducts == response.value
      ensures response.None? ==> allProducts == old(allProducts)
      ensures selectedProducts == old(selectedProducts) && form == old(form)
    {
      if response.Some? {
        allProducts := response.value;
      }
    }

    /** Typing into the name input. */
    method SetName(name: string)
      requires Valid()
      modifies this
      ensures Valid()
      ensures form == old(form).(name := name)
      ensures allProducts == old(allProducts) && selectedProducts == old(selectedProducts)
    {
      form := form.(name := name);
    }

    /** Typing into the description input. */
    method SetDescription(description: string)
      requires Valid()
      modifies this
      ensures Valid()
      ensures form == old(form).(description := Some(description))
      ensures allProducts == old(allProducts) && selectedProducts == old(selectedProducts)
    {
      form := form.(description := Some(description));
    }

    /** Typing an image URL, or `setValue("image", uploadedUrl)` after an upload. */
    method SetImage(url: string)
      requires Valid()
      modifies this
      ensures Valid()
      ensures form == old(form).(image := Some(url))
      ensures allProducts == old(allProducts) && selectedProducts == old(selectedProducts)
    {
      form := form.(image := Some(url));
    }

    /** The picker's `onValueChange`: the first offered product with the id is
        appended, unless a selected product already has its id; the form's
        `products` follow. */
    method SelectProduct(productId: string)
      requires Valid()
      modifies this
      ensures Valid()
      ensures var found := FindById(old(allProducts), productId);
        if found.Some? && !HasId(old(selectedProducts), productId)
        then selectedProducts == old(selectedProducts) + [found.value]
        else selectedProducts == old(selectedProducts)
      ensures form == old(form).(products := Some(Ids(selectedProducts)))
      ensures allProducts == old(allProducts)
    {
      var selected := FindById(allProducts, productId);
      if selected.Some? && !HasId(selectedProducts, selected.value.id) {
        var updated := selectedProducts + [selected.value];
        assert DistinctIds(updated) by {
          forall i, j | 0 <= i < j < |updated| ensures updated[i].id != updated[j].id {
            if j == |selectedProducts| {
              assert updated[i] == selectedProducts[i];
            } else {
              assert updated[i] == selectedProducts[i] && updated[j] == selectedProducts[j];
            }
          }
        }
        selectedProducts := updated;
        form := form.(products := Some(Ids(updated)));
      }
    }

    /** A selected product's remove button: every product with its id leaves
        the selection, the others keep their order; the form's `products`
        follow. */
    method RemoveProduct(productId: string)
      requires Valid()
      modifies this
      ensures Valid()
      ensures selectedProducts == RemoveById(old(selectedProducts), RefId, productId)
      ensures form == old(form).(products := Some(Ids(selectedProducts)))
      ensures allProducts == old(allProducts)
    {
      var updated := RemoveById(selectedProducts, RefId, productId);
      RemoveKeepsDistinct(selectedProducts, productId);
      selectedProducts := updated;
      form := form.(products := Some(Ids(updated)));
    }

    /** `form.handleSubmit(onSubmit)`: when the schema accepts the values they
        are posted (`payload`); when the post succeeds (`posted`) the form is
        reset and the selection emptied. */
    method HandleSubmit(posted: bool) returns (payload: Option<CategoryForm>)
      requires Valid()
      modifies this
      ensures Valid()
      ensures payload.Some? <==> SchemaIssues(old(form)) == {}
      ensures payload.Some? ==> payload.value == old(form)
      ensures payload.Some? && posted ==> form == DefaultForm && selectedProducts == []
      ensures !(payload.Some? && posted) ==> form == old(form) && selectedProducts == old(selectedProducts)
      ensures allProducts == old(allProducts)
    {
      if SchemaIssues(form) == {} {
        payload := Some(form);
        if posted {
          form := DefaultForm;
          selectedProducts := [];
        }
      } else {
        payload := None;
      }
    }
  }
}
