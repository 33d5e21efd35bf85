/**
  The fragment handlers of internal/handlers/htmx.go over the process-wide
  store. The package-level list `exampleItems` and counter `nextID` are the two
  fields of one object, and each handler is a method that updates them in
  place and returns the response it sends.
 */
module Htmx {
  import opened Wrappers
  import opened Models
  import opened Http
  import opened ItemStore

  class ExampleHandlers {
    var items: seq<Item>
    var nextID: int

    /** The current contents, as a value. */
    function State(): Store
      reads this
    {
      Store(items, nextID)
    }

    /** The store as the process starts. */
    constructor ()
      ensures State() == Seed()
      ensures Valid(State())
    {
      items := Seed().items;
      nextID := Seed().nextID;
    }

    /** GET /hx/example/table: renders the listing fragment with the full current list. */
    method HandleExampleTable() returns (r: Response)
      ensures r == Fragment(TABLE_FRAGMENT, State().items)
    {
      r := Fragment(TABLE_FRAGMENT, items);
    }

    /**
      POST /hx/example/item. `form` is None when the body could not be parsed
      as a form.
     */
    method HandleExampleItemCreate(form: Option<Form>) returns (r: Response)
      modifies this
      ensures Step(State(), r) == Create(old(State()), form)
      ensures Valid(old(State())) ==> Valid(State())
    {
      if form.None? {
        r := BadRequest("Invalid form data");
        return;
      }
      var name := FormValue(form.value, "name");
      var description := FormValue(form.value, "description");
      if name == "" {
        r := BadRequest("Name is required");
        return;
      }
      var newItem := Item(nextID, name, description);
      nextID := nextID + 1;
      items := items + [newItem];
      r := Fragment(TABLE_FRAGMENT, items);
      if Valid(old(State())) {
        CreatePreservesValid(old(State()), form);
      }
    }

    /**
      DELETE /hx/example/item/{id}. `id` is None when the path segment is not
      an integer. The loop looks for the first item with the id, splices it
      out and stops.
     */
    method HandleExampleItemDelete(id: Option<int>) returns (r: Response)
      modifies this
      ensures Step(State(), r) == Delete(old(State()), id)
      ensures Valid(old(State())) ==> Valid(State())
    {
      if id.None? {
        r := BadRequest("Invalid ID");
        return;
      }
      var target := id.value;
      var i := 0;
      while i < |items|
        invariant 0 <= i <= |items|
        invariant items == old(items)
        invariant forall k :: 0 <= k < i ==> items[k].id != target
      {
        if items[i].id == target {
          assert FirstIndexOf(items, target) == i;
          items := items[..i] + items[i + 1..];
          break;
        }
        i := i + 1;
      }
      r := Fragment(TABLE_FRAGMENT, items);
      if Valid(old(State())) {
        DeletePreservesValid(old(State()), id);
      }
    }
  }

  /**
    The end-to-end run on a fresh store: create "Widget" with an empty
    description, list the table, then delete the new id.
   */
  method WidgetScenario() returns (created: Response, listed: Response, deleted: Response)
    ensures created.Fragment? && Item(4, "Widget", "") in created.items
    ensures listed == created
    ensures deleted.Fragment? && deleted.items == Seed().items
    ensures forall k :: 0 <= k < |deleted.items| ==> deleted.items[k].id != 4
  {
    var handlers := new ExampleHandlers();
    created := handlers.HandleExampleItemCreate(Some(map["name" := "Widget", "description" := ""]));
    assert handlers.items[3] == Item(4, "Widget", "");
    listed := handlers.HandleExampleTable();
    deleted := handlers.HandleExampleItemDelete(Some(4));
    RemovedExactly(Seed().items + [Item(4, "Widget", "")], 3);
    assert (Seed().items + [Item(4, "Widget", "")])[..3] == Seed().items;
  }
}
