/**
  The in-memory example store of internal/handlers/htmx.go, as values: the
  ordered item list with its id counter, and what each fragment handler does to
  it and sends back. The class in module Htmx updates its fields in place and is
  proved to follow these functions.
 */
module ItemStore {
  import opened Wrappers
  import opened Models
  import opened Http

  /** Parsed form fields, holding the first value given for each key. */
  type Form = map<string, string>

  /** A field that the form does not carry reads as the empty string. */
  function FormValue(form: Form, key: string): string
  {
    if key in form then form[key] else ""
  }

  /** The partial template that lists the items. */
  const TABLE_FRAGMENT := "example_table"

  /** The list `exampleItems` and the counter `nextID`. */
  datatype Store = Store(items: seq<Item>, nextID: int)

  /** The store after a handler ran, and the response the handler sent. */
  datatype Step = Step(store: Store, response: Response)

  predicate Has(items: seq<Item>, id: int)
  {
    exists k :: 0 <= k < |items| && items[k].id == id
  }

  predicate DistinctIds(items: seq<Item>)
  {
    forall i, j :: 0 <= i < j < |items| ==> items[i].id != items[j].id
  }

  predicate IdsBelow(items: seq<Item>, bound: int)
  {
    forall i :: 0 <= i < |items| ==> items[i].id < bound
  }

  /** List order is id order: a stronger fact than distinctness that the handlers also keep. */
  predicate AscendingIds(items: seq<Item>)
  {
    forall i, j :: 0 <= i < j < |items| ==> items[i].id < items[j].id
  }

  /** The store invariant: ids are pairwise distinct and every id is below the counter. */
  predicate Valid(s: Store)
  {
    DistinctIds(s.items) && IdsBelow(s.items, s.nextID)
  }

  /** The state at process start: three example items and the counter at 4. */
  function Seed(): (s: Store)
    ensures Valid(s) && AscendingIds(s.items)
    ensures |s.items| == 3 && s.nextID == 4
    ensures forall k :: 0 <= k < |s.items| ==> s.items[k].id == k + 1
  {
    Store([Item(1, "Example Item 1", "First item description"),
           Item(2, "Example Item 2", "Second item description"),
           Item(3, "Example Item 3", "Third item description")],
          4)
  }

  /** The listing fragment: the whole current list, in order. */
  function Table(s: Store): Response
  {
    Fragment(TABLE_FRAGMENT, s.items)
  }

  /** Where the delete loop stops: the first item with the id, or the length when there is none. */
  function FirstIndexOf(items: seq<Item>, id: int): (i: nat)
    ensures i <= |items|
    ensures i < |items| ==> items[i].id == id
    ensures forall k :: 0 <= k < i ==> items[k].id != id
    ensures i == |items| <==> !Has(items, id)
  {
    if items == [] then 0
    else if items[0].id == id then 0
    else 1 + FirstIndexOf(items[1..], id)
  }

  /** The list after the delete loop: the first item with the id spliced out, if there is one. */
  function Removed(items: seq<Item>, id: int): (r: seq<Item>)
    ensures !Has(items, id) ==> r == items
    ensures Has(items, id) ==> |r| == |items| - 1
    ensures forall k :: 0 <= k < |items| && items[k].id == id && !Has(items[..k], id) ==>
              r == items[..k] + items[k + 1..]
  {
    var i := FirstIndexOf(items, id);
    if i == |items| then items else items[..i] + items[i + 1..]
  }

  /** HandleExampleItemCreate on the store values. */
  function Create(s: Store, form: Option<Form>): (out: Step)
    ensures form.None? ==> out == Step(s, BadRequest("Invalid form data"))
    ensures form.Some? && FormValue(form.value, "name") == "" ==>
              out == Step(s, BadRequest("Name is required"))
    ensures form.Some? && FormValue(form.value, "name") != "" ==>
              && |out.store.items| == |s.items| + 1
              && out.store.items[..|s.items|] == s.items
              && out.store.items[|s.items|]
                 == Item(s.nextID, FormValue(form.value, "name"), FormValue(form.value, "description"))
              && out.store.nextID == s.nextID + 1
              && out.response == Table(out.store)
  {
    match form
    case None => Step(s, BadRequest("Invalid form data"))
    case Some(f) =>
      var name := FormValue(f, "name");
      var description := FormValue(f, "description");
      if name == "" then Step(s, BadRequest("Name is required"))
      else
        var newItem := Item(s.nextID, name, description);
        var next := Store(s.items + [newItem], s.nextID + 1);
        Step(next, Table(next))
  }

  /** HandleExampleItemDelete on the store values; `id` is None when the path segment is not an integer. */
  function Delete(s: Store, id: Option<int>): (out: Step)
    ensures id.None? ==> out == Step(s, BadRequest("Invalid ID"))
    ensures id.Some? ==> out.store.nextID == s.nextID && out.response == Table(out.store)
    ensures id.Some? ==> out.store.items == Removed(s.items, id.value)
    ensures id.Some? && !Has(s.items, id.value) ==> out.store == s
    ensures id.Some? && Has(s.items, id.value) ==> |out.store.items| == |s.items| - 1
  {
    match id
    case None => Step(s, BadRequest("Invalid ID"))
    case Some(n) =>
      var next := Store(Removed(s.items, n), s.nextID);
      Step(next, Table(next))
  }

  /** In a list with distinct ids, the delete removes exactly the element carrying the id and no other. */
  lemma {:induction false} RemovedExactly(items: seq<Item>, k: nat)
    requires DistinctIds(items)
    requires k < |items|
    ensures Removed(items, items[k].id) == items[..k] + items[k + 1..]
    ensures !Has(Removed(items, items[k].id), items[k].id)
  {
    var id := items[k].id;
    forall j | 0 <= j < k
      ensures items[..k][j].id != id
    {
      assert items[..k][j] == items[j];
    }
    var r := items[..k] + items[k + 1..];
    forall m | 0 <= m < |r|
      ensures r[m].id != id
    {
      if m < k {
        assert r[m] == items[m];
      } else {
        assert r[m] == items[m + 1];
      }
    }
  }

  /** Splicing one element out keeps the remaining ids distinct, below the bound and ascending. */
  lemma {:induction false} SpliceKeeps(items: seq<Item>, i: nat, bound: int)
    requires i < |items|
    ensures DistinctIds(items) ==> DistinctIds(items[..i] + items[i + 1..])
    ensures IdsBelow(items, bound) ==> IdsBelow(items[..i] + items[i + 1..], bound)
    ensures AscendingIds(items) ==> AscendingIds(items[..i] + items[i + 1..])
  {
    var r := items[..i] + items[i + 1..];
    assert forall m :: 0 <= m < |r| ==> r[m] == items[if m < i then m else m + 1];
  }

  lemma CreatePreservesValid(s: Store, form: Option<Form>)
    requires Valid(s)
    ensures Valid(Create(s, form).store)
    ensures AscendingIds(s.items) ==> AscendingIds(Create(s, form).store.items)
  {
  }

  lemma DeletePreservesValid(s: Store, id: Option<int>)
    requires Valid(s)
    ensures Valid(Delete(s, id).store)
    ensures AscendingIds(s.items) ==> AscendingIds(Delete(s, id).store.items)
  {
    if id.Some? {
      var i := FirstIndexOf(s.items, id.value);
      if i < |s.items| {
        SpliceKeeps(s.items, i, s.nextID);
      }
    }
  }

  /**
    Creating an item and then deleting the id it was given leaves the list as
    it was, but the counter stays advanced, so that id is not handed out again.
   */
  lemma CreateThenDelete(s: Store, form: Form)
    requires Valid(s)
    requires FormValue(form, "name") != ""
    ensures var created := Create(s, Some(form)).store;
            var deleted := Delete(created, Some(s.nextID)).store;
            deleted.items == s.items && deleted.nextID == s.nextID + 1
  {
    var created := Create(s, Some(form)).store;
    var n := |s.items|;
    assert created.items[n].id == s.nextID;
    CreatePreservesValid(s, Some(form));
    RemovedExactly(created.items, n);
    assert created.items[..n] == s.items;
    assert created.items[n + 1..] == [];
  }

  /** The requests a client can make against the store. */
  datatype Operation = ShowTable | CreateItem(form: Option<Form>) | DeleteItem(id: Option<int>)

  /** Routes one operation to its handler. */
  function Handle(s: Store, op: Operation): Step
  {
    match op
    case ShowTable => Step(s, Table(s))
    case CreateItem(form) => Create(s, form)
    case DeleteItem(id) => Delete(s, id)
  }

  /** The store after a sequence of operations, one after another. */
  function Replay(s: Store, ops: seq<Operation>): Store
    decreases |ops|
  {
    if ops == [] then s else Replay(Handle(s, ops[0]).store, ops[1..])
  }

  /** Whatever handler ran, what it rendered (if it rendered the table) is the whole current list. */
  lemma RendersCurrentList(s: Store, op: Operation)
    ensures Handle(s, op).response.Fragment? ==> Handle(s, op).response == Table(Handle(s, op).store)
    ensures Handle(s, op).response.BadRequest? ==> Handle(s, op).store == s
  {
  }

  lemma {:induction false} ReplayPreservesValid(s: Store, ops: seq<Operation>)
    requires Valid(s)
    ensures Valid(Replay(s, ops))
    ensures AscendingIds(s.items) ==> AscendingIds(Replay(s, ops).items)
    decreases |ops|
  {
    if ops != [] {
      var next := Handle(s, ops[0]).store;
      match ops[0] {
        case ShowTable =>
        case CreateItem(form) => CreatePreservesValid(s, form);
        case DeleteItem(id) => DeletePreservesValid(s, id);
      }
      ReplayPreservesValid(next, ops[1..]);
    }
  }

  /**
    Ids are never reused: the counter never goes down, and an item with an id
    below the starting counter is one that was already in the starting list.
   */
  lemma {:induction false} ReplayNeverReusesIds(s: Store, ops: seq<Operation>)
    ensures Replay(s, ops).nextID >= s.nextID
    ensures forall k :: 0 <= k < |Replay(s, ops).items| && Replay(s, ops).items[k].id < s.nextID ==>
              Replay(s, ops).items[k] in s.items
    decreases |ops|
  {
    if ops != [] {
      var next := Handle(s, ops[0]).store;
      assert next.nextID >= s.nextID;
      assert forall item :: item in next.items && item.id < s.nextID ==> item in s.items by {
        match ops[0]
        case ShowTable =>
        case CreateItem(form) =>
        case DeleteItem(id) =>
          if id.Some? {
            var i := FirstIndexOf(s.items, id.value);
            if i < |s.items| {
              assert forall item :: item in next.items ==> item in s.items by {
                assert next.items == s.items[..i] + s.items[i + 1..];
                forall item | item in next.items
                  ensures item in s.items
                {
                  var m :| 0 <= m < |next.items| && next.items[m] == item;
                  assert item == s.items[if m < i then m else m + 1];
                }
              }
            }
          }
      }
      ReplayNeverReusesIds(next, ops[1..]);
    }
  }

  /** The create validation passes: the form was parsed and its name is not empty. */
  predicate CreateAccepts(op: Operation)
  {
    op.CreateItem? && op.form.Some? && FormValue(op.form.value, "name") != ""
  }

  /** The ids carried by the items that the successful creates among the operations appended, in order. */
  function AssignedIds(s: Store, ops: seq<Operation>): seq<int>
    decreases |ops|
  {
    if ops == [] then []
    else
      var next := Handle(s, ops[0]).store;
      (if CreateAccepts(ops[0]) then [next.items[|s.items|].id] else []) + AssignedIds(next, ops[1..])
  }

  /** Successive creates are given strictly increasing ids, from the starting counter up to the final one. */
  lemma {:induction false} AssignedIdsIncrease(s: Store, ops: seq<Operation>)
    ensures forall i, j :: 0 <= i < j < |AssignedIds(s, ops)| ==> AssignedIds(s, ops)[i] < AssignedIds(s, ops)[j]
    ensures forall i :: 0 <= i < |AssignedIds(s, ops)| ==>
              s.nextID <= AssignedIds(s, ops)[i] < Replay(s, ops).nextID
    decreases |ops|
  {
    if ops != [] {
      var next := Handle(s, ops[0]).store;
      AssignedIdsIncrease(next, ops[1..]);
      ReplayNeverReusesIds(next, ops[1..]);
      assert next.nextID == s.nextID || next.nextID == s.nextID + 1;
    }
  }
}
