/**
 * `ProductivityApp`: the application state the UI toolkit holds, the
 * message handler `update` that changes it, and the two category lists the
 * pick lists are built from.
 */
module App {
  import opened Wrappers
  import opened StringOrder
  import opened Whitespace
  import opened VecOps
  import opened Todo

  class ProductivityApp {
    var todoInput: string
    var categoryInput: string
    var todos: seq<TodoItem>
    var showCompleted: bool
    var sortByCategory: bool
    var filterCategory: Option<string>
    /** The contents of every full rewrite of the to-do file, oldest first. */
    var saved: seq<seq<TodoItem>>

    /** `new`, given the records read from the to-do file. */
    constructor (loaded: seq<TodoItem>)
      ensures todos == loaded && saved == []
      ensures todoInput == [] && categoryInput == []
      ensures !showCompleted && !sortByCategory && filterCategory == None
    {
      todoInput, categoryInput := [], [];
      todos := loaded;
      showCompleted, sortByCategory := false, false;
      filterCategory := None;
      saved := [];
    }

    /** `save_todos`: rewrites the to-do file with the current items. */
    method SaveTodos()
      modifies this`saved
      ensures saved == old(saved) + [todos]
    {
      saved := saved + [todos];
    }

    /** `update`: handles one message. */
    method Update(msg: Message)
      modifies this
      // the two input boxes and the filter pick list replace their own field only
      ensures msg.TodoInputChanged? ==>
        todoInput == msg.input
        && unchanged(this`categoryInput, this`todos, this`showCompleted, this`sortByCategory, this`filterCategory, this`saved)
      ensures msg.CategoryInputChanged? ==>
        categoryInput == msg.input
        && unchanged(this`todoInput, this`todos, this`showCompleted, this`sortByCategory, this`filterCategory, this`saved)
      ensures msg.FilterCategoryChanged? ==>
        filterCategory == msg.filter.cat
        && unchanged(this`todoInput, this`categoryInput, this`todos, this`showCompleted, this`sortByCategory, this`saved)
      // adding a blank description does nothing at all, not even a save
      ensures msg.AddTodo? && IsBlank(old(todoInput)) ==> unchanged(this)
      // adding appends one unchecked item with the trimmed texts, clears both inputs and saves
      ensures msg.AddTodo? && !IsBlank(old(todoInput)) ==>
        todos == old(todos) + [TodoItem(Trim(old(todoInput)), false, Trim(old(categoryInput)))]
        && todoInput == [] && categoryInput == []
        && saved == old(saved) + [todos]
        && showCompleted == old(showCompleted) && sortByCategory == old(sortByCategory)
        && filterCategory == old(filterCategory)
      // toggling an item in range flips its flag alone and saves
      ensures msg.ToggleTodoCompleted? && msg.idx < |old(todos)| ==>
        todos == old(todos)[msg.idx := old(todos)[msg.idx].(completed := !old(todos)[msg.idx].completed)]
        && saved == old(saved) + [todos]
        && unchanged(this`todoInput, this`categoryInput, this`showCompleted, this`sortByCategory, this`filterCategory)
      // toggling an index out of range does nothing
      ensures msg.ToggleTodoCompleted? && msg.idx >= |old(todos)| ==> unchanged(this)
      ensures msg.ToggleShowCompleted? ==>
        showCompleted == !old(showCompleted)
        && unchanged(this`todoInput, this`categoryInput, this`todos, this`sortByCategory, this`filterCategory, this`saved)
      // the sort button flips its flag; turning it on stable-sorts the store, turning it off keeps the order
      ensures msg.SortByCategory? ==>
        sortByCategory == !old(sortByCategory)
        && todos == (if sortByCategory then SortBy(old(todos), CategoryOf) else old(todos))
        && unchanged(this`todoInput, this`categoryInput, this`showCompleted, this`filterCategory, this`saved)
    {
      match msg
      case TodoInputChanged(input) =>
        todoInput := input;
      case CategoryInputChanged(input) =>
        categoryInput := input;
      case AddTodo =>
        if !IsBlank(todoInput) {
          var item := TodoItem(Trim(todoInput), false, Trim(categoryInput));
          todos := todos + [item];
          todoInput, categoryInput := [], [];
          SaveTodos();
        }
      case ToggleTodoCompleted(idx) =>
        if idx < |todos| {
          todos := todos[idx := todos[idx].(completed := !todos[idx].completed)];
          SaveTodos();
        }
      case ToggleShowCompleted =>
        showCompleted := !showCompleted;
      case SortByCategory =>
        sortByCategory := !sortByCategory;
        if sortByCategory {
          todos := SortBy(todos, CategoryOf);
        }
      case FilterCategoryChanged(cat) =>
        filterCategory := cat.cat;
    }

    /**
     * `categories`: the items' categories plus the pending category input
     * when it is not blank, sorted and without repeats.
     */
    method Categories() returns (cats: seq<string>)
      ensures IsCategoryList(cats, todos, categoryInput)
    {
      cats := CategoryColumn(todos);
      ghost var collected := cats;
      if !IsBlank(categoryInput) && categoryInput !in cats {
        cats := cats + [categoryInput];
      }
      assert forall c :: c in cats <==> c in collected || (!IsBlank(categoryInput) && c == categoryInput);
      ghost var pushed := cats;
      cats := SortBy(cats, Id);
      assert forall c :: c in cats <==> c in pushed by {
        assert multiset(cats) == multiset(pushed);
        forall c
          ensures c in cats <==> c in pushed
        {
          assert c in cats <==> c in multiset(cats);
          assert c in pushed <==> c in multiset(pushed);
        }
      }
      SortByIsSorted(pushed, Id);
      cats := Dedup(cats);
      DedupOfSorted(SortBy(pushed, Id));
    }

    /** `filter_categories`: "All" followed by every entry of the category list. */
    method FilterCategories() returns (fcs: seq<FilterCategory>)
      ensures exists cats :: IsCategoryList(cats, todos, categoryInput) && fcs == [FilterCategory(None)] + AsFilters(cats)
    {
      var cats := Categories();
      fcs := AsFilters(cats);
      fcs := [FilterCategory(None)] + fcs;
    }
  }

  /**
   * On any store: adding a blank description neither changes the items nor
   * saves; adding " Bob" then appends an open item "Bob" in the category
   * still typed, and saves once.
   */
  method AddScenario(app: ProductivityApp)
    modifies app
  {
    ghost var before, writes := app.todos, app.saved;
    app.Update(TodoInputChanged("  "));
    app.Update(CategoryInputChanged("Work"));
    app.Update(AddTodo);
    assert app.todos == before && app.saved == writes;
    app.Update(TodoInputChanged(" Bob"));
    app.Update(AddTodo);
    assert app.todos == before + [TodoItem("Bob", false, "Work")];
    assert |app.saved| == |writes| + 1;
  }
}
