/**
 * The to-do list's values: items, the category filter and its label, the
 * messages the UI sends, which rows the list view shows, and what the
 * category list must contain.
 */
module Todo {
  import opened Wrappers
  import opened StringOrder
  import opened Whitespace

  /** One to-do entry, as stored and persisted. */
  datatype TodoItem = TodoItem(description: string, completed: bool, category: string)

  /** An entry of the filter pick list; `None` means "show every category". */
  datatype FilterCategory = FilterCategory(cat: Option<string>)

  /** The user actions `update` handles. */
  datatype Message =
    | TodoInputChanged(input: string)
    | CategoryInputChanged(input: string)
    | AddTodo
    | ToggleTodoCompleted(idx: nat)
    | ToggleShowCompleted
    | SortByCategory
    | FilterCategoryChanged(filter: FilterCategory)

  /** The label a `FilterCategory` shows in the pick list. */
  function Display(f: FilterCategory): string
  {
    match f.cat
    case Some(c) => c
    case None => "All"
  }

  /**
   * Two filter entries get the same label only when they are the same
   * entry, or when one is "All" and the other a category literally named
   * "All".
   */
  lemma DisplayIdentifies(a: FilterCategory, b: FilterCategory)
    requires Display(a) == Display(b)
    ensures a == b
         || (a.cat == None && b.cat == Some("All"))
         || (a.cat == Some("All") && b.cat == None)
  {
  }

  /** The sort key of `sort_by` in `update`. */
  function CategoryOf(t: TodoItem): string
  {
    t.category
  }

  /** The categories of `todos`, one per item, in store order. */
  function CategoryColumn(todos: seq<TodoItem>): seq<string>
  {
    seq(|todos|, i requires 0 <= i < |todos| => todos[i].category)
  }

  /** Wraps each category as a filter entry. */
  function AsFilters(cats: seq<string>): seq<FilterCategory>
  {
    seq(|cats|, i requires 0 <= i < |cats| => FilterCategory(Some(cats[i])))
  }

  /**
   * What the category list must be: strictly increasing, and holding
   * exactly the categories of the items plus the pending category input,
   * untrimmed, when that input is not blank.
   */
  ghost predicate IsCategoryList(cats: seq<string>, todos: seq<TodoItem>, categoryInput: string)
  {
    StrictlyIncreasing(cats)
    && forall c :: c in cats <==> c in CategoryColumn(todos) || (!IsBlank(categoryInput) && c == categoryInput)
  }

  /** At most one sequence is the category list of a given state. */
  lemma CategoryListUnique(a: seq<string>, b: seq<string>, todos: seq<TodoItem>, categoryInput: string)
    requires IsCategoryList(a, todos, categoryInput) && IsCategoryList(b, todos, categoryInput)
    ensures a == b
  {
    StrictlyIncreasingUnique(a, b);
  }

  /** The row filters of the list view. */
  predicate Shown(t: TodoItem, showCompleted: bool, filter: Option<string>)
  {
    (showCompleted || !t.completed) && (filter.None? || t.category == filter.value)
  }

  /**
   * The store positions of the rows the list view shows, in store order:
   * every position is in range, and a position appears exactly when its item
   * passes the row filters.
   */
  function VisibleIndices(todos: seq<TodoItem>, showCompleted: bool, filter: Option<string>): (rows: seq<nat>)
    ensures forall k :: 0 <= k < |rows| ==> rows[k] < |todos| && Shown(todos[rows[k]], showCompleted, filter)
    ensures forall k, l :: 0 <= k < l < |rows| ==> rows[k] < rows[l]
    ensures forall i :: 0 <= i < |todos| && Shown(todos[i], showCompleted, filter) ==> i in rows
    decreases |todos|
  {
    if todos == [] then []
    else
      var n := |todos| - 1;
      var rows := VisibleIndices(todos[..n], showCompleted, filter);
      if Shown(todos[n], showCompleted, filter) then rows + [n] else rows
  }

  /** With completed items hidden and no filter, only the open item is listed. */
  lemma HiddenCompletedExample()
    ensures VisibleIndices([TodoItem("Buy milk", false, "Errands"), TodoItem("Pay bill", true, "Finance")], false, None)
         == [0]
  {
  }
}
