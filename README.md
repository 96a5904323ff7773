# productivity_gui to-do list, modelled in Dafny

This project models the to-do list state machine of `ProductivityApp`, a small
desktop to-do manager. The state is:

- the two text inputs: the new item's description and its category;
- the list of to-do items, each with a description, a completed flag and a category;
- the "show completed" and "sort by category" flags;
- the category filter.

The model covers four things:

- the message handler `update`, which adds items, toggles them, sorts the list and sets the UI flags;
- the category list behind the category pick list, and the filter list that puts "All" in front of it;
- the label a filter entry displays;
- the row selection of the list view, which decides which store positions are shown.

Files and modules:

- `wrappers.dfy` (`Wrappers`): the `Option` type.
- `string_order.dfy` (`StringOrder`): Rust's ordering of `String`. It is lexicographic comparison of characters. Rust compares UTF-8 bytes, which gives the same order as comparing code points. The module proves this order is a total order.
- `whitespace.dfy` (`Whitespace`): `char::is_whitespace` (the Unicode White_Space property), `trim`, and the blank test `trim().is_empty()`.
- `vec_ops.dfy` (`VecOps`): the library operations `sort_by` and `dedup`.
  - `sort_by` is written as an insertion sort, proved to be a sorted, stable permutation.
  - `StableSortUnique` proves that every sorted sequence that keeps each key's items in their original order is this one. So Rust's merge sort yields the same sequence.
- `todo.dfy` (`Todo`): the item, filter entry and message types, the filter label, the view's row selection, and what the category list must be.
- `app.dfy` (`App`): the class `ProductivityApp`. Its fields are the ones the source mutates. `Update` handles one message; `Categories` and `FilterCategories` compute the pick lists.

Two behaviours of `update` and `categories` worth noting:

- The category list also holds the pending category input when that input is not blank. The input is listed as typed, untrimmed, although `AddTodo` stores the trimmed text.
- "Sort by category" is a toggle. Turning it on sorts the store in place. Turning it off leaves the order as it is. Sorting never writes the file.

Writing the to-do file is modelled by the field `saved`: the list of full rewrites requested so far. `AddTodo` and an in-range `ToggleTodoCompleted` each append the current items to it. No other message does.

## Model

| member | source | states |
|---|---|---|
| `StringOrder.LeReflexive` | src/main.rs:134 | every string is at most itself in the `String` ordering |
| `StringOrder.LeTotal` | src/main.rs:134 | any two strings are comparable in the `String` ordering the sorts use |
| `StringOrder.LeAntisymmetric` | src/main.rs:134 | two strings each at most the other are equal |
| `StringOrder.LeTransitive` | src/main.rs:134 | the `String` ordering is transitive |
| `StringOrder.StrictlyIncreasingUnique` | src/main.rs:58-59 | a sorted list without repeats is fixed by its set of elements |
| `Whitespace.TrimStartSpec` | src/main.rs:111 | `trim_start` removes a prefix of whitespace only; what is left is empty or starts with a non-whitespace character |
| `Whitespace.TrimEndSpec` | src/main.rs:111 | `trim_end` removes a suffix of whitespace only; what is left is empty or ends with a non-whitespace character |
| `Whitespace.TrimSpec` | src/main.rs:113-115 | the trimmed text is a contiguous slice of the input with only whitespace removed on either side, and is empty or starts and ends with non-whitespace |
| `Whitespace.BlankIffAllWhitespace` | src/main.rs:111 | the blank test `trim().is_empty()` holds exactly when every character is whitespace |
| `Whitespace.TrimIdempotent` | src/main.rs:113-115 | trimming an already trimmed text changes nothing |
| `VecOps.KeyFilterMembers` | src/main.rs:134 | the items kept for one key are exactly the items with that key |
| `VecOps.Insert` | src/main.rs:134 | inserting one item into a list gives the list's items plus that item |
| `VecOps.SortBy` | src/main.rs:134 | `sort_by` returns a permutation of the items |
| `VecOps.InsertSorted` | src/main.rs:134 | inserting into a list sorted by key keeps it sorted by key |
| `VecOps.SortByIsSorted` | src/main.rs:134 | after `sort_by` the items are in non-decreasing category order |
| `VecOps.InsertKeyFilter` | src/main.rs:134 | insertion puts the new item before every existing item with the same key |
| `VecOps.SortByIsStable` | src/main.rs:134 | `sort_by` is stable: items with equal categories keep their relative order |
| `VecOps.SortedSameRunsEqual` | src/main.rs:134 | two lists sorted by key that agree on each key's items are equal |
| `VecOps.StableSortUnique` | src/main.rs:134 | any sorted list that keeps each key's items in input order is the result of `sort_by`, so the result does not depend on the sort algorithm |
| `VecOps.SortByOfSorted` | src/main.rs:131-136 | sorting a store that is already sorted by category leaves it unchanged |
| `VecOps.Dedup` | src/main.rs:59 | `dedup` keeps exactly the same set of elements and the first element, and leaves no two equal neighbours |
| `VecOps.DedupOfSorted` | src/main.rs:58-59 | `sort` then `dedup` gives a strictly increasing list |
| `Todo.DisplayIdentifies` | src/main.rs:34-40 | two filter entries share a label only if they are equal, or one is the "All" entry and the other a category named "All" |
| `Todo.CategoryListUnique` | src/main.rs:53-61 | the category list of a state is determined by its contents: strictly increasing with a fixed set of elements |
| `Todo.VisibleIndices` | src/main.rs:145-153 | the shown rows are strictly increasing store positions, each in range. Position `i` appears iff "show completed" is on or item `i` is open, and no filter is set or item `i`'s category equals it. So every row's toggle index is valid |
| `Todo.HiddenCompletedExample` | src/main.rs:145-153 | with completed items hidden and no filter, of an open and a completed item only the open one is shown |
| `App.ProductivityApp.constructor` | src/main.rs:85-95 | a new app holds the loaded items, empty inputs, both flags off, no filter and no file writes |
| `App.ProductivityApp.SaveTodos` | src/main.rs:201-209 | one full rewrite of the file with the current items is recorded |
| `App.ProductivityApp.Update` | src/main.rs:102-142 | per message: (1) input and filter messages replace their own field only, leave the items alone and save nothing; (2) a blank `AddTodo` changes nothing and saves nothing; (3) any other `AddTodo` appends one open item with the trimmed description and trimmed category, keeps the earlier items, clears both inputs and saves; (4) an in-range toggle flips that item's flag only and saves; (5) an out-of-range toggle changes nothing; (6) "show completed" is negated; (7) "sort by category" is negated, and when it turns on the items become their stable sort by category; turning it off keeps the order; sorting does not save |
| `App.ProductivityApp.Categories` | src/main.rs:53-61 | the result is strictly increasing. It holds exactly the items' categories plus the category input as typed, when that input is not blank |
| `App.ProductivityApp.FilterCategories` | src/main.rs:62-66 | the result is the "All" entry followed by one entry per element of the category list, in the same order |

## Left out

- Widget construction, layout, `title`, `main` and the calendar placeholder: UI rendering with no behaviour beyond wiring messages to `update`.
- Reading the to-do file in `new`: the records that the CSV reader returns are the constructor's parameter. Records that fail to parse are skipped by the source; here they are simply absent from that parameter.
- The CSV encoding in `save_todos`, done by the external `csv` and `serde` crates: `SaveTodos` records which item list is written, not the bytes. So no CSV round trip is modelled, and I/O errors, which the source ignores, are not modelled.
- The `Command` values `update` returns, and the executor and theme types: framework plumbing with no logic.
- `VecOps.SortBy` is an insertion sort, not Rust's merge sort. `StableSortUnique` shows that both produce the same sequence. Running time is not modelled.
- `Whitespace.IsWhitespace` lists the Unicode White_Space characters. Tables of later Unicode versions are not followed.
- `ToggleTodoCompleted` carries a `nat` where the source has `usize`. Indices are only compared with the length, so the machine width does not matter.
