# Smart-pointer primitives, modelled in Dafny

This project models the core of a Rust teaching repository that re-implements
smart pointers from first principles:

- `Cell<T>` (`src/s3_cell.rs`), an unchecked mutable cell: a class `InteriorCell.Cell`
  with one mutable storage slot, and `get`, `replace`, `set`, `take`, `swap`,
  `into_inner` and `get_mut` as methods that read or update it in place.
- `RefCell<T>` (`src/s4_refcell.rs`), a dynamically borrow-checked cell. In the
  repository `borrow` and `borrow_mut` are `todo!()`, and `new` is a placeholder that
  discards its argument: the struct has only a `PhantomData` field, with no value and
  no `state`. The model follows the doc comments and the feature-gated tests, which
  read a stored value and a `state` field back (`create_refcell` and the others). The `BorrowState` tag (`Unused`, `Shared(n)` with `n >= 1`,
  `Exclusive`) is a datatype, and its transitions are pure functions
  (`BorrowStep`, `BorrowMutStep`, `ReleaseSharedStep`) that the class
  `BorrowChecked.RefCell` is proved against. Each borrow comes in two forms: a
  non-fatal form returning `None` on a conflict (the `Option<&T>` signature), and a
  strict form whose legality is a precondition (the documented panic). Dropping a
  guard is an explicit release method.
- `Rc<T>` (`src/s5_rc.rs`), a reference-counted shared owner, also a stub in the
  repository. It is modelled as one heap block (`RcBox`: the value and the strong
  counter) shared by every `Rc` handle. `Clone` and `Drop` update the counter in
  place, and the value is released when the counter reaches zero. The block's
  invariant ties the counter to the set of live handles.
- `MyBox<T>` and `MyMap<K, V>` (`src/s2_custom_smart_pointer.rs`): a one-field
  wrapper, and an association list whose `add` pushes onto a vector and whose `get`
  is a first-match linear scan. The scan is a loop proved against the recursive
  function `Lookup`.

Methods whose names end in `Scenario` restate the repository's unit tests as
postconditions that the verifier proves from the operations' contracts. The other
client methods (`SetThenGet`, `SwapTwice`, `SwapSelf`, `NewIsEmpty`, `AddThenGet`,
`CloneMany`, `DropAll`) state, for all inputs, properties that the doc comments
promise; they are not tests of the repository (its `swap` test swaps once, and its `Rc` tests stop at `rc_test3`).

In `RefCell`, the error kinds carry the messages that the doc comments give for the
panics ("already mutably borrowed" for `borrow`, "already borrowed" for
`borrow_mut`). The repository's `Rc` has no weak counter, so the model has none.

## Model

| member | source | states |
|---|---|---|
| `InteriorCell.Cell.constructor` | src/s3_cell.rs:12-16 | a new cell holds exactly the given value |
| `InteriorCell.Cell.Get` | src/s3_cell.rs:20-27 | `get` returns the stored value and changes nothing |
| `InteriorCell.Cell.Replace` | src/s3_cell.rs:31-37 | `replace(v)` returns the previous content and leaves `v` stored |
| `InteriorCell.Cell.Set` | src/s3_cell.rs:41-43 | `set(v)` leaves `v` stored |
| `InteriorCell.Cell.Take` | src/s3_cell.rs:47-52 | `take` returns the previous content and leaves the type's default stored |
| `InteriorCell.Cell.Swap` | src/s3_cell.rs:57-70 | two distinct cells exchange contents; a cell swapped with itself is unchanged |
| `InteriorCell.Cell.IntoInner` | src/s3_cell.rs:74-76 | `into_inner` yields exactly the contained value |
| `InteriorCell.Cell.GetMut` | src/s3_cell.rs:91-93 | a write through the exclusive reference lands in the cell's storage |
| `InteriorCell.GetScenario` | src/s3_cell.rs:103-106 | `Cell::new(42).get() == 42` |
| `InteriorCell.ReplaceScenario` | src/s3_cell.rs:109-114 | replacing 42 by 10 returns 42, and `get` then reads 10 |
| `InteriorCell.SetThenGet` | src/s3_cell.rs:117-120 | for any value, `get` right after `set(v)` returns `v` |
| `InteriorCell.TakeScenario` | src/s3_cell.rs:135-141 | taking from a cell of 5 returns 5 and leaves 0 |
| `InteriorCell.SwapTwice` | src/s3_cell.rs:144-151 | one swap exchanges two cells' contents; a second swap restores them |
| `InteriorCell.SwapSelf` | src/s3_cell.rs:57-60 | swapping a cell with itself is a no-op |
| `InteriorCell.IntoInnerScenario` | src/s3_cell.rs:154-160 | a cell of 5 unwraps to 5 |
| `InteriorCell.GetMutScenario` | src/s3_cell.rs:175-180 | incrementing through `get_mut` is what `get` observes |
| `BorrowChecked.Writers` | src/s4_refcell.rs:23-40 | every tag obeys the legality rule: at most one exclusive borrow, never beside shared ones; no borrows exactly when `Unused` |
| `BorrowChecked.BorrowStep` | src/s4_refcell.rs:23-33 | `borrow` fails exactly when exclusively borrowed, with "already mutably borrowed"; otherwise it adds one shared borrow |
| `BorrowChecked.BorrowMutStep` | src/s4_refcell.rs:35-46 | `borrow_mut` succeeds exactly from `Unused` and then yields one exclusive borrow; otherwise it fails with "already borrowed" |
| `BorrowChecked.ReleaseSharedStep` | src/s4_refcell.rs:23-27 | dropping a shared guard removes one reader, giving `Unused` after the last |
| `BorrowChecked.BorrowsAccumulate` | src/s4_refcell.rs:23-27 | any number of shared borrows coexist: `n` borrows from a non-exclusive tag add `n` readers |
| `BorrowChecked.BorrowsRefusedWhileExclusive` | src/s4_refcell.rs:35-40 | while exclusively borrowed, the value cannot be borrowed |
| `BorrowChecked.ReleasesCount` | src/s4_refcell.rs:23-27 | releasing `k` shared guards leaves the other readers counted and no writer |
| `BorrowChecked.EpisodeThenBorrowMut` | src/s4_refcell.rs:94-103 | after `n` shared borrows are all released the tag is `Unused` and `borrow_mut` yields `Exclusive` |
| `BorrowChecked.RefCell.constructor` | src/s4_refcell.rs:55-61 | a new cell holds the value and is `Unused`, as `create_refcell` reads back (the repository's `new` is a placeholder that stores nothing) |
| `BorrowChecked.RefCell.TryBorrow` | src/s4_refcell.rs:23-33 | `None` and no change while exclusively borrowed; otherwise the value, with the tag advanced by `BorrowStep` |
| `BorrowChecked.RefCell.Borrow` | src/s4_refcell.rs:23-33 | strict `borrow`: legal unless exclusively borrowed; returns the value and advances the tag |
| `BorrowChecked.RefCell.TryBorrowMut` | src/s4_refcell.rs:35-46 | `None` and no change while any borrow is live; otherwise the value, with the tag set to `Exclusive` |
| `BorrowChecked.RefCell.BorrowMut` | src/s4_refcell.rs:35-46 | strict `borrow_mut`: legal only from `Unused`; the tag becomes `Exclusive` |
| `BorrowChecked.RefCell.Store` | src/s4_refcell.rs:35-40 | a write through the live exclusive guard replaces the value |
| `BorrowChecked.RefCell.ReleaseShared` | src/s4_refcell.rs:25-26 | a shared guard leaving scope moves the tag back by one reader |
| `BorrowChecked.RefCell.ReleaseExclusive` | src/s4_refcell.rs:38-40 | the exclusive guard leaving scope returns the tag to `Unused` |
| `BorrowChecked.CreateScenario` | src/s4_refcell.rs:55-61 | a new cell of 42 holds 42 and is `Unused` |
| `BorrowChecked.BorrowManyTimesScenario` | src/s4_refcell.rs:65-71 | two borrows give `Shared(2)` |
| `BorrowChecked.BorrowMutOnceScenario` | src/s4_refcell.rs:75-80 | one `borrow_mut` gives `Exclusive` |
| `BorrowChecked.BorrowPanicScenario` | src/s4_refcell.rs:84-90 | under a live exclusive guard, `borrow` fails with "already mutably borrowed" and `borrow_mut` with "already borrowed" |
| `BorrowChecked.BorrowMutAfterReleaseScenario` | src/s4_refcell.rs:94-103 | once both shared guards are released, `borrow_mut` yields `Exclusive` |
| `BorrowChecked.WriteThenReadScenario` | src/s4_refcell.rs:107-113 | what is written through `borrow_mut` is what a later `borrow` reads |
| `RefCounted.Rc.constructor` | src/s5_rc.rs:24-29 | `Rc::new` allocates a fresh block holding the value, with strong count 1 and this handle its only owner |
| `RefCounted.Rc.StrongCount` | src/s5_rc.rs:31-36 | `strong_count` equals the number of live handles to the block, at least 1 |
| `RefCounted.Rc.Deref` | src/s5_rc.rs:43-45 | dereferencing a live handle gives the shared value, which is present |
| `RefCounted.Rc.Clone` | src/s5_rc.rs:39-41 | cloning yields a new handle to the same block, increments the count by one and does not touch the value |
| `RefCounted.Rc.Drop` | src/s5_rc.rs:47-49 | dropping decrements the count and releases the value exactly when no handle is left |
| `RefCounted.StrongCountScenario` | src/s5_rc.rs:72-87 | the strong count reads 1, 2, 3 and, after `c` is dropped, 2 |
| `RefCounted.CloneMany` | src/s5_rc.rs:6-16 | after `n` clones the count is `n + 1`, and every clone dereferences to the one shared value |
| `RefCounted.DropAll` | src/s5_rc.rs:12-14 | after dropping all clones but one the count is 1 and the value is still `v`; dropping the last releases it |
| `RefCounted.SharedMutationScenario` | src/s5_rc.rs:91-96 | through `Rc<RefCell<String>>`, text appended under `borrow_mut` is read back by `borrow` |
| `CustomPointers.NewBox` | src/s2_custom_smart_pointer.rs:14-18 | dereferencing `MyBox::new(x)` gives back `x` |
| `CustomPointers.Lookup` | src/s2_custom_smart_pointer.rs:316-327 | `get` yields `None` exactly when no stored key equals the queried key |
| `CustomPointers.LookupFirstMatch` | src/s2_custom_smart_pointer.rs:321-325 | `get` returns the value of the first entry with the key, so earlier duplicates shadow later ones |
| `CustomPointers.LookupFound` | src/s2_custom_smart_pointer.rs:321-325 | a value `get` returns was stored under the queried key |
| `CustomPointers.LookupAppend` | src/s2_custom_smart_pointer.rs:312-327 | after `add`, every key that was found keeps its answer; a key that was absent finds the new value iff it is the added key |
| `CustomPointers.MyMap.constructor` | src/s2_custom_smart_pointer.rs:308-310 | a new map has no entries |
| `CustomPointers.MyMap.Add` | src/s2_custom_smart_pointer.rs:312-314 | `add` appends the pair at the end and leaves earlier entries unchanged |
| `CustomPointers.MyMap.Get` | src/s2_custom_smart_pointer.rs:316-327 | the scan returns the first-match lookup of the key and does not modify the map |
| `CustomPointers.NewIsEmpty` | src/s2_custom_smart_pointer.rs:308-310 | `get` on a new map returns `None` |
| `CustomPointers.AddThenGet` | src/s2_custom_smart_pointer.rs:312-326 | after adding a key that was absent, `get` finds its value |
| `CustomPointers.FruitScenario` | src/s2_custom_smart_pointer.rs:331-340 | after apple→3, kiwi→1, orange→5, `get("apple")` is 3 and `get("orange")` is 5 |

## Left out

- `Cell::as_ptr` and its raw-pointer test: an unsafe aliasing escape hatch with no checked contract.
- The `Send`/`Sync` thread tests of `Cell`, and all concurrency: the model is single-threaded.
- InteriorCell.Cell.IntoInner: the consumption of the cell (a moved value cannot be used again) is enforced by the Rust compiler and is not modelled; the model only reads the content.
- InteriorCell.Cell.GetMut: the returned `&mut T` is not a first-class value; the caller's write through it is passed in as a function applied to the stored value. The compile-time exclusivity of `&mut self` is not modelled.
- InteriorCell.Cell.Take: `Default::default()` cannot be named for a generic type, so the default value is a parameter; the scenarios pass 0 for integers.
- BorrowChecked.RefCell.Borrow: a panic is modelled as a precondition violation, and the returned reference as a copy of the value. No write can happen while a shared guard is live, so the copy equals what the reference would read.
- Guards (`Ref`/`RefMut`) are not objects of their own. Their scope exit is the explicit `ReleaseShared`/`ReleaseExclusive` calls, whose preconditions require a live guard of that kind.
- RefCounted.Rc.Clone: the strong counter is an unbounded `nat`, so `usize` overflow (an abort in the standard library) is not modelled.
- Weak references (`downgrade`, `upgrade`, `weak_count`) and two-phase deallocation: this repository's `Rc` has no weak counter. The `std_rc_demo` module only uses the standard library's `Rc`/`Weak` to print counts and build a leaking cycle.
- Destructor side effects (printing `Drop` impls, drop order) and the freeing of the block's memory: releasing the value is modelled as the block's value becoming `None`. That release does not drop the `Rc` handles the value itself holds: releasing `a`'s `Cons(5, ten)` leaves `ten`'s count at 1, so destruction does not cascade through nested owners.
- `Box` demonstrations (`src/s1_box.rs`), `src/lib.rs` (module declarations and a printing macro), the `Weight`, `AsRef` and `Into` demonstrations, and `LimitTracker` with its mock messenger (floating-point thresholds): these are illustrative callers, not part of the core.
- CustomPointers.MyMap.Get: Rust's `get` returns a reference into the map; the model returns the value. The `Borrow<Q>` lookup by a borrowed key form is modelled as equality on `K`.
