/** The unchecked mutable cell of src/s3_cell.rs: one storage slot that may be
    read and overwritten through a shared handle, with no aliasing checks. */
module InteriorCell {

  /** `Cell<T>`: the single storage slot of its `UnsafeCell<T>` is `value`. */
  class Cell<T> {
    var value: T

    /** `Cell::new`: the cell holds exactly the given value. */
    constructor (v: T)
      ensures value == v
    {
      value := v;
    }

    /** `get`: a copy of the stored value; the cell is not changed. */
    method Get() returns (r: T)
      ensures r == value
    {
      r := value;
    }

    /** `replace`: stores `v` in place and hands back what was there before. */
    method Replace(v: T) returns (previous: T)
      modifies this
      ensures previous == old(value)
      ensures value == v
    {
      previous := value;
      value := v;
    }

    /** `set`: `replace` with the old value dropped. */
    method Set(v: T)
      modifies this
      ensures value == v
    {
      var _ := Replace(v);
    }

    /** `take`: `replace` with the type's default value; `dflt` is the value
        `Default::default()` produces for `T` (0 for the integer types). */
    method Take(dflt: T) returns (previous: T)
      modifies this
      ensures previous == old(value)
      ensures value == dflt
    {
      previous := Replace(dflt);
    }

    /** `swap`: exchanges the contents of two distinct cells; when both handles
        denote the same cell nothing happens. */
    method Swap(other: Cell<T>)
      modifies this, other
      ensures this == other ==> value == old(value)
      ensures this != other ==> value == old(other.value) && other.value == old(value)
    {
      if this == other {
        return;
      }
      value, other.value := other.value, value;
    }

    /** `into_inner`: gives up the cell and yields exactly its content. */
    method IntoInner() returns (r: T)
      ensures r == value
    {
      r := value;
    }

    /** `get_mut`: the caller holds the cell exclusively and writes through the
        returned `&mut T`; that write is given here as `update`, applied to the
        storage slot in place. */
    method GetMut(update: T -> T)
      modifies this
      ensures value == update(old(value))
    {
      value := update(value);
    }
  }

  /** The `get` unit test: a new cell of 42 reads back 42. */
  method GetScenario() returns (r: int)
    ensures r == 42
  {
    var c := new Cell(42);
    r := c.Get();
  }

  /** The `replace` unit test: replacing 42 by 10 returns 42 and then reads 10. */
  method ReplaceScenario() returns (previous: int, now: int)
    ensures previous == 42 && now == 10
  {
    var c := new Cell(42);
    previous := c.Replace(10);
    now := c.Get();
  }

  /** For any cell and any value, `get` right after `set(v)` returns `v`. */
  method SetThenGet<T>(init: T, v: T) returns (r: T)
    ensures r == v
  {
    var c := new Cell(init);
    c.Set(v);
    r := c.Get();
  }

  /** The `take` unit test: taking from a cell of 5 returns 5 and leaves 0. */
  method TakeScenario() returns (taken: int, left: int)
    ensures taken == 5 && left == 0
  {
    var c := new Cell(5);
    taken := c.Take(0);
    left := c.Get();
  }

  /** Swapping two distinct cells exchanges their contents; swapping once more
      restores the originals. */
  method SwapTwice<T>(x: T, y: T) returns (afterOnce: (T, T), afterTwice: (T, T))
    ensures afterOnce == (y, x)
    ensures afterTwice == (x, y)
  {
    var c1 := new Cell(x);
    var c2 := new Cell(y);
    c1.Swap(c2);
    var a := c1.Get();
    var b := c2.Get();
    afterOnce := (a, b);
    c1.Swap(c2);
    a := c1.Get();
    b := c2.Get();
    afterTwice := (a, b);
  }

  /** Swapping a cell with itself leaves its content as it was. */
  method SwapSelf<T>(x: T) returns (r: T)
    ensures r == x
  {
    var c := new Cell(x);
    c.Swap(c);
    r := c.Get();
  }

  /** The `into_inner` unit test: a cell of 5 unwraps to 5. */
  method IntoInnerScenario() returns (r: int)
    ensures r == 5
  {
    var c := new Cell(5);
    r := c.IntoInner();
  }

  /** The `get_mut` unit test: incrementing 5 through `get_mut` is read back as 6. */
  method GetMutScenario() returns (r: int)
    ensures r == 6
  {
    var c := new Cell(5);
    c.GetMut(x => x + 1);
    r := c.Get();
  }
}
