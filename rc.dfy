/** The reference-counted shared owner of src/s5_rc.rs: one heap block holding
    the value and a strong counter, shared by every `Rc` handle that points at
    it. Cloning a handle increments the counter in place; dropping one
    decrements it, and the value is released when the counter reaches zero. */
module RefCounted {
  import opened Wrappers
  import opened BorrowChecked

  /** The heap block behind every `Rc` handle of one shared value. */
  class RcBox<T> {
    /** The shared value; `None` once it has been released. */
    var value: Option<T>
    /** The strong counter that `strong_count` reports. */
    var strong: nat
    /** The live handles pointing at this block (specification only). */
    ghost var handles: set<Rc<T>>

    /** The counter equals the number of live handles, each of which points
        here, and the value is present exactly while some handle is live. */
    ghost predicate Valid()
      reads this
    {
      && strong == |handles|
      && (value.Some? <==> strong > 0)
      && forall h :: h in handles ==> h.block == this
    }

    /** A block that no handle points at yet. It is not `Valid()` (the value
        is present while the counter is 0); only `Rc`'s constructor calls it,
        and that constructor registers the first handle at once. */
    constructor (v: T)
      ensures value == Some(v) && strong == 0 && handles == {}
    {
      value := Some(v);
      strong := 0;
      handles := {};
    }
  }

  /** `Rc<T>`: a handle to a shared block. */
  class Rc<T> {
    const block: RcBox<T>

    /** `Rc::new`: a fresh block holding `v` with strong count 1, this handle
        being its only owner. */
    constructor (v: T)
      ensures fresh(block)
      ensures block.Valid() && block.handles == {this}
      ensures block.value == Some(v) && block.strong == 1
    {
      block := new RcBox(v);
      new;
      block.strong := 1;
      block.handles := {this};
    }

    /** A further handle to an existing block, not yet counted by it. Only
        `Clone` calls it, and `Clone` increments the counter and records the
        handle right after; any other use would break the block's invariant. */
    constructor Share(b: RcBox<T>)
      ensures block == b
    {
      block := b;
    }

    /** `Rc::strong_count`: the number of live handles to the shared block,
        at least 1 since this handle is one of them. */
    function StrongCount(): (n: nat)
      reads block
      requires block.Valid() && this in block.handles
      ensures n >= 1 && n == |block.handles|
    {
      block.strong
    }

    /** `Deref`: the shared value, which is present while this handle lives. */
    function Deref(): (v: T)
      reads block
      requires block.Valid() && this in block.handles
      ensures block.value == Some(v)
    {
      block.value.value
    }

    /** `Clone`: a new handle to the same block; the counter goes up by one and
        the value is neither copied nor touched. */
    method Clone() returns (h: Rc<T>)
      requires block.Valid() && this in block.handles
      modifies block
      ensures fresh(h) && h.block == block
      ensures block.Valid()
      ensures block.handles == old(block.handles) + {h}
      ensures block.strong == old(block.strong) + 1
      ensures block.value == old(block.value)
    {
      h := new Rc.Share(block);
      block.strong := block.strong + 1;
      block.handles := block.handles + {h};
    }

    /** `Drop`: this handle goes away and the counter goes down by one; the
        value is released exactly when that was the last handle. */
    method Drop()
      requires block.Valid() && this in block.handles
      modifies block
      ensures block.Valid()
      ensures block.handles == old(block.handles) - {this}
      ensures block.strong == old(block.strong) - 1
      ensures block.value == if block.strong == 0 then None else old(block.value)
    {
      block.strong := block.strong - 1;
      block.handles := block.handles - {this};
      if block.strong == 0 {
        block.value := None;
      }
    }
  }

  /** The cons list of the tests, whose tails are shared through `Rc`. */
  datatype List = Cons(head: int, tail: Rc<List>) | Nil

  /** `rc_test2`: the strong count of `a` reads 1, then 2 after the clone held
      by `b`, 3 after the clone held by `c`, and 2 again once `c` is dropped. */
  method StrongCountScenario() returns (counts: seq<nat>)
    ensures counts == [1, 2, 3, 2]
  {
    var nil := new Rc(Nil);
    var ten := new Rc(Cons(10, nil));
    var a := new Rc(Cons(5, ten));
    counts := [a.StrongCount()];
    var forB := a.Clone();
    var b := Cons(3, forB);
    counts := counts + [a.StrongCount()];
    var forC := a.Clone();
    var c := Cons(4, forC);
    counts := counts + [a.StrongCount()];
    forC.Drop();
    counts := counts + [a.StrongCount()];
  }

  /** After `n` clones of a fresh handle the strong count is `n + 1`, and every
      clone dereferences to the one shared value. */
  method CloneMany<T>(v: T, n: nat) returns (a: Rc<T>, clones: seq<Rc<T>>)
    ensures fresh(a.block) && a.block.Valid() && a in a.block.handles && a.Deref() == v
    ensures a.StrongCount() == n + 1 && |clones| == n
    ensures forall i :: 0 <= i < n ==> clones[i] in a.block.handles && clones[i].Deref() == v
    ensures forall i :: 0 <= i < n ==> clones[i] != a
    ensures forall i, j :: 0 <= i < j < n ==> clones[i] != clones[j]
  {
    a := new Rc(v);
    clones := [];
    while |clones| < n
      invariant a.block.Valid() && a in a.block.handles
      invariant a.block.value == Some(v)
      invariant |clones| <= n && a.block.strong == |clones| + 1
      invariant forall i :: 0 <= i < |clones| ==> clones[i] in a.block.handles && clones[i] != a
      invariant forall i, j :: 0 <= i < j < |clones| ==> clones[i] != clones[j]
    {
      var h := a.Clone();
      clones := clones + [h];
    }
  }

  /** Dropping every handle but one leaves the count at 1 with the value still
      present; dropping that last one releases the value. */
  method DropAll<T>(v: T, n: nat) returns (beforeLast: nat, kept: Option<T>, released: bool)
    ensures beforeLast == 1 && kept == Some(v) && released
  {
    var a, clones := CloneMany(v, n);
    var i := 0;
    while i < n
      invariant 0 <= i <= n
      invariant a.block.Valid() && a in a.block.handles
      invariant a.block.strong == n + 1 - i
      invariant a.block.value == Some(v)
      invariant forall j :: i <= j < n ==> clones[j] in a.block.handles
      invariant forall j :: 0 <= j < n ==> clones[j].block == a.block
    {
      clones[i].Drop();
      i := i + 1;
    }
    beforeLast := a.StrongCount();
    kept := a.block.value;
    a.Drop();
    released := a.block.value == None;
  }

  /** `rc_test3`: through an `Rc<RefCell<String>>`, text appended under
      `borrow_mut` is what `borrow` reads back. */
  method SharedMutationScenario() returns (s: string)
    ensures s == "hello, world"
  {
    var cell := new RefCell("hello");
    var rc := new Rc(cell);
    var c := rc.Deref();
    var text := c.BorrowMut();
    c.Store(text + ", world");
    c.ReleaseExclusive();
    s := c.Borrow();
    c.ReleaseShared();
  }
}
