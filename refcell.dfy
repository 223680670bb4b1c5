/** The dynamically borrow-checked cell of src/s4_refcell.rs: a value together
    with a three-state borrow tag that every borrow advances and every guard
    release moves back towards `Unused`. */
module BorrowChecked {
  import opened Wrappers

  type Pos = n: nat | 1 <= n witness 1

  /** The borrow tag the tests read back from the cell's `state` field. */
  datatype BorrowState = Unused | Shared(count: Pos) | Exclusive

  /** Why a borrow is refused: the two panic messages of the borrow methods. */
  datatype BorrowError =
    | AlreadyMutablyBorrowed  // `borrow` while an exclusive borrow is live
    | AlreadyBorrowed         // `borrow_mut` while any borrow is live

  /** Number of live shared guards a tag stands for. */
  function Readers(s: BorrowState): nat
  {
    if s.Shared? then s.count else 0
  }

  /** Number of live exclusive guards a tag stands for. The legality rule holds
      of every tag by the shape of `BorrowState` itself: at most one exclusive
      guard, never beside a shared one, and no guard at all only when `Unused`. */
  function Writers(s: BorrowState): (w: nat)
    ensures w <= 1
    ensures w == 1 ==> Readers(s) == 0
    ensures w == 0 && Readers(s) == 0 <==> s == Unused
  {
    if s == Exclusive then 1 else 0
  }

  /** `borrow`: one more shared guard, refused only while exclusively borrowed. */
  function BorrowStep(s: BorrowState): (r: Result<BorrowState, BorrowError>)
    ensures r.Failure? <==> s == Exclusive
    ensures r.Failure? ==> r.error == AlreadyMutablyBorrowed
    ensures r.Success? ==> r.value.Shared? && Readers(r.value) == Readers(s) + 1
  {
    match s
    case Unused => Success(Shared(1))
    case Shared(n) => Success(Shared(n + 1))
    case Exclusive => Failure(AlreadyMutablyBorrowed)
  }

  /** `borrow_mut`: the one exclusive guard, granted only when nothing is borrowed. */
  function BorrowMutStep(s: BorrowState): (r: Result<BorrowState, BorrowError>)
    ensures r.Success? <==> s == Unused
    ensures r.Failure? ==> r.error == AlreadyBorrowed
    ensures r.Success? ==> Writers(r.value) == 1 && Readers(r.value) == 0
  {
    if s == Unused then Success(Exclusive) else Failure(AlreadyBorrowed)
  }

  /** Dropping one shared guard: one reader fewer, `Unused` after the last. */
  function ReleaseSharedStep(s: BorrowState): (r: BorrowState)
    requires s.Shared?
    ensures Readers(r) == Readers(s) - 1 && Writers(r) == 0
    ensures r == Unused <==> s.count == 1
  {
    if s.count == 1 then Unused else Shared(s.count - 1)
  }

  /** `n` successive `borrow` calls, stopping at the first refusal. */
  function BorrowTimes(s: BorrowState, n: nat): Result<BorrowState, BorrowError>
    decreases n
  {
    if n == 0 then Success(s)
    else match BorrowStep(s)
      case Failure(e) => Failure(e)
      case Success(t) => BorrowTimes(t, n - 1)
  }

  /** `n` successive shared-guard releases. */
  function ReleaseTimes(s: BorrowState, n: nat): BorrowState
    requires n <= Readers(s)
    decreases n
  {
    if n == 0 then s else ReleaseTimes(ReleaseSharedStep(s), n - 1)
  }

  /** Any number of shared borrows may coexist: from a tag that is not
      `Exclusive`, `n` borrows succeed and add `n` readers. */
  lemma {:induction false} BorrowsAccumulate(s: BorrowState, n: nat)
    requires s != Exclusive && n >= 1
    ensures BorrowTimes(s, n) == Success(Shared(Readers(s) + n))
    decreases n
  {
    var t := BorrowStep(s).value;
    if n > 1 {
      BorrowsAccumulate(t, n - 1);
    }
  }

  /** While exclusively borrowed, every shared borrow is refused (the first
      attempt already fails, by `BorrowStep`'s contract). */
  lemma BorrowsRefusedWhileExclusive(n: nat)
    requires n >= 1
    ensures BorrowTimes(Exclusive, n) == Failure(AlreadyMutablyBorrowed)
  {
  }

  /** Releasing `k` of the live shared guards leaves the others counted. */
  lemma {:induction false} ReleasesCount(s: BorrowState, k: nat)
    requires k <= Readers(s)
    ensures Readers(ReleaseTimes(s, k)) == Readers(s) - k
    ensures Writers(ReleaseTimes(s, k)) == Writers(s)
    decreases k
  {
    if k > 0 {
      ReleasesCount(ReleaseSharedStep(s), k - 1);
    }
  }

  /** After all guards of one episode of `n` shared borrows are released, the
      tag is `Unused` again and `borrow_mut` succeeds with `Exclusive`. */
  lemma EpisodeThenBorrowMut(n: nat)
    requires n >= 1
    ensures BorrowTimes(Unused, n) == Success(Shared(n))
    ensures ReleaseTimes(BorrowTimes(Unused, n).value, n) == Unused
    ensures BorrowMutStep(ReleaseTimes(BorrowTimes(Unused, n).value, n)) == Success(Exclusive)
  {
    BorrowsAccumulate(Unused, n);
    ReleasesCount(Shared(n), n);
  }

  /** `RefCell<T>`: the stored value and its borrow tag. */
  class RefCell<T> {
    var value: T
    var state: BorrowState

    /** `RefCell::new`: holds the value, nothing borrowed. */
    constructor (v: T)
      ensures value == v && state == Unused
    {
      value := v;
      state := Unused;
    }

    /** The non-fatal form of `borrow`: `None` while exclusively borrowed,
        otherwise the value read through a new shared guard. */
    method TryBorrow() returns (r: Option<T>)
      modifies this
      ensures value == old(value)
      ensures BorrowStep(old(state)).Failure? ==> r == None && state == old(state)
      ensures BorrowStep(old(state)).Success? ==> r == Some(value) && state == BorrowStep(old(state)).value
    {
      match BorrowStep(state)
      case Failure(_) =>
        r := None;
      case Success(t) =>
        state := t;
        r := Some(value);
    }

    /** `borrow`, whose violation ("already mutably borrowed") is a panic: the
        caller must not be holding an exclusive guard. */
    method Borrow() returns (r: T)
      requires state != Exclusive
      modifies this
      ensures value == old(value) && r == value
      ensures state == BorrowStep(old(state)).value
    {
      state := BorrowStep(state).value;
      r := value;
    }

    /** The non-fatal form of `borrow_mut`: `None` while any guard is live,
        otherwise the current value seen through the new exclusive guard. */
    method TryBorrowMut() returns (r: Option<T>)
      modifies this
      ensures value == old(value)
      ensures BorrowMutStep(old(state)).Failure? ==> r == None && state == old(state)
      ensures BorrowMutStep(old(state)).Success? ==> r == Some(value) && state == BorrowMutStep(old(state)).value
    {
      match BorrowMutStep(state)
      case Failure(_) =>
        r := None;
      case Success(t) =>
        state := t;
        r := Some(value);
    }

    /** `borrow_mut`, whose violation ("already borrowed") is a panic: no guard
        may be live. */
    method BorrowMut() returns (r: T)
      requires state == Unused
      modifies this
      ensures value == old(value) && r == value
      ensures state == Exclusive
    {
      state := BorrowMutStep(state).value;
      r := value;
    }

    /** A write through the live exclusive guard. */
    method Store(v: T)
      requires state == Exclusive
      modifies this
      ensures value == v && state == Exclusive
    {
      value := v;
    }

    /** A shared guard leaves scope. */
    method ReleaseShared()
      requires state.Shared?
      modifies this
      ensures value == old(value)
      ensures state == ReleaseSharedStep(old(state))
    {
      state := ReleaseSharedStep(state);
    }

    /** The exclusive guard leaves scope. */
    method ReleaseExclusive()
      requires state == Exclusive
      modifies this
      ensures value == old(value) && state == Unused
    {
      state := Unused;
    }
  }

  /** `create_refcell`: a new cell holds 42 and is `Unused`. */
  method CreateScenario() returns (v: int, s: BorrowState)
    ensures v == 42 && s == Unused
  {
    var rc := new RefCell(42);
    v, s := rc.value, rc.state;
  }

  /** `borrow_many_times`: two shared borrows give `Shared(2)`. */
  method BorrowManyTimesScenario() returns (s: BorrowState)
    ensures s == Shared(2)
  {
    var rc := new RefCell(42);
    var ref1 := rc.Borrow();
    var ref2 := rc.Borrow();
    s := rc.state;
  }

  /** `borrow_mut_once`: one exclusive borrow gives `Exclusive`. */
  method BorrowMutOnceScenario() returns (s: BorrowState)
    ensures s == Exclusive
  {
    var rc := new RefCell(42);
    var refMut := rc.BorrowMut();
    s := rc.state;
  }

  /** `borrow_panic`: a shared borrow under a live exclusive guard is refused
      with "already mutably borrowed", and a second exclusive one with
      "already borrowed". */
  method BorrowPanicScenario() returns (shared: Option<int>, exclusive: Option<int>,
                                        why: Result<BorrowState, BorrowError>,
                                        whyMut: Result<BorrowState, BorrowError>)
    ensures shared == None && why == Failure(AlreadyMutablyBorrowed)
    ensures exclusive == None && whyMut == Failure(AlreadyBorrowed)
  {
    var c := new RefCell(42);
    var m := c.BorrowMut();
    why := BorrowStep(c.state);
    shared := c.TryBorrow();
    whyMut := BorrowMutStep(c.state);
    exclusive := c.TryBorrowMut();
  }

  /** `borrow_mut_after_all_borrows_expires`: once both shared guards are gone,
      `borrow_mut` succeeds. */
  method BorrowMutAfterReleaseScenario() returns (s: BorrowState)
    ensures s == Exclusive
  {
    var rc := new RefCell(42);
    var ref1 := rc.Borrow();
    var ref2 := rc.Borrow();
    rc.ReleaseShared();
    rc.ReleaseShared();
    var refMut := rc.BorrowMut();
    s := rc.state;
  }

  /** `borrow_mut`: what is written through the exclusive guard is what a later
      shared borrow reads. */
  method WriteThenReadScenario<T>(init: T, v: T) returns (r: T)
    ensures r == v
  {
    var c := new RefCell(init);
    var _ := c.BorrowMut();
    c.Store(v);
    c.ReleaseExclusive();
    r := c.Borrow();
  }
}
