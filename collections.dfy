/**
 * The array-backed list and the stack adaptor over it (src/hr/fer/zemris/custom/collections).
 * Java's Object slots are `Option<T>` cells (None is null); the elements in use are never
 * null, so the abstract contents are a `seq<T>`.
 */
module Collections {
  import opened Base

  const DEFAULT_CAPACITY: int := 16

  class ArrayBackedIndexedCollection<T(==)> {
    var size: int
    var capacity: int
    var elements: array<Option<T>>
    ghost var Contents: seq<T>
    ghost var Repr: set<object>

    ghost predicate Valid()
      reads this, Repr
    {
      && Repr == {this, elements}
      && capacity == elements.Length && 1 <= capacity
      && 0 <= size <= capacity && size == |Contents|
      && forall i :: 0 <= i < size ==> elements[i] == Some(Contents[i])
    }

    /** The collection with DEFAULT_CAPACITY slots. */
    constructor ()
      ensures Valid() && fresh(Repr)
      ensures Contents == [] && capacity == DEFAULT_CAPACITY
    {
      size := 0;
      capacity := DEFAULT_CAPACITY;
      elements := new Option<T>[DEFAULT_CAPACITY](_ => None);
      Contents := [];
      Repr := {this, elements};
    }

    /** The collection with `initialCapacity` slots, once that has been checked. */
    constructor WithCapacity(initialCapacity: int)
      requires 1 <= initialCapacity
      ensures Valid() && fresh(Repr)
      ensures Contents == [] && capacity == initialCapacity
    {
      size := 0;
      capacity := initialCapacity;
      elements := new Option<T>[initialCapacity](_ => None);
      Contents := [];
      Repr := {this, elements};
    }

    /** The capacity check of the one-argument constructor: below 1 it throws. */
    static method New(initialCapacity: int) returns (r: Result<ArrayBackedIndexedCollection<T>>)
      ensures r.Err? <==> initialCapacity < 1
      ensures r.Err? ==> r.error == IllegalArgumentException
      ensures r.Ok? ==> r.value.Valid() && fresh(r.value.Repr) && r.value.Contents == []
      ensures r.Ok? ==> r.value.capacity == initialCapacity
    {
      if initialCapacity < 1 {
        return Err(IllegalArgumentException);
      }
      var c := new ArrayBackedIndexedCollection.WithCapacity(initialCapacity);
      return Ok(c);
    }

    method IsEmpty() returns (b: bool)
      requires Valid()
      ensures b <==> Contents == []
    {
      b := size == 0;
    }

    method Size() returns (n: int)
      requires Valid()
      ensures n == |Contents|
    {
      n := size;
    }

    /** Appends `value`: the insert at position `size`. */
    method Add(value: Option<T>) returns (r: Outcome)
      requires Valid()
      modifies Repr
      ensures Valid() && fresh(Repr - old(Repr))
      ensures r.Fail? <==> value.None?
      ensures r.Fail? ==> r.error == IllegalArgumentException && Contents == old(Contents)
      ensures r.Pass? ==> Contents == old(Contents) + [value.value]
    {
      r := Insert(value, size);
    }

    method Get(index: int) returns (r: Result<T>)
      requires Valid()
      ensures r.Err? <==> !(0 <= index < |Contents|)
      ensures r.Err? ==> r.error == IndexOutOfBoundsException
      ensures r.Ok? ==> r.value == Contents[index]
    {
      if index < 0 || index >= size {
        return Err(IndexOutOfBoundsException);
      }
      return Ok(elements[index].value);
    }

    /** Removes the element at `index`, closing the gap. */
    method Remove(index: int) returns (r: Outcome)
      requires Valid()
      modifies Repr
      ensures Valid() && Repr == old(Repr)
      ensures r.Fail? <==> !(0 <= index < old(|Contents|))
      ensures r.Fail? ==> r.error == IndexOutOfBoundsException && Contents == old(Contents)
      ensures r.Pass? ==> Contents == old(Contents[..index] + Contents[index + 1..])
    {
      if index < 0 || index >= size {
        return Fail(IndexOutOfBoundsException);
      }
      Shift(index, 1);
      size := size - 1;
      Contents := Contents[..index] + Contents[index + 1..];
      return Pass;
    }

    /** Puts `value` at `index`, moving the later elements up; a full array is doubled first. */
    method Insert(value: Option<T>, index: int) returns (r: Outcome)
      requires Valid()
      modifies Repr
      ensures Valid() && fresh(Repr - old(Repr))
      ensures r.Fail? <==> value.None? || !(0 <= index <= old(|Contents|))
      ensures r.Fail? ==> Contents == old(Contents)
      ensures r.Fail? ==> r.error == if value.None? then IllegalArgumentException else IndexOutOfBoundsException
      ensures r.Pass? ==> Contents == old(Contents[..index]) + [value.value] + old(Contents[index..])
    {
      if value.None? {
        return Fail(IllegalArgumentException);
      }
      if index < 0 || index > size {
        return Fail(IndexOutOfBoundsException);
      }
      if size == capacity {
        Reallocate();
      }
      Shift(index, -1);
      elements[index] := value;
      size := size + 1;
      Contents := Contents[..index] + [value.value] + Contents[index..];
      return Pass;
    }

    /** The position of `value` among the elements in use, or -1; null is never found. */
    method IndexOf(value: Option<T>) returns (k: int)
      requires Valid()
      ensures -1 <= k < |Contents|
      ensures k == -1 <==> value.None? || value.value !in Contents
      ensures k >= 0 ==> value == Some(Contents[k]) && value.value !in Contents[..k]
    {
      var i := 0;
      while i < size
        invariant 0 <= i <= size
        invariant value.None? || value.value !in Contents[..i]
      {
        if elements[i] == value {
          return i;
        }
        assert Contents[..i + 1] == Contents[..i] + [Contents[i]];
        i := i + 1;
      }
      assert Contents[..size] == Contents;
      return -1;
    }

    method Contains(value: Option<T>) returns (b: bool)
      requires Valid()
      ensures b <==> value.Some? && value.value in Contents
    {
      var k := IndexOf(value);
      b := k > -1;
    }

    /** Back to an empty collection with a fresh array of DEFAULT_CAPACITY slots. */
    method Clear()
      requires Valid()
      modifies this
      ensures Valid() && fresh(elements) && Repr == {this, elements}
      ensures Contents == [] && capacity == DEFAULT_CAPACITY
    {
      size := 0;
      capacity := DEFAULT_CAPACITY;
      elements := new Option<T>[capacity](_ => None);
      Contents := [];
      Repr := {this, elements};
    }

    /**
     * Moves the slots after `index` one place: up (direction -1, making room at `index`) or
     * down (direction 1, overwriting `index`); the slot left behind keeps its old value.
     */
    method Shift(index: int, direction: int)
      requires Valid()
      requires direction == -1 ==> 0 <= index <= size < capacity
      requires direction == 1 ==> 0 <= index < size
      requires direction == -1 || direction == 1
      modifies elements
      ensures direction == -1 ==> forall j :: 0 <= j < elements.Length ==>
        elements[j] == if index < j <= size then old(elements[j - 1]) else old(elements[j])
      ensures direction == 1 ==> forall j :: 0 <= j < elements.Length ==>
        elements[j] == if index <= j < size - 1 then old(elements[j + 1]) else old(elements[j])
    {
      var howMuchTimes := size - index;
      var i := index;
      if direction == -1 {
        i := size;
      } else {
        howMuchTimes := howMuchTimes - 1;
      }
      while howMuchTimes > 0
        invariant direction == -1 ==> index <= i <= size && howMuchTimes == i - index
        invariant direction == -1 ==> forall j :: 0 <= j < elements.Length ==>
          elements[j] == if i < j <= size then old(elements[j - 1]) else old(elements[j])
        invariant direction == 1 ==> index <= i <= size - 1 && howMuchTimes == size - 1 - i
        invariant direction == 1 ==> forall j :: 0 <= j < elements.Length ==>
          elements[j] == if index <= j < i then old(elements[j + 1]) else old(elements[j])
      {
        elements[i] := elements[i + direction];
        i := i + direction;
        howMuchTimes := howMuchTimes - 1;
      }
    }

    /** Doubles the capacity, copying the elements in use into a fresh array. */
    method Reallocate()
      requires Valid()
      modifies this
      ensures Valid() && fresh(elements) && Repr == {this, elements}
      ensures capacity == 2 * old(capacity) && size == old(size) && Contents == old(Contents)
    {
      capacity := capacity * 2;
      var newElements := new Option<T>[capacity](_ => None);
      var i := 0;
      while i < size
        modifies newElements
        invariant 0 <= i <= size <= elements.Length && size <= newElements.Length == capacity
        invariant forall j :: 0 <= j < i ==> newElements[j] == elements[j]
      {
        newElements[i] := elements[i];
        i := i + 1;
      }
      elements := newElements;
      Repr := {this, elements};
    }
  }

  /** A stack whose top is the last element of the underlying collection. */
  class ObjectStack<T(==)> {
    const abic: ArrayBackedIndexedCollection<T>
    ghost var Contents: seq<T>   // bottom first
    ghost var Repr: set<object>

    ghost predicate Valid()
      reads this, Repr
    {
      && this in Repr && abic in Repr && abic.Repr <= Repr && this !in abic.Repr
      && abic.Valid() && Contents == abic.Contents
    }

    constructor ()
      ensures Valid() && fresh(Repr) && Contents == []
    {
      abic := new ArrayBackedIndexedCollection();
      Contents := [];
      new;
      Repr := {this} + abic.Repr;
    }

    constructor WithCapacity(initialCapacity: int)
      requires 1 <= initialCapacity
      ensures Valid() && fresh(Repr) && Contents == []
    {
      abic := new ArrayBackedIndexedCollection.WithCapacity(initialCapacity);
      Contents := [];
      new;
      Repr := {this} + abic.Repr;
    }

    /** The one-argument constructor: the collection's capacity check throws below 1. */
    static method New(initialCapacity: int) returns (r: Result<ObjectStack<T>>)
      ensures r.Err? <==> initialCapacity < 1
      ensures r.Err? ==> r.error == IllegalArgumentException
      ensures r.Ok? ==> r.value.Valid() && fresh(r.value.Repr) && r.value.Contents == []
    {
      if initialCapacity < 1 {
        return Err(IllegalArgumentException);
      }
      var st := new ObjectStack.WithCapacity(initialCapacity);
      return Ok(st);
    }

    method IsEmpty() returns (b: bool)
      requires Valid()
      ensures b <==> Contents == []
    {
      b := abic.IsEmpty();
    }

    method Size() returns (n: int)
      requires Valid()
      ensures n == |Contents|
    {
      n := abic.Size();
    }

    method Push(value: Option<T>) returns (r: Outcome)
      requires Valid()
      modifies Repr
      ensures Valid() && fresh(Repr - old(Repr))
      ensures r.Fail? <==> value.None?
      ensures r.Fail? ==> r.error == IllegalArgumentException && Contents == old(Contents)
      ensures r.Pass? ==> Contents == old(Contents) + [value.value]
    {
      if value.None? {
        return Fail(IllegalArgumentException);
      }
      r := abic.Add(value);
      Contents := abic.Contents;
      Repr := Repr + abic.Repr;
    }

    /** Removes and returns the top; an empty stack throws EmptyStackException. */
    method Pop() returns (r: Result<T>)
      requires Valid()
      modifies Repr
      ensures Valid() && Repr == old(Repr)
      ensures r.Err? <==> old(Contents) == []
      ensures r.Err? ==> r.error == EmptyStackException && Contents == old(Contents)
      ensures r.Ok? ==> old(Contents) == Contents + [r.value]
    {
      var s := abic.Size();
      if s == 0 {
        return Err(EmptyStackException);
      }
      var top :- abic.Get(s - 1);
      var removed := abic.Remove(s - 1);
      Contents := abic.Contents;
      return Ok(top);
    }

    /** The top without removing it; on an empty stack the collection's get(-1) throws. */
    method Peek() returns (r: Result<T>)
      requires Valid()
      ensures r.Err? <==> Contents == []
      ensures r.Err? ==> r.error == IndexOutOfBoundsException
      ensures r.Ok? ==> r.value == Contents[|Contents| - 1]
    {
      var s := abic.Size();
      r := abic.Get(s - 1);
    }

    method Clear()
      requires Valid()
      modifies Repr
      ensures Valid() && fresh(Repr - old(Repr)) && Contents == []
    {
      abic.Clear();
      Contents := [];
      Repr := Repr + abic.Repr;
    }
  }
}
