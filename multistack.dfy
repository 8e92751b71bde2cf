/**
 * Per-name stacks of wrappers (src/hr/fer/zemris/custom/scripting/exec/ObjectMultistack.java):
 * a map from a variable name to its own array-backed stack, which doubles when full.
 */
module Multistacks {
  import opened Base
  import opened ValueWrappers

  const INITIAL_CAPACITY: int := 10

  /** One name's stack: the slots in use hold the wrappers bottom first; the others are null. */
  class MultistackEntry {
    var stack: array<Option<ValueWrapper>>
    var numOfElem: int
    var capacity: int
    ghost var Elems: seq<ValueWrapper>

    ghost predicate Valid()
      reads this, stack
    {
      && capacity == stack.Length
      && 0 <= numOfElem <= capacity && numOfElem == |Elems|
      && (forall i :: 0 <= i < numOfElem ==> stack[i] == Some(Elems[i]))
      && (forall i :: numOfElem <= i < capacity ==> stack[i].None?)
    }

    constructor ()
      ensures Valid() && fresh(stack) && Elems == [] && capacity == INITIAL_CAPACITY
    {
      stack := new Option<ValueWrapper>[INITIAL_CAPACITY](_ => None);
      numOfElem := 0;
      capacity := INITIAL_CAPACITY;
      Elems := [];
    }

    constructor WithCapacity(capacity: nat)
      ensures Valid() && fresh(stack) && Elems == [] && this.capacity == capacity
    {
      this.capacity := capacity;
      stack := new Option<ValueWrapper>[capacity](_ => None);
      numOfElem := 0;
      Elems := [];
    }

    /**
     * Puts `w` on top; a full array is first copied into one of twice the capacity. With
     * capacity 0 the doubled array is still empty and the store is out of bounds.
     */
    method Push(w: ValueWrapper) returns (o: Outcome)
      requires Valid()
      modifies this, stack
      ensures Valid() && (stack == old(stack) || fresh(stack))
      ensures o.Fail? <==> old(capacity) == 0
      ensures o.Fail? ==> o.error == IndexOutOfBoundsException && Elems == old(Elems)
      ensures o.Pass? ==> Elems == old(Elems) + [w]
      ensures capacity == if old(numOfElem) == old(capacity) then 2 * old(capacity) else old(capacity)
    {
      if numOfElem == capacity {
        capacity := capacity * 2;
        var copy := new Option<ValueWrapper>[capacity](_ => None);
        var i := 0;
        while i < stack.Length
          modifies copy
          invariant 0 <= i <= stack.Length <= copy.Length == capacity
          invariant forall j :: 0 <= j < i ==> copy[j] == stack[j]
          invariant forall j :: stack.Length <= j < copy.Length ==> copy[j].None?
        {
          copy[i] := stack[i];
          i := i + 1;
        }
        stack := copy;
      }
      if numOfElem >= stack.Length {
        return Fail(IndexOutOfBoundsException);
      }
      stack[numOfElem] := Some(w);
      numOfElem := numOfElem + 1;
      Elems := Elems + [w];
      return Pass;
    }

    /** Removes and returns the top, clearing its slot; an empty stack throws. */
    method Pop() returns (r: Result<ValueWrapper>)
      requires Valid()
      modifies this, stack
      ensures Valid() && stack == old(stack) && capacity == old(capacity)
      ensures r.Err? <==> old(Elems) == []
      ensures r.Err? ==> r.error == EmptyStackException && Elems == old(Elems)
      ensures r.Ok? ==> old(Elems) == Elems + [r.value]
    {
      if numOfElem == 0 {
        return Err(EmptyStackException);
      }
      numOfElem := numOfElem - 1;
      var popped := stack[numOfElem];
      stack[numOfElem] := None;
      Elems := Elems[..numOfElem];
      return Ok(popped.value);
    }

    method Peek() returns (r: Result<ValueWrapper>)
      requires Valid()
      ensures r.Err? <==> Elems == []
      ensures r.Err? ==> r.error == EmptyStackException
      ensures r.Ok? ==> r.value == Elems[|Elems| - 1]
    {
      if numOfElem == 0 {
        return Err(EmptyStackException);
      }
      return Ok(stack[numOfElem - 1].value);
    }

    method IsEmpty() returns (b: bool)
      requires Valid()
      ensures b <==> Elems == []
    {
      b := numOfElem == 0;
    }
  }

  /** The stacks of all names, bottom first; a name never pushed to has no stack. */
  type Named = map<string, seq<ValueWrapper>>

  /** What a pop gives back and the stacks it leaves. */
  datatype Popped = Popped(result: Result<ValueWrapper>, stacks: Named)

  function PushOn(stacks: Named, name: string, w: ValueWrapper): Named {
    stacks[name := (if name in stacks then stacks[name] else []) + [w]]
  }

  /** An unseen name throws IllegalArgumentException, an empty stack EmptyStackException. */
  function PopFrom(stacks: Named, name: string): Popped {
    if name !in stacks then Popped(Err(IllegalArgumentException), stacks)
    else if stacks[name] == [] then Popped(Err(EmptyStackException), stacks)
    else
      var s := stacks[name];
      Popped(Ok(s[|s| - 1]), stacks[name := s[..|s| - 1]])
  }

  function PeekAt(stacks: Named, name: string): Result<ValueWrapper> {
    PopFrom(stacks, name).result
  }

  function IsEmptyAt(stacks: Named, name: string): Result<bool> {
    if name !in stacks then Err(IllegalArgumentException) else Ok(stacks[name] == [])
  }

  /** The value pushed last is the one a pop returns, and the pop undoes the push. */
  lemma PopAfterPush(stacks: Named, name: string, w: ValueWrapper)
    ensures PopFrom(PushOn(stacks, name, w), name) ==
      Popped(Ok(w), stacks[name := if name in stacks then stacks[name] else []])
    ensures PeekAt(PushOn(stacks, name, w), name) == Ok(w)
    ensures IsEmptyAt(PushOn(stacks, name, w), name) == Ok(false)
  {
    var s := if name in stacks then stacks[name] else [];
    assert (s + [w])[..|s + [w]| - 1] == s;
  }

  /** Pushing and popping on one name leave every other name's stack as it was. */
  lemma OtherNamesUntouched(stacks: Named, name: string, other: string, w: ValueWrapper)
    requires other != name
    ensures other in PushOn(stacks, name, w) <==> other in stacks
    ensures other in stacks ==> PushOn(stacks, name, w)[other] == stacks[other]
    ensures other in PopFrom(stacks, name).stacks <==> other in stacks
    ensures other in stacks ==> PopFrom(stacks, name).stacks[other] == stacks[other]
  {
  }

  /** A failing pop changes nothing; it fails exactly on an unseen name or an empty stack. */
  lemma PopFailures(stacks: Named, name: string)
    ensures PopFrom(stacks, name).result.Err? ==> PopFrom(stacks, name).stacks == stacks
    ensures PopFrom(stacks, name).result == Err(IllegalArgumentException) <==> name !in stacks
    ensures PopFrom(stacks, name).result == Err(EmptyStackException) <==> IsEmptyAt(stacks, name) == Ok(true)
  {
  }

  /**
   * The entries hold exactly `stacks`, and `owner` maps each entry and its array to the one
   * name whose entry it is, so that no two names share either.
   */
  ghost predicate Coherent(entries: map<string, MultistackEntry>, stacks: Named,
                           owner: map<object, string>)
    reads owner.Keys
  {
    && entries.Keys == stacks.Keys
    && forall n :: n in entries ==>
         && entries[n] in owner && owner[entries[n]] == n
         && entries[n].stack in owner && owner[entries[n].stack] == n
         && entries[n].Valid() && entries[n].capacity >= 1 && entries[n].Elems == stacks[n]
  }

  /** The objects `owner` gives to some name other than `name`. */
  ghost function Without(owner: map<object, string>, name: string): map<object, string> {
    map o | o in owner && owner[o] != name :: owner[o]
  }

  /** Setting one name aside leaves the other names coherent, with their own objects. */
  lemma CoherentWithout(entries: map<string, MultistackEntry>, stacks: Named,
                        owner: map<object, string>, name: string)
    requires Coherent(entries, stacks, owner)
    ensures Coherent(entries - {name}, stacks - {name}, Without(owner, name))
  {
  }

  /** A valid entry owning nothing of the other names can be put back under `name`. */
  lemma CoherentWith(entries: map<string, MultistackEntry>, stacks: Named,
                     owner: map<object, string>, name: string, me: MultistackEntry)
    requires Coherent(entries - {name}, stacks - {name}, Without(owner, name))
    requires me.Valid() && me.capacity >= 1
    requires me !in Without(owner, name) && me.stack !in Without(owner, name)
    ensures Coherent(entries[name := me], stacks[name := me.Elems], owner[me := name][me.stack := name])
  {
    var others, rest, w := entries - {name}, stacks - {name}, Without(owner, name);
    var entries', stacks' := entries[name := me], stacks[name := me.Elems];
    var owner' := owner[me := name][me.stack := name];
    assert entries'.Keys == others.Keys + {name} && stacks'.Keys == rest.Keys + {name};
    forall n | n in entries'
      ensures entries'[n] in owner' && owner'[entries'[n]] == n
      ensures entries'[n].stack in owner' && owner'[entries'[n].stack] == n
      ensures entries'[n].Valid() && entries'[n].capacity >= 1 && entries'[n].Elems == stacks'[n]
    {
      if n != name {
        assert n in others && others[n] == entries'[n] && rest[n] == stacks'[n];
        assert w[others[n]] == n && w[others[n].stack] == n;
      }
    }
  }

  class ObjectMultistack {
    var entries: map<string, MultistackEntry>
    /** Every name's stack, bottom first. */
    ghost var Stacks: Named
    /** The entries and their arrays, each with the name it serves. */
    ghost var Owner: map<object, string>

    ghost predicate Valid()
      reads this, Owner.Keys
    {
      this !in Owner && Coherent(entries, Stacks, Owner)
    }

    constructor ()
      ensures Valid() && fresh(Owner.Keys) && Stacks == map[]
    {
      entries := map[];
      Stacks := map[];
      Owner := map[];
    }

    /** The entry `name` already has, or a new empty one it does not own yet. */
    method EntryFor(name: string) returns (me: MultistackEntry)
      requires Valid()
      ensures me.Valid() && me.capacity >= 1
      ensures me.Elems == if name in Stacks then Stacks[name] else []
      ensures name in entries ==> me == entries[name]
      ensures name !in entries ==> fresh(me) && fresh(me.stack)
      ensures (me in Owner && me.stack in Owner) || (fresh(me) && fresh(me.stack))
      ensures me !in Without(Owner, name) && me.stack !in Without(Owner, name)
    {
      if name in entries {
        me := entries[name];
      } else {
        me := new MultistackEntry();
      }
    }

    /** Pushes `w` on the stack of `name`, which an unseen name first gets; the others stay. */
    method Push(name: string, w: ValueWrapper)
      requires Valid()
      modifies this, Owner.Keys
      ensures Valid() && fresh(Owner.Keys - old(Owner.Keys))
      ensures Stacks == PushOn(old(Stacks), name, w)
    {
      var me := EntryFor(name);
      PushInto(name, me, w);
    }

    /** Pushes `w` on `me`, which the array may outgrow, and records `me` as the entry of `name`. */
    method PushInto(name: string, me: MultistackEntry, w: ValueWrapper)
      requires Valid() && me.Valid() && me.capacity >= 1
      requires me.Elems == if name in Stacks then Stacks[name] else []
      requires me !in Without(Owner, name) && me.stack !in Without(Owner, name)
      modifies this, me, me.stack
      ensures Valid() && Stacks == PushOn(old(Stacks), name, w)
      ensures Owner.Keys == old(Owner.Keys) + {me, me.stack}
      ensures me.stack == old(me.stack) || fresh(me.stack)
    {
      CoherentWithout(entries, Stacks, Owner, name);
      var pushed := me.Push(w);
      assert pushed.Pass?;
      Attach(name, me);
    }

    /** Records `me` as the entry of `name`: the map's put. */
    method Attach(name: string, me: MultistackEntry)
      requires this !in Owner && Coherent(entries - {name}, Stacks - {name}, Without(Owner, name))
      requires me.Valid() && me.capacity >= 1
      requires me !in Without(Owner, name) && me.stack !in Without(Owner, name)
      modifies this
      ensures Valid()
      ensures entries == old(entries)[name := me] && Stacks == old(Stacks)[name := me.Elems]
      ensures Owner == old(Owner)[me := name][me.stack := name]
      ensures Owner.Keys == old(Owner.Keys) + {me, me.stack}
    {
      var entries' := entries[name := me];
      ghost var stacks' := Stacks[name := me.Elems];
      ghost var owner': map<object, string> := Owner[me := name][me.stack := name];
      CoherentWith(entries, Stacks, Owner, name, me);
      entries, Stacks, Owner := entries', stacks', owner';
    }

    /** The entry of `name`, or IllegalArgumentException for a name never pushed to. */
    method CheckIfExists(name: string) returns (r: Result<MultistackEntry>)
      requires Valid()
      ensures r.Err? <==> name !in Stacks
      ensures r.Err? ==> r.error == IllegalArgumentException
      ensures r.Ok? ==> name in entries && r.value == entries[name]
      ensures r.Ok? ==> r.value in Owner && r.value.stack in Owner
    {
      if name !in entries {
        return Err(IllegalArgumentException);
      }
      return Ok(entries[name]);
    }

    /** Removes and returns the top of `name`'s stack; the other stacks stay. */
    method Pop(name: string) returns (r: Result<ValueWrapper>)
      requires Valid()
      modifies this, Owner.Keys
      ensures Valid() && Owner.Keys == old(Owner.Keys)
      ensures Popped(r, Stacks) == PopFrom(old(Stacks), name)
    {
      var me :- CheckIfExists(name);
      CoherentWithout(entries, Stacks, Owner, name);
      r := me.Pop();
      Attach(name, me);
    }

    /** The top of `name`'s stack, which stays in place. */
    method Peek(name: string) returns (r: Result<ValueWrapper>)
      requires Valid()
      ensures r == PeekAt(Stacks, name)
    {
      var me :- CheckIfExists(name);
      r := me.Peek();
    }

    method IsEmpty(name: string) returns (r: Result<bool>)
      requires Valid()
      ensures r == IsEmptyAt(Stacks, name)
    {
      var me :- CheckIfExists(name);
      var b := me.IsEmpty();
      return Ok(b);
    }
  }
}
