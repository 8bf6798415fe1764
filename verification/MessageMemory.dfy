/**
 Where sub-messages of the generated protobuf messages live and who must destroy them.

 A message, like each of its sub-messages, is placed either on the heap or on an arena. A message on
 the heap deletes its sub-messages; an arena destroys everything created on it or handed over to it,
 and nothing else may. The four Engine messages differ only in the number of sub-message fields, so a
 field is an index here and every accessor takes it as a parameter.
 */
module MessageMemory {
  import opened Base

  type ArenaId = nat
  type Id = nat

  /** Serialised contents of a sub-message; the default instance has none. */
  type Content = Bytes

  /** A sub-message. `home` is what its own GetArena() reports; `keeper` is the arena that will destroy
      it. They differ for a heap object handed over to an arena with Own(). */
  datatype Cell = Cell(home: Option<ArenaId>, keeper: Option<ArenaId>, content: Content)

  /** All sub-messages ever created (an id is an index), every `delete` performed, every registration
      with an arena, and the objects the calling code is responsible for. */
  datatype Memory = Memory(cells: seq<Cell>, freed: multiset<Id>, owned: multiset<Id>, caller: set<Id>)

  /** CreateMaybeMessage: a new object on the given arena, or on the heap. */
  function Create(mem: Memory, arena: Option<ArenaId>, content: Content): Memory {
    mem.(cells := mem.cells + [Cell(arena, arena, content)],
         owned := if arena.Some? then mem.owned + multiset{|mem.cells|} else mem.owned)
  }

  /** What a message does with a field it is about to overwrite. */
  function Drop(mem: Memory, arena: Option<ArenaId>, ptr: Option<Id>): Memory {
    if arena.None? && ptr.Some? then mem.(freed := mem.freed + multiset{ptr.value}) else mem
  }

  predicate InBounds(mem: Memory, ptr: Option<Id>) {
    ptr.Some? ==> ptr.value < |mem.cells|
  }

  /** Arena::Own */
  function Own(mem: Memory, arena: ArenaId, id: Id): Memory
    requires id < |mem.cells|
  {
    mem.(cells := mem.cells[id := mem.cells[id].(keeper := Some(arena))], owned := mem.owned + multiset{id})
  }

  /** internal::GetOwnedMessage: hand a heap object over to the arena, copy anything else. */
  function GetOwned(mem: Memory, arena: Option<ArenaId>, id: Id): (Memory, Id)
    requires id < |mem.cells|
  {
    if arena.Some? && mem.cells[id].home.None? then (Own(mem, arena.value, id), id)
    else (Create(mem, arena, mem.cells[id].content), |mem.cells|)
  }

  function Clear(mem: Memory, arena: Option<ArenaId>, ptr: Option<Id>): (Memory, Option<Id>) {
    (Drop(mem, arena, ptr), None)
  }

  function Mutable(mem: Memory, arena: Option<ArenaId>, ptr: Option<Id>): (Memory, Option<Id>) {
    if ptr.None? then (Create(mem, arena, []), Some(|mem.cells|)) else (mem, ptr)
  }

  /** What set_allocated stores for a non-null argument, which the caller gives up. */
  function Accept(mem: Memory, arena: Option<ArenaId>, id: Id): (Memory, Id)
    requires id < |mem.cells|
  {
    var given := mem.(caller := mem.caller - {id});
    if given.cells[id].home == arena then (given, id) else GetOwned(given, arena, id)
  }

  /** set_allocated */
  function SetAllocated(mem: Memory, arena: Option<ArenaId>, ptr: Option<Id>, arg: Option<Id>): (Memory, Option<Id>)
    requires InBounds(mem, arg)
  {
    var dropped := Drop(mem, arena, ptr);
    match arg
    case None => (dropped, None)
    case Some(id) => var (mem', id') := Accept(dropped, arena, id); (mem', Some(id'))
  }

  /** release: the field is emptied and the caller becomes responsible for the result, which on an
      arena is a heap copy. */
  function Release(mem: Memory, arena: Option<ArenaId>, ptr: Option<Id>): (Memory, Option<Id>)
    requires InBounds(mem, ptr)
  {
    match ptr
    case None => (mem, None)
    case Some(id) =>
      if arena.None? then (mem.(caller := mem.caller + {id}), ptr)
      else
        var copied := Create(mem, None, mem.cells[id].content);
        (copied.(caller := copied.caller + {|mem.cells|}), Some(|mem.cells|))
  }

  /** Clearing a field and filling it with a copy of other contents, as CopyFrom does. */
  function Replace(mem: Memory, arena: Option<ArenaId>, ptr: Option<Id>, content: Option<Content>)
    : (Memory, Option<Id>)
  {
    var dropped := Drop(mem, arena, ptr);
    if content.None? then (dropped, None) else (Create(dropped, arena, content.value), Some(|dropped.cells|))
  }

  /** unsafe_arena_set_allocated: no comparison of arenas. */
  function UnsafeSet(mem: Memory, arena: Option<ArenaId>, ptr: Option<Id>, arg: Option<Id>): (Memory, Option<Id>) {
    var dropped := Drop(mem, arena, ptr);
    (if arg.Some? then dropped.(caller := dropped.caller - {arg.value}) else dropped, arg)
  }

  /** Writing the contents of a sub-message through the pointer `mutable` returned. */
  function Write(mem: Memory, id: Id, content: Content): Memory
    requires id < |mem.cells|
  {
    mem.(cells := mem.cells[id := mem.cells[id].(content := content)])
  }

  // ---------------------------------------------------------------- ownership, one field at a time

  function Count(mem: Memory, id: Id): nat {
    mem.freed[id] + mem.owned[id] + if id in mem.caller then 1 else 0
  }

  /** How many fields of heap messages must point to `id` for it to have exactly one holder. */
  function Unheld(mem: Memory, id: Id): int {
    (if id < |mem.cells| then 1 else 0) - Count(mem, id)
  }

  /** A field of a heap message holds what it points to; one of an arena message does not. */
  function Held(arena: Option<ArenaId>, ptr: Option<Id>, id: Id): nat {
    if arena.None? && ptr == Some(id) then 1 else 0
  }

  /** Arena registrations and the `home` of objects are consistent. */
  ghost predicate Typed(mem: Memory) {
    forall id | 0 <= id < |mem.cells| ::
      && (mem.cells[id].keeper.Some? <==> mem.owned[id] > 0)
      && (mem.cells[id].home.Some? ==> mem.cells[id].keeper == mem.cells[id].home)
  }

  /** The field points to an object kept by the message's own arena, or to a heap object if it has none. */
  predicate Agrees(mem: Memory, arena: Option<ArenaId>, ptr: Option<Id>) {
    ptr.Some? ==>
      && ptr.value < |mem.cells|
      && mem.cells[ptr.value].keeper == arena
  }

  /** An argument the caller may pass: null, an object it is responsible for, or one living on an arena. */
  predicate Passable(mem: Memory, arg: Option<Id>) {
    arg.Some? ==>
      && arg.value < |mem.cells|
      && (arg.value in mem.caller || mem.cells[arg.value].home.Some?)
  }

  /** Objects already kept by an arena stay with it, and nothing moves. */
  ghost predicate Evolves(mem: Memory, mem': Memory) {
    && |mem.cells| <= |mem'.cells|
    && forall id | 0 <= id < |mem.cells| ::
         && mem'.cells[id].home == mem.cells[id].home
         && (mem'.cells[id].keeper == mem.cells[id].keeper || id in mem.caller)
  }

  /** Memory is sound as seen from one field: that field agrees with its message, and no object has more
      holders than one. */
  ghost predicate Sound(mem: Memory, arena: Option<ArenaId>, ptr: Option<Id>) {
    && Typed(mem) && Agrees(mem, arena, ptr)
    && forall id: nat :: Unheld(mem, id) >= Held(arena, ptr, id)
  }

  /** A change of one field and of memory that keeps every object with exactly the holders it had. */
  ghost predicate Transfers(mem: Memory, arena: Option<ArenaId>, ptr: Option<Id>, mem': Memory, ptr': Option<Id>) {
    && Typed(mem') && Agrees(mem', arena, ptr') && Evolves(mem, mem')
    && forall id: nat :: Unheld(mem', id) - Held(arena, ptr', id) == Unheld(mem, id) - Held(arena, ptr, id)
  }

  lemma DropTransfers(mem: Memory, arena: Option<ArenaId>, ptr: Option<Id>)
    requires Sound(mem, arena, ptr)
    ensures Transfers(mem, arena, ptr, Drop(mem, arena, ptr), None)
  {
  }

  /** A new object stored in an empty field of its message. */
  lemma CreateTransfers(mem: Memory, arena: Option<ArenaId>, content: Content)
    requires Sound(mem, arena, None)
    ensures Transfers(mem, arena, None, Create(mem, arena, content), Some(|mem.cells|))
  {
    assert Unheld(mem, |mem.cells|) >= 0;
  }

  lemma MutableTransfers(mem: Memory, arena: Option<ArenaId>, ptr: Option<Id>)
    requires Sound(mem, arena, ptr)
    ensures Transfers(mem, arena, ptr, Mutable(mem, arena, ptr).0, Mutable(mem, arena, ptr).1)
  {
    if ptr.None? {
      CreateTransfers(mem, arena, []);
    }
  }

  /** An object the caller owns, handed over to the arena of its new message. */
  lemma OwnTransfers(mem: Memory, arena: ArenaId, id: Id)
    requires Sound(mem, Some(arena), None) && id < |mem.cells| && id in mem.caller
    ensures Transfers(mem, Some(arena), None, Own(mem.(caller := mem.caller - {id}), arena, id), Some(id))
  {
    assert Unheld(mem, id) >= 0;
  }

  lemma AcceptTransfers(mem: Memory, arena: Option<ArenaId>, id: Id)
    requires Sound(mem, arena, None) && Passable(mem, Some(id))
    ensures Transfers(mem, arena, None, Accept(mem, arena, id).0, Some(Accept(mem, arena, id).1))
  {
    assert Unheld(mem, id) >= 0;
    if id !in mem.caller {
      assert mem.(caller := mem.caller - {id}) == mem;
      CreateTransfers(mem, arena, mem.cells[id].content);
    } else if arena.Some? {
      OwnTransfers(mem, arena.value, id);
    }
  }

  /** Dropping a field's object and then storing another is a transfer of the field. */
  lemma DropThenStore(mem: Memory, arena: Option<ArenaId>, ptr: Option<Id>, mem': Memory, ptr': Option<Id>)
    requires Sound(mem, arena, ptr)
    requires Transfers(Drop(mem, arena, ptr), arena, None, mem', ptr')
    ensures Transfers(mem, arena, ptr, mem', ptr')
  {
    var dropped := Drop(mem, arena, ptr);
    forall id: nat
      ensures Unheld(mem', id) - Held(arena, ptr', id) == Unheld(mem, id) - Held(arena, ptr, id)
    {
      assert Unheld(mem', id) - Held(arena, ptr', id) == Unheld(dropped, id) - Held(arena, None, id);
    }
  }

  lemma DropIsSound(mem: Memory, arena: Option<ArenaId>, ptr: Option<Id>)
    requires Sound(mem, arena, ptr)
    ensures Sound(Drop(mem, arena, ptr), arena, None)
  {
    forall id: nat
      ensures Unheld(Drop(mem, arena, ptr), id) >= 0
    {
      assert Unheld(mem, id) >= Held(arena, ptr, id);
    }
  }

  lemma SetAllocatedTransfers(mem: Memory, arena: Option<ArenaId>, ptr: Option<Id>, arg: Option<Id>)
    requires Sound(mem, arena, ptr) && Passable(mem, arg)
    ensures Transfers(mem, arena, ptr, SetAllocated(mem, arena, ptr, arg).0, SetAllocated(mem, arena, ptr, arg).1)
  {
    DropTransfers(mem, arena, ptr);
    DropIsSound(mem, arena, ptr);
    if arg.Some? {
      var (mem', id') := Accept(Drop(mem, arena, ptr), arena, arg.value);
      AcceptTransfers(Drop(mem, arena, ptr), arena, arg.value);
      DropThenStore(mem, arena, ptr, mem', Some(id'));
    }
  }

  /** set_allocated keeps memory sound exactly for the arguments a caller may pass. */
  lemma SetAllocatedTransfersIff(mem: Memory, arena: Option<ArenaId>, ptr: Option<Id>, arg: Option<Id>)
    requires Sound(mem, arena, ptr) && InBounds(mem, arg)
    ensures Transfers(mem, arena, ptr, SetAllocated(mem, arena, ptr, arg).0, SetAllocated(mem, arena, ptr, arg).1)
       <==> Passable(mem, arg)
  {
    if Passable(mem, arg) {
      SetAllocatedTransfers(mem, arena, ptr, arg);
    } else {
      ImpassableIsStoredTwice(mem, arena, ptr, arg.value);
      var id := arg.value;
      var (mem', ptr') := SetAllocated(mem, arena, ptr, arg);
      assert Unheld(mem', id) - Held(arena, ptr', id) != Unheld(mem, id) - Held(arena, ptr, id);
    }
  }

  lemma ImpassableIsStoredTwice(mem: Memory, arena: Option<ArenaId>, ptr: Option<Id>, id: Id)
    requires id < |mem.cells| && !Passable(mem, Some(id))
    ensures
      var (mem', ptr') := SetAllocated(mem, arena, ptr, Some(id));
      Unheld(mem', id) - Held(arena, ptr', id) == Unheld(mem, id) - Held(arena, ptr, id) - 1
  {
    assert mem.caller - {id} == mem.caller;
  }

  lemma ReplaceTransfers(mem: Memory, arena: Option<ArenaId>, ptr: Option<Id>, content: Option<Content>)
    requires Sound(mem, arena, ptr)
    ensures Transfers(mem, arena, ptr, Replace(mem, arena, ptr, content).0, Replace(mem, arena, ptr, content).1)
  {
    DropTransfers(mem, arena, ptr);
    DropIsSound(mem, arena, ptr);
    if content.Some? {
      CreateTransfers(Drop(mem, arena, ptr), arena, content.value);
      var (mem', ptr') := Replace(mem, arena, ptr, content);
      DropThenStore(mem, arena, ptr, mem', ptr');
    }
  }

  lemma ReleaseTransfers(mem: Memory, arena: Option<ArenaId>, ptr: Option<Id>)
    requires Sound(mem, arena, ptr)
    ensures
      var (mem', result) := Release(mem, arena, ptr);
      && Transfers(mem, arena, ptr, mem', None)
      && (result.Some? ==> result.value in mem'.caller && mem'.cells[result.value].home.None?)
  {
    assert Unheld(mem, |mem.cells|) >= 0;
    if ptr.Some? {
      assert Unheld(mem, ptr.value) >= Held(arena, ptr, ptr.value);
    }
  }

  /** unsafe_arena_set_allocated keeps memory sound exactly when the argument already belongs where the
      message lives: an object the caller owns for a heap message, one the arena keeps otherwise. */
  lemma UnsafeSetTransfersIff(mem: Memory, arena: Option<ArenaId>, ptr: Option<Id>, arg: Option<Id>)
    requires Sound(mem, arena, ptr) && InBounds(mem, arg)
    ensures Transfers(mem, arena, ptr, UnsafeSet(mem, arena, ptr, arg).0, UnsafeSet(mem, arena, ptr, arg).1)
       <==> (arg.Some? ==> if arena.None? then arg.value in mem.caller else mem.cells[arg.value].keeper == arena)
  {
    if arg.Some? {
      var id := arg.value;
      assert Unheld(mem, id) >= Held(arena, ptr, id);
      var (mem', ptr') := UnsafeSet(mem, arena, ptr, arg);
      assert Transfers(mem, arena, ptr, mem', ptr') ==>
        Unheld(mem', id) - Held(arena, ptr', id) == Unheld(mem, id) - Held(arena, ptr, id);
    }
  }

  /** On an argument whose own arena is the message's, the safe and unsafe setters are the same. */
  lemma UnsafeSetAgreesWithSet(mem: Memory, arena: Option<ArenaId>, ptr: Option<Id>, arg: Option<Id>)
    requires InBounds(mem, arg) && (arg.Some? ==> mem.cells[arg.value].home == arena)
    ensures UnsafeSet(mem, arena, ptr, arg) == SetAllocated(mem, arena, ptr, arg)
  {
  }

  /** The pointer unsafe_arena_release returns may be taken over by the caller exactly when the message
      is on the heap; an arena goes on owning it. */
  lemma UnsafeReleaseTransfersIff(mem: Memory, arena: Option<ArenaId>, ptr: Option<Id>)
    requires Sound(mem, arena, ptr) && ptr.Some?
    ensures Transfers(mem, arena, ptr, mem.(caller := mem.caller + {ptr.value}), None) <==> arena.None?
    ensures Transfers(mem, arena, ptr, mem, None) <==> arena.Some?
  {
    var id := ptr.value;
    var taken := mem.(caller := mem.caller + {id});
    assert Unheld(mem, id) >= Held(arena, ptr, id);
    assert Transfers(mem, arena, ptr, taken, None) ==>
      Unheld(taken, id) - Held(arena, None, id) == Unheld(mem, id) - Held(arena, ptr, id);
    assert Transfers(mem, arena, ptr, mem, None) ==>
      Unheld(mem, id) - Held(arena, None, id) == Unheld(mem, id) - Held(arena, ptr, id);
  }
}
