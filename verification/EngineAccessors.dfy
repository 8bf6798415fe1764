/**
 The accessors themselves, as methods that update a message and the allocator in place, and what a
 user of one message can observe through them.
 */
module EngineAccessors {
  import opened Base
  import opened MessageMemory
  import EngineMessages

  /** The heap, the arenas and the calling code's obligations, shared by all messages. */
  class Allocator {
    var mem: Memory

    constructor ()
      ensures mem == Memory([], multiset{}, multiset{}, {})
    {
      mem := Memory([], multiset{}, multiset{}, {});
    }

    method Delete(id: Id)
      modifies this
      ensures mem == old(mem).(freed := old(mem).freed + multiset{id})
    {
      mem := mem.(freed := mem.freed + multiset{id});
    }

    method CreateMaybeMessage(arena: Option<ArenaId>, content: Content) returns (id: Id)
      modifies this
      ensures mem == Create(old(mem), arena, content) && id == |old(mem).cells|
    {
      id := |mem.cells|;
      mem := Create(mem, arena, content);
    }

    method GetOwnedMessage(arena: Option<ArenaId>, id: Id, subArena: Option<ArenaId>) returns (r: Id)
      requires id < |mem.cells| && subArena == mem.cells[id].home
      modifies this
      ensures (mem, r) == GetOwned(old(mem), arena, id)
    {
      if arena.Some? && subArena.None? {
        mem := Own(mem, arena.value, id);
        return id;
      }
      r := CreateMaybeMessage(arena, mem.cells[id].content);
    }

    method DuplicateIfNonNull(ptr: Option<Id>) returns (r: Option<Id>)
      requires InBounds(mem, ptr)
      modifies this
      ensures ptr.None? ==> mem == old(mem) && r.None?
      ensures ptr.Some? ==>
                && mem == Create(old(mem), None, old(mem).cells[ptr.value].content)
                && r == Some(|old(mem).cells|)
    {
      if ptr.None? {
        return None;
      }
      var id := CreateMaybeMessage(None, mem.cells[ptr.value].content);
      return Some(id);
    }

    method Take(ptr: Option<Id>)
      modifies this
      ensures mem == if ptr.Some? then old(mem).(caller := old(mem).caller + {ptr.value}) else old(mem)
    {
      if ptr.Some? {
        mem := mem.(caller := mem.caller + {ptr.value});
      }
    }

    method GiveUp(id: Id)
      modifies this
      ensures mem == old(mem).(caller := old(mem).caller - {id})
    {
      mem := mem.(caller := mem.caller - {id});
    }
  }

  /** What a getter returns for a field that holds `ptr`. */
  function Shown(mem: Memory, ptr: Option<Id>): Content
    requires InBounds(mem, ptr)
  {
    match EngineMessages.ContentOf(mem, ptr)
    case Some(content) => content
    case None => []
  }

  /** A generated Engine message: its arena and its sub-message pointers. */
  class EngineMessage {
    const arena: Option<ArenaId>
    var fields: seq<Option<Id>>

    constructor (arena: Option<ArenaId>, n: nat)
      ensures this.arena == arena && |fields| == n && forall f | 0 <= f < n :: fields[f].None?
    {
      this.arena := arena;
      fields := seq(n, _ => None);
    }

    /** has_* */
    method Has(f: nat) returns (has: bool)
      requires f < |fields|
      ensures has <==> fields[f].Some?
    {
      return fields[f].Some?;
    }

    /** The getter: the default instance stands for a null pointer. */
    method Get(f: nat, alloc: Allocator) returns (content: Content)
      requires f < |fields| && InBounds(alloc.mem, fields[f])
      ensures content == Shown(alloc.mem, fields[f])
    {
      return if fields[f].Some? then alloc.mem.cells[fields[f].value].content else [];
    }

    method ClearField(f: nat, alloc: Allocator)
      requires f < |fields|
      modifies this, alloc
      ensures |fields| == |old(fields)| && fields == old(fields)[f := fields[f]]
      ensures (alloc.mem, fields[f]) == Clear(old(alloc.mem), arena, old(fields)[f])
    {
      if arena.None? && fields[f].Some? {
        alloc.Delete(fields[f].value);
      }
      fields := fields[f := None];
    }

    method UnsafeArenaSetAllocated(f: nat, arg: Option<Id>, alloc: Allocator)
      requires f < |fields|
      modifies this, alloc
      ensures |fields| == |old(fields)| && fields == old(fields)[f := fields[f]]
      ensures (alloc.mem, fields[f]) == UnsafeSet(old(alloc.mem), arena, old(fields)[f], arg)
    {
      if arena.None? && fields[f].Some? {
        alloc.Delete(fields[f].value);
      }
      if arg.Some? {
        alloc.GiveUp(arg.value);
      }
      fields := fields[f := arg];
    }

    method ReleaseField(f: nat, alloc: Allocator) returns (temp: Option<Id>)
      requires f < |fields| && InBounds(alloc.mem, fields[f])
      modifies this, alloc
      ensures (alloc.mem, temp) == Release(old(alloc.mem), arena, old(fields)[f]) && fields == old(fields)[f := None]
    {
      temp := fields[f];
      fields := fields[f := None];
      if arena.Some? {
        temp := alloc.DuplicateIfNonNull(temp);
      }
      alloc.Take(temp);
    }

    method MutableField(f: nat, alloc: Allocator) returns (ptr: Id)
      requires f < |fields|
      modifies this, alloc
      ensures (alloc.mem, Some(ptr)) == Mutable(old(alloc.mem), arena, old(fields)[f])
      ensures fields == old(fields)[f := Some(ptr)]
    {
      if fields[f].None? {
        var p := alloc.CreateMaybeMessage(arena, []);
        fields := fields[f := Some(p)];
      }
      return fields[f].value;
    }

    method SetAllocatedField(f: nat, arg: Option<Id>, alloc: Allocator)
      requires f < |fields| && InBounds(alloc.mem, arg)
      modifies this, alloc
      ensures |fields| == |old(fields)| && fields == old(fields)[f := fields[f]]
      ensures (alloc.mem, fields[f]) == SetAllocated(old(alloc.mem), arena, old(fields)[f], arg)
    {
      if arena.None? && fields[f].Some? {
        alloc.Delete(fields[f].value);
      }
      var ptr := arg;
      if arg.Some? {
        alloc.GiveUp(arg.value);
        var subArena := alloc.mem.cells[arg.value].home;
        if arena != subArena {
          var id := alloc.GetOwnedMessage(arena, arg.value, subArena);
          ptr := Some(id);
        }
      }
      fields := fields[f := ptr];
    }

    /** This message as a value. */
    function Value(): EngineMessages.Message
      reads this
    {
      EngineMessages.Message(arena, fields)
    }

    method UnsafeArenaRelease(f: nat) returns (temp: Option<Id>)
      requires f < |fields|
      modifies this
      ensures temp == old(fields)[f] && fields == old(fields)[f := None]
    {
      temp := fields[f];
      fields := fields[f := None];
    }

    /** What CopyFrom does to one sub-message field. */
    method ReplaceField(f: nat, content: Option<Content>, alloc: Allocator)
      requires f < |fields|
      modifies this, alloc
      ensures |fields| == |old(fields)| && fields == old(fields)[f := fields[f]]
      ensures (alloc.mem, fields[f]) == Replace(old(alloc.mem), arena, old(fields)[f], content)
    {
      ClearField(f, alloc);
      if content.Some? {
        var id := alloc.CreateMaybeMessage(arena, content.value);
        fields := fields[f := Some(id)];
      }
    }

    /** CopyFrom, given the contents to copy; `before` and `after` are the other messages of the program. */
    method CopyFrom(contents: seq<Option<Content>>, alloc: Allocator,
                    ghost before: seq<EngineMessages.Message>, ghost after: seq<EngineMessages.Message>)
      requires |contents| == |fields|
      modifies this, alloc
      ensures |fields| == |old(fields)|
      ensures Among(before, Value(), after, alloc.mem)
           == EngineMessages.CopyFields(Among(before, old(Value()), after, old(alloc.mem)), |before|, contents, 0)
    {
      ghost var goal := EngineMessages.CopyFields(Among(before, Value(), after, alloc.mem), |before|, contents, 0);
      for f := 0 to |contents|
        invariant |fields| == |contents|
        invariant goal == EngineMessages.CopyFields(Among(before, Value(), after, alloc.mem), |before|, contents, f)
      {
        ghost var w := Among(before, Value(), after, alloc.mem);
        ReplaceField(f, contents[f], alloc);
        assert before + [Value()] + after == EngineMessages.WithField(w, |before|, f, alloc.mem, fields[f]).messages;
      }
    }

    /** CopyFrom, in a program where the other message is `other`. */
    method CopyFirst(contents: seq<Option<Content>>, alloc: Allocator, other: EngineMessage)
      requires |contents| == |fields| && other != this
      modifies this, alloc
      ensures |fields| == |old(fields)|
      ensures ProgramOf(alloc.mem, Value(), other.Value())
           == EngineMessages.CopyFields(old(ProgramOf(alloc.mem, Value(), other.Value())), 0, contents, 0)
    {
      assert [] + [Value()] + [other.Value()] == [Value()] + [other.Value()];
      CopyFrom(contents, alloc, [], [other.Value()]);
      assert [] + [Value()] + [other.Value()] == [Value()] + [other.Value()];
    }

    method InternalSwap(other: EngineMessage)
      requires other != this
      modifies this, other
      ensures fields == old(other.fields) && other.fields == old(fields)
    {
      fields, other.fields := other.fields, fields;
    }

    method Swap(other: EngineMessage, alloc: Allocator)
      requires |fields| == |other.fields|
      modifies this, other, alloc
      ensures other == this ==> unchanged(this, alloc)
      ensures other != this ==>
                ProgramOf(alloc.mem, Value(), other.Value())
                == EngineMessages.Swap(old(ProgramOf(alloc.mem, Value(), other.Value())), 0, 1)
    {
      if other == this {
        return;
      }
      ghost var w := ProgramOf(alloc.mem, Value(), other.Value());
      if arena == other.arena {
        InternalSwap(other);
        assert EngineMessages.InternalSwap(w, 0, 1).messages == [Value(), other.Value()];
      } else {
        GenericSwap(other, alloc);
      }
    }

    /** internal::GenericSwap */
    method GenericSwap(other: EngineMessage, alloc: Allocator)
      requires |fields| == |other.fields| && other != this
      modifies this, other, alloc
      ensures
        var w := old(ProgramOf(alloc.mem, Value(), other.Value()));
        ProgramOf(alloc.mem, Value(), other.Value()) ==
          EngineMessages.CopyFields(EngineMessages.CopyFields(w, 0, EngineMessages.View(w, 1), 0),
                                    1, EngineMessages.View(w, 0), 0)
    {
      ghost var w := ProgramOf(alloc.mem, Value(), other.Value());
      var mine, theirs := Contents(alloc.mem, fields), Contents(alloc.mem, other.fields);
      assert mine == EngineMessages.View(w, 0) && theirs == EngineMessages.View(w, 1);
      CopyFirst(theirs, alloc, other);
      assert [Value()] + [other.Value()] + [] == [Value()] + [other.Value()];
      other.CopyFrom(mine, alloc, [Value()], []);
      assert [Value()] + [other.Value()] + [] == [Value()] + [other.Value()];
    }

    /** Move assignment from `from`. */
    method MoveAssign(from: EngineMessage, alloc: Allocator)
      requires |fields| == |from.fields|
      modifies this, from, alloc
      ensures from == this ==> unchanged(this, alloc)
      ensures from != this ==>
                ProgramOf(alloc.mem, Value(), from.Value())
                == EngineMessages.MoveAssign(old(ProgramOf(alloc.mem, Value(), from.Value())), 0, 1)
    {
      ghost var w := ProgramOf(alloc.mem, Value(), from.Value());
      if arena == from.arena {
        if from != this {
          InternalSwap(from);
          assert EngineMessages.InternalSwap(w, 0, 1).messages == [Value(), from.Value()];
        }
      } else {
        var theirs := Contents(alloc.mem, from.fields);
        assert theirs == EngineMessages.View(w, 1);
        CopyFirst(theirs, alloc, from);
      }
    }
  }

  /** A program with one message among others. */
  ghost function Among(before: seq<EngineMessages.Message>, msg: EngineMessages.Message,
                       after: seq<EngineMessages.Message>, mem: Memory): (w: EngineMessages.World)
    ensures |before| < |w.messages| && w.messages[|before|] == msg
  {
    EngineMessages.World(mem, before + [msg] + after)
  }

  /** A program with two messages. */
  function ProgramOf(mem: Memory, a: EngineMessages.Message, b: EngineMessages.Message): EngineMessages.World {
    EngineMessages.World(mem, [a] + [b])
  }

  // ---------------------------------------------------------------- what one message shows

  /** One message, and the sub-messages its user holds, by handle; a handle is null once given away. */
  datatype Session = Session(mem: Memory, arena: Option<ArenaId>, fields: seq<Option<Id>>, handles: seq<Option<Id>>)

  /** The same without any placement: fields and handles are plain optional values. */
  datatype Plain = Plain(fields: seq<Option<Content>>, handles: seq<Option<Content>>)

  datatype Use =
    | Allocate(content: Content)         // the user creates a heap sub-message
    | Put(f: nat, h: nat)                // set_allocated with what handle h holds
    | Take(f: nat)                       // release into a new handle
    | Edit(f: nat, content: Content)     // write through mutable
    | Erase(f: nat)                      // clear

  predicate Usable(nFields: nat, nHandles: nat, use: Use) {
    match use
    case Allocate(_) => true
    case Put(f, h) => f < nFields && h < nHandles
    case _ => use.f < nFields
  }

  /** Optional values: no arena, no ownership, no copies. */
  function PlainUse(p: Plain, use: Use): Plain
    requires Usable(|p.fields|, |p.handles|, use)
  {
    match use
    case Allocate(content) => p.(handles := p.handles + [Some(content)])
    case Put(f, h) => Plain(p.fields[f := p.handles[h]], p.handles[h := None])
    case Take(f) => Plain(p.fields[f := None], p.handles + [p.fields[f]])
    case Edit(f, content) => p.(fields := p.fields[f := Some(content)])
    case Erase(f) => p.(fields := p.fields[f := None])
  }

  /** The accessors, on a message wherever it is placed. */
  function RealUse(s: Session, use: Use): Session
    requires Usable(|s.fields|, |s.handles|, use) && Distinct(s)
  {
    match use
    case Allocate(content) =>
      var mem := Create(s.mem, None, content);
      s.(mem := mem.(caller := mem.caller + {|s.mem.cells|}), handles := s.handles + [Some(|s.mem.cells|)])
    case Put(f, h) =>
      var (mem, ptr) := SetAllocated(s.mem, s.arena, s.fields[f], s.handles[h]);
      s.(mem := mem, fields := s.fields[f := ptr], handles := s.handles[h := None])
    case Take(f) =>
      var (mem, ptr) := Release(s.mem, s.arena, s.fields[f]);
      s.(mem := mem, fields := s.fields[f := None], handles := s.handles + [ptr])
    case Edit(f, content) =>
      var (mem, ptr) := Mutable(s.mem, s.arena, s.fields[f]);
      s.(mem := Write(mem, ptr.value, content), fields := s.fields[f := ptr])
    case Erase(f) =>
      var (mem, ptr) := Clear(s.mem, s.arena, s.fields[f]);
      s.(mem := mem, fields := s.fields[f := ptr])
  }

  /** No two fields or handles share an object; handles, and fields of a heap message, hold heap objects. */
  ghost predicate Distinct(s: Session) {
    && (forall f | 0 <= f < |s.fields| :: InBounds(s.mem, s.fields[f]))
    && (forall h | 0 <= h < |s.handles| :: InBounds(s.mem, s.handles[h]))
    && (forall h | 0 <= h < |s.handles| && s.handles[h].Some? :: s.mem.cells[s.handles[h].value].home.None?)
    && (s.arena.None? ==>
          forall f | 0 <= f < |s.fields| && s.fields[f].Some? :: s.mem.cells[s.fields[f].value].home.None?)
    && (forall f, g | 0 <= f < g < |s.fields| && s.fields[f].Some? :: s.fields[f] != s.fields[g])
    && (forall h, k | 0 <= h < k < |s.handles| && s.handles[h].Some? :: s.handles[h] != s.handles[k])
    && (forall f, h | 0 <= f < |s.fields| && 0 <= h < |s.handles| && s.fields[f].Some? :: s.fields[f] != s.handles[h])
  }

  function Contents(mem: Memory, ptrs: seq<Option<Id>>): (r: seq<Option<Content>>)
    ensures |r| == |ptrs| && forall i | 0 <= i < |ptrs| :: r[i] == EngineMessages.ContentOf(mem, ptrs[i])
  {
    seq(|ptrs|, i requires 0 <= i < |ptrs| => EngineMessages.ContentOf(mem, ptrs[i]))
  }

  function Abs(s: Session): Plain {
    Plain(Contents(s.mem, s.fields), Contents(s.mem, s.handles))
  }

  /** Memory where every object of `mem` still shows the same and lives in the same place. */
  ghost predicate Preserves(mem: Memory, mem': Memory) {
    && |mem.cells| <= |mem'.cells|
    && forall id | 0 <= id < |mem.cells| ::
         mem'.cells[id].content == mem.cells[id].content && mem'.cells[id].home == mem.cells[id].home
  }

  lemma PreservedContents(mem: Memory, mem': Memory, ptrs: seq<Option<Id>>)
    requires Preserves(mem, mem') && forall i | 0 <= i < |ptrs| :: InBounds(mem, ptrs[i])
    ensures Contents(mem', ptrs) == Contents(mem, ptrs)
  {
  }

  /** Handing over a heap object stores that object itself, on whichever arena the message is. */
  lemma SetAllocatedStoresHeapObject(mem: Memory, arena: Option<ArenaId>, ptr: Option<Id>, arg: Option<Id>)
    requires InBounds(mem, arg) && (arg.Some? ==> mem.cells[arg.value].home.None?)
    ensures
      var (mem', ptr') := SetAllocated(mem, arena, ptr, arg);
      ptr' == arg && Preserves(mem, mem') && |mem'.cells| == |mem.cells|
  {
  }

  lemma PutKeepsDistinct(s: Session, use: Use)
    requires Distinct(s) && use.Put? && Usable(|s.fields|, |s.handles|, use)
    ensures Distinct(RealUse(s, use))
  {
    SetAllocatedStoresHeapObject(s.mem, s.arena, s.fields[use.f], s.handles[use.h]);
  }

  lemma PutShows(s: Session, use: Use)
    requires Distinct(s) && use.Put? && Usable(|s.fields|, |s.handles|, use)
    ensures Abs(RealUse(s, use)) == PlainUse(Abs(s), use)
  {
    var s' := RealUse(s, use);
    SetAllocatedStoresHeapObject(s.mem, s.arena, s.fields[use.f], s.handles[use.h]);
    PreservedContents(s.mem, s'.mem, s'.fields);
    PreservedContents(s.mem, s'.mem, s'.handles);
  }

  lemma TakeKeepsDistinct(s: Session, use: Use)
    requires Distinct(s) && use.Take? && Usable(|s.fields|, |s.handles|, use)
    ensures Distinct(RealUse(s, use))
  {
  }

  lemma TakeShows(s: Session, use: Use)
    requires Distinct(s) && use.Take? && Usable(|s.fields|, |s.handles|, use)
    ensures Abs(RealUse(s, use)) == PlainUse(Abs(s), use)
  {
    var s' := RealUse(s, use);
    var ptr := Release(s.mem, s.arena, s.fields[use.f]).1;
    assert Preserves(s.mem, s'.mem);
    PreservedContents(s.mem, s'.mem, s.fields);
    PreservedContents(s.mem, s'.mem, s.handles);
    assert Contents(s'.mem, s'.handles) == Contents(s'.mem, s.handles) + [EngineMessages.ContentOf(s'.mem, ptr)];
  }

  lemma EditKeepsDistinct(s: Session, use: Use)
    requires Distinct(s) && use.Edit? && Usable(|s.fields|, |s.handles|, use)
    ensures Distinct(RealUse(s, use))
  {
  }

  lemma EditShows(s: Session, use: Use)
    requires Distinct(s) && use.Edit? && Usable(|s.fields|, |s.handles|, use)
    ensures Abs(RealUse(s, use)) == PlainUse(Abs(s), use)
  {
    var s' := RealUse(s, use);
    var p := PlainUse(Abs(s), use);
    assert Contents(s'.mem, s'.fields) == p.fields;
    assert Contents(s'.mem, s'.handles) == p.handles;
  }

  lemma AllocateRefinesPlain(s: Session, use: Use)
    requires Distinct(s) && use.Allocate?
    ensures Distinct(RealUse(s, use))
    ensures Abs(RealUse(s, use)) == PlainUse(Abs(s), use)
  {
    var s' := RealUse(s, use);
    assert Preserves(s.mem, s'.mem);
    PreservedContents(s.mem, s'.mem, s.fields);
    PreservedContents(s.mem, s'.mem, s.handles);
    assert Contents(s'.mem, s'.handles) == Contents(s'.mem, s.handles) + [Some(use.content)];
  }

  lemma EraseRefinesPlain(s: Session, use: Use)
    requires Distinct(s) && use.Erase? && Usable(|s.fields|, |s.handles|, use)
    ensures Distinct(RealUse(s, use))
    ensures Abs(RealUse(s, use)) == PlainUse(Abs(s), use)
  {
    var s' := RealUse(s, use);
    PreservedContents(s.mem, s'.mem, s'.fields);
    PreservedContents(s.mem, s'.mem, s.handles);
  }

  /** Every accessor does to a message on the heap and to one on an arena what it does to plain optional
      values, although the two delete, hand over and copy different objects. */
  lemma UseRefinesPlain(s: Session, use: Use)
    requires Distinct(s) && Usable(|s.fields|, |s.handles|, use)
    ensures Distinct(RealUse(s, use))
    ensures Abs(RealUse(s, use)) == PlainUse(Abs(s), use)
  {
    match use
    case Allocate(_) => AllocateRefinesPlain(s, use);
    case Put(_, _) => PutKeepsDistinct(s, use); PutShows(s, use);
    case Take(_) => TakeKeepsDistinct(s, use); TakeShows(s, use);
    case Edit(_, _) => EditKeepsDistinct(s, use); EditShows(s, use);
    case Erase(_) => EraseRefinesPlain(s, use);
  }

  ghost predicate AllUsable(p: Plain, uses: seq<Use>)
    decreases |uses|
  {
    uses == [] || (Usable(|p.fields|, |p.handles|, uses[0]) && AllUsable(PlainUse(p, uses[0]), uses[1..]))
  }

  ghost function PlainAll(p: Plain, uses: seq<Use>): Plain
    requires AllUsable(p, uses)
    decreases |uses|
  {
    if uses == [] then p else PlainAll(PlainUse(p, uses[0]), uses[1..])
  }

  /** The session after all the accesses. */
  ghost function RealAll(s: Session, uses: seq<Use>): Session
    requires Distinct(s) && AllUsable(Abs(s), uses)
    decreases |uses|
  {
    if uses == [] then s else (UseRefinesPlain(s, uses[0]); RealAll(RealUse(s, uses[0]), uses[1..]))
  }

  lemma {:induction false} AllUsesRefinePlain(s: Session, uses: seq<Use>)
    requires Distinct(s) && AllUsable(Abs(s), uses)
    ensures Distinct(RealAll(s, uses)) && Abs(RealAll(s, uses)) == PlainAll(Abs(s), uses)
    decreases |uses|
  {
    if uses != [] {
      UseRefinesPlain(s, uses[0]);
      AllUsesRefinePlain(RealUse(s, uses[0]), uses[1..]);
    }
  }

  /** What has_* and the getter of a field tell. */
  function Observe(s: Session, f: nat): (bool, Content)
    requires f < |s.fields| && InBounds(s.mem, s.fields[f])
  {
    (s.fields[f].Some?, Shown(s.mem, s.fields[f]))
  }

  /** Placement is invisible: two messages that show the same, one on the heap and one on an arena or on
      any two arenas, show the same after any sequence of accesses, and so do the released objects. */
  lemma PlacementIsInvisible(s: Session, t: Session, uses: seq<Use>, f: nat)
    requires Distinct(s) && Distinct(t) && Abs(s) == Abs(t) && AllUsable(Abs(s), uses)
    requires f < |RealAll(s, uses).fields|
    ensures Abs(RealAll(s, uses)) == Abs(RealAll(t, uses)) == PlainAll(Abs(s), uses)
    ensures f < |RealAll(t, uses).fields|
    ensures InBounds(RealAll(s, uses).mem, RealAll(s, uses).fields[f])
    ensures InBounds(RealAll(t, uses).mem, RealAll(t, uses).fields[f])
    ensures Observe(RealAll(s, uses), f) == Observe(RealAll(t, uses), f)
  {
    AllUsesRefinePlain(s, uses);
    AllUsesRefinePlain(t, uses);
    var s', t' := RealAll(s, uses), RealAll(t, uses);
    assert Contents(s'.mem, s'.fields)[f] == Contents(t'.mem, t'.fields)[f];
  }

  /** A session seen as a program with one message, whose caller owns what its handles hold. */
  ghost predicate Owned(s: Session) {
    && EngineMessages.Inv(WorldOf(s))
    && forall h | 0 <= h < |s.handles| && s.handles[h].Some? :: s.handles[h].value in s.mem.caller
  }

  function WorldOf(s: Session): EngineMessages.World {
    EngineMessages.World(s.mem, [EngineMessages.Message(s.arena, s.fields)])
  }

  function CallOf(s: Session, use: Use): EngineMessages.Call
    requires Usable(|s.fields|, |s.handles|, use)
  {
    match use
    case Allocate(content) => EngineMessages.CallerNew(None, content)
    case Put(f, h) => EngineMessages.SetAllocatedField(0, f, s.handles[h])
    case Take(f) => EngineMessages.ReleaseField(0, f)
    case Edit(f, content) => EngineMessages.WriteField(0, f, content)
    case Erase(f) => EngineMessages.ClearField(0, f)
  }

  lemma UseIsCall(s: Session, use: Use)
    requires Owned(s) && Distinct(s) && Usable(|s.fields|, |s.handles|, use)
    ensures EngineMessages.Allowed(WorldOf(s), CallOf(s, use))
    ensures WorldOf(RealUse(s, use)) == EngineMessages.Apply(WorldOf(s), CallOf(s, use))
  {
  }

  /** The handles left after an access still hold objects the caller owns. */
  lemma UseKeepsHandles(s: Session, use: Use, h: nat)
    requires Owned(s) && Distinct(s) && Usable(|s.fields|, |s.handles|, use)
    requires h < |RealUse(s, use).handles| && RealUse(s, use).handles[h].Some?
    ensures RealUse(s, use).handles[h].value in RealUse(s, use).mem.caller
  {
    if h < |s.handles| {
      assert s.handles[h].value in s.mem.caller;
    }
  }

  /** The accesses are calls the ownership theorem covers, so none of them reads or writes a freed
      object and every handle stays the caller's own. */
  lemma UseKeepsOwned(s: Session, use: Use)
    requires Owned(s) && Distinct(s) && Usable(|s.fields|, |s.handles|, use)
    ensures Owned(RealUse(s, use))
  {
    UseIsCall(s, use);
    EngineMessages.CallKeepsInv(WorldOf(s), CallOf(s, use));
    var s' := RealUse(s, use);
    forall h | 0 <= h < |s'.handles| && s'.handles[h].Some?
      ensures s'.handles[h].value in s'.mem.caller
    {
      UseKeepsHandles(s, use, h);
    }
  }

  lemma {:induction false} AllUsesKeepOwned(s: Session, uses: seq<Use>)
    requires Owned(s) && Distinct(s) && AllUsable(Abs(s), uses)
    ensures Owned(RealAll(s, uses))
    decreases |uses|
  {
    if uses != [] {
      UseRefinesPlain(s, uses[0]);
      UseKeepsOwned(s, uses[0]);
      AllUsesKeepOwned(RealUse(s, uses[0]), uses[1..]);
    }
  }

  /** Over any sequence of accesses, then, no object has two holders, every handle stays the caller's own, and no
      field or handle points to a freed object. */
  lemma NoUseReachesFreed(s: Session, uses: seq<Use>)
    requires Owned(s) && Distinct(s) && AllUsable(Abs(s), uses)
    ensures
      var s' := RealAll(s, uses);
      && Owned(s')
      && (forall f | 0 <= f < |s'.fields| && s'.fields[f].Some? :: s'.fields[f].value !in s'.mem.freed)
      && (forall h | 0 <= h < |s'.handles| && s'.handles[h].Some? :: s'.handles[h].value !in s'.mem.freed)
  {
    AllUsesKeepOwned(s, uses);
    NothingHeldIsFreed(RealAll(s, uses));
  }

  lemma NothingHeldIsFreed(s: Session)
    requires Owned(s)
    ensures forall f | 0 <= f < |s.fields| && s.fields[f].Some? :: s.fields[f].value !in s.mem.freed
    ensures forall h | 0 <= h < |s.handles| && s.handles[h].Some? :: s.handles[h].value !in s.mem.freed
  {
    var w := WorldOf(s);
    forall f | 0 <= f < |s.fields| && s.fields[f].Some?
      ensures s.fields[f].value !in s.mem.freed
    {
      EngineMessages.FieldsAreNotCallers(w, 0, f);
    }
    forall h | 0 <= h < |s.handles| && s.handles[h].Some?
      ensures s.handles[h].value !in s.mem.freed
    {
      var id := s.handles[h].value;
      assert id in s.mem.caller;
      assert EngineMessages.HeapRefs(w.messages, id) == Unheld(s.mem, id);
    }
  }
}
