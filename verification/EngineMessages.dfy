/** Ownership over whole programs: any number of messages, on the heap and on arenas, and any calls. */
module EngineMessages {
  import opened Base
  import opened MessageMemory

  datatype Message = Message(arena: Option<ArenaId>, fields: seq<Option<Id>>)

  datatype World = World(mem: Memory, messages: seq<Message>)

  /** How many times a message itself is responsible for `id`. */
  function Holds(msg: Message, id: Id): nat {
    if msg.arena.None? then multiset(msg.fields)[Some(id)] else 0
  }

  function HeapRefs(messages: seq<Message>, id: Id): nat {
    if messages == [] then 0 else Holds(messages[0], id) + HeapRefs(messages[1..], id)
  }

  predicate IsField(w: World, m: nat, f: nat) {
    m < |w.messages| && f < |w.messages[m].fields|
  }

  /** The ownership invariant: every object ever created has exactly one holder among heap messages,
      arenas, the caller and the freed objects; and every field agrees with the arena of its message. */
  ghost predicate Inv(w: World) {
    && Typed(w.mem)
    && (forall m: nat, f: nat | IsField(w, m, f) :: Agrees(w.mem, w.messages[m].arena, w.messages[m].fields[f]))
    && (forall id: nat :: HeapRefs(w.messages, id) == Unheld(w.mem, id))
  }

  lemma {:induction false} HeapRefsUpdate(messages: seq<Message>, m: nat, msg: Message, id: Id)
    requires m < |messages|
    ensures HeapRefs(messages[m := msg], id) == HeapRefs(messages, id) - Holds(messages[m], id) + Holds(msg, id)
  {
    if m != 0 {
      HeapRefsUpdate(messages[1..], m - 1, msg, id);
      assert messages[m := msg][1..] == messages[1..][m - 1 := msg];
    }
  }

  lemma {:induction false} HeapRefsCovers(messages: seq<Message>, m: nat, id: Id)
    requires m < |messages|
    ensures HeapRefs(messages, id) >= Holds(messages[m], id)
  {
    if m != 0 {
      HeapRefsCovers(messages[1..], m - 1, id);
    }
  }

  lemma FieldIsSound(w: World, m: nat, f: nat)
    requires Inv(w) && IsField(w, m, f)
    ensures Sound(w.mem, w.messages[m].arena, w.messages[m].fields[f])
  {
    var msg := w.messages[m];
    forall id: nat
      ensures Unheld(w.mem, id) >= Held(msg.arena, msg.fields[f], id)
    {
      HeapRefsCovers(w.messages, m, id);
      assert msg.fields[f] in multiset(msg.fields);
    }
  }

  function WithField(w: World, m: nat, f: nat, mem: Memory, ptr: Option<Id>): World
    requires IsField(w, m, f)
  {
    World(mem, w.messages[m := w.messages[m].(fields := w.messages[m].fields[f := ptr])])
  }

  /** Objects held by the caller are in no field, so handing them over disturbs no field. */
  lemma FieldsAreNotCallers(w: World, m: nat, f: nat)
    requires Inv(w) && IsField(w, m, f) && w.messages[m].fields[f].Some?
    ensures w.messages[m].fields[f].value !in w.mem.caller
    ensures w.messages[m].fields[f].value !in w.mem.freed
  {
    FieldIsSound(w, m, f);
    var id := w.messages[m].fields[f].value;
    assert Unheld(w.mem, id) >= Held(w.messages[m].arena, w.messages[m].fields[f], id);
  }

  /** A change of one field that transfers ownership properly keeps the invariant. */
  lemma TransferKeepsInv(w: World, m: nat, f: nat, mem: Memory, ptr: Option<Id>)
    requires Inv(w) && IsField(w, m, f)
    requires Transfers(w.mem, w.messages[m].arena, w.messages[m].fields[f], mem, ptr)
    ensures Inv(WithField(w, m, f, mem, ptr))
  {
    var w' := WithField(w, m, f, mem, ptr);
    var msg, msg' := w.messages[m], w'.messages[m];
    forall id: nat
      ensures HeapRefs(w'.messages, id) == Unheld(mem, id)
    {
      HeapRefsUpdate(w.messages, m, msg', id);
      assert Holds(msg', id) == Holds(msg, id) - Held(msg.arena, msg.fields[f], id) + Held(msg.arena, ptr, id);
      assert Unheld(mem, id) - Held(msg.arena, ptr, id) == Unheld(w.mem, id) - Held(msg.arena, msg.fields[f], id);
    }
    forall m0: nat, f0: nat | IsField(w', m0, f0)
      ensures Agrees(mem, w'.messages[m0].arena, w'.messages[m0].fields[f0])
    {
      if m0 != m || f0 != f {
        assert IsField(w, m0, f0);
        assert Agrees(w.mem, w.messages[m0].arena, w.messages[m0].fields[f0]);
        if w.messages[m0].fields[f0].Some? {
          FieldsAreNotCallers(w, m0, f0);
        }
      }
    }
  }

  // ---------------------------------------------------------------- whole messages

  function ContentOf(mem: Memory, ptr: Option<Id>): Option<Content> {
    if ptr.Some? && ptr.value < |mem.cells| then Some(mem.cells[ptr.value].content) else None
  }

  /** What a reader of message `m` sees, field by field. */
  function View(w: World, m: nat): (view: seq<Option<Content>>)
    requires m < |w.messages|
    ensures |view| == |w.messages[m].fields|
  {
    seq(|w.messages[m].fields|, f requires 0 <= f < |w.messages[m].fields| => ContentOf(w.mem, w.messages[m].fields[f]))
  }

  /** What set_allocated stores shows what its argument showed, also when it is a copy from another arena. */
  lemma SetAllocatedShows(mem: Memory, arena: Option<ArenaId>, ptr: Option<Id>, arg: Option<Id>)
    requires InBounds(mem, arg)
    ensures
      var (mem', ptr') := SetAllocated(mem, arena, ptr, arg);
      ContentOf(mem', ptr') == ContentOf(mem, arg)
  {
  }

  /** A new sub-message shows the default, and one that is there shows what it did. */
  lemma MutableShows(mem: Memory, arena: Option<ArenaId>, ptr: Option<Id>)
    requires InBounds(mem, ptr)
    ensures
      var (mem', ptr') := Mutable(mem, arena, ptr);
      ContentOf(mem', ptr') == if ptr.None? then Some([]) else ContentOf(mem, ptr)
  {
  }

  /** What release hands out shows what the field did. */
  lemma ReleaseShows(mem: Memory, arena: Option<ArenaId>, ptr: Option<Id>)
    requires InBounds(mem, ptr)
    ensures
      var (mem', result) := Release(mem, arena, ptr);
      ContentOf(mem', result) == ContentOf(mem, ptr)
  {
  }

  /** CopyFrom of contents into message `m`, from field `f` on. */
  function CopyFields(w: World, m: nat, contents: seq<Option<Content>>, f: nat): (w': World)
    requires m < |w.messages| && |contents| == |w.messages[m].fields|
    ensures |w'.messages| == |w.messages|
    ensures forall j | 0 <= j < |w.messages| :: |w'.messages[j].fields| == |w.messages[j].fields|
    decreases |contents| - f
  {
    if f >= |contents| then w else
      var msg := w.messages[m];
      var (mem, ptr) := Replace(w.mem, msg.arena, msg.fields[f], contents[f]);
      CopyFields(WithField(w, m, f, mem, ptr), m, contents, f + 1)
  }

  /** InternalSwap: exchange the raw pointers. */
  function InternalSwap(w: World, a: nat, b: nat): World
    requires a < |w.messages| && b < |w.messages|
  {
    var x, y := w.messages[a], w.messages[b];
    w.(messages := w.messages[a := x.(fields := y.fields)][b := y.(fields := x.fields)])
  }

  predicate SameType(w: World, a: nat, b: nat) {
    a < |w.messages| && b < |w.messages| && |w.messages[a].fields| == |w.messages[b].fields|
  }

  function Swap(w: World, a: nat, b: nat): World
    requires SameType(w, a, b)
  {
    if a == b then w
    else if w.messages[a].arena == w.messages[b].arena then InternalSwap(w, a, b)
    else
      CopyFields(CopyFields(w, a, View(w, b), 0), b, View(w, a), 0)
  }

  /** Move assignment: `a = std::move(b)`. */
  function MoveAssign(w: World, a: nat, b: nat): World
    requires SameType(w, a, b)
  {
    if w.messages[a].arena == w.messages[b].arena then (if a == b then w else InternalSwap(w, a, b))
    else CopyFields(w, a, View(w, b), 0)
  }

  lemma {:induction false} CopyFieldsKeepsInv(w: World, m: nat, contents: seq<Option<Content>>, f: nat)
    requires Inv(w) && m < |w.messages| && |contents| == |w.messages[m].fields|
    ensures Inv(CopyFields(w, m, contents, f))
    decreases |contents| - f
  {
    if f < |contents| {
      var msg := w.messages[m];
      FieldIsSound(w, m, f);
      ReplaceTransfers(w.mem, msg.arena, msg.fields[f], contents[f]);
      var (mem, ptr) := Replace(w.mem, msg.arena, msg.fields[f], contents[f]);
      TransferKeepsInv(w, m, f, mem, ptr);
      CopyFieldsKeepsInv(WithField(w, m, f, mem, ptr), m, contents, f + 1);
    }
  }

  /** CopyFields writes just the fields it is told to, and what message `m` shows there is the copy. */
  lemma {:induction false} CopyFieldsView(w: World, m: nat, contents: seq<Option<Content>>, f: nat)
    requires Inv(w) && m < |w.messages| && f <= |contents| == |w.messages[m].fields|
    ensures
      var w' := CopyFields(w, m, contents, f);
      && w.mem.cells <= w'.mem.cells
      && w'.messages[m].arena == w.messages[m].arena
      && (forall i | 0 <= i < f :: w'.messages[m].fields[i] == w.messages[m].fields[i])
      && (forall i | f <= i < |contents| :: ContentOf(w'.mem, w'.messages[m].fields[i]) == contents[i])
      && (forall j | 0 <= j < |w.messages| && j != m :: w'.messages[j] == w.messages[j])
    decreases |contents| - f
  {
    if f < |contents| {
      var msg := w.messages[m];
      FieldIsSound(w, m, f);
      ReplaceTransfers(w.mem, msg.arena, msg.fields[f], contents[f]);
      var (mem, ptr) := Replace(w.mem, msg.arena, msg.fields[f], contents[f]);
      TransferKeepsInv(w, m, f, mem, ptr);
      CopyFieldsView(WithField(w, m, f, mem, ptr), m, contents, f + 1);
    }
  }

  /** A raw exchange keeps the invariant between messages of one arena. */
  lemma InternalSwapKeepsInv(w: World, a: nat, b: nat)
    requires Inv(w) && SameType(w, a, b) && a != b && w.messages[a].arena == w.messages[b].arena
    ensures Inv(InternalSwap(w, a, b))
  {
    var x, y := w.messages[a], w.messages[b];
    var w' := InternalSwap(w, a, b);
    forall id: nat
      ensures HeapRefs(w'.messages, id) == Unheld(w'.mem, id)
    {
      HeapRefsUpdate(w.messages, a, x.(fields := y.fields), id);
      HeapRefsUpdate(w.messages[a := x.(fields := y.fields)], b, y.(fields := x.fields), id);
    }
    forall m: nat, f: nat | IsField(w', m, f)
      ensures Agrees(w'.mem, w'.messages[m].arena, w'.messages[m].fields[f])
    {
      var from := if m == a then b else if m == b then a else m;
      assert IsField(w, from, f);
      assert Agrees(w.mem, w.messages[from].arena, w.messages[from].fields[f]);
    }
  }

  /** Only there: with anything in either message, a raw exchange between arenas breaks it. */
  lemma InternalSwapKeepsInvIff(w: World, a: nat, b: nat)
    requires Inv(w) && SameType(w, a, b) && a != b
    ensures
      var x, y := w.messages[a], w.messages[b];
      Inv(InternalSwap(w, a, b)) <==>
      (x.arena == y.arena || forall f | 0 <= f < |x.fields| :: x.fields[f].None? && y.fields[f].None?)
  {
    var x, y := w.messages[a], w.messages[b];
    var w' := InternalSwap(w, a, b);
    if x.arena == y.arena {
      InternalSwapKeepsInv(w, a, b);
    } else if f :| 0 <= f < |x.fields| && !(x.fields[f].None? && y.fields[f].None?) {
      assert IsField(w, a, f) && IsField(w', b, f) && IsField(w, b, f) && IsField(w', a, f);
    } else {
      assert x.fields == y.fields;
      assert w' == w;
    }
  }

  /** Swap keeps the invariant for every placement of the two messages, and exchanges what they show. */
  lemma SwapCorrect(w: World, a: nat, b: nat)
    requires Inv(w) && SameType(w, a, b)
    ensures
      var w' := Swap(w, a, b);
      && Inv(w') && |w'.messages| == |w.messages|
      && View(w', a) == View(w, b) && View(w', b) == View(w, a)
  {
    if a != b && w.messages[a].arena == w.messages[b].arena {
      InternalSwapKeepsInv(w, a, b);
    } else if a != b {
      CopyFieldsKeepsInv(w, a, View(w, b), 0);
      CopyFieldsView(w, a, View(w, b), 0);
      var mid := CopyFields(w, a, View(w, b), 0);
      CopyFieldsKeepsInv(mid, b, View(w, a), 0);
      CopyFieldsView(mid, b, View(w, a), 0);
      var w' := Swap(w, a, b);
      forall f | 0 <= f < |View(w', a)|
        ensures View(w', a)[f] == View(w, b)[f]
      {
        assert IsField(mid, a, f);
        assert Agrees(mid.mem, mid.messages[a].arena, mid.messages[a].fields[f]);
      }
    }
  }

  /** Move assignment keeps the invariant and gives `a` what `b` showed; what `b` shows afterwards is
      `a`'s old contents on the same arena and unchanged otherwise. */
  lemma MoveAssignCorrect(w: World, a: nat, b: nat)
    requires Inv(w) && SameType(w, a, b)
    ensures
      var w' := MoveAssign(w, a, b);
      && Inv(w') && |w'.messages| == |w.messages|
      && View(w', a) == View(w, b)
      && View(w', b) == if w.messages[a].arena == w.messages[b].arena then View(w, a) else View(w, b)
  {
    if w.messages[a].arena != w.messages[b].arena {
      CopyFieldsKeepsInv(w, a, View(w, b), 0);
      CopyFieldsView(w, a, View(w, b), 0);
      var w' := MoveAssign(w, a, b);
      forall f | 0 <= f < |View(w', b)|
        ensures View(w', b)[f] == View(w, b)[f]
      {
        assert IsField(w, b, f);
        assert Agrees(w.mem, w.messages[b].arena, w.messages[b].fields[f]);
      }
    } else if a != b {
      InternalSwapKeepsInv(w, a, b);
    }
  }

  // ---------------------------------------------------------------- any sequence of calls

  datatype Call =
    | ClearField(m: nat, f: nat)
    | MutableField(m: nat, f: nat)
    | WriteField(m: nat, f: nat, content: Content)
    | SetAllocatedField(m: nat, f: nat, arg: Option<Id>)
    | ReleaseField(m: nat, f: nat)
    | SwapMessages(a: nat, b: nat)
    | MoveAssignMessage(a: nat, b: nat)
    | CallerNew(arena: Option<ArenaId>, content: Content)
    | CallerDelete(id: Id)

  /** Callers name existing fields, pass only objects they own or that live on an arena, and delete
      only what they own. */
  predicate Allowed(w: World, call: Call) {
    match call
    case ClearField(m, f) => IsField(w, m, f)
    case MutableField(m, f) => IsField(w, m, f)
    case WriteField(m, f, _) => IsField(w, m, f) && InBounds(w.mem, w.messages[m].fields[f])
    case SetAllocatedField(m, f, arg) => IsField(w, m, f) && Passable(w.mem, arg)
    case ReleaseField(m, f) => IsField(w, m, f) && InBounds(w.mem, w.messages[m].fields[f])
    case SwapMessages(a, b) => SameType(w, a, b)
    case MoveAssignMessage(a, b) => SameType(w, a, b)
    case CallerNew(_, _) => true
    case CallerDelete(id) => id in w.mem.caller
  }

  function Apply(w: World, call: Call): World
    requires Allowed(w, call)
  {
    match call
    case ClearField(m, f) =>
      var (mem, ptr) := Clear(w.mem, w.messages[m].arena, w.messages[m].fields[f]); WithField(w, m, f, mem, ptr)
    case MutableField(m, f) =>
      var (mem, ptr) := Mutable(w.mem, w.messages[m].arena, w.messages[m].fields[f]); WithField(w, m, f, mem, ptr)
    case WriteField(m, f, content) =>
      var (mem, ptr) := Mutable(w.mem, w.messages[m].arena, w.messages[m].fields[f]);
      WithField(w, m, f, Write(mem, ptr.value, content), ptr)
    case SetAllocatedField(m, f, arg) =>
      var (mem, ptr) := SetAllocated(w.mem, w.messages[m].arena, w.messages[m].fields[f], arg);
      WithField(w, m, f, mem, ptr)
    case ReleaseField(m, f) =>
      var (mem, _) := Release(w.mem, w.messages[m].arena, w.messages[m].fields[f]); WithField(w, m, f, mem, None)
    case SwapMessages(a, b) => Swap(w, a, b)
    case MoveAssignMessage(a, b) => MoveAssign(w, a, b)
    case CallerNew(arena, content) =>
      var mem := Create(w.mem, arena, content);
      w.(mem := if arena.None? then mem.(caller := mem.caller + {|w.mem.cells|}) else mem)
    case CallerDelete(id) =>
      w.(mem := w.mem.(freed := w.mem.freed + multiset{id}, caller := w.mem.caller - {id}))
  }

  lemma WriteKeepsTransfer(mem: Memory, arena: Option<ArenaId>, ptr: Option<Id>, mem': Memory, ptr': Option<Id>,
                           content: Content)
    requires Transfers(mem, arena, ptr, mem', ptr') && ptr'.Some?
    ensures Transfers(mem, arena, ptr, Write(mem', ptr'.value, content), ptr')
  {
    var written := Write(mem', ptr'.value, content);
    forall id: nat
      ensures Unheld(written, id) == Unheld(mem', id)
    {
    }
  }

  lemma CallerNewKeepsInv(w: World, call: Call)
    requires Inv(w) && call.CallerNew?
    ensures Inv(Apply(w, call))
  {
    var w' := Apply(w, call);
    assert HeapRefs(w.messages, |w.mem.cells|) == Unheld(w.mem, |w.mem.cells|);
    forall id: nat
      ensures HeapRefs(w'.messages, id) == Unheld(w'.mem, id)
    {
      assert HeapRefs(w.messages, id) == Unheld(w.mem, id);
    }
    forall m: nat, f: nat | IsField(w', m, f)
      ensures Agrees(w'.mem, w'.messages[m].arena, w'.messages[m].fields[f])
    {
      assert IsField(w, m, f);
    }
  }

  lemma CallerDeleteKeepsInv(w: World, call: Call)
    requires Inv(w) && call.CallerDelete? && Allowed(w, call)
    ensures Inv(Apply(w, call))
  {
    var w' := Apply(w, call);
    assert HeapRefs(w.messages, call.id) == Unheld(w.mem, call.id);
    forall id: nat
      ensures HeapRefs(w'.messages, id) == Unheld(w'.mem, id)
    {
      assert HeapRefs(w.messages, id) == Unheld(w.mem, id);
    }
    forall m: nat, f: nat | IsField(w', m, f)
      ensures Agrees(w'.mem, w'.messages[m].arena, w'.messages[m].fields[f])
    {
      assert IsField(w, m, f);
    }
  }

  lemma CallKeepsInv(w: World, call: Call)
    requires Inv(w) && Allowed(w, call)
    ensures Inv(Apply(w, call))
  {
    if call.SwapMessages? {
      SwapCorrect(w, call.a, call.b);
    } else if call.MoveAssignMessage? {
      MoveAssignCorrect(w, call.a, call.b);
    } else if call.CallerNew? {
      CallerNewKeepsInv(w, call);
    } else if call.CallerDelete? {
      CallerDeleteKeepsInv(w, call);
    } else {
      var msg := w.messages[call.m];
      var ptr := msg.fields[call.f];
      FieldIsSound(w, call.m, call.f);
      match call {
        case ClearField(_, _) => DropTransfers(w.mem, msg.arena, ptr);
        case SetAllocatedField(_, _, arg) => SetAllocatedTransfers(w.mem, msg.arena, ptr, arg);
        case ReleaseField(_, _) => ReleaseTransfers(w.mem, msg.arena, ptr);
        case _ => MutableTransfers(w.mem, msg.arena, ptr);
      }
      if call.WriteField? {
        var (mem, ptr') := Mutable(w.mem, msg.arena, ptr);
        WriteKeepsTransfer(w.mem, msg.arena, ptr, mem, ptr', call.content);
      }
      var w' := Apply(w, call);
      TransferKeepsInv(w, call.m, call.f, w'.mem, w'.messages[call.m].fields[call.f]);
    }
  }

  lemma {:induction false} EmptyMessagesHoldNothing(messages: seq<Message>, id: Id)
    requires forall m: nat, f: nat | m < |messages| && f < |messages[m].fields| :: messages[m].fields[f].None?
    ensures HeapRefs(messages, id) == 0
  {
    if messages != [] {
      var fields := messages[0].fields;
      assert Some(id) !in fields;
      forall m: nat, f: nat | m < |messages[1..]| && f < |messages[1..][m].fields|
        ensures messages[1..][m].fields[f].None?
      {
        assert messages[1..][m] == messages[m + 1];
      }
      EmptyMessagesHoldNothing(messages[1..], id);
    }
  }

  /** A program starts with any number of empty messages, placed anywhere, and no sub-message. */
  lemma NewProgramHasInv(messages: seq<Message>)
    requires forall m: nat, f: nat | m < |messages| && f < |messages[m].fields| :: messages[m].fields[f].None?
    ensures Inv(World(Memory([], multiset{}, multiset{}, {}), messages))
  {
    forall id: nat
      ensures HeapRefs(messages, id) == 0
    {
      EmptyMessagesHoldNothing(messages, id);
    }
  }

  ghost predicate AllAllowed(w: World, calls: seq<Call>)
    decreases |calls|
  {
    calls == [] || (Allowed(w, calls[0]) && AllAllowed(Apply(w, calls[0]), calls[1..]))
  }

  ghost function ApplyAll(w: World, calls: seq<Call>): World
    requires AllAllowed(w, calls)
    decreases |calls|
  {
    if calls == [] then w else ApplyAll(Apply(w, calls[0]), calls[1..])
  }

  /** Over any sequence of calls each sub-message has exactly one holder, hence is freed at most once and
      destroyed by at most one arena; no field points to a freed object; and every field points to an
      object kept by its own message's arena, or to a heap object of its own if there is none. */
  lemma {:induction false} OwnershipOverAllCalls(w: World, calls: seq<Call>)
    requires Inv(w) && AllAllowed(w, calls)
    ensures
      var w' := ApplyAll(w, calls);
      && Inv(w')
      && (forall id: nat | id < |w'.mem.cells| ::
            w'.mem.freed[id] + w'.mem.owned[id] + (if id in w'.mem.caller then 1 else 0)
            + HeapRefs(w'.messages, id) == 1)
      && (forall m: nat, f: nat | IsField(w', m, f) && w'.messages[m].fields[f].Some? ::
            && w'.messages[m].fields[f].value < |w'.mem.cells|
            && w'.messages[m].fields[f].value !in w'.mem.freed
            && w'.mem.cells[w'.messages[m].fields[f].value].keeper == w'.messages[m].arena)
    decreases |calls|
  {
    if calls != [] {
      CallKeepsInv(w, calls[0]);
      OwnershipOverAllCalls(Apply(w, calls[0]), calls[1..]);
    } else {
      forall id: nat | id < |w.mem.cells|
        ensures w.mem.freed[id] + w.mem.owned[id] + (if id in w.mem.caller then 1 else 0)
                + HeapRefs(w.messages, id) == 1
      {
        assert HeapRefs(w.messages, id) == Unheld(w.mem, id);
      }
      forall m: nat, f: nat | IsField(w, m, f) && w.messages[m].fields[f].Some?
        ensures w.messages[m].fields[f].value !in w.mem.freed
      {
        FieldsAreNotCallers(w, m, f);
      }
    }
  }

  /** Storing `ptr` in a field keeps the invariant of the whole program exactly when it is a proper transfer,
      provided an improper one shows at some object. */
  lemma FieldChangeKeepsInvIff(w: World, m: nat, f: nat, mem: Memory, ptr: Option<Id>, id: Id)
    requires Inv(w) && IsField(w, m, f)
    requires
      var msg := w.messages[m];
      Transfers(w.mem, msg.arena, msg.fields[f], mem, ptr) ||
      !Agrees(mem, msg.arena, ptr) ||
      Unheld(mem, id) - Held(msg.arena, ptr, id) != Unheld(w.mem, id) - Held(msg.arena, msg.fields[f], id)
    ensures Inv(WithField(w, m, f, mem, ptr)) <==>
            Transfers(w.mem, w.messages[m].arena, w.messages[m].fields[f], mem, ptr)
  {
    var msg := w.messages[m];
    var w' := WithField(w, m, f, mem, ptr);
    if Transfers(w.mem, msg.arena, msg.fields[f], mem, ptr) {
      TransferKeepsInv(w, m, f, mem, ptr);
    } else {
      HeapRefsUpdate(w.messages, m, w'.messages[m], id);
      assert Holds(w'.messages[m], id)
          == Holds(msg, id) - Held(msg.arena, msg.fields[f], id) + Held(msg.arena, ptr, id);
      assert IsField(w', m, f);
      assert HeapRefs(w.messages, id) == Unheld(w.mem, id);
    }
  }

  /** The unsafe setter keeps the invariant of the whole program exactly when its argument is null or
      already belongs with the message. */
  lemma UnsafeSetKeepsInvIff(w: World, m: nat, f: nat, arg: Option<Id>)
    requires Inv(w) && IsField(w, m, f) && InBounds(w.mem, arg)
    ensures
      var msg := w.messages[m];
      var (mem, ptr) := UnsafeSet(w.mem, msg.arena, msg.fields[f], arg);
      Inv(WithField(w, m, f, mem, ptr)) <==>
      (arg.Some? ==> if msg.arena.None? then arg.value in w.mem.caller else w.mem.cells[arg.value].keeper == msg.arena)
  {
    var msg := w.messages[m];
    var (mem, ptr) := UnsafeSet(w.mem, msg.arena, msg.fields[f], arg);
    FieldIsSound(w, m, f);
    UnsafeSetTransfersIff(w.mem, msg.arena, msg.fields[f], arg);
    FieldChangeKeepsInvIff(w, m, f, mem, ptr, if arg.Some? then arg.value else 0);
  }

  /** set_allocated keeps it exactly for the arguments a caller may pass: so that is what callers must do. */
  lemma SetAllocatedKeepsInvIff(w: World, m: nat, f: nat, arg: Option<Id>)
    requires Inv(w) && IsField(w, m, f) && InBounds(w.mem, arg)
    ensures
      var msg := w.messages[m];
      var (mem, ptr) := SetAllocated(w.mem, msg.arena, msg.fields[f], arg);
      Inv(WithField(w, m, f, mem, ptr)) <==> Passable(w.mem, arg)
  {
    var msg := w.messages[m];
    var (mem, ptr) := SetAllocated(w.mem, msg.arena, msg.fields[f], arg);
    FieldIsSound(w, m, f);
    SetAllocatedTransfersIff(w.mem, msg.arena, msg.fields[f], arg);
    if !Passable(w.mem, arg) {
      ImpassableIsStoredTwice(w.mem, msg.arena, msg.fields[f], arg.value);
    }
    FieldChangeKeepsInvIff(w, m, f, mem, ptr, if arg.Some? then arg.value else 0);
  }
}
