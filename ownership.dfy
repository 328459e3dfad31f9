/**
 * The ownership discipline of DeviceDescriptor and Device (libusbcc.cc:37-67, 206-221,
 * 258-328) over whole programs. A world is the libusb ledger plus every wrapper object
 * created so far, each reduced to the pointers it holds; a program is a sequence of
 * constructions, copies, moves, assignments and destructions. A step is undefined
 * (None) exactly when it would hand libusb an invalid call: referencing a freed or null
 * device, unreferencing one it no longer counts, closing a handle that is not open, or
 * any of these after libusb_exit. The steps use the same Ledger operations as the
 * methods of the classes in module Devices.
 */
module Ownership {
  import opened Wrappers
  import opened Native

  /** One wrapper object, as the pointers it holds; Destroyed once its destructor has run. */
  datatype Obj =
    | Descriptor(device: NativeDevice?)
    | Opened(device: NativeDevice?, handle: NativeHandle?)
    | Destroyed

  /** The device reference an object owns. */
  function Owns(o: Obj): multiset<NativeDevice?>
  {
    if o.Destroyed? then multiset{} else Owned(o.device)
  }

  /** The handle an object owns. */
  function HandleOf(o: Obj): multiset<NativeHandle?>
  {
    if o.Opened? && o.handle != null then multiset{o.handle} else multiset{}
  }

  /** All device references the objects own. */
  function Holds(objs: seq<Obj>): multiset<NativeDevice?>
  {
    if objs == [] then multiset{} else Holds(objs[..|objs| - 1]) + Owns(objs[|objs| - 1])
  }

  /** All handles the objects own. */
  function Handles(objs: seq<Obj>): multiset<NativeHandle?>
  {
    if objs == [] then multiset{} else Handles(objs[..|objs| - 1]) + HandleOf(objs[|objs| - 1])
  }

  datatype World = World(ledger: Ledger, objs: seq<Obj>)

  /** What a program does with the wrappers; indices name objects in creation order. */
  datatype Op =
    | NewDescriptor(device: NativeDevice?)   // DeviceDescriptor (libusb_device*)
    | CopyDescriptor(src: nat)                // DeviceDescriptor (DeviceDescriptor const&)
    | MoveDescriptor(src: nat)                // DeviceDescriptor (DeviceDescriptor&&)
    | CopyAssign(dst: nat, src: nat)          // DeviceDescriptor::operator= (const&)
    | MoveAssign(dst: nat, src: nat)          // DeviceDescriptor::operator= (&&)
    | OpenDevice(src: nat, handle: NativeHandle?)  // DeviceDescriptor::open() where libusb_open succeeds
    | NewDevice(device: NativeDevice?, handle: NativeHandle?)  // Device (libusb_device*, libusb_device_handle*) on a handle the caller has just opened
    | MoveDevice(src: nat)                    // Device (Device&&)
    | MoveAssignDevice(dst: nat, src: nat)    // Device::operator= (Device&&)
    | Destroy(target: nat)                    // ~DeviceDescriptor() or ~Device()
    | Exit                                    // libusb_exit, as ~Session() calls it

  /** The pointers a moved-from object is left with: both null. */
  function Emptied(o: Obj): Obj
  {
    if o.Opened? then Opened(null, null) else Descriptor(null)
  }

  /** cleanup() of a live object is a valid pair of libusb calls: close the handle, unref the device. */
  predicate CanClean(l: Ledger, o: Obj)
  {
    && !o.Destroyed?
    && (o.Opened? ==> l.CanShut(o.handle))
    && (if o.Opened? then l.Shut(o.handle) else l).CanRelease(o.device)
  }

  /** What cleanup() of a live object leaves in libusb. */
  function Clean(l: Ledger, o: Obj): Ledger
    requires CanClean(l, o)
  {
    (if o.Opened? then l.Shut(o.handle) else l).Release(o.device)
  }

  function NewStep(w: World, d: NativeDevice?): Option<World>
  {
    if w.ledger.Alive(d) then Some(World(w.ledger.Ref(d), w.objs + [Descriptor(d)])) else None
  }

  function CopyStep(w: World, s: nat): Option<World>
  {
    if s < |w.objs| && w.objs[s].Descriptor? && w.ledger.Alive(w.objs[s].device)
    then Some(World(w.ledger.Ref(w.objs[s].device), w.objs + [w.objs[s]]))
    else None
  }

  /** A move construction: the new object takes the pointers and the source is emptied. */
  function MoveOutStep(w: World, s: nat): Option<World>
  {
    if s < |w.objs| && !w.objs[s].Destroyed?
    then Some(World(w.ledger, w.objs[s := Emptied(w.objs[s])] + [w.objs[s]]))
    else None
  }

  function CopyAssignStep(w: World, t: nat, s: nat): Option<World>
  {
    if t < |w.objs| && s < |w.objs| && w.objs[t].Descriptor? && w.objs[s].Descriptor?
       && CanClean(w.ledger, w.objs[t]) && Clean(w.ledger, w.objs[t]).Alive(w.objs[s].device)
    then Some(World(Clean(w.ledger, w.objs[t]).Ref(w.objs[s].device), w.objs[t := w.objs[s]]))
    else None
  }

  /** The objects after a move assignment of s to t. */
  function MovedOver(objs: seq<Obj>, t: nat, s: nat): seq<Obj>
    requires t < |objs| && s < |objs|
  {
    objs[t := objs[s]][s := Emptied(objs[s])]
  }

  /** A move assignment: cleanup() of the target, which takes the source's pointers; the source is emptied. */
  function MoveAssignStep(w: World, t: nat, s: nat): Option<World>
  {
    if t < |w.objs| && s < |w.objs| && CanClean(w.ledger, w.objs[t])
    then Some(World(Clean(w.ledger, w.objs[t]), MovedOver(w.objs, t, s)))
    else None
  }

  /**
   * libusb_open yielding the new handle h, then the Device constructor: the handle is
   * open and the new Device holds it and one more reference on d.
   */
  function AttachStep(w: World, d: NativeDevice?, h: NativeHandle?): Option<World>
  {
    if w.ledger.Alive(d) && h != null && h !in w.ledger.open
    then Some(World(w.ledger.(open := w.ledger.open + {h}).Ref(d), w.objs + [Opened(d, h)]))
    else None
  }

  /** open() where libusb_open succeeds with the new handle h: a Device that references the device. */
  function OpenStep(w: World, s: nat, h: NativeHandle?): Option<World>
  {
    if s < |w.objs| && w.objs[s].Descriptor? then AttachStep(w, w.objs[s].device, h) else None
  }

  function DestroyStep(w: World, t: nat): Option<World>
  {
    if t < |w.objs| && CanClean(w.ledger, w.objs[t])
    then Some(World(Clean(w.ledger, w.objs[t]), w.objs[t := Destroyed]))
    else None
  }

  function Step(w: World, op: Op): Option<World>
  {
    var objs := w.objs;
    match op
    case NewDescriptor(d) => NewStep(w, d)
    case CopyDescriptor(s) => CopyStep(w, s)
    case MoveDescriptor(s) => if s < |objs| && objs[s].Descriptor? then MoveOutStep(w, s) else None
    case CopyAssign(t, s) => CopyAssignStep(w, t, s)
    case MoveAssign(t, s) =>
      if t < |objs| && s < |objs| && objs[t].Descriptor? && objs[s].Descriptor? then MoveAssignStep(w, t, s) else None
    case OpenDevice(s, h) => OpenStep(w, s, h)
    case NewDevice(d, h) => AttachStep(w, d, h)
    case MoveDevice(s) => if s < |objs| && objs[s].Opened? then MoveOutStep(w, s) else None
    case MoveAssignDevice(t, s) =>
      if t < |objs| && s < |objs| && objs[t].Opened? && objs[s].Opened? then MoveAssignStep(w, t, s) else None
    case Destroy(t) => DestroyStep(w, t)
    case Exit => if w.ledger.live then Some(World(w.ledger.(live := false), objs)) else None
  }

  function Run(w: World, ops: seq<Op>): Option<World>
    decreases |ops|
  {
    if ops == [] then Some(w)
    else match Step(w, ops[0])
      case None => None
      case Some(next) => Run(next, ops[1..])
  }

  /**
   * The balance: libusb counts the references `base` held outside the wrappers plus
   * one per pointer an object holds, and the open handles are exactly the handles the
   * objects hold, each held once.
   */
  predicate Inv(w: World, base: multiset<NativeDevice?>)
  {
    && w.ledger.counts == base + Holds(w.objs)
    && multiset(w.ledger.open) == Handles(w.objs)
  }

  /**
   * The uses of the wrappers that make only valid libusb calls while the context is live,
   * stated on the objects and not on libusb's calls: every use of a live object except
   * copying a moved-from descriptor, opening a moved-from descriptor, and self
   * copy-assignment when that object holds the only reference (libusbcc.h:99-128,
   * 233-244, 271-312).
   */
  predicate Permitted(w: World, op: Op)
  {
    var objs := w.objs;
    match op
    case NewDescriptor(d) => d != null && d in w.ledger.counts
    case CopyDescriptor(s) => s < |objs| && objs[s].Descriptor? && objs[s].device != null
    case MoveDescriptor(s) => s < |objs| && objs[s].Descriptor?
    case CopyAssign(t, s) =>
      && t < |objs| && s < |objs| && objs[t].Descriptor? && objs[s].Descriptor? && objs[s].device != null
      && (t == s ==> w.ledger.counts[objs[s].device] >= 2)
    case MoveAssign(t, s) => t < |objs| && s < |objs| && objs[t].Descriptor? && objs[s].Descriptor?
    case OpenDevice(s, h) =>
      s < |objs| && objs[s].Descriptor? && objs[s].device != null && h != null && h !in w.ledger.open
    case NewDevice(d, h) => d != null && d in w.ledger.counts && h != null && h !in w.ledger.open
    case MoveDevice(s) => s < |objs| && objs[s].Opened?
    case MoveAssignDevice(t, s) => t < |objs| && s < |objs| && objs[t].Opened? && objs[s].Opened?
    case Destroy(t) => t < |objs| && !objs[t].Destroyed?
    case Exit => true
  }

  // ---------------------------------------------------------------------------------
  // Facts about Holds and Handles, one device or handle at a time

  lemma HoldsAppend(objs: seq<Obj>, o: Obj)
    ensures Holds(objs + [o]) == Holds(objs) + Owns(o)
    ensures Handles(objs + [o]) == Handles(objs) + HandleOf(o)
  {
    assert (objs + [o])[..|objs|] == objs;
  }

  /** Replacing one object swaps its reference on e for the new object's. */
  lemma {:induction false} HoldsUpdateAt(objs: seq<Obj>, t: nat, o: Obj, e: NativeDevice?)
    requires t < |objs|
    ensures Holds(objs[t := o])[e] + Owns(objs[t])[e] == Holds(objs)[e] + Owns(o)[e]
    decreases |objs|
  {
    var n := |objs| - 1;
    var updated := objs[t := o];
    if t == n {
      assert updated[..n] == objs[..n];
      assert Holds(updated)[e] == Holds(objs[..n])[e] + Owns(o)[e];
    } else {
      assert updated[..n] == objs[..n][t := o] && updated[n] == objs[n];
      HoldsUpdateAt(objs[..n], t, o, e);
      assert Holds(updated)[e] == Holds(updated[..n])[e] + Owns(objs[n])[e];
    }
    assert Holds(objs)[e] == Holds(objs[..n])[e] + Owns(objs[n])[e];
  }

  /** Replacing one object swaps its claim on handle h for the new object's. */
  lemma {:induction false} HandlesUpdateAt(objs: seq<Obj>, t: nat, o: Obj, h: NativeHandle?)
    requires t < |objs|
    ensures Handles(objs[t := o])[h] + HandleOf(objs[t])[h] == Handles(objs)[h] + HandleOf(o)[h]
    decreases |objs|
  {
    var n := |objs| - 1;
    var updated := objs[t := o];
    if t == n {
      assert updated[..n] == objs[..n];
      assert Handles(updated)[h] == Handles(objs[..n])[h] + HandleOf(o)[h];
    } else {
      assert updated[..n] == objs[..n][t := o] && updated[n] == objs[n];
      HandlesUpdateAt(objs[..n], t, o, h);
      assert Handles(updated)[h] == Handles(updated[..n])[h] + HandleOf(objs[n])[h];
    }
    assert Handles(objs)[h] == Handles(objs[..n])[h] + HandleOf(objs[n])[h];
  }

  /** Two multisets that agree on every element are equal. */
  lemma SameElements<T>(a: multiset<T>, b: multiset<T>)
    requires forall e :: a[e] == b[e]
    ensures a == b
  {
  }

  /** cleanup() drops, device by device and handle by handle, exactly what the object held. */
  lemma CleanAt(l: Ledger, o: Obj, e: NativeDevice?, h: NativeHandle?)
    requires CanClean(l, o)
    ensures Clean(l, o).live == l.live
    ensures Clean(l, o).counts[e] + Owns(o)[e] == l.counts[e]
    ensures multiset(Clean(l, o).open)[h] + HandleOf(o)[h] == multiset(l.open)[h]
  {
    var shut := if o.Opened? then l.Shut(o.handle) else l;
    assert shut.counts == l.counts && shut.live == l.live;
    if o.Opened? && o.handle != null {
      assert shut.open == l.open - {o.handle};
    } else {
      assert shut.open == l.open;
    }
    if o.device != null {
      assert Clean(l, o).counts == l.counts - multiset{o.device};
    }
  }

  /** Once every object is destroyed, none holds anything. */
  lemma {:induction false} HoldsOfDestroyed(objs: seq<Obj>)
    requires AllDestroyed(objs)
    ensures Holds(objs) == multiset{} && Handles(objs) == multiset{}
    decreases |objs|
  {
    if objs != [] {
      HoldsOfDestroyed(objs[..|objs| - 1]);
    }
  }

  predicate AllDestroyed(objs: seq<Obj>)
  {
    forall i :: 0 <= i < |objs| ==> objs[i].Destroyed?
  }

  // ---------------------------------------------------------------------------------
  // The balance is kept by every step

  /** Appending an object whose references and handle libusb has just gained keeps the balance. */
  lemma AppendKeeps(w: World, base: multiset<NativeDevice?>, o: Obj, l: Ledger)
    requires Inv(w, base)
    requires forall e :: l.counts[e] == w.ledger.counts[e] + Owns(o)[e]
    requires forall h :: multiset(l.open)[h] == multiset(w.ledger.open)[h] + HandleOf(o)[h]
    ensures Inv(World(l, w.objs + [o]), base)
  {
    HoldsAppend(w.objs, o);
    AppendCounts(w.ledger.counts, base, Holds(w.objs), Owns(o), l.counts);
    AppendHandles(multiset(w.ledger.open), Handles(w.objs), HandleOf(o), multiset(l.open));
  }

  lemma AppendCounts(counts: multiset<NativeDevice?>, base: multiset<NativeDevice?>, held: multiset<NativeDevice?>,
                     added: multiset<NativeDevice?>, after: multiset<NativeDevice?>)
    requires counts == base + held
    requires forall e :: after[e] == counts[e] + added[e]
    ensures after == base + (held + added)
  {
    forall e ensures after[e] == (base + (held + added))[e] {
      assert counts[e] == base[e] + held[e];
    }
    SameElements(after, base + (held + added));
  }

  lemma AppendHandles(open: multiset<NativeHandle?>, held: multiset<NativeHandle?>, added: multiset<NativeHandle?>,
                      after: multiset<NativeHandle?>)
    requires open == held
    requires forall h :: after[h] == open[h] + added[h]
    ensures after == held + added
  {
    SameElements(after, held + added);
  }

  lemma NewKeeps(w: World, base: multiset<NativeDevice?>, d: NativeDevice?)
    requires Inv(w, base) && NewStep(w, d).Some?
    ensures Inv(NewStep(w, d).value, base)
  {
    AppendKeeps(w, base, Descriptor(d), w.ledger.Ref(d));
  }

  lemma CopyKeeps(w: World, base: multiset<NativeDevice?>, s: nat)
    requires Inv(w, base) && CopyStep(w, s).Some?
    ensures Inv(CopyStep(w, s).value, base)
  {
    AppendKeeps(w, base, w.objs[s], w.ledger.Ref(w.objs[s].device));
  }

  lemma AttachKeeps(w: World, base: multiset<NativeDevice?>, d: NativeDevice?, h: NativeHandle?)
    requires Inv(w, base) && AttachStep(w, d, h).Some?
    ensures Inv(AttachStep(w, d, h).value, base)
  {
    var l := w.ledger.(open := w.ledger.open + {h}).Ref(d);
    forall x ensures multiset(l.open)[x] == multiset(w.ledger.open)[x] + HandleOf(Opened(d, h))[x] {
    }
    AppendKeeps(w, base, Opened(d, h), l);
  }

  /** Moving an object out to a new one leaves the references and handles held unchanged. */
  lemma MoveOutHolds(objs: seq<Obj>, s: nat)
    requires s < |objs|
    ensures Holds(objs[s := Emptied(objs[s])] + [objs[s]]) == Holds(objs)
  {
    var o := objs[s];
    var mid := objs[s := Emptied(o)];
    assert Owns(Emptied(o)) == multiset{};
    HoldsAppend(mid, o);
    forall e ensures Holds(mid + [o])[e] == Holds(objs)[e] {
      HoldsUpdateAt(objs, s, Emptied(o), e);
    }
    SameElements(Holds(mid + [o]), Holds(objs));
  }

  lemma MoveOutHandles(objs: seq<Obj>, s: nat)
    requires s < |objs|
    ensures Handles(objs[s := Emptied(objs[s])] + [objs[s]]) == Handles(objs)
  {
    var o := objs[s];
    var mid := objs[s := Emptied(o)];
    assert HandleOf(Emptied(o)) == multiset{};
    HoldsAppend(mid, o);
    forall h ensures Handles(mid + [o])[h] == Handles(objs)[h] {
      HandlesUpdateAt(objs, s, Emptied(o), h);
    }
    SameElements(Handles(mid + [o]), Handles(objs));
  }

  lemma MoveOutKeeps(w: World, base: multiset<NativeDevice?>, s: nat)
    requires Inv(w, base) && MoveOutStep(w, s).Some?
    ensures Inv(MoveOutStep(w, s).value, base)
  {
    MoveOutHolds(w.objs, s);
    MoveOutHandles(w.objs, s);
  }

  lemma CopyAssignKeeps(w: World, base: multiset<NativeDevice?>, t: nat, s: nat)
    requires Inv(w, base) && CopyAssignStep(w, t, s).Some?
    ensures Inv(CopyAssignStep(w, t, s).value, base)
  {
    var objs := w.objs;
    var cleaned := Clean(w.ledger, objs[t]);
    var l := cleaned.Ref(objs[s].device);
    var after := objs[t := objs[s]];
    forall e ensures l.counts[e] == (base + Holds(after))[e] {
      HoldsUpdateAt(objs, t, objs[s], e);
      CleanAt(w.ledger, objs[t], e, null);
    }
    SameElements(l.counts, base + Holds(after));
    forall h ensures multiset(l.open)[h] == Handles(after)[h] {
      HandlesUpdateAt(objs, t, objs[s], h);
      CleanAt(w.ledger, objs[t], null, h);
    }
    SameElements(multiset(l.open), Handles(after));
  }

  lemma MoveAssignCounts(w: World, base: multiset<NativeDevice?>, t: nat, s: nat)
    requires Inv(w, base) && t < |w.objs| && s < |w.objs| && CanClean(w.ledger, w.objs[t])
    ensures Clean(w.ledger, w.objs[t]).counts == base + Holds(MovedOver(w.objs, t, s))
  {
    var objs := w.objs;
    var l := Clean(w.ledger, objs[t]);
    var mid := objs[t := objs[s]];
    var after := MovedOver(objs, t, s);
    assert mid[s] == objs[s] && after == mid[s := Emptied(objs[s])];
    forall e ensures l.counts[e] == (base + Holds(after))[e] {
      HoldsUpdateAt(objs, t, objs[s], e);
      HoldsUpdateAt(mid, s, Emptied(objs[s]), e);
      CleanAt(w.ledger, objs[t], e, null);
    }
    SameElements(l.counts, base + Holds(after));
  }

  lemma MoveAssignHandles(w: World, base: multiset<NativeDevice?>, t: nat, s: nat)
    requires Inv(w, base) && t < |w.objs| && s < |w.objs| && CanClean(w.ledger, w.objs[t])
    ensures multiset(Clean(w.ledger, w.objs[t]).open) == Handles(MovedOver(w.objs, t, s))
  {
    var objs := w.objs;
    var l := Clean(w.ledger, objs[t]);
    var mid := objs[t := objs[s]];
    var after := MovedOver(objs, t, s);
    assert mid[s] == objs[s] && after == mid[s := Emptied(objs[s])];
    forall h ensures multiset(l.open)[h] == Handles(after)[h] {
      HandlesUpdateAt(objs, t, objs[s], h);
      HandlesUpdateAt(mid, s, Emptied(objs[s]), h);
      CleanAt(w.ledger, objs[t], null, h);
    }
    SameElements(multiset(l.open), Handles(after));
  }

  lemma MoveAssignKeeps(w: World, base: multiset<NativeDevice?>, t: nat, s: nat)
    requires Inv(w, base) && MoveAssignStep(w, t, s).Some?
    ensures Inv(MoveAssignStep(w, t, s).value, base)
  {
    MoveAssignCounts(w, base, t, s);
    MoveAssignHandles(w, base, t, s);
  }

  lemma DestroyKeeps(w: World, base: multiset<NativeDevice?>, t: nat)
    requires Inv(w, base) && DestroyStep(w, t).Some?
    ensures Inv(DestroyStep(w, t).value, base)
  {
    var objs := w.objs;
    var l := Clean(w.ledger, objs[t]);
    var after := objs[t := Destroyed];
    forall e ensures l.counts[e] == (base + Holds(after))[e] {
      HoldsUpdateAt(objs, t, Destroyed, e);
      CleanAt(w.ledger, objs[t], e, null);
    }
    SameElements(l.counts, base + Holds(after));
    forall h ensures multiset(l.open)[h] == Handles(after)[h] {
      HandlesUpdateAt(objs, t, Destroyed, h);
      CleanAt(w.ledger, objs[t], null, h);
    }
    SameElements(multiset(l.open), Handles(after));
  }

  lemma StepPreservesInv(w: World, base: multiset<NativeDevice?>, op: Op)
    requires Inv(w, base) && Step(w, op).Some?
    ensures Inv(Step(w, op).value, base)
  {
    match op
    case NewDescriptor(d) => NewKeeps(w, base, d);
    case CopyDescriptor(s) => CopyKeeps(w, base, s);
    case MoveDescriptor(s) => MoveOutKeeps(w, base, s);
    case CopyAssign(t, s) => CopyAssignKeeps(w, base, t, s);
    case MoveAssign(t, s) => MoveAssignKeeps(w, base, t, s);
    case OpenDevice(s, h) => AttachKeeps(w, base, w.objs[s].device, h);
    case NewDevice(d, h) => AttachKeeps(w, base, d, h);
    case MoveDevice(s) => MoveOutKeeps(w, base, s);
    case MoveAssignDevice(t, s) => MoveAssignKeeps(w, base, t, s);
    case Destroy(t) => DestroyKeeps(w, base, t);
    case Exit =>
  }

  lemma {:induction false} RunPreservesInv(w: World, base: multiset<NativeDevice?>, ops: seq<Op>)
    requires Inv(w, base) && Run(w, ops).Some?
    ensures Inv(Run(w, ops).value, base)
    decreases |ops|
  {
    if ops != [] {
      StepPreservesInv(w, base, ops[0]);
      RunPreservesInv(Step(w, ops[0]).value, base, ops[1..]);
    }
  }

  /** With nothing held by any object, the balance leaves libusb with `base` and no open handle. */
  lemma BalanceOfDestroyed(w: World, base: multiset<NativeDevice?>)
    requires Inv(w, base) && AllDestroyed(w.objs)
    ensures w.ledger.counts == base && w.ledger.open == {}
  {
    HoldsOfDestroyed(w.objs);
    forall h ensures h !in w.ledger.open {
      assert multiset(w.ledger.open)[h] == 0;
    }
  }

  /**
   * Refs and unrefs balance and every handle is closed: a program that starts with no
   * wrapper and no open handle and ends with every wrapper destroyed leaves libusb's
   * counts as it found them and no handle open.
   */
  lemma Balance(start: Ledger, ops: seq<Op>)
    requires start.open == {} && Run(World(start, []), ops).Some?
    requires AllDestroyed(Run(World(start, []), ops).value.objs)
    ensures Run(World(start, []), ops).value.ledger.counts == start.counts
    ensures Run(World(start, []), ops).value.ledger.open == {}
  {
    assert multiset(start.open) == multiset{};
    RunPreservesInv(World(start, []), start.counts, ops);
    BalanceOfDestroyed(Run(World(start, []), ops).value, start.counts);
  }

  // ---------------------------------------------------------------------------------
  // The steps and the methods of Devices.DeviceDescriptor and Devices.Device agree: under
  // each method's own precondition the step is defined and leaves libusb in the state
  // that method's postcondition names.

  /** Devices.DeviceDescriptor.constructor. */
  lemma NewMatches(l: Ledger, objs: seq<Obj>, d: NativeDevice?)
    requires l.Alive(d)
    ensures Step(World(l, objs), NewDescriptor(d)) == Some(World(l.Ref(d), objs + [Descriptor(d)]))
  {
  }

  /** Devices.DeviceDescriptor.Copy. */
  lemma CopyMatches(l: Ledger, objs: seq<Obj>, s: nat)
    requires s < |objs| && objs[s].Descriptor? && l.Alive(objs[s].device)
    ensures Step(World(l, objs), CopyDescriptor(s)) == Some(World(l.Ref(objs[s].device), objs + [objs[s]]))
  {
  }

  /** Devices.DeviceDescriptor.Move and Devices.Device.Move: no native call, the source is emptied. */
  lemma MoveMatches(l: Ledger, objs: seq<Obj>, s: nat)
    requires s < |objs| && !objs[s].Destroyed?
    ensures objs[s].Descriptor? ==>
      Step(World(l, objs), MoveDescriptor(s)) == Some(World(l, objs[s := Descriptor(null)] + [objs[s]]))
    ensures objs[s].Opened? ==>
      Step(World(l, objs), MoveDevice(s)) == Some(World(l, objs[s := Opened(null, null)] + [objs[s]]))
  {
  }

  /** Devices.DeviceDescriptor.CopyAssign. */
  lemma CopyAssignMatches(l: Ledger, objs: seq<Obj>, t: nat, s: nat)
    requires t < |objs| && s < |objs| && objs[t].Descriptor? && objs[s].Descriptor?
    requires l.CanRelease(objs[t].device) && l.Release(objs[t].device).Alive(objs[s].device)
    ensures Step(World(l, objs), CopyAssign(t, s))
         == Some(World(l.Release(objs[t].device).Ref(objs[s].device), objs[t := objs[s]]))
  {
  }

  /** Devices.DeviceDescriptor.MoveAssign. */
  lemma MoveAssignMatches(l: Ledger, objs: seq<Obj>, t: nat, s: nat)
    requires t < |objs| && s < |objs| && objs[t].Descriptor? && objs[s].Descriptor?
    requires l.CanRelease(objs[t].device)
    ensures Step(World(l, objs), MoveAssign(t, s)) == Some(World(l.Release(objs[t].device), MovedOver(objs, t, s)))
  {
  }

  /** Devices.Device.MoveAssign. */
  lemma MoveAssignDeviceMatches(l: Ledger, objs: seq<Obj>, t: nat, s: nat)
    requires t < |objs| && s < |objs| && objs[t].Opened? && objs[s].Opened?
    requires l.CanShut(objs[t].handle) && l.Shut(objs[t].handle).CanRelease(objs[t].device)
    ensures Step(World(l, objs), MoveAssignDevice(t, s))
         == Some(World(l.Shut(objs[t].handle).Release(objs[t].device), MovedOver(objs, t, s)))
  {
  }

  /** Devices.DeviceDescriptor.Open where libusb_open succeeds with h. */
  lemma OpenMatches(l: Ledger, objs: seq<Obj>, s: nat, h: NativeHandle?)
    requires s < |objs| && objs[s].Descriptor? && l.Alive(objs[s].device) && h != null && h !in l.open
    ensures Step(World(l, objs), OpenDevice(s, h))
         == Some(World(l.(open := l.open + {h}).Ref(objs[s].device), objs + [Opened(objs[s].device, h)]))
  {
  }

  /** Devices.DeviceDescriptor.Destroy and Devices.Device.Destroy. */
  lemma DestroyMatches(l: Ledger, objs: seq<Obj>, t: nat)
    requires t < |objs|
    ensures objs[t].Descriptor? && l.CanRelease(objs[t].device) ==>
      Step(World(l, objs), Destroy(t)) == Some(World(l.Release(objs[t].device), objs[t := Destroyed]))
    ensures objs[t].Opened? && l.CanShut(objs[t].handle) && l.Shut(objs[t].handle).CanRelease(objs[t].device) ==>
      Step(World(l, objs), Destroy(t))
      == Some(World(l.Shut(objs[t].handle).Release(objs[t].device), objs[t := Destroyed]))
  {
  }

  // ---------------------------------------------------------------------------------
  // What the library allows is defined

  /** What a live object holds, libusb counts or has open. */
  lemma HeldIsLive(w: World, base: multiset<NativeDevice?>, t: nat)
    requires Inv(w, base) && t < |w.objs|
    ensures w.objs[t].Descriptor? && w.objs[t].device != null ==> w.ledger.counts[w.objs[t].device] >= 1
    ensures w.objs[t].Opened? && w.objs[t].device != null ==> w.ledger.counts[w.objs[t].device] >= 1
    ensures w.objs[t].Opened? && w.objs[t].handle != null ==> w.objs[t].handle in w.ledger.open
  {
    var o := w.objs[t];
    if !o.Destroyed? && o.device != null {
      HoldsUpdateAt(w.objs, t, Destroyed, o.device);
      assert w.ledger.counts[o.device] == (base + Holds(w.objs))[o.device];
    }
    if o.Opened? && o.handle != null {
      HandlesUpdateAt(w.objs, t, Destroyed, o.handle);
      assert multiset(w.ledger.open)[o.handle] == Handles(w.objs)[o.handle];
    }
  }

  /** Two different objects hold two references, even to the same device. */
  lemma HeldTwice(w: World, base: multiset<NativeDevice?>, t: nat, s: nat)
    requires Inv(w, base) && t < |w.objs| && s < |w.objs| && t != s
    requires w.objs[t].Descriptor? && w.objs[s].Descriptor? && w.objs[s].device != null
    ensures w.ledger.counts[w.objs[s].device] >= 1 + Owned(w.objs[t].device)[w.objs[s].device]
  {
    var p := w.objs[s].device;
    var mid := w.objs[t := Destroyed];
    HoldsUpdateAt(w.objs, t, Destroyed, p);
    HoldsUpdateAt(mid, s, Destroyed, p);
    assert w.ledger.counts[p] == (base + Holds(w.objs))[p];
  }

  /** cleanup() of a live object is defined while the context is live. */
  lemma CleanIsDefined(w: World, base: multiset<NativeDevice?>, t: nat)
    requires Inv(w, base) && w.ledger.live && t < |w.objs| && !w.objs[t].Destroyed?
    ensures CanClean(w.ledger, w.objs[t])
  {
    HeldIsLive(w, base, t);
  }

  lemma CopyAssignIsDefined(w: World, base: multiset<NativeDevice?>, t: nat, s: nat)
    requires Inv(w, base) && w.ledger.live && Permitted(w, CopyAssign(t, s))
    ensures CopyAssignStep(w, t, s).Some?
  {
    var p := w.objs[s].device;
    CleanIsDefined(w, base, t);
    if t != s {
      HeldTwice(w, base, t, s);
    }
    CleanAt(w.ledger, w.objs[t], p, null);
    assert Owns(w.objs[t])[p] == Owned(w.objs[t].device)[p];
  }

  /** Every permitted use, while the context is live, is a valid sequence of libusb calls. */
  lemma PermittedStepIsDefined(w: World, base: multiset<NativeDevice?>, op: Op)
    requires Inv(w, base) && w.ledger.live && Permitted(w, op)
    ensures Step(w, op).Some?
  {
    match op
    case NewDescriptor(d) =>
    case CopyDescriptor(s) => HeldIsLive(w, base, s);
    case MoveDescriptor(s) =>
    case CopyAssign(t, s) => CopyAssignIsDefined(w, base, t, s);
    case MoveAssign(t, s) => CleanIsDefined(w, base, t);
    case OpenDevice(s, h) => HeldIsLive(w, base, s);
    case NewDevice(d, h) =>
    case MoveDevice(s) =>
    case MoveAssignDevice(t, s) => CleanIsDefined(w, base, t);
    case Destroy(t) => CleanIsDefined(w, base, t);
    case Exit =>
  }

  /**
   * The converse: a use that makes only valid libusb calls is permitted, whatever the
   * state. So, while the context is live and the balance holds, a step is defined
   * exactly when it is permitted.
   */
  lemma DefinedStepIsPermitted(w: World, op: Op)
    requires Step(w, op).Some?
    ensures Permitted(w, op)
  {
    match op
    case CopyAssign(t, s) =>
      var p := w.objs[s].device;
      if t == s {
        CleanAt(w.ledger, w.objs[t], p, null);
      }
    case _ =>
  }

  /** The destructor of a moved-from object makes no native call, even after libusb_exit. */
  lemma MovedFromDestroyIsNoOp(w: World, t: nat)
    requires t < |w.objs| && w.objs[t] in {Descriptor(null), Opened(null, null)}
    ensures Step(w, Destroy(t)) == Some(World(w.ledger, w.objs[t := Destroyed]))
  {
  }

  /** Once libusb_exit has run, no step changes what libusb holds: every native call is refused. */
  lemma NothingAfterExit(w: World, op: Op)
    requires !w.ledger.live && Step(w, op).Some?
    ensures Step(w, op).value.ledger == w.ledger
  {
  }

  // ---------------------------------------------------------------------------------
  // Uses the library does not allow, and why

  /** Copying a moved-from descriptor would pass a null pointer to libusb_ref_device. */
  lemma CopyOfMovedFrom(w: World, s: nat)
    requires s < |w.objs| && w.objs[s] == Descriptor(null)
    ensures Step(w, CopyDescriptor(s)) == None
  {
  }

  /** open() on a moved-from descriptor hands libusb_open a null device: whatever handle libusb would return, the step is undefined. */
  lemma OpenOfMovedFrom(w: World, s: nat, h: NativeHandle?)
    requires s < |w.objs| && w.objs[s] == Descriptor(null)
    ensures Step(w, OpenDevice(s, h)) == None
  {
  }

  /**
   * Copy-assigning a descriptor to itself unreferences before it references again: when
   * it holds the only reference, the device is freed before libusb_ref_device is called.
   */
  lemma SelfCopyAssignOfSoleOwner(w: World, t: nat)
    requires t < |w.objs| && w.objs[t].Descriptor? && w.objs[t].device != null
    requires w.ledger.counts[w.objs[t].device] == 1
    ensures Step(w, CopyAssign(t, t)) == None
  {
    var p := w.objs[t].device;
    if w.ledger.live {
      assert w.ledger.Release(p).counts[p] == 0;
    }
  }

  // ---------------------------------------------------------------------------------
  // Tearing a session down

  /** The destructors of objects k, ..., n - 1, in that order. */
  function DestroyFrom(k: nat, n: nat): (ops: seq<Op>)
    ensures |ops| == if k <= n then n - k else 0
    decreases n - k
  {
    if k >= n then [] else [Destroy(k)] + DestroyFrom(k + 1, n)
  }


  /**
   * ~Session() as written (libusbcc.cc:345-348; libusbcc.h:341-342): its body calls
   * libusb_exit, and only then does the member destructor of the cached vector destroy
   * the descriptors.
   */
  function TeardownAsWritten(w: World): Option<World>
  {
    Run(w, [Op.Exit] + DestroyFrom(0, |w.objs|))
  }

  /** ~Session() with the descriptors destroyed while the context is still live. */
  function Teardown(w: World): Option<World>
  {
    Run(w, DestroyFrom(0, |w.objs|) + [Op.Exit])
  }

  lemma {:induction false} RunAppend(w: World, a: seq<Op>, b: seq<Op>)
    ensures Run(w, a + b) == if Run(w, a).Some? then Run(Run(w, a).value, b) else None
    decreases |a|
  {
    if a == [] {
      assert a + b == b;
    } else {
      assert (a + b)[0] == a[0] && (a + b)[1..] == a[1..] + b;
      if Step(w, a[0]).Some? {
        var next := Step(w, a[0]).value;
        RunAppend(next, a[1..], b);
        assert Run(w, a + b) == Run(next, a[1..] + b);
        assert Run(w, a) == Run(next, a[1..]);
      }
    }
  }

  /** After libusb_exit, destroying objects k.. fails at the first one that still owns a device. */
  lemma {:induction false} DestroyAfterExitFails(w: World, k: nat, j: nat)
    requires !w.ledger.live && k <= j < |w.objs| && Owns(w.objs[j]) != multiset{}
    ensures Run(w, DestroyFrom(k, |w.objs|)) == None
    decreases j - k
  {
    var ops := DestroyFrom(k, |w.objs|);
    assert ops[0] == Destroy(k) && ops[1..] == DestroyFrom(k + 1, |w.objs|);
    var next := Step(w, Destroy(k));
    if next.Some? {
      assert Owns(w.objs[k]) == multiset{};
      assert next.value.ledger == w.ledger && next.value.objs == w.objs[k := Destroyed];
      DestroyAfterExitFails(next.value, k + 1, j);
    }
  }

  /**
   * The destructor order as written makes an invalid libusb call whenever a cached
   * descriptor still holds a device: the unref comes after libusb_exit.
   */
  lemma TeardownAsWrittenFails(w: World, j: nat)
    requires w.ledger.live && j < |w.objs| && Owns(w.objs[j]) != multiset{}
    ensures TeardownAsWritten(w) == None
  {
    var ops := [Op.Exit] + DestroyFrom(0, |w.objs|);
    assert ops[0] == Op.Exit && ops[1..] == DestroyFrom(0, |w.objs|);
    DestroyAfterExitFails(World(w.ledger.(live := false), w.objs), 0, j);
  }

  /** While the context is live, destroying objects k.. in order is defined and keeps the balance. */
  lemma {:induction false} DestroyFromSucceeds(w: World, base: multiset<NativeDevice?>, k: nat)
    requires Inv(w, base) && w.ledger.live && k <= |w.objs|
    requires forall i :: k <= i < |w.objs| ==> !w.objs[i].Destroyed?
    requires forall i :: 0 <= i < k ==> w.objs[i].Destroyed?
    ensures Run(w, DestroyFrom(k, |w.objs|)).Some?
    ensures var last := Run(w, DestroyFrom(k, |w.objs|)).value;
      Inv(last, base) && last.ledger.live && AllDestroyed(last.objs)
    decreases |w.objs| - k
  {
    var ops := DestroyFrom(k, |w.objs|);
    if k == |w.objs| {
      assert ops == [];
    } else {
      assert ops[0] == Destroy(k) && ops[1..] == DestroyFrom(k + 1, |w.objs|);
      var next := DestroyOne(w, base, k);
      assert Run(w, ops) == Run(next, ops[1..]);
      DestroyFromSucceeds(next, base, k + 1);
    }
  }

  /** The destructor of one live object, while the context is live: defined, and the balance holds after it. */
  lemma DestroyOne(w: World, base: multiset<NativeDevice?>, k: nat) returns (next: World)
    requires Inv(w, base) && w.ledger.live && k < |w.objs| && !w.objs[k].Destroyed?
    ensures Step(w, Destroy(k)) == Some(next)
    ensures Inv(next, base) && next.ledger.live && next.objs == w.objs[k := Destroyed]
  {
    CleanIsDefined(w, base, k);
    DestroyKeeps(w, base, k);
    next := DestroyStep(w, k).value;
    CleanAt(w.ledger, w.objs[k], null, null);
  }

  /**
   * With the corrected order, a session whose objects are all still alive tears down
   * with valid calls only, and leaves the counts as they were before any wrapper existed,
   * no handle open, and the context gone.
   */
  lemma TeardownSucceeds(w: World, base: multiset<NativeDevice?>)
    requires Inv(w, base) && w.ledger.live
    requires forall i :: 0 <= i < |w.objs| ==> !w.objs[i].Destroyed?
    ensures Teardown(w).Some?
    ensures Teardown(w).value.ledger == Ledger(false, base, {})
  {
    var destroys := DestroyFrom(0, |w.objs|);
    DestroyFromSucceeds(w, base, 0);
    RunAppend(w, destroys, [Op.Exit]);
    BalanceOfDestroyed(Run(w, destroys).value, base);
  }
}
