/**
 What Supermap (linux-server.cpp) does to its two-level map and to the device locks, as functions on values.
 `locks` is the set of serials whose /dev/ximc handle this server holds under flock; `mutexHeld` says that a
 call has returned without releasing map_mutex.
 */
module DeviceTable {
  import opened Options
  import opened Codec

  type ConnId = UInt32
  type Serial = UInt32

  datatype Table<T> = Table(devmap: map<ConnId, map<Serial, T>>, locks: set<Serial>, mutexHeld: bool)

  predicate Has<T>(t: Table<T>, c: ConnId, s: Serial) { c in t.devmap && s in t.devmap[c] }

  function FindDevice<T>(t: Table<T>, c: ConnId, s: Serial): Option<T> {
    if Has(t, c, s) then Some(t.devmap[c][s]) else None
  }

  function Put<T>(t: Table<T>, c: ConnId, s: Serial, d: T): Table<T> {
    t.(devmap := t.devmap[c := (if c in t.devmap then t.devmap[c] else map[])[s := d]])
  }

  /** Does addDevice report the device present? `canOpen` is the kernel's word on everything but our own locks. */
  predicate AddSucceeds<T>(t: Table<T>, c: ConnId, s: Serial, canOpen: bool) {
    Has(t, c, s) || (canOpen && s !in t.locks)
  }

  /** addDevice; `d` is the freshly constructed device. A device already present makes it return with the mutex held. */
  function AddDevice<T>(t: Table<T>, c: ConnId, s: Serial, canOpen: bool, d: T): Table<T> {
    if Has(t, c, s) then t.(mutexHeld := true)
    else if canOpen && s !in t.locks then Put(t, c, s, d).(locks := t.locks + {s})
    else t
  }

  function RemoveDevice<T>(t: Table<T>, c: ConnId, s: Serial): Table<T> {
    if Has(t, c, s) then t.(devmap := t.devmap[c := t.devmap[c] - {s}], locks := t.locks - {s}) else t
  }

  function RemoveConnection<T>(t: Table<T>, c: ConnId): Table<T> {
    if c in t.devmap then t.(devmap := t.devmap - {c}, locks := t.locks - t.devmap[c].Keys) else t
  }

  // ---------------------------------------------------------------- exclusive ownership

  /** The locks held are exactly the serials in the map, and a serial belongs to one connection only. */
  ghost predicate Exclusive<T>(t: Table<T>) {
    && (forall c, s :: Has(t, c, s) ==> s in t.locks)
    && (forall s <- t.locks :: exists c :: Has(t, c, s))
    && (forall c, c', s :: Has(t, c, s) && Has(t, c', s) ==> c == c')
  }

  datatype Op<T> =
    | Add(c: ConnId, s: Serial, canOpen: bool, d: T)
    | Update(c: ConnId, s: Serial, d: T)      // a device changes its own state
    | Remove(c: ConnId, s: Serial)
    | Disconnect(c: ConnId)

  function Apply<T>(t: Table<T>, op: Op<T>): Table<T> {
    match op
    case Add(c, s, canOpen, d) => AddDevice(t, c, s, canOpen, d)
    case Update(c, s, d) => if Has(t, c, s) then Put(t, c, s, d) else t
    case Remove(c, s) => RemoveDevice(t, c, s)
    case Disconnect(c) => RemoveConnection(t, c)
  }

  function Run<T>(t: Table<T>, ops: seq<Op<T>>): Table<T>
    decreases |ops|
  {
    if ops == [] then t else Run(Apply(t, ops[0]), ops[1..])
  }

  lemma HasPut<T>(t: Table<T>, c: ConnId, s: Serial, d: T)
    ensures forall c', s' :: Has(Put(t, c, s, d), c', s') <==> Has(t, c', s') || (c' == c && s' == s)
  {
  }

  lemma HasRemove<T>(t: Table<T>, c: ConnId, s: Serial)
    ensures forall c', s' :: Has(RemoveDevice(t, c, s), c', s') <==> Has(t, c', s') && (c' != c || s' != s)
  {
  }

  lemma HasDisconnect<T>(t: Table<T>, c: ConnId)
    ensures forall c', s' :: Has(RemoveConnection(t, c), c', s') <==> Has(t, c', s') && c' != c
  {
  }

  lemma ExclusiveAdd<T>(t: Table<T>, c: ConnId, s: Serial, canOpen: bool, d: T)
    requires Exclusive(t)
    ensures Exclusive(AddDevice(t, c, s, canOpen, d))
    ensures Has(AddDevice(t, c, s, canOpen, d), c, s) <==> AddSucceeds(t, c, s, canOpen)
    ensures !AddSucceeds(t, c, s, canOpen) ==> AddDevice(t, c, s, canOpen, d) == t
  {
    HasPut(t, c, s, d);
    var t' := AddDevice(t, c, s, canOpen, d);
    if !Has(t, c, s) && canOpen && s !in t.locks {
      assert forall c', s' :: Has(t', c', s') <==> Has(Put(t, c, s, d), c', s');
      assert Has(t', c, s);
      forall s' | s' in t'.locks ensures exists c' :: Has(t', c', s') {
        if s' != s { var c' :| Has(t, c', s'); assert Has(t', c', s'); }
      }
    } else {
      assert forall c', s' :: Has(t', c', s') <==> Has(t, c', s');
    }
  }

  lemma ExclusiveUpdate<T>(t: Table<T>, c: ConnId, s: Serial, d: T)
    requires Exclusive(t) && Has(t, c, s)
    ensures Exclusive(Put(t, c, s, d))
  {
    HasPut(t, c, s, d);
    var t' := Put(t, c, s, d);
    forall s' | s' in t'.locks ensures exists c' :: Has(t', c', s') {
      var c' :| Has(t, c', s');
      assert Has(t', c', s');
    }
  }

  lemma ExclusiveRemove<T>(t: Table<T>, c: ConnId, s: Serial)
    requires Exclusive(t)
    ensures Exclusive(RemoveDevice(t, c, s))
  {
    HasRemove(t, c, s);
    var t' := RemoveDevice(t, c, s);
    forall s' | s' in t'.locks ensures exists c' :: Has(t', c', s') {
      var c' :| Has(t, c', s');
      assert Has(t', c', s');
    }
  }

  lemma ExclusiveDisconnect<T>(t: Table<T>, c: ConnId)
    requires Exclusive(t)
    ensures Exclusive(RemoveConnection(t, c))
    ensures forall c', s :: FindDevice(RemoveConnection(t, c), c', s) == if c' == c then None else FindDevice(t, c', s)
  {
    HasDisconnect(t, c);
    var t' := RemoveConnection(t, c);
    forall s' | s' in t'.locks ensures exists c' :: Has(t', c', s') {
      var c' :| Has(t, c', s');
      assert c' != c;
      assert Has(t', c', s');
    }
    forall c', s' | Has(t', c', s') ensures s' in t'.locks {
      assert Has(t, c', s') && c' != c;
      assert !Has(t, c, s');
    }
  }

  lemma ExclusiveStep<T>(t: Table<T>, op: Op<T>)
    requires Exclusive(t)
    ensures Exclusive(Apply(t, op))
  {
    match op
    case Add(c, s, canOpen, d) => ExclusiveAdd(t, c, s, canOpen, d);
    case Update(c, s, d) => if Has(t, c, s) { ExclusiveUpdate(t, c, s, d); }
    case Remove(c, s) => ExclusiveRemove(t, c, s);
    case Disconnect(c) => ExclusiveDisconnect(t, c);
  }

  /** Exclusive ownership after every history of opens, closes and disconnects, by any number of connections. */
  lemma {:induction false} OwnershipRun<T>(t: Table<T>, ops: seq<Op<T>>)
    requires Exclusive(t)
    ensures Exclusive(Run(t, ops))
    decreases |ops|
  {
    if ops != [] {
      ExclusiveStep(t, ops[0]);
      OwnershipRun(Apply(t, ops[0]), ops[1..]);
    }
  }

  /** Removal releases exactly the locks of what it removes. */
  lemma ReleasesExactly<T>(t: Table<T>, c: ConnId, s: Serial)
    requires Exclusive(t)
    ensures RemoveDevice(t, c, s).locks == t.locks - (if Has(t, c, s) then {s} else {})
    ensures RemoveConnection(t, c).locks == set s' | s' in t.locks && !Has(t, c, s')
  {
  }

  // ---------------------------------------------------------------- the flat map

  type Flat<T> = map<(ConnId, Serial), T>

  /** Some connection has the device. */
  predicate Taken<T>(f: Flat<T>, s: Serial) { exists k <- f :: k.1 == s }

  function FlatApply<T>(f: Flat<T>, op: Op<T>): Flat<T> {
    match op
    case Add(c, s, canOpen, d) => if canOpen && !Taken(f, s) then f[(c, s) := d] else f
    case Update(c, s, d) => if (c, s) in f then f[(c, s) := d] else f
    case Remove(c, s) => f - {(c, s)}
    case Disconnect(c) => map k | k in f && k.0 != c :: f[k]
  }

  function FlatRun<T>(f: Flat<T>, ops: seq<Op<T>>): Flat<T>
    decreases |ops|
  {
    if ops == [] then f else FlatRun(FlatApply(f, ops[0]), ops[1..])
  }

  /** findDevice on the nested map is a lookup in the flat one. */
  ghost predicate Agree<T>(t: Table<T>, f: Flat<T>) {
    forall c: ConnId, s: Serial :: FindDevice(t, c, s) == if (c, s) in f then Some(f[(c, s)]) else None
  }

  lemma AgreeStep<T>(t: Table<T>, f: Flat<T>, op: Op<T>)
    requires Agree(t, f) && Exclusive(t)
    ensures Agree(Apply(t, op), FlatApply(f, op))
  {
    if op.Add? { TakenIffLocked(t, f, op.s); }
    var t', f' := Apply(t, op), FlatApply(f, op);
    forall c: ConnId, s: Serial ensures FindDevice(t', c, s) == if (c, s) in f' then Some(f'[(c, s)]) else None {
      AgreeAt(t, f, op, c, s);
    }
  }

  /** Under exclusive ownership the lock set says exactly which serials are in the flat map. */
  lemma TakenIffLocked<T>(t: Table<T>, f: Flat<T>, s: Serial)
    requires Agree(t, f) && Exclusive(t)
    ensures Taken(f, s) <==> s in t.locks
  {
    if Taken(f, s) {
      var k :| k in f && k.1 == s;
      assert FindDevice(t, k.0, s) == Some(f[k]);
    }
    if s in t.locks {
      var c: ConnId :| Has(t, c, s);
      assert FindDevice(t, c, s).Some?;
      assert (c, s) in f;
    }
  }

  lemma AgreeAt<T>(t: Table<T>, f: Flat<T>, op: Op<T>, c: ConnId, s: Serial)
    requires Agree(t, f) && (op.Add? ==> (Taken(f, op.s) <==> op.s in t.locks))
    requires forall c', s' :: Has(t, c', s') ==> s' in t.locks
    ensures var t', f' := Apply(t, op), FlatApply(f, op);
            FindDevice(t', c, s) == if (c, s) in f' then Some(f'[(c, s)]) else None
  {
    assert FindDevice(t, c, s) == if (c, s) in f then Some(f[(c, s)]) else None;
    if !op.Disconnect? {
      assert FindDevice(t, op.c, op.s) == if (op.c, op.s) in f then Some(f[(op.c, op.s)]) else None;
    }
  }

  /**
   The two-level map and its locks refine a flat map of (connection, serial) pairs over every history: the flat
   machine has no locks and opens a device iff no connection has it.
   */
  lemma {:induction false} FlatRefinement<T>(t: Table<T>, f: Flat<T>, ops: seq<Op<T>>)
    requires Agree(t, f) && Exclusive(t)
    ensures Agree(Run(t, ops), FlatRun(f, ops)) && Exclusive(Run(t, ops))
    decreases |ops|
  {
    if ops != [] {
      AgreeStep(t, f, ops[0]);
      ExclusiveStep(t, ops[0]);
      FlatRefinement(Apply(t, ops[0]), FlatApply(f, ops[0]), ops[1..]);
    }
  }

  // ---------------------------------------------------------------- the mutex that is not released

  /** Some operation of the history asks to add a device that is present at that moment. */
  ghost predicate AddsTwice<T>(t: Table<T>, ops: seq<Op<T>>)
    decreases |ops|
  {
    ops != [] && ((ops[0].Add? && Has(t, ops[0].c, ops[0].s)) || AddsTwice(Apply(t, ops[0]), ops[1..]))
  }

  /** map_mutex is left locked exactly by an open request for a device its own connection already has. */
  lemma {:induction false} HeldIffAddsTwice<T>(t: Table<T>, ops: seq<Op<T>>)
    ensures Run(t, ops).mutexHeld <==> t.mutexHeld || AddsTwice(t, ops)
    decreases |ops|
  {
    if ops != [] { HeldIffAddsTwice(Apply(t, ops[0]), ops[1..]); }
  }
}
