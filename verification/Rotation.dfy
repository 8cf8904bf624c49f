/** Moving a corrupt archive aside: three renames that a power cut may keep any subset of.

    A directory has a durable state and a list of changes not yet fsynced; a crash keeps an arbitrary
    subset of those. File contents are opaque: a `Data` node is an inode. */
module Rotation {
  import opened IntSets
  import opened Options

  datatype Suffix = Db | Wal | Shm

  /** `archive.db`, or `archive.corrupt-<stamp>[-<n>].db` */
  datatype Base = Live | Aside(stamp: nat, n: nat)

  /** `<base><suffix>`, the `<base><suffix>.<k>` a file is parked under, or `archive.db.rotating` */
  datatype Name = File(base: Base, suffix: Suffix) | Parked(base: Base, suffix: Suffix, k: nat) | Marker

  datatype Node = Data(inode: nat) | Note(dest: Base)
  type Dir = map<Name, Node>

  datatype Op = Rename(src: Name, dst: Name) | Write(name: Name, node: Node) | Unlink(name: Name)

  function ApplyOp(d: Dir, op: Op): Dir {
    match op
    case Rename(src, dst) => if src in d then (d - {src})[dst := d[src]] else d
    case Write(name, node) => d[name := node]
    case Unlink(name) => d - {name}
  }

  function ApplyAll(d: Dir, ops: seq<Op>): Dir
    decreases |ops|
  {
    if ops == [] then d else ApplyAll(ApplyOp(d, ops[0]), ops[1..])
  }

  /** What a power cut leaves: the changes it happened to keep, in order. */
  function Surviving(d: Dir, ops: seq<Op>, kept: seq<bool>): Dir
    requires |kept| == |ops|
    decreases |ops|
  {
    if ops == [] then d
    else Surviving(if kept[0] then ApplyOp(d, ops[0]) else d, ops[1..], kept[1..])
  }

  function Present(d: Dir): set<Suffix> {
    set s: Suffix | File(Live, s) in d
  }

  // ---- where each file goes --------------------------------------------------------------------

  function ParkedFrom(d: Dir, base: Base, s: Suffix, k: nat): set<Name> {
    set name | name in d && name.Parked? && name.base == base && name.suffix == s && k <= name.k
  }

  function FirstFree(d: Dir, base: Base, s: Suffix, k: nat): (n: nat)
    ensures k <= n && Parked(base, s, n) !in d
    decreases |ParkedFrom(d, base, s, k)|
  {
    if Parked(base, s, k) !in d then k
    else
      assert ParkedFrom(d, base, s, k + 1) < ParkedFrom(d, base, s, k) by {
        assert Parked(base, s, k) in ParkedFrom(d, base, s, k);
      }
      SizeMonotone(ParkedFrom(d, base, s, k + 1), ParkedFrom(d, base, s, k));
      FirstFree(d, base, s, k + 1)
  }

  lemma {:induction false} FirstFreeIsFirst(d: Dir, base: Base, s: Suffix, k: nat)
    ensures forall j :: k <= j < FirstFree(d, base, s, k) ==> Parked(base, s, j) in d
    decreases |ParkedFrom(d, base, s, k)|
  {
    if Parked(base, s, k) in d {
      assert Parked(base, s, k) in ParkedFrom(d, base, s, k);
      assert ParkedFrom(d, base, s, k + 1) < ParkedFrom(d, base, s, k);
      SizeMonotone(ParkedFrom(d, base, s, k + 1), ParkedFrom(d, base, s, k));
      FirstFreeIsFirst(d, base, s, k + 1);
    }
  }

  /** The destination's own name; a taken one is never overwritten, the file is parked beside it. */
  function Target(d: Dir, dest: Base, s: Suffix): Name {
    if File(dest, s) in d then Parked(dest, s, FirstFree(d, dest, s, 1)) else File(dest, s)
  }

  /** The directory `start` with exactly the files `moved` moved to `dest`, and the marker up. */
  function Place(start: Dir, dest: Base, moved: set<Suffix>): Dir
    requires moved <= Present(start)
  {
    ((start - (set s | s in moved :: File(Live, s)))
     + (map t | t in (set s | s in moved :: Target(start, dest, s)) && t != Marker
              && File(Live, t.suffix) in start :: start[File(Live, t.suffix)]))[Marker := Note(dest)]
  }

  /** A starting point: at most one marker, and it names a moved-aside archive. */
  predicate WellFormed(d: Dir) {
    && (Marker in d ==> d[Marker].Note? && d[Marker].dest.Aside?)
    && (forall name :: name in d && name != Marker ==> d[name].Data?)
    && (forall name :: name in d && name.Parked? ==> name.base != Live)
  }

  predicate Fits(start: Dir, dest: Base) {
    && WellFormed(start) && dest.Aside?
    && (Marker in start ==> start[Marker] == Note(dest))
  }

  /** The rotation of `start` to `dest` is done: everything moved, marker gone. */
  function Done(start: Dir, dest: Base): Dir {
    Place(start, dest, Present(start)) - {Marker}
  }

  // ---- states a rotation passes through ---------------------------------------------------------

  datatype Disk = Disk(durable: Dir, pending: seq<Op>)

  function Seen(disk: Disk): Dir {
    ApplyAll(disk.durable, disk.pending)
  }

  function Renames(start: Dir, dest: Base, order: seq<Suffix>): seq<Op> {
    seq(|order|, i requires 0 <= i < |order| => Rename(File(Live, order[i]), Target(start, dest, order[i])))
  }

  function SetOf(order: seq<Suffix>): set<Suffix> {
    set s | s in order
  }

  ghost predicate Distinct(order: seq<Suffix>) {
    forall i, j :: 0 <= i < j < |order| ==> order[i] != order[j]
  }

  /** The marker is durable; some files have moved durably, the moves in `order` are not fsynced yet. */
  ghost predicate MovingVia(start: Dir, dest: Base, disk: Disk, moved: set<Suffix>, order: seq<Suffix>) {
    && moved <= Present(start) && SetOf(order) <= Present(start) && SetOf(order) !! moved && Distinct(order)
    && disk.durable == Place(start, dest, moved)
    && disk.pending == Renames(start, dest, order)
  }

  ghost predicate Moving(start: Dir, dest: Base, disk: Disk) {
    exists moved, order :: MovingVia(start, dest, disk, moved, order)
  }

  ghost predicate Ending(start: Dir, dest: Base, disk: Disk) {
    || (disk.durable == Place(start, dest, Present(start)) && disk.pending == [Unlink(Marker)])
    || disk == Disk(Done(start, dest), [])
  }

  ghost predicate Beginning(start: Dir, dest: Base, disk: Disk) {
    disk == Disk(start, []) || disk == Disk(start, [Write(Marker, Note(dest))])
  }

  ghost predicate OnTheWay(start: Dir, dest: Base, disk: Disk) {
    Fits(start, dest) && (Beginning(start, dest, disk) || Moving(start, dest, disk) || Ending(start, dest, disk))
  }

  /** The marker's write is itself not fsynced yet: an fsync failed, and the same process went on. */
  ghost predicate UnsyncedVia(start: Dir, dest: Base, disk: Disk, order: seq<Suffix>) {
    && SetOf(order) <= Present(start) && Distinct(order)
    && disk == Disk(start, [Write(Marker, Note(dest))] + Renames(start, dest, order))
  }

  ghost predicate Unsynced(start: Dir, dest: Base, disk: Disk) {
    Fits(start, dest) && exists order :: UnsyncedVia(start, dest, disk, order)
  }

  /** Either way: the marker is on disk (`raised`), or nothing is. */
  ghost predicate Via(start: Dir, dest: Base, disk: Disk, moved: set<Suffix>, order: seq<Suffix>, raised: bool) {
    if raised then MovingVia(start, dest, disk, moved, order) else moved == {} && UnsyncedVia(start, dest, disk, order)
  }

  ghost predicate Stage(start: Dir, dest: Base, disk: Disk, raised: bool) {
    if raised then Moving(start, dest, disk) else Unsynced(start, dest, disk)
  }

  ghost predicate Rotating(start: Dir, dest: Base, disk: Disk) {
    OnTheWay(start, dest, disk) || Unsynced(start, dest, disk)
  }

  // ---- Place, name by name ------------------------------------------------------------------------

  predicate LeftLive(name: Name, moved: set<Suffix>) {
    name.File? && name.base == Live && name.suffix in moved
  }

  predicate Arrived(start: Dir, dest: Base, name: Name, moved: set<Suffix>) {
    name != Marker && name.suffix in moved && name == Target(start, dest, name.suffix)
  }

  lemma PlaceAt(start: Dir, dest: Base, moved: set<Suffix>, name: Name)
    requires Fits(start, dest) && moved <= Present(start)
    ensures var d := Place(start, dest, moved);
      && (name in d <==>
          name == Marker || Arrived(start, dest, name, moved) || (name in start && !LeftLive(name, moved)))
      && (name in d ==> d[name] == if name == Marker then Note(dest)
                                   else if Arrived(start, dest, name, moved) then start[File(Live, name.suffix)]
                                   else start[name])
  {
    var arrivals := set s | s in moved :: Target(start, dest, s);
    if name != Marker {
      assert name in arrivals <==> Arrived(start, dest, name, moved) by {
        if Arrived(start, dest, name, moved) {
          assert Target(start, dest, name.suffix) in arrivals;
        }
      }
      if Arrived(start, dest, name, moved) {
        assert File(Live, name.suffix) in start;
      }
      assert LeftLive(name, moved) <==> name in (set s | s in moved :: File(Live, s));
    }
  }

  /** A target is free in `start`, and no live name. */
  lemma TargetFree(start: Dir, dest: Base, s: Suffix)
    requires dest.Aside?
    ensures var t := Target(start, dest, s);
      t !in start && t != Marker && t.suffix == s && t.base == dest
  {
  }

  lemma MoveOne(start: Dir, dest: Base, moved: set<Suffix>, s: Suffix)
    requires Fits(start, dest) && moved <= Present(start) && s in Present(start) && s !in moved
    ensures ApplyOp(Place(start, dest, moved), Rename(File(Live, s), Target(start, dest, s)))
            == Place(start, dest, moved + {s})
    ensures Target(start, dest, s) !in Place(start, dest, moved)
  {
    var before, after := Place(start, dest, moved), Place(start, dest, moved + {s});
    var src, dst := File(Live, s), Target(start, dest, s);
    TargetFree(start, dest, s);
    PlaceAt(start, dest, moved, src);
    PlaceAt(start, dest, moved, dst);
    var made := ApplyOp(before, Rename(src, dst));
    forall name
      ensures name in made <==> name in after
      ensures name in made ==> made[name] == after[name]
    {
      PlaceAt(start, dest, moved, name);
      PlaceAt(start, dest, moved + {s}, name);
    }
    assert made == after;
  }

  lemma {:induction false} FirstFreeSame(d: Dir, e: Dir, base: Base, s: Suffix, k: nat)
    requires forall j: nat :: Parked(base, s, j) in d <==> Parked(base, s, j) in e
    ensures FirstFree(d, base, s, k) == FirstFree(e, base, s, k)
    decreases |ParkedFrom(d, base, s, k)|
  {
    if Parked(base, s, k) in d {
      assert Parked(base, s, k) in ParkedFrom(d, base, s, k);
      assert ParkedFrom(d, base, s, k + 1) < ParkedFrom(d, base, s, k);
      SizeMonotone(ParkedFrom(d, base, s, k + 1), ParkedFrom(d, base, s, k));
      FirstFreeSame(d, e, base, s, k + 1);
    }
  }

  /** Looking the target up half-way gives the same name as at the start. */
  lemma TargetSame(start: Dir, dest: Base, moved: set<Suffix>, s: Suffix)
    requires Fits(start, dest) && moved <= Present(start) && s !in moved
    ensures Target(Place(start, dest, moved), dest, s) == Target(start, dest, s)
  {
    var d := Place(start, dest, moved);
    PlaceAt(start, dest, moved, File(dest, s));
    forall j: nat
      ensures Parked(dest, s, j) in d <==> Parked(dest, s, j) in start
    {
      PlaceAt(start, dest, moved, Parked(dest, s, j));
    }
    FirstFreeSame(d, start, dest, s, 1);
  }

  lemma PresentAfter(start: Dir, dest: Base, moved: set<Suffix>)
    requires Fits(start, dest) && moved <= Present(start)
    ensures Present(Place(start, dest, moved)) == Present(start) - moved
  {
    forall s: Suffix
      ensures File(Live, s) in Place(start, dest, moved) <==> File(Live, s) in start && s !in moved
    {
      PlaceAt(start, dest, moved, File(Live, s));
      if s in moved {
        TargetFree(start, dest, s);
      }
    }
  }

  // ---- whatever subset survives ---------------------------------------------------------------------

  /** Any subset of the moves is again a state of the same rotation. */
  lemma {:induction false} SurvivingMoves(start: Dir, dest: Base, moved: set<Suffix>, order: seq<Suffix>,
                                          kept: seq<bool>)
    returns (now: set<Suffix>)
    requires Fits(start, dest) && moved <= Present(start) && SetOf(order) <= Present(start)
    requires SetOf(order) !! moved && Distinct(order) && |kept| == |order|
    ensures moved <= now <= moved + SetOf(order)
    ensures Surviving(Place(start, dest, moved), Renames(start, dest, order), kept) == Place(start, dest, now)
    ensures (forall i :: 0 <= i < |kept| ==> kept[i]) ==> now == moved + SetOf(order)
    decreases |order|
  {
    if order == [] {
      now := moved;
    } else {
      var s := order[0];
      assert s in SetOf(order);
      assert Renames(start, dest, order)[1..] == Renames(start, dest, order[1..]);
      assert SetOf(order) == {s} + SetOf(order[1..]);
      assert s !in SetOf(order[1..]);
      MoveOne(start, dest, moved, s);
      now := SurvivingMoves(start, dest, if kept[0] then moved + {s} else moved, order[1..], kept[1..]);
    }
  }

  lemma {:induction false} SurvivingAll(d: Dir, ops: seq<Op>, kept: seq<bool>)
    requires |kept| == |ops| && forall i :: 0 <= i < |kept| ==> kept[i]
    ensures Surviving(d, ops, kept) == ApplyAll(d, ops)
    decreases |ops|
  {
    if ops != [] {
      SurvivingAll(ApplyOp(d, ops[0]), ops[1..], kept[1..]);
    }
  }

  /** Running, nothing crashed: all moves show. */
  lemma SeenMoving(start: Dir, dest: Base, disk: Disk, moved: set<Suffix>, order: seq<Suffix>)
    requires Fits(start, dest) && MovingVia(start, dest, disk, moved, order)
    ensures Seen(disk) == Place(start, dest, moved + SetOf(order))
  {
    var kept := seq(|order|, i => true);
    var now := SurvivingMoves(start, dest, moved, order, kept);
    SurvivingAll(disk.durable, disk.pending, kept);
  }

  lemma MarkerFirst(start: Dir, dest: Base)
    requires Fits(start, dest)
    ensures start[Marker := Note(dest)] == Place(start, dest, {})
  {
    forall name
      ensures name in start[Marker := Note(dest)] <==> name in Place(start, dest, {})
      ensures name in Place(start, dest, {}) ==> start[Marker := Note(dest)][name] == Place(start, dest, {})[name]
    {
      PlaceAt(start, dest, {}, name);
    }
  }

  lemma SeenUnsynced(start: Dir, dest: Base, disk: Disk, order: seq<Suffix>)
    requires Fits(start, dest) && UnsyncedVia(start, dest, disk, order)
    ensures Seen(disk) == Place(start, dest, SetOf(order))
  {
    MarkerFirst(start, dest);
    assert disk.pending[1..] == Renames(start, dest, order);
    var raised := Disk(Place(start, dest, {}), Renames(start, dest, order));
    SeenMoving(start, dest, raised, {}, order);
    assert {} + SetOf(order) == SetOf(order);
  }

  lemma SeenVia(start: Dir, dest: Base, disk: Disk, moved: set<Suffix>, order: seq<Suffix>, raised: bool)
    requires Fits(start, dest) && Via(start, dest, disk, moved, order, raised)
    ensures moved + SetOf(order) <= Present(start) && moved !! SetOf(order)
    ensures Seen(disk) == Place(start, dest, moved + SetOf(order))
  {
    if raised {
      SeenMoving(start, dest, disk, moved, order);
    } else {
      SeenUnsynced(start, dest, disk, order);
      assert moved + SetOf(order) == SetOf(order);
    }
  }

  lemma MoreVia(start: Dir, dest: Base, disk: Disk, moved: set<Suffix>, order: seq<Suffix>, raised: bool, s: Suffix)
    requires Via(start, dest, disk, moved, order, raised) && s in Present(start) && s !in moved && s !in SetOf(order)
    ensures SetOf(order + [s]) == SetOf(order) + {s}
    ensures Via(start, dest, Disk(disk.durable, disk.pending + [Rename(File(Live, s), Target(start, dest, s))]),
                moved, order + [s], raised)
  {
    assert Renames(start, dest, order + [s]) ==
           Renames(start, dest, order) + [Rename(File(Live, s), Target(start, dest, s))];
  }

  lemma SurvivingOne(d: Dir, op: Op, kept: seq<bool>)
    requires |kept| == 1
    ensures Surviving(d, [op], kept) == if kept[0] then ApplyOp(d, op) else d
  {
    assert [op][1..] == [] && kept[1..] == [];
    assert forall e: Dir :: Surviving(e, [], []) == e;
  }

  /** CRASH-RESUMABLE: after a power cut at any point of a rotation, with any subset of its un-fsynced
      changes kept, the directory is a state of the same rotation, to the same destination. */
  lemma CrashKeepsRotation(start: Dir, dest: Base, disk: Disk, kept: seq<bool>)
    requires OnTheWay(start, dest, disk) && |kept| == |disk.pending|
    ensures OnTheWay(start, dest, Disk(Surviving(disk.durable, disk.pending, kept), []))
  {
    var after := Disk(Surviving(disk.durable, disk.pending, kept), []);
    if Moving(start, dest, disk) {
      var moved, order :| MovingVia(start, dest, disk, moved, order);
      var now := SurvivingMoves(start, dest, moved, order, kept);
      assert MovingVia(start, dest, after, now, []);
    } else if Beginning(start, dest, disk) {
      MarkerFirst(start, dest);
      if |kept| == 1 {
        SurvivingOne(start, Write(Marker, Note(dest)), kept);
        if kept[0] {
          assert after.durable == Place(start, dest, {});
          assert MovingVia(start, dest, after, {}, []);
        }
      }
    } else if |kept| == 1 {
      SurvivingOne(disk.durable, Unlink(Marker), kept);
      if !kept[0] {
        assert MovingVia(start, dest, after, Present(start), []);
      }
    }
  }

  lemma {:induction false} UnmarkedMoves(start: Dir, dest: Base, d: Dir, order: seq<Suffix>, kept: seq<bool>)
    requires Fits(start, dest) && |kept| == |order|
    ensures Surviving(d - {Marker}, Renames(start, dest, order), kept)
            == Surviving(d, Renames(start, dest, order), kept) - {Marker}
    decreases |order|
  {
    if order != [] {
      var op := Rename(File(Live, order[0]), Target(start, dest, order[0]));
      TargetFree(start, dest, order[0]);
      assert Renames(start, dest, order)[1..] == Renames(start, dest, order[1..]);
      assert ApplyOp(d - {Marker}, op) == ApplyOp(d, op) - {Marker};
      UnmarkedMoves(start, dest, if kept[0] then ApplyOp(d, op) else d, order[1..], kept[1..]);
    }
  }

  /** The same moves kept, from the start without the marker. */
  lemma UnmarkedFrom(start: Dir, dest: Base, order: seq<Suffix>, kept: seq<bool>, now: set<Suffix>)
    requires Fits(start, dest) && |kept| == |order| && now <= Present(start)
    requires Surviving(start[Marker := Note(dest)], Renames(start, dest, order), kept) == Place(start, dest, now)
    ensures
      var d := Surviving(start, Renames(start, dest, order), kept);
      d == Place(start, dest, now) || d == Place(start, dest, now) - {Marker}
  {
    var raised := start[Marker := Note(dest)];
    if Marker in start {
      assert start == raised;
    } else {
      assert start == raised - {Marker};
      UnmarkedMoves(start, dest, raised, order, kept);
    }
  }

  /** Without the marker's fsync a power cut leaves the moves it kept, with or without the marker. */
  lemma UnsyncedSurvives(start: Dir, dest: Base, order: seq<Suffix>, kept: seq<bool>) returns (now: set<Suffix>)
    requires Fits(start, dest) && SetOf(order) <= Present(start) && Distinct(order) && |kept| == |order| + 1
    ensures now <= Present(start)
    ensures
      var d := Surviving(start, [Write(Marker, Note(dest))] + Renames(start, dest, order), kept);
      d == Place(start, dest, now) || d == Place(start, dest, now) - {Marker}
  {
    var renames := Renames(start, dest, order);
    assert ([Write(Marker, Note(dest))] + renames)[1..] == renames;
    MarkerFirst(start, dest);
    now := SurvivingMoves(start, dest, {}, order, kept[1..]);
    UnmarkedFrom(start, dest, order, kept[1..], now);
  }

  // ---- what a rotation never does, and what it leaves -----------------------------------------------

  /** Every file of `start` is still there; one that was not at the live path is still under its name. */
  ghost predicate NothingOverwritten(start: Dir, d: Dir) {
    && (forall name :: name in start && name != Marker && !(name.File? && name.base == Live) ==>
          name in d && d[name] == start[name])
    && (forall s :: File(Live, s) in start ==> exists name :: name in d && d[name] == start[File(Live, s)])
  }

  lemma PlaceOverwritesNothing(start: Dir, dest: Base, moved: set<Suffix>)
    requires Fits(start, dest) && moved <= Present(start)
    ensures NothingOverwritten(start, Place(start, dest, moved))
    ensures NothingOverwritten(start, Place(start, dest, moved) - {Marker})
  {
    var d := Place(start, dest, moved);
    forall name | name in start && name != Marker && !(name.File? && name.base == Live)
      ensures name in d && d[name] == start[name]
    {
      PlaceAt(start, dest, moved, name);
      TargetFree(start, dest, name.suffix);
    }
    forall s | File(Live, s) in start
      ensures exists name :: name in d && name != Marker && d[name] == start[File(Live, s)]
    {
      var name := if s in moved then Target(start, dest, s) else File(Live, s);
      TargetFree(start, dest, s);
      PlaceAt(start, dest, moved, name);
      assert name in d && name != Marker;
    }
    forall s | File(Live, s) in start
      ensures exists name :: name in d - {Marker} && (d - {Marker})[name] == start[File(Live, s)]
    {
      var name :| name in d && name != Marker && d[name] == start[File(Live, s)];
      assert name in d - {Marker};
    }
  }

  /** NOTHING OVERWRITTEN: at every point of a rotation, seen from the running process or after a
      power cut, every archive file exists, and none has replaced another. */
  lemma RotationOverwritesNothing(start: Dir, dest: Base, disk: Disk)
    requires OnTheWay(start, dest, disk)
    ensures NothingOverwritten(start, Seen(disk))
    ensures forall kept :: |kept| == |disk.pending| ==>
              NothingOverwritten(start, Surviving(disk.durable, disk.pending, kept))
  {
    forall kept: seq<bool> | |kept| == |disk.pending|
      ensures NothingOverwritten(start, Surviving(disk.durable, disk.pending, kept))
    {
      CrashKeepsRotation(start, dest, disk, kept);
      SettledOverwritesNothing(start, dest, Surviving(disk.durable, disk.pending, kept));
    }
    var all := seq(|disk.pending|, i => true);
    SurvivingAll(disk.durable, disk.pending, all);
  }

  lemma SettledOverwritesNothing(start: Dir, dest: Base, d: Dir)
    requires OnTheWay(start, dest, Disk(d, []))
    ensures NothingOverwritten(start, d)
  {
    if Moving(start, dest, Disk(d, [])) {
      var moved, order :| MovingVia(start, dest, Disk(d, []), moved, order);
      PlaceOverwritesNothing(start, dest, moved);
    } else if d == Done(start, dest) {
      PlaceOverwritesNothing(start, dest, Present(start));
    } else {
      forall s | File(Live, s) in start
        ensures exists name :: name in d && d[name] == start[File(Live, s)]
      {
        assert File(Live, s) in d;
      }
    }
  }

  /** Not even when the marker's fsync failed and the rotation went on in the same process. */
  lemma UnsyncedOverwritesNothing(start: Dir, dest: Base, disk: Disk)
    requires Unsynced(start, dest, disk)
    ensures NothingOverwritten(start, Seen(disk))
    ensures forall kept :: |kept| == |disk.pending| ==>
              NothingOverwritten(start, Surviving(disk.durable, disk.pending, kept))
  {
    var order :| UnsyncedVia(start, dest, disk, order);
    SeenUnsynced(start, dest, disk, order);
    PlaceOverwritesNothing(start, dest, SetOf(order));
    forall kept: seq<bool> | |kept| == |disk.pending|
      ensures NothingOverwritten(start, Surviving(disk.durable, disk.pending, kept))
    {
      var now := UnsyncedSurvives(start, dest, order, kept);
      PlaceOverwritesNothing(start, dest, now);
    }
  }

  /** ONE UNIT: a finished rotation leaves nothing and no marker at the live path, and every file that
      was there is under the destination, in its own place unless that name was already taken. */
  lemma DoneIsOneUnit(start: Dir, dest: Base)
    requires Fits(start, dest)
    ensures var d := Done(start, dest);
      && Marker !in d && Present(d) == {}
      && (forall s :: s in Present(start) ==>
            && Target(start, dest, s) in d && d[Target(start, dest, s)] == start[File(Live, s)]
            && (File(dest, s) !in start ==> Target(start, dest, s) == File(dest, s))
            && (File(dest, s) in start ==> exists k: nat ::
                  && k >= 1 && Target(start, dest, s) == Parked(dest, s, k) && Parked(dest, s, k) !in start
                  && forall j :: 1 <= j < k ==> Parked(dest, s, j) in start))
  {
    var d := Done(start, dest);
    PresentAfter(start, dest, Present(start));
    assert forall s: Suffix :: File(Live, s) in d <==> File(Live, s) in Place(start, dest, Present(start));
    forall s | s in Present(start)
      ensures Target(start, dest, s) in d && d[Target(start, dest, s)] == start[File(Live, s)]
    {
      TargetFree(start, dest, s);
      PlaceAt(start, dest, Present(start), Target(start, dest, s));
    }
    forall s | s in Present(start) && File(dest, s) in start
      ensures exists k: nat ::
                && k >= 1 && Target(start, dest, s) == Parked(dest, s, k) && Parked(dest, s, k) !in start
                && forall j :: 1 <= j < k ==> Parked(dest, s, j) in start
    {
      FirstFreeIsFirst(start, dest, s, 1);
    }
  }

  // ---- the marker must be durable before anything moves ----------------------------------------------

  /** A restart can still finish this as one unit: the marker says where to, or nothing needs it. */
  predicate Resumable(start: Dir, d: Dir) {
    Marker in d || Present(d) == Present(start) || Present(d) == {}
  }

  lemma {:induction false} SurvivingNone(d: Dir, ops: seq<Op>, kept: seq<bool>)
    requires |kept| == |ops| && forall i :: 0 <= i < |kept| ==> !kept[i]
    ensures Surviving(d, ops, kept) == d
    decreases |ops|
  {
    if ops != [] {
      SurvivingNone(d, ops[1..], kept[1..]);
    }
  }

  /** What an in-process retry risks when fsyncing the marker's directory failed and the marker is only
      in memory: some crash strands part of the archive without a marker, unless it is a single file. */
  lemma UnsyncedMarkerSplits(start: Dir, dest: Base, order: seq<Suffix>)
    requires Fits(start, dest) && Marker !in start && Distinct(order) && SetOf(order) == Present(start)
    ensures
      var ops := [Write(Marker, Note(dest))] + Renames(start, dest, order);
      (forall kept :: |kept| == |ops| ==> Resumable(start, Surviving(start, ops, kept))) <==> |order| <= 1
  {
    var renames := Renames(start, dest, order);
    var ops := [Write(Marker, Note(dest))] + renames;
    assert ops[1..] == renames;
    if |order| <= 1 {
      forall kept: seq<bool> | |kept| == |ops|
        ensures Resumable(start, Surviving(start, ops, kept))
      {
        AtMostOneMove(start, dest, order, if kept[0] then start[Marker := Note(dest)] else start, kept[1..]);
      }
    } else {
      var a, b := order[0], order[1];
      assert a in SetOf(order) && b in SetOf(order);
      var kept := [false, true] + seq(|order| - 1, i => false);
      var d := ApplyOp(start, renames[0]);
      assert kept[1..][1..] == seq(|order| - 1, i => false);
      SurvivingNone(d, renames[1..], kept[1..][1..]);
      assert Surviving(start, ops, kept) == d;
      TargetFree(start, dest, a);
      assert a !in Present(d) && b in Present(d) && Marker !in d;
      assert !Resumable(start, d);
    }
  }

  /** What a retry in the same process risks when fsyncing the marker's removal failed: it finds nothing
      to do and the caller creates the fresh archive, which a power cut can leave behind beside the old
      marker. It cannot EXACTLY WHEN the removal was on disk first. */
  lemma UnsyncedRemovalTakesFresh(start: Dir, dest: Base, disk: Disk, inode: nat)
    requires Fits(start, dest) && Ending(start, dest, disk)
    ensures
      var ops := disk.pending + [Write(File(Live, Db), Data(inode))];
      (forall kept :: |kept| == |ops| ==> FreshStays(Surviving(disk.durable, ops, kept))) <==> disk.pending == []
  {
    var create := Write(File(Live, Db), Data(inode));
    var ops := disk.pending + [create];
    DoneIsOneUnit(start, dest);
    if disk.pending == [] {
      assert ops == [create];
      forall kept: seq<bool> | |kept| == |ops|
        ensures FreshStays(Surviving(disk.durable, ops, kept))
      {
        SurvivingOne(disk.durable, create, kept);
      }
    } else {
      var d := disk.durable;
      PlaceAt(start, dest, Present(start), Marker);
      var kept := [false, true];
      assert ops[1..] == [create] && kept[1..] == [true];
      SurvivingOne(d, create, [true]);
      assert Surviving(d, ops, kept) == ApplyOp(d, create);
      assert !FreshStays(Surviving(d, ops, kept));
    }
  }

  /** A restart would not move the file at the live path: no marker is up. */
  predicate FreshStays(d: Dir) {
    File(Live, Db) in d ==> Marker !in d
  }

  /** And then the restart moves the fresh archive aside under the old destination: beside the archive
      there, or, if none was moved, to the very name that archive's log and index belong to. */
  lemma FreshMovesAside(start: Dir, dest: Base, inode: nat)
    requires Fits(start, dest)
    ensures
      var d := Place(start, dest, Present(start))[File(Live, Db) := Data(inode)];
      && Fits(d, dest) && Present(d) == {Db}
      && Present(Done(d, dest)) == {} && Target(d, dest, Db) in Done(d, dest)
      && Done(d, dest)[Target(d, dest, Db)] == Data(inode)
      && (Target(d, dest, Db) == File(dest, Db) <==> File(dest, Db) !in start && Db !in Present(start))
  {
    var placed := Place(start, dest, Present(start));
    var d := placed[File(Live, Db) := Data(inode)];
    PresentAfter(start, dest, Present(start));
    assert Present(d) == Present(placed) + {Db};
    forall name
      ensures name in placed && name != Marker ==> placed[name].Data?
      ensures name in placed && name.Parked? ==> name.base != Live
      ensures name == Marker ==> name in placed && placed[name] == Note(dest)
    {
      PlaceAt(start, dest, Present(start), name);
    }
    assert Fits(d, dest);
    DoneIsOneUnit(d, dest);
    PlaceAt(start, dest, Present(start), File(dest, Db));
  }

  lemma AtMostOneMove(start: Dir, dest: Base, order: seq<Suffix>, d: Dir, kept: seq<bool>)
    requires Fits(start, dest) && |order| <= 1 && SetOf(order) == Present(start) && |kept| == |order|
    requires d == start || d == start[Marker := Note(dest)]
    ensures Resumable(start, Surviving(d, Renames(start, dest, order), kept))
  {
    assert Present(d) == Present(start);
    if |order| == 1 {
      var s := order[0];
      TargetFree(start, dest, s);
      SurvivingOne(d, Rename(File(Live, s), Target(start, dest, s)), kept);
      assert Renames(start, dest, order) == [Rename(File(Live, s), Target(start, dest, s))];
      assert Present(start) == {s};
      var gone := ApplyOp(d, Rename(File(Live, s), Target(start, dest, s)));
      assert s in SetOf(order) && s in Present(d);
      forall t: Suffix
        ensures t !in Present(gone)
      {
        assert t in Present(start) ==> t in SetOf(order);
      }
      assert Present(gone) == {};
    }
  }

  // ---- the program -------------------------------------------------------------------------------------

  function StampTaken(d: Dir, stamp: nat, n: nat): set<Name> {
    set name | name in d && name.File? && name.base.Aside? && name.base.stamp == stamp && n <= name.base.n
  }

  predicate BaseFree(d: Dir, base: Base) {
    File(base, Db) !in d && File(base, Wal) !in d && File(base, Shm) !in d
  }

  /** The first `archive.corrupt-<stamp>[-n]` none of whose three names is taken. */
  function FreeBase(d: Dir, stamp: nat, n: nat): (base: Base)
    ensures base.Aside? && base.stamp == stamp && n <= base.n && BaseFree(d, base)
    ensures forall k :: n <= k < base.n ==> !BaseFree(d, Aside(stamp, k))
    decreases |StampTaken(d, stamp, n)|
  {
    if BaseFree(d, Aside(stamp, n)) then Aside(stamp, n)
    else
      assert StampTaken(d, stamp, n + 1) < StampTaken(d, stamp, n) by {
        var s :| File(Aside(stamp, n), s) in d;
        assert File(Aside(stamp, n), s) in StampTaken(d, stamp, n);
      }
      SizeMonotone(StampTaken(d, stamp, n + 1), StampTaken(d, stamp, n));
      FreeBase(d, stamp, n + 1)
  }

  datatype Outcome = Nothing | Moved(dest: Base) | Failed

  class ArchiveDir {
    var durable: Dir
    var pending: seq<Op>
    ghost var log: seq<Disk>       // every state the directory has been in

    ghost function View(): Disk
      reads this
    {
      Disk(durable, pending)
    }

    function Now(): Dir
      reads this
    {
      ApplyAll(durable, pending)
    }

    constructor (start: Dir)
      ensures durable == start && pending == [] && log == []
    {
      durable, pending, log := start, [], [];
    }

    /** When calm nothing fails. */
    method Change(op: Op, calm: bool) returns (ok: bool)
      modifies this
      ensures calm ==> ok
      ensures durable == old(durable)
      ensures ok ==> pending == old(pending) + [op] && log == old(log) + [View()]
      ensures !ok ==> pending == old(pending) && log == old(log)
    {
      var fails: bool := *;
      if fails && !calm {
        return false;
      }
      pending := pending + [op];
      log := log + [View()];
      ok := true;
    }

    /** Only an fsync of the directory makes its changes survive; it can fail. */
    method Fsync(calm: bool) returns (ok: bool)
      modifies this
      ensures calm ==> ok
      ensures ok ==> durable == ApplyAll(old(durable), old(pending)) && pending == [] && log == old(log) + [View()]
      ensures !ok ==> View() == old(View()) && log == old(log)
    {
      var fails: bool := *;
      if fails && !calm {
        return false;
      }
      durable, pending := ApplyAll(durable, pending), [];
      log := log + [View()];
      ok := true;
    }

    /** A power cut keeps whatever subset of the pending changes it happens to keep. */
    method PowerCut(kept: seq<bool>)
      requires |kept| == |pending|
      modifies this
      ensures durable == Surviving(old(durable), old(pending), kept) && pending == []
      ensures log == old(log) + [View()]
    {
      durable, pending := Surviving(durable, pending, kept), [];
      log := log + [View()];
    }

    ghost predicate LogOnTheWay(start: Dir, dest: Base, since: nat)
      reads this
    {
      since <= |log| && forall i :: since <= i < |log| ==> OnTheWay(start, dest, log[i])
    }

    /** With the marker on disk (`raised`), on the way; without, the unsynced states as well. */
    ghost predicate LogStages(start: Dir, dest: Base, since: nat, raised: bool)
      reads this
    {
      since <= |log| && forall i :: since <= i < |log| ==>
        OnTheWay(start, dest, log[i]) || (!raised && Unsynced(start, dest, log[i]))
    }

    /** Phase 1: name the destination durably, before anything moves. */
    method RaiseMarker(stamp: nat, calm: bool, ghost start: Dir) returns (dest: Base, ok: bool)
      requires View() == Disk(start, []) && WellFormed(start) && Marker !in start
      modifies this
      ensures calm ==> ok
      ensures dest == FreeBase(start, stamp, 0) && old(log) <= log
      ensures LogOnTheWay(start, dest, |old(log)|)
      ensures ok ==> MovingVia(start, dest, View(), {}, [])
      ensures !ok ==> Beginning(start, dest, View())
    {
      dest := FreeBase(durable, stamp, 0);
      ok := Change(Write(Marker, Note(dest)), calm);
      if ok {
        SeenOne(start, Write(Marker, Note(dest)));
        MarkerFirst(start, dest);
        ok := Fsync(calm);
        if ok {
          assert MovingVia(start, dest, View(), {}, []);
        }
      }
    }

    lemma SeenOne(d: Dir, op: Op)
      ensures ApplyAll(d, [op]) == ApplyOp(d, op)
    {
      assert [op][1..] == [];
    }

    lemma {:induction false} SeenAppend(d: Dir, ops: seq<Op>, op: Op)
      ensures ApplyAll(d, ops + [op]) == ApplyOp(ApplyAll(d, ops), op)
      decreases |ops|
    {
      if ops == [] {
        SeenOne(d, op);
        assert ops + [op] == [op];
      } else {
        assert (ops + [op])[1..] == ops[1..] + [op];
        SeenAppend(ApplyOp(d, ops[0]), ops[1..], op);
      }
    }

    /** One rename, to a name that is free now and stays free after any crash. */
    method MoveSuffix(s: Suffix, calm: bool, ghost start: Dir, dest: Base, ghost moved: set<Suffix>,
                      ghost order: seq<Suffix>, ghost raised: bool)
      returns (ok: bool, ghost now: seq<Suffix>)
      requires Fits(start, dest) && Via(start, dest, View(), moved, order, raised)
      modifies this
      ensures calm ==> ok
      ensures old(log) <= log && LogStages(start, dest, |old(log)|, raised)
      ensures Via(start, dest, View(), moved, now, raised)
      ensures ok ==> SetOf(now) == SetOf(order) + (if s in Present(start) && s !in moved then {s} else {})
      ensures !ok ==> now == order
    {
      now := order;
      SeenVia(start, dest, View(), moved, order, raised);
      PresentAfter(start, dest, moved + SetOf(order));
      if File(Live, s) !in Now() {
        assert s !in Present(start) - (moved + SetOf(order));
        return true, order;
      }
      assert s in Present(Now());
      var target := if File(dest, s) in Now() then Parked(dest, s, FirstFree(Now(), dest, s, 1)) else File(dest, s);
      TargetSame(start, dest, moved + SetOf(order), s);
      ghost var before := View();
      ok := Change(Rename(File(Live, s), target), calm);
      if ok {
        now := order + [s];
        MoreVia(start, dest, before, moved, order, raised, s);
      }
    }

    /** Phase 2: move whatever is still at the live path. */
    method MoveAll(ghost start: Dir, dest: Base, calm: bool, ghost raised: bool) returns (ok: bool)
      requires Fits(start, dest) && Stage(start, dest, View(), raised)
      modifies this
      ensures calm ==> ok
      ensures old(log) <= log && LogStages(start, dest, |old(log)|, raised)
      ensures Stage(start, dest, View(), raised)
      ensures ok ==> Seen(View()) == Place(start, dest, Present(start))
    {
      ghost var moved: set<Suffix>, order: seq<Suffix> := {}, [];
      if raised {
        moved, order :| MovingVia(start, dest, View(), moved, order);
      } else {
        order :| UnsyncedVia(start, dest, View(), order);
      }
      var suffixes := [Db, Wal, Shm];
      ok := true;
      for i := 0 to 3
        invariant old(log) <= log && LogStages(start, dest, |old(log)|, raised)
        invariant Via(start, dest, View(), moved, order, raised)
        invariant forall j :: 0 <= j < i && suffixes[j] in Present(start) ==> suffixes[j] in moved + SetOf(order)
      {
        ok, order := MoveSuffix(suffixes[i], calm, start, dest, moved, order, raised);
        if !ok {
          return;
        }
      }
      SeenVia(start, dest, View(), moved, order, raised);
      assert moved + SetOf(order) == Present(start) by {
        forall s | s in Present(start)
          ensures s in moved + SetOf(order)
        {
          assert s == suffixes[0] || s == suffixes[1] || s == suffixes[2];
        }
      }
    }

    /** Phase 3: the moves are on disk, then the marker's removal is. */
    method TakeMarkerDown(ghost start: Dir, dest: Base, calm: bool, ghost raised: bool) returns (ok: bool)
      requires Fits(start, dest) && Stage(start, dest, View(), raised)
      requires Seen(View()) == Place(start, dest, Present(start))
      modifies this
      ensures calm ==> ok
      ensures old(log) <= log && LogOnTheWay(start, dest, |old(log)|)
      ensures OnTheWay(start, dest, View()) || (!raised && View() == old(View()))
      ensures ok ==> View() == Disk(Done(start, dest), [])
      ensures !ok ==> View() == old(View()) || Moving(start, dest, View()) || Ending(start, dest, View())
    {
      ok := Fsync(calm);
      if !ok {
        return;
      }
      assert MovingVia(start, dest, View(), Present(start), []);
      ok := Change(Unlink(Marker), calm);
      if !ok {
        return;
      }
      SeenOne(durable, Unlink(Marker));
      ok := Fsync(calm);
    }

    /** `rotate_corrupt`: begin a rotation, or finish the one the marker names. If the marker it finds is
        not on disk (see UnsyncedMarkerSplits), the rotation is still finished as one as far as the process
        sees, and still overwrites nothing. */
    method RotateCorrupt(stamp: nat, calm: bool, ghost start: Dir, ghost dest: Base) returns (r: Outcome)
      requires Rotating(start, dest, View())
      requires View() == Disk(start, []) && Marker !in start ==> dest == FreeBase(start, stamp, 0)
      modifies this
      ensures old(log) <= log && LogStages(start, dest, |old(log)|, !Unsynced(start, dest, old(View())))
      ensures Rotating(start, dest, View())
      ensures !Unsynced(start, dest, old(View())) ==> OnTheWay(start, dest, View())
      ensures r.Moved? ==> r.dest == dest && View() == Disk(Done(start, dest), [])
      ensures r.Nothing? <==> Marker !in old(Now()) && forall s :: File(Live, s) !in old(Now())
      ensures r.Nothing? ==> View() == old(View())
      ensures calm ==> !r.Failed?
    {
      ghost var raised := !Unsynced(start, dest, View());
      SeenMarker(start, dest, View());
      var to: Base;
      if Marker in Now() {
        to := Now()[Marker].dest;
      } else {
        assert forall s: Suffix :: File(Live, s) in Now() ==> s in Present(Now());
        if Present(Now()) == {} {
          return Nothing;
        }
        var ok: bool;
        to, ok := RaiseMarker(stamp, calm, start);
        if !ok {
          return Failed;
        }
      }
      var ok := MoveAll(start, to, calm, raised);
      if !ok {
        return Failed;
      }
      ok := TakeMarkerDown(start, to, calm, raised);
      r := if ok then Moved(to) else Failed;
    }

    /** The marker is visible exactly while files may be on their way. */
    lemma SeenMarker(start: Dir, dest: Base, disk: Disk)
      requires Rotating(start, dest, disk)
      ensures Marker in Seen(disk) ==>
                Seen(disk)[Marker] == Note(dest) && (Moving(start, dest, disk) || Unsynced(start, dest, disk))
      ensures Marker !in Seen(disk) ==>
                !Unsynced(start, dest, disk)
                && ((disk == Disk(start, []) && Marker !in start)
                    || (Ending(start, dest, disk) && Present(Seen(disk)) == {}))
    {
      if Unsynced(start, dest, disk) {
        var order :| UnsyncedVia(start, dest, disk, order);
        SeenUnsynced(start, dest, disk, order);
        return;
      }
      if disk == Disk(start, [Write(Marker, Note(dest))]) {
        assert Renames(start, dest, []) == [];
        assert UnsyncedVia(start, dest, disk, []);
      }
      if disk == Disk(start, []) && Marker in start {
        MarkerFirst(start, dest);
        assert start[Marker := Note(dest)] == start;
        assert MovingVia(start, dest, disk, {}, []);
      }
      if Moving(start, dest, disk) {
        var moved, order :| MovingVia(start, dest, disk, moved, order);
        SeenMoving(start, dest, disk, moved, order);
      } else if Ending(start, dest, disk) {
        SeenOne(disk.durable, Unlink(Marker));
        DoneIsOneUnit(start, dest);
      }
    }

    /** `reopen_fresh`: rotate, look again, and only then create the fresh database. */
    method ReopenFresh(stamp: nat, inode: nat, calm: bool, ghost start: Dir, ghost dest: Base)
      returns (created: bool, ghost empty: Dir)
      requires Rotating(start, dest, View())
      requires View() == Disk(start, []) && Marker !in start ==> dest == FreeBase(start, stamp, 0)
      modifies this
      ensures calm ==> created
      ensures !created ==> Rotating(start, dest, View())
      ensures !created && !Unsynced(start, dest, old(View())) ==> OnTheWay(start, dest, View())
      // what the fresh database was created over: no marker, no sidecar of another archive
      ensures created ==> Marker !in empty && Present(empty) == {} && NothingOverwritten(start, empty)
      ensures created ==> Now() == empty[File(Live, Db) := Data(inode)]
      // and if the rotation was not finished just now, its marker may still be on disk
      ensures created ==>
              durable == Done(start, dest) || View().pending == old(pending) + [Write(File(Live, Db), Data(inode))]
    {
      empty := Now();
      var r := RotateCorrupt(stamp, calm, start, dest);
      empty := Now();
      if r.Failed? || Present(Now()) != {} || Marker in Now() {
        return false, empty;
      }
      if r.Nothing? {
        SeenMarker(start, dest, View());
      }
      RotationOverwritesNothing(start, dest, View());
      created := Change(Write(File(Live, Db), Data(inode)), calm);
      SeenAppend(durable, pending[..|pending| - (if created then 1 else 0)], Write(File(Live, Db), Data(inode)));
    }

    lemma NotUnsynced(start: Dir, dest: Base, disk: Disk)
      requires disk.pending == []
      ensures !Unsynced(start, dest, disk)
    {
    }

    /** Attempts, each possibly cut short by a power cut that keeps some subset of the changes. */
    method RotateThroughPowerCuts(stamps: seq<nat>, calm: bool, ghost start: Dir)
      returns (r: Outcome, ghost dest: Base)
      requires View() == Disk(start, []) && WellFormed(start) && log == []
      modifies this
      ensures r.Moved? ==> Fits(start, r.dest) && View() == Disk(Done(start, r.dest), [])
      ensures forall i :: 0 <= i < |log| ==> NothingOverwritten(start, Seen(log[i]))
      ensures exists to :: OnTheWay(start, to, View())
      ensures calm && stamps != [] ==> !r.Failed?
    {
      r := Failed;
      dest := if Marker in start then start[Marker].dest else FreeBase(start, 0, 0);
      for i := 0 to |stamps|
        invariant r.Failed? && OnTheWay(start, dest, View()) && pending == [] && (calm ==> i == 0)
        invariant forall j :: 0 <= j < |log| ==> NothingOverwritten(start, Seen(log[j]))
      {
        if View() == Disk(start, []) && Marker !in start {
          dest := FreeBase(start, stamps[i], 0);
        }
        ghost var before := log;
        NotUnsynced(start, dest, View());
        r := RotateCorrupt(stamps[i], calm, start, dest);
        forall j | |before| <= j < |log|
          ensures NothingOverwritten(start, Seen(log[j]))
        {
          RotationOverwritesNothing(start, dest, log[j]);
        }
        assert forall j :: 0 <= j < |before| ==> log[j] == before[j];
        if !r.Failed? {
          return;
        }
        var kept: seq<bool> := *;
        if |kept| != |pending| {
          kept := seq(|pending|, k => false);
        }
        CrashKeepsRotation(start, dest, View(), kept);
        PowerCut(kept);
        RotationOverwritesNothing(start, dest, View());
      }
    }
  }
}
