/** The backup store: sets of artifacts that may point into older sets, and a prune that deletes only
    what nothing standing points at, whatever fails on the way.

    A hash stands for the bytes it is the hash of. Every put and delete is durable when it returns. */
module Backup {
  import opened IntSets
  import opened Retention
  import opened Options

  datatype Name = Artifact(id: nat) | Index | Manifest
  datatype Key = Key(folder: int, name: Name)

  /** One line of an INDEX: what the artifact is, and which set holds its bytes. */
  datatype Entry = Entry(id: nat, contentKey: int, bytes: int, storedIn: int)

  /** A garbled upload of bytes is other bytes; a garbled INDEX does not parse. */
  datatype Object = Bytes(bytes: int) | IndexFile(entries: seq<Entry>) | Unparsable | ManifestFile
  type Store = map<Key, Object>

  predicate Complete(store: Store, n: int) {
    Key(n, Index) in store && store[Key(n, Index)].IndexFile?
  }

  function EntriesOf(store: Store, n: int): seq<Entry>
    requires Complete(store, n)
  {
    store[Key(n, Index)].entries
  }

  predicate Holds(store: Store, e: Entry) {
    Key(e.storedIn, Artifact(e.id)) in store && store[Key(e.storedIn, Artifact(e.id))] == Bytes(e.bytes)
  }

  /** A set can be restored in full. */
  ghost predicate SetRestorable(store: Store, n: int)
    requires Complete(store, n)
  {
    forall e :: e in EntriesOf(store, n) ==> Holds(store, e)
  }

  /** Every set with an INDEX can be restored in full, but the spoiled ones, and none points at nothing. */
  ghost predicate Restorable(store: Store, spoiled: set<int>) {
    && (forall n, e :: Complete(store, n) && e in EntriesOf(store, n) ==> Key(e.storedIn, Artifact(e.id)) in store)
    && (forall n, e :: n !in spoiled && Complete(store, n) && e in EntriesOf(store, n) ==> Holds(store, e))
  }

  function Sets(store: Store): set<int> {
    set k | k in store :: k.folder
  }

  function CompleteSets(store: Store): set<int> {
    set n | n in Sets(store) && Complete(store, n)
  }

  lemma CompleteIffListed(store: Store, n: int)
    ensures n in CompleteSets(store) <==> Complete(store, n)
  {
    if Complete(store, n) {
      assert Key(n, Index) in store;
    }
  }

  /** Some INDEX does not parse. */
  ghost predicate Garbled(store: Store) {
    exists n :: Key(n, Index) in store && !store[Key(n, Index)].IndexFile?
  }

  /** Begun and not finished: no INDEX. */
  predicate Unfinished(store: Store, n: int) {
    Key(n, Index) !in store
  }

  /** What one producer came back with. */
  datatype Produced = Broke | NothingToStore | Made(contentKey: int, bytes: int)

  /** Some standing INDEX needs this object, or it is that set's own INDEX or manifest. */
  ghost predicate PointedAt(standing: map<int, seq<Entry>>, k: Key) {
    exists n :: n in standing &&
      (k == Key(n, Index) || k == Key(n, Manifest)
       || exists e :: e in standing[n] && k == Key(e.storedIn, Artifact(e.id)))
  }

  /** A complete set points at this object. */
  ghost predicate Needed(store: Store, k: Key) {
    exists n, e :: Complete(store, n) && e in EntriesOf(store, n) && k == Key(e.storedIn, Artifact(e.id))
  }

  /** What an INDEX owes a producer: nothing broken, and an entry for whatever it made. */
  ghost predicate Listed(p: (nat, Produced), entries: seq<Entry>) {
    match p.1
    case Broke => false
    case NothingToStore => true
    case Made(contentKey, _) => exists e :: e in entries && e.id == p.0 && e.contentKey == contentKey
  }

  /** Two producers of one name made different bytes; the second upload replaces the first. */
  ghost predicate Clash(producers: seq<(nat, Produced)>) {
    exists i, j :: 0 <= i < j < |producers| && Clashing(producers[i], producers[j])
  }

  predicate Clashing(p: (nat, Produced), q: (nat, Produced)) {
    p.0 == q.0 && p.1.Made? && q.1.Made? && p.1.bytes != q.1.bytes
  }

  ghost predicate AnyBroke(producers: seq<(nat, Produced)>) {
    exists i :: 0 <= i < |producers| && producers[i].1.Broke?
  }

  /** `{a["name"]: a for a in artifacts}[id]`: the last entry of that name. */
  function LastWithId(entries: seq<Entry>, id: nat): (r: Option<Entry>)
    ensures r.Some? ==> r.value in entries && r.value.id == id
    ensures r.Some? ==> exists i :: 0 <= i < |entries| && entries[i] == r.value
                                    && forall j :: i < j < |entries| ==> entries[j].id != id
    ensures r.None? ==> forall e :: e in entries ==> e.id != id
  {
    if entries == [] then None
    else
      var last := entries[|entries| - 1];
      if last.id == id then Some(last) else LastWithId(entries[..|entries| - 1], id)
  }

  datatype Job = BackUp(now: int, producers: seq<(nat, Produced)>) | PruneNow(rules: seq<Rule>, minAge: int, now: int)

  class Destination {
    var store: Store
    ghost var log: seq<Store>          // every state of the store
    ghost var spoiled: set<int>        // sets in which two producers of one name clashed

    constructor ()
      ensures store == map[] && log == [] && spoiled == {}
    {
      store, log, spoiled := map[], [], {};
    }

    ghost predicate LogRestorable(since: nat)
      reads this
    {
      since <= |log| && forall i :: since <= i < |log| ==> Restorable(log[i], spoiled)
    }

    /** Upload one artifact. Unless the day is calm it may fail, or arrive as other bytes. */
    method PutArtifact(n: int, id: nat, bytes: int, calm: bool) returns (ok: bool)
      modifies this`store, this`log
      ensures calm ==> ok && store == old(store)[Key(n, Artifact(id)) := Bytes(bytes)]
      ensures ok ==> exists got :: store == old(store)[Key(n, Artifact(id)) := Bytes(got)]
      ensures !ok ==> store == old(store)
      ensures log == old(log) + [store]
    {
      var arrives: bool := *;
      ok := false;
      if calm || arrives {
        var got: int := *;
        if calm {
          got := bytes;
        }
        store := store[Key(n, Artifact(id)) := Bytes(got)];
        ok := true;
      }
      log := log + [store];
    }

    method PutManifest(n: int, calm: bool) returns (ok: bool)
      modifies this`store, this`log
      ensures calm ==> ok
      ensures store == if ok then old(store)[Key(n, Manifest) := ManifestFile] else old(store)
      ensures log == old(log) + [store]
    {
      ok := *;
      ok := ok || calm;
      if ok {
        store := store[Key(n, Manifest) := ManifestFile];
      }
      log := log + [store];
    }

    method PutIndex(n: int, entries: seq<Entry>, calm: bool) returns (ok: bool)
      modifies this`store, this`log
      ensures calm ==> ok
      ensures store == old(store) || store == old(store)[Key(n, Index) := Unparsable]
              || store == old(store)[Key(n, Index) := IndexFile(entries)]
      ensures ok ==> store == old(store)[Key(n, Index) := IndexFile(entries)]
      ensures log == old(log) + [store]
    {
      ok := false;
      if calm {
        store, ok := store[Key(n, Index) := IndexFile(entries)], true;
      } else if * {
        store := store[Key(n, Index) := Unparsable];        // uploaded, but not what was sent
      } else if * {
        store := store[Key(n, Index) := IndexFile(entries)];
        ok := *;                                            // the read-back may still fail
      }
      log := log + [store];
    }

    /** Delete one object; a retention policy may refuse. */
    method Delete(key: Key, calm: bool) returns (ok: bool)
      modifies this`store, this`log
      ensures calm ==> ok
      ensures store == if ok then old(store) - {key} else old(store)
      ensures log == old(log) + [store]
    {
      ok := *;
      ok := ok || calm;
      if ok {
        store := store - {key};
      }
      log := log + [store];
    }

    /** Every set and its INDEX, or a failure: a read error, or an INDEX that does not parse. */
    method ReadIndexes(calm: bool) returns (ok: bool, snapshot: map<int, Option<seq<Entry>>>)
      ensures Garbled(store) ==> !ok
      ensures calm && !Garbled(store) ==> ok
      ensures ok ==> snapshot.Keys == Sets(store)
      ensures ok ==> forall n :: n in snapshot ==>
                (snapshot[n].Some? <==> Complete(store, n))
                    && (snapshot[n].Some? ==> snapshot[n].value == EntriesOf(store, n))
      ensures ok ==> forall n :: n in snapshot && snapshot[n].None? ==> Key(n, Index) !in store
    {
      var readable: bool := *;
      ok, snapshot := false, map[];
      if !readable && !calm {
        return;
      }
      if exists n :: n in Sets(store) && Key(n, Index) in store && !store[Key(n, Index)].IndexFile? {
        return;
      }
      ok := true;
      snapshot := map n | n in Sets(store) :: if Complete(store, n) then Some(EntriesOf(store, n)) else None;
      forall n
        ensures !(Key(n, Index) in store && !store[Key(n, Index)].IndexFile?)
      {
        assert Key(n, Index) in store ==> Key(n, Index).folder in Sets(store);
      }
    }

    // ---- backup ----------------------------------------------------------------------------------

    /** Nothing standing points into this set yet. */
    ghost predicate Unreferenced(n: int)
      reads this
    {
      forall m, e :: Complete(store, m) && e in EntriesOf(store, m) ==> e.storedIn != n
    }

    /** Only the new set's own objects have changed. */
    ghost predicate OthersUntouched(was: Store, n: int)
      reads this
    {
      forall k: Key :: k.folder != n ==> (k in store <==> k in was) && (k in was ==> store[k] == was[k])
    }

    lemma PutKeepsRestorable(was: Store, n: int)
      requires Restorable(was, spoiled) && OthersUntouched(was, n) && !Complete(was, n) && !Complete(store, n)
      requires forall m, e :: Complete(was, m) && e in EntriesOf(was, m) ==> e.storedIn != n
      ensures Restorable(store, spoiled) && Unreferenced(n)
    {
      forall m, e | Complete(store, m) && e in EntriesOf(store, m)
        ensures Key(e.storedIn, Artifact(e.id)) in store && (m in spoiled || Holds(store, e)) && e.storedIn != n
      {
        assert m != n && Key(m, Index) in was && store[Key(m, Index)] == was[Key(m, Index)];
        assert Complete(was, m) && e in EntriesOf(was, m) && (m in spoiled || Holds(was, e));
        var k := Key(e.storedIn, Artifact(e.id));
        assert k in store && store[k] == was[k];
      }
    }

    /** An unchanged artifact is pointed at, a changed one stored and read back. Not `reachable`: older copies
        cannot be looked at, which counts as "not there". */
    method StoreOne(n: int, id: nat, contentKey: int, bytes: int, prev: seq<Entry>, calm: bool, reachable: bool)
      returns (ok: bool, e: Entry)
      requires Restorable(store, spoiled) && Unreferenced(n) && !Complete(store, n)
      requires forall e :: e in prev ==> e.storedIn != n
      modifies this`store, this`log
      ensures Restorable(store, spoiled) && Unreferenced(n) && !Complete(store, n)
      ensures OthersUntouched(old(store), n)
      ensures forall other :: other != id ==> SameArtifact(old(store), n, other)
      ensures ok ==>
              SameArtifact(old(store), n, id)
              || (Key(n, Artifact(id)) in store && store[Key(n, Artifact(id))] == Bytes(bytes))
      ensures ok ==> e.id == id && e.contentKey == contentKey && Holds(store, e)
                     && (if e.storedIn == n then e.bytes == bytes else e in prev)
      // unchanged and there: nothing is uploaded; else, if nothing fails, it is
      ensures Unchanged(old(store), prev, id, contentKey) && reachable ==>
                ok && e in prev && store == old(store)
      ensures calm && !(Unchanged(old(store), prev, id, contentKey) && reachable) ==>
                ok && e == Entry(id, contentKey, bytes, n)
      ensures old(log) <= log && LogRestorable(|old(log)|)
    {
      e := Entry(id, contentKey, bytes, n);
      var known := LastWithId(prev, id);
      if known.Some? && known.value.contentKey == contentKey && reachable && Holds(store, known.value) {
        return true, known.value;
      }
      ghost var was := store;
      ok := PutArtifact(n, id, bytes, calm);
      PutKeepsRestorable(was, n);
      ok := ok && Holds(store, e);
    }

    /** The previous set's last entry of this name has the same content, and its object is really there. */
    static ghost predicate Unchanged(st: Store, prev: seq<Entry>, id: nat, contentKey: int) {
      exists i :: 0 <= i < |prev| && prev[i].id == id && (forall j :: i < j < |prev| ==> prev[j].id != id)
                  && prev[i].contentKey == contentKey && Holds(st, prev[i])
    }

    ghost predicate SameArtifact(was: Store, n: int, id: nat)
      reads this
    {
      var k := Key(n, Artifact(id));
      (k in store <==> k in was) && (k in store ==> store[k] == was[k])
    }

    /** An entry made in this run: its bytes are those of some producer of its name. */
    static ghost predicate FromOne(e: Entry, n: int, producers: seq<(nat, Produced)>, upTo: nat)
      requires upTo <= |producers|
    {
      e.storedIn == n ==> exists j :: 0 <= j < upTo && producers[j].0 == e.id && producers[j].1.Made?
                                      && producers[j].1.bytes == e.bytes
    }

    /** What is listed so far is still there after one more artifact of this run. */
    lemma StillHeld(was: Store, n: int, producers: seq<(nat, Produced)>, i: nat, x: Entry)
      requires i < |producers| && producers[i].1.Made? && !Clash(producers)
      requires Holds(was, x) && FromOne(x, n, producers, i) && OthersUntouched(was, n)
      requires forall other :: other != producers[i].0 ==> SameArtifact(was, n, other)
      requires SameArtifact(was, n, producers[i].0) || HasBytes(n, producers[i])
      ensures Holds(store, x)
    {
      if x.storedIn == n && x.id == producers[i].0 {
        var j :| 0 <= j < i && producers[j].0 == x.id && producers[j].1.Made? && producers[j].1.bytes == x.bytes;
        assert !Clashing(producers[j], producers[i]);
      } else if x.storedIn == n {
        assert SameArtifact(was, n, x.id);
      } else {
        assert Key(x.storedIn, Artifact(x.id)).folder != n;
      }
    }

    predicate HasBytes(n: int, p: (nat, Produced))
      requires p.1.Made?
      reads this
    {
      Key(n, Artifact(p.0)) in store && store[Key(n, Artifact(p.0))] == Bytes(p.1.bytes)
    }

    /** One set. INDEX goes last, and only over a set in which nothing failed. `calm`: nothing is killed,
        and every upload arrives. `reachable`: older copies can be looked at. */
    method RunBackup(now: int, producers: seq<(nat, Produced)>, calm: bool, reachable: bool) returns (done: bool)
      requires Restorable(store, spoiled)
      modifies this
      ensures Restorable(store, spoiled) && old(log) <= log && LogRestorable(|old(log)|)
      ensures spoiled == old(spoiled) || (spoiled == old(spoiled) + {now} && Clash(producers) && !AnyBroke(producers))
      ensures now in Sets(old(store)) ==> store == old(store)
      ensures OthersUntouched(old(store), now)
      ensures done ==> now !in Sets(old(store)) && Complete(store, now)
      // an INDEX is written over a whole set only: no failure, the manifest there, every producer listed, nothing else
      ensures now !in Sets(old(store)) && Complete(store, now) ==>
                && !AnyBroke(producers) && Key(now, Manifest) in store && OnlyMade(producers, EntriesOf(store, now))
                && forall i :: 0 <= i < |producers| ==> Listed(producers[i], EntriesOf(store, now))
      ensures calm && now !in Sets(old(store)) && !AnyBroke(producers) ==> done
      // and a clash is what spoils the new set: with nothing to point at it always does
      ensures calm && !reachable && now !in Sets(old(store)) && !AnyBroke(producers) ==>
                (SetRestorable(store, now) <==> !Clash(producers))
      // if nothing has changed since the newest set, no artifact is uploaded
      ensures reachable && now !in Sets(old(store)) ==>
                forall n :: Newest(old(store), n) && NothingChanged(old(store), EntriesOf(old(store), n), producers) ==>
                  forall id :: Key(now, Artifact(id)) !in store
    {
      done := false;
      if now in Sets(store) {
        return;
      }
      NewFolder(now);
      var read, prev := NewestEntries(calm);
      if !read {
        return;
      }
      NewestAre(store, prev);
      if Clash(producers) && !AnyBroke(producers) {
        spoiled := spoiled + {now};
      }
      done := NewSet(now, producers, prev, calm, reachable);
      NothingThere(old(store), now);
    }

    static lemma NewestAre(st: Store, prev: seq<Entry>)
      requires CompleteSets(st) != {} ==>
                 exists n :: Complete(st, n) && prev == EntriesOf(st, n) && forall m :: Complete(st, m) ==> m <= n
      ensures forall n :: Newest(st, n) ==> prev == EntriesOf(st, n)
    {
      forall n | Newest(st, n)
        ensures prev == EntriesOf(st, n)
      {
        CompleteIffListed(st, n);
        var m :| Complete(st, m) && prev == EntriesOf(st, m) && forall k :: Complete(st, k) ==> k <= m;
        assert m <= n && n <= m;
      }
    }

    lemma NothingThere(was: Store, n: int)
      requires n !in Sets(was)
      ensures forall k: Key :: k in was ==> k.folder != n
    {
      forall k: Key | k in was
        ensures k.folder != n
      {
        assert k.folder in Sets(was);
      }
    }

    static ghost predicate Newest(st: Store, n: int) {
      Complete(st, n) && forall m :: Complete(st, m) ==> m <= n
    }

    static ghost predicate NothingChanged(st: Store, prev: seq<Entry>, producers: seq<(nat, Produced)>) {
      forall i :: 0 <= i < |producers| && producers[i].1.Made? ==>
        Unchanged(st, prev, producers[i].0, producers[i].1.contentKey)
    }

    /** The INDEX lists nothing but what some producer made. */
    static ghost predicate OnlyMade(producers: seq<(nat, Produced)>, entries: seq<Entry>) {
      forall e :: e in entries ==> exists j :: 0 <= j < |producers| && MadeAs(producers[j], e)
    }

    static predicate MadeAs(p: (nat, Produced), e: Entry) {
      p.1.Made? && p.0 == e.id && p.1.contentKey == e.contentKey
    }

    method NewSet(now: int, producers: seq<(nat, Produced)>, prev: seq<Entry>, calm: bool, reachable: bool)
      returns (done: bool)
      requires Restorable(store, spoiled) && Unreferenced(now) && !Complete(store, now)
      requires forall e :: e in prev ==> e.storedIn != now
      requires Clash(producers) && !AnyBroke(producers) ==> now in spoiled
      modifies this`store, this`log
      ensures Restorable(store, spoiled) && old(log) <= log && LogRestorable(|old(log)|)
      ensures OthersUntouched(old(store), now)
      ensures done ==> Complete(store, now)
      ensures Complete(store, now) ==>
                && !AnyBroke(producers) && Key(now, Manifest) in store && OnlyMade(producers, EntriesOf(store, now))
                && forall i :: 0 <= i < |producers| ==> Listed(producers[i], EntriesOf(store, now))
      ensures calm && !AnyBroke(producers) ==> done
      ensures calm && !reachable && !AnyBroke(producers) ==> (SetRestorable(store, now) <==> !Clash(producers))
      ensures reachable && NothingChanged(old(store), prev, producers) ==> NoArtifactAdded(old(store), now)
    {
      done := false;
      var alive, failures, entries := MakeAll(now, producers, prev, calm, reachable);
      if !alive || failures > 0 {
        return;                                            // left without INDEX
      }
      NoneBroke(now, producers, entries);
      done := Finish(now, producers, entries, calm, reachable);
    }

    ghost predicate NoArtifactAdded(was: Store, n: int)
      reads this
    {
      forall id :: Key(n, Artifact(id)) in store ==> Key(n, Artifact(id)) in was
    }

    /** The producers in turn. Not alive: killed on the way. */
    method MakeAll(now: int, producers: seq<(nat, Produced)>, prev: seq<Entry>, calm: bool, reachable: bool)
      returns (alive: bool, failures: nat, entries: seq<Entry>)
      requires Restorable(store, spoiled) && Unreferenced(now) && !Complete(store, now)
      requires forall e :: e in prev ==> e.storedIn != now
      modifies this`store, this`log
      ensures Restorable(store, spoiled) && Unreferenced(now) && !Complete(store, now)
      ensures OthersUntouched(old(store), now)
      ensures old(log) <= log && LogRestorable(|old(log)|)
      ensures alive && failures == 0 ==> Progress(now, producers, |producers|, entries)
      ensures OnlyMade(producers, entries)
      ensures calm && !AnyBroke(producers) ==> alive && failures == 0
      ensures calm && !reachable && !AnyBroke(producers) ==> AllNew(now, producers, |producers|, entries)
      ensures reachable && NothingChanged(old(store), prev, producers) ==> store == old(store)
    {
      alive, failures, entries := true, 0, [];
      for i := 0 to |producers|
        invariant alive && Restorable(store, spoiled) && Unreferenced(now) && !Complete(store, now)
        invariant OthersUntouched(old(store), now)
        invariant old(log) <= log && LogRestorable(|old(log)|)
        invariant failures == 0 ==> Progress(now, producers, i, entries)
        invariant MadeBy(producers, i, entries)
        invariant calm && !AnyBroke(producers) ==> failures == 0
        invariant calm && !reachable && !AnyBroke(producers) ==> AllNew(now, producers, i, entries)
        invariant reachable && NothingChanged(old(store), prev, producers) ==> store == old(store)
      {
        var killed: bool := *;
        if killed && !calm {
          return false, failures, entries;
        }
        failures, entries := OneProducer(now, producers, i, prev, failures, entries, calm, reachable);
      }
    }

    method OneProducer(now: int, producers: seq<(nat, Produced)>, i: nat, prev: seq<Entry>, failed: nat,
                       entries: seq<Entry>, calm: bool, reachable: bool)
      returns (failures: nat, more: seq<Entry>)
      requires i < |producers|
      requires Restorable(store, spoiled) && Unreferenced(now) && !Complete(store, now)
      requires forall e :: e in prev ==> e.storedIn != now
      requires (failed == 0 ==> Progress(now, producers, i, entries)) && MadeBy(producers, i, entries)
      modifies this`store, this`log
      ensures Restorable(store, spoiled) && Unreferenced(now) && !Complete(store, now)
      ensures OthersUntouched(old(store), now)
      ensures old(log) <= log && LogRestorable(|old(log)|)
      ensures failed <= failures && (failures == 0 ==> Progress(now, producers, i + 1, more))
      ensures MadeBy(producers, i + 1, more)
      ensures calm && !producers[i].1.Broke? ==> failures == failed
      ensures calm && !reachable && !producers[i].1.Broke? && AllNew(now, producers, i, entries) ==>
                AllNew(now, producers, i + 1, more)
      ensures reachable && NothingChanged(old(store), prev, producers) ==> store == old(store)
    {
      failures, more := failed, entries;
      match producers[i].1
      case Broke =>
        failures := failures + 1;
      case NothingToStore =>
        if failed == 0 {
          SkipOne(now, producers, i, entries);
        }
      case Made(contentKey, bytes) =>
        var ok;
        ok, more := MakeOne(now, producers, i, prev, entries, calm, reachable, failed == 0);
        if !ok {
          failures := failures + 1;
        }
    }

    lemma SkipOne(n: int, producers: seq<(nat, Produced)>, i: nat, entries: seq<Entry>)
      requires i < |producers| && producers[i].1.NothingToStore? && Progress(n, producers, i, entries)
      ensures Progress(n, producers, i + 1, entries)
    {
    }

    /** The artifact of one producer. `clean`: no failure so far. */
    method MakeOne(now: int, producers: seq<(nat, Produced)>, i: nat, prev: seq<Entry>, entries: seq<Entry>, calm: bool,
                   reachable: bool, ghost clean: bool)
      returns (ok: bool, more: seq<Entry>)
      requires i < |producers| && producers[i].1.Made?
      requires Restorable(store, spoiled) && Unreferenced(now) && !Complete(store, now)
      requires forall e :: e in prev ==> e.storedIn != now
      requires (clean ==> Progress(now, producers, i, entries)) && MadeBy(producers, i, entries)
      modifies this`store, this`log
      ensures Restorable(store, spoiled) && Unreferenced(now) && !Complete(store, now)
      ensures OthersUntouched(old(store), now)
      ensures old(log) <= log && LogRestorable(|old(log)|)
      ensures (clean && ok ==> Progress(now, producers, i + 1, more)) && MadeBy(producers, i + 1, more)
      ensures calm ==> ok
      ensures calm && !reachable ==> more == entries + [NewEntry(now, producers[i])]
      ensures reachable && Unchanged(old(store), prev, producers[i].0, producers[i].1.contentKey) ==>
                store == old(store)
    {
      ghost var before := store;
      var made := producers[i].1;
      var e;
      ok, e := StoreOne(now, producers[i].0, made.contentKey, made.bytes, prev, calm, reachable);
      more := if ok then entries + [e] else entries;
      if ok {
        MadeMore(producers, i, entries, e);
      }
      if ok && clean {
        OneMore(before, now, producers, i, entries, e);
      }
    }

    /** With no failure so far: every producer is listed, and unless two clash, every listed artifact is held. */
    ghost predicate Progress(n: int, producers: seq<(nat, Produced)>, upTo: nat, entries: seq<Entry>)
      requires upTo <= |producers|
      reads this
    {
      && (forall e :: e in entries ==> FromOne(e, n, producers, upTo) && Key(e.storedIn, Artifact(e.id)) in store)
      && (!Clash(producers) ==> forall e :: e in entries ==> Holds(store, e))
      && (forall j :: 0 <= j < upTo ==> Listed(producers[j], entries))
    }

    lemma MoreSpoiled(st: Store, few: set<int>, more: set<int>)
      requires few <= more && Restorable(st, few)
      ensures Restorable(st, more)
    {
    }

    lemma NoneBroke(n: int, producers: seq<(nat, Produced)>, entries: seq<Entry>)
      requires Progress(n, producers, |producers|, entries)
      ensures !AnyBroke(producers)
      ensures forall i :: 0 <= i < |producers| ==> Listed(producers[i], entries)
      ensures forall e :: e in entries ==> Key(e.storedIn, Artifact(e.id)) in store
      ensures !Clash(producers) ==> forall e :: e in entries ==> Holds(store, e)
      ensures forall e :: e in entries ==> Key(e.storedIn, Artifact(e.id)) in store
      ensures !Clash(producers) ==> forall e :: e in entries ==> Holds(store, e)
    {
      forall i | 0 <= i < |producers|
        ensures !producers[i].1.Broke?
      {
        assert Listed(producers[i], entries);
      }
    }

    lemma OneMore(was: Store, n: int, producers: seq<(nat, Produced)>, i: nat, entries: seq<Entry>, e: Entry)
      requires i < |producers| && producers[i].1.Made? && OthersUntouched(was, n)
      requires forall x :: x in entries ==> FromOne(x, n, producers, i) && Key(x.storedIn, Artifact(x.id)) in was
      requires !Clash(producers) ==> forall x :: x in entries ==> Holds(was, x)
      requires forall j :: 0 <= j < i ==> Listed(producers[j], entries)
      requires forall other :: other != producers[i].0 ==> SameArtifact(was, n, other)
      requires SameArtifact(was, n, producers[i].0) || HasBytes(n, producers[i])
      requires MadeAs(producers[i], e) && Holds(store, e)
      requires e.storedIn == n ==> e.bytes == producers[i].1.bytes
      ensures Progress(n, producers, i + 1, entries + [e])
    {
      forall x | x in entries && !Clash(producers)
        ensures Holds(store, x)
      {
        StillHeld(was, n, producers, i, x);
      }
      forall x | x in entries
        ensures Key(x.storedIn, Artifact(x.id)) in store
      {
        StillThere(was, n, producers[i], x);
      }
      GrowListed(producers, i, entries, e);
    }

    lemma StillThere(was: Store, n: int, p: (nat, Produced), x: Entry)
      requires p.1.Made? && OthersUntouched(was, n) && Key(x.storedIn, Artifact(x.id)) in was
      requires forall other :: other != p.0 ==> SameArtifact(was, n, other)
      requires SameArtifact(was, n, p.0) || HasBytes(n, p)
      ensures Key(x.storedIn, Artifact(x.id)) in store
    {
      assert x.storedIn == n ==> SameArtifact(was, n, x.id) || HasBytes(n, p);
      assert x.storedIn != n ==> Key(x.storedIn, Artifact(x.id)).folder != n;
    }

    static ghost predicate MadeBy(producers: seq<(nat, Produced)>, upTo: nat, entries: seq<Entry>)
      requires upTo <= |producers|
    {
      forall e :: e in entries ==> exists j :: 0 <= j < upTo && MadeAs(producers[j], e)
    }

    static lemma MadeMore(producers: seq<(nat, Produced)>, i: nat, entries: seq<Entry>, e: Entry)
      requires i < |producers| && MadeBy(producers, i, entries) && MadeAs(producers[i], e)
      ensures MadeBy(producers, i + 1, entries + [e])
    {
    }

    /** Every artifact made so far is listed as stored in this set. */
    static ghost predicate AllNew(n: int, producers: seq<(nat, Produced)>, upTo: nat, entries: seq<Entry>)
      requires upTo <= |producers|
    {
      forall j :: 0 <= j < upTo && producers[j].1.Made? ==> NewEntry(n, producers[j]) in entries
    }

    static function NewEntry(n: int, p: (nat, Produced)): Entry
      requires p.1.Made?
    {
      Entry(p.0, p.1.contentKey, p.1.bytes, n)
    }

    /** The checksum file, then the INDEX. */
    method Finish(n: int, producers: seq<(nat, Produced)>, entries: seq<Entry>, calm: bool, reachable: bool)
      returns (done: bool)
      requires Restorable(store, spoiled) && Unreferenced(n) && !Complete(store, n) && !AnyBroke(producers)
      requires forall e :: e in entries ==> Key(e.storedIn, Artifact(e.id)) in store
      requires !Clash(producers) ==> forall e :: e in entries ==> Holds(store, e)
      requires forall i :: 0 <= i < |producers| ==> Listed(producers[i], entries)
      requires calm && !reachable ==> AllNew(n, producers, |producers|, entries)
      requires Clash(producers) ==> n in spoiled
      modifies this`store, this`log
      ensures OthersUntouched(old(store), n) && Restorable(store, spoiled)
      ensures old(log) <= log && LogRestorable(|old(log)|)
      ensures done ==> Complete(store, n)
      ensures Complete(store, n) ==> EntriesOf(store, n) == entries && Key(n, Manifest) in store
      ensures calm ==> done
      ensures calm && !reachable ==> (SetRestorable(store, n) <==> !Clash(producers))
      ensures NoArtifactAdded(old(store), n)
    {
      ghost var was := store;
      var ok := PutManifest(n, calm);
      PutKeepsRestorable(was, n);
      if !ok {
        return false;
      }
      ghost var ready := store;
      done := PutIndex(n, entries, calm);
      FinishKeepsRestorable(ready, n, entries);
      if Clash(producers) && calm && !reachable {
        ClashSpoils(n, producers);
      }
    }

    /** One name cannot hold two producers' bytes. */
    lemma ClashSpoils(n: int, producers: seq<(nat, Produced)>)
      requires Clash(producers) && Complete(store, n) && AllNew(n, producers, |producers|, EntriesOf(store, n))
      ensures !SetRestorable(store, n)
    {
      var i, j :| 0 <= i < j < |producers| && Clashing(producers[i], producers[j]);
      var a, b := NewEntry(n, producers[i]), NewEntry(n, producers[j]);
      assert a in EntriesOf(store, n) && b in EntriesOf(store, n);
      assert !(Holds(store, a) && Holds(store, b));
    }

    lemma GrowListed(producers: seq<(nat, Produced)>, i: nat, entries: seq<Entry>, e: Entry)
      requires i <= |producers|
      ensures forall j :: 0 <= j < i && Listed(producers[j], entries) ==> Listed(producers[j], entries + [e])
      ensures e in entries + [e]
    {
      forall j | 0 <= j < i && Listed(producers[j], entries)
        ensures Listed(producers[j], entries + [e])
      {
        if producers[j].1.Made? {
          var x :| x in entries && x.id == producers[j].0 && x.contentKey == producers[j].1.contentKey;
          assert x in entries + [e];
        }
      }
    }

    lemma NewFolder(n: int)
      requires Restorable(store, spoiled) && n !in Sets(store)
      ensures Unreferenced(n) && !Complete(store, n)
    {
      forall m, e | Complete(store, m) && e in EntriesOf(store, m)
        ensures e.storedIn != n
      {
        assert Key(e.storedIn, Artifact(e.id)) in store && Key(e.storedIn, Artifact(e.id)).folder in Sets(store);
      }
      assert Complete(store, n) ==> Key(n, Index).folder in Sets(store);
    }

    lemma FinishKeepsRestorable(ready: Store, n: int, entries: seq<Entry>)
      requires Restorable(ready, spoiled) && !Complete(ready, n)
      requires forall e :: e in entries ==>
                 Key(e.storedIn, Artifact(e.id)) in ready && (n in spoiled || Holds(ready, e))
      requires store == ready || store == ready[Key(n, Index) := Unparsable]
               || store == ready[Key(n, Index) := IndexFile(entries)]
      ensures Restorable(store, spoiled)
    {
      forall m, e | Complete(store, m) && e in EntriesOf(store, m)
        ensures Key(e.storedIn, Artifact(e.id)) in store && (m in spoiled || Holds(store, e))
      {
        if m != n {
          assert Complete(ready, m) && e in EntriesOf(ready, m);
        } else {
          assert e in entries;
        }
        assert Key(e.storedIn, Artifact(e.id)) in ready && (m in spoiled || Holds(ready, e));
      }
    }

    /** The entries of the newest finished set, [] only if there is none; one whose INDEX does not parse is
        passed over. Or a read error. */
    method NewestEntries(calm: bool) returns (read: bool, entries: seq<Entry>)
      ensures calm ==> read
      ensures read && CompleteSets(store) == {} ==> entries == []
      ensures read && CompleteSets(store) != {} ==> exists n :: Complete(store, n) && entries == EntriesOf(store, n)
                                                                && forall m :: Complete(store, m) ==> m <= n
      ensures !read ==> entries == []
    {
      read, entries := *, [];
      read := read || calm;
      if !read {
        return;
      }
      var left := CompleteSets(store);
      if left == {} {
        return;
      }
      Inhabited(left);
      var n: int :| n in left;
      left := left - {n};
      while left != {}
        invariant n in CompleteSets(store) && left <= CompleteSets(store)
        invariant forall m :: m in CompleteSets(store) && m !in left ==> m <= n
        decreases |left|
      {
        Inhabited(left);
        var m: int :| m in left;
        if m > n {
          n := m;
        }
        left := left - {m};
      }
      forall m
        ensures Complete(store, m) ==> m <= n
      {
        CompleteIffListed(store, m);
      }
      entries := EntriesOf(store, n);
    }

    // ---- prune -----------------------------------------------------------------------------------

    method Listing(s: set<int>) returns (names: seq<int>)
      ensures SetOf(names) == s
      ensures forall i, j :: 0 <= i < j < |names| ==> names[i] != names[j]
    {
      names := [];
      var left := s;
      while left != {}
        invariant left <= s && SetOf(names) == s - left
        invariant forall i, j :: 0 <= i < j < |names| ==> names[i] != names[j]
        decreases |left|
      {
        Inhabited(left);
        var n: int :| n in left;
        assert forall i :: 0 <= i < |names| ==> names[i] in SetOf(names);
        ghost var was := names;
        names := names + [n];
        assert SetOf(names) == SetOf(was) + {n};
        left := left - {n};
      }
    }

    lemma DeleteKeepsRestorable(was: Store, k: Key)
      requires Restorable(was, spoiled) && store == was - {k}
      requires k.name == Index || forall n, e :: Complete(store, n) && e in EntriesOf(store, n) ==>
                                                 k != Key(e.storedIn, Artifact(e.id))
      ensures Restorable(store, spoiled)
    {
      forall n, e | Complete(store, n) && e in EntriesOf(store, n)
        ensures Key(e.storedIn, Artifact(e.id)) in store && (n in spoiled || Holds(store, e))
      {
        assert Complete(was, n) && e in EntriesOf(was, n) && (n in spoiled || Holds(was, e));
        assert Key(e.storedIn, Artifact(e.id)) in was;
      }
    }

    /** Phase 1: retire sets by deleting their INDEX, and nothing else. */
    method Retire(candidates: seq<int>, calm: bool) returns (retired: set<int>, refused: nat)
      requires Restorable(store, spoiled)
      modifies this`store, this`log
      ensures Restorable(store, spoiled) && old(log) <= log && LogRestorable(|old(log)|)
      ensures forall k: Key :: k in store ==> k in old(store) && store[k] == old(store)[k]
      ensures forall k: Key :: k in old(store) && k !in store ==> k.name == Index && k.folder in candidates
      ensures refused == 0 ==> forall n :: n in candidates ==> !Complete(store, n)
      ensures calm ==> refused == 0
      ensures forall n :: n in retired ==> !Complete(store, n)
      ensures forall n :: Complete(old(store), n) && n !in retired ==>
                Complete(store, n) && EntriesOf(store, n) == EntriesOf(old(store), n)
    {
      retired, refused := {}, 0;
      for i := 0 to |candidates|
        invariant Restorable(store, spoiled) && old(log) <= log && LogRestorable(|old(log)|)
        invariant forall k: Key :: k in store ==> k in old(store) && store[k] == old(store)[k]
        invariant forall k: Key :: k in old(store) && k !in store ==> k.name == Index && k.folder in candidates
        invariant refused == 0 ==> forall j :: 0 <= j < i ==> !Complete(store, candidates[j])
        invariant calm ==> refused == 0
        invariant forall n :: n in retired ==> Key(n, Index) !in store
        invariant forall n :: Key(n, Index) in old(store) && Key(n, Index) !in store ==> n in retired
      {
        if Complete(store, candidates[i]) {
          ghost var was := store;
          var ok := Delete(Key(candidates[i], Index), calm);
          if ok {
            retired := retired + {candidates[i]};
            DeleteKeepsRestorable(was, Key(candidates[i], Index));
          } else {
            refused := refused + 1;
          }
        }
      }
    }

    /** Phase 2: what every standing INDEX points at. */
    method Protect(standing: map<int, seq<Entry>>) returns (protected: set<Key>)
      ensures forall n, e :: n in standing && e in standing[n] ==> Key(e.storedIn, Artifact(e.id)) in protected
      ensures forall n :: n in standing ==> Key(n, Index) in protected && Key(n, Manifest) in protected
      ensures forall k :: k in protected ==> PointedAt(standing, k)
    {
      protected := {};
      var left := standing.Keys;
      while left != {}
        invariant left <= standing.Keys
        invariant forall n, e :: n in standing && n !in left && e in standing[n] ==>
                  Key(e.storedIn, Artifact(e.id)) in protected
        invariant forall n :: n in standing && n !in left ==>
                  Key(n, Index) in protected && Key(n, Manifest) in protected
        invariant forall k :: k in protected ==> PointedAt(standing, k)
        decreases |left|
      {
        Inhabited(left);
        var n: int :| n in left;
        var arts := set e | e in standing[n] :: Key(e.storedIn, Artifact(e.id));
        forall k | k in arts
          ensures PointedAt(standing, k)
        {
          var e :| e in standing[n] && k == Key(e.storedIn, Artifact(e.id));
        }
        protected := protected + arts + {Key(n, Index), Key(n, Manifest)};
        left := left - {n};
      }
    }

    /** Phase 3: delete what no standing set needs, from the retired and the long-unfinished only. Not calm, the
        first `reach` of them can be listed; at the next one it stops. */
    method Sweep(candidates: seq<int>, protected: set<Key>, reach: nat, calm: bool,
                 ghost standing: map<int, seq<Entry>>)
      returns (refused: nat, stopped: bool)
      requires Restorable(store, spoiled)
      requires forall n :: Complete(store, n) ==> n in standing && standing[n] == EntriesOf(store, n)
      requires forall n, e :: n in standing && e in standing[n] ==> Key(e.storedIn, Artifact(e.id)) in protected
      requires forall n :: n in standing ==> Key(n, Index) in protected
      modifies this`store, this`log
      ensures Restorable(store, spoiled) && old(log) <= log && LogRestorable(|old(log)|)
      ensures CompleteSets(store) == CompleteSets(old(store))
      ensures forall k: Key :: k in store ==> k in old(store) && store[k] == old(store)[k]
      ensures forall k: Key :: k in old(store) && k !in store ==> k.folder in candidates && k !in protected
      ensures !stopped && refused == 0 ==> forall k: Key :: k in store && k.folder in candidates ==> k in protected
      ensures calm ==> !stopped && refused == 0
      ensures stopped <==> !calm && reach < |candidates|
      ensures stopped ==> forall k: Key :: k in old(store) && k.folder !in candidates[..reach] ==> k in store
    {
      refused, stopped := 0, false;
      for i := 0 to |candidates|
        invariant Restorable(store, spoiled) && old(log) <= log && LogRestorable(|old(log)|)
        invariant forall k: Key :: k in store ==> k in old(store) && store[k] == old(store)[k]
        invariant forall k: Key :: k in old(store) && k !in store ==> k.folder in candidates && k !in protected
        invariant refused == 0 ==> forall k: Key :: k in store && k.folder in candidates[..i] ==> k in protected
        invariant calm ==> refused == 0
        invariant !stopped && (!calm ==> i <= reach)
        invariant forall k: Key :: k in old(store) && k.folder !in candidates[..i] ==> k in store
      {
        if i >= reach && !calm {
          SameCompleteSets(old(store), protected, standing);
          return refused, true;                             // could not list this set
        }
        var more := SweepOne(candidates[i], protected, calm, standing);
        refused := refused + more;
        assert candidates[..i + 1] == candidates[..i] + [candidates[i]];
      }
      assert candidates[..|candidates|] == candidates;
      SameCompleteSets(old(store), protected, standing);
    }

    lemma SameCompleteSets(was: Store, protected: set<Key>, standing: map<int, seq<Entry>>)
      requires forall n :: Complete(was, n) ==> n in standing
      requires forall n :: n in standing ==> Key(n, Index) in protected
      requires forall k: Key :: k in store ==> k in was && store[k] == was[k]
      requires forall k: Key :: k in was && k !in store ==> k !in protected
      ensures CompleteSets(store) == CompleteSets(was)
    {
      forall n
        ensures n in CompleteSets(store) <==> n in CompleteSets(was)
      {
        CompleteIffListed(store, n);
        CompleteIffListed(was, n);
      }
    }

    method SweepOne(n: int, protected: set<Key>, calm: bool, ghost standing: map<int, seq<Entry>>)
      returns (refused: nat)
      requires Restorable(store, spoiled)
      requires forall m :: Complete(store, m) ==> m in standing && standing[m] == EntriesOf(store, m)
      requires forall m, e :: m in standing && e in standing[m] ==> Key(e.storedIn, Artifact(e.id)) in protected
      modifies this`store, this`log
      ensures Restorable(store, spoiled) && old(log) <= log && LogRestorable(|old(log)|)
      ensures forall k: Key :: k in store ==> k in old(store) && store[k] == old(store)[k]
      ensures forall k: Key :: k in old(store) && k !in store ==> k.folder == n && k !in protected
      ensures refused == 0 ==> forall k: Key :: k in store && k.folder == n ==> k in protected
      ensures calm ==> refused == 0
    {
      refused := 0;
      var left := set k | k in store && k.folder == n && k !in protected;
      while left != {}
        invariant Restorable(store, spoiled) && old(log) <= log && LogRestorable(|old(log)|)
        invariant forall k: Key :: k in store ==> k in old(store) && store[k] == old(store)[k]
        invariant forall k: Key :: k in old(store) && k !in store ==> k.folder == n && k !in protected
        invariant forall k :: k in left ==> k.folder == n && k !in protected
        invariant refused == 0 ==> forall k: Key :: k in store && k.folder == n && k !in protected ==> k in left
        invariant calm ==> refused == 0
        decreases |left|
      {
        var k: Key :| k in left;
        ghost var was := store;
        var ok := Delete(k, calm);
        if ok {
          forall m, e | Complete(store, m) && e in EntriesOf(store, m)
            ensures k != Key(e.storedIn, Artifact(e.id))
          {
            assert Complete(old(store), m) && e in EntriesOf(old(store), m);
          }
          DeleteKeepsRestorable(was, k);
        } else {
          refused := refused + 1;
        }
        left := left - {k};
      }
    }

    /** Delete sets outside the keep rule, and sets that were begun at least `minAge` ago and never finished. */
    method RunPrune(rules: seq<Rule>, minAge: int, now: int, calm: bool) returns (clean: bool, aborted: bool)
      requires Restorable(store, spoiled) && RulesOK(rules)
      modifies this`store, this`log
      ensures Restorable(store, spoiled) && old(log) <= log && LogRestorable(|old(log)|)
      // a set the rules keep, the newest first of all, stays complete
      ensures forall n :: n in Keep(CompleteSets(old(store)), rules) ==>
                Complete(store, n) && EntriesOf(store, n) == EntriesOf(old(store), n)
      // nothing is added, and a deleted artifact was needed by no set that is still complete
      ensures forall k: Key :: k in store ==> k in old(store) && store[k] == old(store)[k]
      // an INDEX that cannot be read stops it before anything is deleted, and so does having no finished set
      ensures aborted || CompleteSets(old(store)) == {} ==> store == old(store)
      ensures Garbled(old(store)) ==> aborted
      // a set that may still be being filled is left alone
      ensures forall k: Key :: k in old(store) && Unfinished(old(store), k.folder) && now - k.folder < minAge ==>
                                 k in store
      // with no failure on the way, exactly the kept sets are left
      ensures clean ==> CompleteSets(store) == Keep(CompleteSets(old(store)), rules)
      // and nothing of a retired set, or of one unfinished for long, but what a complete set points at
      ensures clean ==>
              forall k: Key :: k in store && k.folder in CompleteSets(old(store)) && !Complete(store, k.folder) ==>
                Needed(store, k)
      ensures clean && CompleteSets(old(store)) != {} ==>
              forall k: Key :: k in store && Unfinished(old(store), k.folder) && now - k.folder >= minAge ==>
                Needed(store, k)
      ensures calm && !Garbled(old(store)) ==> clean
    {
      clean, aborted := false, false;
      var ok, snapshot := ReadIndexes(calm);
      if !ok {
        return false, true;                                 // aborted before deleting anything
      }
      var done := set n | n in snapshot && snapshot[n].Some?;
      assert done == CompleteSets(store);
      if done == {} {
        KeepNothing(rules);
        return true, false;
      }
      clean := PruneSets(rules, minAge, now, calm, snapshot);
    }

    /** The three phases. */
    method PruneSets(rules: seq<Rule>, minAge: int, now: int, calm: bool, snapshot: map<int, Option<seq<Entry>>>)
      returns (clean: bool)
      requires Restorable(store, spoiled) && RulesOK(rules) && !Garbled(store) && snapshot.Keys == Sets(store)
      requires forall n :: n in snapshot ==> (snapshot[n].Some? <==> Complete(store, n))
                                             && (snapshot[n].Some? ==> snapshot[n].value == EntriesOf(store, n))
      modifies this`store, this`log
      ensures Restorable(store, spoiled) && old(log) <= log && LogRestorable(|old(log)|)
      ensures forall n :: n in Keep(CompleteSets(old(store)), rules) ==>
                Complete(store, n) && EntriesOf(store, n) == EntriesOf(old(store), n)
      ensures forall k: Key :: k in store ==> k in old(store) && store[k] == old(store)[k]
      ensures forall k: Key :: k in old(store) && Unfinished(old(store), k.folder) && now - k.folder < minAge ==>
                                 k in store
      ensures clean ==> CompleteSets(store) == Keep(CompleteSets(old(store)), rules)
      ensures clean ==>
              forall k: Key :: k in store && !Complete(store, k.folder)
                               && (Complete(old(store), k.folder) || now - k.folder >= minAge)
                ==> Needed(store, k)
      ensures calm ==> clean
    {
      ghost var was := store;
      var done := set n | n in snapshot && snapshot[n].Some?;
      assert done == CompleteSets(store);
      var doneNames := Listing(done);
      var keep := ChooseKeep(doneNames, rules);
      var candidates := Listing(set n | n in snapshot && n !in keep && (n in done || now - n >= minAge));
      assert forall n :: n in SetOf(candidates) <==> n in candidates;
      var retired, refused := Retire(candidates, calm);
      KeptSurvive(was, candidates, keep);
      var left: map<int, seq<Entry>> := map n | n in done && n !in retired :: snapshot[n].value;
      clean := ProtectAndSweep(candidates, left, refused, calm, was, keep);
      Folders(was);
    }

    static lemma Folders(st: Store)
      ensures forall k: Key :: k in st ==> k.folder in Sets(st)
    {
    }

    /** Phases 2 and 3, over the sets phase 1 could and could not retire. `left`: those it did not. */
    method ProtectAndSweep(candidates: seq<int>, left: map<int, seq<Entry>>, refused: nat, calm: bool, ghost was: Store,
                           ghost keep: set<int>)
      returns (clean: bool)
      requires Restorable(store, spoiled)
      requires keep <= CompleteSets(was) && forall n :: n in CompleteSets(was) && n !in keep ==> n in candidates
      requires forall n :: n in keep ==> Complete(was, n)
      requires forall n :: n in keep ==> Complete(store, n) && EntriesOf(store, n) == EntriesOf(was, n)
      requires forall k: Key :: k in store ==> k in was && store[k] == was[k]
      requires refused == 0 ==> forall n :: n in candidates ==> !Complete(store, n)
      requires forall n :: n in left ==> Complete(store, n) && EntriesOf(store, n) == left[n]
      modifies this`store, this`log
      ensures Restorable(store, spoiled) && old(log) <= log && LogRestorable(|old(log)|)
      ensures forall n :: n in keep ==> Complete(store, n) && EntriesOf(store, n) == EntriesOf(was, n)
      ensures forall k: Key :: k in store ==> k in was && store[k] == was[k]
      ensures forall k: Key :: k in old(store) && k !in store ==> k.folder in candidates
      ensures clean ==> CompleteSets(store) == keep
      ensures clean ==> forall k: Key :: k in store && k.folder in candidates && !Complete(store, k.folder) ==>
                Needed(store, k)
      ensures calm && refused == 0 && !Garbled(old(store)) ==> clean
    {
      clean := false;
      ghost var retired := store;
      var ok, again := ReadIndexes(calm);
      if !ok {
        return;                                             // the bytes of the retired sets stay
      }
      var standing: map<int, seq<Entry>> := map n | n in again && again[n].Some? :: again[n].value;
      standing := standing + left;
      forall n | Complete(store, n)
        ensures n in standing && standing[n] == EntriesOf(store, n)
      {
        CompleteIffListed(store, n);
      }
      var protected := Protect(standing);
      var reach: nat := *;
      var refused2, stopped := Sweep(candidates, protected, reach, calm, standing);
      KeptSurviveSweep(was, retired, keep);
      clean := refused == 0 && refused2 == 0 && !stopped;
      if clean {
        OnlyKeptLeft(was, retired, candidates, keep);
        OnlyNeededLeft(retired, candidates, standing, protected);
      }
    }

    lemma OnlyNeededLeft(retired: Store, candidates: seq<int>, standing: map<int, seq<Entry>>, protected: set<Key>)
      requires CompleteSets(store) == CompleteSets(retired)
      requires forall n :: n in standing ==> Complete(retired, n) && standing[n] == EntriesOf(retired, n)
      requires forall k: Key :: k in store ==> k in retired && store[k] == retired[k]
      requires forall k :: k in protected ==> PointedAt(standing, k)
      requires forall k: Key :: k in store && k.folder in candidates ==> k in protected
      ensures forall k: Key :: k in store && k.folder in candidates && !Complete(store, k.folder) ==>
              Needed(store, k)
    {
      forall k: Key | k in store && k.folder in candidates && !Complete(store, k.folder)
        ensures Needed(store, k)
      {
        CompleteIffListed(store, k.folder);
        assert PointedAt(standing, k);
        var n :| n in standing && (k == Key(n, Index) || k == Key(n, Manifest)
                                   || exists e :: e in standing[n] && k == Key(e.storedIn, Artifact(e.id)));
        CompleteIffListed(retired, n);
        CompleteIffListed(store, n);
        assert EntriesOf(store, n) == EntriesOf(retired, n);
      }
    }

    lemma KeepNothing(rules: seq<Rule>)
      ensures Keep({}, rules) == {}
    {
    }

    lemma KeptSurvive(was: Store, candidates: seq<int>, keep: set<int>)
      requires forall n :: n in keep ==> Complete(was, n) && n !in candidates
      requires forall k: Key :: k in store ==> k in was && store[k] == was[k]
      requires forall k: Key :: k in was && k !in store ==> k.name == Index && k.folder in candidates
      ensures forall n :: n in keep ==> Complete(store, n) && EntriesOf(store, n) == EntriesOf(was, n)
    {
      forall n | n in keep
        ensures Complete(store, n) && EntriesOf(store, n) == EntriesOf(was, n)
      {
        assert Key(n, Index) in was && Key(n, Index) in store;
      }
    }

    lemma KeptSurviveSweep(was: Store, retired: Store, keep: set<int>)
      requires forall n :: n in keep ==> Complete(was, n)
      requires forall n :: n in keep ==> Complete(retired, n) && EntriesOf(retired, n) == EntriesOf(was, n)
      requires CompleteSets(store) == CompleteSets(retired)
      requires forall k: Key :: k in store ==> k in retired && store[k] == retired[k]
      ensures forall n :: n in keep ==> Complete(store, n) && EntriesOf(store, n) == EntriesOf(was, n)
    {
      forall n | n in keep
        ensures Complete(store, n) && EntriesOf(store, n) == EntriesOf(was, n)
      {
        CompleteIffListed(store, n);
        CompleteIffListed(retired, n);
      }
    }

    lemma OnlyKeptLeft(was: Store, retired: Store, candidates: seq<int>, keep: set<int>)
      requires keep <= CompleteSets(was) && forall n :: n in CompleteSets(was) && n !in keep ==> n in candidates
      requires forall k: Key :: k in retired ==> k in was && retired[k] == was[k]
      requires forall n :: n in candidates ==> !Complete(retired, n)
      requires forall n :: n in keep ==> Complete(store, n)
      requires CompleteSets(store) == CompleteSets(retired)
      ensures CompleteSets(store) == keep
    {
      forall n
        ensures n in CompleteSets(store) <==> n in keep
      {
        CompleteIffListed(store, n);
        CompleteIffListed(retired, n);
        CompleteIffListed(was, n);
      }
    }

    /** Any history of backups and prunes, each of which may fail or be killed anywhere: at every moment every
        finished set can be restored but those in which two producers of one name made different bytes. */
    method History(jobs: seq<Job>)
      requires store == map[] && log == [] && spoiled == {}
      requires forall i :: 0 <= i < |jobs| && jobs[i].PruneNow? ==> RulesOK(jobs[i].rules)
      modifies this
      ensures Restorable(store, spoiled) && LogRestorable(0)
      ensures forall n :: n in spoiled ==> exists i :: 0 <= i < |jobs| && Spoils(jobs[i], n)
    {
      for i := 0 to |jobs|
        invariant Restorable(store, spoiled) && LogRestorable(0)
        invariant forall n :: n in spoiled ==> exists j :: 0 <= j < i && Spoils(jobs[j], n)
      {
        match jobs[i]
        case BackUp(now, producers) =>
          var calm: bool, reachable: bool := *, *;
          ghost var before := spoiled;
          var _ := RunBackup(now, producers, calm, reachable);
          assert forall n :: n in spoiled && n !in before ==> Spoils(jobs[i], n);
        case PruneNow(rules, minAge, now) =>
          var calm: bool := *;
          var _, _ := RunPrune(rules, minAge, now, calm);
      }
    }
  }

  ghost predicate Spoils(job: Job, n: int) {
    job.BackUp? && job.now == n && Clash(job.producers) && !AnyBroke(job.producers)
  }
}
