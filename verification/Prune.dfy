/** The chunked delete: what one prune run removes from the table, while the recorder goes on writing
    between chunks. */
module Prune {
  import opened IntSets
  import opened PruneGaps
  import opened Options

  datatype Row = Row(time: real, data: int)
  type Table = map<int, Row>

  /** `time > lo` (or `>=`), `time < hi`, and with the off-boat gate on, `id <= through`. */
  predicate Matches(g: Gap, through: Option<int>, id: int, row: Row) {
    InGap(g, row.time) && (through.Some? ==> id <= through.value)
  }

  function Matching(table: Table, g: Gap, through: Option<int>): set<int> {
    set id | id in table && Matches(g, through, id, table[id])
  }

  class Archive {
    var table: Table
    var top: int                              // ids are never reused
    ghost var ever: Table                     // every row ever appended

    ghost predicate Valid()
      reads this
    {
      && (forall id :: id in table ==> id in ever && table[id] == ever[id])
      && (forall id :: id in ever ==> id <= top)
    }

    constructor ()
      ensures Valid() && table == map[] && ever == map[]
    {
      table, top, ever := map[], 0, map[];
    }

    /** The rows, in order, under the next ids. */
    static ghost predicate Added(was: Table, now: Table, top: int, rows: seq<Row>) {
      && (forall id :: id in now <==> id in was || top < id <= top + |rows|)
      && (forall id :: id in now ==> now[id] == if top < id <= top + |rows| then rows[id - top - 1] else was[id])
    }

    /** The recorder's turn: one more batch, under new ids, with whatever times the instruments gave. */
    method Append(rows: seq<Row>)
      requires Valid()
      modifies this
      ensures Valid() && top == old(top) + |rows|
      ensures Added(old(table), table, old(top), rows) && Added(old(ever), ever, old(top), rows)
    {
      for i := 0 to |rows|
        invariant Valid() && top == old(top) + i
        invariant Added(old(table), table, old(top), rows[..i]) && Added(old(ever), ever, old(top), rows[..i])
      {
        top := top + 1;
        table, ever := table[top := rows[i]], ever[top := rows[i]];
      }
      assert rows[..|rows|] == rows;
    }

    /** The time of the last row selected. */
    function LastTime(ids: seq<int>): Option<real>
      reads this
    {
      if ids == [] || ids[|ids| - 1] !in table then None else Some(table[ids[|ids| - 1]].time)
    }

    /** `ORDER BY time LIMIT chunk`: the earliest matching rows at or after `since`. */
    method SelectChunk(g: Gap, through: Option<int>, since: real, chunk: nat) returns (ids: seq<int>)
      requires chunk >= 1
      ensures forall id :: id in ids ==> id in table && Matches(g, through, id, table[id]) && table[id].time >= since
      ensures ids == [] ==> forall id :: id in Matching(table, g, through) ==> table[id].time < since
      // fewer than a chunk only when nothing else is left
      ensures |ids| <= chunk
      ensures |ids| < chunk ==> forall id :: id in Matching(table, g, through) && table[id].time >= since ==> id in ids
      // any row left out is no earlier than the last one taken
      ensures ids != [] ==> LastTime(ids).Some?
      ensures ids != [] ==> forall id :: id in Matching(table, g, through) && table[id].time >= since && id !in ids ==>
                                         table[id].time >= LastTime(ids).value
    {
      ids := [];
      var left := set id | id in table && Matches(g, through, id, table[id]) && table[id].time >= since;
      while left != {} && |ids| < chunk
        invariant forall id :: id in left || id in ids <==> id in Matching(table, g, through) && table[id].time >= since
        invariant forall id :: id in left ==> id !in ids
        invariant |ids| <= chunk
        invariant ids != [] ==> LastTime(ids).Some? && forall id :: id in left ==> table[id].time >= LastTime(ids).value
        decreases |left|
      {
        var next := Earliest(left);
        ids := ids + [next];
        left := left - {next};
      }
    }

    method Earliest(ids: set<int>) returns (first: int)
      requires ids != {} && forall id :: id in ids ==> id in table
      ensures first in ids && forall id :: id in ids ==> table[first].time <= table[id].time
    {
      Inhabited(ids);
      first :| first in ids;
      var left := ids - {first};
      while left != {}
        invariant first in ids && left <= ids
        invariant forall id :: id in ids && id !in left ==> table[first].time <= table[id].time
        decreases |left|
      {
        Inhabited(left);
        var id: int :| id in left;
        if table[id].time < table[first].time {
          first := id;
        }
        left := left - {id};
      }
    }

    /** What one or more chunks may have done: only matching rows are gone, of those that were there and of
        those that came meanwhile; new rows are only added. */
    ghost predicate OnlyGone(was: Table, wasTop: int, wasEver: Table, g: Gap, through: Option<int>)
      reads this
    {
      && Grown(wasEver, wasTop)
      && (forall id :: id in was && id in table ==> table[id] == was[id])
      && (forall id :: id in ever && id !in table ==>
            (id in wasEver && id !in was) || Matches(g, through, id, ever[id]))
      && (forall id :: id in table && id !in was ==> id > wasTop)
    }

    ghost predicate Grown(wasEver: Table, wasTop: int)
      reads this
    {
      && (forall id :: id in wasEver ==> id in ever && ever[id] == wasEver[id])
      && (forall id :: id in ever && id !in wasEver ==> id > wasTop)
    }

    /** Delete one gap, chunk by chunk. `arrivals` is what the recorder writes between the chunks. A
        rotation that starts meanwhile stops it; when calm none does. */
    method DeleteGap(g: Gap, through: Option<int>, chunk: nat, arrivals: seq<seq<Row>>, calm: bool)
      returns (finished: bool)
      requires Valid() && chunk >= 1
      modifies this
      ensures Valid() && old(top) <= top && OnlyGone(old(table), old(top), old(ever), g, through)
      ensures finished ==> forall id :: id in old(table) && Matches(g, through, id, old(table)[id]) ==> id !in table
      ensures calm ==> finished
    {
      var since, turn := g.lo, 0;
      while true
        invariant Valid() && old(top) <= top && turn <= |arrivals|
        invariant OnlyGone(old(table), old(top), old(ever), g, through)
        invariant forall id :: id in old(table) && id in table && Matches(g, through, id, table[id]) ==>
                               table[id].time >= since
        decreases |arrivals| - turn, |Matching(table, g, through)|
      {
        var rotating: bool := *;
        if rotating && !calm {
          return false;                        // the archive is being rotated
        }
        var ids := SelectChunk(g, through, since, chunk);
        if ids == [] {
          return true;
        }
        ghost var before := table;
        since := LastTime(ids).value;
        table := map id | id in table && id !in ids :: table[id];
        Fewer(before, table, g, through, ids[0]);
        if turn < |arrivals| {
          Append(arrivals[turn]);
          turn := turn + 1;
        }
      }
    }

    static lemma Fewer(was: Table, now: Table, g: Gap, through: Option<int>, gone: int)
      requires forall id :: id in now ==> id in was && now[id] == was[id]
      requires gone in was && gone !in now && Matches(g, through, gone, was[gone])
      ensures |Matching(now, g, through)| < |Matching(was, g, through)|
    {
      assert gone in Matching(was, g, through) && gone !in Matching(now, g, through);
      SizeMonotone(Matching(now, g, through), Matching(was, g, through));
    }

    /** One prune run over the gaps between kept windows.
        `gate` None: no off-boat gate; Some(None): the ledger cannot be read; Some(Some(h)): verified to h.
        `arrivals(i)`: what the recorder writes between the chunks of gap i. `calm`: no rotation starts. */
    method PruneRun(wins: seq<Window>, cutoff: real, gate: Option<Option<int>>, chunk: nat,
                    arrivals: nat -> seq<seq<Row>>, calm: bool) returns (finished: bool)
      requires Valid() && chunk >= 1 && cutoff >= 0.0 && Times(wins)
      requires forall id :: id in table ==> table[id].time >= 0.0
      modifies this
      ensures Valid() && old(top) <= top && Grown(old(ever), old(top))
      ensures gate == Some(None) ==> table == old(table) && !finished
      ensures calm && gate != Some(None) ==> finished
      // whatever happened, a row left is unchanged, and a row gone, one that came during the run among
      // them, was before the cutoff and licensed
      ensures forall id :: id in old(table) && id in table ==> table[id] == old(table)[id]
      ensures forall id :: id in ever && id !in table ==>
                (id in old(ever) && id !in old(table))
                || (ever[id].time < cutoff && Licensed(gate, id)
                    && (!StepsBack(wins, cutoff) ==> !Kept(wins, ever[id].time)))
      // a run that was not stopped leaves no deletable row it started with
      ensures finished ==> forall id :: id in old(table) && Deletable(wins, cutoff, gate, id, old(table)[id]) ==>
              id !in table
    {
      if gate == Some(None) {
        return false;
      }
      var through := if gate.Some? then gate.value else None;
      var gaps := PruneGaps.PruneGaps(wins, cutoff);
      ghost var was, wasTop, wasEver := table, top, ever;
      var i := 0;
      while i < |gaps|
        invariant 0 <= i <= |gaps| && Valid() && wasTop <= top && Grown(wasEver, wasTop)
        invariant forall id :: id in was && id in table ==> table[id] == was[id]
        invariant forall id :: id in ever && id !in table ==>
                    || (id in wasEver && id !in was)
                    || exists j :: 0 <= j < |gaps| && Matches(gaps[j], through, id, ever[id])
        invariant forall id, j :: id in was && 0 <= j < i && Matches(gaps[j], through, id, was[id]) ==> id !in table
        invariant forall id :: id in table && id !in was ==> id > wasTop
      {
        var done := DeleteGap(gaps[i], through, chunk, arrivals(i), calm);
        if !done {
          GoneWereDeletable(wins, cutoff, gaps, gate, through, was, wasEver);
          return false;
        }
        i := i + 1;
      }
      GoneWereDeletable(wins, cutoff, gaps, gate, through, was, wasEver);
      forall id | id in was && Deletable(wins, cutoff, gate, id, was[id])
        ensures id !in table
      {
        assert InSomeGap(gaps, was[id].time);
        var g :| g in gaps && InGap(g, was[id].time);
        var j :| 0 <= j < |gaps| && gaps[j] == g;
        assert Matches(gaps[j], through, id, was[id]);
      }
      finished := true;
    }

    lemma GoneWereDeletable(wins: seq<Window>, cutoff: real, gaps: seq<Gap>, gate: Option<Option<int>>,
                            through: Option<int>, was: Table, wasEver: Table)
      requires gate != Some(None) && through == (if gate.Some? then gate.value else None)
      requires forall t :: InSomeGap(gaps, t) ==> t < cutoff
      requires (forall t :: InSomeGap(gaps, t) ==> !Kept(wins, t)) <==> !StepsBack(wins, cutoff)
      requires forall id :: id in ever && id !in table ==>
                 (id in wasEver && id !in was) || exists j :: 0 <= j < |gaps| && Matches(gaps[j], through, id, ever[id])
      ensures forall id :: id in ever && id !in table ==>
                (id in wasEver && id !in was)
                || (ever[id].time < cutoff && Licensed(gate, id)
                    && (!StepsBack(wins, cutoff) ==> !Kept(wins, ever[id].time)))
    {
      forall id | id in ever && id !in table && !(id in wasEver && id !in was)
        ensures ever[id].time < cutoff && Licensed(gate, id)
                && (!StepsBack(wins, cutoff) ==> !Kept(wins, ever[id].time))
      {
        var j :| 0 <= j < |gaps| && Matches(gaps[j], through, id, ever[id]);
        assert gaps[j] in gaps && InGap(gaps[j], ever[id].time);
        assert InSomeGap(gaps, ever[id].time);
      }
    }
  }

  /** What the off-boat gate lets the prune delete. */
  predicate Licensed(gate: Option<Option<int>>, id: int) {
    gate.None? || (gate.value.Some? && id <= gate.value.value)
  }

  /** Before the cutoff, outside every kept window, and licensed. */
  ghost predicate Deletable(wins: seq<Window>, cutoff: real, gate: Option<Option<int>>, id: int, row: Row) {
    row.time < cutoff && !Kept(wins, row.time) && Licensed(gate, id)
  }
}
