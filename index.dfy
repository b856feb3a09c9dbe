/** The snapshot indexer: one getStats() report becomes a two-level dictionary,
    type tag -> record id -> record. */
module Index {
  import opened Values
  import opened Dicts
  import opened Classify

  /** One indexed report: tag -> (id -> record), both levels in insertion order. */
  type Snapshot = Dict<Dict<Record>>

  // ---------------------------------------------------------------------------
  // Specification of the two passes of buildSingleStatObject

  /** The entries the first pass keeps, with the tag each is grouped under. */
  function Kept(entries: seq<Option<RawEntry>>, selected: Option<seq<string>>): seq<(string, Record)>
  {
    if entries == [] then []
    else
      var rest := Kept(entries[..|entries| - 1], selected);
      match entries[|entries| - 1]
      case None => rest
      case Some(e) =>
        if IsKept(selected, e) then rest + [(e.tag, Build(ClassOf(e.tag).value, e))] else rest
  }

  /** `stat[type].push(record)`, creating the list on first use. */
  function Push(stat: Dict<seq<Record>>, t: string, r: Record): Dict<seq<Record>> {
    Put(stat, t, Get(stat, t).GetOr([]) + [r])
  }

  /** The `stat` dictionary after the first pass: tag -> records, in entry order. */
  function Grouped(kept: seq<(string, Record)>): Dict<seq<Record>> {
    if kept == [] then []
    else Push(Grouped(kept[..|kept| - 1]), kept[|kept| - 1].0, kept[|kept| - 1].1)
  }

  /** One group of the second pass: `tmp[record.id] = record` for each record in turn. */
  function IndexGroup(rs: seq<Record>): Dict<Record> {
    if rs == [] then []
    else Put(IndexGroup(rs[..|rs| - 1]), rs[|rs| - 1].id, rs[|rs| - 1])
  }

  /** The second pass: `builder[type] = tmp` for each group in turn. */
  function IndexGroups(stat: Dict<seq<Record>>): Snapshot {
    if stat == [] then []
    else Put(IndexGroups(stat[..|stat| - 1]), stat[|stat| - 1].0, IndexGroup(stat[|stat| - 1].1))
  }

  /** The snapshot built from one report; a missing report gives the empty snapshot. */
  function IndexSnapshot(statArray: Option<seq<Option<RawEntry>>>, selected: Option<seq<string>>): Snapshot {
    IndexGroups(Grouped(Kept(statArray.GetOr([]), selected)))
  }

  // ---------------------------------------------------------------------------
  // The operation

  /** buildSingleStatObject: classify the entries of one report that pass the
      allow-list, group them by tag, then index each group by record id. */
  method BuildSingleStatObject(statArray: Option<seq<Option<RawEntry>>>, selected: Option<seq<string>>)
    returns (builder: Snapshot)
    ensures builder == IndexSnapshot(statArray, selected)
  {
    var stat := GroupEntries(statArray.GetOr([]), selected);
    builder := IndexEachGroup(stat);
  }

  /** The first pass: push each kept entry's record onto the list of its tag. */
  method GroupEntries(entries: seq<Option<RawEntry>>, selected: Option<seq<string>>)
    returns (stat: Dict<seq<Record>>)
    ensures stat == Grouped(Kept(entries, selected))
  {
    stat := [];
    var rendered := Render(selected);
    for i := 0 to |entries|
      invariant stat == Grouped(Kept(entries[..i], selected))
    {
      assert entries[..i + 1][..i] == entries[..i];
      match entries[i]
      case None =>
      case Some(e) =>
        if PassesRendered(rendered, e.tag) {
          var cls := ClassOf(e.tag);
          if cls.Some? {
            var record := Build(cls.value, e);
            var list := Get(stat, e.tag).GetOr([]);
            stat := Put(stat, e.tag, list + [record]);
          }
        }
    }
    assert entries[..|entries|] == entries;
  }

  /** The second pass: index each group by record id, under its tag. */
  method IndexEachGroup(stat: Dict<seq<Record>>) returns (builder: Snapshot)
    ensures builder == IndexGroups(stat)
  {
    builder := [];
    for i := 0 to |stat|
      invariant builder == IndexGroups(stat[..i])
    {
      assert stat[..i + 1][..i] == stat[..i];
      var (tag, group) := stat[i];
      var tmp: Dict<Record> := [];
      for j := 0 to |group|
        invariant tmp == IndexGroup(group[..j])
      {
        assert group[..j + 1][..j] == group[..j];
        tmp := Put(tmp, group[j].id, group[j]);
      }
      assert group[..|group|] == group;
      builder := Put(builder, tag, tmp);
    }
    assert stat[..|stat|] == stat;
  }

  // ---------------------------------------------------------------------------
  // What the snapshot holds

  /** `snapshot[t][id]`, None when either level is missing. */
  function Lookup(s: Snapshot, t: string, id: string): Option<Record> {
    match Get(s, t)
    case None => None
    case Some(g) => Get(g, id)
  }

  /** The record the last kept entry with tag `t` and id `id` becomes. */
  function LastKept(entries: seq<Option<RawEntry>>, selected: Option<seq<string>>, t: string, id: string): Option<Record>
  {
    if entries == [] then None
    else
      var last := entries[|entries| - 1];
      if last.Some? && IsKept(selected, last.value) && last.value.tag == t && last.value.id == id
      then Some(Build(ClassOf(t).value, last.value))
      else LastKept(entries[..|entries| - 1], selected, t, id)
  }

  /** The records kept under tag `t`, in entry order. */
  function RecordsOf(kept: seq<(string, Record)>, t: string): seq<Record> {
    if kept == [] then []
    else
      var rest := RecordsOf(kept[..|kept| - 1], t);
      if kept[|kept| - 1].0 == t then rest + [kept[|kept| - 1].1] else rest
  }

  /** The last record of `rs` with id `id`. */
  function LastWithId(rs: seq<Record>, id: string): Option<Record> {
    if rs == [] then None
    else if rs[|rs| - 1].id == id then Some(rs[|rs| - 1])
    else LastWithId(rs[..|rs| - 1], id)
  }

  lemma {:induction false} GroupedShape(kept: seq<(string, Record)>)
    ensures UniqueKeys(Grouped(kept))
    ensures forall t :: Get(Grouped(kept), t) == if RecordsOf(kept, t) == [] then None else Some(RecordsOf(kept, t))
  {
    if kept != [] {
      var front := kept[..|kept| - 1];
      var (t0, r0) := kept[|kept| - 1];
      GroupedShape(front);
      var g := Grouped(front);
      var list := Get(g, t0).GetOr([]);
      PutUnique(g, t0, list + [r0]);
      forall t ensures Get(Grouped(kept), t) == if RecordsOf(kept, t) == [] then None else Some(RecordsOf(kept, t)) {
        PutGet(g, t0, list + [r0], t);
      }
    }
  }

  lemma {:induction false} IndexGroupGet(rs: seq<Record>, id: string)
    ensures Get(IndexGroup(rs), id) == LastWithId(rs, id)
  {
    if rs != [] {
      IndexGroupGet(rs[..|rs| - 1], id);
      PutGet(IndexGroup(rs[..|rs| - 1]), rs[|rs| - 1].id, rs[|rs| - 1], id);
    }
  }

  lemma {:induction false} IndexGroupUnique(rs: seq<Record>)
    ensures UniqueKeys(IndexGroup(rs))
  {
    if rs != [] {
      IndexGroupUnique(rs[..|rs| - 1]);
      PutUnique(IndexGroup(rs[..|rs| - 1]), rs[|rs| - 1].id, rs[|rs| - 1]);
    }
  }

  lemma {:induction false} IndexGroupsShape(stat: Dict<seq<Record>>)
    requires UniqueKeys(stat)
    ensures UniqueKeys(IndexGroups(stat))
    ensures forall t :: Get(IndexGroups(stat), t) == match Get(stat, t) case None => None case Some(g) => Some(IndexGroup(g))
    ensures forall p :: p in IndexGroups(stat) ==> UniqueKeys(p.1)
  {
    if stat != [] {
      var front := stat[..|stat| - 1];
      var (t0, g0) := stat[|stat| - 1];
      assert stat == front + [(t0, g0)];
      IndexGroupsShape(front);
      var b := IndexGroups(front);
      PutUnique(b, t0, IndexGroup(g0));
      PutPairs(b, t0, IndexGroup(g0));
      IndexGroupUnique(g0);
      assert !HasKey(front, t0) by {
        forall i | 0 <= i < |front| ensures front[i].0 != t0 {
          assert front[i] == stat[i];
        }
      }
      forall t ensures Get(IndexGroups(stat), t) == match Get(stat, t) case None => None case Some(g) => Some(IndexGroup(g)) {
        PutGet(b, t0, IndexGroup(g0), t);
        GetAppend(front, t0, g0, t);
      }
    }
  }

  lemma {:induction false} KeptRecords(entries: seq<Option<RawEntry>>, selected: Option<seq<string>>, t: string, id: string)
    ensures LastWithId(RecordsOf(Kept(entries, selected), t), id) == LastKept(entries, selected, t, id)
  {
    if entries != [] {
      KeptRecords(entries[..|entries| - 1], selected, t, id);
    }
  }

  /** The indexer's contract: a snapshot holds, under each tag and id, exactly the
      record built from the LAST entry with that tag and id that passes the
      allow-list and has a known tag (last write wins); everything else is absent.
      Ids are unique per tag and tags unique per snapshot. */
  lemma {:induction false} IndexedRecords(statArray: Option<seq<Option<RawEntry>>>, selected: Option<seq<string>>, t: string, id: string)
    ensures Lookup(IndexSnapshot(statArray, selected), t, id) == LastKept(statArray.GetOr([]), selected, t, id)
    ensures UniqueKeys(IndexSnapshot(statArray, selected))
    ensures forall p :: p in IndexSnapshot(statArray, selected) ==> UniqueKeys(p.1)
  {
    var kept := Kept(statArray.GetOr([]), selected);
    GroupedShape(kept);
    IndexGroupsShape(Grouped(kept));
    var rs := RecordsOf(kept, t);
    IndexGroupGet(rs, id);
    KeptRecords(statArray.GetOr([]), selected, t, id);
  }

  /** A kept entry is found under its own tag and id unless a later kept entry has
      the same tag and id; a dropped entry never adds anything. */
  lemma {:induction false} LaterEntryWins(entries: seq<Option<RawEntry>>, selected: Option<seq<string>>, e: RawEntry)
    requires entries != [] && entries[|entries| - 1] == Some(e) && IsKept(selected, e)
    ensures Lookup(IndexSnapshot(Some(entries), selected), e.tag, e.id) == Some(Build(ClassOf(e.tag).value, e))
  {
    IndexedRecords(Some(entries), selected, e.tag, e.id);
  }

  lemma {:induction false} DroppedEntryChangesNothing(entries: seq<Option<RawEntry>>, selected: Option<seq<string>>, e: RawEntry)
    requires !IsKept(selected, e)
    ensures IndexSnapshot(Some(entries + [Some(e)]), selected) == IndexSnapshot(Some(entries), selected)
  {
    assert (entries + [Some(e)])[..|entries|] == entries;
  }
}
