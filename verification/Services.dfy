/** The queries and loops of the DNS server and the daemon as they run: the database
    and NAT_MAP are objects updated in place. Each atomic operation is proved against
    the function that `Control` interleaves; the loops are proved for a run without
    interference. */
module Services {
  import opened Wrappers
  import opened Addresses
  import opened Registry

  class Database {
    var table: Table
    var sequence: bv64
    var queue: seq<DomainId>

    constructor ()
      ensures table == map[] && sequence == 0 && queue == [] && Valid()
    {
      table, sequence, queue := map[], 0, [];
    }

    ghost predicate Valid()
      reads this
    {
      WellFormed(table)
    }

    /** `find_by_domain` */
    method FindByDomain(domain: string) returns (row: Option<Row>)
      ensures row.Some? <==> domain in table
      ensures row.Some? ==> row.value == table[domain]
    {
      row := if domain in table then Some(table[domain]) else None;
    }

    /** `next_domain_id` */
    method NextDomainId() returns (id: Option<DomainId>)
      modifies this`sequence
      ensures id.Some? <==> NextVal(old(sequence)).Some?
      ensures id.Some? ==> sequence == NextVal(old(sequence)).value && id.value == TruncateId(sequence)
      ensures id.None? ==> sequence == old(sequence)
    {
      hide NextVal, TruncateId;
      var next := NextVal(sequence);
      if next.None? {
        return None;
      }
      sequence := next.value;
      id := Some(TruncateId(sequence));
    }

    /** `insert_domain`: fails when a new row would repeat an id, or with a `fault` outside
        the model, such as a lost connection or an exhausted SERIAL key. */
    method InsertDomain(id: DomainId, domain: string, origin: Address, fault: bool) returns (stored: Option<Row>)
      requires Valid()
      modifies this`table, this`queue
      ensures Valid() && Extends(old(table), table)
      ensures stored.None? <==> fault || (domain !in old(table) && IdUsed(old(table), id))
      ensures stored.None? ==> table == old(table) && queue == old(queue)
      ensures stored.Some? ==>
                && table == Upsert(old(table), domain, id, origin, SyntheticIpv6(id.bits))
                && stored.value == table[domain] && queue == old(queue) + [stored.value.id]
    {
      hide SyntheticIpv6, WellFormed, Upsert;
      if fault {
        return None;
      }
      if domain !in table {
        var taken := set d | d in table :: table[d].id;
        if id in taken {
          return None;
        }
      }
      UpsertLaws(table, domain, id, origin);
      table := Upsert(table, domain, id, origin, SyntheticIpv6(id.bits));
      queue := queue + [table[domain].id];
      stored := Some(table[domain]);
    }

    /** The resolver's `UPDATE`, with the trigger. */
    method UpdateOrigin(id: DomainId, origin: Address)
      requires Valid()
      modifies this`table, this`queue
      ensures Valid() && Extends(old(table), table) && table == SetOrigin(old(table), id, origin)
      ensures queue == (if IdUsed(old(table), id) then old(queue) + [id] else old(queue))
    {
      hide WellFormed, SetOrigin;
      SetOriginLaws(table, id, origin);
      var known := set d | d in table :: table[d].id;
      if id in known {
        queue := queue + [id];
      }
      table := SetOrigin(table, id, origin);
    }

    /** The listener's row fetch. */
    method FetchOrigin(id: DomainId) returns (origin: Option<Address>)
      ensures origin.Some? <==> IdUsed(table, id)
      ensures origin.Some? ==> IsRow(table, id, origin.value)
    {
      var names := set d | d in table && table[d].id == id;
      assert forall d :: d in table && table[d].id == id ==> d in names;
      if names == {} {
        return None;
      }
      var d :| d in names;
      origin := Some(table[d].origin);
    }
  }

  class BpfMaps {
    var natMap: NatMap

    constructor ()
      ensures natMap == map[]
    {
      natMap := map[];
    }

    /** `insert_nat_entry` */
    method InsertNatEntry(id: DomainId, origin: Address) returns (ok: bool)
      modifies this
      ensures natMap == InsertNat(old(natMap), id, origin) && ok == HasRoom(old(natMap), id)
    {
      ok := id in natMap || |natMap| < MAX_NAT_ENTRIES;
      if ok {
        natMap := natMap[id := origin];
      }
    }
  }

  // -------------------------------------------------------------------------
  // handle_aaaa
  // -------------------------------------------------------------------------

  datatype Reply = Answer(address: Address) | NxDomain | ServFail

  datatype Lookup = Found(address: Address) | NoRecord | Failed

  /** The queries of one call that fail for a reason outside the model. */
  datatype Faults = Faults(find: bool, next: bool, insert: bool)

  /** The next id is unusable: the sequence is exhausted or a row has the id already. */
  ghost predicate NoFreshId(t: Table, sequence: bv64) {
    NextVal(sequence).None? || IdUsed(t, TruncateId(NextVal(sequence).value))
  }

  /** `handle_aaaa` when nothing runs in between. A known domain gets its stored address
      and nothing changes; an unknown one that resolves gets a new row with the address
      of a fresh id and the upstream origin, and exactly that address is the answer.
      `None` stands for an error of a query; besides a fault of the database it happens
      exactly when there is no fresh id, and it never changes the table. */
  method HandleAaaa(db: Database, domain: string, upstream: Lookup, faults: Faults) returns (reply: Option<Reply>)
    requires db.Valid()
    modifies db
    ensures db.Valid() && Extends(old(db.table), db.table)
    ensures reply.None? <==>
              || faults.find
              || (domain !in old(db.table) && upstream.Found?
                  && (faults.next || faults.insert || NoFreshId(old(db.table), old(db.sequence))))
    ensures !faults.find && domain in old(db.table) ==> reply == Some(Answer(old(db.table)[domain].synthetic))
    ensures !faults.find && domain !in old(db.table) && !upstream.Found? ==>
              reply == Some(if upstream.NoRecord? then NxDomain else ServFail)
    ensures db.sequence == (if faults.find || domain in old(db.table) || !upstream.Found? || faults.next
                               || NextVal(old(db.sequence)).None? then old(db.sequence)
                            else NextVal(old(db.sequence)).value)
    ensures domain in old(db.table) || !upstream.Found? || reply.None? ==>
              db.table == old(db.table) && db.queue == old(db.queue)
    ensures domain !in old(db.table) && upstream.Found? && reply.Some? ==>
              var id := TruncateId(db.sequence);
              && NextVal(old(db.sequence)) == Some(db.sequence)
              && reply == Some(Answer(SyntheticIpv6(id.bits)))
              && db.table == old(db.table)[domain := Row(id, upstream.address, SyntheticIpv6(id.bits))]
              && db.queue == old(db.queue) + [id]
  {
    hide SyntheticIpv6, WellFormed, NextVal, TruncateId;
    if faults.find {
      return None;
    }
    var row := db.FindByDomain(domain);
    if row.Some? {
      return Some(Answer(row.value.synthetic));
    }
    if upstream.NoRecord? {
      return Some(NxDomain);
    }
    if upstream.Failed? {
      return Some(ServFail);
    }
    if faults.next {
      return None;
    }
    var id := db.NextDomainId();
    if id.None? {
      return None;
    }
    var stored := db.InsertDomain(id.value, domain, upstream.address, faults.insert);
    if stored.None? {
      return None;
    }
    reply := Some(Answer(stored.value.synthetic));
  }

  // -------------------------------------------------------------------------
  // bulk_load_from_db
  // -------------------------------------------------------------------------

  /** NAT_MAP after the rows in `names` were inserted over `before`. */
  ghost predicate Loaded(t: Table, before: NatMap, m: NatMap, names: set<string>) {
    && m.Keys == before.Keys + IdsOf(t, names)
    && (forall d :: d in names && d in t ==> t[d].id in m && m[t[d].id] == t[d].origin)
    && (forall id :: id !in IdsOf(t, names) ==> SameEntry(before, m, id))
  }

  ghost predicate SameEntry(before: NatMap, after: NatMap, id: DomainId) {
    (id in after <==> id in before) && (id in after ==> after[id] == before[id])
  }

  lemma LoadOneRows(t: Table, m: NatMap, names: set<string>, d: string)
    requires WellFormed(t) && d in t
    requires forall e :: e in names && e in t ==> t[e].id in m && m[t[e].id] == t[e].origin
    ensures var n := m[t[d].id := t[d].origin];
            forall e :: e in names + {d} && e in t ==> t[e].id in n && n[t[e].id] == t[e].origin
  {
    assert forall e :: e in t && e != d ==> t[e].id != t[d].id;
    hide WellFormed;
  }

  lemma LoadOneEntries(before: NatMap, m: NatMap, ids: set<DomainId>, id: DomainId, origin: Address)
    requires m.Keys == before.Keys + ids && forall other :: other !in ids ==> SameEntry(before, m, other)
    ensures var n := m[id := origin];
            && n.Keys == before.Keys + (ids + {id})
            && (forall other :: other !in ids + {id} ==> SameEntry(before, n, other))
  {
    var n := m[id := origin];
    assert n.Keys == m.Keys + {id};
    forall other | other !in ids + {id}
      ensures SameEntry(before, n, other)
    {
      assert SameEntry(before, m, other);
    }
  }

  lemma LoadOne(t: Table, before: NatMap, m: NatMap, names: set<string>, d: string)
    requires WellFormed(t) && Loaded(t, before, m, names) && d in t && d !in names && HasRoom(m, t[d].id)
    ensures Loaded(t, before, InsertNat(m, t[d].id, t[d].origin), names + {d})
  {
    hide WellFormed, IdsOf, SameEntry;
    OneMoreId(t, names, d);
    LoadOneRows(t, m, names, d);
    LoadOneEntries(before, m, IdsOf(t, names), t[d].id, t[d].origin);
  }

  lemma LoadedKeys(t: Table, before: NatMap, m: NatMap, names: set<string>)
    requires Loaded(t, before, m, names)
    ensures m.Keys == before.Keys + IdsOf(t, names)
  {
  }

  /** One insert of a loop that will insert the rows in `all`. */
  lemma LoadStep(t: Table, before: NatMap, m: NatMap, names: set<string>, d: string, all: set<string>)
    requires WellFormed(t) && Loaded(t, before, m, names) && CanHold(before.Keys, IdsOf(t, names))
    requires d in t && d !in names && names + {d} <= all
    ensures HasRoom(m, t[d].id) ==>
              && Loaded(t, before, InsertNat(m, t[d].id, t[d].origin), names + {d})
              && CanHold(before.Keys, IdsOf(t, names + {d}))
    ensures !HasRoom(m, t[d].id) ==> !CanHold(before.Keys, IdsOf(t, all))
  {
    LoadedKeys(t, before, m, names);
    OneMoreId(t, names, d);
    assert IdsOf(t, names + {d}) <= IdsOf(t, all);
    hide WellFormed, Loaded, CanHold, HasRoom, InsertNat, IdsOf;
    InsertWithin(before.Keys, m, IdsOf(t, names), t[d].id);
    if HasRoom(m, t[d].id) {
      LoadOne(t, before, m, names, d);
    } else if CanHold(before.Keys, IdsOf(t, all)) {
      CanHoldFewer(before.Keys, IdsOf(t, names + {d}), IdsOf(t, all));
    }
  }

  lemma NothingLoaded(t: Table, m: NatMap)
    ensures Loaded(t, m, m, {}) && CanHold(m.Keys, IdsOf(t, {}))
  {
    hide SyntheticIpv6;
    assert IdsOf(t, {}) == {};
  }

  lemma EmptyMapHolds(t: Table)
    requires WellFormed(t)
    ensures CanHold({}, IdsOf(t, t.Keys)) <==> |t| <= 65536
  {
    hide WellFormed, IdsOf;
    IdsCountRows(t, t.Keys);
    assert {} + IdsOf(t, t.Keys) == IdsOf(t, t.Keys);
  }

  /** `bulk_load_from_db`: it succeeds if and only if the map can hold the ids of the
      table, and then every row is in NAT_MAP and every other entry is as before. Into the
      empty map of a freshly loaded program that means: if and only if the table fits. */
  method BulkLoad(db: Database, maps: BpfMaps) returns (ok: bool)
    requires db.Valid()
    modifies maps
    ensures ok <==> CanHold(old(maps.natMap).Keys, IdsOf(db.table, db.table.Keys))
    ensures old(maps.natMap) == map[] ==> (ok <==> |db.table| <= 65536)
    ensures ok ==> Loaded(db.table, old(maps.natMap), maps.natMap, db.table.Keys)
  {
    hide HasRoom, WellFormed, Loaded, InsertNat, CanHold, IdsOf;
    var rows := db.table;
    var todo := rows.Keys;
    ghost var (before, done) := (maps.natMap, {});
    NothingLoaded(rows, before);
    EmptyMapHolds(rows);
    assert before == map[] ==> before.Keys == {};
    while todo != {}
      invariant todo <= rows.Keys && done == rows.Keys - todo
      invariant Loaded(rows, before, maps.natMap, done) && CanHold(before.Keys, IdsOf(rows, done))
      decreases todo
    {
      var d :| d in todo;
      LoadStep(rows, before, maps.natMap, done, d, rows.Keys);
      var inserted := maps.InsertNatEntry(rows[d].id, rows[d].origin);
      if !inserted {
        return false;
      }
      todo := todo - {d};
      done := done + {d};
    }
    assert done == rows.Keys;
    ok := true;
  }

  // -------------------------------------------------------------------------
  // run_listener
  // -------------------------------------------------------------------------

  /** The receive loop of `run_listener` until the queue is empty. Afterwards NAT_MAP
      holds the current origin for every id that was notified, except those whose insert
      was refused and logged: ids of rows that a full map does not hold. Every other entry
      is untouched. */
  method DrainNotifications(db: Database, maps: BpfMaps) returns (refused: set<DomainId>)
    requires db.Valid()
    modifies db`queue, maps
    ensures db.queue == []
    ensures forall id :: id in old(db.queue) && id !in refused ==> Synced(db.table, maps.natMap, id)
    ensures forall id :: id in refused ==> id in old(db.queue) && IdUsed(db.table, id) && !HasRoom(maps.natMap, id)
    ensures forall id :: id !in old(db.queue) ==> SameEntry(old(maps.natMap), maps.natMap, id)
  {
    hide SyntheticIpv6, HasRoom, InsertNat, WellFormed, Synced, SameEntry;
    ghost var done: seq<DomainId> := [];
    refused := {};
    EntriesSame(maps.natMap);
    while |db.queue| > 0
      invariant old(db.queue) == done + db.queue
      invariant forall id :: id in done && id !in refused ==> Synced(db.table, maps.natMap, id)
      invariant forall id :: id in refused ==> id in done && IdUsed(db.table, id) && !HasRoom(maps.natMap, id)
      invariant forall id :: id !in done ==> SameEntry(old(maps.natMap), maps.natMap, id)
      decreases |db.queue|
    {
      var id := db.queue[0];
      done := done + [id];
      db.queue := db.queue[1..];
      var origin := db.FetchOrigin(id);
      if origin.Some? {
        SyncOne(db.table, old(maps.natMap), maps.natMap, id, origin.value);
        var ok := maps.InsertNatEntry(id, origin.value);
        if !ok {
          refused := refused + {id};
        }
      } else {
        NothingToSync(db.table, maps.natMap, id);
      }
    }
  }

  lemma EntriesSame(m: NatMap)
    ensures forall id :: SameEntry(m, m, id)
  {
  }

  lemma NothingToSync(t: Table, m: NatMap, id: DomainId)
    requires !IdUsed(t, id)
    ensures Synced(t, m, id)
  {
  }

  lemma SyncOne(t: Table, before: NatMap, m: NatMap, id: DomainId, origin: Address)
    requires WellFormed(t) && IsRow(t, id, origin)
    ensures HasRoom(m, id) ==> Synced(t, InsertNat(m, id, origin), id)
    ensures !HasRoom(m, id) ==> InsertNat(m, id, origin) == m
    ensures forall other :: !HasRoom(m, other) ==> !HasRoom(InsertNat(m, id, origin), other)
    ensures forall other :: other != id && Synced(t, m, other) ==> Synced(t, InsertNat(m, id, origin), other)
    ensures forall other :: other != id && SameEntry(before, m, other) ==> SameEntry(before, InsertNat(m, id, origin), other)
  {
    hide SyntheticIpv6;
  }

  // -------------------------------------------------------------------------
  // resolve_all
  // -------------------------------------------------------------------------

  /** A lookup that found an origin other than the one in the snapshot. */
  predicate Changed(rows: Table, found: map<string, Address>, d: string) {
    d in rows && d in found && found[d] != rows[d].origin
  }

  /** The table after the rows in `done` were resolved. */
  function Resolved(rows: Table, found: map<string, Address>, done: set<string>): Table {
    map d | d in rows :: if d in done && d in found then rows[d].(origin := found[d]) else rows[d]
  }

  /** The names in `done` whose origin changed. */
  ghost function ChangedNames(rows: Table, found: map<string, Address>, done: set<string>): set<string> {
    set d | d in done && Changed(rows, found, d)
  }

  lemma ResolvedLaws(rows: Table, found: map<string, Address>)
    requires WellFormed(rows)
    ensures var target := Resolved(rows, found, rows.Keys);
            && WellFormed(target) && target.Keys == rows.Keys
            && (forall d :: d in rows ==> target[d].id == rows[d].id)
            && (forall d :: Changed(rows, found, d) ==> target[d].origin == found[d])
  {
    hide SyntheticIpv6;
  }

  lemma ResolveOne(rows: Table, found: map<string, Address>, done: set<string>, d: string)
    requires WellFormed(rows) && d in rows && d !in done
    ensures Changed(rows, found, d) ==>
              SetOrigin(Resolved(rows, found, done), rows[d].id, found[d]) == Resolved(rows, found, done + {d})
    ensures !Changed(rows, found, d) ==> Resolved(rows, found, done) == Resolved(rows, found, done + {d})
  {
    hide SyntheticIpv6;
  }

  lemma ChangedOne(rows: Table, found: map<string, Address>, done: set<string>, d: string)
    requires d in rows && d !in done && done <= rows.Keys
    ensures ChangedNames(rows, found, done + {d})
            == (if Changed(rows, found, d) then ChangedNames(rows, found, done) + {d} else ChangedNames(rows, found, done))
    ensures d !in ChangedNames(rows, found, done)
    ensures ChangedNames(rows, found, done + {d}) <= ChangedNames(rows, found, rows.Keys)
  {
  }

  /** Exactly the given ids were notified, each once. */
  ghost predicate Notified(before: seq<DomainId>, after: seq<DomainId>, ids: set<DomainId>) {
    before <= after && multiset(after[|before|..]) == multiset(ids)
  }

  lemma NotifyOne(before: seq<DomainId>, after: seq<DomainId>, ids: set<DomainId>, id: DomainId)
    requires Notified(before, after, ids) && id !in ids
    ensures Notified(before, after + [id], ids + {id})
  {
    assert (after + [id])[|before|..] == after[|before|..] + [id];
    assert multiset(ids + {id}) == multiset(ids) + multiset{id};
  }

  lemma NothingChanged(rows: Table, found: map<string, Address>, queue: seq<DomainId>)
    ensures Resolved(rows, found, {}) == rows && ChangedNames(rows, found, {}) == {}
    ensures Extends(rows, rows) && Notified(queue, queue, IdsOf(rows, {}))
  {
    hide SyntheticIpv6;
    assert IdsOf(rows, {}) == {};
  }

  lemma SameIds(t: Table, u: Table, names: set<string>)
    requires t.Keys == u.Keys && forall d :: d in t ==> t[d].id == u[d].id
    ensures IdsOf(t, names) == IdsOf(u, names)
  {
    hide SyntheticIpv6;
  }

  /** The body of the loop for a changed origin: commit, then write the map. */
  method ChangeOrigin(db: Database, maps: BpfMaps, ghost rows: Table, id: DomainId, origin: Address) returns (ok: bool)
    requires db.Valid() && Extends(rows, db.table) && IdUsed(db.table, id)
    modifies db`table, db`queue, maps
    ensures db.Valid() && Extends(rows, db.table)
    ensures db.table == SetOrigin(old(db.table), id, origin) && db.queue == old(db.queue) + [id]
    ensures maps.natMap == InsertNat(old(maps.natMap), id, origin) && ok == HasRoom(old(maps.natMap), id)
    ensures !ok ==> !HasRoom(maps.natMap, id)
  {
    hide HasRoom, WellFormed, Extends, SetOrigin, IdUsed;
    ghost var before := db.table;
    db.UpdateOrigin(id, origin);
    ExtendsTransitive(rows, before, db.table);
    ok := maps.InsertNatEntry(id, origin);
  }

  /** `resolve_all` when nothing runs in between. `found` holds the first AAAA record of
      each lookup that succeeded. It succeeds if and only if the map can hold the ids of
      the rows whose origin changed. Then every row has the origin that was found, or keeps
      its own; each changed row is notified once and written to NAT_MAP and no other entry
      changes. When it fails, some row was committed that the full map does not hold. */
  method ResolveAll(db: Database, maps: BpfMaps, found: map<string, Address>) returns (ok: bool)
    requires db.Valid()
    modifies db`table, db`queue, maps
    ensures db.Valid() && Extends(old(db.table), db.table)
    ensures var changed := ChangedNames(old(db.table), found, old(db.table).Keys);
            && (ok <==> CanHold(old(maps.natMap).Keys, IdsOf(old(db.table), changed)))
            && (ok ==> db.table == Resolved(old(db.table), found, old(db.table).Keys))
            && (ok ==> Loaded(db.table, old(maps.natMap), maps.natMap, changed))
            && (ok ==> Notified(old(db.queue), db.queue, IdsOf(old(db.table), changed)))
    ensures !ok ==> exists d :: d in old(db.table) && d in db.table && Changed(old(db.table), found, d)
                                && db.table[d].origin == found[d] && !HasRoom(maps.natMap, old(db.table)[d].id)
  {
    hide HasRoom, WellFormed, Extends, Loaded, Notified, Resolved, ChangedNames, Changed, SetOrigin, InsertNat, IdUsed,
      IdsOf, CanHold;
    var rows := db.table;
    var todo := rows.Keys;
    ghost var (before, queue) := (maps.natMap, db.queue);
    ghost var target := Resolved(rows, found, rows.Keys);
    ghost var all := ChangedNames(rows, found, rows.Keys);
    ghost var (done: set<string>, written: set<string>) := ({}, {});
    ResolvedLaws(rows, found);
    SameIds(rows, target, all);
    NothingChanged(rows, found, queue);
    NothingLoaded(target, before);
    while todo != {}
      invariant todo <= rows.Keys && done == rows.Keys - todo
      invariant db.Valid() && Extends(rows, db.table)
      invariant db.table == Resolved(rows, found, done) && written == ChangedNames(rows, found, done)
      invariant Loaded(target, before, maps.natMap, written) && CanHold(before.Keys, IdsOf(target, written))
      invariant Notified(queue, db.queue, IdsOf(rows, written))
      decreases todo
    {
      var d :| d in todo;
      ResolveOne(rows, found, done, d);
      ChangedOne(rows, found, done, d);
      IsChanged(rows, found, d);
      StillUsed(rows, db.table, d);
      todo := todo - {d};
      done := done + {d};
      if d in found && found[d] != rows[d].origin {
        LoadStep(target, before, maps.natMap, written, d, all);
        OneMoreId(rows, written, d);
        NotifyOne(queue, db.queue, IdsOf(rows, written), rows[d].id);
        var inserted := ChangeOrigin(db, maps, rows, rows[d].id, found[d]);
        if !inserted {
          ResolvedOrigin(rows, found, done, d);
          return false;
        }
        written := written + {d};
      }
    }
    assert done == rows.Keys;
    ok := true;
  }

  lemma IsChanged(rows: Table, found: map<string, Address>, d: string)
    ensures Changed(rows, found, d) <==> d in rows && d in found && found[d] != rows[d].origin
  {
  }

  lemma ResolvedOrigin(rows: Table, found: map<string, Address>, done: set<string>, d: string)
    requires d in rows && d in found && d in done
    ensures d in Resolved(rows, found, done) && Resolved(rows, found, done)[d].origin == found[d]
  {
    hide SyntheticIpv6;
  }

  lemma StillUsed(rows: Table, t: Table, d: string)
    requires Extends(rows, t) && d in rows
    ensures IdUsed(t, rows[d].id)
  {
    assert d in t && t[d].id == rows[d].id;
  }
}
