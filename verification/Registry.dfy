/** The domains table of migrations/001_initial.sql with the queries of dns-server/src/db.rs
    and the daemon, and the kernel map NAT_MAP, as values. A row is keyed by its domain
    (UNIQUE); the UNIQUE constraint on `domain_id` is enforced by the upsert. */
module Registry {
  import opened Wrappers
  import opened Addresses

  datatype Row = Row(id: DomainId, origin: Address, synthetic: Address)

  type Table = map<string, Row>

  const MAX_NAT_ENTRIES: nat := 65536

  // -------------------------------------------------------------------------
  // The id sequence
  // -------------------------------------------------------------------------

  function Succ(value: bv64): bv64 {
    value + 1
  }

  predicate IsExhausted(last: bv64) {
    last >= 0x7FFF_FFFF_FFFF_FFFF
  }

  /** `nextval` of a bigint sequence that starts at 1; it errors at its maximum. */
  function NextVal(last: bv64): Option<bv64> {
    if IsExhausted(last) then None else Some(Succ(last))
  }

  /** `row.0 as i32`, read back as `u32`: the low 32 bits. */
  function TruncateId(value: bv64): DomainId {
    DomainId((value & 0xFFFF_FFFF) as bv32)
  }

  // -------------------------------------------------------------------------
  // The table
  // -------------------------------------------------------------------------

  ghost predicate IdUsed(t: Table, id: DomainId) {
    exists d :: d in t && t[d].id == id
  }

  /** The row with a given id; ids are unique in a well-formed table. */
  ghost predicate IsRow(t: Table, id: DomainId, origin: Address) {
    exists d :: d in t && t[d].id == id && t[d].origin == origin
  }

  /** `SELECT … WHERE domain_id = …` */
  ghost function FindById(t: Table, id: DomainId): Option<Address> {
    if d :| d in t && t[d].id == id then Some(t[d].origin) else None
  }

  lemma FindByIdIsRow(t: Table, id: DomainId)
    ensures FindById(t, id).Some? <==> IdUsed(t, id)
    ensures FindById(t, id).Some? ==> IsRow(t, id, FindById(t, id).value)
  {
  }

  ghost predicate WellFormed(t: Table) {
    && (forall d :: d in t ==> t[d].synthetic == SyntheticIpv6(t[d].id.bits))
    && (forall d, e :: d in t && e in t && t[d].id == t[e].id ==> d == e)
  }

  /** Rows are never removed and their id and synthetic address never change. */
  ghost predicate Extends(before: Table, after: Table) {
    forall d :: d in before ==> d in after && after[d].id == before[d].id && after[d].synthetic == before[d].synthetic
  }

  lemma ExtendsTransitive(a: Table, b: Table, c: Table)
    requires Extends(a, b) && Extends(b, c)
    ensures Extends(a, c)
  {
  }

  /** `insert_domain`: a new row, or on conflict a new origin for the stored row. */
  function Upsert(t: Table, domain: string, id: DomainId, origin: Address, synthetic: Address): Table {
    if domain in t then t[domain := t[domain].(origin := origin)] else t[domain := Row(id, origin, synthetic)]
  }

  /** `UPDATE domains SET origin_ipv6 = … WHERE domain_id = …` */
  function SetOrigin(t: Table, id: DomainId, origin: Address): Table {
    map d | d in t :: if t[d].id == id then t[d].(origin := origin) else t[d]
  }

  lemma UpsertRows(t: Table, domain: string, id: DomainId, origin: Address, synthetic: Address)
    ensures var u := Upsert(t, domain, id, origin, synthetic);
            && u.Keys == t.Keys + {domain} && u[domain].origin == origin
            && (domain in t ==> u[domain].id == t[domain].id && u[domain].synthetic == t[domain].synthetic)
            && (domain !in t ==> u[domain].id == id && u[domain].synthetic == synthetic)
            && (forall d :: d in t && d != domain ==> u[d] == t[d])
  {
  }

  lemma UpsertLaws(t: Table, domain: string, id: DomainId, origin: Address)
    requires WellFormed(t) && (domain in t || !IdUsed(t, id))
    ensures var u := Upsert(t, domain, id, origin, SyntheticIpv6(id.bits));
            && WellFormed(u) && Extends(t, u) && u.Keys == t.Keys + {domain}
            && u[domain].origin == origin
            && (forall d :: d in t && d != domain ==> u[d] == t[d])
  {
    hide SyntheticIpv6, Upsert;
    var u := Upsert(t, domain, id, origin, SyntheticIpv6(id.bits));
    UpsertRows(t, domain, id, origin, SyntheticIpv6(id.bits));
    forall d, e | d in u && e in u && u[d].id == u[e].id
      ensures d == e
    {
      if domain in t {
        assert u[d].id == t[d].id && u[e].id == t[e].id;
      }
    }
  }

  lemma SetOriginLaws(t: Table, id: DomainId, origin: Address)
    requires WellFormed(t)
    ensures var u := SetOrigin(t, id, origin);
            && WellFormed(u) && Extends(t, u) && u.Keys == t.Keys
            && (forall d :: d in t && t[d].id == id ==> u[d].origin == origin)
            && (forall d :: d in t && t[d].id != id ==> u[d] == t[d])
  {
    hide SyntheticIpv6;
  }

  // -------------------------------------------------------------------------
  // The kernel map
  // -------------------------------------------------------------------------

  /** NAT_MAP holds the current origin of the row with this id, if there is one. */
  ghost predicate Synced(t: Table, m: NatMap, id: DomainId) {
    forall d :: d in t && t[d].id == id ==> id in m && m[id] == t[d].origin
  }

  predicate HasRoom(m: NatMap, id: DomainId) {
    id in m || |m| < MAX_NAT_ENTRIES
  }

  /** `map.insert(id, entry, BPF_ANY)`: a full map refuses new keys. */
  function InsertNat(m: NatMap, id: DomainId, origin: Address): NatMap {
    if HasRoom(m, id) then m[id := origin] else m
  }

  /** The ids of the named rows. */
  ghost function IdsOf(t: Table, names: set<string>): set<DomainId> {
    set d | d in t && d in names :: t[d].id
  }

  /** In a well-formed table every row has its own id. */
  lemma {:induction false} IdsCountRows(t: Table, names: set<string>)
    requires WellFormed(t) && names <= t.Keys
    ensures |IdsOf(t, names)| == |names|
  {
    hide WellFormed, IdsOf;
    if names == {} {
      NoIds(t);
    } else {
      var d :| d in names;
      IdsCountRows(t, names - {d});
      OneMoreId(t, names - {d}, d);
      assert names - {d} + {d} == names;
    }
  }

  lemma NoIds(t: Table)
    ensures IdsOf(t, {}) == {}
  {
  }

  lemma OneMoreId(t: Table, names: set<string>, d: string)
    requires WellFormed(t) && d in t && d !in names
    ensures IdsOf(t, names + {d}) == IdsOf(t, names) + {t[d].id} && t[d].id !in IdsOf(t, names)
  {
    hide SyntheticIpv6;
  }

  /** A map with these keys can take these ids: they are all there, or there is room. */
  ghost predicate CanHold(keys: set<DomainId>, ids: set<DomainId>) {
    ids <= keys || |keys + ids| <= MAX_NAT_ENTRIES
  }

  lemma CanHoldFewer(keys: set<DomainId>, ids: set<DomainId>, all: set<DomainId>)
    requires ids <= all && CanHold(keys, all)
    ensures CanHold(keys, ids)
  {
    if |keys + all| <= MAX_NAT_ENTRIES {
      SubsetIsSmaller(keys + ids, keys + all);
    }
  }

  /** One insert after others succeeds exactly when the map can hold one id more. */
  lemma InsertWithin(keys: set<DomainId>, m: NatMap, ids: set<DomainId>, id: DomainId)
    requires m.Keys == keys + ids && CanHold(keys, ids)
    ensures HasRoom(m, id) <==> CanHold(keys, ids + {id})
  {
    var more := keys + (ids + {id});
    if id in m {
      assert more == m.Keys;
      assert ids <= keys ==> ids + {id} <= keys;
    } else {
      assert more == m.Keys + {id};
      assert id in ids + {id} && id !in keys;
    }
  }

  /** While NAT_MAP only holds ids of the table and the table fits, there is room for
      every row. */
  lemma TableFits(t: Table, m: NatMap, id: DomainId)
    requires WellFormed(t) && m.Keys <= IdsOf(t, t.Keys) && id in IdsOf(t, t.Keys) && |t| <= MAX_NAT_ENTRIES
    ensures HasRoom(m, id)
  {
    hide WellFormed, IdsOf;
    if id !in m {
      IdsCountRows(t, t.Keys);
      assert m.Keys <= IdsOf(t, t.Keys) - {id};
      SubsetIsSmaller(m.Keys, IdsOf(t, t.Keys) - {id});
    }
  }

  lemma {:induction false} SubsetIsSmaller<T>(a: set<T>, b: set<T>)
    requires a <= b
    ensures |a| <= |b|
  {
    if a != {} {
      var x :| x in a;
      SubsetIsSmaller(a - {x}, b - {x});
    }
  }
}
