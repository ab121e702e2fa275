/** The id sequence over every run: it counts 1, 2, 3, …, one number for each allocation, and
    as long as it stays below 2^32 no two domains or waiting handlers share an id, so no
    insert ever fails on a taken one. */
module Allocation {
  import opened Wrappers
  import opened Addresses
  import opened Registry
  import opened Control
  import opened Convergence
  import opened Services

  // -------------------------------------------------------------------------
  // The sequence
  // -------------------------------------------------------------------------

  /** The step draws a number for a handler that has resolved its domain. */
  ghost predicate Draws(s: State, step: Step) {
    step.Dns? && step.dns.Allocate? && step.h in s.handlers && s.handlers[step.h].Resolved? && !IsExhausted(s.sequence)
  }

  /** The numbers drawn in the first `k` steps of a run. */
  ghost function Drawn(states: seq<State>, steps: seq<Step>, k: nat): seq<bv64>
    requires k < |states| && k <= |steps|
  {
    if k == 0 then []
    else if Draws(states[k - 1], steps[k - 1]) then Drawn(states, steps, k - 1) + [states[k].sequence]
    else Drawn(states, steps, k - 1)
  }

  /** The list is 1, 2, 3, … up to `last`. */
  ghost predicate CountsTo(drawn: seq<bv64>, last: bv64) {
    if |drawn| == 0 then last == 0
    else
      && drawn[0] == 1 && drawn[|drawn| - 1] == last
      && forall i :: 0 < i < |drawn| ==> drawn[i] == Succ(drawn[i - 1])
  }

  lemma FirstIsOne()
    ensures Succ(0) == 1
  {
  }

  lemma OneMore(drawn: seq<bv64>, last: bv64, next: bv64)
    requires CountsTo(drawn, last) && next == Succ(last)
    ensures CountsTo(drawn + [next], next)
  {
    FirstIsOne();
    hide Succ;
    var more := drawn + [next];
    forall i | 0 < i < |more|
      ensures more[i] == Succ(more[i - 1])
    {
      if i < |drawn| {
        assert drawn[i] == Succ(drawn[i - 1]);
      }
    }
  }

  lemma StoreKeepsSequence(s: State, h: nat, domain: string, origin: Address, id: DomainId)
    ensures ApplyStore(s, h, domain, origin, id).sequence == s.sequence
  {
    hide Upsert, IdUsed, SyntheticIpv6, Without;
  }

  lemma DnsSequence(s: State, h: nat, op: DnsOp)
    requires DnsEnabled(s, h, op)
    ensures ApplyDns(s, h, op).sequence == (if Draws(s, Dns(h, op)) then Succ(s.sequence) else s.sequence)
  {
    hide ApplyStore, TruncateId, Without, Succ, IsExhausted;
    match op
    case Query(_) =>
    case Lookup =>
    case Upstream(_) =>
    case Allocate =>
    case Store => StoreKeepsSequence(s, h, s.handlers[h].domain, s.handlers[h].origin, s.handlers[h].id);
    case Abandon =>
  }

  lemma ResolverKeeps(s: State, op: ResolverOp)
    requires ResolverEnabled(s, op)
    ensures ApplyResolver(s, op).sequence == s.sequence && ApplyResolver(s, op).handlers == s.handlers
  {
    hide IdUsed, SetOrigin, InsertNat, HasRoom, CommitOrigin;
    match op
    case Begin =>
    case ResolveRow(name, found) => ResolveRowKeeps(s, s.sweep.todo[name], s.sweep.todo - {name}, found);
    case WriteResolved =>
    case End =>
  }

  lemma ResolveRowKeeps(s: State, row: Row, rest: Table, found: Option<Address>)
    ensures var t := ApplyResolveRow(s, row, rest, found); t.sequence == s.sequence && t.handlers == s.handlers
  {
    hide IdUsed, SetOrigin;
  }

  lemma ListenerKeeps(s: State, op: ListenerOp)
    requires ListenerEnabled(s, op)
    ensures ApplyListener(s, op).sequence == s.sequence && ApplyListener(s, op).handlers == s.handlers
  {
    hide InsertNat, FindById;
  }

  lemma DaemonKeeps(s: State, op: DaemonOp)
    requires DaemonEnabled(s, op)
    ensures ApplyDaemon(s, op).sequence == s.sequence && ApplyDaemon(s, op).handlers == s.handlers
  {
    hide InsertNat, HasRoom;
  }

  lemma SequenceStep(s: State, step: Step)
    requires Enabled(s, step)
    ensures Apply(s, step).sequence == (if Draws(s, step) then Succ(s.sequence) else s.sequence)
  {
    hide Succ, ApplyDns, ApplyDaemon, ApplyListener, ApplyResolver, Draws, DnsEnabled, DaemonEnabled, ListenerEnabled, ResolverEnabled;
    match step
    case Dns(h, op) => DnsSequence(s, h, op);
    case Proc(op) =>
      DaemonKeeps(s, op);
      OnlyDnsDraws(s, step);
    case Listening(op) =>
      ListenerKeeps(s, op);
      OnlyDnsDraws(s, step);
    case Resolving(op) =>
      ResolverKeeps(s, op);
      OnlyDnsDraws(s, step);
  }

  lemma OnlyDnsDraws(s: State, step: Step)
    ensures Draws(s, step) ==> step.Dns?
  {
  }

  /** In every run the numbers drawn are 1, 2, 3, … without a gap, and the sequence stands at
      the last one. */
  lemma {:induction false} SequenceCounts(states: seq<State>, steps: seq<Step>, k: nat)
    requires IsRun(states, steps) && k < |states|
    ensures CountsTo(Drawn(states, steps, k), states[k].sequence)
  {
    hide Apply, Enabled, Draws, CountsTo, Succ;
    if k == 0 {
      StartsAtZero();
    } else {
      SequenceCounts(states, steps, k - 1);
      SequenceStep(states[k - 1], steps[k - 1]);
      if Draws(states[k - 1], steps[k - 1]) {
        OneMore(Drawn(states, steps, k - 1), states[k - 1].sequence, states[k].sequence);
      }
    }
  }

  lemma DrawsUnexhausted(s: State, step: Step)
    ensures Draws(s, step) ==> !IsExhausted(s.sequence)
  {
  }

  lemma StartsAtZero()
    ensures CountsTo([], INIT.sequence)
  {
  }

  /** The sequence is a bigint: it ends at 2^63 - 1. */
  lemma SequenceEnds()
    ensures NextVal(0x7FFF_FFFF_FFFF_FFFE) == Some(0x7FFF_FFFF_FFFF_FFFF) && NextVal(0x7FFF_FFFF_FFFF_FFFF) == None
  {
  }

  // -------------------------------------------------------------------------
  // Ids
  // -------------------------------------------------------------------------

  function Number(id: DomainId): bv64 {
    id.bits as bv64
  }

  /** Below 2^32 an id is its number, and only every 2^32 numbers an id repeats. */
  lemma IdIsNumber(a: bv64, b: bv64)
    ensures a <= 0xFFFF_FFFF ==> Number(TruncateId(a)) == a
    ensures TruncateId(a) == TruncateId(b) <==> a & 0xFFFF_FFFF == b & 0xFFFF_FFFF
  {
  }

  /** Fewer than 2^32 ids were drawn. */
  predicate InRange(sequence: bv64) {
    sequence <= 0xFFFF_FFFF
  }

  /** And so after one more. */
  predicate IsSmall(sequence: bv64) {
    sequence < 0xFFFF_FFFF
  }

  ghost predicate DrawnBy(id: DomainId, sequence: bv64) {
    1 <= Number(id) <= sequence
  }

  /** Every id in the table or in the hands of a handler was drawn, and all are distinct. */
  ghost predicate FreshIds(s: State) {
    && (forall d :: d in s.table ==> DrawnBy(s.table[d].id, s.sequence))
    && (forall h :: h in s.handlers && s.handlers[h].Allocated? ==>
          DrawnBy(s.handlers[h].id, s.sequence) && forall d :: d in s.table ==> s.table[d].id != s.handlers[h].id)
    && (forall g, h :: g in s.handlers && h in s.handlers && s.handlers[g].Allocated? && s.handlers[h].Allocated? && g != h ==>
          s.handlers[g].id != s.handlers[h].id)
  }

  lemma SuccIs(v: bv64)
    ensures Succ(v) == v + 1
  {
  }

  lemma NextIsNewRaw(x: bv32, v: bv64)
    requires DrawnBy(DomainId(x), v) && IsSmall(v)
    ensures TruncateId(v + 1) != DomainId(x) && DrawnBy(DomainId(x), v + 1)
  {
  }

  lemma NextIsDrawnRaw(v: bv64)
    requires IsSmall(v)
    ensures DrawnBy(TruncateId(v + 1), v + 1) && !IsExhausted(v)
  {
  }

  lemma NextIsNew(id: DomainId, sequence: bv64)
    requires DrawnBy(id, sequence) && IsSmall(sequence)
    ensures TruncateId(Succ(sequence)) != id && DrawnBy(id, Succ(sequence))
  {
    hide TruncateId, Succ, DrawnBy, IsSmall;
    SuccIs(sequence);
    NextIsNewRaw(id.bits, sequence);
  }

  lemma NextIsDrawn(sequence: bv64)
    requires IsSmall(sequence)
    ensures DrawnBy(TruncateId(Succ(sequence)), Succ(sequence)) && NextVal(sequence) == Some(Succ(sequence))
  {
    hide TruncateId, Succ, DrawnBy, IsSmall, IsExhausted;
    SuccIs(sequence);
    NextIsDrawnRaw(sequence);
  }

  lemma AllocateFresh(s: State, h: nat)
    requires FreshIds(s) && DnsEnabled(s, h, Allocate) && IsSmall(s.sequence)
    ensures FreshIds(ApplyDns(s, h, Allocate))
  {
    hide TruncateId, NextVal, DrawnBy, Succ, IsSmall;
    var t := ApplyDns(s, h, Allocate);
    NextIsDrawn(s.sequence);
    var next := TruncateId(Succ(s.sequence));
    assert t.handlers[h].id == next && t.sequence == Succ(s.sequence);
    forall d | d in s.table
      ensures DrawnBy(s.table[d].id, t.sequence) && s.table[d].id != next
    {
      NextIsNew(s.table[d].id, s.sequence);
    }
    forall g | g in t.handlers && g != h && t.handlers[g].Allocated?
      ensures DrawnBy(t.handlers[g].id, t.sequence) && t.handlers[g].id != next
    {
      NextIsNew(s.handlers[g].id, s.sequence);
    }
  }

  /** What a store does to ids: the stored row has an old id or the id of the handler. */
  lemma StoreRows(s: State, h: nat, domain: string, origin: Address, id: DomainId)
    ensures var t := ApplyStore(s, h, domain, origin, id);
            forall d :: d in t.table ==> (d in s.table && t.table[d].id == s.table[d].id) || t.table[d].id == id
  {
    UpsertIds(s.table, domain, id, origin, SyntheticIpv6(id.bits));
    hide IdUsed, SyntheticIpv6, Upsert, Without;
  }

  lemma StoreHandlers(s: State, h: nat, domain: string, origin: Address, id: DomainId)
    ensures ApplyStore(s, h, domain, origin, id).handlers == s.handlers - {h}
  {
    hide IdUsed, SyntheticIpv6, Upsert;
  }

  lemma UpsertIds(t: Table, domain: string, id: DomainId, origin: Address, synthetic: Address)
    ensures var u := Upsert(t, domain, id, origin, synthetic);
            domain in u && forall d :: d in u ==> (d in t && u[d].id == t[d].id) || u[d].id == id
  {
  }

  lemma StoreFresh(s: State, h: nat)
    requires FreshIds(s) && DnsEnabled(s, h, Store)
    ensures FreshIds(ApplyDns(s, h, Store))
  {
    hide ApplyStore, DrawnBy;
    var a := s.handlers[h];
    StoreRows(s, h, a.domain, a.origin, a.id);
    StoreHandlers(s, h, a.domain, a.origin, a.id);
    StoreKeepsSequence(s, h, a.domain, a.origin, a.id);
  }

  /** Neither the table nor the handlers gain an id. */
  lemma NoNewIdsFresh(s: State, t: State)
    requires FreshIds(s) && t.sequence == s.sequence
    requires forall g :: g in t.handlers && t.handlers[g].Allocated? ==> g in s.handlers && s.handlers[g] == t.handlers[g]
    requires forall d :: d in t.table ==> d in s.table && t.table[d].id == s.table[d].id
    ensures FreshIds(t)
  {
    hide DrawnBy;
  }

  lemma OtherDnsHandlers(s: State, h: nat, op: DnsOp)
    requires DnsEnabled(s, h, op) && !op.Store? && !op.Allocate?
    ensures var t := ApplyDns(s, h, op);
            forall g :: g in t.handlers && t.handlers[g].Allocated? ==> g in s.handlers && s.handlers[g] == t.handlers[g]
  {
    hide ApplyStore, NextVal, TruncateId;
  }

  lemma OtherDnsFresh(s: State, h: nat, op: DnsOp)
    requires FreshIds(s) && DnsEnabled(s, h, op) && !op.Store? && !op.Allocate?
    ensures FreshIds(ApplyDns(s, h, op))
  {
    hide FreshIds, ApplyDns;
    DnsSequence(s, h, op);
    DnsSameSession(s, h, op);
    OtherDnsHandlers(s, h, op);
    NoNewIdsFresh(s, ApplyDns(s, h, op));
  }

  lemma ResolverRows(s: State, op: ResolverOp)
    requires ResolverEnabled(s, op)
    ensures forall d :: d in ApplyResolver(s, op).table ==> d in s.table && ApplyResolver(s, op).table[d].id == s.table[d].id
  {
    hide IdUsed, InsertNat, HasRoom, ApplyResolveRow;
    if op.ResolveRow? {
      ResolveRowEffect(s, s.sweep.todo[op.name], s.sweep.todo - {op.name}, op.found);
    }
  }

  lemma FreshIdsStep(s: State, step: Step)
    requires FreshIds(s) && Enabled(s, step) && InRange(Apply(s, step).sequence)
    ensures FreshIds(Apply(s, step))
  {
    hide FreshIds, InRange, IsSmall, ApplyDns, ApplyDaemon, ApplyListener, ApplyResolver;
    match step
    case Dns(h, op) =>
      if op.Allocate? {
        AllocateIsSmall(s, h);
        AllocateFresh(s, h);
      } else if op.Store? {
        StoreFresh(s, h);
      } else {
        OtherDnsFresh(s, h, op);
      }
    case Proc(op) =>
      DaemonKeeps(s, op);
      DaemonFrame(s, op);
      NoNewIdsFresh(s, Apply(s, step));
    case Listening(op) =>
      ListenerKeeps(s, op);
      ListenerFrame(s, op);
      NoNewIdsFresh(s, Apply(s, step));
    case Resolving(op) =>
      ResolverKeeps(s, op);
      ResolverRows(s, op);
      NoNewIdsFresh(s, Apply(s, step));
  }

  lemma RangeBelow(v: bv64)
    ensures InRange(Succ(v)) && !IsExhausted(v) ==> IsSmall(v) && InRange(v)
    ensures InRange(v) ==> !IsExhausted(v)
  {
  }

  lemma SequenceGrows(s: State, step: Step)
    requires Enabled(s, step) && InRange(Apply(s, step).sequence)
    ensures InRange(s.sequence)
  {
    hide Apply, Enabled, Draws, Succ, IsSmall, InRange, IsExhausted;
    SequenceStep(s, step);
    RangeBelow(s.sequence);
    DrawsUnexhausted(s, step);
  }

  lemma AllocateIsSmall(s: State, h: nat)
    requires DnsEnabled(s, h, Allocate) && InRange(ApplyDns(s, h, Allocate).sequence)
    ensures IsSmall(s.sequence)
  {
    hide ApplyDns, Succ, IsSmall, InRange, IsExhausted;
    DnsSequence(s, h, Allocate);
    RangeBelow(s.sequence);
  }

  /** While fewer than 2^32 ids were drawn, every id was drawn and all are distinct. */
  lemma {:induction false} FreshIdsAlways(states: seq<State>, steps: seq<Step>, k: nat)
    requires IsRun(states, steps) && k < |states| && InRange(states[k].sequence)
    ensures FreshIds(states[k])
  {
    hide Apply, Enabled, FreshIds, InRange;
    if k == 0 {
      NoIdsYet();
    } else {
      SequenceGrows(states[k - 1], steps[k - 1]);
      FreshIdsAlways(states, steps, k - 1);
      FreshIdsStep(states[k - 1], steps[k - 1]);
    }
  }

  lemma NoIdsYet()
    ensures FreshIds(INIT)
  {
  }

  /** So in every run with fewer than 2^32 allocations no insert fails on a taken id:
      every handler that reaches it answers. */
  lemma StoresAnswer(states: seq<State>, steps: seq<Step>, k: nat, h: nat)
    requires IsRun(states, steps) && k < |steps| && InRange(states[k].sequence) && steps[k] == Dns(h, Store)
    ensures h in states[k].handlers && states[k].handlers[h].Allocated?
    ensures var a := states[k].handlers[h];
            && StoredId(states[k], a.domain, a.id).Some? && a.domain in states[k + 1].table
            && (a.domain, states[k + 1].table[a.domain].synthetic) in states[k + 1].answers
            && states[k + 1].table[a.domain].origin == a.origin
  {
    hide FreshIds;
    assert Enabled(states[k], steps[k]) && states[k + 1] == Apply(states[k], steps[k]);
    FreshIdsAlways(states, steps, k);
    hide IsRun;
    HandlerStores(states[k], h);
  }

  lemma HandlerStores(s: State, h: nat)
    requires FreshIds(s) && DnsEnabled(s, h, Store)
    ensures var (a, t) := (s.handlers[h], ApplyDns(s, h, Store));
            && StoredId(s, a.domain, a.id).Some? && a.domain in t.table
            && (a.domain, t.table[a.domain].synthetic) in t.answers && t.table[a.domain].origin == a.origin
  {
    hide DrawnBy, SyntheticIpv6;
  }

  // -------------------------------------------------------------------------
  // One call without interference
  // -------------------------------------------------------------------------

  /** All ids of a table were drawn. */
  ghost predicate AllDrawn(t: Table, sequence: bv64) {
    forall d :: d in t ==> DrawnBy(t[d].id, sequence)
  }

  /** Then the next id is fresh: `handle_aaaa` fails on faults of the database only. */
  lemma NextIdIsFresh(t: Table, sequence: bv64)
    requires AllDrawn(t, sequence) && IsSmall(sequence)
    ensures !NoFreshId(t, sequence)
  {
    hide TruncateId, NextVal, DrawnBy, Succ, IsSmall;
    NextIsDrawn(sequence);
    forall d | d in t
      ensures t[d].id != TruncateId(Succ(sequence))
    {
      NextIsNew(t[d].id, sequence);
    }
  }

  /** Registering two new domains in turn: each gets the next id, so starting from nothing
      the first gets 1 and the second 2. */
  method RegisterTwo(db: Database, first: string, second: string, a: Address, b: Address)
    requires db.Valid() && db.table == map[] && db.sequence == 0 && first != second
    modifies db
    ensures db.table == map[first := Row(DomainId(1), a, SyntheticIpv6(1)), second := Row(DomainId(2), b, SyntheticIpv6(2))]
    ensures db.sequence == 2
  {
    FirstIds();
    hide SyntheticIpv6, TruncateId, WellFormed, Succ, NextVal, IsSmall, DrawnBy;
    NextIsDrawn(0);
    NextIsDrawn(1);
    NextIdIsFresh(db.table, 0);
    var reply := HandleAaaa(db, first, Found(a), Faults(false, false, false));
    assert AllDrawn(db.table, 1);
    NextIdIsFresh(db.table, 1);
    reply := HandleAaaa(db, second, Found(b), Faults(false, false, false));
  }

  lemma FirstIds()
    ensures Succ(0) == 1 && Succ(1) == 2 && IsSmall(0) && IsSmall(1)
    ensures TruncateId(1) == DomainId(1) && TruncateId(2) == DomainId(2)
  {
  }
}
