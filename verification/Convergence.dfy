/** Within a listener session NAT_MAP catches up with the table: for every row, exactly
    when each harmful late map write of the resolver is followed by another commit of it. */
module Convergence {
  import opened Wrappers
  import opened Addresses
  import opened Registry
  import opened Control
  import opened Provenance

  /** NAT_MAP holds the current origin of the row with this id. */
  ghost predicate Agrees(s: State, id: DomainId) {
    Synced(s.table, s.natMap, id)
  }

  ghost predicate FetchedCurrent(s: State) {
    s.listener.Fetched? && IsRow(s.table, s.listener.id, s.listener.origin)
  }

  /** A notification that will bring the current origin is queued or being handled. */
  ghost predicate UnderWay(s: State, id: DomainId) {
    id in s.queue || s.listener == Notified(id) || (FetchedCurrent(s) && s.listener.id == id)
  }

  ghost predicate Covered(s: State, id: DomainId) {
    Agrees(s, id) || UnderWay(s, id)
  }

  /** The resolver has committed this row and not yet written it to NAT_MAP. */
  ghost predicate PendingFor(s: State, id: DomainId) {
    s.sweep.Sweeping? && s.sweep.pending.Some? && s.sweep.pending.value.0 == id
  }

  /** NAT_MAP disagrees and nothing that was begun will repair it. */
  ghost predicate Stale(s: State, id: DomainId) {
    !Covered(s, id) && !PendingFor(s, id)
  }

  /** The step commits the row with this id: an upsert, or an update by the resolver. */
  ghost predicate CommitsRow(s: State, step: Step, id: DomainId) {
    || (step.Dns? && step.dns.Store? && step.h in s.handlers && s.handlers[step.h].Allocated?
        && StoredId(s, s.handlers[step.h].domain, s.handlers[step.h].id) == Some(id))
    || (step.Resolving? && step.resolve.ResolveRow? && step.resolve.found.Some?
        && SweepIdle(s) && step.resolve.name in s.sweep.todo
        && s.sweep.todo[step.resolve.name].id == id && s.sweep.todo[step.resolve.name].origin != step.resolve.found.value)
  }

  /** The id of the row that an upsert with a new id in hand would write, if it succeeds. */
  ghost function StoredId(s: State, domain: string, id: DomainId): Option<DomainId> {
    if domain in s.table then Some(s.table[domain].id) else if IdUsed(s.table, id) then None else Some(id)
  }

  /** The step is a late map write of the resolver that replaces the current origin of a
      row committed in this session, with nothing left to repair it. */
  ghost predicate Harmful(s: State, step: Step, id: DomainId) {
    && step == Resolving(WriteResolved) && PendingFor(s, id) && id in s.committed
    && !IsRow(s.table, id, s.sweep.pending.value.1) && !UnderWay(s, id)
  }

  /** The step is not an upsert of this row while its update by the resolver still waits
      for its map write. */
  ghost predicate Quiet(s: State, step: Step, id: DomainId) {
    PendingFor(s, id) ==> !(step.Dns? && CommitsRow(s, step, id))
  }

  /** The step does not hit a full NAT_MAP. */
  ghost predicate Fits(s: State, step: Step) {
    && (step == Listening(WriteFetched) && s.listener.Fetched? ==> HasRoom(s.natMap, s.listener.id))
    && (step == Resolving(WriteResolved) && s.sweep.Sweeping? && s.sweep.pending.Some? ==>
          HasRoom(s.natMap, s.sweep.pending.value.0))
  }

  /** The row that a sweep is about to write exists. */
  ghost predicate PendingKnown(s: State) {
    s.sweep.Sweeping? && s.sweep.pending.Some? ==> IdUsed(s.table, s.sweep.pending.value.0)
  }

  /** What the listener is about to write is current or will be fetched again. */
  ghost predicate FetchedSound(s: State) {
    s.listener.Fetched? ==> FetchedCurrent(s) || s.listener.id in s.queue
  }

  // -------------------------------------------------------------------------
  // Commits
  // -------------------------------------------------------------------------

  /** `t` is `s` with the row of `id` rewritten or added, and notified. */
  ghost predicate Commits(s: State, t: State, id: DomainId) {
    && t.natMap == s.natMap && t.listening == s.listening && t.listener == s.listener && t.daemon == s.daemon
    && t.queue == (if s.listening then s.queue + [id] else s.queue)
    && t.committed == (if s.listening then s.committed + {id} else s.committed)
    && (forall d :: d in t.table && t.table[d].id != id ==> d in s.table && s.table[d] == t.table[d])
    && (forall d :: d in s.table && s.table[d].id != id ==> d in t.table && s.table[d] == t.table[d])
  }

  /** Nothing that concerns convergence changes. */
  ghost predicate SameSession(s: State, t: State) {
    && t.table == s.table && t.natMap == s.natMap && t.listening == s.listening && t.listener == s.listener
    && t.queue == s.queue && t.committed == s.committed && t.daemon == s.daemon
  }

  /** The row with this id and its entry in NAT_MAP are the same. */
  ghost predicate Untouched(s: State, t: State, id: DomainId) {
    && (forall origin :: IsRow(s.table, id, origin) <==> IsRow(t.table, id, origin))
    && (Agrees(s, id) <==> Agrees(t, id))
  }

  lemma CommitUntouched(s: State, t: State, id: DomainId, other: DomainId)
    requires Commits(s, t, id) && other != id
    ensures Untouched(s, t, other)
  {
  }

  lemma StoreCommits(s: State, h: nat, domain: string, origin: Address, id: DomainId)
    requires StoredId(s, domain, id).Some?
    ensures var t := ApplyStore(s, h, domain, origin, id);
            t.sweep == s.sweep && Commits(s, t, StoredId(s, domain, id).value)
  {
    hide IdUsed, SyntheticIpv6, Without, Upsert;
    UpsertRows(s.table, domain, id, origin, SyntheticIpv6(id.bits));
  }

  lemma RowCommits(s: State, row: Row, rest: Table, found: Address)
    requires WellFormed(s.table) && IdUsed(s.table, row.id) && found != row.origin
    ensures var t := ApplyResolveRow(s, row, rest, Some(found));
            && Commits(s, t, row.id) && IsRow(t.table, row.id, found)
            && t.sweep == Sweeping(rest, Some((row.id, found)))
  {
    hide WellFormed, SetOrigin;
    ResolveRowEffect(s, row, rest, Some(found));
    SetOriginLaws(s.table, row.id, found);
  }

  lemma SkippedRow(s: State, row: Row, rest: Table, found: Option<Address>)
    requires found.None? || found.value == row.origin
    ensures var t := ApplyResolveRow(s, row, rest, found); SameSession(s, t) && t.sweep == Sweeping(rest, None)
  {
    hide IdUsed, CommitOrigin, Notify;
  }

  lemma DnsSameSession(s: State, h: nat, op: DnsOp)
    requires DnsEnabled(s, h, op) && !op.Store?
    ensures SameSession(s, ApplyDns(s, h, op)) && ApplyDns(s, h, op).sweep == s.sweep
  {
    hide ApplyStore, NextVal, TruncateId, Without, Answer;
    match op
    case Query(_) =>
    case Lookup => AnswerSameSession(s, h, s.handlers[h].domain);
    case Upstream(_) =>
    case Allocate =>
    case Abandon =>
  }

  lemma AnswerSameSession(s: State, h: nat, domain: string)
    ensures domain in s.table ==>
              var t := Answer(s, h, domain, s.table[domain].synthetic); SameSession(s, t) && t.sweep == s.sweep
  {
    hide Without;
  }

  lemma FailedStoreSameSession(s: State, h: nat, domain: string, origin: Address, id: DomainId)
    requires StoredId(s, domain, id).None?
    ensures SameSession(s, ApplyStore(s, h, domain, origin, id)) && ApplyStore(s, h, domain, origin, id).sweep == s.sweep
  {
    hide IdUsed, Without, Upsert;
  }

  /** What a step of a DNS handler or a row of a sweep does to a session: it commits one
      row, or nothing happens. */
  ghost predicate CommitOrNothing(s: State, step: Step, t: State) {
    if cid :| CommitsRow(s, step, cid)
    then Commits(s, t, cid) && (forall id :: CommitsRow(s, step, id) ==> id == cid)
    else SameSession(s, t)
  }

  lemma DnsEffect(s: State, h: nat, op: DnsOp)
    requires WellFormed(s.table) && DnsEnabled(s, h, op)
    ensures CommitOrNothing(s, Dns(h, op), ApplyDns(s, h, op)) && ApplyDns(s, h, op).sweep == s.sweep
  {
    hide ApplyStore, WellFormed, Commits, SameSession, StoredId, IdUsed;
    if op.Store? {
      var a := s.handlers[h];
      if StoredId(s, a.domain, a.id).Some? {
        StoreCommits(s, h, a.domain, a.origin, a.id);
        assert CommitsRow(s, Dns(h, op), StoredId(s, a.domain, a.id).value);
      } else {
        FailedStoreSameSession(s, h, a.domain, a.origin, a.id);
      }
    } else {
      DnsSameSession(s, h, op);
    }
  }

  lemma ResolveRowEffects(s: State, name: string, found: Option<Address>)
    requires Inv(s) && ResolverEnabled(s, ResolveRow(name, found))
    ensures var t := ApplyResolver(s, ResolveRow(name, found));
            && CommitOrNothing(s, Resolving(ResolveRow(name, found)), t)
            && t.sweep.Sweeping?
            && (t.sweep.pending.Some? ==>
                  && CommitsRow(s, Resolving(ResolveRow(name, found)), t.sweep.pending.value.0)
                  && IsRow(t.table, t.sweep.pending.value.0, t.sweep.pending.value.1))
  {
    hide ApplyResolveRow, WellFormed, AnswersStored, Phases, Commits, SameSession, IsRow;
    var row := s.sweep.todo[name];
    var rest := s.sweep.todo - {name};
    if found.Some? && found.value != row.origin {
      assert IdUsed(s.table, row.id) by {
        assert name in s.table && s.table[name].id == row.id;
      }
      RowCommits(s, row, rest, found.value);
      assert CommitsRow(s, Resolving(ResolveRow(name, found)), row.id);
    } else {
      SkippedRow(s, row, rest, found);
    }
  }

  // -------------------------------------------------------------------------
  // One step of a session, seen from one row
  // -------------------------------------------------------------------------

  /** The step neither commits the row nor makes it worse or better off for good. */
  ghost predicate KeepsStanding(s: State, t: State, id: DomainId) {
    && (Covered(s, id) ==> Covered(t, id))
    && (Stale(s, id) ==> Stale(t, id))
  }

  lemma SameSessionKeeps(s: State, t: State, id: DomainId)
    requires SameSession(s, t) && (PendingFor(t, id) ==> PendingFor(s, id))
    ensures KeepsStanding(s, t, id)
  {
    hide IsRow;
    assert Agrees(s, id) <==> Agrees(t, id);
  }

  lemma CommitElsewhere(s: State, t: State, cid: DomainId, id: DomainId)
    requires Commits(s, t, cid) && s.listening && id != cid && (PendingFor(t, id) ==> PendingFor(s, id))
    ensures KeepsStanding(s, t, id)
  {
    hide IsRow, Agrees;
    CommitUntouched(s, t, cid, id);
    assert t.queue == s.queue + [cid] && t.listener == s.listener;
  }

  /** The facts about one step of a session that concern one row. */
  ghost predicate RowStep(s: State, step: Step, t: State, id: DomainId) {
    && (id in t.committed <==> id in s.committed || CommitsRow(s, step, id))
    && (CommitsRow(s, step, id) ==> UnderWay(t, id))
    && (Harmful(s, step, id) ==> Stale(t, id))
    && (!CommitsRow(s, step, id) && Stale(s, id) ==> Stale(t, id))
    && (!Harmful(s, step, id) && id in s.committed && Covered(s, id) ==> Covered(t, id))
  }

  lemma KeepsRowStep(s: State, step: Step, t: State, id: DomainId)
    requires KeepsStanding(s, t, id) && !CommitsRow(s, step, id) && !Harmful(s, step, id) && t.committed == s.committed
    ensures RowStep(s, step, t, id)
  {
  }

  lemma CommitOrNothingRowStep(s: State, step: Step, t: State, id: DomainId)
    requires CommitOrNothing(s, step, t) && s.listening && step != Resolving(WriteResolved)
    requires PendingFor(t, id) && !CommitsRow(s, step, id) ==> PendingFor(s, id)
    ensures RowStep(s, step, t, id)
  {
    hide IsRow, Agrees, PendingFor, CommitsRow;
    if CommitsRow(s, step, id) {
      assert Commits(s, t, id);
      assert t.queue == s.queue + [id];
    } else if cid :| CommitsRow(s, step, cid) {
      CommitElsewhere(s, t, cid, id);
    } else {
      SameSessionKeeps(s, t, id);
    }
  }

  /** Writing an origin into NAT_MAP: the id agrees exactly when the origin is the one in
      the table, and no other id is concerned. */
  lemma WriteAgrees(s: State, t: State, id: DomainId, origin: Address, other: DomainId)
    requires WellFormed(s.table) && HasRoom(s.natMap, id)
    requires t.table == s.table && t.natMap == InsertNat(s.natMap, id, origin)
    ensures IsRow(s.table, id, origin) ==> Agrees(t, id)
    ensures other != id ==> (Agrees(s, other) <==> Agrees(t, other))
    ensures IdUsed(s.table, id) && Agrees(t, id) ==> IsRow(s.table, id, origin)
  {
    hide SyntheticIpv6;
  }

  lemma ReceiveKeeps(s: State, id: DomainId)
    requires ListenerEnabled(s, Receive)
    ensures KeepsStanding(s, ApplyListener(s, Receive), id)
  {
    hide IsRow;
    var t := ApplyListener(s, Receive);
    assert s.queue == [s.queue[0]] + t.queue;
    assert id in s.queue <==> id == s.queue[0] || id in t.queue;
    assert Agrees(s, id) <==> Agrees(t, id);
  }

  lemma FetchKeeps(s: State, id: DomainId)
    requires ListenerEnabled(s, Fetch)
    ensures KeepsStanding(s, ApplyListener(s, Fetch), id)
  {
    hide IsRow, FindById;
    var t := ApplyListener(s, Fetch);
    FindByIdIsRow(s.table, s.listener.id);
    assert FindById(s.table, s.listener.id).None? ==> Agrees(t, s.listener.id);
    assert Agrees(s, id) <==> Agrees(t, id);
  }

  lemma WriteFetchedKeeps(s: State, id: DomainId)
    requires WellFormed(s.table) && FetchedSound(s) && ListenerEnabled(s, WriteFetched) && HasRoom(s.natMap, s.listener.id)
    ensures KeepsStanding(s, ApplyListener(s, WriteFetched), id)
  {
    hide WellFormed, IsRow, InsertNat, HasRoom, Agrees;
    WriteAgrees(s, ApplyListener(s, WriteFetched), s.listener.id, s.listener.origin, id);
  }

  lemma ListenerRowStep(s: State, op: ListenerOp, id: DomainId)
    requires WellFormed(s.table) && FetchedSound(s) && ListenerEnabled(s, op) && Fits(s, Listening(op))
    requires s.listening && ApplyListener(s, op).listening
    ensures RowStep(s, Listening(op), ApplyListener(s, op), id)
  {
    hide WellFormed, FetchedSound, HasRoom, KeepsStanding, RowStep, InsertNat, FindById;
    match op {
      case Connect =>
      case Receive => ReceiveKeeps(s, id);
      case Fetch => FetchKeeps(s, id);
      case WriteFetched => WriteFetchedKeeps(s, id);
      case SessionEnd =>
    }
    KeepsRowStep(s, Listening(op), ApplyListener(s, op), id);
  }

  /** The one step that can break convergence, and exactly when it does. */
  lemma WriteResolvedRowStep(s: State, id: DomainId)
    requires WellFormed(s.table) && PendingKnown(s) && ResolverEnabled(s, WriteResolved)
    requires HasRoom(s.natMap, s.sweep.pending.value.0)
    ensures RowStep(s, Resolving(WriteResolved), ApplyResolver(s, WriteResolved), id)
  {
    hide WellFormed, IsRow, InsertNat, HasRoom, Agrees, IdUsed;
    var (pid, origin) := s.sweep.pending.value;
    WriteAgrees(s, ApplyResolver(s, WriteResolved), pid, origin, id);
  }

  lemma ResolverRowStep(s: State, op: ResolverOp, id: DomainId)
    requires Inv(s) && PendingKnown(s) && ResolverEnabled(s, op) && Fits(s, Resolving(op)) && s.listening
    ensures RowStep(s, Resolving(op), ApplyResolver(s, op), id)
  {
    hide ApplyResolveRow, WellFormed, AnswersStored, Snapshots, Phases, RowStep, CommitOrNothing, InsertNat, HasRoom,
      KeepsStanding, SameSession;
    var t := ApplyResolver(s, op);
    match op
    case Begin =>
      NothingKeeps(s, op, id);
    case ResolveRow(name, found) =>
      ResolveRowEffects(s, name, found);
      CommitOrNothingRowStep(s, Resolving(op), t, id);
    case WriteResolved => WriteResolvedRowStep(s, id);
    case End =>
      NothingKeeps(s, op, id);
  }

  lemma NothingKeeps(s: State, op: ResolverOp, id: DomainId)
    requires ResolverEnabled(s, op) && (op.Begin? || op.End?)
    ensures RowStep(s, Resolving(op), ApplyResolver(s, op), id)
  {
    hide KeepsStanding, RowStep;
    SameSessionKeeps(s, ApplyResolver(s, op), id);
    KeepsRowStep(s, Resolving(op), ApplyResolver(s, op), id);
  }

  lemma DaemonEndsSession(s: State, op: DaemonOp)
    requires Phases(s) && s.listening && DaemonEnabled(s, op)
    ensures !ApplyDaemon(s, op).listening
  {
  }

  lemma SessionStep(s: State, step: Step, id: DomainId)
    requires Inv(s) && FetchedSound(s) && PendingKnown(s) && Enabled(s, step) && Fits(s, step)
    requires s.listening && Apply(s, step).listening
    ensures RowStep(s, step, Apply(s, step), id)
  {
    hide WellFormed, Phases, FetchedSound, PendingKnown, Fits, RowStep, ApplyDns, ApplyDaemon, ApplyListener, ApplyResolver,
      CommitOrNothing;
    match step
    case Dns(h, op) =>
      DnsEffect(s, h, op);
      CommitOrNothingRowStep(s, step, Apply(s, step), id);
    case Proc(op) => DaemonEndsSession(s, op);
    case Listening(op) => ListenerRowStep(s, op, id);
    case Resolving(op) => ResolverRowStep(s, op, id);
  }

  /** Exact condition for one step: as long as the map has room, a row that was committed
      in the session and is covered stays so if and only if the step is not harmful. */
  lemma ConvergingStep(s: State, step: Step, id: DomainId)
    requires Inv(s) && FetchedSound(s) && PendingKnown(s) && Enabled(s, step) && Fits(s, step)
    requires s.listening && Apply(s, step).listening && id in s.committed && Covered(s, id)
    ensures Covered(Apply(s, step), id) <==> !Harmful(s, step, id)
  {
    hide Inv, FetchedSound, PendingKnown, Enabled, Apply, Fits, Covered, Harmful;
    SessionStep(s, step, id);
  }

  // -------------------------------------------------------------------------
  // What the listener holds
  // -------------------------------------------------------------------------

  lemma CommitSound(s: State, t: State, cid: DomainId)
    requires Commits(s, t, cid) && FetchedSound(s) && (s.listener.Fetched? ==> s.listening)
    ensures FetchedSound(t)
  {
    hide IsRow, Agrees;
    if s.listener.Fetched? && s.listener.id != cid {
      CommitUntouched(s, t, cid, s.listener.id);
    }
  }

  lemma CommitOrNothingSound(s: State, step: Step, t: State)
    requires CommitOrNothing(s, step, t) && FetchedSound(s) && (s.listener.Fetched? ==> s.listening)
    ensures FetchedSound(t)
  {
    hide CommitsRow, Commits, IsRow;
    if cid :| CommitsRow(s, step, cid) {
      CommitSound(s, t, cid);
    }
  }

  lemma ListenerSound(s: State, op: ListenerOp)
    requires Phases(s) && ListenerEnabled(s, op) && FetchedSound(s)
    ensures FetchedSound(ApplyListener(s, op))
  {
    hide IsRow, FindById, InsertNat;
    match op
    case Connect =>
    case Receive =>
    case Fetch => FindByIdIsRow(s.table, s.listener.id);
    case WriteFetched =>
    case SessionEnd =>
  }

  lemma FetchedSoundStep(s: State, step: Step)
    requires Inv(s) && FetchedSound(s) && Enabled(s, step)
    ensures FetchedSound(Apply(s, step))
  {
    hide WellFormed, IsRow, ApplyDns, ApplyListener, ApplyResolveRow, CommitOrNothing, InsertNat, HasRoom, FindById;
    match step
    case Dns(h, op) =>
      DnsEffect(s, h, op);
      CommitOrNothingSound(s, step, Apply(s, step));
    case Proc(op) =>
    case Listening(op) =>
      ListenerSound(s, op);
    case Resolving(op) =>
      if op.ResolveRow? {
        ResolveRowEffects(s, op.name, op.found);
        CommitOrNothingSound(s, step, Apply(s, step));
      }
  }

  lemma {:induction false} FetchedSoundAlways(states: seq<State>, steps: seq<Step>, i: nat)
    requires IsRun(states, steps) && i < |states|
    ensures FetchedSound(states[i])
  {
    hide Apply, Enabled, Inv;
    if i > 0 {
      FetchedSoundAlways(states, steps, i - 1);
      InvAlways(states, steps, i - 1);
      FetchedSoundStep(states[i - 1], steps[i - 1]);
    }
  }

  // -------------------------------------------------------------------------
  // Runs
  // -------------------------------------------------------------------------

  lemma CarriedIdIsStored(states: seq<State>, steps: seq<Step>, k: nat, id: DomainId, origin: Address)
    requires IsRun(states, steps) && k < |states| && Carries(states[k], id, origin)
    ensures id in IdsOf(states[k].table, states[k].table.Keys)
  {
    hide IsRun, Carries;
    CarriedIsRecorded(states, steps, k, id, origin);
    var j: nat :| j <= k && IsRow(states[j].table, id, origin);
    TableExtendsAlong(states, steps, j, k);
  }

  /** As long as the table ends with at most as many rows as NAT_MAP has slots, no map
      write of the run is refused. */
  lemma RunFits(states: seq<State>, steps: seq<Step>, k: nat, last: nat, id: DomainId, origin: Address)
    requires IsRun(states, steps) && k <= last < |states| && |states[last].table| <= MAX_NAT_ENTRIES
    requires Carries(states[k], id, origin)
    ensures HasRoom(states[k].natMap, id)
  {
    hide IsRun, HasRoom;
    var s := states[k];
    forall x | x in s.natMap
      ensures x in IdsOf(s.table, s.table.Keys)
    {
      CarriedIdIsStored(states, steps, k, x, s.natMap[x]);
    }
    CarriedIdIsStored(states, steps, k, id, origin);
    TableExtendsAlong(states, steps, k, last);
    assert s.table.Keys <= states[last].table.Keys;
    SubsetIsSmaller(s.table.Keys, states[last].table.Keys);
    InvAlways(states, steps, k);
    TableFits(s.table, s.natMap, id);
  }

  lemma StepFits(states: seq<State>, steps: seq<Step>, k: nat, last: nat)
    requires IsRun(states, steps) && k < last < |states| && |states[last].table| <= MAX_NAT_ENTRIES
    ensures Fits(states[k], steps[k])
  {
    hide IsRun, HasRoom;
    var s := states[k];
    if s.listener.Fetched? {
      assert s.listener == Fetched(s.listener.id, s.listener.origin);
      RunFits(states, steps, k, last, s.listener.id, s.listener.origin);
    }
    if s.sweep.Sweeping? && s.sweep.pending.Some? {
      var (id, origin) := s.sweep.pending.value;
      assert s.sweep.pending == Some((id, origin));
      RunFits(states, steps, k, last, id, origin);
    }
  }

  lemma PendingIsKnown(states: seq<State>, steps: seq<Step>, k: nat)
    requires IsRun(states, steps) && k < |states|
    ensures PendingKnown(states[k])
  {
    hide IsRun;
    var s := states[k];
    if s.sweep.Sweeping? && s.sweep.pending.Some? {
      var (id, origin) := s.sweep.pending.value;
      assert s.sweep.pending == Some((id, origin));
      CarriedIdIsStored(states, steps, k, id, origin);
    }
  }

  lemma RowsGrow(states: seq<State>, steps: seq<Step>, i: nat, j: nat)
    requires IsRun(states, steps) && i <= j < |states|
    ensures |states[i].table| <= |states[j].table|
  {
    hide IsRun;
    TableExtendsAlong(states, steps, i, j);
    assert states[i].table.Keys <= states[j].table.Keys;
    SubsetIsSmaller(states[i].table.Keys, states[j].table.Keys);
  }

  // -------------------------------------------------------------------------
  // Sessions
  // -------------------------------------------------------------------------

  /** One live listener session: LISTEN is step `c`, and it has not ended by state `i`. */
  ghost predicate IsSession(states: seq<State>, steps: seq<Step>, c: nat, i: nat) {
    && IsRun(states, steps) && c < i < |states| == |steps| + 1 && steps[c] == Listening(Connect)
    && forall k :: c < k <= i ==> states[k].listening
  }

  ghost predicate Quiescent(s: State) {
    s.listening && s.queue == [] && s.listener.Idle?
  }

  /** `SessionStep` at position `k` of a session. */
  lemma StepOfSession(states: seq<State>, steps: seq<Step>, c: nat, k: nat, i: nat, id: DomainId)
    requires IsSession(states, steps, c, i) && c < k < i && |states[i].table| <= MAX_NAT_ENTRIES
    ensures RowStep(states[k], steps[k], states[k + 1], id)
  {
    hide Apply, Enabled, Fits, Inv, PendingKnown, FetchedSound, RowStep;
    InvAlways(states, steps, k);
    FetchedSoundAlways(states, steps, k);
    PendingIsKnown(states, steps, k);
    StepFits(states, steps, k, i);
    assert states[k + 1] == Apply(states[k], steps[k]);
    SessionStep(states[k], steps[k], id);
  }

  lemma SessionBegins(states: seq<State>, steps: seq<Step>, c: nat, i: nat)
    requires IsSession(states, steps, c, i)
    ensures states[c + 1].committed == {} && states[c + 1].queue == [] && states[c + 1].table == states[c].table
    ensures states[c + 1].natMap == states[c].natMap && states[c + 1].listener == states[c].listener
    ensures states[c + 1].sweep == states[c].sweep && states[c + 1].daemon == states[c].daemon
  {
    assert Enabled(states[c], steps[c]) && states[c + 1] == Apply(states[c], steps[c]);
  }

  /** A row committed in the session has a last commit in it. */
  lemma {:induction false} LastCommit(states: seq<State>, steps: seq<Step>, c: nat, i: nat, id: DomainId) returns (m: nat)
    requires IsSession(states, steps, c, i) && |states[i].table| <= MAX_NAT_ENTRIES && id in states[i].committed
    ensures c < m < i && CommitsRow(states[m], steps[m], id)
    ensures forall k :: m < k < i ==> !CommitsRow(states[k], steps[k], id)
    decreases i
  {
    hide IsRun, CommitsRow, Stale, Harmful, Covered, UnderWay;
    SessionBegins(states, steps, c, i);
    StepOfSession(states, steps, c, i - 1, i, id);
    if CommitsRow(states[i - 1], steps[i - 1], id) {
      m := i - 1;
    } else {
      RowsGrow(states, steps, i - 1, i);
      m := LastCommit(states, steps, c, i - 1, id);
    }
  }

  /** A committed row stays covered until a harmful write. */
  lemma {:induction false} CoveredSince(states: seq<State>, steps: seq<Step>, c: nat, m: nat, i: nat, id: DomainId)
    requires IsSession(states, steps, c, i) && c < m < i && |states[i].table| <= MAX_NAT_ENTRIES
    requires CommitsRow(states[m], steps[m], id)
    requires forall k :: m < k < i ==> !Harmful(states[k], steps[k], id)
    ensures id in states[i].committed && Covered(states[i], id)
    decreases i
  {
    hide IsRun, CommitsRow, Stale, Harmful, Agrees, UnderWay;
    StepOfSession(states, steps, c, i - 1, i, id);
    if m < i - 1 {
      RowsGrow(states, steps, i - 1, i);
      CoveredSince(states, steps, c, m, i - 1, id);
    }
  }

  /** After a harmful write the row stays stale until it is committed again. */
  lemma {:induction false} StaleSince(states: seq<State>, steps: seq<Step>, c: nat, k: nat, i: nat, id: DomainId)
    requires IsSession(states, steps, c, i) && c < k < i && |states[i].table| <= MAX_NAT_ENTRIES
    requires Harmful(states[k], steps[k], id)
    requires forall m :: k < m < i ==> !CommitsRow(states[m], steps[m], id)
    ensures Stale(states[i], id)
    decreases i
  {
    hide IsRun, CommitsRow, Stale, Harmful, Covered, UnderWay;
    StepOfSession(states, steps, c, i - 1, i, id);
    if k < i - 1 {
      RowsGrow(states, steps, i - 1, i);
      StaleSince(states, steps, c, k, i - 1, id);
    }
  }

  ghost predicate CommittedBetween(states: seq<State>, steps: seq<Step>, k: nat, i: nat, id: DomainId)
    requires i <= |steps| && i <= |states|
  {
    exists m :: k < m < i && CommitsRow(states[m], steps[m], id)
  }

  /** Every harmful late write of this row between `c` and `i` was followed by another
      commit of it. */
  ghost predicate Repaired(states: seq<State>, steps: seq<Step>, c: nat, i: nat, id: DomainId)
    requires i <= |steps| && i <= |states|
  {
    forall k :: c < k < i && Harmful(states[k], steps[k], id) ==> CommittedBetween(states, steps, k, i, id)
  }

  /** Listener convergence, exactly. In every session of every run in which the table fits
      NAT_MAP, whenever the queue is empty and nothing is in flight, NAT_MAP agrees with
      the table on a row committed since LISTEN if and only if every harmful late write of
      that row was followed by another commit of it. */
  lemma ConvergesExactly(states: seq<State>, steps: seq<Step>, c: nat, i: nat, id: DomainId)
    requires IsSession(states, steps, c, i) && |states[i].table| <= MAX_NAT_ENTRIES
    requires Quiescent(states[i]) && id in states[i].committed
    ensures Agrees(states[i], id) <==> Repaired(states, steps, c, i, id)
  {
    hide IsRun, CommitsRow, Harmful, Agrees;
    var m := LastCommit(states, steps, c, i, id);
    if k: nat :| c < k < i && Harmful(states[k], steps[k], id) && !CommittedBetween(states, steps, k, i, id) {
      StaleSince(states, steps, c, k, i, id);
    } else {
      forall k | m < k < i
        ensures !Harmful(states[k], steps[k], id)
      {
      }
      CoveredSince(states, steps, c, m, i, id);
    }
  }

  /** Without a harmful write of a row in the session, the row is covered at all times. */
  lemma ConvergingAlways(states: seq<State>, steps: seq<Step>, c: nat, i: nat, id: DomainId)
    requires IsSession(states, steps, c, i) && |states[i].table| <= MAX_NAT_ENTRIES && id in states[i].committed
    requires forall k :: c < k < i ==> !Harmful(states[k], steps[k], id)
    ensures Covered(states[i], id)
  {
    hide IsRun, CommitsRow, Harmful, Covered;
    var m := LastCommit(states, steps, c, i, id);
    CoveredSince(states, steps, c, m, i, id);
  }

  lemma ListenerConvergence(states: seq<State>, steps: seq<Step>, c: nat, i: nat, id: DomainId)
    requires IsSession(states, steps, c, i) && |states[i].table| <= MAX_NAT_ENTRIES
    requires forall k :: c < k < i ==> !Harmful(states[k], steps[k], id)
    requires Quiescent(states[i]) && id in states[i].committed
    ensures Agrees(states[i], id)
  {
    hide IsRun, Agrees, Harmful;
    ConvergingAlways(states, steps, c, i, id);
  }

  // -------------------------------------------------------------------------
  // Sessions without a racing upsert
  // -------------------------------------------------------------------------

  /** What the resolver is about to write for this row is current, or the row was not
      committed in this session. */
  ghost predicate PendingCurrent(s: State, id: DomainId) {
    PendingFor(s, id) && id in s.committed ==> IsRow(s.table, id, s.sweep.pending.value.1)
  }

  lemma CommitOrNothingPending(s: State, step: Step, t: State, id: DomainId)
    requires CommitOrNothing(s, step, t) && t.sweep == s.sweep && s.listening
    requires PendingCurrent(s, id) && (PendingFor(s, id) ==> !CommitsRow(s, step, id))
    ensures PendingCurrent(t, id)
  {
    hide CommitsRow, IsRow, Agrees;
    if cid :| CommitsRow(s, step, cid) {
      if cid != id {
        CommitUntouched(s, t, cid, id);
      }
    }
  }

  lemma ResolverPending(s: State, op: ResolverOp, id: DomainId)
    requires Inv(s) && ResolverEnabled(s, op) && PendingCurrent(s, id)
    ensures PendingCurrent(ApplyResolver(s, op), id)
  {
    hide ApplyResolveRow, IsRow, InsertNat, HasRoom, Inv, CommitOrNothing, CommitsRow;
    match op
    case Begin =>
    case ResolveRow(name, found) => ResolveRowEffects(s, name, found);
    case WriteResolved =>
    case End =>
  }

  lemma ListenerPending(s: State, op: ListenerOp, id: DomainId)
    requires ListenerEnabled(s, op) && s.listening && PendingCurrent(s, id)
    ensures PendingCurrent(ApplyListener(s, op), id)
  {
    hide IsRow, InsertNat, FindById;
    match op
    case Connect =>
    case Receive =>
    case Fetch =>
    case WriteFetched =>
    case SessionEnd =>
  }

  /** Without an upsert in between, what the resolver is about to write stays current. */
  lemma PendingStep(s: State, step: Step, id: DomainId)
    requires Inv(s) && Enabled(s, step) && s.listening && Apply(s, step).listening
    requires PendingCurrent(s, id) && Quiet(s, step, id)
    ensures PendingCurrent(Apply(s, step), id)
  {
    hide WellFormed, Phases, PendingCurrent, CommitsRow, CommitOrNothing, ApplyDns, ApplyDaemon, ApplyListener, ApplyResolver;
    match step
    case Dns(h, op) =>
      DnsEffect(s, h, op);
      CommitOrNothingPending(s, step, Apply(s, step), id);
    case Proc(op) => DaemonEndsSession(s, op);
    case Listening(op) => ListenerPending(s, op, id);
    case Resolving(op) => ResolverPending(s, op, id);
  }

  lemma {:induction false} QuietIsHarmless(states: seq<State>, steps: seq<Step>, c: nat, i: nat, id: DomainId)
    requires IsSession(states, steps, c, i)
    requires forall k :: c < k < i ==> Quiet(states[k], steps[k], id)
    ensures PendingCurrent(states[i], id) && forall k :: c < k < i ==> !Harmful(states[k], steps[k], id)
    decreases i
  {
    hide Apply, Enabled, Quiet, Inv, IsRow;
    if i == c + 1 {
      SessionBegins(states, steps, c, i);
    } else {
      QuietIsHarmless(states, steps, c, i - 1, id);
      InvAlways(states, steps, i - 1);
      assert states[i] == Apply(states[i - 1], steps[i - 1]);
      PendingStep(states[i - 1], steps[i - 1], id);
    }
  }

  /** In particular NAT_MAP agrees on every committed row that is not upserted, during the
      session, between the resolver's update of it and its map write. */
  lemma QuietConvergence(states: seq<State>, steps: seq<Step>, c: nat, i: nat, id: DomainId)
    requires IsSession(states, steps, c, i) && |states[i].table| <= MAX_NAT_ENTRIES
    requires forall k :: c < k < i ==> Quiet(states[k], steps[k], id)
    requires Quiescent(states[i]) && id in states[i].committed
    ensures Agrees(states[i], id)
  {
    hide IsRun, Agrees, Quiet, Harmful;
    QuietIsHarmless(states, steps, c, i, id);
    ListenerConvergence(states, steps, c, i, id);
  }
}
