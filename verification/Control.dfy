/** The mapping control plane as one interleaved system: DNS handlers, the daemon with
    its bulk load, listener and resolver, the notification queue and NAT_MAP. Every
    step is one awaited operation of the source; any other task may run in between. */
module Control {
  import opened Wrappers
  import opened Addresses
  import opened Registry

  /** Where an AAAA handler stands. */
  datatype Handler =
    | Asked(domain: string)
    | Missed(domain: string)
    | Resolved(domain: string, origin: Address)
    | Allocated(domain: string, origin: Address, id: DomainId)

  /** The daemon process: bulk load first, then listener and resolver. */
  datatype Daemon = Down | Loading(remaining: Table) | Up

  datatype Listener = Idle | Notified(id: DomainId) | Fetched(id: DomainId, origin: Address)

  /** A sweep of the resolver: rows of its snapshot still to do, and the map write that
      follows a committed table update. A sweep can fail at any point. */
  datatype Sweep = NoSweep | Sweeping(todo: Table, pending: Option<(DomainId, Address)>)

  /** `committed` records the ids notified since the session's LISTEN, `answers` the
      AAAA records handed out so far. */
  datatype State = State(
    table: Table, sequence: bv64, handlers: map<nat, Handler>, answers: set<(string, Address)>,
    daemon: Daemon, listening: bool, queue: seq<DomainId>, listener: Listener, sweep: Sweep, natMap: NatMap,
    committed: set<DomainId>)

  datatype DnsOp = Query(domain: string) | Lookup | Upstream(result: Option<Address>) | Allocate | Store | Abandon
  datatype DaemonOp = Start | LoadRow(row: string) | LoadDone | Stop
  datatype ListenerOp = Connect | Receive | Fetch | WriteFetched | SessionEnd
  datatype ResolverOp = Begin | ResolveRow(name: string, found: Option<Address>) | WriteResolved | End

  datatype Step =
    | Dns(h: nat, dns: DnsOp)
    | Proc(proc: DaemonOp)
    | Listening(session: ListenerOp)
    | Resolving(resolve: ResolverOp)

  const INIT: State := State(map[], 0, map[], {}, Down, false, [], Idle, NoSweep, map[], {})

  function Without(handlers: map<nat, Handler>, h: nat): map<nat, Handler> {
    handlers - {h}
  }

  /** The trigger: every committed insert or update notifies a listening session. */
  function Notify(s: State, id: DomainId): State {
    if s.listening then s.(queue := s.queue + [id], committed := s.committed + {id}) else s
  }

  function Answer(s: State, h: nat, domain: string, synthetic: Address): State {
    s.(handlers := Without(s.handlers, h), answers := s.answers + {(domain, synthetic)})
  }

  predicate SweepIdle(s: State) {
    s.sweep.Sweeping? && s.sweep.pending.None?
  }

  // -------------------------------------------------------------------------
  // DNS handlers
  // -------------------------------------------------------------------------

  predicate DnsEnabled(s: State, h: nat, op: DnsOp) {
    match op
    case Query(_) => h !in s.handlers
    case Lookup => h in s.handlers && s.handlers[h].Asked?
    case Upstream(_) => h in s.handlers && s.handlers[h].Missed?
    case Allocate => h in s.handlers && s.handlers[h].Resolved?
    case Store => h in s.handlers && s.handlers[h].Allocated?
    case Abandon => h in s.handlers
  }

  /** `insert_domain` by handler `h`. A second row with a taken id violates UNIQUE and
      the handler fails; otherwise it answers with the stored synthetic address. */
  ghost function ApplyStore(s: State, h: nat, domain: string, origin: Address, id: DomainId): State {
    if domain !in s.table && IdUsed(s.table, id) then s.(handlers := Without(s.handlers, h))
    else
      var t := Upsert(s.table, domain, id, origin, SyntheticIpv6(id.bits));
      Answer(Notify(s.(table := t), t[domain].id), h, domain, t[domain].synthetic)
  }

  ghost function ApplyDns(s: State, h: nat, op: DnsOp): State
    requires DnsEnabled(s, h, op)
  {
    match op
    case Query(domain) => s.(handlers := s.handlers[h := Asked(domain)])
    case Lookup =>
      var domain := s.handlers[h].domain;
      if domain in s.table then Answer(s, h, domain, s.table[domain].synthetic)
      else s.(handlers := s.handlers[h := Missed(domain)])
    case Upstream(result) =>
      if result.None? then s.(handlers := Without(s.handlers, h))
      else s.(handlers := s.handlers[h := Resolved(s.handlers[h].domain, result.value)])
    case Allocate =>
      var next := NextVal(s.sequence);
      if next.None? then s.(handlers := Without(s.handlers, h))
      else s.(sequence := next.value,
              handlers := s.handlers[h := Allocated(s.handlers[h].domain, s.handlers[h].origin, TruncateId(next.value))])
    case Store => ApplyStore(s, h, s.handlers[h].domain, s.handlers[h].origin, s.handlers[h].id)
    case Abandon => s.(handlers := Without(s.handlers, h))
  }

  // -------------------------------------------------------------------------
  // The daemon: process and bulk load, listener, resolver
  // -------------------------------------------------------------------------

  predicate DaemonEnabled(s: State, op: DaemonOp) {
    match op
    case Start => s.daemon.Down?
    case LoadRow(row) => s.daemon.Loading? && row in s.daemon.remaining && HasRoom(s.natMap, s.daemon.remaining[row].id)
    case LoadDone => s.daemon.Loading? && |s.daemon.remaining| == 0
    case Stop => !s.daemon.Down?
  }

  function ApplyDaemon(s: State, op: DaemonOp): State
    requires DaemonEnabled(s, op)
  {
    match op
    case Start => s.(daemon := Loading(s.table), natMap := map[])
    case LoadRow(row) =>
      var r := s.daemon.remaining[row];
      s.(daemon := Loading(s.daemon.remaining - {row}), natMap := InsertNat(s.natMap, r.id, r.origin))
    case LoadDone => s.(daemon := Up)
    case Stop => s.(daemon := Down, listening := false, queue := [], listener := Idle, sweep := NoSweep, natMap := map[])
  }

  predicate ListenerEnabled(s: State, op: ListenerOp) {
    match op
    case Connect => s.daemon.Up? && !s.listening
    case Receive => s.listening && s.listener.Idle? && |s.queue| > 0
    case Fetch => s.listener.Notified?
    case WriteFetched => s.listener.Fetched?
    case SessionEnd => s.listening
  }

  ghost function ApplyFetch(s: State, id: DomainId): State {
    s.(listener := match FindById(s.table, id) case None => Idle case Some(origin) => Fetched(id, origin))
  }

  ghost function ApplyListener(s: State, op: ListenerOp): State
    requires ListenerEnabled(s, op)
  {
    match op
    case Connect => s.(listening := true, queue := [], committed := {})
    case Receive => s.(queue := s.queue[1..], listener := Notified(s.queue[0]))
    case Fetch => ApplyFetch(s, s.listener.id)
    case WriteFetched => s.(natMap := InsertNat(s.natMap, s.listener.id, s.listener.origin), listener := Idle)
    case SessionEnd => s.(listening := false, queue := [], listener := Idle)
  }

  predicate ResolverEnabled(s: State, op: ResolverOp) {
    match op
    case Begin => s.daemon.Up? && s.sweep.NoSweep?
    case ResolveRow(name, _) => SweepIdle(s) && name in s.sweep.todo
    case WriteResolved => s.sweep.Sweeping? && s.sweep.pending.Some?
    case End => s.sweep.Sweeping?
  }

  function CommitOrigin(s: State, id: DomainId, origin: Address, rest: Table): State {
    s.(table := SetOrigin(s.table, id, origin), sweep := Sweeping(rest, Some((id, origin))))
  }

  /** One row of a sweep: a changed origin is committed first and written to NAT_MAP later. */
  ghost function ApplyResolveRow(s: State, row: Row, rest: Table, found: Option<Address>): State {
    if found.None? || found.value == row.origin then s.(sweep := Sweeping(rest, None))
    else if IdUsed(s.table, row.id) then Notify(CommitOrigin(s, row.id, found.value, rest), row.id)
    else CommitOrigin(s, row.id, found.value, rest)
  }

  /** The map write of a sweep; a full map aborts the sweep. */
  function ApplyWriteResolved(s: State, todo: Table, id: DomainId, origin: Address): State {
    s.(natMap := InsertNat(s.natMap, id, origin),
       sweep := if HasRoom(s.natMap, id) then Sweeping(todo, None) else NoSweep)
  }

  ghost function ApplyResolver(s: State, op: ResolverOp): State
    requires ResolverEnabled(s, op)
  {
    match op
    case Begin => s.(sweep := Sweeping(s.table, None))
    case ResolveRow(name, found) => ApplyResolveRow(s, s.sweep.todo[name], s.sweep.todo - {name}, found)
    case WriteResolved => ApplyWriteResolved(s, s.sweep.todo, s.sweep.pending.value.0, s.sweep.pending.value.1)
    case End => s.(sweep := NoSweep)
  }

  // -------------------------------------------------------------------------
  // Runs
  // -------------------------------------------------------------------------

  predicate Enabled(s: State, step: Step) {
    match step
    case Dns(h, op) => DnsEnabled(s, h, op)
    case Proc(op) => DaemonEnabled(s, op)
    case Listening(op) => ListenerEnabled(s, op)
    case Resolving(op) => ResolverEnabled(s, op)
  }

  ghost function Apply(s: State, step: Step): State
    requires Enabled(s, step)
  {
    match step
    case Dns(h, op) => ApplyDns(s, h, op)
    case Proc(op) => ApplyDaemon(s, op)
    case Listening(op) => ApplyListener(s, op)
    case Resolving(op) => ApplyResolver(s, op)
  }

  /** A finite run of the system from the empty registry. */
  ghost predicate IsRun(states: seq<State>, steps: seq<Step>) {
    && |states| == |steps| + 1
    && states[0] == INIT
    && forall k :: 0 <= k < |steps| ==> Enabled(states[k], steps[k]) && states[k + 1] == Apply(states[k], steps[k])
  }

  // -------------------------------------------------------------------------
  // What every step keeps
  // -------------------------------------------------------------------------

  ghost predicate AnswersStored(s: State) {
    forall a :: a in s.answers ==> a.0 in s.table && s.table[a.0].synthetic == a.1
  }

  /** Origins on their way to NAT_MAP or in it. */
  ghost predicate Carries(s: State, id: DomainId, origin: Address) {
    || (id in s.natMap && s.natMap[id] == origin)
    || s.listener == Fetched(id, origin)
    || (s.sweep.Sweeping? && s.sweep.pending == Some((id, origin)))
    || (s.daemon.Loading? && IsRow(s.daemon.remaining, id, origin))
  }

  ghost predicate Inv(s: State) {
    && WellFormed(s.table)
    && AnswersStored(s)
    && Snapshots(s)
    && Phases(s)
  }

  /** The table part of an invariant step. */
  ghost predicate Grows(s: State, t: State) {
    && WellFormed(t.table) && Extends(s.table, t.table)
    && AnswersStored(t)
  }

  lemma StoreGrows(s: State, h: nat, domain: string, origin: Address, id: DomainId)
    requires WellFormed(s.table) && AnswersStored(s)
    ensures Grows(s, ApplyStore(s, h, domain, origin, id))
  {
    hide SyntheticIpv6, WellFormed, IdUsed, Upsert;
    if domain in s.table || !IdUsed(s.table, id) {
      UpsertLaws(s.table, domain, id, origin);
    }
  }

  lemma DnsGrows(s: State, h: nat, op: DnsOp)
    requires WellFormed(s.table) && AnswersStored(s) && DnsEnabled(s, h, op)
    ensures Grows(s, ApplyDns(s, h, op))
  {
    hide WellFormed, ApplyStore, NextVal, TruncateId;
    if op.Store? {
      StoreGrows(s, h, s.handlers[h].domain, s.handlers[h].origin, s.handlers[h].id);
    }
  }

  lemma AnswersPersist(s: State, t: State)
    requires AnswersStored(s) && t.answers == s.answers && Extends(s.table, t.table)
    ensures AnswersStored(t)
  {
  }

  lemma ResolveRowEffect(s: State, row: Row, rest: Table, found: Option<Address>)
    ensures var t := ApplyResolveRow(s, row, rest, found);
            && t.answers == s.answers && t.daemon == s.daemon && t.listening == s.listening && t.listener == s.listener
            && t.natMap == s.natMap && t.sweep.Sweeping? && t.sweep.todo == rest
            && (if found.None? || found.value == row.origin then t.table == s.table && t.sweep.pending == None
                else t.table == SetOrigin(s.table, row.id, found.value) && t.sweep.pending == Some((row.id, found.value)))
  {
    hide IdUsed, SetOrigin, Notify;
    if found.Some? {
      NotifyFrame(CommitOrigin(s, row.id, found.value, rest), row.id);
    }
  }

  lemma NotifyFrame(s: State, id: DomainId)
    ensures var t := Notify(s, id);
            && t.table == s.table && t.answers == s.answers && t.handlers == s.handlers && t.daemon == s.daemon
            && t.listening == s.listening && t.listener == s.listener && t.sweep == s.sweep && t.natMap == s.natMap
  {
  }

  lemma ResolveRowGrows(s: State, row: Row, rest: Table, found: Option<Address>)
    requires WellFormed(s.table) && AnswersStored(s)
    ensures Grows(s, ApplyResolveRow(s, row, rest, found))
  {
    hide WellFormed, AnswersStored, SetOrigin, ApplyResolveRow;
    var t := ApplyResolveRow(s, row, rest, found);
    ResolveRowEffect(s, row, rest, found);
    if found.Some? {
      SetOriginLaws(s.table, row.id, found.value);
    }
    AnswersPersist(s, t);
  }

  // What each actor leaves alone.

  ghost predicate SameDaemon(s: State, t: State) {
    && t.daemon == s.daemon && t.listening == s.listening && t.listener == s.listener && t.sweep == s.sweep
    && t.natMap == s.natMap
  }

  lemma StoreFrame(s: State, h: nat, domain: string, origin: Address, id: DomainId)
    ensures SameDaemon(s, ApplyStore(s, h, domain, origin, id))
  {
    hide Upsert, IdUsed, SyntheticIpv6, Without;
  }

  lemma DnsFrame(s: State, h: nat, op: DnsOp)
    requires DnsEnabled(s, h, op)
    ensures SameDaemon(s, ApplyDns(s, h, op))
  {
    hide ApplyStore, NextVal, TruncateId, Without, Answer;
    match op
    case Query(_) =>
    case Lookup => AnswerFrame(s, h, s.handlers[h].domain);
    case Upstream(_) =>
    case Allocate =>
    case Store => StoreFrame(s, h, s.handlers[h].domain, s.handlers[h].origin, s.handlers[h].id);
    case Abandon =>
  }

  lemma AnswerFrame(s: State, h: nat, domain: string)
    ensures domain in s.table ==> SameDaemon(s, Answer(s, h, domain, s.table[domain].synthetic))
  {
    hide Without;
  }

  lemma DaemonFrame(s: State, op: DaemonOp)
    requires DaemonEnabled(s, op)
    ensures var t := ApplyDaemon(s, op);
            && t.table == s.table && t.answers == s.answers
            && (!op.Stop? ==> t.listening == s.listening && t.listener == s.listener && t.sweep == s.sweep)
  {
    hide InsertNat, HasRoom;
    match op
    case Start =>
    case LoadRow(_) =>
    case LoadDone =>
    case Stop =>
  }

  lemma LoadShrinks(s: State, op: DaemonOp)
    requires DaemonEnabled(s, op) && ApplyDaemon(s, op).daemon.Loading?
    ensures var r := ApplyDaemon(s, op).daemon.remaining;
            r == s.table || (s.daemon.Loading? && Submap(r, s.daemon.remaining))
  {
    hide InsertNat, HasRoom;
  }

  lemma ListenerFrame(s: State, op: ListenerOp)
    requires ListenerEnabled(s, op)
    ensures var t := ApplyListener(s, op);
            t.table == s.table && t.answers == s.answers && t.daemon == s.daemon && t.sweep == s.sweep
  {
    hide InsertNat, FindById;
    match op
    case Connect =>
    case Receive =>
    case Fetch =>
    case WriteFetched =>
    case SessionEnd =>
  }

  lemma ResolverFrame(s: State, op: ResolverOp)
    requires ResolverEnabled(s, op)
    ensures var t := ApplyResolver(s, op);
            && t.answers == s.answers && t.daemon == s.daemon && t.listening == s.listening && t.listener == s.listener
            && (!op.ResolveRow? ==> t.table == s.table)
  {
    hide InsertNat, HasRoom, ApplyResolveRow;
    if op.ResolveRow? {
      ResolveRowEffect(s, s.sweep.todo[op.name], s.sweep.todo - {op.name}, op.found);
    }
  }

  lemma SweepShrinks(s: State, op: ResolverOp)
    requires ResolverEnabled(s, op) && ApplyResolver(s, op).sweep.Sweeping?
    ensures var todo := ApplyResolver(s, op).sweep.todo;
            todo == s.table || (s.sweep.Sweeping? && Submap(todo, s.sweep.todo))
  {
    hide InsertNat, HasRoom, ApplyResolveRow;
    if op.ResolveRow? {
      ResolveRowEffect(s, s.sweep.todo[op.name], s.sweep.todo - {op.name}, op.found);
    }
  }

  ghost predicate Submap(a: Table, b: Table) {
    forall d :: d in a ==> d in b && a[d] == b[d]
  }

  /** The table only ever grows, and every answer given stays the stored one. */
  lemma TableStep(s: State, step: Step)
    requires WellFormed(s.table) && AnswersStored(s) && Enabled(s, step)
    ensures Grows(s, Apply(s, step))
  {
    hide WellFormed, ApplyDns, ApplyDaemon, ApplyListener, ApplyResolveRow, InsertNat, HasRoom;
    match step
    case Dns(h, op) => DnsGrows(s, h, op);
    case Proc(op) => DaemonFrame(s, op);
    case Listening(op) => ListenerFrame(s, op);
    case Resolving(op) =>
      ResolverFrame(s, op);
      if op.ResolveRow? {
        ResolveRowGrows(s, s.sweep.todo[op.name], s.sweep.todo - {op.name}, op.found);
      }
  }

  lemma SubmapExtends(a: Table, b: Table, c: Table)
    requires Submap(a, b) && Extends(b, c)
    ensures Extends(a, c)
  {
  }

  lemma SnapshotsExtend(a: Table, b: Table, before: Table, after: Table)
    requires a == before || (Submap(a, b) && Extends(b, before))
    requires Extends(before, after)
    ensures Extends(a, after)
  {
    hide Extends, Submap;
    if a != before {
      SubmapExtends(a, b, before);
      ExtendsTransitive(a, before, after);
    }
  }

  ghost predicate Phases(s: State) {
    && (s.listening ==> s.daemon.Up?)
    && (!s.listener.Idle? ==> s.listening)
    && (s.sweep.Sweeping? ==> s.daemon.Up?)
  }

  ghost predicate Snapshots(s: State) {
    && (s.sweep.Sweeping? ==> Extends(s.sweep.todo, s.table))
    && (s.daemon.Loading? ==> Extends(s.daemon.remaining, s.table))
  }

  lemma PhasesStep(s: State, step: Step)
    requires Phases(s) && Enabled(s, step)
    ensures Phases(Apply(s, step))
  {
    hide ApplyDns, InsertNat, HasRoom, IdUsed, SetOrigin;
    match step
    case Dns(h, op) => DnsFrame(s, h, op);
    case Proc(op) => DaemonFrame(s, op);
    case Listening(op) => ListenerFrame(s, op);
    case Resolving(op) => ResolverFrame(s, op);
  }

  lemma SnapshotsStep(s: State, step: Step)
    requires Snapshots(s) && Phases(s) && Enabled(s, step) && Extends(s.table, Apply(s, step).table)
    ensures Snapshots(Apply(s, step))
  {
    hide ApplyDns, ApplyDaemon, ApplyListener, ApplyResolver, Extends, Submap;
    var t := Apply(s, step);
    match step {
      case Dns(h, op) =>
        DnsFrame(s, h, op);
        SnapshotKept(s, t);
      case Proc(op) =>
        DaemonFrame(s, op);
        if t.daemon.Loading? {
          LoadShrinks(s, op);
          SnapshotsExtend(t.daemon.remaining, if s.daemon.Loading? then s.daemon.remaining else map[], s.table, t.table);
        }
        if op.Stop? {
          StopClears(s, op);
        }
      case Listening(op) =>
        ListenerFrame(s, op);
        SnapshotKept(s, t);
      case Resolving(op) =>
        ResolverFrame(s, op);
        if t.sweep.Sweeping? {
          SweepShrinks(s, op);
          SnapshotsExtend(t.sweep.todo, if s.sweep.Sweeping? then s.sweep.todo else map[], s.table, t.table);
        }
    }
  }

  lemma StopClears(s: State, op: DaemonOp)
    requires DaemonEnabled(s, op) && op.Stop?
    ensures ApplyDaemon(s, op).sweep.NoSweep?
  {
  }

  lemma SnapshotKept(s: State, t: State)
    requires Snapshots(s) && Extends(s.table, t.table) && t.sweep == s.sweep && t.daemon == s.daemon
    ensures Snapshots(t)
  {
    hide Extends;
    if s.sweep.Sweeping? {
      ExtendsTransitive(s.sweep.todo, s.table, t.table);
    }
    if s.daemon.Loading? {
      ExtendsTransitive(s.daemon.remaining, s.table, t.table);
    }
  }

  lemma InvStep(s: State, step: Step)
    requires Inv(s) && Enabled(s, step)
    ensures Inv(Apply(s, step))
  {
    hide WellFormed, Extends, AnswersStored, Snapshots, Phases, Apply, Enabled;
    TableStep(s, step);
    SnapshotsStep(s, step);
    PhasesStep(s, step);
  }

  lemma {:induction false} InvAlways(states: seq<State>, steps: seq<Step>, i: nat)
    requires IsRun(states, steps) && i < |states|
    ensures Inv(states[i])
  {
    hide Apply, Enabled;
    if i == 0 {
      assert Inv(INIT);
    } else {
      InvAlways(states, steps, i - 1);
      InvStep(states[i - 1], steps[i - 1]);
    }
  }
}
