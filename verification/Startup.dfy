/** From the bulk load into a live session: if no row is committed between the snapshot of
    the bulk load and LISTEN, NAT_MAP comes to be the whole table. */
module Startup {
  import opened Wrappers
  import opened Addresses
  import opened Registry
  import opened Control
  import opened Provenance
  import opened Convergence

  /** NAT_MAP is the id-to-origin image of the table. */
  ghost predicate MapIsTable(s: State) {
    && s.natMap.Keys == IdsOf(s.table, s.table.Keys)
    && (forall d :: d in s.table ==> HasEntry(s, d))
  }

  ghost predicate HasEntry(s: State, d: string)
    requires d in s.table
  {
    s.table[d].id in s.natMap && s.natMap[s.table[d].id] == s.table[d].origin
  }

  lemma EntriesAgree(s: State)
    ensures (forall d :: d in s.table ==> HasEntry(s, d)) <==> (forall id :: Agrees(s, id))
  {
    if forall id :: Agrees(s, id) {
      forall d | d in s.table
        ensures HasEntry(s, d)
      {
        assert Agrees(s, s.table[d].id);
      }
    }
  }

  // -------------------------------------------------------------------------
  // From the bulk load to LISTEN
  // -------------------------------------------------------------------------

  /** Every row is in NAT_MAP or still to be loaded, and nothing else is on its way. */
  ghost predicate Fresh(s: State) {
    && !s.daemon.Down? && s.listener.Idle? && (s.listening ==> s.queue == [])
    && (s.sweep.Sweeping? ==> s.sweep.pending.None?)
    && (s.daemon.Loading? ==> Submap(s.daemon.remaining, s.table))
    && (forall d :: d in s.table ==> HasEntry(s, d) || (s.daemon.Loading? && d in s.daemon.remaining))
  }

  ghost predicate CommitsNothing(s: State, step: Step) {
    forall id :: !CommitsRow(s, step, id)
  }

  lemma SameSessionFresh(s: State, t: State)
    requires Fresh(s) && SameSession(s, t) && (t.sweep.Sweeping? ==> t.sweep.pending.None?)
    ensures Fresh(t)
  {
    assert forall d :: d in s.table ==> (HasEntry(s, d) <==> HasEntry(t, d));
  }

  lemma InsertedEntry(t: Table, m: NatMap, row: string, d: string)
    requires WellFormed(t) && row in t && d in t && HasRoom(m, t[row].id)
    ensures var n := InsertNat(m, t[row].id, t[row].origin);
            d == row || (t[d].id in m && m[t[d].id] == t[d].origin) ==> t[d].id in n && n[t[d].id] == t[d].origin
  {
    assert d != row ==> t[d].id != t[row].id;
    hide WellFormed;
  }

  lemma LoadRowFresh(s: State, row: string)
    requires WellFormed(s.table) && Fresh(s) && DaemonEnabled(s, LoadRow(row))
    ensures Fresh(ApplyDaemon(s, LoadRow(row)))
  {
    hide WellFormed, InsertNat, HasRoom;
    assert s.daemon.remaining[row] == s.table[row];
    forall d | d in s.table
      ensures HasEntry(s, d) || d == row ==> HasEntry(ApplyDaemon(s, LoadRow(row)), d)
    {
      InsertedEntry(s.table, s.natMap, row, d);
    }
  }

  lemma DaemonFresh(s: State, op: DaemonOp)
    requires WellFormed(s.table) && Fresh(s) && !s.daemon.Down? && DaemonEnabled(s, op) && !op.Stop?
    ensures Fresh(ApplyDaemon(s, op))
  {
    hide WellFormed, Fresh, InsertNat, HasRoom;
    match op
    case Start =>
    case LoadRow(row) => LoadRowFresh(s, row);
    case LoadDone => LoadDoneFresh(s);
    case Stop =>
  }

  lemma LoadDoneFresh(s: State)
    requires Fresh(s) && DaemonEnabled(s, LoadDone)
    ensures Fresh(ApplyDaemon(s, LoadDone))
  {
    var t := ApplyDaemon(s, LoadDone);
    assert s.daemon.remaining == map[];
    assert forall d :: d in s.table ==> HasEntry(s, d) && HasEntry(t, d);
  }

  lemma ListenerFresh(s: State, op: ListenerOp)
    requires Fresh(s) && ListenerEnabled(s, op)
    ensures Fresh(ApplyListener(s, op))
  {
    hide InsertNat, FindById;
    var t := ApplyListener(s, op);
    match op
    case Connect => assert forall d :: d in s.table ==> (HasEntry(s, d) <==> HasEntry(t, d));
    case Receive =>
    case Fetch =>
    case WriteFetched =>
    case SessionEnd => assert forall d :: d in s.table ==> (HasEntry(s, d) <==> HasEntry(t, d));
  }

  lemma FreshStep(s: State, step: Step)
    requires Inv(s) && Fresh(s) && Enabled(s, step) && CommitsNothing(s, step) && !Apply(s, step).daemon.Down?
    ensures Fresh(Apply(s, step))
  {
    hide WellFormed, CommitsRow, ApplyDns, ApplyListener, ApplyResolveRow, InsertNat, HasRoom, HasEntry, SameSession;
    var t := Apply(s, step);
    match step
    case Dns(h, op) =>
      DnsEffect(s, h, op);
      SameSessionFresh(s, t);
    case Proc(op) => DaemonFresh(s, op);
    case Listening(op) => ListenerFresh(s, op);
    case Resolving(op) => ResolverFresh(s, op);
  }

  lemma ResolverFresh(s: State, op: ResolverOp)
    requires Inv(s) && Fresh(s) && ResolverEnabled(s, op) && CommitsNothing(s, Resolving(op))
    ensures Fresh(ApplyResolver(s, op))
  {
    hide Inv, CommitsRow, ApplyResolveRow, HasEntry, InsertNat, HasRoom;
    if op.ResolveRow? {
      ResolveRowEffects(s, op.name, op.found);
    }
    SameSessionFresh(s, ApplyResolver(s, op));
  }

  /** No row is committed from the bulk load that starts at `b` until LISTEN at `c`, and
      the daemon is not stopped in between. */
  ghost predicate CleanStart(states: seq<State>, steps: seq<Step>, b: nat, c: nat) {
    && IsRun(states, steps) && b < c < |states| == |steps| + 1 && steps[b] == Proc(Start)
    && (forall k :: b < k <= c ==> !states[k].daemon.Down?)
    && (forall k :: b < k < c ==> CommitsNothing(states[k], steps[k]))
  }

  lemma StartFresh(s: State)
    requires Inv(s) && DaemonEnabled(s, Start)
    ensures Fresh(ApplyDaemon(s, Start))
  {
    hide WellFormed, AnswersStored, Snapshots;
  }

  lemma {:induction false} FreshUntilListen(states: seq<State>, steps: seq<Step>, b: nat, c: nat)
    requires CleanStart(states, steps, b, c)
    ensures Fresh(states[c])
    decreases c
  {
    hide Inv, Fresh, Apply, Enabled, CommitsNothing;
    InvAlways(states, steps, c - 1);
    assert Enabled(states[c - 1], steps[c - 1]) && states[c] == Apply(states[c - 1], steps[c - 1]);
    if c == b + 1 {
      StartStep(states[b]);
    } else {
      FreshUntilListen(states, steps, b, c - 1);
      FreshStep(states[c - 1], steps[c - 1]);
    }
  }

  lemma StartStep(s: State)
    requires Inv(s) && Enabled(s, Proc(Start))
    ensures Fresh(Apply(s, Proc(Start)))
  {
    hide Inv, Fresh;
    StartFresh(s);
  }

  // -------------------------------------------------------------------------
  // In the session
  // -------------------------------------------------------------------------

  /** Rows not committed in this session agree, and only committed ones are on their way. */
  ghost predicate Undisturbed(s: State) {
    && (forall id :: id in s.committed || Agrees(s, id))
    && (forall id :: id in s.queue ==> id in s.committed)
    && (!s.listener.Idle? ==> s.listener.id in s.committed)
    && (s.sweep.Sweeping? && s.sweep.pending.Some? ==> s.sweep.pending.value.0 in s.committed)
  }

  lemma CommitOrNothingUndisturbed(s: State, step: Step, t: State)
    requires Undisturbed(s) && CommitOrNothing(s, step, t) && s.listening
    requires t.sweep == s.sweep || (t.sweep.Sweeping? && (t.sweep.pending.Some? ==> CommitsRow(s, step, t.sweep.pending.value.0)))
    ensures Undisturbed(t)
  {
    hide CommitsRow, Agrees, IsRow;
    if cid :| CommitsRow(s, step, cid) {
      forall id
        ensures id in t.committed || Agrees(t, id)
      {
        if id != cid {
          CommitUntouched(s, t, cid, id);
        }
      }
    } else {
      SameSessionAgrees(s, t);
    }
  }

  lemma SameSessionAgrees(s: State, t: State)
    requires SameSession(s, t)
    ensures forall id :: Agrees(s, id) <==> Agrees(t, id)
  {
  }

  lemma WriteUndisturbed(s: State, t: State, id: DomainId, origin: Address)
    requires WellFormed(s.table) && HasRoom(s.natMap, id) && id in s.committed
    requires t.table == s.table && t.natMap == InsertNat(s.natMap, id, origin) && t.committed == s.committed
    requires forall other :: other in s.committed || Agrees(s, other)
    ensures forall other :: other in t.committed || Agrees(t, other)
  {
    hide WellFormed, HasRoom, InsertNat, Agrees;
    forall other
      ensures other in t.committed || Agrees(t, other)
    {
      WriteAgrees(s, t, id, origin, other);
    }
  }

  lemma ListenerUndisturbed(s: State, op: ListenerOp)
    requires WellFormed(s.table) && Undisturbed(s) && ListenerEnabled(s, op) && Fits(s, Listening(op))
    requires s.listening && ApplyListener(s, op).listening
    ensures Undisturbed(ApplyListener(s, op))
  {
    hide WellFormed, HasRoom, InsertNat, FindById, Agrees;
    var t := ApplyListener(s, op);
    match op
    case Connect =>
    case Receive => ListenerAgrees(s, op);
    case Fetch => ListenerAgrees(s, op);
    case WriteFetched => WriteUndisturbed(s, t, s.listener.id, s.listener.origin);
    case SessionEnd =>
  }

  lemma ListenerAgrees(s: State, op: ListenerOp)
    requires ListenerEnabled(s, op) && (op.Receive? || op.Fetch?)
    ensures forall id :: Agrees(s, id) <==> Agrees(ApplyListener(s, op), id)
  {
    hide FindById;
  }

  lemma ResolverUndisturbed(s: State, op: ResolverOp)
    requires Inv(s) && Undisturbed(s) && ResolverEnabled(s, op) && Fits(s, Resolving(op)) && s.listening
    ensures Undisturbed(ApplyResolver(s, op))
  {
    hide WellFormed, AnswersStored, Snapshots, Phases, HasRoom, InsertNat, Agrees, ApplyResolveRow, CommitOrNothing, CommitsRow;
    var t := ApplyResolver(s, op);
    match op
    case Begin => SameSessionAgrees(s, t);
    case ResolveRow(name, found) =>
      ResolveRowEffects(s, name, found);
      CommitOrNothingUndisturbed(s, Resolving(op), t);
    case WriteResolved => WriteUndisturbed(s, t, s.sweep.pending.value.0, s.sweep.pending.value.1);
    case End => SameSessionAgrees(s, t);
  }

  lemma UndisturbedStep(s: State, step: Step)
    requires Inv(s) && Undisturbed(s) && Enabled(s, step) && Fits(s, step) && s.listening && Apply(s, step).listening
    ensures Undisturbed(Apply(s, step))
  {
    hide WellFormed, Phases, Fits, Undisturbed, CommitsRow, CommitOrNothing, ApplyDns, ApplyDaemon, ApplyListener, ApplyResolver;
    match step
    case Dns(h, op) =>
      DnsEffect(s, h, op);
      CommitOrNothingUndisturbed(s, step, Apply(s, step));
    case Proc(op) => DaemonEndsSession(s, op);
    case Listening(op) => ListenerUndisturbed(s, op);
    case Resolving(op) => ResolverUndisturbed(s, op);
  }

  lemma FreshSession(s: State, t: State)
    requires Fresh(s) && s.daemon.Up?
    requires t.table == s.table && t.natMap == s.natMap && t.listener == s.listener && t.sweep == s.sweep && t.queue == []
    ensures Undisturbed(t)
  {
    assert forall d :: d in t.table ==> HasEntry(s, d) && HasEntry(t, d);
    EntriesAgree(t);
  }

  lemma {:induction false} UndisturbedSession(states: seq<State>, steps: seq<Step>, b: nat, c: nat, i: nat)
    requires CleanStart(states, steps, b, c) && IsSession(states, steps, c, i) && |states[i].table| <= MAX_NAT_ENTRIES
    ensures Undisturbed(states[i])
    decreases i
  {
    hide Inv, Fresh, Apply, Enabled, Fits, Undisturbed, CommitsNothing;
    assert Enabled(states[i - 1], steps[i - 1]) && states[i] == Apply(states[i - 1], steps[i - 1]);
    InvAlways(states, steps, i - 1);
    if i == c + 1 {
      FreshUntilListen(states, steps, b, c);
      SessionBegins(states, steps, c, i);
      ListensWhenUp(states[c]);
      FreshSession(states[c], states[i]);
    } else {
      RowsGrow(states, steps, i - 1, i);
      UndisturbedSession(states, steps, b, c, i - 1);
      StepFits(states, steps, i - 1, i);
      UndisturbedStep(states[i - 1], steps[i - 1]);
    }
  }

  lemma ListensWhenUp(s: State)
    requires Enabled(s, Listening(Connect))
    ensures s.daemon.Up?
  {
  }

  lemma MapWithinTable(states: seq<State>, steps: seq<Step>, i: nat)
    requires IsRun(states, steps) && i < |states|
    ensures states[i].natMap.Keys <= IdsOf(states[i].table, states[i].table.Keys)
  {
    hide IsRun, IdsOf;
    forall id | id in states[i].natMap
      ensures id in IdsOf(states[i].table, states[i].table.Keys)
    {
      CarriedIdIsStored(states, steps, i, id, states[i].natMap[id]);
    }
  }

  lemma AgreementIsImage(s: State)
    requires s.natMap.Keys <= IdsOf(s.table, s.table.Keys)
    ensures MapIsTable(s) <==> forall id :: Agrees(s, id)
  {
    hide Agrees;
    EntriesAgree(s);
  }

  /** Convergence of the whole map. In a session after a clean start, whenever the
      queue is empty and nothing is in flight, NAT_MAP is exactly the table if and only if
      every harmful late write of any row was followed by another commit of that row. */
  lemma WholeTableConverges(states: seq<State>, steps: seq<Step>, b: nat, c: nat, i: nat)
    requires CleanStart(states, steps, b, c) && IsSession(states, steps, c, i)
    requires |states[i].table| <= MAX_NAT_ENTRIES && Quiescent(states[i])
    ensures MapIsTable(states[i]) <==> forall id :: Repaired(states, steps, c, i, id)
  {
    hide IsRun, Harmful, Agrees, CommitsNothing, MapIsTable, Repaired;
    var s := states[i];
    UndisturbedSession(states, steps, b, c, i);
    MapWithinTable(states, steps, i);
    AgreementIsImage(s);
    forall id
      ensures Agrees(s, id) <==> Repaired(states, steps, c, i, id)
    {
      if id in s.committed {
        ConvergesExactly(states, steps, c, i, id);
      } else {
        NothingToRepair(states, steps, c, i, id);
      }
    }
  }

  lemma NothingToRepair(states: seq<State>, steps: seq<Step>, c: nat, i: nat, id: DomainId)
    requires IsSession(states, steps, c, i) && |states[i].table| <= MAX_NAT_ENTRIES && id !in states[i].committed
    ensures Repaired(states, steps, c, i, id)
  {
    hide IsRun, Harmful, CommittedBetween;
    forall k: nat | c < k < i
      ensures !Harmful(states[k], steps[k], id)
    {
      if Harmful(states[k], steps[k], id) {
        CommittedStays(states, steps, c, k, i, id);
      }
    }
  }

  lemma {:induction false} CommittedStays(states: seq<State>, steps: seq<Step>, c: nat, k: nat, i: nat, id: DomainId)
    requires IsSession(states, steps, c, i) && c < k < i && |states[i].table| <= MAX_NAT_ENTRIES
    requires Harmful(states[k], steps[k], id)
    ensures id in states[i].committed
    decreases i
  {
    hide IsRun, CommitsRow, Covered, Stale, UnderWay, IsRow;
    StepOfSession(states, steps, c, i - 1, i, id);
    if k < i - 1 {
      RowsGrow(states, steps, i - 1, i);
      CommittedStays(states, steps, c, k, i - 1, id);
    }
  }
}
