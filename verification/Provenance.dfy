/** Safety of the whole system over every run: answers agree and never change, NAT_MAP
    never holds an origin the table did not record for that domain, and so a translated
    packet only ever goes to an origin of the domain the client asked for. */
module Provenance {
  import opened Wrappers
  import opened Words
  import opened Addresses
  import opened ProxySource
  import opened Registry
  import opened Control
  import P = Packets
  import D = Datapath

  // -------------------------------------------------------------------------
  // Answers
  // -------------------------------------------------------------------------

  lemma {:induction false} TableExtendsAlong(states: seq<State>, steps: seq<Step>, i: nat, j: nat)
    requires IsRun(states, steps) && i <= j < |states|
    ensures Extends(states[i].table, states[j].table)
    decreases j - i
  {
    hide Apply, Enabled, INIT;
    if i < j {
      TableExtendsAlong(states, steps, i, j - 1);
      InvAlways(states, steps, j - 1);
      TableStep(states[j - 1], steps[j - 1]);
      ExtendsTransitive(states[i].table, states[j - 1].table, states[j].table);
    }
  }

  lemma AnswerIsStored(states: seq<State>, steps: seq<Step>, i: nat, k: nat, n: string, a: Address)
    requires IsRun(states, steps) && i <= k < |states| && (n, a) in states[i].answers
    ensures n in states[k].table && states[k].table[n].synthetic == a && a == SyntheticIpv6(states[k].table[n].id.bits)
  {
    hide IsRun, SyntheticIpv6;
    InvAlways(states, steps, i);
    InvAlways(states, steps, k);
    TableExtendsAlong(states, steps, i, k);
  }

  /** Over every interleaving, all answers for a domain are one address, and different
      domains are answered with different addresses. */
  lemma AnswersAgree(states: seq<State>, steps: seq<Step>, i: nat, j: nat, n: string, a: Address, m: string, b: Address)
    requires IsRun(states, steps) && i < |states| && j < |states|
    requires (n, a) in states[i].answers && (m, b) in states[j].answers
    ensures n == m <==> a == b
  {
    hide IsRun, SyntheticIpv6;
    var k := if i <= j then j else i;
    AnswerIsStored(states, steps, i, k, n, a);
    AnswerIsStored(states, steps, j, k, m, b);
    InvAlways(states, steps, k);
    if a == b {
      SyntheticInjective(states[k].table[n].id.bits, states[k].table[m].id.bits);
    }
  }

  /** Every stored row keeps its id and the synthetic address of that id forever. */
  lemma SyntheticIsStable(states: seq<State>, steps: seq<Step>, i: nat, j: nat, n: string)
    requires IsRun(states, steps) && i <= j < |states| && n in states[i].table
    ensures n in states[j].table && states[j].table[n].id == states[i].table[n].id
    ensures states[j].table[n].synthetic == SyntheticIpv6(states[i].table[n].id.bits)
  {
    hide IsRun, SyntheticIpv6;
    InvAlways(states, steps, j);
    TableExtendsAlong(states, steps, i, j);
  }

  // -------------------------------------------------------------------------
  // Where the origins in NAT_MAP come from
  // -------------------------------------------------------------------------

  lemma InsertedOrKept(m: NatMap, id: DomainId, origin: Address, k: DomainId)
    requires k in InsertNat(m, id, origin)
    ensures if k == id then InsertNat(m, id, origin)[k] == origin
            else k in m && InsertNat(m, id, origin)[k] == m[k]
  {
  }

  lemma DaemonCarries(s: State, op: DaemonOp, id: DomainId, origin: Address)
    requires DaemonEnabled(s, op) && Carries(ApplyDaemon(s, op), id, origin)
    ensures Carries(s, id, origin) || IsRow(s.table, id, origin)
  {
    hide InsertNat, HasRoom;
    match op
    case Start =>
    case LoadRow(row) =>
      var r := s.daemon.remaining[row];
      assert IsRow(s.daemon.remaining, r.id, r.origin);
      if id in InsertNat(s.natMap, r.id, r.origin) {
        InsertedOrKept(s.natMap, r.id, r.origin, id);
      }
    case LoadDone =>
    case Stop =>
  }

  lemma ListenerCarries(s: State, op: ListenerOp, id: DomainId, origin: Address)
    requires ListenerEnabled(s, op) && Carries(ApplyListener(s, op), id, origin)
    ensures Carries(s, id, origin) || IsRow(s.table, id, origin)
  {
    hide InsertNat, HasRoom, FindById, IsRow;
    match op
    case Connect =>
    case Receive =>
    case Fetch => FindByIdIsRow(s.table, s.listener.id);
    case WriteFetched =>
      if id in InsertNat(s.natMap, s.listener.id, s.listener.origin) {
        InsertedOrKept(s.natMap, s.listener.id, s.listener.origin, id);
        assert s.listener == Fetched(s.listener.id, s.listener.origin);
      }
    case SessionEnd =>
  }

  lemma ResolverCarries(s: State, op: ResolverOp, id: DomainId, origin: Address)
    requires Inv(s) && ResolverEnabled(s, op) && Carries(ApplyResolver(s, op), id, origin)
    ensures Carries(s, id, origin) || IsRow(ApplyResolver(s, op).table, id, origin)
  {
    hide InsertNat, HasRoom, ApplyResolveRow, WellFormed, AnswersStored, SetOrigin;
    match op
    case Begin =>
    case ResolveRow(name, found) =>
      var row := s.sweep.todo[name];
      ResolveRowEffect(s, row, s.sweep.todo - {name}, found);
      if found.Some? {
        SetOriginLaws(s.table, row.id, found.value);
        assert name in s.table && s.table[name].id == row.id;
        assert SetOrigin(s.table, row.id, found.value)[name].origin == found.value;
      }
    case WriteResolved =>
      var (pid, porigin) := s.sweep.pending.value;
      if id in InsertNat(s.natMap, pid, porigin) {
        InsertedOrKept(s.natMap, pid, porigin, id);
        assert s.sweep.pending == Some((pid, porigin));
      }
    case End =>
  }

  /** No step invents an origin: what is carried afterwards was carried before or is in
      the table before or after the step. */
  lemma CarriesStep(s: State, step: Step, id: DomainId, origin: Address)
    requires Inv(s) && Enabled(s, step) && Carries(Apply(s, step), id, origin)
    ensures Carries(s, id, origin) || IsRow(s.table, id, origin) || IsRow(Apply(s, step).table, id, origin)
  {
    hide Inv, IsRow, ApplyDns, ApplyDaemon, ApplyListener, ApplyResolver;
    match step
    case Dns(h, op) => DnsFrame(s, h, op);
    case Proc(op) => DaemonCarries(s, op, id, origin);
    case Listening(op) => ListenerCarries(s, op, id, origin);
    case Resolving(op) => ResolverCarries(s, op, id, origin);
  }

  /** The table recorded this origin for this id at some moment up to `i`. */
  ghost predicate Recorded(states: seq<State>, i: nat, id: DomainId, origin: Address)
    requires i < |states|
  {
    exists j :: 0 <= j <= i && IsRow(states[j].table, id, origin)
  }

  lemma {:induction false} CarriedIsRecorded(states: seq<State>, steps: seq<Step>, i: nat, id: DomainId, origin: Address)
    requires IsRun(states, steps) && i < |states| && Carries(states[i], id, origin)
    ensures Recorded(states, i, id, origin)
    decreases i
  {
    hide Apply, Enabled, Carries, IsRow;
    if i == 0 {
      InitCarriesNothing(id, origin);
    } else {
      InvAlways(states, steps, i - 1);
      CarriesStep(states[i - 1], steps[i - 1], id, origin);
      if Carries(states[i - 1], id, origin) {
        CarriedIsRecorded(states, steps, i - 1, id, origin);
      }
    }
  }

  lemma InitCarriesNothing(id: DomainId, origin: Address)
    ensures !Carries(INIT, id, origin)
  {
  }

  /** NAT_MAP never holds an origin that the table did not record for that domain. */
  lemma NatMapIsRecorded(states: seq<State>, steps: seq<Step>, i: nat, n: string)
    requires IsRun(states, steps) && i < |states| && n in states[i].table && states[i].table[n].id in states[i].natMap
    ensures exists j :: 0 <= j <= i && n in states[j].table
                        && states[j].table[n].origin == states[i].natMap[states[i].table[n].id]
  {
    hide IsRun, SyntheticIpv6;
    var id := states[i].table[n].id;
    var origin := states[i].natMap[id];
    CarriedIsRecorded(states, steps, i, id, origin);
    var j: nat :| j <= i && IsRow(states[j].table, id, origin);
    var d :| d in states[j].table && states[j].table[d].id == id && states[j].table[d].origin == origin;
    TableExtendsAlong(states, steps, j, i);
    InvAlways(states, steps, i);
    assert d == n;
  }

  // -------------------------------------------------------------------------
  // Packets
  // -------------------------------------------------------------------------

  /** Whole-system safety. In every run, a packet sent to an address that was handed out
      for domain `n`, if `tc_ingress` translates it, leaves for an origin that the table
      recorded for `n` itself at some moment of the run. */
  lemma TranslatedPacketsReachTheirDomain(states: seq<State>, steps: seq<Step>, i: nat, n: string, a: Address,
                                          p: seq<Byte>, maps: D.Maps, track: D.Track, accept: bool)
    requires IsRun(states, steps) && i < |states| && (n, a) in states[i].answers
    requires maps.natMap == states[i].natMap
    requires D.PlanIngress(p, maps).Translate? && P.IsFlow(p, D.PlanIngress(p, maps).off)
    requires P.DstAddr(p, D.PlanIngress(p, maps).off) == a
    ensures var off := D.PlanIngress(p, maps).off;
            var q := D.TcIngress(p, maps, track, accept).packet;
            && P.IsFlow(q, off)
            && exists j :: 0 <= j <= i && n in states[j].table && states[j].table[n].origin == P.DstAddr(q, off)
  {
    hide IsRun, D.PlanIngress, D.TcIngress, Encode, Decode, SyntheticIpv6, DomainIdFromIpv6, P.IsFlow, P.DstAddr;
    D.IngressEffect(p, maps, track, accept);
    AnswerIsStored(states, steps, i, i, n, a);
    DomainIdOfSynthetic(states[i].table[n].id.bits);
    NatMapIsRecorded(states, steps, i, n);
  }
}
