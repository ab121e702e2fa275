/** A run in which NAT_MAP and the table end apart. */
module Divergence {
  import opened Wrappers
  import opened Addresses
  import opened Registry
  import opened Control
  import opened Convergence

  datatype Trace = Trace(states: seq<State>, steps: seq<Step>)

  ghost predicate Valid(tr: Trace) {
    |tr.states| > 0 && IsRun(tr.states, tr.steps)
  }

  function Last(tr: Trace): State
    requires |tr.states| > 0
  {
    tr.states[|tr.states| - 1]
  }

  lemma Take(tr: Trace, step: Step) returns (next: Trace)
    requires Valid(tr) && Enabled(Last(tr), step)
    ensures Valid(next) && Last(next) == Apply(Last(tr), step)
  {
    hide Apply, Enabled, INIT;
    next := Trace(tr.states + [Apply(Last(tr), step)], tr.steps + [step]);
  }

  ghost predicate Pending(s: State, id: DomainId, origin: Address) {
    s.sweep.Sweeping? && s.sweep.pending == Some((id, origin))
  }

  const NAME: string := "a"

  /** Handler `h` asks for the name and finds nothing in the table. */
  lemma Miss(tr: Trace, h: nat) returns (next: Trace)
    requires Valid(tr) && h !in Last(tr).handlers && NAME !in Last(tr).table
    ensures Valid(next) && Last(next) == Last(tr).(handlers := Last(tr).handlers[h := Missed(NAME)])
  {
    hide IsRun;
    next := Take(tr, Dns(h, Query(NAME)));
    next := Take(next, Dns(h, Lookup));
    assert Last(tr).handlers[h := Asked(NAME)][h := Missed(NAME)] == Last(tr).handlers[h := Missed(NAME)];
  }

  /** Handler `h` resolves the name to `origin` and draws an id. */
  lemma Draw(tr: Trace, h: nat, origin: Address) returns (next: Trace, id: DomainId)
    requires Valid(tr) && h in Last(tr).handlers && Last(tr).handlers[h] == Missed(NAME) && NextVal(Last(tr).sequence).Some?
    ensures Valid(next) && NextVal(Last(tr).sequence).Some?
    ensures Last(next) == Last(tr).(sequence := NextVal(Last(tr).sequence).value,
                                    handlers := Last(tr).handlers[h := Allocated(NAME, origin, id)])
  {
    hide IsRun, NextVal, TruncateId;
    var s := Last(tr);
    id := TruncateId(NextVal(s.sequence).value);
    next := Take(tr, Dns(h, Upstream(Some(origin))));
    next := Take(next, Dns(h, Allocate));
    assert s.handlers[h := Resolved(NAME, origin)][h := Allocated(NAME, origin, id)] == s.handlers[h := Allocated(NAME, origin, id)];
  }

  /** What the run needs to know of a state: the row, the map entry, and who waits. */
  ghost predicate Stands(s: State, id: DomainId, stored: Address) {
    NAME in s.table && s.table[NAME].id == id && s.table[NAME].origin == stored && s.table.Keys == {NAME}
  }

  /** The listener brings one notification into NAT_MAP. */
  lemma Deliver(tr: Trace, id: DomainId, stored: Address) returns (next: Trace)
    requires Valid(tr) && Stands(Last(tr), id, stored) && HasRoom(Last(tr).natMap, id)
    requires Last(tr).listening && Last(tr).listener.Idle? && |Last(tr).queue| > 0 && Last(tr).queue[0] == id
    ensures Valid(next)
    ensures Last(next) == Last(tr).(queue := Last(tr).queue[1..], natMap := Last(tr).natMap[id := stored])
  {
    hide IsRun;
    next := Take(tr, Listening(Receive));
    assert FindById(Last(tr).table, id) == Some(stored);
    next := Take(next, Listening(Fetch));
    next := Take(next, Listening(WriteFetched));
  }

  lemma StoreOfName(s: State, h: nat, origin: Address, id: DomainId)
    requires s.table.Keys <= {NAME}
    ensures var kept := if NAME in s.table then s.table[NAME].id else id;
            var t := ApplyStore(s, h, NAME, origin, id);
            && Stands(t, kept, origin) && t.handlers == s.handlers - {h} && t.sequence == s.sequence
            && t.queue == (if s.listening then s.queue + [kept] else s.queue)
            && t.committed == (if s.listening then s.committed + {kept} else s.committed)
  {
    hide SyntheticIpv6;
  }

  /** Handler `h` stores the name: the first time with its own id, later as an update. */
  lemma StoreName(tr: Trace, h: nat, origin: Address, id: DomainId) returns (next: Trace)
    requires Valid(tr) && h in Last(tr).handlers && Last(tr).handlers[h] == Allocated(NAME, origin, id)
    requires Last(tr).table.Keys <= {NAME}
    ensures var s := Last(tr);
            var kept := if NAME in s.table then s.table[NAME].id else id;
            && Valid(next) && Stands(Last(next), kept, origin) && SameDaemon(s, Last(next))
            && Last(next).handlers == s.handlers - {h} && Last(next).sequence == s.sequence
            && Last(next).queue == (if s.listening then s.queue + [kept] else s.queue)
            && Last(next).committed == (if s.listening then s.committed + {kept} else s.committed)
  {
    hide IsRun, ApplyStore, Stands;
    next := Take(tr, Dns(h, Store));
    StoreOfName(Last(tr), h, origin, id);
    StoreFrame(Last(tr), h, NAME, origin, id);
  }

  /** The daemon starts, loads the one row, listens, and begins a sweep. */
  lemma BringUp(tr: Trace, id: DomainId, a: Address) returns (next: Trace)
    requires Valid(tr) && Stands(Last(tr), id, a) && Last(tr).daemon.Down? && Last(tr).listener.Idle?
    requires !Last(tr).listening && Last(tr).sweep.NoSweep?
    ensures Valid(next)
    ensures Last(next) == Last(tr).(daemon := Up, natMap := map[id := a], listening := true, queue := [], committed := {},
                                    sweep := Sweeping(Last(tr).table, None))
  {
    hide IsRun;
    next := Take(tr, Proc(Start));
    next := Take(next, Proc(LoadRow(NAME)));
    assert Last(tr).table - {NAME} == map[];
    next := Take(next, Proc(LoadDone));
    next := Take(next, Listening(Connect));
    next := Take(next, Resolving(Begin));
  }

  /** The sweep finds a new origin and commits it. */
  lemma Resolve(tr: Trace, id: DomainId, a: Address, b: Address) returns (next: Trace)
    requires Valid(tr) && Stands(Last(tr), id, a) && a != b && Last(tr).listening
    requires Last(tr).sweep == Sweeping(Last(tr).table, None)
    ensures Valid(next) && Stands(Last(next), id, b) && Pending(Last(next), id, b)
    ensures Last(next) == Last(tr).(table := Last(next).table, sweep := Last(next).sweep,
                                    queue := Last(tr).queue + [id], committed := Last(tr).committed + {id})
  {
    hide IsRun;
    next := Take(tr, Resolving(ResolveRow(NAME, Some(b))));
    assert IdUsed(Last(tr).table, id);
  }

  /** Two handlers miss the name, the first stores it with origin `a`, the second has an
      id and origin `c` in hand. */
  lemma TwoHandlers(a: Address, c: Address) returns (tr: Trace, id: DomainId, spare: DomainId)
    ensures Valid(tr) && Stands(Last(tr), id, a)
    ensures Last(tr).handlers == map[1 := Allocated(NAME, c, spare)]
    ensures SameDaemon(INIT, Last(tr)) && Last(tr).queue == []
  {
    tr := Trace([INIT], []);
    assert Valid(tr);
    hide IsRun;
    tr := Miss(tr, 0);
    tr := Miss(tr, 1);
    tr, id := Draw(tr, 0, a);
    tr, spare := Draw(tr, 1, c);
    assert Last(tr).handlers == map[0 := Allocated(NAME, a, id), 1 := Allocated(NAME, c, spare)];
    tr := StoreName(tr, 0, a, id);
  }

  /** The listener drains both notifications, then the resolver writes its old origin. */
  lemma LateWrite(tr: Trace, id: DomainId, b: Address, c: Address) returns (next: Trace)
    requires Valid(tr) && Stands(Last(tr), id, c) && Pending(Last(tr), id, b) && b != c
    requires Last(tr).listening && Last(tr).listener.Idle? && Last(tr).queue == [id, id] && id in Last(tr).natMap
    ensures Valid(next)
    ensures Quiescent(Last(next)) && Last(next).committed == Last(tr).committed && Last(next).table == Last(tr).table
    ensures !Agrees(Last(next), id)
  {
    hide IsRun;
    next := Deliver(tr, id, c);
    next := Deliver(next, id, c);
    next := Take(next, Resolving(WriteResolved));
    assert Last(next).natMap[id] == b;
  }

  /** Without the condition convergence fails: two handlers miss the same name and the
      first stores it; the resolver commits origin `b`, the second handler upserts `c`,
      the listener catches up, and only then the resolver writes `b` into NAT_MAP. The
      session is quiescent, the row was committed in it, and NAT_MAP disagrees. */
  lemma ConvergenceCanFail(a: Address, b: Address, c: Address) returns (tr: Trace, id: DomainId)
    requires a != b && b != c
    ensures IsRun(tr.states, tr.steps) && |tr.states| > 0
    ensures var s := Last(tr); Quiescent(s) && id in s.committed && |s.table| == 1 && !Agrees(s, id)
  {
    hide IsRun, Apply, Enabled;
    var spare: DomainId;
    tr, id, spare := TwoHandlers(a, c);
    tr := BringUp(tr, id, a);
    tr := Resolve(tr, id, a, b);
    tr := StoreName(tr, 1, c, spare);
    tr := LateWrite(tr, id, b, c);
    assert Last(tr).table.Keys == {NAME};
  }
}
