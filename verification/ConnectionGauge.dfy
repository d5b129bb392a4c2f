/** The connection-state gauge: a map updated under a lock, and gauge updates emitted after unlocking. */
module ConnectionGauge {
  import opened Bytes

  type Conn = nat
  type Thread = nat

  datatype ConnState = StateNew | StateActive | StateIdle | StateHijacked | StateClosed
  {
    predicate Terminal() {
      StateHijacked? || StateClosed?
    }
  }

  // ----- Counting the keys with a given value

  ghost function KeysAt<K>(m: map<K, ConnState>, s: ConnState): set<K> {
    set k | k in m && m[k] == s
  }

  ghost function Count<K>(m: map<K, ConnState>, s: ConnState): nat {
    |KeysAt(m, s)|
  }

  lemma CountRemove<K>(m: map<K, ConnState>, k: K, s: ConnState)
    ensures Count(m - {k}, s) == Count(m, s) - if k in m && m[k] == s then 1 else 0
  {
    SizeUpdate(KeysAt(m, s), KeysAt(m - {k}, s), k);
  }

  lemma CountUpdate<K>(m: map<K, ConnState>, k: K, v: ConnState, s: ConnState)
    ensures Count(m[k := v], s) ==
            Count(m, s) - (if k in m && m[k] == s then 1 else 0) + if v == s then 1 else 0
  {
    SizeUpdate(KeysAt(m, s), KeysAt(m[k := v], s), k);
  }

  // ----- The protocol

  /**
   `calls` holds the connection of each observe call in flight; `decs` and `incs` hold the gauge
   updates a call has decided on under the lock but not yet emitted.
   */
  datatype State = State(
    states: map<Conn, ConnState>, gauge: map<ConnState, int>,
    calls: map<Thread, Conn>, decs: map<Thread, ConnState>, incs: map<Thread, ConnState>)
  {
    function Gauge(s: ConnState): int {
      if s in gauge then gauge[s] else 0
    }

    function Adding(s: ConnState, delta: int): map<ConnState, int> {
      gauge[s := Gauge(s) + delta]
    }
  }

  const INIT := State(map[], map[], map[], map[], map[])

  /** The locked section, the two emissions, and the return of one observe call. */
  datatype Action =
    | Lock(thread: Thread, conn: Conn, next: ConnState)
    | EmitDec(thread: Thread)
    | EmitInc(thread: Thread)
    | Return(thread: Thread)

  predicate Enabled(x: State, a: Action) {
    match a
    case Lock(t, _, _) => t !in x.calls
    case EmitDec(t) => t in x.calls && t in x.decs
    case EmitInc(t) => t in x.calls && t !in x.decs && t in x.incs
    case Return(t) => t in x.calls && t !in x.decs && t !in x.incs
  }

  function Do(x: State, a: Action): State
    requires Enabled(x, a)
  {
    match a
    case Lock(t, c, next) =>
      x.(states := if next.Terminal() then x.states - {c} else x.states[c := next],
         calls := x.calls[t := c],
         decs := if c in x.states then x.decs[t := x.states[c]] else x.decs,
         incs := if next.Terminal() then x.incs else x.incs[t := next])
    case EmitDec(t) => x.(gauge := x.Adding(x.decs[t], -1), decs := x.decs - {t})
    case EmitInc(t) => x.(gauge := x.Adding(x.incs[t], 1), incs := x.incs - {t})
    case Return(t) => x.(calls := x.calls - {t})
  }

  ghost predicate Possible(x: State, run: seq<Action>)
    decreases |run|, 0
  {
    run == [] || (Possible(x, run[..|run| - 1]) && Enabled(After(x, run[..|run| - 1]), run[|run| - 1]))
  }

  ghost function After(x: State, run: seq<Action>): State
    requires Possible(x, run)
    decreases |run|, 1
  {
    if run == [] then x else Do(After(x, run[..|run| - 1]), run[|run| - 1])
  }

  lemma OneMore(x: State, run: seq<Action>, a: Action)
    requires Possible(x, run) && Enabled(After(x, run), a)
    ensures Possible(x, run + [a]) && After(x, run + [a]) == Do(After(x, run), a)
  {
    assert (run + [a])[..|run|] == run;
  }

  lemma Extend(x: State, run: seq<Action>, y: State, a: Action, more: seq<Action>)
    requires Possible(x, run) && After(x, run) == y && Enabled(y, a) && more == run + [a]
    ensures Possible(x, more) && After(x, more) == Do(y, a)
  {
    OneMore(x, run, a);
  }

  lemma {:induction false} RunsCompose(x: State, a: seq<Action>, b: seq<Action>)
    requires Possible(x, a) && Possible(After(x, a), b)
    ensures Possible(x, a + b) && After(x, a + b) == After(After(x, a), b)
  {
    if b == [] {
      assert a + b == a;
    } else {
      RunsCompose(x, a, b[..|b| - 1]);
      assert (a + b)[..|a + b| - 1] == a + b[..|b| - 1];
    }
  }

  // ----- The gauge accounts for every connection, under every interleaving

  ghost predicate Accounts(x: State) {
    && x.decs.Keys <= x.calls.Keys
    && x.incs.Keys <= x.calls.Keys
    && forall s :: x.Gauge(s) + Count(x.incs, s) - Count(x.decs, s) == Count(x.states, s)
  }

  lemma AccountsStep(x: State, a: Action)
    requires Accounts(x) && Enabled(x, a)
    ensures Accounts(Do(x, a))
  {
    forall s ensures Do(x, a).Gauge(s) + Count(Do(x, a).incs, s) - Count(Do(x, a).decs, s) == Count(Do(x, a).states, s) {
      match a
      case Lock(t, c, next) =>
        CountRemove(x.states, c, s);
        CountUpdate(x.states, c, next, s);
        CountUpdate(x.incs, t, next, s);
        if c in x.states {
          CountUpdate(x.decs, t, x.states[c], s);
        }
      case EmitDec(t) => CountRemove(x.decs, t, s);
      case EmitInc(t) => CountRemove(x.incs, t, s);
      case Return(_) =>
    }
  }

  /** In every reachable state, gauge plus pending increments minus pending decrements is the number of connections. */
  lemma {:induction false} GaugeAccounts(x: State, run: seq<Action>)
    requires Accounts(x) && Possible(x, run)
    ensures Accounts(After(x, run))
  {
    if run != [] {
      GaugeAccounts(x, run[..|run| - 1]);
      AccountsStep(After(x, run[..|run| - 1]), run[|run| - 1]);
    }
  }

  lemma InitAccounts()
    ensures Accounts(INIT)
  {
  }

  /** With no call in flight every gauge is the exact count; once every connection is gone all gauges are zero. */
  lemma QuiescentGaugeIsExact(run: seq<Action>, s: ConnState)
    requires Possible(INIT, run) && After(INIT, run).calls == map[]
    ensures After(INIT, run).Gauge(s) == Count(After(INIT, run).states, s)
    ensures After(INIT, run).states == map[] ==> After(INIT, run).Gauge(s) == 0
  {
    InitAccounts();
    GaugeAccounts(INIT, run);
  }

  // ----- What was last reported of each connection

  /** The state last reported of a connection, if any call on it has passed its locked section. */
  function LastReport(run: seq<Action>, c: Conn): Option<ConnState> {
    if run == [] then None
    else
      var last := run[|run| - 1];
      if last.Lock? && last.conn == c then Some(last.next) else LastReport(run[..|run| - 1], c)
  }

  /** A connection is recorded exactly if it was last reported in a state other than closed and hijacked, and in that state. */
  lemma {:induction false} RecordsLastReport(run: seq<Action>, c: Conn)
    requires Possible(INIT, run)
    ensures var states, report := After(INIT, run).states, LastReport(run, c);
            && (c in states <==> report.Some? && report.value != StateClosed && report.value != StateHijacked)
            && (c in states ==> states[c] == report.value)
  {
    if run != [] {
      RecordsLastReport(run[..|run| - 1], c);
    }
  }

  function Reported(run: seq<Action>): set<Conn> {
    set i | 0 <= i < |run| && run[i].Lock? :: run[i].conn
  }

  ghost function LastReportedAs(run: seq<Action>, s: ConnState): set<Conn> {
    set c | c in Reported(run) && LastReport(run, c) == Some(s)
  }

  lemma {:induction false} ReportedHasReport(run: seq<Action>, c: Conn)
    ensures LastReport(run, c).Some? ==> c in Reported(run)
  {
    if run != [] {
      var rest := run[..|run| - 1];
      ReportedHasReport(rest, c);
      if c in Reported(rest) {
        var i :| 0 <= i < |rest| && rest[i].Lock? && rest[i].conn == c;
        assert run[i].Lock? && run[i].conn == c;
      }
    }
  }

  /**
   With no call in flight, the gauge of a state is the number of connections last reported in it, and zero for
   closed and hijacked; so all gauges are zero once every connection was last reported closed or hijacked.
   */
  lemma GaugeCountsLastReports(run: seq<Action>, s: ConnState)
    requires Possible(INIT, run) && After(INIT, run).calls == map[]
    ensures After(INIT, run).Gauge(s) == if s == StateClosed || s == StateHijacked then 0 else |LastReportedAs(run, s)|
    ensures (forall c :: c in Reported(run) ==> LastReport(run, c) in {Some(StateClosed), Some(StateHijacked)}) ==>
              After(INIT, run).Gauge(s) == 0
  {
    QuiescentGaugeIsExact(run, s);
    hide Possible, After;
    var states := After(INIT, run).states;
    forall c
      ensures c in states && states[c] == s <==> LastReport(run, c) == Some(s) && s != StateClosed && s != StateHijacked
      ensures LastReport(run, c).Some? ==> c in Reported(run)
    {
      RecordsLastReport(run, c);
      ReportedHasReport(run, c);
    }
    assert KeysAt(states, s) == if s == StateClosed || s == StateHijacked then {} else LastReportedAs(run, s);
    if forall c :: c in Reported(run) ==> LastReport(run, c) in {Some(StateClosed), Some(StateHijacked)} {
      assert LastReportedAs(run, s) == {} || s == StateClosed || s == StateHijacked;
    }
  }

  // ----- When no gauge is ever negative

  /** No call that has still to add one for this connection is overtaken by another call's locked section. */
  ghost predicate Respects(x: State, a: Action) {
    a.Lock? ==> forall t :: t in x.incs && t in x.calls ==> x.calls[t] != a.conn
  }

  ghost predicate Disciplined(x: State, run: seq<Action>)
    requires Possible(x, run)
  {
    run == [] || (
      && Disciplined(x, run[..|run| - 1])
      && Respects(After(x, run[..|run| - 1]), run[|run| - 1]))
  }

  /** Every pending increment belongs to a connection recorded in that very state, and no two to the same one. */
  ghost predicate Backed(x: State) {
    && Accounts(x)
    && (forall t :: t in x.incs ==> x.calls[t] in x.states && x.states[x.calls[t]] == x.incs[t])
    && (forall t, u :: t in x.incs && u in x.incs && t != u ==> x.calls[t] != x.calls[u])
  }

  lemma BackedStep(x: State, a: Action)
    requires Backed(x) && Enabled(x, a) && Respects(x, a)
    ensures Backed(Do(x, a))
  {
    AccountsStep(x, a);
  }

  lemma {:induction false} DisciplinedRunsStayBacked(x: State, run: seq<Action>)
    requires Backed(x) && Possible(x, run) && Disciplined(x, run)
    ensures Backed(After(x, run))
  {
    if run != [] {
      DisciplinedRunsStayBacked(x, run[..|run| - 1]);
      BackedStep(After(x, run[..|run| - 1]), run[|run| - 1]);
    }
  }

  lemma {:induction false} InjectionBounds(threads: set<Thread>, calls: map<Thread, Conn>, conns: set<Conn>)
    requires forall t :: t in threads ==> t in calls && calls[t] in conns
    requires forall t, u :: t in threads && u in threads && t != u ==> calls[t] != calls[u]
    ensures |threads| <= |conns|
  {
    if t :| t in threads {
      InjectionBounds(threads - {t}, calls, conns - {calls[t]});
    }
  }

  lemma BackedIsNonNegative(x: State, s: ConnState)
    requires Backed(x)
    ensures x.Gauge(s) >= 0
  {
    InjectionBounds(KeysAt(x.incs, s), x.calls, KeysAt(x.states, s));
  }

  /** Calls that do not overlap on a connection keep every gauge non-negative at every step. */
  lemma GaugeNeverNegative(run: seq<Action>, s: ConnState)
    requires Possible(INIT, run) && Disciplined(INIT, run)
    ensures After(INIT, run).Gauge(s) >= 0
  {
    InitAccounts();
    DisciplinedRunsStayBacked(INIT, run);
    BackedIsNonNegative(After(INIT, run), s);
  }

  /** No call's locked section comes while another call on the same connection is in flight. */
  ghost predicate NonOverlapping(x: State, run: seq<Action>)
    requires Possible(x, run)
  {
    run == [] || (
      && NonOverlapping(x, run[..|run| - 1])
      && var last, y := run[|run| - 1], After(x, run[..|run| - 1]);
         last.Lock? ==> forall t :: t in y.calls ==> y.calls[t] != last.conn)
  }

  lemma {:induction false} NonOverlappingIsDisciplined(x: State, run: seq<Action>)
    requires Possible(x, run) && NonOverlapping(x, run)
    ensures Disciplined(x, run)
  {
    if run != [] {
      NonOverlappingIsDisciplined(x, run[..|run| - 1]);
    }
  }

  // ----- One overlap is enough to go negative

  lemma {:induction false} DisciplineComposes(x: State, a: seq<Action>, b: seq<Action>)
    requires Possible(x, a) && Disciplined(x, a)
    requires Possible(After(x, a), b) && Disciplined(After(x, a), b)
    ensures Possible(x, a + b) && Disciplined(x, a + b)
  {
    RunsCompose(x, a, b);
    if b == [] {
      assert a + b == a;
    } else {
      RunsCompose(x, a, b[..|b| - 1]);
      DisciplineComposes(x, a, b[..|b| - 1]);
      assert (a + b)[..|a + b| - 1] == a + b[..|b| - 1];
    }
  }

  /** `y` is `x` after some disciplined run. */
  ghost predicate Reaches(x: State, y: State) {
    exists run :: Possible(x, run) && Disciplined(x, run) && After(x, run) == y
  }

  lemma ReachesItself(x: State)
    ensures Reaches(x, x)
  {
    assert Possible(x, []) && Disciplined(x, []) && After(x, []) == x;
  }

  lemma ReachesStep(x: State, y: State, a: Action)
    requires Reaches(x, y) && Enabled(y, a) && Respects(y, a)
    ensures Reaches(x, Do(y, a))
  {
    var run :| Possible(x, run) && Disciplined(x, run) && After(x, run) == y;
    OneMore(x, run, a);
    assert (run + [a])[..|run|] == run;
    assert Disciplined(x, run + [a]);
  }

  lemma ReachesTransitive(x: State, y: State, z: State)
    requires Reaches(x, y) && Reaches(y, z)
    ensures Reaches(x, z)
  {
    var a :| Possible(x, a) && Disciplined(x, a) && After(x, a) == y;
    var b :| Possible(y, b) && Disciplined(y, b) && After(y, b) == z;
    RunsCompose(x, a, b);
    DisciplineComposes(x, a, b);
  }

  lemma ReachesKeepsAccounts(x: State, y: State)
    requires Accounts(x) && Reaches(x, y)
    ensures Accounts(y)
  {
    var run :| Possible(x, run) && Disciplined(x, run) && After(x, run) == y;
    GaugeAccounts(x, run);
  }

  /** A call can emit its pending decrement, if any. */
  lemma EmitPendingDec(x: State, t: Thread) returns (y: State)
    requires t in x.calls
    ensures Reaches(x, y) && y == x.(gauge := y.gauge, decs := x.decs - {t})
  {
    ReachesItself(x);
    y := x;
    if t in x.decs {
      y := Do(x, EmitDec(t));
      ReachesStep(x, x, EmitDec(t));
    } else {
      assert x.decs - {t} == x.decs;
    }
  }

  /** A call in flight can run to its end. */
  lemma FinishCall(x: State, t: Thread) returns (y: State)
    requires t in x.calls
    ensures Reaches(x, y)
    ensures y == x.(gauge := y.gauge, calls := x.calls - {t}, decs := x.decs - {t}, incs := x.incs - {t})
  {
    y := EmitPendingDec(x, t);
    if t in y.incs {
      ReachesStep(x, y, EmitInc(t));
      y := Do(y, EmitInc(t));
    } else {
      assert x.incs - {t} == x.incs;
    }
    ReachesStep(x, y, Return(t));
    y := Do(y, Return(t));
  }

  ghost predicate Same<V>(m: map<Thread, V>, n: map<Thread, V>, t: Thread) {
    (t in m <==> t in n) && (t in m ==> m[t] == n[t])
  }

  /** All calls but those of two threads can run to their end. */
  lemma {:induction false} DrainOthers(x: State, t: Thread, u: Thread) returns (y: State)
    requires x.decs.Keys <= x.calls.Keys && x.incs.Keys <= x.calls.Keys
    ensures Reaches(x, y) && y.states == x.states
    ensures y.calls.Keys <= {t, u} && y.decs.Keys <= y.calls.Keys && y.incs.Keys <= y.calls.Keys
    ensures Same(y.calls, x.calls, t) && Same(y.calls, x.calls, u)
    ensures Same(y.incs, x.incs, t) && Same(y.incs, x.incs, u)
    decreases |x.calls|
  {
    if v :| v in x.calls && v != t && v != u {
      var z := FinishCall(x, v);
      y := DrainOthers(z, t, u);
      ReachesTransitive(x, z, y);
    } else {
      y := x;
      ReachesItself(x);
    }
  }

  lemma FreshThread(calls: map<Thread, Conn>) returns (t: Thread)
    ensures t !in calls
  {
    t := BoundedBy(calls.Keys);
  }

  lemma {:induction false} BoundedBy(threads: set<Thread>) returns (bound: Thread)
    ensures forall t :: t in threads ==> t < bound
  {
    bound := 0;
    if t :| t in threads {
      var rest := BoundedBy(threads - {t});
      assert threads == (threads - {t}) + {t};
      bound := if rest > t then rest else t + 1;
    }
  }

  /** A fresh thread can close a connection no pending increment belongs to. */
  lemma CloseOne(x: State, d: Conn) returns (y: State)
    requires x.decs == map[] && x.incs.Keys <= x.calls.Keys && d in x.states
    requires forall t :: t in x.calls ==> x.calls[t] != d
    ensures Reaches(x, y) && y == x.(gauge := y.gauge, states := x.states - {d})
  {
    var t := FreshThread(x.calls);
    ReachesItself(x);
    var z := Do(x, Lock(t, d, StateClosed));
    ReachesStep(x, x, Lock(t, d, StateClosed));
    y := FinishCall(z, t);
    ReachesTransitive(x, z, y);
    assert y.calls == x.calls && y.incs == x.incs && y.decs == x.decs;
  }

  /** Every connection recorded in `s`, except `c`, can be closed without overtaking a call on `c`. */
  lemma {:induction false} CloseOthers(x: State, c: Conn, s: ConnState) returns (y: State)
    requires x.decs == map[] && x.incs.Keys <= x.calls.Keys && forall t :: t in x.calls ==> x.calls[t] == c
    ensures Reaches(x, y) && y.decs == map[] && y.incs == x.incs
    ensures (c in y.states <==> c in x.states) && (c in x.states ==> y.states[c] == x.states[c])
    ensures KeysAt(y.states, s) <= {c}
    decreases |x.states|
  {
    if d :| d in x.states && x.states[d] == s && d != c {
      var z := CloseOne(x, d);
      assert |z.states| < |x.states| by {
        assert x.states.Keys == z.states.Keys + {d};
      }
      y := CloseOthers(z, c, s);
      ReachesTransitive(x, z, y);
    } else {
      y := x;
      ReachesItself(x);
    }
  }

  /** Two calls can be left as the only ones in flight, neither with a decrement to emit. */
  lemma LeaveTwo(x: State, t: Thread, u: Thread) returns (y: State)
    requires x.decs.Keys <= x.calls.Keys && x.incs.Keys <= x.calls.Keys
    ensures Reaches(x, y) && y.states == x.states && y.decs == map[]
    ensures y.calls.Keys <= {t, u} && y.incs.Keys <= y.calls.Keys
    ensures Same(y.calls, x.calls, t) && Same(y.calls, x.calls, u)
    ensures Same(y.incs, x.incs, t) && Same(y.incs, x.incs, u)
  {
    y := DrainOthers(x, t, u);
    if t in y.calls {
      var z := EmitPendingDec(y, t);
      ReachesTransitive(x, y, z);
      y := z;
    }
    if u in y.calls {
      var z := EmitPendingDec(y, u);
      ReachesTransitive(x, y, z);
      y := z;
    }
    assert y.decs.Keys == {};
  }

  /** After `a` overtakes `t` on its connection: both calls, and nothing else, can be brought to the point of adding one. */
  lemma OverlapIsolated(x: State, a: Action, t: Thread) returns (y: State)
    requires Backed(x) && Enabled(x, a) && a.Lock? && t in x.incs && x.calls[t] == a.conn
    ensures Reaches(Do(x, a), y) && y.decs == map[] && y.states == Do(x, a).states
    ensures y.incs == if a.next.Terminal() then map[t := x.incs[t]] else map[t := x.incs[t], a.thread := a.next]
    ensures y.incs.Keys <= y.calls.Keys && forall v :: v in y.calls ==> y.calls[v] == a.conn
  {
    AccountsStep(x, a);
    y := LeaveTwo(Do(x, a), t, a.thread);
    assert a.thread !in x.incs && t != a.thread;
  }

  /**
   If one call's locked section overtakes another call's pending increment on the same connection, then
   even if no other call does so from there on, some gauge can be driven below zero.
   */
  lemma OverlapGoesNegative(x: State, a: Action) returns (y: State, s: ConnState)
    requires Backed(x) && Enabled(x, a) && !Respects(x, a)
    ensures Reaches(Do(x, a), y) && y.Gauge(s) < 0
  {
    var t :| t in x.incs && t in x.calls && x.calls[t] == a.conn;
    s := x.incs[t];
    var x1 := OverlapIsolated(x, a, t);
    y := CloseOthers(x1, a.conn, s);
    ReachesTransitive(Do(x, a), x1, y);
    AccountsStep(x, a);
    ReachesKeepsAccounts(Do(x, a), y);
    assert KeysAt(y.states, s) == if a.next == s && !a.next.Terminal() then {a.conn} else {};
    GaugeWithTwoPending(y, a.conn, t, a.thread, s, a.next);
  }

  lemma CountEmpty<K>(s: ConnState)
    ensures Count<K>(map[], s) == 0
  {
    assert KeysAt<K>(map[], s) == {};
  }

  lemma CountTwo(t: Thread, u: Thread, s: ConnState, next: ConnState)
    requires t != u
    ensures Count<Thread>(map[t := s], s) == 1
    ensures Count<Thread>(map[t := s, u := next], s) == if next == s then 2 else 1
  {
    hide Count;
    CountEmpty<Thread>(s);
    CountUpdate<Thread>(map[], t, s, s);
    CountUpdate<Thread>(map[t := s], u, next, s);
  }

  lemma GaugeWithTwoPending(y: State, c: Conn, t: Thread, u: Thread, s: ConnState, next: ConnState)
    requires Accounts(y) && y.decs == map[] && t != u
    requires y.incs == if next.Terminal() then map[t := s] else map[t := s, u := next]
    requires KeysAt(y.states, s) == if next == s && !next.Terminal() then {c} else {}
    ensures y.Gauge(s) == -1
  {
    CountEmpty<Thread>(s);
    CountTwo(t, u, s, next);
    assert Count(y.states, s) == if next == s && !next.Terminal() then 1 else 0;
    hide Count;
    assert y.Gauge(s) + Count(y.incs, s) - Count(y.decs, s) == Count(y.states, s);
  }

  /**
   From any disciplined state, a locked section keeps all later disciplined states non-negative exactly
   when it overtakes no pending increment on its connection.
   */
  lemma DisciplineIsExact(run: seq<Action>, a: Action)
    requires Possible(INIT, run) && Disciplined(INIT, run) && Enabled(After(INIT, run), a)
    ensures Respects(After(INIT, run), a) <==>
            forall y, s :: Reaches(Do(After(INIT, run), a), y) ==> y.Gauge(s) >= 0
  {
    var x := After(INIT, run);
    InitAccounts();
    DisciplinedRunsStayBacked(INIT, run);
    if Respects(x, a) {
      BackedStep(x, a);
      forall y, s | Reaches(Do(x, a), y) ensures y.Gauge(s) >= 0 {
        var rest :| Possible(Do(x, a), rest) && Disciplined(Do(x, a), rest) && After(Do(x, a), rest) == y;
        DisciplinedRunsStayBacked(Do(x, a), rest);
        BackedIsNonNegative(y, s);
      }
    } else {
      var y, s := OverlapGoesNegative(x, a);
    }
  }

  /** Concretely, a second call on a new connection that decrements before the first call increments shows -1. */
  lemma TwoCallsGoNegative(t: Thread, u: Thread, c: Conn)
    requires t != u
    ensures var run := [Lock(t, c, StateNew), Lock(u, c, StateActive), EmitDec(u)];
            Possible(INIT, run) && After(INIT, run).Gauge(StateNew) == -1
  {
    var x1 := Do(INIT, Lock(t, c, StateNew));
    var x2 := Do(x1, Lock(u, c, StateActive));
    var start: seq<Action> := [];
    Extend(INIT, start, INIT, Lock(t, c, StateNew), [Lock(t, c, StateNew)]);
    Extend(INIT, [Lock(t, c, StateNew)], x1, Lock(u, c, StateActive), [Lock(t, c, StateNew), Lock(u, c, StateActive)]);
    Extend(INIT, [Lock(t, c, StateNew), Lock(u, c, StateActive)], x2, EmitDec(u),
           [Lock(t, c, StateNew), Lock(u, c, StateActive), EmitDec(u)]);
  }

  // ----- The tracker itself

  /** The connections-active gauge of the telemetry package. */
  class ConnectionsActive {
    var gauge: map<ConnState, int>

    constructor ()
      ensures gauge == map[]
    {
      gauge := map[];
    }

    method AddConnection(state: ConnState, delta: int)
      modifies this
      ensures gauge == Quiet(map[], old(gauge)).Adding(state, delta)
    {
      gauge := gauge[state := (if state in gauge then gauge[state] else 0) + delta];
    }
  }

  /** The actions of one call, given whether the connection was tracked. */
  function CallActions(t: Thread, c: Conn, next: ConnState, tracked: bool): seq<Action> {
    [Lock(t, c, next)] + (if tracked then [EmitDec(t)] else []) + (if next.Terminal() then [] else [EmitInc(t)]) + [Return(t)]
  }

  /** The state with no call in flight. */
  function Quiet(states: map<Conn, ConnState>, gauge: map<ConnState, int>): State {
    State(states, gauge, map[], map[], map[])
  }

  /** A call run alone: what it leaves recorded, and what it leaves in the gauge. */
  lemma CallAlone(states: map<Conn, ConnState>, gauge: map<ConnState, int>, t: Thread, c: Conn, next: ConnState)
    ensures var x, run := Quiet(states, gauge), CallActions(t, c, next, c in states);
            var recorded := if next.Terminal() then states - {c} else states[c := next];
            var lowered := if c in states then x.Adding(states[c], -1) else gauge;
            var raised := if next.Terminal() then lowered else Quiet(states, lowered).Adding(next, 1);
            Possible(x, run) && After(x, run) == Quiet(recorded, raised)
  {
    var x := Quiet(states, gauge);
    var start: seq<Action> := [];
    var locked := [Lock(t, c, next)];
    var lowered := if c in states then locked + [EmitDec(t)] else locked;
    var raised := if next.Terminal() then lowered else lowered + [EmitInc(t)];
    assert raised + [Return(t)] == CallActions(t, c, next, c in states);
    var y := Do(x, Lock(t, c, next));
    Extend(x, start, x, Lock(t, c, next), locked);
    if c in states {
      Extend(x, locked, y, EmitDec(t), lowered);
      y := Do(y, EmitDec(t));
    }
    assert y.decs == map[];
    if !next.Terminal() {
      Extend(x, lowered, y, EmitInc(t), raised);
      y := Do(y, EmitInc(t));
    }
    assert y.incs == map[];
    Extend(x, raised, y, Return(t), raised + [Return(t)]);
    assert Do(y, Return(t)).calls == map[];
  }

  class ConnStateTracker {
    var states: map<Conn, ConnState>
    const active: ConnectionsActive

    constructor (active: ConnectionsActive)
      ensures states == map[] && this.active == active
    {
      states := map[];
      this.active := active;
    }

    /** Run alone, a call is one run of the protocol. */
    method Observe(conn: Conn, next: ConnState, ghost t: Thread)
      modifies this, active
      ensures var x, run := Quiet(old(states), old(active.gauge)), CallActions(t, conn, next, conn in old(states));
              Possible(x, run) && After(x, run) == Quiet(states, active.gauge)
      ensures states == if next == StateClosed || next == StateHijacked then old(states) - {conn} else old(states)[conn := next]
    {
      CallAlone(states, active.gauge, t, conn, next);
      hide Possible, After, CallActions, Do;
      ghost var x := Quiet(states, active.gauge);
      ghost var lowered := if conn in states then x.Adding(states[conn], -1) else active.gauge;
      var hadPrevious := conn in states;
      var previous := if hadPrevious then states[conn] else StateClosed;
      if next == StateClosed || next == StateHijacked {
        states := states - {conn};
      } else {
        states := states[conn := next];
      }
      if hadPrevious {
        active.AddConnection(previous, -1);
      }
      assert active.gauge == lowered;
      if next != StateClosed && next != StateHijacked {
        active.AddConnection(next, 1);
      }
      assert active.gauge == if next.Terminal() then lowered else Quiet(old(states), lowered).Adding(next, 1);
    }
  }
}
