/**
 Any number of CPUs running scheduler() of part2/proc.c and processes that fork, exit, wait, sleep, yield, kill and set
 their priority. Steps are the critical sections of ptable.lock; fork's unlocked assignments are steps of their own.
 The scheduler keeps the lock from one switch to the next, so its loop is split at the switches.

 `History` records what happened; no step tests it.
 */
module ProcProtocol {
  import opened ProcTable

  datatype Mode =
    | Out                      // top of scheduler's loop, lock not held
    | Scanning(i: nat)         // second loop at entry `i`, lock held
    | Dispatched(p: nat)       // switched to `p`, which still holds the lock
    | Running(p: nat)          // `p` runs without the lock
    | Back(p: nat)             // `p` called sched(); lock held
  {
    predicate Holds() {
      Scanning? || Dispatched? || Back?
    }

    predicate Has() {
      Dispatched? || Running?
    }
  }

  /** `pri` is search_pri; `seen` and `pass` describe the current pass. */
  datatype Cpu = Cpu(mode: Mode, pri: int, seen: bool, pass: nat)

  datatype Dispatch = Dispatch(cpu: nat, pass: nat, pri: int, seen: bool)

  /**
   Pids that exited and that wait returned; per entry the time served since it was allocated, apart for turns that
   ended at LOW and at HIGH priority, and the time of its last dispatch; per CPU the ticks it charged; all dispatches.
   */
  datatype History = History(exited: set<int>, reaped: seq<int>, servedLow: seq<nat>, servedHigh: seq<nat>,
                             start: seq<nat>, charged: seq<nat>, runs: seq<Dispatch>)

  datatype Halt = Up | InitExits | BadPriority

  datatype State = State(t: Table, cpus: seq<Cpu>, lock: int, nextpid: int, init: nat, now: nat, halt: Halt, h: History)

  datatype Action =
    | Tick
    | StartPass(c: nat)
    | Scan(c: nat)
    | Charge(c: nat)
    | Resume(c: nat)                 // after sched(): tidy up and release the lock
    | Yield(c: nat)
    | Sleep(c: nat, k: int)
    | Wakeup(k: int)
    | Wait(c: nat)                   // one turn of wait's loop
    | Alloc(c: nat)                  // allocproc's critical section, called by fork
    | ForkFails(c: nat)              // no memory
    | ForkLinks(c: nat)              // np->parent = curproc
    | ForkRuns(c: nat)               // np->state = RUNNABLE
    | Exit(c: nat)
    | Kill(pid: int)
    | SetPri(c: nat, v: int)

  const FREE := -1                   // ptable.lock

  ghost predicate Shaped(s: State) {
    && FREE <= s.lock < |s.cpus| && s.init < |s.t|
    && |s.h.servedLow| == |s.h.servedHigh| == |s.h.start| == |s.t| && |s.h.charged| == |s.cpus|
    && forall c | 0 <= c < |s.cpus| :: CpuShaped(s, c)
  }

  ghost predicate CpuShaped(s: State, c: nat)
    requires c < |s.cpus|
  {
    match s.cpus[c].mode
    case Out => true
    case Scanning(i) => i <= |s.t|
    case Dispatched(p) => p < |s.t|
    case Running(p) => p < |s.t|
    case Back(p) => p < |s.t|
  }

  /** CPU `c` runs a process outside of its critical sections. */
  ghost predicate At(s: State, c: nat) {
    c < |s.cpus| && s.cpus[c].mode.Running? && s.cpus[c].mode.p < |s.t|
  }

  ghost predicate On(s: State, c: nat) {
    c < |s.cpus| && CpuShaped(s, c)
  }

  ghost predicate Enabled(s: State, a: Action) {
    && s.halt.Up? && Shaped(s)
    && match a
       case Tick => true
       case StartPass(c) => On(s, c) && s.lock == FREE && s.cpus[c].mode.Out?
       case Scan(c) => On(s, c) && s.cpus[c].mode.Scanning?
       case Charge(c) => On(s, c) && s.cpus[c].mode.Back?
       case Resume(c) => On(s, c) && s.cpus[c].mode.Dispatched? && s.t[s.cpus[c].mode.p].place != Waiting
       case Yield(c) => At(s, c) && s.lock == FREE
       case Sleep(c, _) => At(s, c) && s.lock == FREE && s.t[s.cpus[c].mode.p].place == Anywhere
       case Wakeup(_) => s.lock == FREE
       case Wait(c) =>
         || (At(s, c) && s.lock == FREE && s.t[s.cpus[c].mode.p].place == Anywhere)
         || (On(s, c) && s.cpus[c].mode.Dispatched? && s.t[s.cpus[c].mode.p].place == Waiting)
       case Alloc(c) => At(s, c) && s.lock == FREE && s.t[s.cpus[c].mode.p].place == Anywhere
       case ForkFails(c) => At(s, c) && InFork(s, s.cpus[c].mode.p) && !s.t[s.cpus[c].mode.p].place.linked
       case ForkLinks(c) => At(s, c) && InFork(s, s.cpus[c].mode.p) && !s.t[s.cpus[c].mode.p].place.linked
       case ForkRuns(c) =>
         At(s, c) && s.lock == FREE && InFork(s, s.cpus[c].mode.p) && s.t[s.cpus[c].mode.p].place.linked
       case Exit(c) => At(s, c) && s.lock == FREE && s.t[s.cpus[c].mode.p].place == Anywhere
       case Kill(_) => s.lock == FREE
       case SetPri(c, _) => At(s, c) && s.lock == FREE && s.t[s.cpus[c].mode.p].place == Anywhere
  }

  ghost predicate InFork(s: State, p: nat)
    requires p < |s.t|
  {
    s.t[p].place.Forking? && s.t[p].place.child < |s.t|
  }

  function SetMode(s: State, c: nat, m: Mode): (r: State)
    requires c < |s.cpus|
  {
    s.(cpus := s.cpus[c := s.cpus[c].(mode := m)],
       lock := if m.Holds() then c else if s.lock == c then FREE else s.lock)
  }

  ghost function DoStartPass(s: State, c: nat): State
    requires c < |s.cpus|
  {
    var high := RunnableHigh(s.t);
    var cpu := Cpu(s.cpus[c].mode, if high then HIGH else LOW, high, s.cpus[c].pass + 1);
    SetMode(s.(cpus := s.cpus[c := cpu]), c, Scanning(0))
  }

  ghost function DoScan(s: State, c: nat): State
    requires Enabled(s, Scan(c))
  {
    var i, cpu := s.cpus[c].mode.i, s.cpus[c];
    if i == |s.t| then SetMode(s, c, Out)
    else if s.t[i].status == RUNNABLE && s.t[i].pri == cpu.pri then
      SetMode(s.(t := s.t[i := s.t[i].(status := RUNNING, schedTime := s.now % LIMIT)],
                 h := s.h.(start := s.h.start[i := s.now],
                           runs := s.h.runs + [Dispatch(c, cpu.pass, s.t[i].pri, cpu.seen)])),
              c, Dispatched(i))
    else SetMode(s, c, Scanning(i + 1))
  }

  /** Entry `p` ended a turn of length `turn` at priority `pri`. */
  ghost function Served(h: History, p: nat, pri: int, turn: nat): (h': History)
    requires p < |h.servedLow| == |h.servedHigh|
    ensures |h'.servedLow| == |h'.servedHigh| == |h.servedLow|
    ensures h'.exited == h.exited && h'.reaped == h.reaped && h'.start == h.start && h'.charged == h.charged
    ensures h'.runs == h.runs
  {
    if pri == HIGH then h.(servedHigh := h.servedHigh[p := h.servedHigh[p] + turn])
    else h.(servedLow := h.servedLow[p := h.servedLow[p] + turn])
  }

  ghost function DoCharge(s: State, c: nat): State
    requires Enabled(s, Charge(c))
  {
    var p, cpu := s.cpus[c].mode.p, s.cpus[c];
    var q := s.t[p];
    var d := Elapsed(s.now, q.schedTime);
    if q.pri != LOW && q.pri != HIGH then s.(halt := BadPriority)
    else
      var q' := if q.pri == LOW then q.(low := (q.low + d) % LIMIT) else q.(high := (q.high + d) % LIMIT);
      var pri := if q.status != ZOMBIE && q.pri > cpu.pri then q.pri else cpu.pri;
      SetMode(s.(t := s.t[p := q'], cpus := s.cpus[c := cpu.(pri := pri)],
                 h := Served(s.h, p, q.pri, if s.h.start[p] <= s.now then s.now - s.h.start[p] else 0).(
                      charged := s.h.charged[c := s.h.charged[c] + d])),
              c, Scanning(p + 1))
  }

  /** The running process of CPU `c` becomes `q` and control returns to the scheduler. */
  ghost function SwitchOut(s: State, c: nat, p: nat, q: Proc): State
    requires c < |s.cpus| && p < |s.t|
  {
    SetMode(s.(t := s.t[p := q]), c, Back(p))
  }

  ghost function DoWait(s: State, c: nat): State
    requires Enabled(s, Wait(c))
  {
    var p := s.cpus[c].mode.p;
    var me := s.t[p].(chan := NoChan, place := Anywhere);
    var z := FirstZombie(s.t, p, 0);
    if z < |s.t| then
      SetMode(s.(t := s.t[p := me][z := Emptied(s.t[z])], h := s.h.(reaped := s.h.reaped + [s.t[z].pid])),
              c, Running(p))
    else if !HasKids(s.t, p) || s.t[p].killed then
      SetMode(s.(t := s.t[p := me]), c, Running(p))
    else
      SwitchOut(s, c, p, s.t[p].(status := SLEEPING, chan := OfProc(p), place := Waiting))
  }

  ghost function DoAlloc(s: State, c: nat): State
    requires Enabled(s, Alloc(c))
  {
    var p, u := s.cpus[c].mode.p, FirstWith(s.t, UNUSED, 0);
    if u == |s.t| then s
    else
      var child := s.t[u].(status := EMBRYO, pid := s.nextpid, pri := LOW, low := 0, high := 0, place := Anywhere);
      s.(t := s.t[u := child][p := s.t[p].(place := Forking(u, false))], nextpid := s.nextpid + 1,
         h := s.h.(servedLow := s.h.servedLow[u := 0], servedHigh := s.h.servedHigh[u := 0]))
  }

  ghost function DoFork(s: State, c: nat, child: Proc, place: Place): State
    requires At(s, c) && InFork(s, s.cpus[c].mode.p)
  {
    var p := s.cpus[c].mode.p;
    s.(t := s.t[p := s.t[p].(place := place)][s.t[p].place.child := child])
  }

  ghost function Child(s: State, c: nat): Proc
    requires At(s, c) && InFork(s, s.cpus[c].mode.p)
  {
    s.t[s.t[s.cpus[c].mode.p].place.child]
  }

  ghost function DoExit(s: State, c: nat): State
    requires Enabled(s, Exit(c))
  {
    var p := s.cpus[c].mode.p;
    if p == s.init || s.t[p].parent < 0 then s.(halt := InitExits)     // panic("init exiting"); others have a parent
    else SetMode(s.(t := AfterExit(s.t, p, s.init), h := s.h.(exited := s.h.exited + {s.t[p].pid})), c, Back(p))
  }

  ghost function Do(s: State, a: Action): State
    requires Enabled(s, a)
  {
    match a
    case Tick => s.(now := s.now + 1)
    case StartPass(c) => DoStartPass(s, c)
    case Scan(c) => DoScan(s, c)
    case Charge(c) => DoCharge(s, c)
    case Resume(c) =>
      var p := s.cpus[c].mode.p;
      SetMode(s.(t := s.t[p := s.t[p].(chan := NoChan)]), c, Running(p))
    case Yield(c) => SwitchOut(s, c, s.cpus[c].mode.p, s.t[s.cpus[c].mode.p].(status := RUNNABLE))
    case Sleep(c, k) => SwitchOut(s, c, s.cpus[c].mode.p, s.t[s.cpus[c].mode.p].(status := SLEEPING, chan := Other(k)))
    case Wakeup(k) => s.(t := Wakeup1(s.t, Other(k)))
    case Wait(c) => DoWait(s, c)
    case Alloc(c) => DoAlloc(s, c)
    case ForkFails(c) => DoFork(s, c, Child(s, c).(status := UNUSED), Anywhere)
    case ForkLinks(c) =>
      DoFork(s, c, Child(s, c).(parent := s.cpus[c].mode.p, low := 0, high := 0),
        s.t[s.cpus[c].mode.p].place.(linked := true))
    case ForkRuns(c) => DoFork(s, c, Child(s, c).(status := RUNNABLE, pri := LOW), Anywhere)
    case Exit(c) => DoExit(s, c)
    case Kill(pid) => s.(t := AfterKill(s.t, pid, 0))
    case SetPri(c, v) =>
      if LOW <= v <= HIGH then s.(t := s.t[s.cpus[c].mode.p := s.t[s.cpus[c].mode.p].(pri := v)]) else s
  }

  /** After userinit: one process, all CPUs about to enter their loop. */
  ghost predicate Start(s: State) {
    && s.init < |s.t| && s.lock == FREE && s.nextpid == 2 && s.halt == Up
    && (forall p | 0 <= p < |s.t| ::
          s.t[p] == if p == s.init then Proc(RUNNABLE, 1, -1, NoChan, false, LOW, 0, 0, 0, Anywhere)
                    else Proc(UNUSED, 0, -1, NoChan, false, 0, 0, 0, 0, Anywhere))
    && (forall c | 0 <= c < |s.cpus| :: s.cpus[c] == Cpu(Out, LOW, false, 0))
    && s.h.exited == {} && s.h.reaped == [] && s.h.runs == []
    && |s.h.servedLow| == |s.h.servedHigh| == |s.h.start| == |s.t| && |s.h.charged| == |s.cpus|
    && (forall p | 0 <= p < |s.t| :: s.h.servedLow[p] == s.h.servedHigh[p] == s.h.start[p] == 0)
    && (forall c | 0 <= c < |s.cpus| :: s.h.charged[c] == 0)
  }

  ghost predicate StepAt(states: seq<State>, acts: seq<Action>, i: nat)
    requires i < |acts| < |states|
  {
    Enabled(states[i], acts[i]) && states[i + 1] == Do(states[i], acts[i])
  }

  ghost predicate IsRun(states: seq<State>, acts: seq<Action>) {
    |states| == |acts| + 1 && Start(states[0]) && forall i: nat | i < |acts| :: StepAt(states, acts, i)
  }
}
