/**
 Any number of processes in pipewrite and piperead of part1/pipe.c. One step is what a process does from taking the
 pipe's lock until it sleeps or returns; `sent` and `received` record all bytes stored and all bytes handed out.
 */
module PipeProtocol {
  import opened Blocks
  import opened PipeRing

  datatype Proc =
    | Idle
    | Writing(addr: seq<Byte>, i: nat)          // about to test the ring
    | WriteAsleep(addr: seq<Byte>, i: nat)      // sleep(&p->nwrite)
    | Reading(n: nat)
    | ReadAsleep(n: nat)                        // sleep(&p->nread)
  {
    predicate Writer() {
      Writing? || WriteAsleep?
    }

    predicate Reader() {
      Reading? || ReadAsleep?
    }
  }

  datatype State = State(pipe: Pipe, procs: seq<Proc>, killed: seq<bool>, sent: seq<Byte>, received: seq<Byte>)

  datatype Action =
    | Write(p: nat, addr: seq<Byte>)            // call pipewrite
    | Read(p: nat, n: nat)                      // call piperead
    | Turn(p: nat)                              // run until sleep or return
    | CloseRead                                 // pipeclose of an end that nobody is using
    | CloseWrite
    | Kill(p: nat)                              // kill also ends the victim's sleep

  function Woken(q: Proc, readers: bool): Proc {
    if readers then if q.ReadAsleep? then Reading(q.n) else q
    else if q.WriteAsleep? then Writing(q.addr, q.i) else q
  }

  /** wakeup(&p->nread) or wakeup(&p->nwrite). */
  function Wake(procs: seq<Proc>, readers: bool): (r: seq<Proc>)
    ensures |r| == |procs| && forall j | 0 <= j < |procs| :: r[j] == Woken(procs[j], readers)
  {
    seq(|procs|, j requires 0 <= j < |procs| => Woken(procs[j], readers))
  }

  ghost predicate Enabled(s: State, a: Action) {
    match a
    case Write(p, _) => p < |s.procs| && s.procs[p].Idle? && s.pipe.writeopen
    case Read(p, _) => p < |s.procs| && s.procs[p].Idle? && s.pipe.readopen
    case Turn(p) => p < |s.procs| && (s.procs[p].Writing? || s.procs[p].Reading?)
    case CloseRead => s.pipe.readopen && forall q | q in s.procs :: !q.Reader()
    case CloseWrite => s.pipe.writeopen && forall q | q in s.procs :: !q.Writer()
    case Kill(p) => p < |s.procs|
  }

  /** One turn in pipewrite. */
  ghost function WriteTurn(s: State, p: nat): State
    requires p < |s.procs| == |s.killed| && s.procs[p].Writing? && |s.pipe.data| == PIPESIZE
             && s.procs[p].i <= |s.procs[p].addr|
  {
    var q := s.procs[p];
    var (pipe, i) := Fill(s.pipe, q.addr, q.i);
    var s' := s.(pipe := pipe, sent := s.sent + q.addr[q.i..i]);
    if i == |q.addr| then s'.(procs := Wake(s.procs[p := Idle], true))                  // return n
    else if !pipe.readopen || s.killed[p] then s'.(procs := s.procs[p := Idle])          // return -1
    else s'.(procs := Wake(s.procs, true)[p := WriteAsleep(q.addr, i)])
  }

  /** One turn in piperead. */
  ghost function ReadTurn(s: State, p: nat): State
    requires p < |s.procs| == |s.killed| && s.procs[p].Reading? && |s.pipe.data| == PIPESIZE
  {
    if Empty(s.pipe) && s.pipe.writeopen then
      if s.killed[p] then s.(procs := s.procs[p := Idle])                                // return -1
      else s.(procs := s.procs[p := ReadAsleep(s.procs[p].n)])
    else
      var (pipe, got) := Drain(s.pipe, s.procs[p].n);
      s.(pipe := pipe, received := s.received + got, procs := Wake(s.procs[p := Idle], false))
  }

  ghost predicate Shaped(s: State) {
    && |s.killed| == |s.procs| && |s.pipe.data| == PIPESIZE
    && forall j | 0 <= j < |s.procs| && s.procs[j].Writer() :: s.procs[j].i <= |s.procs[j].addr|
  }

  ghost function Do(s: State, a: Action): State
    requires Enabled(s, a) && Shaped(s)
  {
    match a
    case Write(p, addr) => s.(procs := s.procs[p := Writing(addr, 0)])
    case Read(p, n) => s.(procs := s.procs[p := Reading(n)])
    case Turn(p) => if s.procs[p].Writing? then WriteTurn(s, p) else ReadTurn(s, p)
    case CloseRead => s.(pipe := s.pipe.(readopen := false), procs := Wake(s.procs, false))
    case CloseWrite => s.(pipe := s.pipe.(writeopen := false), procs := Wake(s.procs, true))
    case Kill(p) => s.(killed := s.killed[p := true], procs := s.procs[p := Woken(Woken(s.procs[p], true), false)])
  }

  /** The counters, the ring and the history agree, and only open ends are in use. */
  ghost predicate Inv(s: State) {
    && Shaped(s) && Holds(s.pipe, s.sent, s.received)
    && (forall j | 0 <= j < |s.procs| :: s.procs[j].Reader() ==> s.pipe.readopen)
    && (forall j | 0 <= j < |s.procs| :: s.procs[j].Writer() ==> s.pipe.writeopen)
  }

  /** Nobody sleeps whose reason to sleep is gone. */
  ghost predicate Guarded(s: State) {
    && (forall j | 0 <= j < |s.procs| && s.procs[j].ReadAsleep? :: s.sent == s.received && s.pipe.writeopen)
    && (forall j | 0 <= j < |s.procs| && s.procs[j].WriteAsleep? ::
          |s.sent| - |s.received| == PIPESIZE && s.pipe.readopen)
  }

  ghost predicate Start(s: State) {
    && s.pipe.nread == 0 && s.pipe.nwrite == 0 && s.pipe.readopen && s.pipe.writeopen && |s.pipe.data| == PIPESIZE
    && s.sent == [] && s.received == [] && |s.killed| == |s.procs|
    && forall j | 0 <= j < |s.procs| :: s.procs[j] == Idle && !s.killed[j]
  }

  ghost predicate Step(s: State, a: Action, s': State) {
    Enabled(s, a) && Shaped(s) && s' == Do(s, a)
  }

  ghost predicate IsRun(states: seq<State>, acts: seq<Action>) {
    && |states| == |acts| + 1 && Start(states[0])
    && forall i: nat | i < |acts| :: StepAt(states, acts, i)
  }

  ghost predicate StepAt(states: seq<State>, acts: seq<Action>, i: nat)
    requires i < |acts| < |states|
  {
    Step(states[i], acts[i], states[i + 1])
  }

  lemma StepKeepsInv(s: State, a: Action)
    requires Inv(s) && Enabled(s, a)
    ensures Inv(Do(s, a))
  {
    hide Fill, Drain, Holds;
    if a.Turn? && s.procs[a.p].Writing? {
      FillHolds(s.pipe, s.procs[a.p].addr, s.procs[a.p].i, s.sent, s.received);
    } else if a.Turn? {
      DrainHolds(s.pipe, s.procs[a.p].n, s.sent, s.received);
    } else {
      HoldsIgnoresEnds(s);
      forall q | q in s.procs
        ensures exists j :: 0 <= j < |s.procs| && s.procs[j] == q
      {
      }
    }
  }

  lemma HoldsIgnoresEnds(s: State)
    requires Holds(s.pipe, s.sent, s.received)
    ensures Holds(s.pipe.(readopen := false), s.sent, s.received)
    ensures Holds(s.pipe.(writeopen := false), s.sent, s.received)
  {
  }

  /**
   The one way to strand a reader: a killed writer with more to write than there is room for, and some room. It fills
   the ring and returns -1 without waking anyone.
   */
  ghost predicate Strands(s: State, a: Action)
    requires Inv(s) && Enabled(s, a)
  {
    && a.Turn? && s.procs[a.p].Writing? && s.killed[a.p]
    && 0 < PIPESIZE - (|s.sent| - |s.received|) < |s.procs[a.p].addr| - s.procs[a.p].i
    && exists j :: 0 <= j < |s.procs| && s.procs[j].ReadAsleep?
  }

  lemma StrandsExactly(s: State, a: Action)
    requires Inv(s) && Guarded(s) && Enabled(s, a)
    ensures Guarded(Do(s, a)) <==> !Strands(s, a)
  {
    if a.Turn? && s.procs[a.p].Writing? {
      WriteTurnStrands(s, a.p);
    } else if a.Turn? {
      hide Holds, Fill, Drain;
      DrainHolds(s.pipe, s.procs[a.p].n, s.sent, s.received);
      CountersDecide(s.pipe, s.sent, s.received);
    }
  }

  lemma WriteTurnStrands(s: State, p: nat)
    requires Inv(s) && Guarded(s) && Enabled(s, Turn(p)) && s.procs[p].Writing?
    ensures Guarded(WriteTurn(s, p)) <==> !Strands(s, Turn(p))
  {
    hide Holds, Fill;
    var q := s.procs[p];
    FillHolds(s.pipe, q.addr, q.i, s.sent, s.received);
    var (pipe, i) := Fill(s.pipe, q.addr, q.i);
    CountersDecide(s.pipe, s.sent, s.received);
    CountersDecide(pipe, s.sent + q.addr[q.i..i], s.received);
    var s' := WriteTurn(s, p);
    if Strands(s, Turn(p)) {
      var j :| 0 <= j < |s.procs| && s.procs[j].ReadAsleep?;
      assert s'.procs[j].ReadAsleep? && |s'.sent| > |s'.received|;
    } else if i < |q.addr| && s.killed[p] && s.pipe.readopen {
      assert i == q.i || forall j | 0 <= j < |s.procs| :: !s.procs[j].ReadAsleep?;
    }
  }

  // ---- Runs ----

  lemma {:induction false} RunKeepsInv(states: seq<State>, acts: seq<Action>, n: nat)
    requires IsRun(states, acts) && n <= |acts|
    ensures Inv(states[n])
  {
    if n == 0 {
      assert states[0].sent[..0] == states[0].received;
    } else {
      RunKeepsInv(states, acts, n - 1);
      assert StepAt(states, acts, n - 1);
      StepKeepsInv(states[n - 1], acts[n - 1]);
    }
  }

  /** Whatever happened, what was read is a prefix of what was written, at most PIPESIZE bytes behind. */
  lemma ReadersSeeAPrefix(states: seq<State>, acts: seq<Action>, n: nat)
    requires IsRun(states, acts) && n <= |acts|
    ensures states[n].received <= states[n].sent && |states[n].sent| - |states[n].received| <= PIPESIZE
  {
    RunKeepsInv(states, acts, n);
  }

  /** piperead returns 0 to a reader that asked for more only when all bytes are read and no writer is left. */
  lemma EofMeansDrained(states: seq<State>, acts: seq<Action>, n: nat, p: nat)
    requires IsRun(states, acts) && n < |acts| && acts[n] == Turn(p)
    requires p < |states[n].procs| && p < |states[n].killed| && p < |states[n + 1].procs|
    requires states[n].procs[p].Reading? && states[n].procs[p].n > 0
    requires !(states[n].killed[p] && states[n].pipe.writeopen)
    requires states[n + 1].procs[p] == Idle && states[n + 1].received == states[n].received
    ensures states[n].received == states[n].sent && !states[n].pipe.writeopen
    ensures forall j | 0 <= j < |states[n].procs| :: !states[n].procs[j].Writer()
  {
    hide Drain, Holds;
    RunKeepsInv(states, acts, n);
    assert StepAt(states, acts, n);
    var s := states[n];
    CountersDecide(s.pipe, s.sent, s.received);
    DrainHolds(s.pipe, s.procs[p].n, s.sent, s.received);
  }

  /** Once the write end is closed, nothing more is ever written. */
  lemma {:induction false} EofIsFinal(states: seq<State>, acts: seq<Action>, n: nat, m: nat)
    requires IsRun(states, acts) && n <= m <= |acts| && !states[n].pipe.writeopen
    ensures !states[m].pipe.writeopen && states[m].sent == states[n].sent
    decreases m
  {
    if n < m {
      EofIsFinal(states, acts, n, m - 1);
      RunKeepsInv(states, acts, m - 1);
      assert StepAt(states, acts, m - 1);
      hide Drain, Holds, Fill;
      var s := states[m - 1];
      if acts[m - 1].Turn? && s.procs[acts[m - 1].p].Reading? {
        DrainHolds(s.pipe, s.procs[acts[m - 1].p].n, s.sent, s.received);
      }
    }
  }

  /** While nobody is killed, a sleeping reader means empty and a sleeping writer means full; both ends cannot sleep. */
  lemma {:induction false} SleepersAreGuarded(states: seq<State>, acts: seq<Action>, n: nat)
    requires IsRun(states, acts) && n <= |acts| && forall i | 0 <= i < |acts| :: !acts[i].Kill?
    ensures Inv(states[n]) && Guarded(states[n]) && forall j | 0 <= j < |states[n].killed| :: !states[n].killed[j]
    ensures forall j, k | 0 <= j < |states[n].procs| && 0 <= k < |states[n].procs| ::
              !(states[n].procs[j].ReadAsleep? && states[n].procs[k].WriteAsleep?)
  {
    RunKeepsInv(states, acts, n);
    if n > 0 {
      SleepersAreGuarded(states, acts, n - 1);
      assert StepAt(states, acts, n - 1);
      StrandsExactly(states[n - 1], acts[n - 1]);
      KilledOnlyByKill(states[n - 1], acts[n - 1]);
    }
  }

  lemma KilledOnlyByKill(s: State, a: Action)
    requires Enabled(s, a) && Shaped(s) && !a.Kill?
    ensures Do(s, a).killed == s.killed
  {
  }

  /** The bytes that process `p` has stored since its last call of pipewrite, from what its turns added to `sent`. */
  ghost function StoredBy(states: seq<State>, acts: seq<Action>, n: nat, p: nat): seq<Byte>
    requires n <= |acts| < |states|
  {
    if n == 0 then []
    else
      var before, after, rest := states[n - 1].sent, states[n].sent, StoredBy(states, acts, n - 1, p);
      if acts[n - 1].Write? && acts[n - 1].p == p then []
      else if acts[n - 1] == Turn(p) && |before| <= |after| then rest + after[|before|..]
      else rest
  }

  /** A writer stores the bytes of its request in order and each once, however often it sleeps. */
  lemma {:induction false} WritersBytes(states: seq<State>, acts: seq<Action>, n: nat, p: nat)
    requires IsRun(states, acts) && n <= |acts| && p < |states[n].procs|
    ensures states[n].procs[p].Writer() ==>
              states[n].procs[p].i <= |states[n].procs[p].addr|
              && StoredBy(states, acts, n, p) == states[n].procs[p].addr[..states[n].procs[p].i]
  {
    RunKeepsInv(states, acts, n);
    if n > 0 {
      assert StepAt(states, acts, n - 1);
      RunKeepsInv(states, acts, n - 1);
      var s, a := states[n - 1], acts[n - 1];
      WriterWaits(s, a, p);
      hide Do, Inv;
      WritersBytes(states, acts, n - 1, p);
      if a == Turn(p) && s.procs[p].Writing? {
        TurnStores(s, p);
      }
    }
  }

  /** Only the process itself moves its request on. */
  lemma WriterWaits(s: State, a: Action, p: nat)
    requires Inv(s) && Enabled(s, a) && p < |s.procs|
    ensures |Do(s, a).procs| == |s.procs|
    ensures var q, q' := s.procs[p], Do(s, a).procs[p];
            q'.Writer() && a != Turn(p) ==>
              (a.Write? && a.p == p && q' == Writing(a.addr, 0)) || (q.Writer() && q'.addr == q.addr && q'.i == q.i)
    ensures a == Turn(p) && !s.procs[p].Writing? ==> !Do(s, a).procs[p].Writer()
    ensures a.Write? && a.p == p ==> Do(s, a).procs[p] == Writing(a.addr, 0)
  {
    hide Fill, Drain, Holds;
  }

  lemma TurnStores(s: State, p: nat)
    requires Inv(s) && Enabled(s, Turn(p)) && s.procs[p].Writing?
    ensures var addr, i, s' := s.procs[p].addr, s.procs[p].i, Do(s, Turn(p));
            && s.sent <= s'.sent
            && var j := i + |s'.sent| - |s.sent|;
               && i <= j <= |addr| && s'.sent == s.sent + addr[i..j]
               && |s'.procs| == |s.procs|
               && s'.procs[p] == (if j < |addr| && s.pipe.readopen && !s.killed[p] then WriteAsleep(addr, j) else Idle)
               && addr[..i] + s'.sent[|s.sent|..] == addr[..j] && (j < |addr| ==> Full(s'.pipe))
  {
    hide Fill, Holds;
    FillHolds(s.pipe, s.procs[p].addr, s.procs[p].i, s.sent, s.received);
  }

  /**
   A writer that returns has stored its whole request, unless it was killed or no reader is left; then the ring is full.
   */
  lemma WriterReturns(states: seq<State>, acts: seq<Action>, n: nat, p: nat)
    requires IsRun(states, acts) && n < |acts| && acts[n] == Turn(p) && p < |states[n].procs|
    requires states[n].procs[p].Writing? && p < |states[n + 1].procs| && states[n + 1].procs[p] == Idle
    ensures var addr, stored := states[n].procs[p].addr, StoredBy(states, acts, n + 1, p);
            || stored == addr
            || (stored < addr && Full(states[n + 1].pipe)
                && (!states[n].pipe.readopen || (p < |states[n].killed| && states[n].killed[p])))
  {
    hide Holds;
    RunKeepsInv(states, acts, n);
    assert StepAt(states, acts, n);
    WritersBytes(states, acts, n, p);
    TurnStores(states[n], p);
  }

  /** How many bytes process `p` asked for in its last call of piperead. */
  function AskedBy(acts: seq<Action>, n: nat, p: nat): nat
    requires n <= |acts|
  {
    if n == 0 then 0
    else if acts[n - 1].Read? && acts[n - 1].p == p then acts[n - 1].n
    else AskedBy(acts, n - 1, p)
  }

  lemma {:induction false} ReadersAsk(states: seq<State>, acts: seq<Action>, n: nat, p: nat)
    requires IsRun(states, acts) && n <= |acts| && p < |states[n].procs|
    ensures states[n].procs[p].Reader() ==> states[n].procs[p].n == AskedBy(acts, n, p)
  {
    if n > 0 {
      assert StepAt(states, acts, n - 1);
      RunKeepsInv(states, acts, n - 1);
      ReaderWaits(states[n - 1], acts[n - 1], p);
      hide Do, Inv;
      ReadersAsk(states, acts, n - 1, p);
    }
  }

  lemma ReaderWaits(s: State, a: Action, p: nat)
    requires Inv(s) && Enabled(s, a) && p < |s.procs|
    ensures |Do(s, a).procs| == |s.procs|
    ensures var q, q' := s.procs[p], Do(s, a).procs[p];
            q'.Reader() ==> if a.Read? && a.p == p then q'.n == a.n else q.Reader() && q'.n == q.n
  {
    hide Fill, Drain, Holds;
  }

  /**
   A turn of a reader: with nothing to read and the write end open it sleeps, or returns if it was killed; otherwise it
   returns with the oldest bytes not yet read, as many as it once asked for or as there are.
   */
  lemma ReaderReturns(states: seq<State>, acts: seq<Action>, n: nat, p: nat)
    requires IsRun(states, acts) && n < |acts| && acts[n] == Turn(p) && p < |states[n].procs|
    requires states[n].procs[p].Reading?
    ensures p < |states[n + 1].procs| && p < |states[n].killed|
    ensures var s, s', asked := states[n], states[n + 1], AskedBy(acts, n, p);
            if s.sent == s.received && s.pipe.writeopen then
              s'.received == s.received && s'.procs[p] == if s.killed[p] then Idle else ReadAsleep(asked)
            else
              && s'.procs[p] == Idle && |s.received| <= |s.sent|
              && s'.received == if |s.sent| - |s.received| <= asked then s.sent else s.sent[..|s.received| + asked]
  {
    hide Holds, Drain;
    RunKeepsInv(states, acts, n);
    assert StepAt(states, acts, n);
    ReadersAsk(states, acts, n, p);
    var s := states[n];
    CountersDecide(s.pipe, s.sent, s.received);
    DrainHolds(s.pipe, s.procs[p].n, s.sent, s.received);
    var r := Drain(s.pipe, s.procs[p].n);
    assert s.received + r.1 == s.sent[..|s.received + r.1|] by {
      HeldIsRead(r.0, s.sent, s.received + r.1);
    }
  }

  lemma HeldIsRead(pipe: Pipe, sent: seq<Byte>, received: seq<Byte>)
    requires Holds(pipe, sent, received)
    ensures received <= sent
  {
  }

  /** A process counts as killed from its kill on, and it never sleeps again. */
  lemma {:induction false} KilledNeverSleeps(states: seq<State>, acts: seq<Action>, n: nat, p: nat)
    requires IsRun(states, acts) && n <= |acts| && p < |states[n].procs|
    ensures p < |states[n].killed| && (states[n].killed[p] <==> Kill(p) in acts[..n])
    ensures Kill(p) in acts[..n] ==> !states[n].procs[p].ReadAsleep? && !states[n].procs[p].WriteAsleep?
  {
    RunKeepsInv(states, acts, n);
    if n > 0 {
      assert StepAt(states, acts, n - 1);
      RunKeepsInv(states, acts, n - 1);
      KillWakes(states[n - 1], acts[n - 1], p);
      hide Do, Inv;
      KilledNeverSleeps(states, acts, n - 1, p);
      assert acts[..n] == acts[..n - 1] + [acts[n - 1]];
    }
  }

  lemma KillWakes(s: State, a: Action, p: nat)
    requires Inv(s) && Enabled(s, a) && p < |s.procs|
    ensures |Do(s, a).procs| == |Do(s, a).killed| == |s.killed| == |s.procs|
    ensures Do(s, a).killed[p] <==> s.killed[p] || a == Kill(p)
    ensures var q, q' := s.procs[p], Do(s, a).procs[p];
            && (a == Kill(p) || (s.killed[p] && !q.ReadAsleep? && !q.WriteAsleep?) ==>
                  !q'.ReadAsleep? && !q'.WriteAsleep?)
  {
    hide Drain, Holds, Fill;
  }

  /** A killed writer really can strand a reader: 513 bytes, a sleeping reader, a kill, one turn. */
  lemma KilledWriterStrands(data: seq<Byte>, addr: seq<Byte>)
    requires |data| == PIPESIZE && |addr| == PIPESIZE + 1
    ensures var s := State(Pipe(data, 0, 0, true, true), [Idle, Idle], [false, false], [], []);
            var s1 := Do(s, Read(0, 1));
            var s2 := Do(s1, Turn(0));
            var s3 := Do(s2, Write(1, addr));
            var s4 := Do(s3, Kill(1));
            var s5 := Do(s4, Turn(1));
            && Start(s) && Enabled(s, Read(0, 1)) && Enabled(s1, Turn(0)) && Enabled(s2, Write(1, addr))
            && Enabled(s3, Kill(1)) && Enabled(s4, Turn(1))
            && s5.procs == [ReadAsleep(1), Idle] && |s5.sent| == PIPESIZE && s5.received == []
  {
    hide Fill, Drain;
    var s := State(Pipe(data, 0, 0, true, true), [Idle, Idle], [false, false], [], []);
    var s3 := State(s.pipe, [ReadAsleep(1), Writing(addr, 0)], [false, true], [], []);
    FillHolds(s.pipe, addr, 0, [], []);
  }
}
