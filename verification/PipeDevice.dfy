/**
 pipewrite, piperead and pipeclose of part1/pipe.c on the ring in memory, turn by turn. Seen through `View`, each turn
 of a process and each close is a step of module PipeProtocol.
 */
module PipeDevice {
  import opened Blocks
  import opened PipeRing
  import opened PipeProtocol

  /** How a turn ends, and whether it woke the other side. */
  datatype Verdict = Returns(value: int, woke: bool) | Sleeps(woke: bool)

  class Device {
    const data: array<Byte>
    var nread: Word
    var nwrite: Word
    var readopen: bool
    var writeopen: bool
    var procs: seq<Proc>            // where each process is in pipe.c
    var killed: seq<bool>
    ghost var sent: seq<Byte>       // all bytes stored
    ghost var received: seq<Byte>   // all bytes handed out

    ghost predicate Valid()
      reads this
    {
      data.Length == PIPESIZE
    }

    ghost function Ring(): Pipe
      reads this, data
    {
      Pipe(data[..], nread, nwrite, readopen, writeopen)
    }

    /** The pipe, the processes and the history. */
    ghost function View(): State
      reads this, data
    {
      State(Ring(), procs, killed, sent, received)
    }

    constructor (nproc: nat)
      ensures Valid() && fresh(data) && Start(View()) && |procs| == nproc
    {
      data := new Byte[PIPESIZE](_ => 0);
      nread, nwrite, readopen, writeopen := 0, 0, true, true;
      procs, killed, sent, received := seq(nproc, _ => Idle), seq(nproc, _ => false), [], [];
    }

    /** wakeup(&p->nread) or wakeup(&p->nwrite). */
    method Wakeup(readers: bool)
      modifies this`procs
      ensures procs == Wake(old(procs), readers)
    {
      for j := 0 to |procs|
        invariant |procs| == |old(procs)|
        invariant forall k | 0 <= k < j :: procs[k] == Wake(old(procs), readers)[k]
        invariant forall k | j <= k < |procs| :: procs[k] == old(procs)[k]
      {
        if readers && procs[j].ReadAsleep? {
          procs := procs[j := Reading(procs[j].n)];
        } else if !readers && procs[j].WriteAsleep? {
          procs := procs[j := Writing(procs[j].addr, procs[j].i)];
        }
      }
    }

    /** pipewrite from byte `i` on, until it sleeps or returns. */
    method WriteTurn(addr: seq<Byte>, i: nat, killed: bool) returns (j: nat, v: Verdict)
      requires Valid() && i <= |addr|
      modifies this`nwrite, data
      ensures Valid() && (Ring(), j) == Fill(old(Ring()), addr, i)
      ensures v == if j == |addr| then Returns(|addr|, true)
                   else if !readopen || killed then Returns(-1, false) else Sleeps(true)
    {
      j := i;
      while j < |addr|
        invariant i <= j <= |addr| && Fill(Ring(), addr, j) == Fill(old(Ring()), addr, i)
      {
        if nwrite == (nread + PIPESIZE) % WORD_LIMIT {
          if !readopen || killed {
            return j, Returns(-1, false);
          }
          return j, Sleeps(true);
        }
        ghost var before := Ring();
        data[nwrite % PIPESIZE] := addr[j];
        nwrite := Next(nwrite);
        assert Ring() == Store(before, addr[j]);
        j := j + 1;
      }
      return j, Returns(|addr|, true);
    }

    /** piperead from its first test on, until it sleeps or returns. */
    method ReadTurn(n: nat, killed: bool) returns (got: seq<Byte>, v: Verdict)
      requires Valid()
      modifies this`nread
      ensures Valid()
      ensures if Empty(old(Ring())) && writeopen then
                got == [] && Ring() == old(Ring()) && v == if killed then Returns(-1, false) else Sleeps(false)
              else
                (Ring(), got) == Drain(old(Ring()), n) && v == Returns(|got|, true)
    {
      hide Drain, Draining;
      got := [];
      if nread == nwrite && writeopen {
        return [], if killed then Returns(-1, false) else Sleeps(false);
      }
      DrainingStarts(Ring(), n);
      var i := 0;
      while i < n
        invariant i == |got| <= n
        invariant Draining(old(Ring()), n, Ring(), n - i, got)
        decreases n - i
      {
        DrainingSteps(old(Ring()), n, Ring(), n - i, got);
        if nread == nwrite {
          break;
        }
        ghost var before := Ring();
        got := got + [data[nread % PIPESIZE]];
        nread := Next(nread);
        assert Ring() == before.(nread := Next(before.nread));
        i := i + 1;
      }
      DrainingSteps(old(Ring()), n, Ring(), n - i, got);
      return got, Returns(i, true);
    }

    /** A turn of a process in pipewrite. */
    method Pipewrite(p: nat) returns (v: Verdict)
      requires Shaped(View()) && Enabled(View(), Turn(p)) && procs[p].Writing?
      modifies this`nwrite, this`procs, this`sent, data
      ensures View() == Do(old(View()), Turn(p))
      ensures v.Sleeps? <==> procs[p].WriteAsleep?
      ensures var addr, i, stored := old(procs)[p].addr, old(procs)[p].i, |sent| - |old(sent)|;
              && 0 <= stored <= |addr| - i && sent == old(sent) + addr[i..i + stored]
              && v == if i + stored == |addr| then Returns(|addr|, true)
                      else if !readopen || killed[p] then Returns(-1, false) else Sleeps(true)
    {
      hide Fill;
      var q := procs[p];
      var j;
      j, v := WriteTurn(q.addr, q.i, killed[p]);
      sent := sent + q.addr[q.i..j];
      if v.Sleeps? {
        Wakeup(true);
        procs := procs[p := WriteAsleep(q.addr, j)];
      } else {
        procs := procs[p := Idle];
        if v.woke {
          Wakeup(true);
        }
      }
    }

    /** A turn of a process in piperead. */
    method Piperead(p: nat) returns (got: seq<Byte>, v: Verdict)
      requires Shaped(View()) && Enabled(View(), Turn(p)) && procs[p].Reading?
      modifies this`nread, this`procs, this`received
      ensures View() == Do(old(View()), Turn(p)) && received == old(received) + got
      ensures v.Sleeps? <==> procs[p].ReadAsleep?
      ensures v == if !Empty(old(Ring())) || !writeopen then Returns(|got|, true)
                   else if killed[p] then Returns(-1, false) else Sleeps(false)
    {
      hide Drain;
      var q := procs[p];
      got, v := ReadTurn(q.n, killed[p]);
      received := received + got;
      if v.Sleeps? {
        procs := procs[p := ReadAsleep(q.n)];
      } else {
        procs := procs[p := Idle];
        if v.woke {
          Wakeup(false);
        }
      }
    }

    /**
     pipeclose of an end that nobody is using: the protocol's step, after which nobody sleeps on the other side. The
     page of the pipe is freed exactly when the other end was closed before, and then no process is left in the pipe.
     */
    method Close(writable: bool) returns (freed: bool)
      requires Inv(View()) && Enabled(View(), if writable then CloseWrite else CloseRead)
      modifies this`readopen, this`writeopen, this`procs
      ensures View() == Do(old(View()), if writable then CloseWrite else CloseRead) && Inv(View())
      ensures forall q | q in procs :: if writable then !q.ReadAsleep? else !q.WriteAsleep?
      ensures freed <==> !(if writable then old(readopen) else old(writeopen))
      ensures freed ==> forall q | q in procs :: q.Idle?
    {
      hide Holds;
      StepKeepsInv(View(), if writable then CloseWrite else CloseRead);
      if writable {
        writeopen := false;
        Wakeup(true);
      } else {
        readopen := false;
        Wakeup(false);
      }
      freed := !readopen && !writeopen;
    }
  }
}
