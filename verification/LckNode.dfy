/** The lock word as the program keeps it, and its critical sections: each does to the word, and
    tells its caller, what the corresponding step of the protocol says. */
module LckNode {
  import opened Lck

  class Node {
    var rcounter: nat
    var wbusy: bool
    var ubusy: bool

    ghost function View(): Word
      reads this
    {
      Word(rcounter, wbusy, ubusy)
    }

    constructor ()
      ensures View() == Init({}).word
    {
      rcounter, wbusy, ubusy := 0, false, false;
    }

    /** The result is where the calling thread is when it gives the mutex back. */
    method Rlock(ghost s: State, t: nat) returns (p: Pc)
      requires s.word == View() && Enabled(s, Lck.Rlock(t))
      modifies this
      ensures State(View(), s.pc[t := p]) == Apply(s, Lck.Rlock(t))
    {
      if wbusy || ubusy { return Sleep(AtRead, false); }
      rcounter := (rcounter + 1) % WRAP;
      return Reading;
    }

    /** The result says whether the waiters are woken. */
    method Runlock(ghost s: State, t: nat) returns (broadcast: bool)
      requires s.word == View() && Enabled(s, Lck.Runlock(t))
      modifies this
      ensures var pc := s.pc[t := Idle];
        State(View(), if broadcast then Broadcast(pc) else pc) == Apply(s, Lck.Runlock(t))
    {
      rcounter := (rcounter + WRAP - 1) % WRAP;
      broadcast := (rcounter == 0 && wbusy) || (rcounter == 1 && ubusy);
    }

    method Wlock(ghost s: State, t: nat) returns (p: Pc)
      requires s.word == View() && Enabled(s, Lck.Wlock(t))
      modifies this
      ensures State(View(), s.pc[t := p]) == Apply(s, Lck.Wlock(t))
    {
      if wbusy { return Sleep(AtWrite, false); }
      wbusy := true;
      if rcounter != 0 { return Sleep(AtDrain, false); }
      return Writing;
    }

    method Drain(ghost s: State, t: nat) returns (p: Pc)
      requires s.word == View() && Enabled(s, Lck.Drain(t))
      ensures State(View(), s.pc[t := p]) == Apply(s, Lck.Drain(t))
    {
      if rcounter != 0 { return Sleep(AtDrain, false); }
      return Writing;
    }

    method Wunlock(ghost s: State, t: nat)
      requires s.word == View() && Enabled(s, Lck.Wunlock(t))
      modifies this
      ensures State(View(), Broadcast(s.pc[t := Idle])) == Apply(s, Lck.Wunlock(t))
    {
      wbusy := false;
    }

    method Uplock(ghost s: State, t: nat) returns (p: Pc)
      requires s.word == View() && Enabled(s, Lck.Uplock(t))
      modifies this
      ensures State(View(), s.pc[t := p]) == Apply(s, Lck.Uplock(t))
    {
      ubusy := true;
      if rcounter > 1 { return Sleep(AtUp, false); }
      return Upgraded;
    }

    method Raise(ghost s: State, t: nat) returns (p: Pc)
      requires s.word == View() && Enabled(s, Lck.Raise(t))
      ensures State(View(), s.pc[t := p]) == Apply(s, Lck.Raise(t))
    {
      if rcounter > 1 { return Sleep(AtUp, false); }
      return Upgraded;
    }

    method Downlock(ghost s: State, t: nat)
      requires s.word == View() && Enabled(s, Lck.Downlock(t))
      modifies this
      ensures State(View(), Broadcast(s.pc[t := Reading])) == Apply(s, Lck.Downlock(t))
    {
      ubusy := false;
    }
  }
}
