/** The two lambdas of the program and the variables they capture, updated in place. */
module OddEvenCode {
  import opened Prelude
  import opened Transitions
  import opened OddEvenProtocol

  class Printer {
    const n: nat
    var i: nat
    var ready: bool
    var mtx: Option<Who>
    var odd: PC
    var even: PC
    var out: seq<(Who, nat)>

    ghost function View(): State
      reads this
    {
      State(n, i, ready, mtx, odd, even, out)
    }

    constructor (n: nat)
      ensures Init(View()) && Inv(View()) && this.n == n
    {
      this.n := n;
      i, ready, mtx, out := 0, true, None, [];
      odd, even := Test, Test;
    }

    method SetPc(w: Who, pc: PC)
      modifies this`odd, this`even
      ensures odd == (if w.Odd? then pc else old(odd)) && even == if w.Even? then pc else old(even)
    {
      if w.Odd? {
        odd := pc;
      } else {
        even := pc;
      }
    }

    method WakeSpuriously(w: Who)
      requires Inv(View()) && Pc(View(), w).Asleep?
      modifies this`odd, this`even
      ensures Inv(View()) && Step(old(View()), Spurious(w)) == Next(View())
    {
      StepKeepsInv(View(), Spurious(w));
      SetPc(w, Woken);
    }

    /** The next instruction of one thread. */
    method Continue(w: Who) returns (moved: bool)
      requires Inv(View())
      modifies this
      ensures Inv(View())
      ensures moved ==> Step(old(View()), Go(w)) == Next(View())
      ensures !moved ==> Step(old(View()), Go(w)) == Blocked && View() == old(View())
    {
      StepKeepsInv(View(), Go(w));
      moved := true;
      match if w.Odd? then odd else even {
        case Test =>
          SetPc(w, if i < n then Entry else Done);
        case Entry =>
          moved := TryLock(w);
        case Check =>
          if ready == w.Even? {
            SetPc(w, Print);
          } else {
            SetPc(w, Asleep);
            mtx := None;
          }
        case Asleep =>
          moved := false;
        case Woken =>
          moved := TryLock(w);
        case Print =>
          out := out + [(w, i)];
          SetPc(w, Count);
        case Count =>
          i := i + 1;
          SetPc(w, Flip);
        case Flip =>
          ready := w.Odd?;
          SetPc(w, Notify);
        case Notify =>
          NotifyOne(w);
          SetPc(w, Unlock);
        case Unlock =>
          mtx := None;
          SetPc(w, Test);
        case Done =>
          moved := false;
      }
    }

    method TryLock(w: Who) returns (locked: bool)
      modifies this`mtx, this`odd, this`even
      ensures locked == old(mtx).None?
      ensures locked ==> mtx == Some(w) && odd == (if w.Odd? then Check else old(odd)) &&
                         even == if w.Even? then Check else old(even)
      ensures !locked ==> mtx == old(mtx) && odd == old(odd) && even == old(even)
    {
      locked := mtx.None?;
      if locked {
        mtx := Some(w);
        SetPc(w, Check);
      }
    }

    /** cv.notify_one(): the only thread that can be waiting is the other one. */
    method NotifyOne(w: Who)
      modifies this`odd, this`even
      ensures odd == (if w.Even? && old(odd).Asleep? then Woken else old(odd))
      ensures even == if w.Odd? && old(even).Asleep? then Woken else old(even)
    {
      if w.Odd? && even.Asleep? {
        even := Woken;
      } else if w.Even? && odd.Asleep? {
        odd := Woken;
      }
    }
  }
}
