/** The byte counter that concurrent chunk workers share (pkg/progress/writer.go). */
module ProgressWriter {

  /** What one writer's mutex protects. */
  datatype Counter = Counter(total: nat, written: nat, completed: bool)

  /** One call of Write under the mutex: `n` more bytes, and the completion flag
      goes up the first time the total is reached. */
  function Wrote(c: Counter, n: nat): (r: Counter) {
    c.(written := c.written + n, completed := c.completed || c.written + n >= c.total)
  }

  /** Splitting the same bytes over several calls never shows in the counter. */
  lemma WroteInPieces(c: Counter, a: nat, b: nat)
    ensures Wrote(Wrote(c, a), b) == Wrote(c, a + b)
  {
  }

  class Writer {
    const total: nat
    var written: nat
    var completed: bool

    ghost function View(): Counter
      reads this
    {
      Counter(total, written, completed)
    }

    constructor (total: nat)
      ensures View() == Counter(total, 0, false)
    {
      this.total := total;
      written := 0;
      completed := false;
    }

    method Write(n: nat)
      modifies this
      ensures View() == Wrote(old(View()), n)
    {
      written := written + n;
      if !completed && written >= total {
        completed := true;
      }
    }

    method MarkCompleted()
      modifies this
      ensures View() == old(View()).(completed := true)
    {
      if !completed {
        completed := true;
      }
    }
  }
}
