/** A stream after Envoy has said that it is complete. */
module Teardown {
  import opened EventBridge
  import opened FilterModel
  import opened FilterRuns

  /** The events that completions bring, in order. */
  function Brings(labels: seq<Label>): seq<IoEvent> {
    if labels == [] then []
    else
      var before, l := Brings(labels[..|labels| - 1]), labels[|labels| - 1];
      if l.Finish? then before + [l.ev] else before
  }

  /** Once the stream is complete, and until a wake-up runs, what was waiting and
      whatever completes is let go, in order; nothing is sent or asked of the
      engine, and no completion owes a wake-up. */
  lemma {:induction false} CompleteLetsGo(s: Session, disk: Disk, labels: seq<Label>, n: nat)
    requires Run(s, disk, Start(s), labels).Some? && n < |labels| && labels[n] == StreamComplete
    requires forall i :: n < i < |labels| ==> !labels[i].Scheduled?
    ensures Run(s, disk, Start(s), labels[..n]).Some?
    ensures var f, g := EndOf(s, disk, labels[..n]), EndOf(s, disk, labels);
            && g.mailbox.Closed? && g.past.completed
            && g.past.dropped == f.past.dropped + Pending(f.mailbox) + Brings(labels[n + 1..])
            && g.sent == f.sent && g.past.submitted == f.past.submitted
            && g.uncommitted <= f.uncommitted
  {
    hide Start, OnScheduled, Completes;
    var front, l := labels[..|labels| - 1], labels[|labels| - 1];
    assert Run(s, disk, Start(s), front).Some?;
    if n == |front| {
      assert labels[n + 1..] == [] && labels[..n] == front;
    } else {
      assert labels[n + 1..][..|labels| - n - 2] == front[n + 1..];
      assert front[..n] == labels[..n];
      CompleteLetsGo(s, disk, front, n);
      StaysClosed(s, disk, EndOf(s, disk, front), l);
    }
  }

  lemma StaysClosed(s: Session, disk: Disk, f: FState, l: Label)
    requires f.mailbox.Closed? && f.past.completed && !l.Scheduled? && Enabled(disk, f, l)
    ensures var g := Apply(s, disk, f, l);
            && g.mailbox.Closed? && g.past.completed
            && g.past.dropped == f.past.dropped + (if l.Finish? then [l.ev] else [])
            && g.sent == f.sent && g.past.submitted == f.past.submitted
            && g.uncommitted <= f.uncommitted
  {
    hide Completes;
  }
}
