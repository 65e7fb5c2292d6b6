/** The mailbox between I/O threads and the worker thread
    (crates/envoy-files-filter/src/eventbridge.rs).  Each call takes the lock
    once, so a call is one step and an interleaving is a sequence of calls. */
module EventBridge {

  /** What the four states of the mailbox stand for. */
  datatype Mailbox<T> = Closed | Open(pending: seq<T>)

  function Pending<T>(m: Mailbox<T>): seq<T> {
    if m.Open? then m.pending else []
  }

  datatype Inner<T> = Shut | Empty | Single(event: T) | Multiple(events: seq<T>)

  function Abstract<T>(inner: Inner<T>): Mailbox<T> {
    match inner
    case Shut => Closed
    case Empty => Open([])
    case Single(event) => Open([event])
    case Multiple(events) => Open(events)
  }

  class EventBridge<T> {
    var inner: Inner<T>

    ghost function State(): Mailbox<T>
      reads this
    {
      Abstract(inner)
    }

    constructor ()
      ensures State() == Open([])
    {
      inner := Empty;
    }

    /** Fails once the bridge is closed. */
    method Send(event: T) returns (ok: bool)
      modifies this
      ensures ok == old(State()).Open?
      ensures State() == if ok then Open(old(State()).pending + [event]) else Closed
    {
      match inner {
        case Shut => return false;
        case Empty => inner := Single(event);
        case Single(first) => inner := Multiple([first, event]);
        case Multiple(events) => inner := Multiple(events + [event]);
      }
      ok := true;
    }

    /** Takes everything out; the state it leaves is `Empty`, whatever it was. */
    method Process() returns (events: seq<T>)
      modifies this
      ensures events == Pending(old(State()))
      ensures State() == Open([])
    {
      var was := inner;
      inner := Empty;
      match was {
        case Shut => events := [];
        case Empty => events := [];
        case Single(event) => events := [event];
        case Multiple(several) => events := several;
      }
    }

    method Close()
      modifies this
      ensures State() == Closed
    {
      inner := Shut;
    }
  }

  // ---------------------------------------------------------- whole histories

  datatype Call<T> = SendCall(event: T) | ProcessCall | CloseCall

  /** A mailbox with its past: the sends it accepted, which of them (by
      position) no close has thrown away, and what it handed to the worker. */
  datatype Account<T> = Account(box: Mailbox<T>, accepted: seq<T>, kept: seq<nat>, delivered: seq<T>)

  function Step<T>(a: Account<T>, c: Call<T>): Account<T> {
    match c
    case SendCall(event) =>
      if a.box.Closed? then a
      else Account(Open(a.box.pending + [event]), a.accepted + [event], a.kept + [|a.accepted|], a.delivered)
    case ProcessCall => a.(box := Open([]), delivered := a.delivered + Pending(a.box))
    case CloseCall =>
      a.(box := Closed, kept := if |a.delivered| <= |a.kept| then a.kept[..|a.delivered|] else a.kept)
  }

  function Replay<T>(calls: seq<Call<T>>): Account<T> {
    if calls == [] then Account(Open([]), [], [], [])
    else Step(Replay(calls[..|calls| - 1]), calls[|calls| - 1])
  }

  function Select<T>(s: seq<T>, at: seq<nat>): seq<T>
    requires WithinBounds(at, |s|)
  {
    seq(|at|, i requires 0 <= i < |at| => s[at[i]])
  }

  predicate WithinBounds(at: seq<nat>, n: nat) {
    forall i :: 0 <= i < |at| ==> at[i] < n
  }

  predicate Ascending(at: seq<nat>) {
    forall i, j :: 0 <= i < j < |at| ==> at[i] < at[j]
  }

  ghost predicate Accounted<T>(a: Account<T>) {
    && Ascending(a.kept)
    && WithinBounds(a.kept, |a.accepted|)
    && a.delivered + Pending(a.box) == Select(a.accepted, a.kept)
  }

  /** Over every interleaving of sends, drains and closes: what was delivered,
      followed by what is still waiting, is the accepted sends in lock order,
      each once, without those a close discarded. */
  lemma {:induction false} NothingLostOrRepeated<T>(calls: seq<Call<T>>)
    ensures Accounted(Replay(calls))
  {
    if calls != [] {
      NothingLostOrRepeated(calls[..|calls| - 1]);
      StepAccounted(Replay(calls[..|calls| - 1]), calls[|calls| - 1]);
    }
  }

  lemma StepAccounted<T>(a: Account<T>, c: Call<T>)
    requires Accounted(a)
    ensures Accounted(Step(a, c))
  {
    var b := Step(a, c);
    match c {
      case SendCall(event) =>
        if a.box.Open? {
          assert Select(b.accepted, b.kept) == Select(a.accepted, a.kept) + [event];
          assert b.delivered + Pending(b.box) == a.delivered + Pending(a.box) + [event];
        }
      case ProcessCall =>
      case CloseCall =>
        var n := |a.delivered|;
        assert |Select(a.accepted, a.kept)| == |a.kept|;
        assert Select(b.accepted, b.kept) == Select(a.accepted, a.kept)[..n];
    }
  }

  /** After a close nothing is accepted, until somebody drains the mailbox. */
  lemma {:induction false} ClosedUntilDrained<T>(before: seq<Call<T>>, after: seq<Call<T>>)
    requires forall c :: c in after ==> !c.ProcessCall?
    ensures var a := Replay(before + [CloseCall] + after);
            a.box.Closed? && a.accepted == Replay(before).accepted && a.delivered == Replay(before).delivered
  {
    var calls := before + [CloseCall] + after;
    if after == [] {
      assert calls[..|calls| - 1] == before;
    } else {
      var front := after[..|after| - 1];
      assert calls[..|calls| - 1] == before + [CloseCall] + front;
      ClosedUntilDrained(before, front);
      assert after[|after| - 1] in after;
    }
  }

  /** A close that no drain has followed. */
  predicate CloseStands<T>(calls: seq<Call<T>>, i: nat) {
    i < |calls| && calls[i].CloseCall? && forall k :: i < k < |calls| ==> !calls[k].ProcessCall?
  }

  /** The mailbox is closed exactly when some close has had no drain after it. */
  lemma {:induction false} ClosedExactly<T>(calls: seq<Call<T>>)
    ensures Replay(calls).box.Closed? <==> exists i :: CloseStands(calls, i)
  {
    if calls != [] {
      var n := |calls| - 1;
      ClosedExactly(calls[..n]);
      forall i | 0 <= i < n ensures CloseStands(calls, i) <==> CloseStands(calls[..n], i) && !calls[n].ProcessCall? {
        assert forall k :: i < k < n ==> calls[k] == calls[..n][k];
      }
      assert CloseStands(calls, n) <==> calls[n].CloseCall?;
    }
  }

  /** ... and a drain after the close opens the mailbox again: the fence lasts
      only as long as no wake-up runs. */
  lemma DrainReopens<T>(before: seq<Call<T>>, event: T)
    ensures Replay(before + [CloseCall, ProcessCall, SendCall(event)]).box == Open([event])
  {
    var calls := before + [CloseCall, ProcessCall, SendCall(event)];
    assert calls[..|calls| - 1] == before + [CloseCall, ProcessCall];
    assert calls[..|calls| - 1][..|before| + 1] == before + [CloseCall];
  }
}
