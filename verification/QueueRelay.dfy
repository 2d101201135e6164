/**
 The unbounded relay between the producers of notifications and their handler: items come out in the
 order they went in, none lost, whatever the select statement picks.
 */
module QueueRelay {

  /** What the select picks in one turn: an item arrives, with the reader waiting or not; the reader takes
      the next queued item; or the input is closed or the server quits. */
  datatype Choice<T> = Receive(item: T, readerReady: bool) | Dequeue | Stop

  /** The handler's variables, with what it has received and delivered so far. */
  datatype Relay<T> = Relay(
    q: seq<T>, dequeueOn: bool, skipOn: bool, next: seq<T>, received: seq<T>, delivered: seq<T>, stopped: bool,
    panicked: bool)

  function Start<T>(): Relay<T> {
    Relay([], false, true, [], [], [], false, false)
  }

  /** Whether the select can pick a choice: the dequeue case only while its channel is not nil. */
  predicate Enabled<T>(r: Relay<T>, c: Choice<T>) {
    !r.stopped && !r.panicked && (c.Dequeue? ==> r.dequeueOn)
  }

  function Turn<T>(r: Relay<T>, c: Choice<T>): Relay<T>
    requires Enabled(r, c)
  {
    match c
    case Receive(n, readerReady) =>
      if r.skipOn && readerReady then r.(received := r.received + [n], delivered := r.delivered + [n])
      else
        r.(q := r.q + [n], dequeueOn := true, skipOn := false, next := [(r.q + [n])[0]], received := r.received + [n])
    case Dequeue =>
      if r.q == [] then r.(panicked := true) // shifting an empty queue slices past its end
      else
        var rest := r.q[1..];
        if rest == [] then
          r.(q := rest, dequeueOn := false, skipOn := true, delivered := r.delivered + r.next)
        else r.(q := rest, next := [rest[0]], delivered := r.delivered + r.next)
    case Stop => r.(stopped := true)
  }

  /** Delivered items followed by the queue are the received ones; the direct path is open exactly when
      the queue is empty, and otherwise the next item is the oldest; an empty queue is never shifted. */
  ghost predicate Inv<T(!new)>(r: Relay<T>) {
    && r.delivered + r.q == r.received && !r.panicked
    && (r.skipOn <==> r.q == []) && (r.dequeueOn <==> r.q != [])
    && (r.q != [] ==> r.next == [r.q[0]])
  }

  lemma TurnKeepsInv<T(!new)>(r: Relay<T>, c: Choice<T>)
    requires Inv(r) && Enabled(r, c)
    ensures Inv(Turn(r, c))
  {
    match c
    case Receive(n, readerReady) =>
      if r.skipOn && readerReady {
        assert r.delivered + [n] + r.q == r.received + [n];
      } else {
        assert r.delivered + (r.q + [n]) == r.received + [n];
      }
    case Dequeue =>
      assert r.delivered + [r.q[0]] + r.q[1..] == r.delivered + r.q;
    case Stop =>
  }

  ghost predicate IsRun<T(!new)>(run: seq<Relay<T>>, choices: seq<Choice<T>>) {
    && |run| == |choices| + 1 && run[0] == Start()
    && forall i :: 0 <= i < |choices| ==>
        Enabled(run[i], choices[i]) && run[i + 1] == Turn(run[i], choices[i])
  }

  /** The items that arrived during a schedule. */
  function Arrivals<T>(choices: seq<Choice<T>>): seq<T> {
    if choices == [] then []
    else
      var front, last := choices[..|choices| - 1], choices[|choices| - 1];
      Arrivals(front) + if last.Receive? then [last.item] else []
  }

  /** How many items wait: one more whenever an item arrives that cannot be passed on directly, and one fewer
      whenever the reader takes one. */
  function Waiting<T>(choices: seq<Choice<T>>): nat {
    if choices == [] then 0
    else
      var before := Waiting(choices[..|choices| - 1]);
      match choices[|choices| - 1]
      case Receive(_, readerReady) => if before == 0 && readerReady then 0 else before + 1
      case Dequeue => if before == 0 then 0 else before - 1
      case Stop => before
  }

  /** In every schedule the relay is a first-in first-out queue that loses nothing: what was delivered,
      then what is queued, is what arrived; in particular, at shutdown the delivered items are the first
      of those that arrived. */
  lemma {:induction false} RelayIsFifo<T(!new)>(run: seq<Relay<T>>, choices: seq<Choice<T>>, i: nat)
    requires IsRun(run, choices) && i < |run|
    ensures Inv(run[i]) && run[i].received == Arrivals(choices[..i])
    ensures run[i].delivered <= Arrivals(choices[..i])
    ensures run[i].skipOn ==> run[i].delivered == Arrivals(choices[..i])
    ensures |run[i].q| == Waiting(choices[..i])
  {
    if i == 0 {
    } else {
      RelayIsFifo(run, choices, i - 1);
      TurnKeepsInv(run[i - 1], choices[i - 1]);
      assert choices[..i][..i - 1] == choices[..i - 1];
    }
  }

  /** queueHandler: the loop itself, driven by the choices its select makes.  A dequeue that its nil
      channel rules out is passed over, as the select would. */
  method QueueHandler<T(==)>(choices: seq<Choice<T>>) returns (delivered: seq<T>, q: seq<T>, taken: nat)
    ensures taken <= |choices| && delivered + q == Arrivals(choices[..taken]) && |q| == Waiting(choices[..taken])
    ensures taken == |choices| || choices[taken].Stop?
    ensures forall i :: 0 <= i < taken ==> !choices[i].Stop?
  {
    q, delivered := [], [];
    var dequeue, skipQueue := false, true;
    var next: seq<T> := [];
    var i := 0;
    while i < |choices|
      invariant i <= |choices| && delivered + q == Arrivals(choices[..i]) && |q| == Waiting(choices[..i])
      invariant (skipQueue <==> q == []) && (dequeue <==> q != []) && (q != [] ==> next == [q[0]])
      invariant forall j :: 0 <= j < i ==> !choices[j].Stop?
    {
      assert choices[..i + 1][..i] == choices[..i];
      match choices[i] {
        case Stop =>
          break;
        case Receive(n, readerReady) =>
          ghost var was := delivered + q;
          if skipQueue && readerReady {
            delivered := delivered + [n];
          } else {
            q := q + [n];
            dequeue, skipQueue := true, false;
            next := [q[0]];
          }
          assert delivered + q == was + [n];
        case Dequeue =>
          if dequeue {
            assert delivered + next + q[1..] == delivered + q;
            delivered := delivered + next;
            q := q[1..];
            if q == [] {
              dequeue, skipQueue := false, true;
            } else {
              next := [q[0]];
            }
          }
      }
      i := i + 1;
    }
    taken := i;
  }
}
