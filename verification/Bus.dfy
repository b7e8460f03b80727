/**
 The debug bus: a bounded window of history, and a bounded queue per subscriber that drops what does
 not fit. What a subscriber receives is a subsequence of what was published, unless two calls of
 `Publish` overlap: the lock is free while they send.
 */
module DebugStream {
  import opened Wrappers

  /* ---------- Windows and subsequences ---------- */

  /** The last n elements, or all of them. */
  function LastOf<T>(s: seq<T>, n: nat): (window: seq<T>)
    ensures |window| == if |s| < n then |s| else n
  {
    if |s| <= n then s else s[|s| - n..]
  }

  lemma LastOfIsSuffix<T>(s: seq<T>, n: nat)
    ensures |LastOf(s, n)| == (if |s| < n then |s| else n) && IsSuffix(LastOf(s, n), s)
  {
  }

  /** A window that is cut after each append is the window of everything appended. */
  lemma WindowSlides<T>(s: seq<T>, x: T, n: nat)
    ensures LastOf(LastOf(s, n) + [x], n) == LastOf(s + [x], n)
  {
  }

  /** The elements of a, in their order, with others between them. */
  ghost predicate Subsequence<T(!new)>(a: seq<T>, b: seq<T>) {
    if a == [] then true
    else if b == [] then false
    else Subsequence(a, b[..|b| - 1]) || (a[|a| - 1] == b[|b| - 1] && Subsequence(a[..|a| - 1], b[..|b| - 1]))
  }

  lemma {:induction false} SubsequenceIsShorter<T(!new)>(a: seq<T>, b: seq<T>)
    requires Subsequence(a, b)
    ensures |a| <= |b| && (|a| == |b| ==> a == b)
  {
    if a != [] {
      var init := b[..|b| - 1];
      if Subsequence(a, init) {
        SubsequenceIsShorter(a, init);
      } else {
        SubsequenceIsShorter(a[..|a| - 1], init);
        assert a == a[..|a| - 1] + [a[|a| - 1]] && b == init + [b[|b| - 1]];
      }
    }
  }

  lemma SubsequenceGrows<T(!new)>(a: seq<T>, b: seq<T>, x: T)
    requires Subsequence(a, b)
    ensures Subsequence(a, b + [x]) && Subsequence(a + [x], b + [x])
  {
  }

  /** A reader of both, element by element: every pair in order in a is in that order in b. */
  lemma {:induction false} SubsequenceKeepsOrder<T(!new)>(a: seq<T>, b: seq<T>, i: nat, j: nat) returns (k: nat, l: nat)
    requires Subsequence(a, b) && i < j < |a|
    ensures k < l < |b| && b[k] == a[i] && b[l] == a[j]
  {
    var init := b[..|b| - 1];
    if Subsequence(a, init) {
      k, l := SubsequenceKeepsOrder(a, init, i, j);
    } else if j < |a| - 1 {
      k, l := SubsequenceKeepsOrder(a[..|a| - 1], init, i, j);
    } else {
      k := SubsequenceHas(a[..|a| - 1], init, i);
      l := |b| - 1;
    }
  }

  lemma {:induction false} SubsequenceHas<T(!new)>(a: seq<T>, b: seq<T>, i: nat) returns (k: nat)
    requires Subsequence(a, b) && i < |a|
    ensures k < |b| && b[k] == a[i]
  {
    var init := b[..|b| - 1];
    if Subsequence(a, init) {
      k := SubsequenceHas(a, init, i);
    } else if i < |a| - 1 {
      k := SubsequenceHas(a[..|a| - 1], init, i);
    } else {
      k := |b| - 1;
    }
  }

  lemma {:induction false} SubsequenceOfMore<T(!new)>(a: seq<T>, b: seq<T>, c: seq<T>)
    requires Subsequence(a, b) && IsSuffix(b, c)
    ensures Subsequence(a, c)
  {
    if a != [] {
      var init := b[..|b| - 1];
      assert IsSuffix(init, c[..|c| - 1]);
      if Subsequence(a, init) {
        SubsequenceOfMore(a, init, c[..|c| - 1]);
      } else {
        SubsequenceOfMore(a[..|a| - 1], init, c[..|c| - 1]);
      }
    }
  }

  predicate IsSuffix<T(==)>(a: seq<T>, b: seq<T>) {
    |a| <= |b| && a == b[|b| - |a|..]
  }

  lemma SuffixGrows<T>(a: seq<T>, b: seq<T>, x: T)
    requires IsSuffix(a, b)
    ensures IsSuffix(a + [x], b + [x])
  {
  }

  /** Two more at the end, exchanged. */
  lemma SwappedSuffix<T>(a: seq<T>, b: seq<T>, x: T, y: T)
    requires IsSuffix(a, b)
    ensures IsSuffix(a + [y, x], b + [x, y]) <==> x == y
  {
    assert (a + [y, x])[|a| + 1] == x && (b + [x, y])[|b| + 1] == y;
    if x == y {
      assert a + [y, x] == a + [x] + [y] && b + [x, y] == b + [x] + [y];
    }
  }

  /* ---------- A subscriber's channel ---------- */

  /** What a send without waiting leaves in a queue. */
  function Queued(queue: seq<string>, capacity: nat, line: string): seq<string> {
    if |queue| < capacity then queue + [line] else queue
  }

  lemma SendKeepsOrder(received: seq<string>, queue: seq<string>, offered: seq<string>, line: string)
    requires Subsequence(received + queue, offered)
    ensures Subsequence(received + queue, offered + [line])
    ensures Subsequence(received + (queue + [line]), offered + [line])
  {
    SubsequenceGrows(received + queue, offered, line);
    assert received + (queue + [line]) == received + queue + [line];
  }

  lemma ReceiveKeepsOrder(received: seq<string>, queue: seq<string>)
    requires queue != []
    ensures received + [queue[0]] + queue[1..] == received + queue
  {
  }

  class Channel {
    const capacity: nat
    var queue: seq<string>
    var closed: bool
    ghost var offered: seq<string>  // every line sent to it, in order
    ghost var received: seq<string>  // what its reader has taken out
    ghost var dropped: nat

    constructor (capacity: nat)
      ensures Valid() && !closed && this.capacity == capacity
      ensures queue == offered == received == [] && dropped == 0
    {
      this.capacity, queue, closed, offered, received, dropped := capacity, [], false, [], [], 0;
    }

    /** Received and queued lines are a subsequence of those sent, short of exactly the dropped ones. */
    ghost predicate Valid()
      reads this
    {
      && |queue| <= capacity
      && Subsequence(received + queue, offered)
      && |received| + |queue| + dropped == |offered|
    }

    /** As long as nothing was dropped nothing is missing. */
    lemma Lossless()
      requires Valid() && dropped == 0
      ensures received + queue == offered
    {
      SubsequenceIsShorter(received + queue, offered);
    }

    method TrySend(line: string)
      requires Valid() && !closed
      modifies this
      ensures Valid() && !closed
      ensures queue == Queued(old(queue), capacity, line) && received == old(received)
      ensures offered == old(offered) + [line]
      ensures dropped == old(dropped) + if |old(queue)| < capacity then 0 else 1
    {
      SendKeepsOrder(received, queue, offered, line);
      offered := offered + [line];
      if |queue| < capacity {
        queue := queue + [line];
      } else {
        dropped := dropped + 1;
      }
    }

    method Receive() returns (line: Option<string>)
      requires Valid()
      modifies this
      ensures Valid() && closed == old(closed) && offered == old(offered) && dropped == old(dropped)
      ensures line == if old(queue) == [] then None else Some(old(queue)[0])
      ensures queue == if old(queue) == [] then [] else old(queue)[1..]
      ensures received + queue == old(received + queue)
    {
      if queue == [] {
        return None;
      }
      line := Some(queue[0]);
      ReceiveKeepsOrder(received, queue);
      received, queue := received + [queue[0]], queue[1..];
    }

    method Close()
      requires !closed
      modifies this`closed
      ensures closed
    {
      closed := true;
    }
  }

  /* ---------- The bus ---------- */

  const BUS_SIZE: nat := 1000

  class Bus {
    const queueSize: nat
    const historySize: nat
    var closed: bool
    var history: seq<string>
    var subscribers: set<Channel>
    ghost var published: seq<string>  // since the history was last cleared
    ghost var log: seq<string>  // since the bus was made

    constructor ()
      ensures Valid() && InStep() && !closed && history == [] && subscribers == {} && log == []
      ensures queueSize == historySize == 1000
    {
      queueSize, historySize := BUS_SIZE, BUS_SIZE;
      closed, history, subscribers, published, log := false, [], {}, [], [];
      new;
      assert IsSuffix(published, log);
    }

    ghost predicate Valid()
      reads this, subscribers
    {
      && queueSize == historySize == BUS_SIZE
      && history == LastOf(published, historySize) && IsSuffix(published, log)
      && (closed ==> subscribers == {})
      && (forall c | c in subscribers :: c.Valid() && !c.closed && c.capacity == queueSize)
    }

    /** No send is under way: every subscriber has been sent the latest lines published, as far back as it goes. */
    ghost predicate InStep()
      reads this, subscribers
    {
      forall c | c in subscribers :: IsSuffix(c.offered, log)
    }

    /** Then what a subscriber has received or has queued is in the order of publication. */
    lemma InOrder(subscriber: Channel)
      requires Valid() && InStep() && subscriber in subscribers
      ensures Subsequence(subscriber.received + subscriber.queue, log)
    {
      SubsequenceOfMore(subscriber.received + subscriber.queue, subscriber.offered, log);
    }

    /** A new subscriber is given the whole history: the window never exceeds its queue. */
    method Subscribe() returns (subscriber: Channel)
      requires Valid()
      modifies this`subscribers
      ensures Valid() && fresh(subscriber) && subscriber.Valid() && subscriber.dropped == 0
      ensures old(InStep()) ==> InStep()
      ensures closed ==> subscriber.closed && subscriber.queue == [] && subscribers == old(subscribers)
      ensures !closed ==>
                subscriber.queue == subscriber.offered == history && subscribers == old(subscribers) + {subscriber}
    {
      subscriber := new Channel(queueSize);
      if closed {
        subscriber.Close();
        return;
      }
      var i := 0;
      while i < |history|
        invariant 0 <= i <= |history|
        invariant subscriber.Valid() && !subscriber.closed && subscriber.dropped == 0
        invariant subscriber.capacity == queueSize
        invariant subscriber.queue == subscriber.offered == history[..i]
        modifies subscriber
      {
        subscriber.TrySend(history[i]);
        i := i + 1;
      }
      subscribers := subscribers + {subscriber};
    }

    method Unsubscribe(subscriber: Channel)
      requires Valid()
      modifies this`subscribers, subscriber`closed
      ensures Valid() && subscribers == old(subscribers) - {subscriber}
      ensures subscriber.closed == (old(subscriber.closed) || subscriber in old(subscribers))
      ensures old(InStep()) ==> InStep()
    {
      if subscriber in subscribers {
        subscribers := subscribers - {subscriber};
        subscriber.Close();
      }
    }

    /** The part of `Publish` under the lock: history grows, and whoever subscribes now is to be sent the line. */
    method Record(data: Option<string>) returns (line: string, targets: set<Channel>)
      requires Valid()
      modifies this`history, this`published, this`log
      ensures Valid() && targets == if closed || data.None? then {} else subscribers
      ensures data.Some? ==> line == data.value + "\n"
      ensures published == old(published) + if closed || data.None? then [] else [line]
      ensures log == old(log) + if closed || data.None? then [] else [line]
    {
      line := if data.Some? then data.value + "\n" else "";
      if data.None? || closed {
        return line, {};
      }
      WindowSlides(published, line, historySize);
      SuffixGrows(published, log, line);
      published, log := published + [line], log + [line];
      history := history + [line];
      if |history| > historySize {
        history := history[|history| - historySize..];
      }
      return line, subscribers;
    }

    /** The part after the lock is released: one send to each, in no particular order. */
    method SendTo(line: string, targets: set<Channel>)
      requires forall c | c in targets :: c.Valid() && !c.closed
      modifies targets
      ensures forall c | c in targets ::
                && c.Valid() && !c.closed && c.received == old(c.received)
                && c.queue == Queued(old(c.queue), c.capacity, line) && c.offered == old(c.offered) + [line]
      ensures forall c | c in targets :: c.dropped == old(c.dropped) + if |old(c.queue)| < c.capacity then 0 else 1
    {
      var rest := targets;
      while rest != {}
        invariant rest <= targets
        invariant forall c | c in targets :: c.Valid() && !c.closed && c.received == old(c.received)
        invariant forall c | c in rest ::
                    c.queue == old(c.queue) && c.offered == old(c.offered) && c.dropped == old(c.dropped)
        invariant forall c | c in targets - rest ::
                    && c.queue == Queued(old(c.queue), c.capacity, line) && c.offered == old(c.offered) + [line]
                    && c.dropped == old(c.dropped) + if |old(c.queue)| < c.capacity then 0 else 1
        decreases rest
      {
        var c :| c in rest;
        c.TrySend(line);
        rest := rest - {c};
      }
    }

    /** Every subscriber is sent the line once, and loses it exactly if its queue is full. */
    method Publish(data: Option<string>)
      requires Valid()
      modifies this, subscribers
      ensures Valid() && closed == old(closed) && subscribers == old(subscribers)
      ensures published == old(published) + if closed || data.None? then [] else [data.value + "\n"]
      ensures forall c | c in subscribers ::
                if data.None? then c.queue == old(c.queue) && c.offered == old(c.offered) && c.dropped == old(c.dropped)
                else
                  && c.queue == Queued(old(c.queue), c.capacity, data.value + "\n")
                  && c.offered == old(c.offered) + [data.value + "\n"]
                  && c.dropped == old(c.dropped) + if |old(c.queue)| < c.capacity then 0 else 1
      ensures forall c | c in subscribers :: c.received == old(c.received)
      ensures log == old(log) + if closed || data.None? then [] else [data.value + "\n"]
      ensures old(InStep()) ==> InStep()
    {
      ghost var before := log;
      var line, targets := Record(data);
      SendTo(line, targets);
      if old(InStep()) {
        forall c | c in subscribers
          ensures IsSuffix(c.offered, log)
        {
          if data.Some? {
            SuffixGrows(old(c.offered), before, line);
          }
        }
      }
    }

    /**
     Two calls of `Publish` that overlap, the later line sent first: every subscriber is sent the two in
     the wrong order, so it stays in step exactly if nobody listens or the lines are equal.
     */
    method PublishOverlapping(first: string, second: string)
      requires Valid() && InStep() && !closed
      modifies this, subscribers
      ensures Valid() && subscribers == old(subscribers)
      ensures log == old(log) + [first + "\n", second + "\n"]
      ensures forall c | c in subscribers ::
                && c.received == old(c.received) && c.offered == old(c.offered) + [second + "\n", first + "\n"]
                && c.queue == Queued(Queued(old(c.queue), c.capacity, second + "\n"), c.capacity, first + "\n")
      ensures InStep() <==> subscribers == {} || first + "\n" == second + "\n"
    {
      ghost var before := log;
      var line1, targets1 := Record(Some(first));
      var line2, targets2 := Record(Some(second));
      SendTo(line2, targets2);
      SendTo(line1, targets1);
      forall c | c in subscribers
        ensures IsSuffix(c.offered, log) <==> line1 == line2
      {
        SwappedSuffix(old(c.offered), before, line1, line2);
        assert c.offered == old(c.offered) + [line2, line1];
      }
    }

    /**
     The lock is free between the two parts of `Publish`. If a channel is unsubscribed there, every
     send that follows still goes to an open channel exactly if that channel was not to be sent to.
     */
    method RecordThenUnsubscribe(data: Option<string>, leaving: Channel) returns (line: string, targets: set<Channel>)
      requires Valid()
      modifies this`history, this`published, this`log, this`subscribers, leaving`closed
      ensures Valid() && subscribers == old(subscribers) - {leaving}
      ensures (forall c | c in targets :: !c.closed) <==> leaving !in targets
      ensures leaving in targets <==> leaving in old(subscribers) && data.Some? && !closed
    {
      line, targets := Record(data);
      Unsubscribe(leaving);
    }

    /** If the bus is closed there, every send that follows goes to a closed channel. */
    method RecordThenClose(data: Option<string>) returns (line: string, targets: set<Channel>)
      requires Valid()
      modifies this, subscribers
      ensures Valid() && closed && subscribers == {}
      ensures targets == if old(closed) || data.None? then {} else old(subscribers)
      ensures forall c | c in targets :: c.closed
    {
      line, targets := Record(data);
      Close();
    }

    method ClearHistory()
      requires Valid()
      modifies this`history, this`published
      ensures Valid() && history == published == [] && (old(InStep()) ==> InStep())
    {
      history, published := [], [];
    }

    method Close()
      requires Valid()
      modifies this`closed, this`subscribers, subscribers
      ensures Valid() && closed && subscribers == {}
      ensures forall c | c in old(subscribers) :: c.closed && c.queue == old(c.queue) && c.received == old(c.received)
      ensures InStep() && log == old(log)
    {
      if closed {
        return;
      }
      closed := true;
      while subscribers != {}
        invariant closed && history == old(history) && published == old(published) && log == old(log)
        invariant subscribers <= old(subscribers) && forall c | c in subscribers :: !c.closed
        invariant forall c | c in old(subscribers) - subscribers :: c.closed
        invariant forall c | c in old(subscribers) :: c.queue == old(c.queue) && c.received == old(c.received)
        decreases subscribers
      {
        var c :| c in subscribers;
        subscribers := subscribers - {c};
        c.Close();
      }
    }
  }
}
