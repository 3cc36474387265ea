/** The buffer queue between the USB callback of rtl_tcp and the thread that serves its client. */
module TcpQueue {
  import opened CInts

  type Buffer = seq<uint8>

  class Node {
    const data: Buffer
    var next: Node?

    constructor (data: Buffer)
      ensures this.data == data && next == null
    {
      this.data := data;
      next := null;
    }
  }

  /** The nodes of s, in order, are the list that starts at head. */
  ghost predicate Linked(head: Node?, s: seq<Node>)
    reads s
  {
    (head == null <==> s == []) &&
    (s != [] ==> head == s[0] && s[|s| - 1].next == null) &&
    forall i :: 0 <= i < |s| - 1 ==> s[i].next == s[i + 1]
  }

  ghost predicate Distinct(s: seq<Node>) {
    forall i, j :: 0 <= i < j < |s| ==> s[i] != s[j]
  }

  function Data(s: seq<Node>): (d: seq<Buffer>)
    ensures |d| == |s|
  {
    seq(|s|, i requires 0 <= i < |s| => s[i].data)
  }

  function Concat(bs: seq<Buffer>): Buffer {
    if bs == [] then [] else bs[0] + Concat(bs[1..])
  }

  lemma {:induction false} ConcatAppends(a: seq<Buffer>, b: seq<Buffer>)
    ensures Concat(a + b) == Concat(a) + Concat(b)
    decreases |a|
  {
    if a == [] {
      assert a + b == b;
    } else {
      assert (a + b)[1..] == a[1..] + b;
      ConcatAppends(a[1..], b);
    }
  }

  predicate Increasing(s: seq<nat>) {
    forall i, j :: 0 <= i < j < |s| ==> s[i] < s[j]
  }

  /** Every production index below n was taken or dropped, never both, and each kind in order. */
  ghost predicate Accounted(taken: seq<nat>, dropped: seq<nat>, n: nat) {
    Increasing(taken) && Increasing(dropped) &&
    (forall k :: k in taken ==> k < n) && (forall k :: k in dropped ==> k < n) &&
    (forall k: nat :: k < n ==> (k in taken) != (k in dropped)) &&
    |taken| + |dropped| == n
  }

  /** n, n + 1, ... n + count - 1. */
  function Range(n: nat, count: nat): (s: seq<nat>)
    ensures |s| == count
  {
    seq(count, i requires 0 <= i < count => n + i)
  }

  lemma {:induction false} TakeAccounted(taken: seq<nat>, dropped: seq<nat>, n: nat, count: nat)
    requires Accounted(taken, dropped, n)
    ensures Accounted(taken + Range(n, count), dropped, n + count)
  {
    var t := taken + Range(n, count);
    forall i, j | 0 <= i < j < |t|
      ensures t[i] < t[j]
    {
      if i < |taken| <= j {
        assert taken[i] in taken;
      }
    }
    forall k: nat | k < n + count
      ensures (k in t) != (k in dropped)
    {
      if k >= n {
        assert Range(n, count)[k - n] == k;
      } else if k in Range(n, count) {
        assert false;
      }
    }
  }

  lemma {:induction false} DropAccounted(taken: seq<nat>, dropped: seq<nat>, n: nat)
    requires Accounted(taken, dropped, n)
    ensures Accounted(taken, dropped + [n], n + 1)
  {
    var d := dropped + [n];
    forall i, j | 0 <= i < j < |d|
      ensures d[i] < d[j]
    {
      if j == |dropped| {
        assert dropped[i] in dropped;
      }
    }
  }

  /** What the two threads have done so far: every buffer the callback queued, the production indices the
      worker took and the queue dropped, and every byte the socket accepted. */
  datatype History = History(produced: seq<Buffer>, taken: seq<nat>, dropped: seq<nat>, sent: Buffer)

  datatype Event = Produce(buf: Buffer) | Wake | Sent(n: nat) | Stop

  /** The buffers that arrive before a stop. */
  function ProducedIn(events: seq<Event>): seq<Buffer> {
    if events == [] then []
    else
      var before, e := events[..|events| - 1], events[|events| - 1];
      ProducedIn(before) + if e.Produce? && Event.Stop !in before then [e.buf] else []
  }

  /** The buffers at the given production indices. */
  function Picked(produced: seq<Buffer>, indices: seq<nat>): (bs: seq<Buffer>)
    requires forall k :: k in indices ==> k < |produced|
    ensures |bs| == |indices|
  {
    seq(|indices|, i requires 0 <= i < |indices| => assert indices[i] in indices; produced[indices[i]])
  }

  /** The limits that ever cut the queue: 0 is no limit, and the test for one below -2 never comes true. */
  predicate Bounding(cap: int) {
    cap != 0 && cap >= -1
  }

  predicate Full(cap: int, queued: nat) {
    Bounding(cap) && queued == cap + 3
  }

  /** The queue holds the youngest buffers in production order, is bounded, and the rest is accounted for. */
  ghost predicate Ordered(queue: seq<Buffer>, produced: seq<Buffer>, taken: seq<nat>, dropped: seq<nat>, cap: int) {
    |queue| <= |produced| && queue == produced[|produced| - |queue|..] &&
    Accounted(taken, dropped, |produced| - |queue|) &&
    (Bounding(cap) ==> |queue| <= cap + 3)
  }

  lemma {:induction false} OrderedAppend(queue: seq<Buffer>, produced: seq<Buffer>, taken: seq<nat>, dropped: seq<nat>,
                                         cap: int, buf: Buffer)
    requires Ordered(queue, produced, taken, dropped, cap) && (Bounding(cap) ==> |queue| < cap + 3)
    ensures Ordered(queue + [buf], produced + [buf], taken, dropped, cap)
    ensures Picked(produced + [buf], taken) == Picked(produced, taken)
  {
    forall i | 0 <= i < |taken|
      ensures Picked(produced + [buf], taken)[i] == Picked(produced, taken)[i]
    {
      assert taken[i] in taken;
    }
  }

  lemma {:induction false} OrderedDrop(queue: seq<Buffer>, produced: seq<Buffer>, taken: seq<nat>, dropped: seq<nat>,
                                       cap: int)
    requires queue != [] && Ordered(queue, produced, taken, dropped, cap)
    ensures Ordered(queue[1..], produced, taken, dropped + [|produced| - |queue|], cap)
  {
    DropAccounted(taken, dropped, |produced| - |queue|);
  }

  lemma {:induction false} OrderedTake(queue: seq<Buffer>, produced: seq<Buffer>, taken: seq<nat>, dropped: seq<nat>,
                                       cap: int)
    requires Ordered(queue, produced, taken, dropped, cap)
    ensures var all := taken + Range(|produced| - |queue|, |queue|);
            Ordered([], produced, all, dropped, cap) && Picked(produced, all) == Picked(produced, taken) + queue
  {
    var n := |produced| - |queue|;
    TakeAccounted(taken, dropped, n, |queue|);
    var all := taken + Range(n, |queue|);
    assert produced[|produced|..] == [];
    forall i | 0 <= i < |all|
      ensures Picked(produced, all)[i] == (Picked(produced, taken) + queue)[i]
    {
      assert all[i] in all;
      if i < |taken| {
        assert taken[i] in taken;
      } else {
        assert all[i] == n + (i - |taken|);
      }
    }
  }

  /** Sent and unsent bytes together are everything that was taken; the first `index` bytes of the
      worker's list are already sent. */
  ghost predicate Owed(sent: Buffer, batch: seq<Buffer>, index: nat, all: Buffer) {
    index <= |Concat(batch)| && sent + Concat(batch)[index..] == all
  }

  /** Everything the ghost records of the two threads must agree on. */
  ghost predicate Consistent(queue: seq<Buffer>, batch: seq<Buffer>, index: nat, h: History, cap: int) {
    Ordered(queue, h.produced, h.taken, h.dropped, cap) &&
    index <= (if batch == [] then 0 else |batch[0]|) &&
    Owed(h.sent, batch, index, Concat(Picked(h.produced, h.taken)))
  }

  function AfterCallback(h: History, queued: nat, buf: Buffer, full: bool): History
    requires queued <= |h.produced|
  {
    History(h.produced + [buf], h.taken, if full then h.dropped + [|h.produced| - queued] else h.dropped, h.sent)
  }

  lemma {:induction false} AppendConsistent(queue: seq<Buffer>, batch: seq<Buffer>, index: nat, h: History, cap: int,
                                            buf: Buffer)
    requires Consistent(queue, batch, index, h, cap) && (Bounding(cap) ==> |queue| < cap + 3)
    ensures Consistent(queue + [buf], batch, index, h.(produced := h.produced + [buf]), cap)
  {
    OrderedAppend(queue, h.produced, h.taken, h.dropped, cap, buf);
  }

  lemma {:induction false} DropConsistent(queue: seq<Buffer>, batch: seq<Buffer>, index: nat, h: History, cap: int)
    requires queue != [] && Consistent(queue, batch, index, h, cap)
    ensures Consistent(queue[1..], batch, index, h.(dropped := h.dropped + [|h.produced| - |queue|]), cap)
  {
    OrderedDrop(queue, h.produced, h.taken, h.dropped, cap);
  }

  lemma {:induction false} CallbackConsistent(queue: seq<Buffer>, batch: seq<Buffer>, index: nat, h: History, cap: int,
                                              buf: Buffer, full: bool)
    requires Consistent(queue, batch, index, h, cap) && full == Full(cap, |queue|)
    ensures var kept := if full then queue[1..] else queue;
            Consistent(kept + [buf], batch, index, AfterCallback(h, |queue|, buf, full), cap)
  {
    hide Accounted, Owed;
    if full {
      DropConsistent(queue, batch, index, h, cap);
      AppendConsistent(queue[1..], batch, index, h.(dropped := h.dropped + [|h.produced| - |queue|]), cap, buf);
    } else {
      AppendConsistent(queue, batch, index, h, cap, buf);
    }
  }

  lemma {:induction false} TakeConsistent(queue: seq<Buffer>, h: History, cap: int)
    requires Consistent(queue, [], 0, h, cap)
    ensures Consistent([], queue, 0,
                       History(h.produced, h.taken + Range(|h.produced| - |queue|, |queue|), h.dropped, h.sent), cap)
  {
    OrderedTake(queue, h.produced, h.taken, h.dropped, cap);
    ConcatAppends(Picked(h.produced, h.taken), queue);
    assert h.sent == h.sent + Concat([])[0..];
    assert Concat(queue)[0..] == Concat(queue);
  }

  /** n more bytes of the first buffer leave; when that was all of it, the next one is up. */
  lemma {:induction false} SendConsistent(queue: seq<Buffer>, batch: seq<Buffer>, index: nat, h: History, cap: int,
                                          n: nat)
    requires Consistent(queue, batch, index, h, cap) && batch != [] && index + n <= |batch[0]|
    ensures var g := h.(sent := h.sent + batch[0][index..index + n]);
            if index + n == |batch[0]| then Consistent(queue, batch[1..], 0, g, cap)
            else Consistent(queue, batch, index + n, g, cap)
  {
    var all := Concat(batch);
    assert all == batch[0] + Concat(batch[1..]);
    assert all[index..] == batch[0][index..index + n] + all[index + n..];
    assert h.sent + all[index..] == (h.sent + batch[0][index..index + n]) + all[index + n..];
    if index + n == |batch[0]| {
      assert all[index + n..] == Concat(batch[1..]) == Concat(batch[1..])[0..];
    }
  }

  lemma {:induction false} SentPrefix(queue: seq<Buffer>, batch: seq<Buffer>, index: nat, h: History, cap: int)
    requires Consistent(queue, batch, index, h, cap)
    ensures h.sent <= Concat(Picked(h.produced, h.taken))
    ensures batch == [] ==> h.sent == Concat(Picked(h.produced, h.taken))
  {
  }

  class Server {
    const llbufNum: int
    var llBuffers: Node?
    var curelem: Node?
    var index: nat
    var doExit: bool
    ghost var spine: seq<Node>      // the queue
    ghost var batch: seq<Node>      // what the worker still holds, the buffer being sent first
    ghost var nodes: set<Node>      // every node ever queued
    ghost var history: History

    ghost predicate Lists()
      reads this, nodes
    {
      (forall n :: n in spine ==> n in nodes) && (forall n :: n in batch ==> n in nodes) &&
      Linked(llBuffers, spine) && Linked(curelem, batch) &&
      Distinct(spine) && Distinct(batch) && forall n :: n in batch ==> n !in spine
    }

    ghost predicate Valid()
      reads this, nodes
    {
      llbufNum != -2 && Lists() && Consistent(Data(spine), Data(batch), index, history, llbufNum)
    }

    constructor (llbufNum: int)
      requires llbufNum != -2
      ensures Valid() && this.llbufNum == llbufNum
      ensures history == History([], [], [], []) && spine == [] && batch == [] && nodes == {} && !doExit
    {
      this.llbufNum := llbufNum;
      llBuffers, curelem, index, doExit := null, null, 0, false;
      spine, batch, nodes, history := [], [], {}, History([], [], [], []);
    }

    /** rtlsdr_callback. A buffer is lost only when the queue holds exactly llbufNum + 3 of them: its oldest. */
    method Callback(buf: Buffer)
      requires Valid()
      modifies this`llBuffers, this`spine, this`nodes, this`history, nodes
      ensures Valid()
      ensures history == if doExit then old(history) else
        AfterCallback(old(history), old(|spine|), buf, Full(llbufNum, old(|spine|)))
      ensures fresh(nodes - old(nodes))
      ensures doExit ==> spine == old(spine)
    {
      hide Accounted, Distinct, Linked, Owed;
      if !doExit {
        ghost var queue := Data(spine);
        var rpt := new Node(buf);
        var full := Enqueue(rpt);
        CallbackConsistent(queue, Data(batch), index, history, llbufNum, buf, full);
        history := AfterCallback(history, |queue|, buf, full);
      }
    }

    /** The worker was woken: it takes the whole queue at once. */
    method TakeAll()
      requires Valid() && curelem == null
      modifies this`llBuffers, this`curelem, this`spine, this`batch, this`history
      ensures Valid() && spine == [] && Data(batch) == old(Data(spine))
      ensures var n := |old(spine)|;
              history == old(history).(taken := old(history.taken) + Range(|old(history.produced)| - n, n))
    {
      TakeConsistent(Data(spine), history, llbufNum);
      history := history.(taken := history.taken + Range(|history.produced| - |spine|, |spine|));
      MoveList();
    }

    method MoveList()
      requires Lists() && curelem == null
      modifies this`llBuffers, this`curelem, this`spine, this`batch
      ensures Lists() && spine == [] && Data(batch) == old(Data(spine))
    {
      curelem, llBuffers := llBuffers, null;
      batch, spine := spine, [];
    }

    /** One turn of the worker's sending loop: of the bytes left, the socket accepts up to n. */
    method SendSome(n: nat) returns (bytesSent: nat)
      requires Valid() && curelem != null
      modifies this`curelem, this`index, this`batch, this`history
      ensures var i, length := old(index), old(|curelem.data|);
              Valid() && i + bytesSent == (if i + n <= length then i + n else length) &&
              history == old(history).(sent := old(history.sent) + old(curelem.data)[i..i + bytesSent])
      ensures if old(index) + bytesSent == old(|curelem.data|) then Data(batch) == old(Data(batch))[1..] && index == 0
              else batch == old(batch) && index == old(index) + bytesSent
    {
      hide Ordered, Owed;
      ghost var all := Data(batch);
      assert all[0] == curelem.data;
      bytesSent := if index + n <= |curelem.data| then n else |curelem.data| - index;
      SendConsistent(Data(spine), all, index, history, llbufNum, bytesSent);
      history := history.(sent := history.sent + curelem.data[index..index + bytesSent]);
      index := index + bytesSent;
      if index == |curelem.data| {
        NextElement();
      }
    }

    method NextElement()
      requires Lists() && batch != []
      modifies this`curelem, this`index, this`batch
      ensures Lists() && index == 0 && Data(batch) == old(Data(batch))[1..]
    {
      ghost var tail := batch[1..];
      forall i | 0 <= i < |tail| - 1
        ensures tail[i].next == tail[i + 1]
      {
        assert batch[i + 1].next == batch[i + 2];
      }
      assert |batch| > 1 ==> batch[0].next == batch[1];
      curelem, index := curelem.next, 0;
      batch := tail;
    }

    /** A signal, a timeout or a socket error: both threads finish. */
    method Stop()
      requires Valid()
      modifies this`doExit
      ensures Valid() && doExit
    {
      doExit := true;
    }

    /** What one event does; an event whose thread is not ready for it does nothing. */
    method Step(event: Event)
      requires Valid()
      modifies this, nodes
      ensures Valid() && fresh(nodes - old(nodes))
      ensures doExit == (old(doExit) || event.Stop?)
      ensures history.produced ==
                old(history.produced) + if event.Produce? && !old(doExit) then [event.buf] else []
      ensures event.Produce? && !old(doExit) ==>
                history == AfterCallback(old(history), old(|spine|), event.buf, Full(llbufNum, old(|spine|)))
      ensures event.Wake? && old(curelem) == null && !old(doExit) ==>
                spine == [] && Data(batch) == old(Data(spine)) &&
                history == old(history).(taken := old(history.taken)
                                                  + Range(|old(history.produced)| - |old(spine)|, |old(spine)|))
      ensures event.Sent? && old(curelem) != null && !old(doExit) ==>
                var i, length := old(index), old(|curelem.data|);
                var end := if i + event.n <= length then i + event.n else length;
                history == old(history).(sent := old(history.sent) + old(curelem.data)[i..end])
      ensures (old(doExit) || event.Stop? || (event.Wake? && old(curelem) != null)
               || (event.Sent? && old(curelem) == null)) ==>
                history == old(history) && spine == old(spine)
      ensures !Bounding(llbufNum) ==> history.dropped == old(history.dropped)
    {
      hide Consistent, Distinct, Linked, Range;
      match event
      case Produce(buf) => Callback(buf);
      case Wake =>
        if curelem == null && !doExit {
          TakeAll();
        }
      case Sent(n) =>
        if curelem != null && !doExit {
          var _ := SendSome(n);
        }
      case Stop => Stop();
    }

    /** The events one by one. */
    method Steps(events: seq<Event>)
      requires Valid()
      modifies this, nodes
      ensures Valid() && fresh(nodes - old(nodes))
      ensures doExit == (old(doExit) || Event.Stop in events)
      ensures history.produced == old(history.produced) + if old(doExit) then [] else ProducedIn(events)
      ensures !Bounding(llbufNum) ==> history.dropped == old(history.dropped)
    {
      hide AfterCallback, Bounding, Consistent, Distinct, Full, Linked, Range;
      var k := 0;
      while k < |events|
        invariant Valid() && 0 <= k <= |events| && fresh(nodes - old(nodes))
        invariant !Bounding(llbufNum) ==> history.dropped == old(history.dropped)
        invariant doExit == (old(doExit) || Event.Stop in events[..k])
        invariant history.produced == old(history.produced) + if old(doExit) then [] else ProducedIn(events[..k])
      {
        assert events[..k + 1] == events[..k] + [events[k]] && events[..k + 1][..k] == events[..k];
        Step(events[k]);
        k := k + 1;
      }
      assert events[..k] == events;
    }

    /** Any interleaving of the two threads, with any split into partial sends, until the worker gives up:
        bytes leave in production order, and every buffer was sent on, dropped from a full queue or waits. */
    method Run(events: seq<Event>)
      requires Valid()
      modifies this, nodes
      ensures Valid()
      ensures doExit == (old(doExit) || Event.Stop in events)
      ensures history.produced == old(history.produced) + if old(doExit) then [] else ProducedIn(events)
      ensures history.sent <= Concat(Picked(history.produced, history.taken))
      ensures curelem == null ==> history.sent == Concat(Picked(history.produced, history.taken))
      ensures Accounted(history.taken, history.dropped, |history.produced| - |spine|)
      ensures Data(spine) == history.produced[|history.produced| - |spine|..]
      ensures Bounding(llbufNum) ==> |spine| <= llbufNum + 3
      ensures !Bounding(llbufNum) ==> history.dropped == old(history.dropped)
    {
      hide Accounted, Concat, Distinct, Picked, ProducedIn;
      Steps(events);
      SentPrefix(Data(spine), Data(batch), index, history, llbufNum);
    }

    /** Walk to the last node, unlink the head of a full queue, append. */
    method Enqueue(rpt: Node) returns (full: bool)
      requires Lists() && llbufNum != -2 && rpt !in nodes && rpt.next == null
      modifies this`llBuffers, this`spine, this`nodes, nodes
      ensures Lists() && full == Full(llbufNum, old(|spine|))
      ensures nodes == old(nodes) + {rpt}
      ensures Data(spine) == (if full then old(Data(spine))[1..] else old(Data(spine))) + [rpt.data]
    {
      full := false;
      if llBuffers == null {
        llBuffers, spine, nodes := rpt, [rpt], nodes + {rpt};
      } else {
        var cur, numQueued := LastNode();
        if llbufNum != 0 && llbufNum == numQueued - 2 {
          full := true;
          DropHead();
        }
        Append(cur, rpt);
      }
    }

    method LastNode() returns (cur: Node, numQueued: int)
      requires Lists() && spine != []
      ensures numQueued == |spine| - 1 && cur == spine[numQueued]
    {
      cur, numQueued := llBuffers, 0;
      while cur.next != null
        invariant 0 <= numQueued < |spine| && cur == spine[numQueued]
        invariant cur.next == if numQueued < |spine| - 1 then spine[numQueued + 1] else null
        decreases |spine| - numQueued
      {
        cur, numQueued := cur.next, numQueued + 1;
      }
    }

    method DropHead()
      requires Lists() && |spine| >= 2
      modifies this`llBuffers, this`spine
      ensures Lists() && Data(spine) == old(Data(spine))[1..]
      ensures spine != [] && spine[|spine| - 1] == old(spine)[|old(spine)| - 1]
    {
      assert spine[0].next == spine[1];
      ghost var tail := spine[1..];
      forall i | 0 <= i < |tail| - 1
        ensures tail[i].next == tail[i + 1]
      {
        assert spine[i + 1].next == spine[i + 2];
      }
      llBuffers := llBuffers.next;
      spine := tail;
    }

    method Append(cur: Node, rpt: Node)
      requires Lists() && spine != [] && cur == spine[|spine| - 1]
      requires rpt !in nodes && rpt.next == null
      modifies cur`next, this`spine, this`nodes
      ensures Lists() && nodes == old(nodes) + {rpt} && Data(spine) == old(Data(spine)) + [rpt.data]
    {
      assert cur in spine && (batch != [] ==> batch[|batch| - 1] in batch);
      cur.next := rpt;
      spine, nodes := spine + [rpt], nodes + {rpt};
    }
  }
}
