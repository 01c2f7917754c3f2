/** The ring buffer of common/log.cpp: a growing queue of entries, filled by add and pause
    and drained by the worker. */
module LogRing {

  // A formatted message; what it consists of does not matter here.
  type Msg(0, ==, !new)

  // pause only sets the end flag, so an end marker keeps whatever message its slot had.
  datatype Entry = Entry(msg: Msg, isEnd: bool)

  datatype Item = Text(msg: Msg) | End

  // ----- the queue that a ring stands for -----

  function ItemOf(e: Entry): Item { if e.isEnd then End else Text(e.msg) }

  function Items(s: seq<Entry>): (r: seq<Item>)
    ensures |r| == |s|
  {
    seq(|s|, i requires 0 <= i < |s| => ItemOf(s[i]))
  }

  // The entries from head up to tail, around the end of the buffer if need be.
  function Between(s: seq<Entry>, head: nat, tail: nat): seq<Entry>
    requires head < |s| && tail < |s|
  {
    if head <= tail then s[head..tail] else s[head..] + s[..tail]
  }

  // ----- what the operations do to the queue -----

  datatype Queue = Queue(capacity: nat, items: seq<Item>)

  // A full buffer is doubled.
  function Added(q: Queue, m: Msg): Queue {
    Queue(if |q.items| + 1 == q.capacity then 2 * q.capacity else q.capacity, q.items + [Text(m)])
  }

  // The end marker is pushed without looking whether there is room: when it takes the last
  // free slot the buffer reads as empty.
  function Ended(q: Queue): Queue {
    q.(items := if |q.items| + 1 == q.capacity then [] else q.items + [End])
  }

  // ----- arithmetic of one step around the ring -----

  function Next(i: nat, n: nat): nat { if i + 1 == n then 0 else i + 1 }

  lemma PushAround(s: seq<Entry>, head: nat, tail: nat, e: Entry)
    requires head < |s| && tail < |s| && Next(tail, |s|) != head
    ensures Between(s[tail := e], head, Next(tail, |s|)) == Between(s, head, tail) + [e]
    ensures |Between(s, head, tail)| + 1 < |s|
  {
    var s' := s[tail := e];
    if head > tail {
      assert s'[..tail + 1] == s[..tail] + [e];
      assert s'[head..] == s[head..];
    } else if tail + 1 == |s| {
      assert s'[head..] == s[head..tail] + [e];
    } else {
      assert s'[head..tail + 1] == s[head..tail] + [e];
    }
  }

  lemma PushFull(s: seq<Entry>, head: nat, tail: nat, e: Entry)
    requires head < |s| && tail < |s| && Next(tail, |s|) == head
    ensures s[tail := e][head..] + s[tail := e][..head] == Between(s, head, tail) + [e]
    ensures |Between(s, head, tail)| + 1 == |s|
  {
    var s' := s[tail := e];
    if head == 0 {
      assert s'[0..] + s'[..0] == s[0..tail] + [e];
    } else {
      assert s'[..head] == s[..tail] + [e];
      assert s'[head..] == s[head..];
    }
  }

  lemma PopAround(s: seq<Entry>, head: nat, tail: nat)
    requires head < |s| && tail < |s| && head != tail
    ensures Between(s, head, tail) == [s[head]] + Between(s, Next(head, |s|), tail)
  {
    if head < tail {
      assert s[head..tail] == [s[head]] + s[head + 1..tail];
    } else {
      assert s[head..] == [s[head]] + s[head + 1..];
      assert ([s[head]] + s[head + 1..]) + s[..tail] == [s[head]] + (s[head + 1..] + s[..tail]);
      if head + 1 == |s| { assert s[head + 1..] + s[..tail] == s[0..tail]; }
    }
  }

  lemma Wrap(x: nat, n: nat)
    requires x < 2 * n
    ensures x % n == if x < n then x else x - n
  {
    if x >= n { assert x == n * 1 + (x - n); }
  }

  lemma NextIs(i: nat, n: nat)
    requires i < n
    ensures (i + 1) % n == Next(i, n)
  {
    if n > 1 { Wrap(i + 1, n); }
  }

  lemma ItemsConcat(a: seq<Entry>, b: seq<Entry>)
    ensures Items(a + b) == Items(a) + Items(b)
  {
  }

  // The entry i places after head.
  lemma Rotated(s: seq<Entry>, head: nat, i: nat)
    requires head < |s| && i < |s|
    ensures (s[head..] + s[..head])[i] == s[(head + i) % |s|]
    ensures ((head + i) % |s| + 1) % |s| == (head + i + 1) % |s|
    ensures (head + i + 1) % |s| == head <==> i + 1 == |s|
  {
    var n := |s|;
    Wrap(head + i, n);
    Wrap((head + i) % n + 1, n);
    if head + i + 1 < 2 * n { Wrap(head + i + 1, n); }
  }

  // ----- the buffer itself -----

  class CommonLog {
    var running: bool
    var entries: array<Entry>
    var head: nat
    var tail: nat

    ghost predicate Valid()
      reads this
    {
      head < entries.Length && tail < entries.Length
    }

    ghost function State(): Queue
      reads this, entries
      requires Valid()
    {
      Queue(entries.Length, Items(Between(entries[..], head, tail)))
    }

    // A buffer without slots has no meaning in the source either (indices are taken modulo the size).
    constructor (capacity: nat)
      requires capacity > 0
      ensures Valid() && fresh(entries) && running && State() == Queue(capacity, [])
    {
      entries := new Entry[capacity];
      head, tail := 0, 0;
      running := true;
      new;
      assert Between(entries[..], 0, 0) == [];
    }

    /** add: discards the message while the worker is paused, else appends it, growing the
        buffer when it becomes full. */
    method Add(m: Msg)
      requires Valid()
      modifies this, entries
      ensures Valid() && running == old(running) && (entries == old(entries) || fresh(entries))
      ensures State() == if running then Added(old(State()), m) else old(State())
      ensures running ==> head != tail
    {
      if !running { return; }
      ghost var s, h, t := entries[..], head, tail;
      var e := Entry(m, false);
      entries[tail] := e;
      assert entries[..] == s[t := e];
      NextIs(t, entries.Length);
      tail := (tail + 1) % entries.Length;
      ItemsConcat(Between(s, h, t), [e]);
      assert Items([e]) == [Text(m)];
      if tail == head {
        PushFull(s, h, t, e);
        Grow();
      } else {
        PushAround(s, h, t, e);
      }
    }

    // The full buffer, with tail on head, is unrolled into one of twice the size.
    method Grow()
      requires Valid() && head == tail
      modifies this
      ensures Valid() && running == old(running) && fresh(entries) && head != tail
      ensures entries.Length == 2 * old(entries.Length)
      ensures Between(entries[..], head, tail) == old(entries[head..] + entries[..head])
    {
      var newEntries := new Entry[2 * entries.Length];
      var newTail := 0;
      ghost var n, h, s := entries.Length, head, entries[..];
      ghost var rotated := s[h..] + s[..h];
      while true
        invariant entries == old(entries) && entries[..] == s && tail == h && running == old(running)
        invariant newTail < n && head == (h + newTail) % n
        invariant newEntries[..newTail] == rotated[..newTail]
        decreases n - newTail
      {
        Rotated(s, h, newTail);
        newEntries[newTail] := entries[head];
        head := (head + 1) % entries.Length;
        newTail := newTail + 1;
        assert newEntries[..newTail] == rotated[..newTail];
        if head == tail { break; }
      }
      assert newTail == n && rotated[..n] == rotated;
      head := 0;
      tail := newTail;
      entries := newEntries;
    }

    // The worker's critical section, entered when head != tail.
    method Take() returns (cur: Item)
      requires Valid() && head != tail
      modifies this`head
      ensures Valid()
      ensures old(State()).items != [] && cur == old(State()).items[0]
      ensures State() == Queue(old(State()).capacity, old(State()).items[1..])
    {
      NextIs(head, entries.Length);
      PopAround(entries[..], head, tail);
      cur := ItemOf(entries[head]);
      ItemsConcat([entries[head]], Between(entries[..], Next(head, entries.Length), tail));
      head := (head + 1) % entries.Length;
    }

    // The critical section of pause.
    method PushEnd()
      requires Valid() && running
      modifies this, entries
      ensures Valid() && !running && entries == old(entries) && State() == Ended(old(State()))
    {
      running := false;
      ghost var s, h, t := entries[..], head, tail;
      var e := Entry(entries[tail].msg, true);
      entries[tail] := e;
      assert entries[..] == s[t := e];
      NextIs(t, entries.Length);
      tail := (tail + 1) % entries.Length;
      ItemsConcat(Between(s, h, t), [e]);
      if tail == head {
        PushFull(s, h, t, e);
      } else {
        PushAround(s, h, t, e);
      }
    }

    method Resume()
      modifies this`running
      ensures running
    {
      running := true;
    }

    // The worker waits exactly while the queue reads as empty.
    lemma WaitsWhenEmpty()
      requires Valid()
      ensures head == tail <==> State().items == []
    {
    }
  }
}
