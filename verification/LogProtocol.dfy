/** The protocol between the producers, the worker and one controller that pauses and
    resumes the log, over every interleaving of their critical sections. */
module LogProtocol {
  import opened LogRing

  // The worker waits, prints a message outside the lock, or has left its loop.
  datatype Worker = Waiting | Printing(msg: Msg) | Exited

  // pause pushes the end marker, then joins the worker outside the lock.
  datatype Control = Free | Joining

  datatype Sys = Sys(
    q: Queue,
    running: bool,
    worker: Worker,
    control: Control,
    accepted: seq<Msg>,    // history: what add has not discarded
    delivered: seq<Msg>)   // history: what the worker has printed

  datatype Action = Add(msg: Msg) | Take | Print | PushEnd | Join | Resume

  predicate Enabled(s: Sys, a: Action) {
    match a
    case Add(_) => true
    case Take => s.worker.Waiting? && s.q.items != []
    case Print => s.worker.Printing?
    case PushEnd => s.control.Free? && s.running
    case Join => s.control.Joining? && s.worker.Exited?
    case Resume => s.control.Free? && !s.running
  }

  function Do(s: Sys, a: Action): Sys
    requires Enabled(s, a)
  {
    match a
    case Add(m) => if s.running then s.(q := Added(s.q, m), accepted := s.accepted + [m]) else s
    case Take =>
      s.(q := s.q.(items := s.q.items[1..]),
         worker := match s.q.items[0] case End => Exited case Text(m) => Printing(m))
    case Print => s.(worker := Waiting, delivered := s.delivered + [s.worker.msg])
    case PushEnd => s.(running := false, q := Ended(s.q), control := Joining)
    case Join => s.(control := Free)
    case Resume => s.(running := true, worker := Waiting)
  }

  // The state after construction, which ends in a resume.
  function Start(capacity: nat): Sys {
    Sys(Queue(capacity, []), true, Waiting, Free, [], [])
  }

  ghost predicate IsRun(s: Sys, run: seq<Action>, t: Sys)
    decreases |run|
  {
    if run == [] then s == t else Enabled(s, run[0]) && IsRun(Do(s, run[0]), run[1..], t)
  }

  // ----- the invariant -----

  function Texts(items: seq<Item>): seq<Msg> {
    if items == [] then []
    else (if items[0].Text? then [items[0].msg] else []) + Texts(items[1..])
  }

  function InFlight(w: Worker): seq<Msg> { if w.Printing? then [w.msg] else [] }

  predicate NoEnd(items: seq<Item>) { forall i :: 0 <= i < |items| ==> items[i].Text? }

  predicate EndLast(items: seq<Item>) {
    items != [] && items[|items| - 1].End? && NoEnd(items[..|items| - 1])
  }

  // What has been accepted is delivered, being printed, or queued: in order, each once.
  predicate Ordered(s: Sys) {
    s.delivered + InFlight(s.worker) + Texts(s.q.items) == s.accepted
  }

  // An end marker is queued exactly while a pause waits for the worker to read it.
  predicate Regular(s: Sys) {
    && |s.q.items| < s.q.capacity && Ordered(s)
    && (s.running ==> s.control.Free?)
    && match s.control
       case Free =>
         if s.running then NoEnd(s.q.items) && !s.worker.Exited? else s.q.items == [] && s.worker.Exited?
       case Joining =>
         if s.worker.Exited? then s.q.items == [] else EndLast(s.q.items)
  }

  // The end marker took the last free slot: the buffer reads as empty, the worker waits for
  // ever, and capacity - 1 accepted messages are never delivered.
  ghost predicate Stuck(s: Sys) {
    && s.control.Joining? && !s.running && !s.worker.Exited?
    && s.q.items == [] && s.q.capacity > 0
    && exists lost :: Loses(s, lost)
  }

  predicate Loses(s: Sys, lost: seq<Msg>) {
    |lost| == s.q.capacity - 1 && s.delivered + InFlight(s.worker) + lost == s.accepted
  }

  lemma {:induction false} TextsConcat(a: seq<Item>, b: seq<Item>)
    ensures Texts(a + b) == Texts(a) + Texts(b)
  {
    if a == [] {
      assert a + b == b;
    } else {
      var first := if a[0].Text? then [a[0].msg] else [];
      TextsConcat(a[1..], b);
      assert (a + b)[1..] == a[1..] + b && (a + b)[0] == a[0];
      assert Texts(a + b) == first + (Texts(a[1..]) + Texts(b));
      assert first + (Texts(a[1..]) + Texts(b)) == (first + Texts(a[1..])) + Texts(b);
    }
  }

  lemma {:induction false} TextsAll(items: seq<Item>)
    requires NoEnd(items)
    ensures |Texts(items)| == |items|
  {
    if items != [] { TextsAll(items[1..]); }
  }

  lemma TextsPush(items: seq<Item>, i: Item)
    ensures Texts(items + [i]) == Texts(items) + if i.Text? then [i.msg] else []
  {
    TextsConcat(items, [i]);
    assert [i][1..] == [];
  }

  // ----- every step keeps it -----

  lemma TakeOrdered(s: Sys)
    requires Ordered(s) && s.worker.Waiting? && s.q.items != []
    ensures Ordered(Do(s, Take))
  {
    assert Texts(s.q.items) == InFlight(Do(s, Take).worker) + Texts(s.q.items[1..]);
  }

  lemma TakeKeeps(s: Sys)
    requires Regular(s) && Enabled(s, Take)
    ensures Regular(Do(s, Take))
  {
    TakeOrdered(s);
    var items := s.q.items;
    var rest := items[1..];
    if s.control.Joining? && rest != [] {
      assert rest[..|rest| - 1] == items[..|items| - 1][1..];
      assert items[0] == items[..|items| - 1][0];
    }
  }

  lemma PauseKeeps(s: Sys)
    requires Regular(s) && Enabled(s, PushEnd)
    ensures |s.q.items| + 1 < s.q.capacity ==> Regular(Do(s, PushEnd))
    ensures |s.q.items| + 1 == s.q.capacity ==> Stuck(Do(s, PushEnd))
  {
    var t := Do(s, PushEnd);
    if |s.q.items| + 1 < s.q.capacity {
      TextsPush(s.q.items, End);
      assert t.q.items[..|t.q.items| - 1] == s.q.items;
    } else {
      TextsAll(s.q.items);
      assert Loses(t, Texts(s.q.items));
    }
  }

  lemma AddKeeps(s: Sys, m: Msg)
    requires Regular(s)
    ensures Regular(Do(s, Add(m)))
  {
    if s.running {
      TextsPush(s.q.items, Text(m));
      assert s.delivered + InFlight(s.worker) + (Texts(s.q.items) + [m]) == s.accepted + [m];
    }
  }

  lemma StepKeeps(s: Sys, a: Action)
    requires Regular(s) && Enabled(s, a)
    ensures a.PushEnd? && |s.q.items| + 1 == s.q.capacity ==> Stuck(Do(s, a))
    ensures !(a.PushEnd? && |s.q.items| + 1 == s.q.capacity) ==> Regular(Do(s, a))
  {
    match a {
      case Add(m) => AddKeeps(s, m);
      case Take => TakeKeeps(s);
      case PushEnd => PauseKeeps(s);
      case Print =>
      case Join =>
      case Resume =>
    }
  }

  // A stuck pause stays stuck: the worker's print is the only thing that still happens.
  lemma StuckStays(s: Sys, a: Action)
    requires Stuck(s) && Enabled(s, a)
    ensures Stuck(Do(s, a)) && !a.Join?
  {
    var lost :| Loses(s, lost);
    assert Loses(Do(s, a), lost);
  }

  // A running log whose queue is filled up to one free slot, and then paused.
  lemma {:induction false} FillAndPause(s: Sys, m: Msg) returns (run: seq<Action>, t: Sys)
    requires Regular(s) && s.running && s.control.Free? && |s.q.items| < s.q.capacity
    ensures IsRun(s, run, t) && Stuck(t)
    decreases s.q.capacity - |s.q.items|
  {
    if |s.q.items| + 1 == s.q.capacity {
      PauseKeeps(s);
      run, t := [PushEnd], Do(s, PushEnd);
      assert IsRun(t, run[1..], t);
    } else {
      var next := Do(s, Add(m));
      AddKeeps(s, m);
      var rest;
      rest, t := FillAndPause(next, m);
      run := [Add(m)] + rest;
      assert run[1..] == rest;
    }
  }

  /** Of every capacity a log gets there: as many messages as fit, and then a pause. */
  lemma StuckReachable(capacity: nat, m: Msg) returns (run: seq<Action>, t: Sys)
    requires capacity > 0
    ensures IsRun(Start(capacity), run, t) && Stuck(t)
  {
    run, t := FillAndPause(Start(capacity), m);
  }

  /** In every interleaving the log is regular, or a pause has filled the buffer and is stuck. */
  lemma {:induction false} AlwaysRegularOrStuck(s: Sys, run: seq<Action>, t: Sys)
    requires (Regular(s) || Stuck(s)) && IsRun(s, run, t)
    ensures Regular(t) || Stuck(t)
    ensures Stuck(s) ==> Stuck(t) && Join !in run
    decreases |run|
  {
    if run != [] {
      if Regular(s) { StepKeeps(s, run[0]); } else { StuckStays(s, run[0]); }
      if Stuck(s) { StuckStays(s, run[0]); }
      AlwaysRegularOrStuck(Do(s, run[0]), run[1..], t);
    }
  }

  lemma Reachable(capacity: nat, run: seq<Action>, t: Sys)
    requires capacity > 0 && IsRun(Start(capacity), run, t)
    ensures Regular(t) || Stuck(t)
  {
    AlwaysRegularOrStuck(Start(capacity), run, t);
  }

  /** Whenever a pause joins, everything accepted has been delivered and nothing is queued. */
  lemma JoinMeansDelivered(capacity: nat, run: seq<Action>, t: Sys)
    requires capacity > 0 && IsRun(Start(capacity), run, t) && Enabled(t, Join)
    ensures t.delivered == t.accepted && t.q.items == []
  {
    Reachable(capacity, run, t);
  }

  // ----- when a pause joins -----

  // The worker's remaining work.
  function Left(s: Sys): nat {
    if s.worker.Exited? then 0 else 2 * |s.q.items| + if s.worker.Printing? then 1 else 0
  }

  /** While a regular pause waits, the worker always has a step to do, each step brings it
      closer to leaving, and what the producers do changes nothing. */
  lemma PauseMakesProgress(s: Sys, a: Action)
    requires Regular(s) && s.control.Joining?
    ensures s.worker.Exited? <==> Left(s) == 0
    ensures s.worker.Exited? ==> Enabled(s, Join)
    ensures !s.worker.Exited? ==> Enabled(s, Take) || Enabled(s, Print)
    ensures Enabled(s, a) && !a.Join? ==>
              Do(s, a).control.Joining? && Regular(Do(s, a)) &&
              if a.Add? then Do(s, a) == s else Left(Do(s, a)) < Left(s)
  {
    if Enabled(s, a) { StepKeeps(s, a); }
  }

  lemma {:induction false} WorkerFinishes(s: Sys) returns (run: seq<Action>, t: Sys)
    requires Regular(s) && s.control.Joining?
    ensures IsRun(s, run, t) && Enabled(t, Join)
    decreases Left(s)
  {
    if s.worker.Exited? {
      run, t := [], s;
    } else {
      var a := if s.worker.Waiting? then Take else Print;
      PauseMakesProgress(s, a);
      run, t := WorkerFinishes(Do(s, a));
      assert ([a] + run)[1..] == run;
      run := [a] + run;
    }
  }

  ghost predicate CanJoin(s: Sys) { exists run, t :: IsRun(s, run, t) && Enabled(t, Join) }

  /** A pause can join if and only if two slots are free when it pushes its marker. */
  lemma PauseJoinsIff(s: Sys)
    requires Regular(s) && Enabled(s, PushEnd)
    ensures CanJoin(Do(s, PushEnd)) <==> |s.q.items| + 2 <= s.q.capacity
  {
    PauseKeeps(s);
    var p := Do(s, PushEnd);
    if |s.q.items| + 2 <= s.q.capacity {
      var run, t := WorkerFinishes(p);
      assert CanJoin(p);
    } else {
      forall run, t | IsRun(p, run, t)
        ensures !Enabled(t, Join)
      {
        AlwaysRegularOrStuck(p, run, t);
      }
    }
  }
}
