/** `ResourcesProxy.Serve`: one goroutine per kind, one more per namespace for kinds the
    user cannot list cluster-wide, a buffered channel, and a main goroutine that waits
    for all of them before it drains the channel. */
module ResourcesFanOut {
  import opened Counting

  datatype Reply = Listed(items: seq<string>) | Forbidden | Failed

  /** Slot 0 is the cluster-wide request of a kind; slot `i + 1` asks for `namespaces[i]`. */
  datatype Task = Task(kind: nat, slot: nat)

  /** What a goroutine sends: the list it got for its kind and namespace. */
  datatype List = List(kind: nat, namespace: string, items: seq<string>)

  datatype Request = Request(namespaced: seq<bool>, namespaces: seq<string>, reply: Task -> Reply) {
    /** Namespace names come from the cluster and are never empty. */
    ghost predicate Valid() {
      forall i :: 0 <= i < |namespaces| ==> namespaces[i] != ""
    }

    function Kinds(): nat {
      |namespaced|
    }

    ghost predicate IsTask(t: Task) {
      t.kind < Kinds() && t.slot <= |namespaces|
    }

    function Capacity(): nat {
      Kinds() * |namespaces|
    }

    function Namespace(t: Task): string {
      if 0 < t.slot <= |namespaces| then namespaces[t.slot - 1] else ""
    }

    /** The 403 branch that asks again namespace by namespace. */
    predicate FansOut(t: Task) {
      t.kind < Kinds() && reply(t).Forbidden? && namespaced[t.kind] && Namespace(t) == ""
    }

    predicate HasList(t: Task) {
      reply(t).Listed? && reply(t).items != []
    }

    function ListOf(t: Task): List {
      List(t.kind, Namespace(t), if reply(t).Listed? then reply(t).items else [])
    }
  }

  // ----- The step relation -----

  datatype Pc = Listing | Spawning(next: nat) | Sending | Finishing | Done

  datatype Main = Starting(next: nat) | Waiting | Draining | Encoded

  datatype State = State(main: Main, pcs: map<Task, Pc>, wg: int, lists: seq<List>, result: seq<List>)

  datatype Action =
    | StartKind
    | StartedAll
    | WaitOver
    | Receive
    | ChannelEmpty
    | GetReply(t: Task)
    | SpawnNamespace(t: Task)
    | SpawnedAll(t: Task)
    | Send(t: Task)
    | Finish(t: Task)

  /** `pcs` holds the goroutines started so far. */
  ghost function Start(r: Request): State {
    State(Starting(0), map[], 0, [], [])
  }

  ghost predicate At(s: State, t: Task, pc: Pc) {
    t in s.pcs && s.pcs[t] == pc
  }

  /** A send on the buffered channel waits until there is room; with capacity 0 it would
      need a receiver, and `main` receives only after every goroutine is done. */
  ghost predicate Enabled(r: Request, s: State, a: Action) {
    match a
    case StartKind => s.main.Starting? && s.main.next < r.Kinds()
    case StartedAll => s.main == Starting(r.Kinds())
    case WaitOver => s.main == Waiting && s.wg == 0
    case Receive => s.main == Draining && s.lists != []
    case ChannelEmpty => s.main == Draining && s.lists == []
    case GetReply(t) => r.IsTask(t) && At(s, t, Listing)
    case SpawnNamespace(t) =>
      r.IsTask(t) && t in s.pcs && s.pcs[t].Spawning? && s.pcs[t].next < |r.namespaces|
    case SpawnedAll(t) => r.IsTask(t) && At(s, t, Spawning(|r.namespaces|))
    case Send(t) => r.IsTask(t) && At(s, t, Sending) && r.HasList(t) && |s.lists| < r.Capacity()
    case Finish(t) => r.IsTask(t) && At(s, t, Finishing)
  }

  ghost function Apply(r: Request, s: State, a: Action): State
    requires Enabled(r, s, a)
  {
    match a
    case StartKind =>
      s.(main := Starting(s.main.next + 1), wg := s.wg + 1, pcs := s.pcs[Task(s.main.next, 0) := Listing])
    case StartedAll => s.(main := Waiting)
    case WaitOver => s.(main := Draining)
    case Receive => s.(result := s.result + [s.lists[0]], lists := s.lists[1..])
    case ChannelEmpty => s.(main := Encoded)
    case GetReply(t) => s.(pcs := s.pcs[t := AfterReply(r, t)])
    case SpawnNamespace(t) =>
      var i := s.pcs[t].next;
      s.(wg := s.wg + 1, pcs := s.pcs[t := Spawning(i + 1)][Task(t.kind, i + 1) := Listing])
    case SpawnedAll(t) => s.(pcs := s.pcs[t := Finishing])
    case Send(t) => s.(lists := s.lists + [r.ListOf(t)], pcs := s.pcs[t := Finishing])
    case Finish(t) => s.(wg := s.wg - 1, pcs := s.pcs[t := Done])
  }

  /** Where `fetchKind` goes once the API has answered. */
  ghost function AfterReply(r: Request, t: Task): Pc
    requires r.IsTask(t)
  {
    match r.reply(t)
    case Listed(items) => if |items| > 0 then Sending else Finishing
    case Forbidden => if r.namespaced[t.kind] && r.Namespace(t) == "" then Spawning(0) else Finishing
    case Failed => Finishing
  }

  /** `acts` is a schedule from the start that ends in `s`. */
  ghost predicate Reaches(r: Request, acts: seq<Action>, s: State) {
    if acts == [] then s == Start(r)
    else
      var last := |acts| - 1;
      exists p :: Reaches(r, acts[..last], p) && Enabled(r, p, acts[last]) && s == Apply(r, p, acts[last])
  }

  ghost predicate Stuck(r: Request, s: State) {
    s.main != Encoded && forall a :: !Enabled(r, s, a)
  }

  // ----- Which goroutines ever exist, and what they send -----

  /** A goroutine for `t` exists in every complete run. */
  ghost predicate Exists(r: Request, t: Task) {
    r.IsTask(t) && (t.slot == 0 || r.FansOut(Task(t.kind, 0)))
  }

  ghost function Senders(r: Request, kinds: nat): set<Task> {
    set k, i | 0 <= k < kinds && 0 <= i <= |r.namespaces|
               && Exists(r, Task(k, i)) && r.HasList(Task(k, i)) :: Task(k, i)
  }

  ghost function Bag(r: Request, ts: set<Task>): multiset<List> {
    if ts == {} then multiset{}
    else
      var t :| t in ts;
      multiset{r.ListOf(t)} + Bag(r, ts - {t})
  }

  lemma {:induction false} BagRemove(r: Request, ts: set<Task>, t: Task)
    requires t in ts
    ensures Bag(r, ts) == multiset{r.ListOf(t)} + Bag(r, ts - {t})
    decreases |ts|
  {
    var u :| u in ts && Bag(r, ts) == multiset{r.ListOf(u)} + Bag(r, ts - {u});
    if u == t {
    } else {
      BagRemove(r, ts - {u}, t);
      BagRemove(r, ts - {t}, u);
      assert ts - {u} - {t} == ts - {t} - {u};
    }
  }

  lemma {:induction false} BagSize(r: Request, ts: set<Task>)
    ensures |Bag(r, ts)| == |ts|
    decreases |ts|
  {
    if t :| t in ts {
      BagRemove(r, ts, t);
      BagSize(r, ts - {t});
    }
  }

  lemma BagAdd(r: Request, ts: set<Task>, t: Task)
    requires t !in ts
    ensures Bag(r, ts + {t}) == Bag(r, ts) + multiset{r.ListOf(t)}
  {
    BagRemove(r, ts + {t}, t);
    assert ts + {t} - {t} == ts;
  }

  lemma {:induction false} BagUnion(r: Request, a: set<Task>, b: set<Task>)
    requires a !! b
    ensures Bag(r, a + b) == Bag(r, a) + Bag(r, b)
    decreases |b|
  {
    if b == {} {
      assert a + b == a;
    } else {
      var t, rest, all := Pick(a, b);
      BagUnion(r, a, rest);
      BagAdd(r, rest, t);
      BagAdd(r, all, t);
    }
  }

  lemma Pick(a: set<Task>, b: set<Task>) returns (t: Task, rest: set<Task>, all: set<Task>)
    requires a !! b && b != {}
    ensures t !in rest && rest + {t} == b && |rest| < |b|
    ensures all == a + rest && a !! rest && t !in all && all + {t} == a + b
  {
    t :| t in b;
    rest := b - {t};
    all := a + rest;
  }

  // ----- The invariant -----

  ghost function Live(pcs: map<Task, Pc>): set<Task> {
    set t | t in pcs && pcs[t] != Done
  }

  ghost function Sent(r: Request, pcs: map<Task, Pc>): set<Task> {
    set t | t in pcs && r.HasList(t) && (pcs[t] == Finishing || pcs[t] == Done)
  }

  /** What the program counter of one goroutine says about its reply. */
  ghost predicate PcOk(r: Request, t: Task, pc: Pc) {
    && r.IsTask(t)
    && match pc
       case Sending => r.HasList(t)
       case Spawning(n) => t.slot == 0 && r.FansOut(t) && n <= |r.namespaces|
       case _ => true
  }

  /** The goroutine of a kind, now at `pc`, has started the one in slot `i`. */
  ghost predicate HasSpawned(r: Request, t: Task, pc: Pc, i: nat)
    requires r.IsTask(t)
  {
    match pc
    case Spawning(n) => i <= n
    case Finishing => r.FansOut(t)
    case Done => r.FansOut(t)
    case _ => false
  }

  ghost predicate RootsOk(r: Request, s: State) {
    && (s.main.Starting? ==> s.main.next <= r.Kinds())
    && forall k :: 0 <= k < r.Kinds() ==>
         (Task(k, 0) in s.pcs <==> !(s.main.Starting? && s.main.next <= k))
  }

  ghost predicate ChildOk(r: Request, s: State, k: nat, i: nat)
    requires k < r.Kinds()
  {
    Task(k, i) in s.pcs <==>
    Task(k, 0) in s.pcs && HasSpawned(r, Task(k, 0), s.pcs[Task(k, 0)], i)
  }

  ghost predicate TasksOk(r: Request, s: State) {
    && (forall t :: t in s.pcs ==> PcOk(r, t, s.pcs[t]))
    && RootsOk(r, s)
    && (forall k, i :: 0 <= k < r.Kinds() && 1 <= i <= |r.namespaces| ==> ChildOk(r, s, k, i))
  }

  ghost predicate CountsOk(r: Request, s: State) {
    && s.wg == |Live(s.pcs)|
    && (s.main.Draining? || s.main.Encoded? ==> Live(s.pcs) == {})
    && (s.main.Encoded? ==> s.lists == [])
    && (s.main.Starting? || s.main.Waiting? ==> s.result == [])
    && multiset(s.lists) + multiset(s.result) == Bag(r, Sent(r, s.pcs))
  }

  ghost predicate Inv(r: Request, s: State) {
    TasksOk(r, s) && CountsOk(r, s)
  }

  lemma TasksOkStep(r: Request, s: State, a: Action)
    requires r.Valid() && TasksOk(r, s) && Enabled(r, s, a)
    ensures TasksOk(r, Apply(r, s, a))
  {
    var s' := Apply(r, s, a);
    forall k, i | 0 <= k < r.Kinds() && 1 <= i <= |r.namespaces| ensures ChildOk(r, s', k, i) {
      assert ChildOk(r, s, k, i);
    }
  }

  lemma PcStarted(r: Request, pcs: map<Task, Pc>, t: Task)
    requires t !in pcs
    ensures Live(pcs[t := Listing]) == Live(pcs) + {t}
    ensures Sent(r, pcs[t := Listing]) == Sent(r, pcs)
  {
  }

  lemma PcMoved(r: Request, pcs: map<Task, Pc>, t: Task, pc: Pc)
    requires t in pcs && pcs[t] != Done && pcs[t] != Finishing
    requires pc != Done && (pc == Finishing ==> !r.HasList(t))
    ensures Live(pcs[t := pc]) == Live(pcs)
    ensures Sent(r, pcs[t := pc]) == Sent(r, pcs)
  {
  }

  lemma CountsOkStart(r: Request, s: State)
    requires TasksOk(r, s) && CountsOk(r, s) && Enabled(r, s, StartKind)
    ensures CountsOk(r, Apply(r, s, StartKind))
  {
    PcStarted(r, s.pcs, Task(s.main.next, 0));
  }

  lemma CountsOkSpawn(r: Request, s: State, t: Task)
    requires TasksOk(r, s) && CountsOk(r, s) && Enabled(r, s, SpawnNamespace(t))
    ensures CountsOk(r, Apply(r, s, SpawnNamespace(t)))
  {
    var i := s.pcs[t].next;
    var child := Task(t.kind, i + 1);
    ChildNotStarted(r, s, t);
    assert t in Live(s.pcs);
    PcMoved(r, s.pcs, t, Spawning(i + 1));
    PcStarted(r, s.pcs[t := Spawning(i + 1)], child);
  }

  lemma CountsOkSend(r: Request, s: State, t: Task)
    requires TasksOk(r, s) && CountsOk(r, s) && Enabled(r, s, Send(t))
    ensures CountsOk(r, Apply(r, s, Send(t)))
  {
    assert t in Live(s.pcs);
    PcSent(r, s.pcs, t);
    BagAdd(r, Sent(r, s.pcs), t);
    CountsKeptBySend(r, s, t);
  }

  lemma PcSent(r: Request, pcs: map<Task, Pc>, t: Task)
    requires t in pcs && pcs[t] == Sending && r.HasList(t)
    ensures Live(pcs[t := Finishing]) == Live(pcs)
    ensures t !in Sent(r, pcs) && Sent(r, pcs[t := Finishing]) == Sent(r, pcs) + {t}
  {
  }

  lemma CountsKeptBySend(r: Request, s: State, t: Task)
    requires CountsOk(r, s) && Enabled(r, s, Send(t)) && Live(s.pcs) != {}
    requires Live(s.pcs[t := Finishing]) == Live(s.pcs)
    requires Bag(r, Sent(r, s.pcs[t := Finishing])) == Bag(r, Sent(r, s.pcs)) + multiset{r.ListOf(t)}
    ensures CountsOk(r, Apply(r, s, Send(t)))
  {
    assert multiset(s.lists + [r.ListOf(t)]) == multiset(s.lists) + multiset{r.ListOf(t)};
  }

  lemma CountsOkFinish(r: Request, s: State, t: Task)
    requires CountsOk(r, s) && Enabled(r, s, Finish(t))
    ensures CountsOk(r, Apply(r, s, Finish(t)))
  {
    var s' := Apply(r, s, Finish(t));
    assert t in Live(s.pcs);
    assert Live(s'.pcs) == Live(s.pcs) - {t};
    assert Sent(r, s'.pcs) == Sent(r, s.pcs);
  }

  lemma CountsOkMove(r: Request, s: State, a: Action)
    requires TasksOk(r, s) && CountsOk(r, s) && Enabled(r, s, a) && (a.GetReply? || a.SpawnedAll?)
    ensures CountsOk(r, Apply(r, s, a))
  {
    assert a.t in Live(s.pcs) && PcOk(r, a.t, s.pcs[a.t]);
    PcMoved(r, s.pcs, a.t, if a.GetReply? then AfterReply(r, a.t) else Finishing);
  }

  lemma CountsOkMain(r: Request, s: State, a: Action)
    requires CountsOk(r, s) && Enabled(r, s, a) && (a.StartedAll? || a.WaitOver? || a.Receive? || a.ChannelEmpty?)
    ensures CountsOk(r, Apply(r, s, a))
  {
    if a.Receive? {
      assert s.lists == [s.lists[0]] + s.lists[1..];
    }
  }

  lemma CountsOkStep(r: Request, s: State, a: Action)
    requires TasksOk(r, s) && CountsOk(r, s) && Enabled(r, s, a)
    ensures CountsOk(r, Apply(r, s, a))
  {
    match a
    case StartKind => CountsOkStart(r, s);
    case SpawnNamespace(t) => CountsOkSpawn(r, s, t);
    case Send(t) => CountsOkSend(r, s, t);
    case Finish(t) => CountsOkFinish(r, s, t);
    case GetReply(_) => CountsOkMove(r, s, a);
    case SpawnedAll(_) => CountsOkMove(r, s, a);
    case _ => CountsOkMain(r, s, a);
  }

  /** In every state of every schedule the wait group counts the unfinished goroutines,
      and the channel and the result together hold exactly the lists sent so far. */
  lemma {:induction false} ReachableInv(r: Request, acts: seq<Action>, s: State)
    requires r.Valid() && Reaches(r, acts, s)
    ensures Inv(r, s)
  {
    if acts == [] {
      assert Live(s.pcs) == {} && Sent(r, s.pcs) == {};
    } else {
      var last := |acts| - 1;
      var p :| Reaches(r, acts[..last], p) && Enabled(r, p, acts[last]) && s == Apply(r, p, acts[last]);
      ReachableInv(r, acts[..last], p);
      TasksOkStep(r, p, acts[last]);
      CountsOkStep(r, p, acts[last]);
    }
  }

  // ----- No send ever waits -----

  /** The goroutines of one kind that will send: its own, or those of its namespaces. */
  ghost function KindSenders(r: Request, k: nat): set<Task> {
    set i | 0 <= i <= |r.namespaces| && Exists(r, Task(k, i)) && r.HasList(Task(k, i)) :: Task(k, i)
  }

  lemma KindSendersSplit(r: Request, k: nat)
    ensures Senders(r, k + 1) == Senders(r, k) + KindSenders(r, k)
    ensures Senders(r, k) !! KindSenders(r, k)
  {
  }

  ghost function Slots(k: nat, first: nat, count: nat): set<Task> {
    set i | first <= i < first + count :: Task(k, i)
  }

  lemma {:induction false} SlotsSize(k: nat, first: nat, count: nat)
    ensures |Slots(k, first, count)| == count
  {
    if count > 0 {
      SlotsSize(k, first, count - 1);
      assert Slots(k, first, count) == Slots(k, first, count - 1) + {Task(k, first + count - 1)};
    } else {
      assert Slots(k, first, count) == {};
    }
  }

  lemma SubsetSize(a: set<Task>, b: set<Task>)
    requires a <= b
    ensures |a| <= |b|
  {
    assert b == a + (b - a);
  }

  lemma DisjointSize(a: set<Task>, b: set<Task>)
    requires a !! b
    ensures |a + b| == |a| + |b|
  {
  }

  lemma MulStep(k: int, c: int)
    ensures (k + 1) * c == k * c + c
  {
  }

  /** A kind that got its cluster-wide list asks no namespace, so it sends at most once
      per namespace either way. */
  lemma KindSendersBound(r: Request, k: nat)
    requires r.Valid() && |r.namespaces| > 0
    ensures |KindSenders(r, k)| <= |r.namespaces|
  {
    var n := |r.namespaces|;
    if r.HasList(Task(k, 0)) {
      SlotsSize(k, 0, 1);
      SubsetSize(KindSenders(r, k), Slots(k, 0, 1));
    } else {
      SlotsSize(k, 1, n);
      SubsetSize(KindSenders(r, k), Slots(k, 1, n));
    }
  }

  lemma {:induction false} SendersBound(r: Request, kinds: nat)
    requires r.Valid() && |r.namespaces| > 0
    ensures |Senders(r, kinds)| <= kinds * |r.namespaces|
  {
    if kinds == 0 {
      assert Senders(r, 0) == {};
    } else {
      SendersBound(r, kinds - 1);
      KindSendersSplit(r, kinds - 1);
      KindSendersBound(r, kinds - 1);
      DisjointSize(Senders(r, kinds - 1), KindSenders(r, kinds - 1));
      MulStep(kinds - 1, |r.namespaces|);
    }
  }

  lemma SpawnedExist(r: Request, s: State, t: Task)
    requires TasksOk(r, s) && t in s.pcs
    ensures Exists(r, t)
  {
    assert PcOk(r, t, s.pcs[t]);
    if t.slot > 0 {
      assert ChildOk(r, s, t.kind, t.slot);
      assert PcOk(r, Task(t.kind, 0), s.pcs[Task(t.kind, 0)]);
    }
  }

  /** With at least one namespace the channel has room for every send of every
      schedule. */
  lemma SendNeverWaits(r: Request, acts: seq<Action>, s: State, t: Task)
    requires r.Valid() && |r.namespaces| > 0
    requires Reaches(r, acts, s) && At(s, t, Sending)
    ensures Enabled(r, s, Send(t))
  {
    ReachableInv(r, acts, s);
    SendingIsSender(r, s, t);
    QueuedWereSent(r, s);
    SubsetSize(Sent(r, s.pcs) + {t}, Senders(r, r.Kinds()));
    SendersBound(r, r.Kinds());
  }

  lemma SendingIsSender(r: Request, s: State, t: Task)
    requires TasksOk(r, s) && At(s, t, Sending)
    ensures r.IsTask(t) && r.HasList(t) && t !in Sent(r, s.pcs)
    ensures Sent(r, s.pcs) + {t} <= Senders(r, r.Kinds())
  {
    assert PcOk(r, t, s.pcs[t]);
    forall u | u in Sent(r, s.pcs) + {t} ensures u in Senders(r, r.Kinds()) {
      SpawnedExist(r, s, u);
    }
  }

  lemma QueuedWereSent(r: Request, s: State)
    requires CountsOk(r, s)
    ensures |s.lists| <= |Sent(r, s.pcs)|
  {
    BagSize(r, Sent(r, s.pcs));
    assert |multiset(s.lists)| == |s.lists|;
  }

  /** As long as no send waits, something can move until the response is encoded. */
  lemma SomethingMoves(r: Request, s: State) returns (a: Action)
    requires Inv(r, s) && s.main != Encoded
    requires forall t :: At(s, t, Sending) ==> Enabled(r, s, Send(t))
    ensures Enabled(r, s, a)
  {
    match s.main
    case Starting(k) => a := if k < r.Kinds() then StartKind else StartedAll;
    case Draining => a := if s.lists != [] then Receive else ChannelEmpty;
    case Waiting =>
      if s.wg == 0 {
        a := WaitOver;
      } else {
        var t :| t in Live(s.pcs);
        assert PcOk(r, t, s.pcs[t]);
        match s.pcs[t]
        case Listing => a := GetReply(t);
        case Sending =>
          a := Send(t);
          assert At(s, t, Sending);
        case Finishing => a := Finish(t);
        case Spawning(n) => a := if n < |r.namespaces| then SpawnNamespace(t) else SpawnedAll(t);
      }
  }

  /** So with at least one namespace no schedule deadlocks. */
  lemma NeverStuck(r: Request, acts: seq<Action>, s: State)
    requires r.Valid() && |r.namespaces| > 0
    requires Reaches(r, acts, s)
    ensures !Stuck(r, s)
  {
    ReachableInv(r, acts, s);
    if s.main != Encoded {
      forall t | At(s, t, Sending) ensures Enabled(r, s, Send(t)) {
        SendNeverWaits(r, acts, s, t);
      }
      var a := SomethingMoves(r, s);
    }
  }

  // ----- Every schedule ends -----

  /** Steps a goroutine has left, including those of the goroutines it may yet start. */
  ghost function Left(pc: Pc, slot: nat, n: nat): nat {
    match pc
    case Listing => if slot == 0 then 6 * n + 6 else 5
    case Spawning(i) => if i <= n then 6 * (n - i) + 3 else 0
    case Sending => 3
    case Finishing => 1
    case Done => 0
  }

  ghost function Weights(r: Request, pcs: map<Task, Pc>): map<Task, nat> {
    map t | t in pcs :: Left(pcs[t], t.slot, |r.namespaces|)
  }

  ghost function MainLeft(r: Request, m: Main): nat {
    match m
    case Starting(k) => 3 + (if k <= r.Kinds() then (r.Kinds() - k) * (6 * |r.namespaces| + 7) else 0)
    case Waiting => 2
    case Draining => 1
    case Encoded => 0
  }

  ghost function Measure(r: Request, s: State): nat {
    Total(Weights(r, s.pcs)) + |s.lists| + MainLeft(r, s.main)
  }

  lemma WeightsUpdate(r: Request, pcs: map<Task, Pc>, t: Task, pc: Pc)
    ensures var n := |r.namespaces|;
            Total(Weights(r, pcs[t := pc])) == Total(Weights(r, pcs)) + Left(pc, t.slot, n)
                                               - if t in pcs then Left(pcs[t], t.slot, n) else 0
  {
    var w := Left(pc, t.slot, |r.namespaces|);
    assert Weights(r, pcs[t := pc]) == Weights(r, pcs)[t := w];
    if t in pcs {
      TotalUpdate(Weights(r, pcs), t, w);
    } else {
      TotalInsert(Weights(r, pcs), t, w);
    }
  }

  lemma ChildNotStarted(r: Request, s: State, t: Task)
    requires TasksOk(r, s) && Enabled(r, s, SpawnNamespace(t))
    ensures t.slot == 0 && Task(t.kind, s.pcs[t].next + 1) !in s.pcs
  {
    assert PcOk(r, t, s.pcs[t]) && ChildOk(r, s, t.kind, s.pcs[t].next + 1);
  }

  lemma SpawnDrops(r: Request, s: State, t: Task)
    requires Enabled(r, s, SpawnNamespace(t))
    requires t.slot == 0 && Task(t.kind, s.pcs[t].next + 1) !in s.pcs
    ensures Measure(r, Apply(r, s, SpawnNamespace(t))) < Measure(r, s)
  {
    var i := s.pcs[t].next;
    SpawnState(r, s, t);
    SpawnWork(r, s.pcs, t, i, Task(t.kind, i + 1));
    MeasureByTasks(r, s, Apply(r, s, SpawnNamespace(t)));
  }

  lemma SpawnState(r: Request, s: State, t: Task)
    requires Enabled(r, s, SpawnNamespace(t))
    ensures var s', i := Apply(r, s, SpawnNamespace(t)), s.pcs[t].next;
            && s'.pcs == s.pcs[t := Spawning(i + 1)][Task(t.kind, i + 1) := Listing]
            && s'.main == s.main && s'.lists == s.lists
  {
  }

  lemma MeasureByTasks(r: Request, s: State, s': State)
    requires s'.main == s.main
    requires Total(Weights(r, s'.pcs)) + |s'.lists| < Total(Weights(r, s.pcs)) + |s.lists|
    ensures Measure(r, s') < Measure(r, s)
  {
  }

  lemma MeasureMoved(r: Request, s: State, s': State, t: Task, pc: Pc)
    requires t in s.pcs && s'.pcs == s.pcs[t := pc] && s'.main == s.main
    requires Left(pc, t.slot, |r.namespaces|) + |s'.lists| < Left(s.pcs[t], t.slot, |r.namespaces|) + |s.lists|
    ensures Measure(r, s') < Measure(r, s)
  {
    WeightsUpdate(r, s.pcs, t, pc);
    MeasureByTasks(r, s, s');
  }

  lemma SpawnWork(r: Request, pcs: map<Task, Pc>, t: Task, i: nat, child: Task)
    requires t in pcs && pcs[t] == Spawning(i) && i < |r.namespaces|
    requires child !in pcs && child.slot > 0
    ensures Total(Weights(r, pcs[t := Spawning(i + 1)][child := Listing])) == Total(Weights(r, pcs)) - 1
  {
    var pcs1 := pcs[t := Spawning(i + 1)];
    WeightsUpdate(r, pcs, t, Spawning(i + 1));
    WeightsUpdate(r, pcs1, child, Listing);
  }

  lemma TaskDrops(r: Request, s: State, a: Action)
    requires r.Valid() && TasksOk(r, s) && Enabled(r, s, a)
    requires a.GetReply? || a.SpawnedAll? || a.Send? || a.Finish?
    ensures Measure(r, Apply(r, s, a)) < Measure(r, s)
  {
    assert PcOk(r, a.t, s.pcs[a.t]);
    var pc := if a.GetReply? then AfterReply(r, a.t) else if a.Finish? then Done else Finishing;
    MeasureMoved(r, s, Apply(r, s, a), a.t, pc);
  }

  lemma MeasureDrops(r: Request, s: State, a: Action)
    requires r.Valid() && TasksOk(r, s) && Enabled(r, s, a)
    ensures Measure(r, Apply(r, s, a)) < Measure(r, s)
  {
    match a {
      case StartKind =>
        WeightsUpdate(r, s.pcs, Task(s.main.next, 0), Listing);
        StartKindDrops(r, s);
      case SpawnNamespace(t) =>
        ChildNotStarted(r, s, t);
        SpawnDrops(r, s, t);
      case GetReply(_) => TaskDrops(r, s, a);
      case SpawnedAll(_) => TaskDrops(r, s, a);
      case Send(_) => TaskDrops(r, s, a);
      case Finish(_) => TaskDrops(r, s, a);
      case _ =>
    }
  }

  lemma StartKindDrops(r: Request, s: State)
    requires Enabled(r, s, StartKind) && RootsOk(r, s)
    ensures MainLeft(r, s.main) == MainLeft(r, Starting(s.main.next + 1)) + 6 * |r.namespaces| + 7
  {
    MulStep(r.Kinds() - s.main.next - 1, 6 * |r.namespaces| + 7);
  }

  /** A schedule is never longer than the work there is at the start. */
  lemma {:induction false} ScheduleBound(r: Request, acts: seq<Action>, s: State)
    requires r.Valid() && Reaches(r, acts, s)
    ensures |acts| + Measure(r, s) <= Measure(r, Start(r))
  {
    if acts == [] {
    } else {
      var last := |acts| - 1;
      var p :| Reaches(r, acts[..last], p) && Enabled(r, p, acts[last]) && s == Apply(r, p, acts[last]);
      ScheduleBound(r, acts[..last], p);
      ReachableInv(r, acts[..last], p);
      MeasureDrops(r, p, acts[last]);
    }
  }

  // ----- What the response holds -----

  function Concat<T>(part: nat -> seq<T>, n: nat): seq<T> {
    if n == 0 then [] else Concat(part, n - 1) + part(n - 1)
  }

  /** The list of a kind in one namespace, if it can be read and is not empty. */
  function NamespaceList(r: Request, k: nat, i: nat): seq<List> {
    match r.reply(Task(k, i))
    case Listed(items) => if items == [] then [] else [List(k, r.Namespace(Task(k, i)), items)]
    case _ => []
  }

  /** The lists of a kind that cannot be listed cluster-wide, namespace by namespace. */
  function NamespaceLists(r: Request, k: nat): seq<List> {
    Concat(ListsByNamespace(r, k), |r.namespaces|)
  }

  function ListsByNamespace(r: Request, k: nat): nat -> seq<List> {
    (i: nat) => NamespaceList(r, k, i + 1)
  }

  function KindLists(r: Request, k: nat): seq<List> {
    match r.reply(Task(k, 0))
    case Listed(items) => if items == [] then [] else [List(k, "", items)]
    case Forbidden => if k < r.Kinds() && r.namespaced[k] then NamespaceLists(r, k) else []
    case Failed => []
  }

  function ListsByKind(r: Request): nat -> seq<List> {
    (k: nat) => KindLists(r, k)
  }

  /** Everything the user may see, kind by kind: the lists the response should hold. */
  function Visible(r: Request): seq<List> {
    Concat(ListsByKind(r), r.Kinds())
  }

  // Both the visible lists and those that goroutines send are sums of the same multisets.

  ghost function SumBags<T>(bag: nat -> multiset<T>, n: nat): multiset<T> {
    if n == 0 then multiset{} else SumBags(bag, n - 1) + bag(n - 1)
  }

  ghost function UnionOf<T>(part: nat -> set<T>, n: nat): set<T> {
    if n == 0 then {} else UnionOf(part, n - 1) + part(n - 1)
  }

  lemma {:induction false} ConcatIsSum<T>(part: nat -> seq<T>, bag: nat -> multiset<T>, n: nat)
    requires forall k: nat :: k < n ==> multiset(part(k)) == bag(k)
    ensures multiset(Concat(part, n)) == SumBags(bag, n)
  {
    if n == 0 {
    } else {
      ConcatIsSum(part, bag, n - 1);
    }
  }

  lemma {:induction false} InUnion<T>(part: nat -> set<T>, n: nat, t: T)
    ensures t in UnionOf(part, n) <==> exists k: nat :: k < n && t in part(k)
  {
    if n == 0 {
    } else {
      InUnion(part, n - 1, t);
    }
  }

  ghost predicate InPart<T>(part: nat -> set<T>, k: nat, t: T) {
    t in part(k)
  }

  /** Every element of a part knows which part it is in. */
  ghost predicate Apart<T(!new)>(part: nat -> set<T>, owner: T -> int, n: nat) {
    forall t, k: nat :: k < n && InPart(part, k, t) ==> owner(t) == k
  }

  lemma {:induction false} OwnersBelow<T(!new)>(part: nat -> set<T>, owner: T -> int, n: nat)
    requires Apart(part, owner, n)
    ensures forall t :: t in UnionOf(part, n) ==> owner(t) < n
  {
    if n == 0 {
    } else {
      OwnersBelow(part, owner, n - 1);
      forall t | t in UnionOf(part, n) ensures owner(t) < n {
        assert t in part(n - 1) ==> InPart(part, n - 1, t);
      }
    }
  }

  lemma PartApart<T(!new)>(part: nat -> set<T>, owner: T -> int, n: nat)
    requires n > 0 && Apart(part, owner, n)
    ensures UnionOf(part, n - 1) !! part(n - 1)
  {
    var k := n - 1;
    OwnersBelow(part, owner, k);
    assert forall t :: t in part(k) ==> InPart(part, k, t);
  }

  lemma BagsAdd(r: Request, a: set<Task>, b: set<Task>, all: set<Task>, x: multiset<List>, y: multiset<List>)
    requires a !! b && all == a + b && Bag(r, a) == x && Bag(r, b) == y
    ensures Bag(r, all) == x + y
  {
    BagUnion(r, a, b);
  }

  lemma {:induction false} UnionIsSum(r: Request, part: nat -> set<Task>, owner: Task -> int,
                                      bag: nat -> multiset<List>, n: nat)
    requires forall k: nat :: k < n ==> Bag(r, part(k)) == bag(k)
    requires Apart(part, owner, n)
    ensures Bag(r, UnionOf(part, n)) == SumBags(bag, n)
    decreases n
  {
    if n == 0 {
    } else {
      UnionIsSum(r, part, owner, bag, n - 1);
      PartApart(part, owner, n);
      BagsAdd(r, UnionOf(part, n - 1), part(n - 1), UnionOf(part, n), SumBags(bag, n - 1), bag(n - 1));
    }
  }

  ghost function OneSender(r: Request, t: Task): set<Task> {
    if r.HasList(t) then {t} else {}
  }

  ghost function OneBag(r: Request, t: Task): multiset<List> {
    if r.HasList(t) then multiset{r.ListOf(t)} else multiset{}
  }

  lemma OneSenderBag(r: Request, t: Task)
    ensures Bag(r, OneSender(r, t)) == OneBag(r, t)
  {
    if r.HasList(t) {
      BagAdd(r, {}, t);
      assert {} + {t} == {t};
    }
  }

  ghost function SendersByNamespace(r: Request, k: nat): nat -> set<Task> {
    (i: nat) => OneSender(r, Task(k, i + 1))
  }

  ghost function BagsByNamespace(r: Request, k: nat): nat -> multiset<List> {
    (i: nat) => OneBag(r, Task(k, i + 1))
  }

  lemma NamespaceListIs(r: Request, k: nat, i: nat)
    ensures multiset(NamespaceList(r, k, i)) == OneBag(r, Task(k, i))
  {
  }

  lemma NamespacesSend(r: Request, k: nat)
    ensures Bag(r, UnionOf(SendersByNamespace(r, k), |r.namespaces|)) == SumBags(BagsByNamespace(r, k), |r.namespaces|)
  {
    forall i: nat ensures Bag(r, SendersByNamespace(r, k)(i)) == BagsByNamespace(r, k)(i) {
      OneSenderBag(r, Task(k, i + 1));
    }
    UnionIsSum(r, SendersByNamespace(r, k), (t: Task) => t.slot - 1, BagsByNamespace(r, k), |r.namespaces|);
  }

  lemma NamespacesList(r: Request, k: nat)
    ensures multiset(NamespaceLists(r, k)) == SumBags(BagsByNamespace(r, k), |r.namespaces|)
  {
    forall i: nat ensures multiset(ListsByNamespace(r, k)(i)) == BagsByNamespace(r, k)(i) {
      NamespaceListIs(r, k, i + 1);
    }
    ConcatIsSum(ListsByNamespace(r, k), BagsByNamespace(r, k), |r.namespaces|);
  }

  /** Of the namespaces of a kind, what is sent is what should be listed. */
  lemma NamespacesListed(r: Request, k: nat)
    ensures Bag(r, UnionOf(SendersByNamespace(r, k), |r.namespaces|)) == multiset(NamespaceLists(r, k))
  {
    NamespacesSend(r, k);
    NamespacesList(r, k);
  }

  lemma KindSendersAre(r: Request, k: nat)
    requires k < r.Kinds()
    ensures var root := Task(k, 0);
            KindSenders(r, k) == if r.HasList(root) then {root}
                                 else if r.FansOut(root) then UnionOf(SendersByNamespace(r, k), |r.namespaces|) else {}
  {
    if !r.HasList(Task(k, 0)) && r.FansOut(Task(k, 0)) {
      forall t ensures t in KindSenders(r, k) <==> t in UnionOf(SendersByNamespace(r, k), |r.namespaces|) {
        InUnion(SendersByNamespace(r, k), |r.namespaces|, t);
        SentByNamespace(r, k, t);
      }
    }
  }

  lemma SentByNamespace(r: Request, k: nat, t: Task)
    ensures (exists i: nat :: i < |r.namespaces| && t in SendersByNamespace(r, k)(i))
            <==> t.kind == k && 1 <= t.slot <= |r.namespaces| && r.HasList(t)
  {
    if t.kind == k && 1 <= t.slot <= |r.namespaces| && r.HasList(t) {
      assert t == Task(k, t.slot - 1 + 1);
      assert t in SendersByNamespace(r, k)(t.slot - 1);
    }
  }

  lemma KindListsAre(r: Request, k: nat)
    requires k < r.Kinds()
    ensures var root := Task(k, 0);
            KindLists(r, k) == if r.HasList(root) then [r.ListOf(root)]
                               else if r.FansOut(root) then NamespaceLists(r, k) else []
  {
  }

  /** Of a kind, what is sent is what should be listed. */
  lemma KindListed(r: Request, k: nat)
    requires k < r.Kinds()
    ensures Bag(r, KindSenders(r, k)) == multiset(KindLists(r, k))
  {
    KindSendersAre(r, k);
    KindListsAre(r, k);
    NamespacesListed(r, k);
    OneSenderBag(r, Task(k, 0));
  }

  ghost function SendersByKind(r: Request): nat -> set<Task> {
    (k: nat) => KindSenders(r, k)
  }

  ghost function BagsByKind(r: Request): nat -> multiset<List> {
    (k: nat) => multiset(KindLists(r, k))
  }

  lemma SendersAreByKind(r: Request)
    ensures Senders(r, r.Kinds()) == UnionOf(SendersByKind(r), r.Kinds())
  {
    forall t ensures t in Senders(r, r.Kinds()) <==> t in UnionOf(SendersByKind(r), r.Kinds()) {
      InUnion(SendersByKind(r), r.Kinds(), t);
      SentByKind(r, t);
    }
  }

  lemma SentByKind(r: Request, t: Task)
    ensures (exists k: nat :: k < r.Kinds() && t in SendersByKind(r)(k)) <==> t in Senders(r, r.Kinds())
  {
    if t in Senders(r, r.Kinds()) {
      assert t in SendersByKind(r)(t.kind);
    }
  }

  lemma ByKind(r: Request, k: nat)
    requires k < r.Kinds()
    ensures Bag(r, SendersByKind(r)(k)) == BagsByKind(r)(k)
    ensures forall t :: t in SendersByKind(r)(k) ==> t.kind == k
  {
    KindListed(r, k);
  }

  /** The goroutines that send send what should be visible. */
  lemma SendersListed(r: Request)
    ensures Bag(r, Senders(r, r.Kinds())) == multiset(Visible(r))
  {
    forall k: nat | k < r.Kinds()
      ensures Bag(r, SendersByKind(r)(k)) == BagsByKind(r)(k)
      ensures forall t :: t in SendersByKind(r)(k) ==> t.kind == k
    {
      ByKind(r, k);
    }
    SendersAreByKind(r);
    UnionIsSum(r, SendersByKind(r), (t: Task) => t.kind, BagsByKind(r), r.Kinds());
    ConcatIsSum(ListsByKind(r), BagsByKind(r), r.Kinds());
  }

  lemma AllSent(r: Request, s: State)
    requires Inv(r, s) && s.main == Encoded
    ensures Sent(r, s.pcs) == Senders(r, r.Kinds())
  {
    forall t | t in Sent(r, s.pcs) ensures t in Senders(r, r.Kinds()) {
      SpawnedExist(r, s, t);
    }
    forall t | t in Senders(r, r.Kinds()) ensures t in Sent(r, s.pcs) {
      if t.slot > 0 {
        assert ChildOk(r, s, t.kind, t.slot);
        assert Task(t.kind, 0) !in Live(s.pcs);
      }
      assert t in s.pcs && t !in Live(s.pcs);
    }
  }

  /** Whatever the schedule, the encoded response holds exactly the visible lists. */
  lemma ResultIsVisible(r: Request, acts: seq<Action>, s: State)
    requires r.Valid() && Reaches(r, acts, s) && s.main == Encoded
    ensures multiset(s.result) == multiset(Visible(r))
  {
    ReachableInv(r, acts, s);
    AllSent(r, s);
    SendersListed(r);
  }

  /** What a list of the response says: it holds what the API answered for its kind, either
      for the whole cluster or, where that was forbidden for a namespaced kind, for one of
      the namespaces. */
  ghost predicate Answered(r: Request, list: List) {
    && list.kind < r.Kinds() && list.items != []
    && ((list.namespace == "" && r.reply(Task(list.kind, 0)) == Listed(list.items))
        || (r.reply(Task(list.kind, 0)) == Forbidden && r.namespaced[list.kind]
            && exists i :: 0 <= i < |r.namespaces| && r.namespaces[i] == list.namespace
                           && r.reply(Task(list.kind, i + 1)) == Listed(list.items)))
  }

  lemma {:induction false} InConcat<T>(part: nat -> seq<T>, n: nat, t: T)
    ensures t in Concat(part, n) <==> exists k: nat :: k < n && t in part(k)
  {
    if n == 0 {
    } else {
      InConcat(part, n - 1, t);
    }
  }

  lemma InKindLists(r: Request, k: nat, list: List)
    requires k < r.Kinds()
    ensures list in KindLists(r, k) <==> list.kind == k && Answered(r, list)
  {
    if r.reply(Task(k, 0)).Forbidden? && r.namespaced[k] {
      InConcat(ListsByNamespace(r, k), |r.namespaces|, list);
      if list in KindLists(r, k) {
        var i: nat :| i < |r.namespaces| && list in ListsByNamespace(r, k)(i);
        assert r.namespaces[i] == list.namespace && r.reply(Task(k, i + 1)) == Listed(list.items);
      }
      if list.kind == k && Answered(r, list) {
        var i :| 0 <= i < |r.namespaces| && r.namespaces[i] == list.namespace
                 && r.reply(Task(k, i + 1)) == Listed(list.items);
        assert list in ListsByNamespace(r, k)(i);
      }
    }
  }

  /** Whatever the schedule, exactly the lists so answered are in the response. */
  lemma ResultIsAnswered(r: Request, acts: seq<Action>, s: State, list: List)
    requires r.Valid() && Reaches(r, acts, s) && s.main == Encoded
    ensures list in s.result <==> Answered(r, list)
  {
    ResultIsVisible(r, acts, s);
    assert list in s.result <==> list in multiset(s.result);
    assert list in Visible(r) <==> list in multiset(Visible(r));
    VisibleIsAnswered(r, list);
  }

  lemma VisibleIsAnswered(r: Request, list: List)
    ensures list in Visible(r) <==> Answered(r, list)
  {
    InConcat(ListsByKind(r), r.Kinds(), list);
    if list in Visible(r) {
      var k: nat :| k < r.Kinds() && list in ListsByKind(r)(k);
      InKindLists(r, k, list);
    }
    if list.kind < r.Kinds() {
      InKindLists(r, list.kind, list);
      assert Answered(r, list) ==> list in ListsByKind(r)(list.kind);
    }
  }

  // ----- When a request can hang -----

  lemma Continue(r: Request, acts: seq<Action>, s: State, a: Action)
    requires r.Valid() && Reaches(r, acts, s) && Enabled(r, s, a)
    ensures Reaches(r, acts + [a], Apply(r, s, a))
    ensures Measure(r, Apply(r, s, a)) < Measure(r, s)
  {
    ReachableInv(r, acts, s);
    MeasureDrops(r, s, a);
    ReachesNext(r, acts, s, a);
  }

  lemma ReachesNext(r: Request, acts: seq<Action>, s: State, a: Action)
    requires Reaches(r, acts, s) && Enabled(r, s, a)
    ensures Reaches(r, acts + [a], Apply(r, s, a))
  {
    var longer := acts + [a];
    assert longer[..|longer| - 1] == acts && longer[|longer| - 1] == a;
  }

  /** Any schedule can be continued until nothing can move. */
  lemma {:induction false} Complete(r: Request, acts: seq<Action>, s: State)
    returns (acts': seq<Action>, s': State)
    requires r.Valid() && Reaches(r, acts, s)
    ensures Reaches(r, acts', s') && forall a :: !Enabled(r, s', a)
    decreases Measure(r, s)
  {
    if a :| Enabled(r, s, a) {
      Continue(r, acts, s, a);
      acts', s' := Complete(r, acts + [a], Apply(r, s, a));
    } else {
      acts', s' := acts, s;
    }
  }

  lemma {:induction false} NothingSent(r: Request, acts: seq<Action>, s: State)
    requires r.Valid() && |r.namespaces| == 0 && Reaches(r, acts, s)
    ensures s.lists == [] && s.result == []
  {
    if acts == [] {
    } else {
      var last := |acts| - 1;
      var p :| Reaches(r, acts[..last], p) && Enabled(r, p, acts[last]) && s == Apply(r, p, acts[last]);
      NothingSent(r, acts[..last], p);
    }
  }

  lemma SenderMakesBag(r: Request, ts: set<Task>, t: Task)
    requires t in ts
    ensures Bag(r, ts) != multiset{}
  {
    BagRemove(r, ts, t);
    assert r.ListOf(t) in Bag(r, ts);
  }

  /** Without a namespace, a non-empty cluster-wide list is never answered. */
  lemma NeverEncoded(r: Request, acts: seq<Action>, s: State, k: nat)
    requires r.Valid() && |r.namespaces| == 0 && k < r.Kinds() && r.HasList(Task(k, 0))
    requires Reaches(r, acts, s)
    ensures s.main != Encoded
  {
    NothingSent(r, acts, s);
    ReachableInv(r, acts, s);
    if s.main == Encoded {
      AllSent(r, s);
      SenderMakesBag(r, Senders(r, r.Kinds()), Task(k, 0));
      assert false;
    }
  }

  lemma SendingHasList(r: Request, s: State, t: Task)
    requires TasksOk(r, s) && At(s, t, Sending)
    ensures r.IsTask(t) && r.HasList(t) && t == Task(t.kind, t.slot)
  {
    assert PcOk(r, t, s.pcs[t]);
  }

  lemma FinishesWithoutLists(r: Request, acts: seq<Action>, s: State)
    requires r.Valid() && |r.namespaces| == 0 && Reaches(r, acts, s)
    requires forall k :: 0 <= k < r.Kinds() ==> !r.HasList(Task(k, 0))
    ensures !Stuck(r, s)
  {
    ReachableInv(r, acts, s);
    if s.main != Encoded {
      forall t ensures !At(s, t, Sending) {
        if At(s, t, Sending) {
          SendingHasList(r, s, t);
        }
      }
      var a := SomethingMoves(r, s);
    }
  }

  ghost predicate CanHang(r: Request) {
    exists acts, s :: Reaches(r, acts, s) && Stuck(r, s)
  }

  ghost predicate CanAnswer(r: Request) {
    exists acts, s :: Reaches(r, acts, s) && s.main == Encoded
  }

  ghost predicate SomeClusterList(r: Request) {
    exists k :: 0 <= k < r.Kinds() && r.HasList(Task(k, 0))
  }

  /** What every schedule comes to. */
  lemma EveryScheduleEnds(r: Request, acts: seq<Action>, s: State)
    requires r.Valid() && Reaches(r, acts, s)
    ensures |r.namespaces| == 0 && SomeClusterList(r) ==> s.main != Encoded
    ensures Stuck(r, s) ==> |r.namespaces| == 0 && SomeClusterList(r)
  {
    if |r.namespaces| > 0 {
      NeverStuck(r, acts, s);
    } else if SomeClusterList(r) {
      var k :| 0 <= k < r.Kinds() && r.HasList(Task(k, 0));
      NeverEncoded(r, acts, s, k);
    } else {
      FinishesWithoutLists(r, acts, s);
    }
  }

  /** A request hangs exactly when the cluster reports no namespace, so that the channel has
      no buffer, and some kind has a non-empty cluster-wide list. It then hangs in every
      schedule that goes on as long as it can, and otherwise in none. */
  lemma HangsIff(r: Request)
    requires r.Valid()
    ensures CanHang(r) <==> |r.namespaces| == 0 && SomeClusterList(r)
    ensures CanAnswer(r) <==> !CanHang(r)
  {
    forall acts, s | Reaches(r, acts, s)
      ensures |r.namespaces| == 0 && SomeClusterList(r) ==> s.main != Encoded
      ensures Stuck(r, s) ==> |r.namespaces| == 0 && SomeClusterList(r)
    {
      EveryScheduleEnds(r, acts, s);
    }
    var acts, s := Complete(r, [], Start(r));
    assert Stuck(r, s) || s.main == Encoded;
  }
}
