/** `permissionsForResource`: five access reviews, each of which may fan out over all
    namespaces, a closer goroutine, and a range loop that classifies the permissions. */
module AccessFanOut {
  import opened Counting

  datatype Review = Allowed | Denied | Errored

  /** The five questions asked; each sets one flag of the answer. */
  datatype Question = Get | Put | Delete | Logs | Exec

  datatype Permission = Permission(verb: string, subresource: string)

  datatype Flags = Flags(get: bool, put: bool, delete: bool, logs: bool, exec: bool) {
    function Flag(q: Question): bool {
      match q
      case Get => get
      case Put => put
      case Delete => delete
      case Logs => logs
      case Exec => exec
    }
  }

  /** Slot 0 reviews the requested scope; slot `i + 1` reviews `namespaces[i]`. */
  datatype Task = Task(q: Question, slot: nat)

  datatype Request = Request(namespace: string, namespaces: seq<string>, review: Task -> Review) {
    /** Namespace names come from the cluster and are never empty. */
    ghost predicate Valid() {
      forall i :: 0 <= i < |namespaces| ==> namespaces[i] != ""
    }

    function Namespace(t: Task): string {
      if 0 < t.slot <= |namespaces| then namespaces[t.slot - 1] else namespace
    }

    /** A clean denial at the cluster scope is retried in every namespace. */
    predicate FansOut(t: Task) {
      review(t) == Denied && Namespace(t) == ""
    }
  }

  function PermissionOf(q: Question): Permission {
    match q
    case Get => Permission("get", "")
    case Put => Permission("put", "")
    case Delete => Permission("delete", "")
    case Logs => Permission("get", "log")
    case Exec => Permission("get", "exec")
  }

  /** The classification in the range loop. */
  function Classify(f: Flags, p: Permission): Flags {
    if p.subresource == "log" && p.verb == "get" then f.(logs := true)
    else if p.subresource == "exec" && p.verb == "get" then f.(exec := true)
    else if p.verb == "put" then f.(put := true)
    else if p.verb == "delete" then f.(delete := true)
    else if p.verb == "get" then f.(get := true)
    else f
  }

  /** A permission sets the flag of the question it answers and no other. */
  lemma ClassifySetsOne(f: Flags, q: Question, other: Question)
    ensures Classify(f, PermissionOf(q)).Flag(other) == (f.Flag(other) || q == other)
  {
    var p := PermissionOf(q);
    assert p.verb[0] == (if q == Put then 'p' else if q == Delete then 'd' else 'g');
    assert |p.subresource| == if q == Logs then 3 else if q == Exec then 4 else 0;
  }

  /** Which permissions set which flag, whatever they are. */
  lemma ClassifyMeans(f: Flags, p: Permission)
    ensures Classify(f, p).logs <==> f.logs || (p.verb == "get" && p.subresource == "log")
    ensures Classify(f, p).exec <==> f.exec || (p.verb == "get" && p.subresource == "exec")
    ensures Classify(f, p).put <==> f.put || p.verb == "put"
    ensures Classify(f, p).delete <==> f.delete || p.verb == "delete"
    ensures Classify(f, p).get <==> f.get || (p.verb == "get" && p.subresource != "log" && p.subresource != "exec")
  {
    assert "get"[0] != "put"[0] && "get"[0] != "delete"[0] && "put"[0] != "delete"[0];
    assert "log"[0] != "exec"[0];
  }

  // ----- The step relation -----

  datatype Pc = Registered | Reviewing | Spawning(next: nat) | Sending | Finishing | Done

  datatype Main = Launching(next: nat) | Ranging | Returned

  datatype Closer = NotStarted | Waiting | Closed

  datatype State = State(main: Main, closer: Closer, pcs: map<Task, Pc>, wg: int,
                         channel: seq<Permission>, result: Flags)

  datatype Action =
    | Launch
    | StartCloser
    | Close
    | Receive
    | Return
    | GetReview(t: Task)
    | Spawn(t: Task)
    | Spawned(t: Task)
    | Send(t: Task)
    | Finish(t: Task)

  const CAPACITY := 5

  function Order(k: nat): Question {
    if k == 0 then Get else if k == 1 then Put else if k == 2 then Delete else if k == 3 then Logs else Exec
  }

  function Position(q: Question): (k: nat)
    ensures k < 5 && Order(k) == q
  {
    match q case Get => 0 case Put => 1 case Delete => 2 case Logs => 3 case Exec => 4
  }

  /** `pcs` holds the tasks counted by the wait group so far; `wg.Add(5)` comes before
      the first `go`. */
  ghost function Start(): State {
    State(Launching(0), NotStarted, map q: Question | true :: Task(q, 0) := Registered, 5, [],
          Flags(false, false, false, false, false))
  }

  ghost predicate At(s: State, t: Task, pc: Pc) {
    t in s.pcs && s.pcs[t] == pc
  }

  ghost predicate Enabled(r: Request, s: State, a: Action) {
    match a
    case Launch => s.main.Launching? && s.main.next < 5 && Task(Order(s.main.next), 0) in s.pcs
    case StartCloser => s.main == Launching(5)
    case Close => s.closer == Waiting && s.wg == 0
    case Receive => s.main == Ranging && s.channel != []
    case Return => s.main == Ranging && s.channel == [] && s.closer == Closed
    case GetReview(t) => At(s, t, Reviewing)
    case Spawn(t) => t in s.pcs && s.pcs[t].Spawning? && s.pcs[t].next < |r.namespaces|
    case Spawned(t) => At(s, t, Spawning(|r.namespaces|))
    case Send(t) => At(s, t, Sending) && |s.channel| < CAPACITY && s.closer != Closed
    case Finish(t) => At(s, t, Finishing)
  }

  /** `wg.Add(len(namespaces))` counts all the namespace tasks of a question at once. */
  ghost function Register(pcs: map<Task, Pc>, q: Question, n: nat): map<Task, Pc> {
    if n == 0 then pcs else Register(pcs, q, n - 1)[Task(q, n) := Registered]
  }

  ghost function Apply(r: Request, s: State, a: Action): State
    requires Enabled(r, s, a)
  {
    match a
    case Launch => s.(main := Launching(s.main.next + 1), pcs := s.pcs[Task(Order(s.main.next), 0) := Reviewing])
    case StartCloser => s.(main := Ranging, closer := Waiting)
    case Close => s.(closer := Closed)
    case Receive => s.(result := Classify(s.result, s.channel[0]), channel := s.channel[1..])
    case Return => s.(main := Returned)
    case GetReview(t) =>
      if r.review(t) == Allowed then s.(pcs := s.pcs[t := Sending])
      else if r.review(t) == Denied && r.Namespace(t) == "" then
        s.(wg := s.wg + |r.namespaces|, pcs := Register(s.pcs[t := Spawning(0)], t.q, |r.namespaces|))
      else s.(pcs := s.pcs[t := Finishing])
    case Spawn(t) =>
      var i := s.pcs[t].next;
      s.(pcs := s.pcs[t := Spawning(i + 1)][Task(t.q, i + 1) := Reviewing])
    case Spawned(t) => s.(pcs := s.pcs[t := Finishing])
    case Send(t) => s.(channel := s.channel + [PermissionOf(t.q)], pcs := s.pcs[t := Finishing])
    case Finish(t) => s.(wg := s.wg - 1, pcs := s.pcs[t := Done])
  }

  ghost predicate Reaches(r: Request, acts: seq<Action>, s: State) {
    if acts == [] then s == Start()
    else
      var last := |acts| - 1;
      exists p :: Reaches(r, acts[..last], p) && Enabled(r, p, acts[last]) && s == Apply(r, p, acts[last])
  }

  // ----- Where every task stands -----

  ghost predicate PcOk(r: Request, t: Task, pc: Pc) {
    && t.slot <= |r.namespaces|
    && match pc
       case Sending => r.review(t) == Allowed
       case Spawning(n) => t.slot == 0 && r.FansOut(t) && n <= |r.namespaces|
       case _ => true
  }

  /** A root task waits to be launched until main gets to it. */
  ghost predicate RootOk(s: State, q: Question) {
    && Task(q, 0) in s.pcs
    && (s.pcs[Task(q, 0)] == Registered <==> s.main.Launching? && s.main.next <= Position(q))
  }

  /** Namespace tasks exist once the root was denied, and wait for their `go`. */
  ghost predicate ChildOk(r: Request, s: State, q: Question, i: nat) {
    && Task(q, 0) in s.pcs
    && var root, child := s.pcs[Task(q, 0)], Task(q, i);
       match root
       case Spawning(n) => child in s.pcs && (s.pcs[child] == Registered <==> n < i)
       case Registered => child !in s.pcs
       case Reviewing => child !in s.pcs
       case Sending => child !in s.pcs
       case _ => if r.FansOut(Task(q, 0)) then child in s.pcs && s.pcs[child] != Registered else child !in s.pcs
  }

  ghost predicate TasksOk(r: Request, s: State) {
    && (s.main.Launching? ==> s.main.next <= 5)
    && (forall t :: t in s.pcs ==> PcOk(r, t, s.pcs[t]))
    && (forall q :: RootOk(s, q))
    && (forall q, i :: 1 <= i <= |r.namespaces| ==> ChildOk(r, s, q, i))
  }

  lemma RegisterMeaning(pcs: map<Task, Pc>, q: Question, n: nat, t: Task)
    ensures t in Register(pcs, q, n) <==> t in pcs || (t.q == q && 1 <= t.slot <= n)
    ensures t in Register(pcs, q, n) ==>
              Register(pcs, q, n)[t] == if t.q == q && 1 <= t.slot <= n then Registered else pcs[t]
  {
  }

  lemma TasksOkReview(r: Request, s: State, t: Task)
    requires r.Valid() && TasksOk(r, s) && Enabled(r, s, GetReview(t))
    ensures TasksOk(r, Apply(r, s, GetReview(t)))
  {
    var s', n := Apply(r, s, GetReview(t)), |r.namespaces|;
    assert PcOk(r, t, s.pcs[t]);
    if r.FansOut(t) {
      forall u ensures u in s'.pcs ==> PcOk(r, u, s'.pcs[u]) {
        RegisterMeaning(s.pcs[t := Spawning(0)], t.q, n, u);
      }
      forall q ensures RootOk(s', q) {
        assert RootOk(s, q);
        RegisterMeaning(s.pcs[t := Spawning(0)], t.q, n, Task(q, 0));
      }
      forall q, i | 1 <= i <= n ensures ChildOk(r, s', q, i) {
        assert ChildOk(r, s, q, i) && RootOk(s, q);
        RegisterMeaning(s.pcs[t := Spawning(0)], t.q, n, Task(q, 0));
        RegisterMeaning(s.pcs[t := Spawning(0)], t.q, n, Task(q, i));
      }
    } else {
      forall q ensures RootOk(s', q) {
        assert RootOk(s, q);
      }
      forall q, i | 1 <= i <= n ensures ChildOk(r, s', q, i) {
        assert ChildOk(r, s, q, i);
      }
    }
  }

  lemma TasksOkStep(r: Request, s: State, a: Action)
    requires r.Valid() && TasksOk(r, s) && Enabled(r, s, a)
    ensures TasksOk(r, Apply(r, s, a))
  {
    if a.GetReview? {
      TasksOkReview(r, s, a.t);
    } else {
      var s' := Apply(r, s, a);
      forall q ensures RootOk(s', q) {
        assert RootOk(s, q);
      }
      forall q, i | 1 <= i <= |r.namespaces| ensures ChildOk(r, s', q, i) {
        assert ChildOk(r, s, q, i) && RootOk(s, q);
      }
    }
  }

  // ----- The wait group, the channel and the closer -----

  ghost function Unfinished(pcs: map<Task, Pc>): set<Task> {
    set t | t in pcs && pcs[t] != Done
  }

  ghost predicate WaitOk(s: State) {
    && s.wg == |Unfinished(s.pcs)|
    && (s.main.Launching? <==> s.closer == NotStarted)
    && (s.closer == Closed ==> Unfinished(s.pcs) == {})
    && (s.main == Returned ==> s.closer == Closed && s.channel == [])
  }

  lemma UnfinishedMoved(pcs: map<Task, Pc>, t: Task, pc: Pc)
    requires t in pcs && pcs[t] != Done && pc != Done
    ensures Unfinished(pcs[t := pc]) == Unfinished(pcs)
  {
  }

  lemma {:induction false} UnfinishedRegistered(pcs: map<Task, Pc>, q: Question, n: nat)
    requires forall i :: 1 <= i <= n ==> Task(q, i) !in pcs
    ensures |Unfinished(Register(pcs, q, n))| == |Unfinished(pcs)| + n
  {
    if n == 0 {
    } else {
      UnfinishedRegistered(pcs, q, n - 1);
      RegisterMeaning(pcs, q, n - 1, Task(q, n));
      UnfinishedAdded(Register(pcs, q, n - 1), Task(q, n));
    }
  }

  lemma UnfinishedAdded(pcs: map<Task, Pc>, t: Task)
    requires t !in pcs
    ensures |Unfinished(pcs[t := Registered])| == |Unfinished(pcs)| + 1
  {
    assert Unfinished(pcs[t := Registered]) == Unfinished(pcs) + {t};
  }

  lemma NoChildrenYet(r: Request, s: State, t: Task)
    requires r.Valid() && TasksOk(r, s) && Enabled(r, s, GetReview(t)) && r.FansOut(t)
    ensures t.slot == 0 && forall i :: 1 <= i <= |r.namespaces| ==> Task(t.q, i) !in s.pcs
  {
    assert PcOk(r, t, s.pcs[t]) && t == Task(t.q, t.slot);
    forall i | 1 <= i <= |r.namespaces| ensures Task(t.q, i) !in s.pcs {
      assert ChildOk(r, s, t.q, i);
    }
  }

  lemma WaitOkReview(r: Request, s: State, t: Task)
    requires r.Valid() && TasksOk(r, s) && WaitOk(s) && Enabled(r, s, GetReview(t))
    ensures WaitOk(Apply(r, s, GetReview(t)))
    ensures s.wg > 0
  {
    assert t in Unfinished(s.pcs);
    if r.FansOut(t) {
      NoChildrenYet(r, s, t);
      UnfinishedMoved(s.pcs, t, Spawning(0));
      UnfinishedRegistered(s.pcs[t := Spawning(0)], t.q, |r.namespaces|);
    } else {
      UnfinishedMoved(s.pcs, t, if r.review(t) == Allowed then Sending else Finishing);
    }
  }

  lemma WaitOkSpawn(r: Request, s: State, t: Task)
    requires TasksOk(r, s) && WaitOk(s) && Enabled(r, s, Spawn(t))
    ensures WaitOk(Apply(r, s, Spawn(t)))
  {
    var i := s.pcs[t].next;
    assert PcOk(r, t, s.pcs[t]) && ChildOk(r, s, t.q, i + 1);
    assert t in Unfinished(s.pcs);
    UnfinishedMoved(s.pcs, t, Spawning(i + 1));
    UnfinishedMoved(s.pcs[t := Spawning(i + 1)], Task(t.q, i + 1), Reviewing);
  }

  lemma WaitOkFinish(r: Request, s: State, t: Task)
    requires WaitOk(s) && Enabled(r, s, Finish(t))
    ensures WaitOk(Apply(r, s, Finish(t)))
    ensures s.wg > 0
  {
    assert t in Unfinished(s.pcs);
    assert Unfinished(s.pcs[t := Done]) == Unfinished(s.pcs) - {t};
  }

  lemma WaitOkStep(r: Request, s: State, a: Action)
    requires r.Valid() && TasksOk(r, s) && WaitOk(s) && Enabled(r, s, a)
    ensures WaitOk(Apply(r, s, a))
  {
    match a
    case GetReview(t) => WaitOkReview(r, s, t);
    case Spawn(t) => WaitOkSpawn(r, s, t);
    case Finish(t) => WaitOkFinish(r, s, t);
    case Spawned(t) =>
      assert t in Unfinished(s.pcs);
      UnfinishedMoved(s.pcs, t, Finishing);
    case Send(t) =>
      assert t in Unfinished(s.pcs);
      UnfinishedMoved(s.pcs, t, Finishing);
    case Launch =>
      var root := Task(Order(s.main.next), 0);
      assert RootOk(s, root.q);
      UnfinishedMoved(s.pcs, root, Reviewing);
    case _ =>
  }

  // ----- The flags -----

  /** Some allowed review of question `q` has got past its send. */
  ghost predicate SentFor(r: Request, pcs: map<Task, Pc>, q: Question) {
    exists t :: t in pcs && t.q == q && r.review(t) == Allowed && (pcs[t] == Finishing || pcs[t] == Done)
  }

  ghost predicate FlagsOk(r: Request, s: State) {
    && (forall p :: p in s.channel ==> exists q :: p == PermissionOf(q))
    && (forall q :: s.result.Flag(q) || PermissionOf(q) in s.channel <==> SentFor(r, s.pcs, q))
  }

  lemma PermissionsDiffer(q: Question, other: Question)
    ensures PermissionOf(q) == PermissionOf(other) ==> q == other
  {
    ClassifySetsOne(Flags(false, false, false, false, false), q, other);
    ClassifySetsOne(Flags(false, false, false, false, false), other, other);
  }

  lemma FlagsOkReceive(r: Request, s: State)
    requires FlagsOk(r, s) && Enabled(r, s, Receive)
    ensures FlagsOk(r, Apply(r, s, Receive))
  {
    var s' := Apply(r, s, Receive);
    assert s.channel[0] in s.channel;
    var sent :| s.channel[0] == PermissionOf(sent);
    var rest := s.channel[1..];
    assert s.channel == [s.channel[0]] + rest;
    assert forall p :: p in s.channel <==> p == s.channel[0] || p in rest;
    forall q ensures s'.result.Flag(q) || PermissionOf(q) in s'.channel <==> SentFor(r, s'.pcs, q) {
      ClassifySetsOne(s.result, sent, q);
      PermissionsDiffer(q, sent);
    }
  }

  lemma FlagsOkSend(r: Request, s: State, t: Task)
    requires TasksOk(r, s) && FlagsOk(r, s) && Enabled(r, s, Send(t))
    ensures FlagsOk(r, Apply(r, s, Send(t)))
  {
    var s' := Apply(r, s, Send(t));
    assert PcOk(r, t, s.pcs[t]);
    forall q ensures s'.result.Flag(q) || PermissionOf(q) in s'.channel <==> SentFor(r, s'.pcs, q) {
      PermissionsDiffer(q, t.q);
      SentForUpdate(r, s.pcs, t, Finishing, q);
    }
  }

  lemma SentForUpdate(r: Request, pcs: map<Task, Pc>, t: Task, pc: Pc, q: Question)
    requires t in pcs ==> pcs[t] != Done && (pcs[t] == Finishing ==> pc == Done)
    ensures SentFor(r, pcs[t := pc], q) <==>
            SentFor(r, pcs, q) || (t.q == q && r.review(t) == Allowed && (pc == Finishing || pc == Done))
  {
    if u :| u in pcs && u.q == q && r.review(u) == Allowed && (pcs[u] == Finishing || pcs[u] == Done) {
      assert u in pcs[t := pc];
    }
  }

  lemma SentForRegister(r: Request, pcs: map<Task, Pc>, q': Question, n: nat, q: Question)
    requires forall i :: 1 <= i <= n ==> Task(q', i) !in pcs
    ensures SentFor(r, Register(pcs, q', n), q) <==> SentFor(r, pcs, q)
  {
    forall t ensures t in pcs ==> t in Register(pcs, q', n) && Register(pcs, q', n)[t] == pcs[t] {
      RegisterMeaning(pcs, q', n, t);
    }
    forall t ensures t in Register(pcs, q', n) && t !in pcs ==> Register(pcs, q', n)[t] == Registered {
      RegisterMeaning(pcs, q', n, t);
    }
  }

  lemma FlagsOkReview(r: Request, s: State, t: Task)
    requires r.Valid() && TasksOk(r, s) && FlagsOk(r, s) && Enabled(r, s, GetReview(t))
    ensures FlagsOk(r, Apply(r, s, GetReview(t)))
  {
    var s' := Apply(r, s, GetReview(t));
    if r.FansOut(t) {
      NoChildrenYet(r, s, t);
    }
    forall q ensures SentFor(r, s'.pcs, q) == SentFor(r, s.pcs, q) {
      if r.FansOut(t) {
        SentForUpdate(r, s.pcs, t, Spawning(0), q);
        SentForRegister(r, s.pcs[t := Spawning(0)], t.q, |r.namespaces|, q);
      } else {
        SentForUpdate(r, s.pcs, t, if r.review(t) == Allowed then Sending else Finishing, q);
      }
    }
  }

  lemma FlagsOkSpawn(r: Request, s: State, t: Task)
    requires TasksOk(r, s) && FlagsOk(r, s) && Enabled(r, s, Spawn(t))
    ensures FlagsOk(r, Apply(r, s, Spawn(t)))
  {
    var i := s.pcs[t].next;
    assert PcOk(r, t, s.pcs[t]) && ChildOk(r, s, t.q, i + 1);
    forall q ensures SentFor(r, Apply(r, s, Spawn(t)).pcs, q) == SentFor(r, s.pcs, q) {
      SentForUpdate(r, s.pcs, t, Spawning(i + 1), q);
      SentForUpdate(r, s.pcs[t := Spawning(i + 1)], Task(t.q, i + 1), Reviewing, q);
    }
  }

  lemma FlagsOkStep(r: Request, s: State, a: Action)
    requires r.Valid() && TasksOk(r, s) && FlagsOk(r, s) && Enabled(r, s, a)
    ensures FlagsOk(r, Apply(r, s, a))
  {
    match a
    case GetReview(t) => FlagsOkReview(r, s, t);
    case Spawn(t) => FlagsOkSpawn(r, s, t);
    case Send(t) => FlagsOkSend(r, s, t);
    case Receive => FlagsOkReceive(r, s);
    case Launch =>
      var root := Task(Order(s.main.next), 0);
      assert RootOk(s, root.q);
      forall q { SentForUpdate(r, s.pcs, root, Reviewing, q); }
    case Spawned(t) =>
      assert PcOk(r, t, s.pcs[t]);
      forall q { SentForUpdate(r, s.pcs, t, Finishing, q); }
    case Finish(t) => forall q { SentForUpdate(r, s.pcs, t, Done, q); }
    case _ =>
  }

  // ----- Every reachable state -----

  ghost predicate Inv(r: Request, s: State) {
    TasksOk(r, s) && WaitOk(s) && FlagsOk(r, s)
  }

  lemma InvStart(r: Request)
    ensures Inv(r, Start())
  {
    var s := Start();
    var roots := {Task(Get, 0), Task(Put, 0), Task(Delete, 0), Task(Logs, 0), Task(Exec, 0)};
    forall t ensures t in Unfinished(s.pcs) <==> t in roots {
      assert t in s.pcs <==> t == Task(t.q, 0);
      assert t.q == Get || t.q == Put || t.q == Delete || t.q == Logs || t.q == Exec;
    }
    assert Unfinished(s.pcs) == roots;
    assert |roots| == 5;
    forall q, i | 1 <= i <= |r.namespaces| ensures ChildOk(r, s, q, i) {
      assert s.pcs[Task(q, 0)] == Registered;
    }
  }

  lemma {:induction false} ReachableInv(r: Request, acts: seq<Action>, s: State)
    requires r.Valid() && Reaches(r, acts, s)
    ensures Inv(r, s)
  {
    if acts == [] {
      InvStart(r);
    } else {
      var last := |acts| - 1;
      var p :| Reaches(r, acts[..last], p) && Enabled(r, p, acts[last]) && s == Apply(r, p, acts[last]);
      ReachableInv(r, acts[..last], p);
      TasksOkStep(r, p, acts[last]);
      WaitOkStep(r, p, acts[last]);
      FlagsOkStep(r, p, acts[last]);
    }
  }

  /** In every reachable state the counter is the number of unfinished tasks; a task adds
      to it, and finishes, only while it is positive; and once the channel is closed no
      task is left that could send. */
  lemma WaitGroupUse(r: Request, acts: seq<Action>, s: State, t: Task)
    requires r.Valid() && Reaches(r, acts, s)
    ensures s.wg == |Unfinished(s.pcs)|
    ensures At(s, t, Reviewing) || At(s, t, Finishing) ==> s.wg > 0
    ensures At(s, t, Sending) ==> s.closer != Closed
    ensures s.closer == Closed ==> forall a :: Enabled(r, s, a) ==> a == Receive || a == Return
  {
    ReachableInv(r, acts, s);
    if t in s.pcs && s.pcs[t] != Done {
      assert t in Unfinished(s.pcs);
    }
    if s.closer == Closed {
      assert forall u :: u in s.pcs ==> u !in Unfinished(s.pcs);
    }
  }

  // ----- The answer does not depend on the schedule -----

  /** What a flag means: the review at the requested scope was allowed, or that scope was
      the cluster, the review was cleanly denied, and some namespace's review was
      allowed. */
  ghost predicate Granted(r: Request, q: Question) {
    || r.review(Task(q, 0)) == Allowed
    || (r.namespace == "" && r.review(Task(q, 0)) == Denied
        && exists i :: 1 <= i <= |r.namespaces| && r.review(Task(q, i)) == Allowed)
  }

  lemma SentIsGranted(r: Request, s: State, q: Question)
    requires r.Valid() && Inv(r, s) && s.main == Returned
    ensures SentFor(r, s.pcs, q) <==> Granted(r, q)
  {
    var root := Task(q, 0);
    assert RootOk(s, q) && root !in Unfinished(s.pcs);
    if SentFor(r, s.pcs, q) {
      var t :| t in s.pcs && t.q == q && r.review(t) == Allowed && (s.pcs[t] == Finishing || s.pcs[t] == Done);
      assert PcOk(r, t, s.pcs[t]) && t == Task(q, t.slot);
      if t.slot > 0 {
        assert ChildOk(r, s, q, t.slot);
      }
    }
    if i :| 1 <= i <= |r.namespaces| && r.review(Task(q, i)) == Allowed && r.FansOut(root) {
      assert ChildOk(r, s, q, i) && Task(q, i) !in Unfinished(s.pcs);
    }
  }

  /** Every schedule that returns sets exactly the granted flags. */
  lemma FlagsAreGranted(r: Request, acts: seq<Action>, s: State, q: Question)
    requires r.Valid() && Reaches(r, acts, s) && s.main == Returned
    ensures s.result.Flag(q) <==> Granted(r, q)
  {
    ReachableInv(r, acts, s);
    SentIsGranted(r, s, q);
  }

  /** Access with this verb and subresource was granted. */
  ghost predicate Grants(r: Request, verb: string, subresource: string) {
    exists q :: PermissionOf(q) == Permission(verb, subresource) && Granted(r, q)
  }

  lemma GrantsOne(r: Request, q: Question)
    ensures Grants(r, PermissionOf(q).verb, PermissionOf(q).subresource) <==> Granted(r, q)
  {
    forall other | PermissionOf(other) == PermissionOf(q) ensures other == q {
      ClassifySetsOne(Flags(false, false, false, false, false), q, other);
      ClassifySetsOne(Flags(false, false, false, false, false), other, other);
    }
  }

  /** So each field of the answer tells whether the verb it is named after was granted, on
      the resource or on the subresource of pods. */
  lemma AnswerMeans(r: Request, acts: seq<Action>, s: State)
    requires r.Valid() && Reaches(r, acts, s) && s.main == Returned
    ensures s.result.get <==> Grants(r, "get", "")
    ensures s.result.put <==> Grants(r, "put", "")
    ensures s.result.delete <==> Grants(r, "delete", "")
    ensures s.result.logs <==> Grants(r, "get", "log")
    ensures s.result.exec <==> Grants(r, "get", "exec")
  {
    forall q ensures s.result.Flag(q) <==> Grants(r, PermissionOf(q).verb, PermissionOf(q).subresource) {
      FlagsAreGranted(r, acts, s, q);
      GrantsOne(r, q);
    }
    assert s.result.Flag(Get) == s.result.get && s.result.Flag(Put) == s.result.put;
    assert s.result.Flag(Delete) == s.result.delete && s.result.Flag(Logs) == s.result.logs;
    assert s.result.Flag(Exec) == s.result.exec;
  }

  /** Never more permissions wait than the channel holds, in every schedule. */
  lemma {:induction false} ChannelFits(r: Request, acts: seq<Action>, s: State)
    requires Reaches(r, acts, s)
    ensures |s.channel| <= 5
  {
    if acts == [] {
    } else {
      var last := |acts| - 1;
      var p :| Reaches(r, acts[..last], p) && Enabled(r, p, acts[last]) && s == Apply(r, p, acts[last]);
      ChannelFits(r, acts[..last], p);
    }
  }

  // ----- No deadlock -----

  lemma SomethingMoves(r: Request, s: State) returns (a: Action)
    requires Inv(r, s) && s.main != Returned
    ensures Enabled(r, s, a)
  {
    if s.main.Launching? {
      assert s.main.next < 5 ==> RootOk(s, Order(s.main.next));
      a := if s.main.next < 5 then Launch else StartCloser;
    } else if s.channel != [] {
      a := Receive;
    } else if s.closer == Closed {
      a := Return;
    } else if s.wg == 0 {
      a := Close;
    } else {
      var t :| t in Unfinished(s.pcs);
      a := TaskMoves(r, s, t);
    }
  }

  lemma TaskMoves(r: Request, s: State, t: Task) returns (a: Action)
    requires Inv(r, s) && s.main == Ranging && s.channel == [] && s.closer != Closed
    requires t in s.pcs && s.pcs[t] != Done
    ensures Enabled(r, s, a)
  {
    assert PcOk(r, t, s.pcs[t]) && RootOk(s, t.q) && t == Task(t.q, t.slot);
    match s.pcs[t]
    case Registered =>
      assert ChildOk(r, s, t.q, t.slot);
      a := Spawn(Task(t.q, 0));
    case Reviewing => a := GetReview(t);
    case Spawning(n) => a := if n < |r.namespaces| then Spawn(t) else Spawned(t);
    case Sending => a := Send(t);
    case Finishing => a := Finish(t);
  }

  /** Until the answer is returned some goroutine can move, in every reachable state. */
  lemma NeverStuck(r: Request, acts: seq<Action>, s: State)
    requires r.Valid() && Reaches(r, acts, s) && s.main != Returned
    ensures exists a :: Enabled(r, s, a)
  {
    ReachableInv(r, acts, s);
    var a := SomethingMoves(r, s);
  }

  // ----- Every schedule ends -----

  ghost function Left(pc: Pc, slot: nat, n: nat): nat {
    match pc
    case Registered => if slot == 0 then 6 * n + 6 else 5
    case Reviewing => if slot == 0 then 6 * n + 5 else 4
    case Spawning(i) => if i <= n then n - i + 2 else 0
    case Sending => 3
    case Finishing => 1
    case Done => 0
  }

  ghost function Weights(r: Request, pcs: map<Task, Pc>): map<Task, nat> {
    map t | t in pcs :: Left(pcs[t], t.slot, |r.namespaces|)
  }

  ghost function Work(r: Request, pcs: map<Task, Pc>): nat {
    Total(Weights(r, pcs))
  }

  ghost function Measure(r: Request, s: State): nat {
    Work(r, s.pcs) + |s.channel|
    + (match s.main case Launching(_) => 2 case Ranging => 1 case Returned => 0)
    + (if s.closer == Closed then 0 else 1)
  }

  lemma WorkUpdate(r: Request, pcs: map<Task, Pc>, t: Task, pc: Pc)
    ensures var n := |r.namespaces|;
            Work(r, pcs[t := pc]) == Work(r, pcs) + Left(pc, t.slot, n)
                                     - if t in pcs then Left(pcs[t], t.slot, n) else 0
  {
    var w := Left(pc, t.slot, |r.namespaces|);
    assert Weights(r, pcs[t := pc]) == Weights(r, pcs)[t := w];
    if t in pcs {
      TotalUpdate(Weights(r, pcs), t, w);
    } else {
      TotalInsert(Weights(r, pcs), t, w);
    }
  }

  lemma {:induction false} WorkRegister(r: Request, pcs: map<Task, Pc>, q: Question, n: nat)
    requires forall i :: 1 <= i <= n ==> Task(q, i) !in pcs
    ensures Work(r, Register(pcs, q, n)) == Work(r, pcs) + 5 * n
  {
    if n == 0 {
    } else {
      WorkRegister(r, pcs, q, n - 1);
      RegisterMeaning(pcs, q, n - 1, Task(q, n));
      WorkUpdate(r, Register(pcs, q, n - 1), Task(q, n), Registered);
    }
  }

  lemma MeasureByWork(r: Request, s: State, s': State)
    requires s'.main == s.main && s'.closer == s.closer
    requires Work(r, s'.pcs) + |s'.channel| < Work(r, s.pcs) + |s.channel|
    ensures Measure(r, s') < Measure(r, s)
  {
  }

  lemma MeasureMoved(r: Request, s: State, s': State, t: Task, pc: Pc)
    requires t in s.pcs && s'.pcs == s.pcs[t := pc] && s'.main == s.main && s'.closer == s.closer
    requires Left(pc, t.slot, |r.namespaces|) + |s'.channel| < Left(s.pcs[t], t.slot, |r.namespaces|) + |s.channel|
    ensures Measure(r, s') < Measure(r, s)
  {
    WorkUpdate(r, s.pcs, t, pc);
    MeasureByWork(r, s, s');
  }

  lemma FanOutDrops(r: Request, s: State, t: Task)
    requires r.Valid() && TasksOk(r, s) && Enabled(r, s, GetReview(t)) && r.FansOut(t)
    ensures Measure(r, Apply(r, s, GetReview(t))) < Measure(r, s)
  {
    NoChildrenYet(r, s, t);
    WorkUpdate(r, s.pcs, t, Spawning(0));
    WorkRegister(r, s.pcs[t := Spawning(0)], t.q, |r.namespaces|);
    MeasureByWork(r, s, Apply(r, s, GetReview(t)));
  }

  lemma ReviewDrops(r: Request, s: State, t: Task)
    requires r.Valid() && TasksOk(r, s) && Enabled(r, s, GetReview(t))
    ensures Measure(r, Apply(r, s, GetReview(t))) < Measure(r, s)
  {
    if r.FansOut(t) {
      FanOutDrops(r, s, t);
    } else {
      MeasureMoved(r, s, Apply(r, s, GetReview(t)), t, if r.review(t) == Allowed then Sending else Finishing);
    }
  }

  lemma SpawnWork(r: Request, pcs: map<Task, Pc>, t: Task, i: nat, child: Task)
    requires t in pcs && pcs[t] == Spawning(i) && i < |r.namespaces|
    requires child in pcs && pcs[child] == Registered && child.slot > 0
    ensures Work(r, pcs[t := Spawning(i + 1)][child := Reviewing]) == Work(r, pcs) - 2
  {
    WorkUpdate(r, pcs, t, Spawning(i + 1));
    WorkUpdate(r, pcs[t := Spawning(i + 1)], child, Reviewing);
  }

  lemma SpawnDrops(r: Request, s: State, t: Task)
    requires TasksOk(r, s) && Enabled(r, s, Spawn(t))
    ensures Measure(r, Apply(r, s, Spawn(t))) < Measure(r, s)
  {
    var i := s.pcs[t].next;
    ChildRegistered(r, s, t);
    SpawnState(r, s, t);
    SpawnWork(r, s.pcs, t, i, Task(t.q, i + 1));
    MeasureByWork(r, s, Apply(r, s, Spawn(t)));
  }

  lemma ChildRegistered(r: Request, s: State, t: Task)
    requires TasksOk(r, s) && Enabled(r, s, Spawn(t))
    ensures At(s, Task(t.q, s.pcs[t].next + 1), Registered)
  {
    assert PcOk(r, t, s.pcs[t]) && ChildOk(r, s, t.q, s.pcs[t].next + 1);
  }

  lemma SpawnState(r: Request, s: State, t: Task)
    requires Enabled(r, s, Spawn(t))
    ensures var s', i := Apply(r, s, Spawn(t)), s.pcs[t].next;
            && s'.pcs == s.pcs[t := Spawning(i + 1)][Task(t.q, i + 1) := Reviewing]
            && s'.main == s.main && s'.closer == s.closer && s'.channel == s.channel
  {
  }

  lemma TaskDrops(r: Request, s: State, a: Action)
    requires Enabled(r, s, a) && (a.Spawned? || a.Send? || a.Finish?)
    ensures Measure(r, Apply(r, s, a)) < Measure(r, s)
  {
    MeasureMoved(r, s, Apply(r, s, a), a.t, if a.Finish? then Done else Finishing);
  }

  lemma LaunchDrops(r: Request, s: State)
    requires TasksOk(r, s) && Enabled(r, s, Launch)
    ensures Measure(r, Apply(r, s, Launch)) < Measure(r, s)
  {
    var root := Task(Order(s.main.next), 0);
    assert RootOk(s, root.q);
    WorkUpdate(r, s.pcs, root, Reviewing);
  }

  lemma MeasureDrops(r: Request, s: State, a: Action)
    requires r.Valid() && TasksOk(r, s) && WaitOk(s) && Enabled(r, s, a)
    ensures Measure(r, Apply(r, s, a)) < Measure(r, s)
  {
    match a
    case Launch => LaunchDrops(r, s);
    case GetReview(t) => ReviewDrops(r, s, t);
    case Spawn(t) => SpawnDrops(r, s, t);
    case Spawned(_) => TaskDrops(r, s, a);
    case Send(_) => TaskDrops(r, s, a);
    case Finish(_) => TaskDrops(r, s, a);
    case _ =>
  }

  /** A schedule is never longer than the work there is at the start. */
  lemma {:induction false} ScheduleBound(r: Request, acts: seq<Action>, s: State)
    requires r.Valid() && Reaches(r, acts, s)
    ensures |acts| + Measure(r, s) <= Measure(r, Start())
  {
    if acts == [] {
    } else {
      var last := |acts| - 1;
      var p :| Reaches(r, acts[..last], p) && Enabled(r, p, acts[last]) && s == Apply(r, p, acts[last]);
      ScheduleBound(r, acts[..last], p);
      ReachableInv(r, acts[..last], p);
      MeasureDrops(r, p, acts[last]);
    }
  }
}
