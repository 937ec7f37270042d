/** The aggregated watch: one reader for each backend socket, one channel, one writer to the
    client, and the handler that closes the sockets in the end. */
module WatchAggregator {
  import opened Counting

  type Message(0, ==, !new)

  /** A message, and which backend it came from. */
  datatype Item = Item(from: nat, message: Message)

  datatype Reader = Waiting | Holding(message: Message) | Failing | Gone

  /** After a failed write, which may have lost a message, the writer sends the error and
      then, in its deferred function, another one; each send needs the slot. */
  datatype Writer =
    | NotStarted
    | Idle
    | Writing(item: Item)
    | Reporting(lost: seq<Item>)
    | Leaving(lost: seq<Item>)
    | Ended(lost: seq<Item>)

  /** The goroutine that reads pings and pongs from the client, and sends one error. */
  datatype ClientReader = Unstarted | Reading | Telling | Over

  datatype Main = Connecting | Serving | Stopping | Finished

  /** `sent` is what each backend has sent so far, `taken` how much of it its reader has
      taken from the socket; the sockets below `closed` are closed. `errors` backend errors
      and `outErrors` errors of the client's side wait in their channels. */
  datatype State = State(
    sent: seq<seq<Message>>,
    taken: seq<nat>,
    readers: seq<Reader>,
    closed: nat,
    queue: seq<Item>,
    writer: Writer,
    client: seq<Item>,
    clientReader: ClientReader,
    errors: nat,
    outErrors: nat,
    main: Main)

  datatype Action =
    | Produce(b: nat, message: Message)
    | Read(b: nat)
    | Forward(b: nat)
    | ReadError(b: nat)
    | Report(b: nat)
    | StartWriter
    | Take
    | Write
    | GiveUp
    | ReportWrite
    | ReportClosed
    | ClientError
    | ReportClient
    | Notice
    | StopNext
    | Finish

  /** The slots of the channel of messages; of the channel of backend errors, which nobody
      empties; and of the channel of the client's side, which is emptied once. */
  const QUEUE_SLOTS := 32
  const ERROR_SLOTS := 50
  const OUT_ERROR_SLOTS := 1

  ghost function Start(n: nat): State {
    State(seq(n, _ => []), seq(n, _ => 0), seq(n, _ => Waiting), 0, [], NotStarted, [], Unstarted, 0, 0, Connecting)
  }

  ghost predicate Shaped(n: nat, s: State) {
    && |s.sent| == |s.taken| == |s.readers| == n
    && s.closed <= n
    && forall b :: 0 <= b < n ==> s.taken[b] <= |s.sent[b]|
  }

  ghost predicate Enabled(n: nat, s: State, a: Action)
    requires Shaped(n, s)
  {
    match a
    case Produce(b, _) => b < n
    case Read(b) => b < n && s.readers[b] == Waiting && b >= s.closed && s.taken[b] < |s.sent[b]|
    case Forward(b) => b < n && s.readers[b].Holding? && |s.queue| < QUEUE_SLOTS
    case ReadError(b) => b < n && s.readers[b] == Waiting
    case Report(b) => b < n && s.readers[b] == Failing && s.errors < ERROR_SLOTS
    case StartWriter => s.main == Connecting && s.writer == NotStarted && s.clientReader == Unstarted
    case Take => s.writer == Idle && s.queue != []
    case Write => s.writer.Writing?
    case GiveUp => s.writer == Idle || s.writer.Writing?
    case ReportWrite => s.writer.Reporting? && s.outErrors < OUT_ERROR_SLOTS
    case ReportClosed => s.writer.Leaving? && s.outErrors < OUT_ERROR_SLOTS
    case ClientError => s.clientReader == Reading
    case ReportClient => s.clientReader == Telling && s.outErrors < OUT_ERROR_SLOTS
    case Notice => s.main == Serving && s.outErrors > 0
    case StopNext => s.main == Stopping && s.closed < n
    case Finish => s.main == Stopping && s.closed == n
  }

  /** Without a backend there is no client socket; the writer then sends one error and
      ends, and no client reader is started. */
  ghost function Apply(n: nat, s: State, a: Action): (s': State)
    requires Shaped(n, s) && Enabled(n, s, a)
    ensures Shaped(n, s')
  {
    match a
    case Produce(b, m) => s.(sent := s.sent[b := s.sent[b] + [m]])
    case Read(b) => s.(readers := s.readers[b := Holding(s.sent[b][s.taken[b]])], taken := s.taken[b := s.taken[b] + 1])
    case Forward(b) => s.(readers := s.readers[b := Waiting], queue := s.queue + [Item(b, s.readers[b].message)])
    case ReadError(b) => s.(readers := s.readers[b := Failing])
    case Report(b) => s.(readers := s.readers[b := Gone], errors := s.errors + 1)
    case StartWriter =>
      if n == 0 then s.(main := Serving, writer := Leaving([]))
      else s.(main := Serving, writer := Idle, clientReader := Reading)
    case Take => s.(writer := Writing(s.queue[0]), queue := s.queue[1..])
    case Write => s.(writer := Idle, client := s.client + [s.writer.item])
    case GiveUp => s.(writer := Reporting(InHand(s.writer)))
    case ReportWrite => s.(writer := Leaving(s.writer.lost), outErrors := s.outErrors + 1)
    case ReportClosed => s.(writer := Ended(s.writer.lost), outErrors := s.outErrors + 1)
    case ClientError => s.(clientReader := Telling)
    case ReportClient => s.(clientReader := Over, outErrors := s.outErrors + 1)
    case Notice => s.(main := Stopping, outErrors := s.outErrors - 1)
    case StopNext => s.(closed := s.closed + 1)
    case Finish => s.(main := Finished)
  }

  ghost function InHand(w: Writer): seq<Item> {
    match w
    case NotStarted => []
    case Idle => []
    case Writing(item) => [item]
    case Reporting(lost) => lost
    case Leaving(lost) => lost
    case Ended(lost) => lost
  }

  /** The writer takes no more messages. */
  ghost predicate GaveUp(w: Writer) {
    w.Reporting? || w.Leaving? || w.Ended?
  }

  ghost predicate Reaches(n: nat, acts: seq<Action>, s: State)
    decreases |acts|, 1
  {
    if acts == [] then s == Start(n)
    else exists before :: StepTo(n, acts, before, s)
  }

  ghost predicate StepTo(n: nat, acts: seq<Action>, before: State, s: State)
    requires acts != []
    decreases |acts|, 0
  {
    var last := |acts| - 1;
    && Reaches(n, acts[..last], before) && Shaped(n, before)
    && Enabled(n, before, acts[last]) && s == Apply(n, before, acts[last])
  }

  // ----- Order -----

  /** The messages of one backend. */
  function Of(b: nat, items: seq<Item>): seq<Message> {
    if items == [] then []
    else
      var last := items[|items| - 1];
      Of(b, items[..|items| - 1]) + if last.from == b then [last.message] else []
  }

  lemma {:induction false} OfBoth(b: nat, x: seq<Item>, y: seq<Item>)
    ensures Of(b, x + y) == Of(b, x) + Of(b, y)
  {
    if y == [] {
      assert x + y == x;
    } else {
      OfBoth(b, x, y[..|y| - 1]);
      assert (x + y)[..|x + y| - 1] == x + y[..|y| - 1];
    }
  }

  ghost function Held(r: Reader): seq<Message> {
    if r.Holding? then [r.message] else []
  }

  /** Everything on its way from the channel to the client. */
  ghost function Passed(s: State): seq<Item> {
    s.client + InHand(s.writer) + s.queue
  }

  /** What the client has, what the writer holds, what is queued and what the reader holds
      is, in this order, what the reader took from the backend. */
  ghost predicate InOrder(n: nat, s: State, b: nat)
    requires Shaped(n, s) && b < n
  {
    Of(b, Passed(s)) + Held(s.readers[b]) == s.sent[b][..s.taken[b]]
  }

  /** How many errors the client's side has sent. */
  ghost function WriterSent(n: nat, w: Writer): nat {
    if w.Leaving? then if n == 0 then 0 else 1
    else if w.Ended? then if n == 0 then 1 else 2
    else 0
  }

  ghost function OutSent(n: nat, s: State): nat {
    WriterSent(n, s.writer) + if s.clientReader == Over then 1 else 0
  }

  ghost predicate Noticed(s: State) {
    s.main == Stopping || s.main == Finished
  }

  /** Every error sent is in the channel, but for the one that the handler received. */
  ghost predicate ErrorsOk(n: nat, s: State) {
    && OutSent(n, s) == s.outErrors + (if Noticed(s) then 1 else 0)
    && s.outErrors <= OUT_ERROR_SLOTS
    && (s.main == Connecting <==> s.writer == NotStarted)
    && (s.clientReader == Unstarted <==> s.main == Connecting || n == 0)
    && (n == 0 ==> s.writer == NotStarted || s.writer.Leaving? || s.writer.Ended?)
  }

  ghost predicate Inv(n: nat, s: State) {
    && Shaped(n, s)
    && |s.queue| <= QUEUE_SLOTS
    && s.errors <= ERROR_SLOTS
    && (s.main == Finished ==> s.closed == n)
    && ErrorsOk(n, s)
    && forall b :: 0 <= b < n ==> InOrder(n, s, b)
  }

  lemma PassedUnmoved(s: State, s': State)
    requires s'.client + InHand(s'.writer) == s.client + InHand(s.writer)
    requires s'.queue == s.queue
    ensures Passed(s') == Passed(s)
  {
  }

  lemma TakeKeepsPassed(n: nat, s: State)
    requires Shaped(n, s) && (s.writer == Idle && s.queue != [])
    ensures Passed(Apply(n, s, Take)) == Passed(s)
  {
    assert s.queue == [s.queue[0]] + s.queue[1..];
  }

  lemma ForwardPasses(n: nat, s: State, b: nat)
    requires Shaped(n, s) && Enabled(n, s, Forward(b))
    ensures Passed(Apply(n, s, Forward(b))) == Passed(s) + [Item(b, s.readers[b].message)]
  {
  }

  lemma ForwardKeepsOrder(n: nat, s: State, b: nat, c: nat)
    requires Shaped(n, s) && Enabled(n, s, Forward(b)) && c < n && InOrder(n, s, c)
    ensures InOrder(n, Apply(n, s, Forward(b)), c)
  {
    var item := Item(b, s.readers[b].message);
    ForwardPasses(n, s, b);
    OfBoth(c, Passed(s), [item]);
    assert Of(c, [item]) == if c == b then [item.message] else [];
  }

  lemma ReadKeepsOrder(n: nat, s: State, b: nat, c: nat)
    requires Shaped(n, s) && Enabled(n, s, Read(b)) && c < n && InOrder(n, s, c)
    ensures InOrder(n, Apply(n, s, Read(b)), c)
  {
    PassedUnmoved(s, Apply(n, s, Read(b)));
    if c == b {
      var k := s.taken[b];
      assert Held(s.readers[b]) == [];
      assert s.sent[b][..k + 1] == s.sent[b][..k] + [s.sent[b][k]];
    }
  }

  lemma ProduceKeepsOrder(n: nat, s: State, b: nat, m: Message, c: nat)
    requires Shaped(n, s) && Enabled(n, s, Produce(b, m)) && c < n && InOrder(n, s, c)
    ensures InOrder(n, Apply(n, s, Produce(b, m)), c)
  {
    var s' := Apply(n, s, Produce(b, m));
    PassedUnmoved(s, s');
    assert s'.sent[c][..s.taken[c]] == s.sent[c][..s.taken[c]];
  }

  lemma OrderKept(n: nat, s: State, a: Action, c: nat)
    requires Shaped(n, s) && Enabled(n, s, a) && c < n && InOrder(n, s, c)
    ensures InOrder(n, Apply(n, s, a), c)
  {
    match a {
      case Produce(b, m) => ProduceKeepsOrder(n, s, b, m, c);
      case Read(b) => ReadKeepsOrder(n, s, b, c);
      case Forward(b) => ForwardKeepsOrder(n, s, b, c);
      case Take => TakeKeepsPassed(n, s);
      case _ => PassedUnmoved(s, Apply(n, s, a));
    }
  }

  lemma ErrorsKept(n: nat, s: State, a: Action)
    requires Shaped(n, s) && Enabled(n, s, a) && ErrorsOk(n, s)
    ensures ErrorsOk(n, Apply(n, s, a))
  {
  }

  lemma InvKept(n: nat, s: State, a: Action)
    requires Inv(n, s) && Enabled(n, s, a)
    ensures Inv(n, Apply(n, s, a))
  {
    ErrorsKept(n, s, a);
    forall c | 0 <= c < n ensures InOrder(n, Apply(n, s, a), c) {
      OrderKept(n, s, a, c);
    }
  }

  lemma {:induction false} ReachableInv(n: nat, acts: seq<Action>, s: State)
    requires Reaches(n, acts, s)
    ensures Inv(n, s)
    decreases |acts|
  {
    if acts == [] {
    } else {
      var before :| StepTo(n, acts, before, s);
      ReachableInv(n, acts[..|acts| - 1], before);
      InvKept(n, before, acts[|acts| - 1]);
    }
  }

  /** For any number of backends and any schedule: what the client has received from a
      backend is a prefix of what that backend has sent, and at most 32 messages wait. */
  lemma ReceivedInOrder(n: nat, acts: seq<Action>, s: State, b: nat)
    requires Reaches(n, acts, s) && b < n
    ensures Shaped(n, s) && Of(b, s.client) <= s.sent[b]
    ensures |s.queue| <= 32
  {
    ReachableInv(n, acts, s);
    OfBoth(b, s.client, InHand(s.writer) + s.queue);
    assert Passed(s) == s.client + (InHand(s.writer) + s.queue);
    assert InOrder(n, s, b);
  }

  /** Nothing is lost on the way: when nothing is in transit, the client has all that was
      read. */
  lemma NothingInTransit(n: nat, acts: seq<Action>, s: State, b: nat)
    requires Reaches(n, acts, s) && b < n
    requires s.writer == Idle && s.queue == []
    ensures Shaped(n, s)
    ensures !s.readers[b].Holding? ==> Of(b, s.client) == s.sent[b][..s.taken[b]]
  {
    ReachableInv(n, acts, s);
    assert Passed(s) == s.client;
    assert InOrder(n, s, b);
  }

  /** While the writer works, whatever is in transit can move. */
  lemma TransitMoves(n: nat, acts: seq<Action>, s: State, b: nat) returns (a: Action)
    requires Reaches(n, acts, s) && b < n
    requires s.writer == Idle || s.writer.Writing?
    requires s.writer.Writing? || s.queue != [] || (b < |s.readers| && s.readers[b].Holding?)
    ensures Shaped(n, s) && Enabled(n, s, a)
    ensures a == Write || a == Take || a == Forward(b)
  {
    ReachableInv(n, acts, s);
    a := if s.writer.Writing? then Write else if s.queue != [] then Take else Forward(b);
  }

  // ----- How long it takes -----

  function ReaderWork(r: Reader): nat {
    match r case Holding(_) => 5 case Waiting => 2 case Failing => 1 case Gone => 0
  }

  ghost function WriterWork(w: Writer): nat {
    match w
    case NotStarted => 3
    case Idle => 3
    case Writing(_) => 4
    case Reporting(_) => 2
    case Leaving(_) => 1
    case Ended(_) => 0
  }

  ghost function ClientWork(c: ClientReader): nat {
    match c case Unstarted => 2 case Reading => 2 case Telling => 1 case Over => 0
  }

  ghost function MainWork(n: nat, s: State): nat
    requires s.closed <= n
  {
    (match s.main case Connecting => 3 case Serving => 2 case Stopping => 1 case Finished => 0) + (n - s.closed)
  }

  /** The work left over, apart from reading more messages. */
  ghost function Work(n: nat, s: State): nat
    requires s.closed <= n
  {
    SumBy(s.readers, ReaderWork) + 2 * |s.queue| + WriterWork(s.writer) + ClientWork(s.clientReader) + MainWork(n, s)
  }

  lemma ReaderMoves(n: nat, s: State, b: nat, r: Reader, weight: Reader -> nat)
    requires Shaped(n, s) && b < n
    ensures SumBy(s.readers[b := r], weight) == SumBy(s.readers, weight) + weight(r) - weight(s.readers[b])
  {
    SumByUpdate(s.readers, b, r, weight);
  }

  lemma ReaderWorkDrops(n: nat, s: State, a: Action)
    requires Shaped(n, s) && Enabled(n, s, a)
    requires a.Forward? || a.ReadError? || a.Report?
    ensures Work(n, Apply(n, s, a)) < Work(n, s)
  {
    ReaderMoves(n, s, a.b, Apply(n, s, a).readers[a.b], ReaderWork);
  }

  lemma ReadAddsWork(n: nat, s: State, b: nat)
    requires Shaped(n, s) && Enabled(n, s, Read(b))
    ensures Work(n, Apply(n, s, Read(b))) == Work(n, s) + 3
  {
    ReaderMoves(n, s, b, Apply(n, s, Read(b)).readers[b], ReaderWork);
  }

  /** Every step but producing and reading lowers the work; reading raises it by three. */
  lemma WorkDrops(n: nat, s: State, a: Action)
    requires Shaped(n, s) && Enabled(n, s, a)
    ensures match a
            case Produce(_, _) => Work(n, Apply(n, s, a)) == Work(n, s)
            case Read(_) => Work(n, Apply(n, s, a)) == Work(n, s) + 3
            case _ => Work(n, Apply(n, s, a)) < Work(n, s)
  {
    match a {
      case Read(b) => ReadAddsWork(n, s, b);
      case Forward(_) => ReaderWorkDrops(n, s, a);
      case ReadError(_) => ReaderWorkDrops(n, s, a);
      case Report(_) => ReaderWorkDrops(n, s, a);
      case _ =>
    }
  }

  function Reads(acts: seq<Action>): nat {
    if acts == [] then 0
    else Reads(acts[..|acts| - 1]) + if acts[|acts| - 1].Read? then 1 else 0
  }

  function Steps(acts: seq<Action>): nat {
    if acts == [] then 0
    else Steps(acts[..|acts| - 1]) + if acts[|acts| - 1].Read? || acts[|acts| - 1].Produce? then 0 else 1
  }

  function Produced(acts: seq<Action>): nat {
    if acts == [] then 0
    else Produced(acts[..|acts| - 1]) + if acts[|acts| - 1].Produce? then 1 else 0
  }

  /** A schedule is made of what the backends send, what is read, and the other steps. */
  lemma {:induction false} StepsAreRest(acts: seq<Action>)
    ensures |acts| == Produced(acts) + Reads(acts) + Steps(acts)
  {
    if acts == [] {
    } else {
      StepsAreRest(acts[..|acts| - 1]);
    }
  }

  /** Everyone waits at the start. */
  lemma {:induction false} InitialSum(n: nat, weight: Reader -> nat)
    ensures SumBy(seq(n, _ => Waiting), weight) == n * weight(Waiting)
  {
    if n == 0 {
    } else {
      InitialSum(n - 1, weight);
      assert seq(n, _ => Waiting)[..n - 1] == seq(n - 1, _ => Waiting);
    }
  }

  /** A schedule that reads k messages takes at most 3k + 3n + 8 other steps, so that every
      run in which the backends fall silent comes to its end. */
  lemma {:induction false} ScheduleBound(n: nat, acts: seq<Action>, s: State)
    requires Reaches(n, acts, s)
    ensures Shaped(n, s)
    ensures Steps(acts) + Work(n, s) <= 3 * Reads(acts) + 3 * n + 8
    decreases |acts|
  {
    if acts == [] {
      InitialSum(n, ReaderWork);
    } else {
      var before :| StepTo(n, acts, before, s);
      ScheduleBound(n, acts[..|acts| - 1], before);
      WorkDrops(n, before, acts[|acts| - 1]);
    }
  }

  // ----- The end -----

  /** A reader that can never get on: its message finds no slot that anyone will empty, or
      its error does not. */
  ghost predicate Stuck(s: State, b: nat) {
    && b < |s.readers|
    && (|| (s.readers[b].Holding? && |s.queue| == QUEUE_SLOTS && GaveUp(s.writer))
        || (s.readers[b] == Failing && s.errors == ERROR_SLOTS))
  }

  /** The handler has received its one error and another one fills the slot. */
  ghost predicate SlotLost(s: State) {
    Noticed(s) && s.outErrors == OUT_ERROR_SLOTS
  }

  ghost predicate WriterBlocked(s: State) {
    SlotLost(s) && (s.writer.Reporting? || s.writer.Leaving?)
  }

  ghost predicate ClientReaderBlocked(s: State) {
    SlotLost(s) && s.clientReader == Telling
  }

  /** Whoever is stuck or blocked stays so under every further step. */
  lemma StuckForever(n: nat, s: State, a: Action)
    requires Inv(n, s) && Enabled(n, s, a)
    ensures forall b :: Stuck(s, b) ==> Stuck(Apply(n, s, a), b)
    ensures WriterBlocked(s) ==> WriterBlocked(Apply(n, s, a))
    ensures ClientReaderBlocked(s) ==> ClientReaderBlocked(Apply(n, s, a))
  {
    forall b | Stuck(s, b) ensures Stuck(Apply(n, s, a), b) {
    }
  }

  /** No goroutine of the proxy can take another step. */
  ghost predicate Settled(n: nat, s: State)
    requires Shaped(n, s)
  {
    forall a: Action :: a.Produce? || !Enabled(n, s, a)
  }

  lemma HandlerReturns(n: nat, s: State)
    requires Inv(n, s) && Settled(n, s)
    ensures s.main == Finished
    ensures !(s.writer == Idle || s.writer.Writing?) && s.clientReader != Reading
  {
    assert !Enabled(n, s, StartWriter) && !Enabled(n, s, StopNext) && !Enabled(n, s, Finish) && !Enabled(n, s, Notice);
    assert !Enabled(n, s, GiveUp) && !Enabled(n, s, ClientError);
    assert !Enabled(n, s, ReportWrite) && !Enabled(n, s, ReportClosed);
  }

  /** When nothing can move, the handler has returned and every backend reader has ended or
      is stuck. But of the three errors that the writer and the client reader send, one is
      received and one fits into the channel: exactly one of the two is blocked, unless
      there was no backend and so no client socket. */
  lemma OneStaysBlocked(n: nat, acts: seq<Action>, s: State)
    requires Reaches(n, acts, s) && Shaped(n, s) && Settled(n, s)
    ensures s.main == Finished
    ensures n > 0 ==> (WriterBlocked(s) <==> s.clientReader == Over)
    ensures n > 0 ==> (ClientReaderBlocked(s) <==> s.writer.Ended?)
    ensures n > 0 ==> (WriterBlocked(s) <==> !ClientReaderBlocked(s))
    ensures n == 0 ==> s.writer.Ended? && s.clientReader == Unstarted
    ensures forall b :: 0 <= b < n ==> s.readers[b] == Gone || Stuck(s, b)
  {
    ReachableInv(n, acts, s);
    HandlerReturns(n, s);
    assert !Enabled(n, s, ReportWrite) && !Enabled(n, s, ReportClosed) && !Enabled(n, s, ReportClient);
    forall b: nat | b < n ensures s.readers[b] == Gone || Stuck(s, b) {
      assert !Enabled(n, s, ReadError(b)) && !Enabled(n, s, Forward(b)) && !Enabled(n, s, Report(b));
    }
  }

  lemma Extend(n: nat, acts: seq<Action>, s: State, a: Action) returns (acts': seq<Action>, s': State)
    requires Reaches(n, acts, s) && Shaped(n, s) && Enabled(n, s, a)
    ensures acts' == acts + [a] && s' == Apply(n, s, a) && Reaches(n, acts', s') && Shaped(n, s')
    ensures Reads(acts') == Reads(acts) + if a.Read? then 1 else 0
  {
    acts', s' := acts + [a], Apply(n, s, a);
    assert acts'[..|acts'| - 1] == acts;
    assert StepTo(n, acts', s, s');
  }

  lemma OnlyReadsLeft(n: nat, s: State)
    requires Inv(n, s)
    requires forall a: Action :: a.Produce? || a.Read? || !Enabled(n, s, a)
    ensures Settled(n, s)
  {
    assert !Enabled(n, s, StartWriter) && !Enabled(n, s, StopNext) && !Enabled(n, s, Finish) && !Enabled(n, s, Notice);
    assert !Enabled(n, s, GiveUp) && !Enabled(n, s, ReportWrite) && !Enabled(n, s, ReportClosed);
    assert s.main == Finished;
  }

  /** Every schedule can be continued until nothing can move. */
  lemma {:induction false} Complete(n: nat, acts: seq<Action>, s: State) returns (acts': seq<Action>, s': State)
    requires Reaches(n, acts, s)
    ensures Reaches(n, acts', s') && Shaped(n, s') && Settled(n, s')
    ensures s.clientReader == Over ==> s'.clientReader == Over
    ensures s.writer.Ended? ==> s'.writer.Ended?
    decreases if Shaped(n, s) then Work(n, s) else 0
  {
    ReachableInv(n, acts, s);
    if a: Action :| !a.Produce? && !a.Read? && Enabled(n, s, a) {
      WorkDrops(n, s, a);
      acts', s' := Extend(n, acts, s, a);
      acts', s' := Complete(n, acts', s');
    } else {
      OnlyReadsLeft(n, s);
      acts', s' := acts, s;
    }
  }

  /** Either of the two can be the one that stays: the writer if the client reader fails
      first, the client reader if the writer does. */
  lemma WriterStays(n: nat) returns (acts: seq<Action>, s: State)
    requires n > 0
    ensures Reaches(n, acts, s) && Shaped(n, s) && Settled(n, s) && WriterBlocked(s)
  {
    acts, s := Extend(n, [], Start(n), StartWriter);
    acts, s := Extend(n, acts, s, ClientError);
    acts, s := Extend(n, acts, s, ReportClient);
    acts, s := Complete(n, acts, s);
    OneStaysBlocked(n, acts, s);
  }

  lemma ClientReaderStays(n: nat) returns (acts: seq<Action>, s: State)
    requires n > 0
    ensures Reaches(n, acts, s) && Shaped(n, s) && Settled(n, s) && ClientReaderBlocked(s)
  {
    acts, s := Extend(n, [], Start(n), StartWriter);
    acts, s := Extend(n, acts, s, GiveUp);
    acts, s := Extend(n, acts, s, ReportWrite);
    acts, s := Extend(n, acts, s, Notice);
    acts, s := Extend(n, acts, s, ReportClosed);
    acts, s := Complete(n, acts, s);
    OneStaysBlocked(n, acts, s);
  }

  // ----- When backend readers get stuck -----

  function IsHolding(r: Reader): nat {
    if r.Holding? then 1 else 0
  }

  function IsGone(r: Reader): nat {
    if r == Gone then 1 else 0
  }

  /** Every message read is with the client, the writer, the channel or a reader, and every
      backend error is that of a reader that has ended. */
  ghost predicate Counted(n: nat, s: State, count: nat) {
    && Shaped(n, s)
    && |s.client| + |InHand(s.writer)| + |s.queue| + SumBy(s.readers, IsHolding) == count
    && |InHand(s.writer)| <= 1
    && s.errors == SumBy(s.readers, IsGone)
  }

  lemma ReaderCounted(n: nat, s: State, a: Action, count: nat)
    requires Counted(n, s, count) && Enabled(n, s, a)
    requires a.Read? || a.Forward? || a.ReadError? || a.Report?
    ensures Counted(n, Apply(n, s, a), count + if a.Read? then 1 else 0)
  {
    var r := Apply(n, s, a).readers[a.b];
    ReaderMoves(n, s, a.b, r, IsHolding);
    ReaderMoves(n, s, a.b, r, IsGone);
  }

  lemma CountedStep(n: nat, s: State, a: Action, count: nat)
    requires Counted(n, s, count) && Enabled(n, s, a)
    ensures Counted(n, Apply(n, s, a), count + if a.Read? then 1 else 0)
  {
    if a.Read? || a.Forward? || a.ReadError? || a.Report? {
      ReaderCounted(n, s, a, count);
    }
  }

  lemma {:induction false} ReachableCounted(n: nat, acts: seq<Action>, s: State)
    requires Reaches(n, acts, s)
    ensures Counted(n, s, Reads(acts))
    decreases |acts|
  {
    if acts == [] {
      InitialSum(n, IsHolding);
      InitialSum(n, IsGone);
    } else {
      var before :| StepTo(n, acts, before, s);
      ReachableCounted(n, acts[..|acts| - 1], before);
      CountedStep(n, before, acts[|acts| - 1], Reads(acts[..|acts| - 1]));
    }
  }

  lemma {:induction false} SumBounded(rs: seq<Reader>, weight: Reader -> nat)
    requires forall r :: weight(r) <= 1
    ensures SumBy(rs, weight) <= |rs|
  {
    if rs == [] {
    } else {
      SumBounded(rs[..|rs| - 1], weight);
    }
  }

  /** A single reader counts, and counts only itself. */
  lemma OneCounts(n: nat, s: State, b: nat, weight: Reader -> nat)
    requires Shaped(n, s) && b < n
    requires (forall r :: weight(r) <= 1) && weight(Waiting) == 0
    ensures weight(s.readers[b]) <= SumBy(s.readers, weight) <= n - 1 + weight(s.readers[b])
  {
    var others := s.readers[b := Waiting];
    ReaderMoves(n, s, b, Waiting, weight);
    SumBounded(s.readers[..b] + s.readers[b + 1..], weight);
    assert others == s.readers[..b] + ([Waiting] + s.readers[b + 1..]);
    SumByBoth(s.readers[..b], [Waiting] + s.readers[b + 1..], weight);
    SumByBoth([Waiting], s.readers[b + 1..], weight);
    SumByBoth(s.readers[..b], s.readers[b + 1..], weight);
    assert [Waiting][..0] == [];
  }

  lemma StuckTakes(n: nat, acts: seq<Action>, s: State, b: nat)
    requires Reaches(n, acts, s) && Stuck(s, b)
    ensures n > ERROR_SLOTS || (n > 0 && Reads(acts) > QUEUE_SLOTS)
  {
    ReachableCounted(n, acts, s);
    OneCounts(n, s, b, IsHolding);
    OneCounts(n, s, b, IsGone);
  }

  /** The readers below k have ended with an error, the others wait. */
  ghost predicate Failed(n: nat, s: State, k: nat) {
    && Shaped(n, s) && k <= n && s.errors == k
    && forall b :: 0 <= b < n ==> s.readers[b] == if b < k then Gone else Waiting
  }

  lemma {:induction false} ErrorsFill(n: nat, k: nat) returns (acts: seq<Action>, s: State)
    requires k <= n && k <= ERROR_SLOTS
    ensures Reaches(n, acts, s) && Failed(n, s, k) && Reads(acts) == 0
  {
    if k == 0 {
      acts, s := [], Start(n);
    } else {
      acts, s := ErrorsFill(n, k - 1);
      acts, s := Extend(n, acts, s, ReadError(k - 1));
      acts, s := Extend(n, acts, s, Report(k - 1));
    }
  }

  /** The writer has given up, and the first reader has filed k messages since. */
  ghost predicate Abandoned(n: nat, s: State, k: nat) {
    && n > 0 && Shaped(n, s) && s.closed == 0 && GaveUp(s.writer)
    && s.readers[0] == Waiting && s.taken[0] == |s.sent[0]| && |s.queue| == k
  }

  lemma {:induction false} QueueFills(n: nat, m: Message, k: nat) returns (acts: seq<Action>, s: State)
    requires n > 0 && k <= QUEUE_SLOTS
    ensures Reaches(n, acts, s) && Abandoned(n, s, k) && Reads(acts) == k
  {
    if k == 0 {
      acts, s := Extend(n, [], Start(n), StartWriter);
      acts, s := Extend(n, acts, s, GiveUp);
    } else {
      acts, s := QueueFills(n, m, k - 1);
      acts, s := Extend(n, acts, s, Produce(0, m));
      acts, s := Extend(n, acts, s, Read(0));
      acts, s := Extend(n, acts, s, Forward(0));
    }
  }

  /** A schedule with at most k reads that gets a reader stuck. */
  ghost predicate Sticks(n: nat, k: nat, acts: seq<Action>, s: State, b: nat) {
    Reaches(n, acts, s) && Reads(acts) <= k && Stuck(s, b)
  }

  lemma ErrorSticks(n: nat, k: nat) returns (acts: seq<Action>, s: State)
    requires n > ERROR_SLOTS
    ensures Sticks(n, k, acts, s, ERROR_SLOTS)
  {
    acts, s := ErrorsFill(n, ERROR_SLOTS);
    acts, s := Extend(n, acts, s, ReadError(ERROR_SLOTS));
  }

  lemma MessageSticks(n: nat, k: nat, m: Message) returns (acts: seq<Action>, s: State)
    requires n > 0 && k > QUEUE_SLOTS
    ensures Sticks(n, k, acts, s, 0)
  {
    acts, s := QueueFills(n, m, QUEUE_SLOTS);
    acts, s := Extend(n, acts, s, Produce(0, m));
    acts, s := Extend(n, acts, s, Read(0));
  }

  /** Over n backends, a schedule with at most k reads can get a reader stuck if and only if
      there are more backends than slots for their errors, or there is a backend and more
      messages are read than there are slots for messages. */
  lemma SticksIff(n: nat, k: nat)
    ensures (exists acts, s, b :: Sticks(n, k, acts, s, b)) <==> n > 50 || (n > 0 && k > 32)
  {
    if acts, s, b :| Sticks(n, k, acts, s, b) {
      StuckTakes(n, acts, s, b);
    }
    if n > ERROR_SLOTS {
      var acts, s := ErrorSticks(n, k);
    } else if n > 0 && k > QUEUE_SLOTS {
      var m: Message := *;
      var acts, s := MessageSticks(n, k, m);
    }
  }
}
