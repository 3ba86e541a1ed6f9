/** Group commit: concurrent requests are collected and run in one transaction by a single runner,
    which a timer or a full queue starts. */
module GroupCommit {

  import opened Optional
  import opened Orders
  import opened Sums

  const MAX_REQUESTS: nat := 32

  /** A group of requests; its outcome once it has run. */
  datatype Group = Group(requests: seq<nat>, outcome: Option<bool>)

  /** A finished group whose requests are being told the outcome. */
  datatype Delivery = Delivery(group: nat, outcome: bool, rest: seq<nat>)

  datatype Completion = Completion(request: nat, group: nat, outcome: bool)

  /** The queue: waiting requests, the running flag, the timer (known to the queue, and armed) and
      the runners started that hold no group yet. */
  datatype Queue = Queue(pending: seq<nat>, running: bool, timer: bool, armed: bool, spawned: nat)

  /** The groups, those being run, and what came of the others. */
  datatype Work = Work(executing: seq<nat>, groups: seq<Group>, deliveries: seq<Delivery>, completions: seq<Completion>, ledger: seq<nat>)

  datatype State = State(queue: Queue, work: Work, admitted: nat)

  datatype Op =
    | Submit
    | Fire
    | Take
    | Finish(k: nat, succeeded: bool)
    | Deliver(k: nat)

  predicate Accepts(q: Queue) { |q.pending| < MAX_REQUESTS }

  /** A new request: the first one arms the timer; the one that fills the queue starts the runner
      early, if the timer can still be stopped. */
  function Enqueue(q: Queue, r: nat): Queue {
    var pending := q.pending + [r];
    if !q.running then q.(pending := pending, running := true, timer := true, armed := true)
    else if |pending| == MAX_REQUESTS && q.timer && q.armed then q.(pending := pending, armed := false, spawned := q.spawned + 1)
    else q.(pending := pending)
  }

  function Fired(q: Queue): Queue { if q.armed then q.(armed := false, spawned := q.spawned + 1) else q }

  /** A runner empties the queue. */
  function Emptied(q: Queue): Queue
    requires q.spawned > 0
  {
    q.(pending := [], timer := false, spawned := q.spawned - 1)
  }

  /** A runner that is done hands over to a new one if requests are waiting. */
  function HandedOver(q: Queue): Queue {
    if q.pending != [] then q.(spawned := q.spawned + 1) else q.(running := false)
  }

  function Started(w: Work, requests: seq<nat>): Work {
    w.(executing := w.executing + [|w.groups|], groups := w.groups + [Group(requests, None)])
  }

  /** A group that has run. */
  function WithOutcome(groups: seq<Group>, g: nat, succeeded: bool): seq<Group>
    requires g < |groups|
  {
    groups[g := Group(groups[g].requests, Some(succeeded))]
  }

  /** The group has run: all of it is committed, or nothing. */
  function Finished(w: Work, k: nat, succeeded: bool): Work
    requires k < |w.executing| && w.executing[k] < |w.groups|
  {
    var g := w.executing[k];
    Work(
      w.executing[..k] + w.executing[k + 1..],
      WithOutcome(w.groups, g, succeeded),
      w.deliveries + [Delivery(g, succeeded, w.groups[g].requests)],
      w.completions,
      if succeeded then w.ledger + w.groups[g].requests else w.ledger)
  }

  function Delivered(w: Work, k: nat): Work
    requires k < |w.deliveries| && w.deliveries[k].rest != []
  {
    var d := w.deliveries[k];
    w.(deliveries := w.deliveries[k := d.(rest := d.rest[1..])], completions := w.completions + [Completion(d.rest[0], d.group, d.outcome)])
  }

  function Next(s: State, op: Op): State {
    match op
    case Submit => if Accepts(s.queue) then s.(queue := Enqueue(s.queue, s.admitted), admitted := s.admitted + 1) else s
    case Fire => s.(queue := Fired(s.queue))
    case Take => if s.queue.spawned > 0 then s.(queue := Emptied(s.queue), work := Started(s.work, s.queue.pending)) else s
    case Finish(k, succeeded) =>
      if k < |s.work.executing| && s.work.executing[k] < |s.work.groups| then s.(queue := HandedOver(s.queue), work := Finished(s.work, k, succeeded)) else s
    case Deliver(k) => if k < |s.work.deliveries| && s.work.deliveries[k].rest != [] then s.(work := Delivered(s.work, k)) else s
  }

  // What is kept.

  /** One runner while running, none otherwise; requests wait only while running. */
  ghost predicate OneRunner(q: Queue, executing: nat) {
    && (if q.armed then 1 else 0) + q.spawned + executing == (if q.running then 1 else 0)
    && (q.pending != [] ==> q.running) && |q.pending| <= MAX_REQUESTS
    && (q.armed ==> q.timer) && (q.armed || q.spawned > 0 ==> q.pending != [])
  }

  ghost function UpTo(n: nat): multiset<nat> {
    if n == 0 then multiset{} else UpTo(n - 1) + multiset{n - 1}
  }

  function Members(): Group -> multiset<nat> { (g: Group) => multiset(g.requests) }

  function Committed(): Group -> multiset<nat> { (g: Group) => if g.outcome == Some(true) then multiset(g.requests) else multiset{} }

  function Unfinished(): Group -> multiset<nat> { (g: Group) => if g.outcome.None? then multiset(g.requests) else multiset{} }

  function Waiting(): Delivery -> multiset<nat> { (d: Delivery) => multiset(d.rest) }

  function Told(): Completion -> multiset<nat> { (c: Completion) => multiset{c.request} }

  /** Every admitted request is in the queue or in exactly one group. */
  ghost predicate Grouped(pending: seq<nat>, groups: seq<Group>, admitted: nat) {
    multiset(pending) + Sum(Members(), groups) == UpTo(admitted)
  }

  /** Every admitted request is in exactly one place: queued, in a running group, waiting to be
      told, or told, once. */
  ghost predicate Placed(pending: seq<nat>, groups: seq<Group>, deliveries: seq<Delivery>, completions: seq<Completion>, admitted: nat) {
    multiset(pending) + Sum(Unfinished(), groups) + Sum(Waiting(), deliveries) + Sum(Told(), completions) == UpTo(admitted)
  }

  /** The committed requests are those of the groups that succeeded. */
  ghost predicate Recorded(ledger: seq<nat>, groups: seq<Group>) { multiset(ledger) == Sum(Committed(), groups) }

  /** What requests are told is the outcome of their own group. */
  ghost predicate Truthful(groups: seq<Group>, deliveries: seq<Delivery>, completions: seq<Completion>) {
    && (forall k :: 0 <= k < |deliveries| ==> DeliveryOk(groups, deliveries[k]))
    && (forall k :: 0 <= k < |completions| ==> CompletionOk(groups, completions[k]))
  }

  ghost predicate DeliveryOk(groups: seq<Group>, d: Delivery) {
    Tells(groups, d.group, d.outcome) && forall i :: 0 <= i < |d.rest| ==> d.rest[i] in groups[d.group].requests
  }

  ghost predicate CompletionOk(groups: seq<Group>, c: Completion) {
    Tells(groups, c.group, c.outcome) && c.request in groups[c.group].requests
  }

  predicate Tells(groups: seq<Group>, g: nat, outcome: bool) {
    g < |groups| && groups[g].outcome == Some(outcome)
  }

  /** The groups being run are exactly those without an outcome. */
  ghost predicate Running(executing: seq<nat>, groups: seq<Group>) {
    && (forall k :: 0 <= k < |executing| ==> executing[k] < |groups|)
    && (forall g :: 0 <= g < |groups| ==> (groups[g].outcome.None? <==> g in executing))
  }

  ghost predicate WorkOk(pending: seq<nat>, w: Work, admitted: nat) {
    && Grouped(pending, w.groups, admitted)
    && Placed(pending, w.groups, w.deliveries, w.completions, admitted)
    && Recorded(w.ledger, w.groups)
    && Truthful(w.groups, w.deliveries, w.completions)
    && Running(w.executing, w.groups)
  }

  ghost predicate Valid(s: State) {
    var work := WorkOk(s.queue.pending, s.work, s.admitted);
    OneRunner(s.queue, |s.work.executing|) && work
  }

  lemma SumUpdate<A, B>(f: A -> multiset<B>, s: seq<A>, k: nat, x: A)
    requires k < |s|
    ensures Sum(f, s[k := x]) + f(s[k]) == Sum(f, s) + f(x)
  {
    var a, b := s[..k], s[k + 1..];
    assert s == a + ([s[k]] + b) && s[k := x] == a + ([x] + b);
    SumMiddle(f, a, s[k], b);
    SumMiddle(f, a, x, b);
  }

  lemma SumMore<A, B>(f: A -> multiset<B>, s: seq<A>, x: A)
    ensures Sum(f, s + [x]) == Sum(f, s) + f(x)
  {
    SumConcat(f, s, [x]);
  }

  lemma QueueGrows(pending: seq<nat>, n: nat)
    ensures multiset(pending + [n]) == multiset(pending) + multiset{n}
  {
  }

  lemma SubmitGrouped(pending: seq<nat>, groups: seq<Group>, n: nat)
    requires Grouped(pending, groups, n)
    ensures Grouped(pending + [n], groups, n + 1)
  {
    QueueGrows(pending, n);
    Balance(multiset(pending), multiset{n}, Sum(Members(), groups), multiset{}, multiset{});
    var none: multiset<nat> := multiset{};
    assert multiset(pending) + Sum(Members(), groups) + none + none == multiset(pending) + Sum(Members(), groups);
    assert multiset(pending + [n]) + Sum(Members(), groups) + none + none == multiset(pending + [n]) + Sum(Members(), groups);
  }

  lemma SubmitPlaced(pending: seq<nat>, groups: seq<Group>, deliveries: seq<Delivery>, completions: seq<Completion>, n: nat)
    requires Placed(pending, groups, deliveries, completions, n)
    ensures Placed(pending + [n], groups, deliveries, completions, n + 1)
  {
    QueueGrows(pending, n);
    Balance(multiset(pending), multiset{n}, Sum(Unfinished(), groups), Sum(Waiting(), deliveries), Sum(Told(), completions));
  }

  lemma EnqueueRunner(q: Queue, r: nat, executing: nat)
    requires OneRunner(q, executing) && Accepts(q)
    ensures OneRunner(Enqueue(q, r), executing) && Enqueue(q, r).pending == q.pending + [r]
  {
  }

  lemma SubmitKeeps(s: State)
    requires Valid(s)
    ensures Valid(Next(s, Submit))
  {
    if Accepts(s.queue) {
      var w := s.work;
      SubmitGrouped(s.queue.pending, w.groups, s.admitted);
      SubmitPlaced(s.queue.pending, w.groups, w.deliveries, w.completions, s.admitted);
      EnqueueRunner(s.queue, s.admitted, |w.executing|);
    }
  }

  lemma Balance(p: multiset<nat>, x: multiset<nat>, a: multiset<nat>, b: multiset<nat>, c: multiset<nat>)
    ensures (p + x) + a + b + c == (p + a + b + c) + x
  {
  }

  lemma TakeGrouped(pending: seq<nat>, groups: seq<Group>, n: nat)
    requires Grouped(pending, groups, n)
    ensures Grouped([], groups + [Group(pending, None)], n)
  {
    SumMore(Members(), groups, Group(pending, None));
    assert multiset(pending) + Sum(Members(), groups) == multiset([]) + (Sum(Members(), groups) + multiset(pending));
  }

  lemma TakePlaced(pending: seq<nat>, groups: seq<Group>, deliveries: seq<Delivery>, completions: seq<Completion>, n: nat)
    requires Placed(pending, groups, deliveries, completions, n)
    ensures Placed([], groups + [Group(pending, None)], deliveries, completions, n)
  {
    SumMore(Unfinished(), groups, Group(pending, None));
    var none: multiset<nat> := multiset([]);
    assert none == multiset{};
    assert multiset(pending) + Sum(Unfinished(), groups) == none + (Sum(Unfinished(), groups) + multiset(pending));
  }

  lemma TakeRecorded(ledger: seq<nat>, pending: seq<nat>, groups: seq<Group>)
    requires Recorded(ledger, groups)
    ensures Recorded(ledger, groups + [Group(pending, None)])
  {
    SumMore(Committed(), groups, Group(pending, None));
  }

  lemma MoreGroups(groups: seq<Group>, deliveries: seq<Delivery>, completions: seq<Completion>, g: Group)
    requires Truthful(groups, deliveries, completions)
    ensures Truthful(groups + [g], deliveries, completions)
  {
    forall k | 0 <= k < |deliveries| ensures DeliveryOk(groups + [g], deliveries[k]) { assert DeliveryOk(groups, deliveries[k]); }
    forall k | 0 <= k < |completions| ensures CompletionOk(groups + [g], completions[k]) { assert CompletionOk(groups, completions[k]); }
  }

  lemma TakeKeeps(s: State)
    requires Valid(s)
    ensures Valid(Next(s, Take))
  {
    if s.queue.spawned > 0 {
      var p, w := s.queue.pending, s.work;
      TakeGrouped(p, w.groups, s.admitted);
      TakePlaced(p, w.groups, w.deliveries, w.completions, s.admitted);
      TakeRecorded(w.ledger, p, w.groups);
      MoreGroups(w.groups, w.deliveries, w.completions, Group(p, None));
      TakeRuns(w.executing, w.groups, p);
    }
  }

  lemma TakeRuns(executing: seq<nat>, groups: seq<Group>, pending: seq<nat>)
    requires Running(executing, groups)
    ensures Running(executing + [|groups|], groups + [Group(pending, None)])
  {
    var more := groups + [Group(pending, None)];
    forall g | 0 <= g < |more| ensures more[g].outcome.None? <==> g in executing + [|groups|] {
      if g < |groups| { assert more[g] == groups[g]; }
    }
  }

  lemma FinishMembers(groups: seq<Group>, g: nat, succeeded: bool)
    requires g < |groups|
    ensures Sum(Members(), WithOutcome(groups, g, succeeded)) == Sum(Members(), groups)
  {
    var x := Group(groups[g].requests, Some(succeeded));
    SumUpdate(Members(), groups, g, x);
    Cancel(Sum(Members(), groups[g := x]), Sum(Members(), groups), multiset(x.requests));
  }

  lemma FinishUnfinished(groups: seq<Group>, g: nat, succeeded: bool)
    requires g < |groups| && groups[g].outcome.None?
    ensures Sum(Unfinished(), groups) == Sum(Unfinished(), WithOutcome(groups, g, succeeded)) + multiset(groups[g].requests)
  {
    SumUpdate(Unfinished(), groups, g, Group(groups[g].requests, Some(succeeded)));
  }

  lemma FinishCommitted(groups: seq<Group>, g: nat, succeeded: bool)
    requires g < |groups| && groups[g].outcome.None?
    ensures Sum(Committed(), WithOutcome(groups, g, succeeded)) == Sum(Committed(), groups) + if succeeded then multiset(groups[g].requests) else multiset{}
  {
    SumUpdate(Committed(), groups, g, Group(groups[g].requests, Some(succeeded)));
  }

  lemma Cancel(a: multiset<nat>, b: multiset<nat>, p: multiset<nat>)
    requires a + p == b + p
    ensures a == b
  {
    assert a == (a + p) - p && b == (b + p) - p;
  }

  lemma FinishPlaced(pending: seq<nat>, w: Work, g: nat, succeeded: bool, admitted: nat)
    requires g < |w.groups| && w.groups[g].outcome.None? && Placed(pending, w.groups, w.deliveries, w.completions, admitted)
    ensures Placed(pending, WithOutcome(w.groups, g, succeeded), w.deliveries + [Delivery(g, succeeded, w.groups[g].requests)], w.completions, admitted)
  {
    var requests := w.groups[g].requests;
    FinishUnfinished(w.groups, g, succeeded);
    SumMore(Waiting(), w.deliveries, Delivery(g, succeeded, requests));
    Rebalance(multiset(pending), Sum(Unfinished(), WithOutcome(w.groups, g, succeeded)), multiset(requests), Sum(Waiting(), w.deliveries), Sum(Told(), w.completions));
  }

  lemma FinishRecorded(ledger: seq<nat>, groups: seq<Group>, g: nat, succeeded: bool)
    requires g < |groups| && groups[g].outcome.None? && Recorded(ledger, groups)
    ensures Recorded(if succeeded then ledger + groups[g].requests else ledger, WithOutcome(groups, g, succeeded))
  {
    FinishCommitted(groups, g, succeeded);
    assert multiset(ledger + groups[g].requests) == multiset(ledger) + multiset(groups[g].requests);
  }

  lemma Rebalance(p: multiset<nat>, a: multiset<nat>, x: multiset<nat>, b: multiset<nat>, c: multiset<nat>)
    ensures p + (a + x) + b + c == p + a + (b + x) + c
  {
  }

  lemma FinishTruth(groups: seq<Group>, deliveries: seq<Delivery>, completions: seq<Completion>, g: nat, succeeded: bool)
    requires g < |groups| && groups[g].outcome.None? && Truthful(groups, deliveries, completions)
    ensures Truthful(WithOutcome(groups, g, succeeded), deliveries + [Delivery(g, succeeded, groups[g].requests)], completions)
  {
    var after, more := WithOutcome(groups, g, succeeded), deliveries + [Delivery(g, succeeded, groups[g].requests)];
    forall i | 0 <= i < |more| ensures DeliveryOk(after, more[i]) {
      if i < |deliveries| { assert DeliveryOk(groups, deliveries[i]); }
    }
    forall i | 0 <= i < |completions| ensures CompletionOk(after, completions[i]) { assert CompletionOk(groups, completions[i]); }
  }

  lemma FinishWork(pending: seq<nat>, w: Work, k: nat, succeeded: bool, admitted: nat)
    requires WorkOk(pending, w, admitted) && k < |w.executing| == 1
    ensures WorkOk(pending, Finished(w, k, succeeded), admitted) && Finished(w, k, succeeded).executing == []
  {
    var g := w.executing[k];
    assert g in w.executing;
    FinishPlaced(pending, w, g, succeeded, admitted);
    FinishMembers(w.groups, g, succeeded);
    FinishRecorded(w.ledger, w.groups, g, succeeded);
    FinishTruth(w.groups, w.deliveries, w.completions, g, succeeded);
  }

  lemma FinishKeeps(s: State, k: nat, succeeded: bool)
    requires Valid(s)
    ensures Valid(Next(s, Finish(k, succeeded)))
  {
    if k < |s.work.executing| && s.work.executing[k] < |s.work.groups| { FinishWork(s.queue.pending, s.work, k, succeeded, s.admitted); }
  }

  lemma DeliverPlaces(pending: seq<nat>, w: Work, k: nat, admitted: nat)
    requires k < |w.deliveries| && w.deliveries[k].rest != [] && Placed(pending, w.groups, w.deliveries, w.completions, admitted)
    ensures Placed(pending, w.groups, Delivered(w, k).deliveries, Delivered(w, k).completions, admitted)
  {
    var d := w.deliveries[k];
    var x, rest := multiset{d.rest[0]}, d.(rest := d.rest[1..]);
    TailElements(d.rest);
    SumUpdate(Waiting(), w.deliveries, k, rest);
    SumMore(Told(), w.completions, Completion(d.rest[0], d.group, d.outcome));
    Hand(Sum(Waiting(), w.deliveries), Sum(Waiting(), w.deliveries[k := rest]), multiset(d.rest[1..]), x);
    Shift(multiset(pending) + Sum(Unfinished(), w.groups), Sum(Waiting(), w.deliveries[k := rest]), x, Sum(Told(), w.completions));
  }

  lemma Hand(before: multiset<nat>, after: multiset<nat>, rest: multiset<nat>, x: multiset<nat>)
    requires after + (x + rest) == before + rest
    ensures before == after + x
  {
    assert before == (before + rest) - rest && after + x == (after + (x + rest)) - rest;
  }

  lemma Shift(p: multiset<nat>, w: multiset<nat>, x: multiset<nat>, c: multiset<nat>)
    ensures p + (w + x) + c == p + w + (c + x)
  {
  }

  lemma DeliverTruth(w: Work, k: nat)
    requires k < |w.deliveries| && w.deliveries[k].rest != [] && Truthful(w.groups, w.deliveries, w.completions)
    ensures Truthful(w.groups, Delivered(w, k).deliveries, Delivered(w, k).completions)
  {
    var d := w.deliveries[k];
    assert DeliveryOk(w.groups, d);
    assert d.rest[0] in w.groups[d.group].requests;
  }

  lemma DeliverKeeps(s: State, k: nat)
    requires Valid(s)
    ensures Valid(Next(s, Deliver(k)))
  {
    if k < |s.work.deliveries| && s.work.deliveries[k].rest != [] {
      DeliverPlaces(s.queue.pending, s.work, k, s.admitted);
      DeliverTruth(s.work, k);
    }
  }

  lemma NextKeeps(s: State, op: Op)
    requires Valid(s)
    ensures Valid(Next(s, op))
  {
    match op
    case Submit => SubmitKeeps(s);
    case Fire =>
    case Take => TakeKeeps(s);
    case Finish(k, succeeded) => FinishKeeps(s, k, succeeded);
    case Deliver(k) => DeliverKeeps(s, k);
  }

  function Idle(): State { State(Queue([], false, false, false, 0), Work([], [], [], [], []), 0) }

  function Run(s: State, ops: seq<Op>): State
    decreases |ops|
  {
    if ops == [] then s else Run(Next(s, ops[0]), ops[1..])
  }

  /** In every reachable state. */
  lemma {:induction false} RunKeeps(s: State, ops: seq<Op>)
    requires Valid(s)
    ensures Valid(Run(s, ops))
    decreases |ops|
  {
    if ops != [] {
      NextKeeps(s, ops[0]);
      RunKeeps(Next(s, ops[0]), ops[1..]);
    }
  }

  lemma {:induction false} UpToIsOnceEach(n: nat, r: nat)
    ensures UpTo(n)[r] == if r < n then 1 else 0
  {
    if n > 0 { UpToIsOnceEach(n - 1, r); }
  }

  /** Where requests are before they are told: in the queue or in a group. */
  ghost function Places(s: State): multiset<nat> { multiset(s.queue.pending) + Sum(Members(), s.work.groups) }

  /** The request is queued or in exactly one group if it was admitted at all, is told at most once,
      and its effects are committed as often as it is in a group that succeeded. */
  ghost predicate Once(s: State, r: nat) {
    && Places(s)[r] == (if r < s.admitted then 1 else 0)
    && Sum(Told(), s.work.completions)[r] <= 1
    && multiset(s.work.ledger)[r] == Sum(Committed(), s.work.groups)[r]
  }

  /** In every reachable state every admitted request is in exactly one place and told at most once,
      with the outcome of its group. */
  lemma ToldOnce(ops: seq<Op>, r: nat)
    ensures Once(Run(Idle(), ops), r)
    ensures forall c :: c in Run(Idle(), ops).work.completions ==> CompletionOk(Run(Idle(), ops).work.groups, c)
  {
    assert Valid(Idle());
    RunKeeps(Idle(), ops);
    OnceInValid(Run(Idle(), ops), r);
  }

  lemma OnceInValid(s: State, r: nat)
    requires Valid(s)
    ensures Once(s, r)
  {
    CountOf(Places(s), s.admitted, r);
    AtMostOnce(s, r);
  }

  lemma CountOf(m: multiset<nat>, n: nat, r: nat)
    requires m == UpTo(n)
    ensures m[r] == if r < n then 1 else 0
  {
    UpToIsOnceEach(n, r);
  }

  lemma AtMostOnce(s: State, r: nat)
    requires Valid(s)
    ensures Sum(Told(), s.work.completions)[r] <= 1
  {
    UpToIsOnceEach(s.admitted, r);
  }

  /** Nothing runs and everyone of a finished group has been told. */
  ghost predicate Settled(s: State) {
    !s.queue.running && forall k :: 0 <= k < |s.work.deliveries| ==> s.work.deliveries[k].rest == []
  }

  lemma NobodyWaits(s: State)
    requires Valid(s) && Settled(s)
    ensures s.queue.pending == [] && Sum(Unfinished(), s.work.groups) == multiset{} && Sum(Waiting(), s.work.deliveries) == multiset{}
  {
    var w := s.work;
    assert w.executing == [];
    forall g | 0 <= g < |w.groups| ensures Unfinished()(w.groups[g]) == multiset{} { assert w.groups[g].outcome.Some?; }
    SumOfNone(Unfinished(), w.groups);
    SumOfNone(Waiting(), w.deliveries);
  }

  lemma SettledSum(p: multiset<nat>, a: multiset<nat>, b: multiset<nat>, c: multiset<nat>)
    requires p == multiset{} && a == multiset{} && b == multiset{}
    ensures p + a + b + c == c
  {
  }

  /** When all is settled, every admitted request has been told exactly once. */
  lemma EveryoneIsTold(s: State, r: nat)
    requires Valid(s) && Settled(s)
    ensures Sum(Told(), s.work.completions)[r] == if r < s.admitted then 1 else 0
  {
    NobodyWaits(s);
    SettledSum(multiset(s.queue.pending), Sum(Unfinished(), s.work.groups), Sum(Waiting(), s.work.deliveries), Sum(Told(), s.work.completions));
    UpToIsOnceEach(s.admitted, r);
  }

  // Nothing gets stuck: the steps that remain always lead to a settled state.

  lemma {:induction false} UpToSize(n: nat)
    ensures |UpTo(n)| == n
  {
    if n > 0 { UpToSize(n - 1); }
  }

  lemma {:induction false} ToldSize(completions: seq<Completion>)
    ensures |Sum(Told(), completions)| == |completions|
  {
    if completions != [] { ToldSize(completions[1..]); }
  }

  lemma CompletionsBounded(s: State)
    requires Valid(s)
    ensures |s.work.completions| <= s.admitted
  {
    UpToSize(s.admitted);
    ToldSize(s.work.completions);
    AtMost(multiset(s.queue.pending) + Sum(Unfinished(), s.work.groups) + Sum(Waiting(), s.work.deliveries), Sum(Told(), s.work.completions));
  }

  lemma AtMost(a: multiset<nat>, b: multiset<nat>)
    ensures |b| <= |a + b|
  {
    assert |a + b| == |a| + |b|;
  }

  /** How much is left to do: stages of the runner, and requests not told yet. */
  function Effort(q: Queue, executing: nat): nat {
    4 * |q.pending| + (if q.armed then 3 else 0) + 2 * q.spawned + 3 * executing
  }

  ghost function Measure(s: State): int { Effort(s.queue, |s.work.executing|) + s.admitted - |s.work.completions| }

  lemma RunnerLeavesLess(q: Queue, executing: nat)
    requires OneRunner(q, executing) && q.running
    ensures q.armed ==> Effort(Fired(q), executing) < Effort(q, executing)
    ensures q.spawned > 0 ==> Effort(Emptied(q), executing + 1) < Effort(q, executing)
    ensures executing > 0 ==> Effort(HandedOver(q), executing - 1) < Effort(q, executing)
  {
  }

  lemma RunnerStep(s: State) returns (op: Op)
    requires Valid(s) && s.queue.running
    ensures op != Submit && Measure(Next(s, op)) < Measure(s) && Next(s, op).admitted == s.admitted
  {
    if s.queue.armed {
      op := Fire;
      FireLeavesLess(s);
    } else if s.queue.spawned > 0 {
      op := Take;
      TakeLeavesLess(s);
    } else {
      op := Finish(0, true);
      FinishLeavesLess(s);
    }
  }

  lemma FireLeavesLess(s: State)
    requires Valid(s) && s.queue.running && s.queue.armed
    ensures Measure(Next(s, Fire)) < Measure(s) && Next(s, Fire).admitted == s.admitted
  {
    RunnerLeavesLess(s.queue, |s.work.executing|);
  }

  lemma TakeLeavesLess(s: State)
    requires Valid(s) && s.queue.running && s.queue.spawned > 0
    ensures Measure(Next(s, Take)) < Measure(s) && Next(s, Take).admitted == s.admitted
  {
    RunnerLeavesLess(s.queue, |s.work.executing|);
  }

  lemma FinishLeavesLess(s: State)
    requires Valid(s) && s.queue.running && !s.queue.armed && s.queue.spawned == 0
    ensures Measure(Next(s, Finish(0, true))) < Measure(s) && Next(s, Finish(0, true)).admitted == s.admitted
  {
    RunnerLeavesLess(s.queue, |s.work.executing|);
    assert s.work.executing[0] < |s.work.groups|;
  }

  /** Unless all is settled, a step other than a new request is possible and leaves less to do. */
  lemma Progress(s: State) returns (op: Op)
    requires Valid(s) && !Settled(s)
    ensures op != Submit && Measure(Next(s, op)) < Measure(s) && Next(s, op).admitted == s.admitted
  {
    if s.queue.running {
      op := RunnerStep(s);
    } else {
      var k :| 0 <= k < |s.work.deliveries| && s.work.deliveries[k].rest != [];
      op := Deliver(k);
    }
  }

  /** From every reachable state, without any new request, a settled state can be reached. */
  lemma {:induction false} CanSettle(s: State) returns (ops: seq<Op>)
    requires Valid(s)
    ensures Submit !in ops && Settled(Run(s, ops)) && Run(s, ops).admitted == s.admitted && Valid(Run(s, ops))
    decreases if Measure(s) >= 0 then Measure(s) else 0
  {
    if Settled(s) {
      ops := [];
    } else {
      var op := Progress(s);
      NextKeeps(s, op);
      CompletionsBounded(s);
      CompletionsBounded(Next(s, op));
      var rest := CanSettle(Next(s, op));
      ops := [op] + rest;
      assert ops[1..] == rest;
    }
  }

  // The batcher as it runs.

  /** What callbacks make of a database one after the other; a callback may fail. */
  function Effects<G>(callback: (nat, G) -> Option<G>, db: G, requests: seq<nat>): Option<G> {
    if requests == [] then Some(db)
    else
      var before := Effects(callback, db, requests[..|requests| - 1]);
      if before.None? then None else callback(requests[|requests| - 1], before.value)
  }

  lemma {:induction false} FailureStays<G>(callback: (nat, G) -> Option<G>, db: G, requests: seq<nat>, n: nat)
    requires n <= |requests| && Effects(callback, db, requests[..n]).None?
    ensures Effects(callback, db, requests).None?
    decreases |requests|
  {
    if n == |requests| {
      assert requests[..n] == requests;
    } else {
      var front := requests[..|requests| - 1];
      assert front[..n] == requests[..n];
      FailureStays(callback, db, front, n);
    }
  }

  /** Run the callbacks of a group in order inside one transaction; the first failure, a cancelled
      request or a failed commit abandons the whole group and leaves the database as it was. */
  method RunCallbacks<G>(callback: (nat, G) -> Option<G>, db: G, requests: seq<nat>, cancelled: nat -> bool, commits: bool) returns (ok: bool, after: G)
    ensures ok <==> commits && Effects(callback, db, requests).Some? && forall i :: 0 <= i < |requests| ==> !cancelled(requests[i])
    ensures after == if ok then Effects(callback, db, requests).value else db
  {
    var staged := db;
    for i := 0 to |requests|
      invariant Effects(callback, db, requests[..i]) == Some(staged) && forall j :: 0 <= j < i ==> !cancelled(requests[j])
    {
      if cancelled(requests[i]) {
        return false, db;
      }
      assert requests[..i + 1][..i] == requests[..i];
      var next := callback(requests[i], staged);
      if next.None? {
        FailureStays(callback, db, requests, i + 1);
        return false, db;
      }
      staged := next.value;
    }
    assert requests[..|requests|] == requests;
    ok := commits;
    after := if commits then staged else db;
  }

  class Batcher {

    var pending: seq<nat>
    var running: bool
    var timer: bool
    var armed: bool
    var spawned: nat
    var admitted: nat
    var work: Work

    ghost function View(): State
      reads this
    {
      State(Queue(pending, running, timer, armed, spawned), work, admitted)
    }

    constructor ()
      ensures View() == Idle() && Valid(View())
    {
      pending, running, timer, armed, spawned, admitted := [], false, false, false, 0, 0;
      work := Work([], [], [], [], []);
    }

    /** Queue a request, unless the queue is full. */
    method Admit() returns (accepted: bool, request: nat)
      requires Valid(View())
      modifies this
      ensures Valid(View()) && View() == Next(old(View()), Submit)
      ensures accepted == Accepts(old(View()).queue) && request == old(admitted)
    {
      SubmitKeeps(View());
      accepted, request := Push();
    }

    method Push() returns (accepted: bool, request: nat)
      requires |pending| <= MAX_REQUESTS
      modifies this
      ensures View() == Next(old(View()), Submit)
      ensures accepted == Accepts(old(View()).queue) && request == old(admitted)
    {
      request := admitted;
      if |pending| == MAX_REQUESTS {
        return false, request;
      }
      accepted := true;
      pending := pending + [request];
      admitted := admitted + 1;
      if !running {
        running, timer, armed := true, true, true;
      } else if |pending| == MAX_REQUESTS && timer && armed {
        // Stopping the timer succeeded: its runner will never start.
        armed, spawned := false, spawned + 1;
      }
    }

    /** A runner that was started takes the whole queue. */
    method TakeGroup() returns (requests: seq<nat>)
      requires Valid(View()) && spawned > 0
      modifies this
      ensures Valid(View()) && requests == old(pending) && View() == Next(old(View()), Take)
    {
      TakeKeeps(View());
      requests := Drain();
    }

    method Drain() returns (requests: seq<nat>)
      requires spawned > 0
      modifies this
      ensures requests == old(pending) && View() == Next(old(View()), Take)
    {
      requests := pending;
      pending, timer, spawned := [], false, spawned - 1;
      work := Started(work, requests);
    }

    /** The runner is done: a new one starts if requests are waiting. */
    method EndGroup(ok: bool)
      requires Valid(View()) && work.executing != []
      modifies this
      ensures Valid(View()) && View() == Next(old(View()), Finish(0, ok))
    {
      FinishKeeps(View(), 0, ok);
      HandOver(ok);
    }

    method HandOver(ok: bool)
      requires work.executing != [] && work.executing[0] < |work.groups|
      modifies this
      ensures View() == Next(old(View()), Finish(0, ok))
    {
      work := Finished(work, 0, ok);
      if pending != [] {
        spawned := spawned + 1;
      } else {
        running := false;
      }
    }

    /** Tell the next request of finished group k. */
    method Notify(k: nat)
      requires Valid(View()) && k < |work.deliveries| && work.deliveries[k].rest != []
      modifies this
      ensures Valid(View()) && View() == Next(old(View()), Deliver(k))
    {
      DeliverKeeps(View(), k);
      Tell(k);
    }

    method Tell(k: nat)
      requires k < |work.deliveries| && work.deliveries[k].rest != []
      modifies this`work
      ensures View() == Next(old(View()), Deliver(k))
    {
      work := Delivered(work, k);
    }
  }
}
