/** Links to coordinators: introductions, rejections, removals and reconnects
    that interleave where one awaits, and the saved records they keep. Every
    step runs from one await to the next. */
module Links {
  import opened Strings
  import opened OrderedDict

  datatype Key = Key(owner: string, boardName: string, runtimeId: string)

  datatype Record = Record(key: Key, coordinatorUrl: string, ticket: string)

  datatype Phase = Connecting | Sleeping(delay: nat) | Ended

  datatype Link = Link(record: Record, connected: bool, disposed: bool, phase: Phase, attempts: nat, welcomedOnce: bool)

  /** An operation that is awaiting something. */
  datatype Task =
    | Replacing(record: Record)                // the link there was is being disposed
    | Waiting(record: Record, link: nat)       // to be welcomed
    | Failing(record: Record, link: nat)       // its link is being disposed
    | Removing(key: Key)                       // the link there was is being disposed

  /** `links` are those registered, by number; `all` holds every link there ever
      was. `tornDown` lists the runtimes the host was told to remove. */
  datatype State = State(
    links: Dict<Key, nat>,
    all: seq<Link>,
    saved: seq<Record>,
    tasks: seq<Task>,
    tornDown: seq<Key>)

  /** `joinUrl` is the join endpoint of a coordinator's address, None for no
      address of one; the delays are in milliseconds. */
  datatype Settings = Settings(joinUrl: string -> Option<string>, reconnectDelay: nat, maxReconnectDelay: nat)

  datatype Step =
    | Introduce(record: Record)
    | Replaced(task: nat)
    | Settled(task: nat, welcomed: bool)
    | Failed(task: nat)
    | Remove(key: Key)
    | Removed(task: nat)
    | Welcome(link: nat)
    | ConnectionEnds(link: nat, rejected: bool)
    | Wake(link: nat)

  predicate Enabled(s: State, step: Step) {
    match step
    case Introduce(_) => true
    case Replaced(i) => i < |s.tasks| && s.tasks[i].Replacing?
    case Settled(i, _) => i < |s.tasks| && s.tasks[i].Waiting?
    case Failed(i) => i < |s.tasks| && s.tasks[i].Failing?
    case Remove(_) => true
    case Removed(i) => i < |s.tasks| && s.tasks[i].Removing?
    case Welcome(l) => l < |s.all| && s.all[l].phase.Connecting? && !s.all[l].disposed
    case ConnectionEnds(l, _) => l < |s.all| && s.all[l].phase.Connecting?
    case Wake(l) => l < |s.all| && s.all[l].phase.Sleeping?
  }

  // ── What one step does ────────────────────────────────────────────────────

  function RecordsOf(links: Dict<Key, nat>, all: seq<Link>): (records: seq<Record>)
    ensures |records| == |links|
  {
    seq(|links|, i requires 0 <= i < |links| => RecordOf(links[i].value, all))
  }

  const NO_RECORD := Record(Key("", "", ""), "", "")

  function RecordOf(l: nat, all: seq<Link>): Record { if l < |all| then all[l].record else NO_RECORD }

  function Persist(s: State): State { s.(saved := RecordsOf(s.links, s.all)) }

  function Drop(tasks: seq<Task>, i: nat): (left: seq<Task>)
    requires i < |tasks|
    ensures |left| == |tasks| - 1
  {
    tasks[..i] + tasks[i + 1..]
  }

  /** `dispose` up to where it awaits. */
  function Dispose(all: seq<Link>, l: nat): seq<Link> {
    if l < |all| then all[l := all[l].(disposed := true)] else all
  }

  /** A link of its own for the record, registered and connecting. */
  function Begin(s: State, record: Record): State {
    s.(links := Put(s.links, record.key, |s.all|),
       all := s.all + [Link(record, false, false, Connecting, 0, false)])
  }

  function IsConnected(s: State, key: Key): bool {
    Has(s.links, key) && Get(s.links, key).value < |s.all| && s.all[Get(s.links, key).value].connected
  }

  /** What an introduction came to at once. */
  datatype Introduced = Begun | AlreadyThere | HeldByAnother | NotAnAddress

  /** The join endpoint of the coordinator a runtime's link is for. */
  function Joined(s: State, key: Key, cfg: Settings): Option<string>
    requires IsConnected(s, key)
  {
    cfg.joinUrl(s.all[Get(s.links, key).value].record.coordinatorUrl)
  }

  function Delay(cfg: Settings, attempts: nat): nat {
    var delay := cfg.reconnectDelay * Doubled(attempts);
    if delay < cfg.maxReconnectDelay then delay else cfg.maxReconnectDelay
  }

  function Doubled(n: nat): (p: nat)
    ensures p >= 1
  {
    if n == 0 then 1 else 2 * Doubled(n - 1)
  }

  /** What the coordinator's rejection of a link does: only while that very link
      is the registered one. */
  function OnRejected(s: State, l: nat): State
    requires l < |s.all|
  {
    var key := s.all[l].record.key;
    if Get(s.links, key) != Some(l) then s
    else Persist(s.(links := OrderedDict.Remove(s.links, key), tornDown := s.tornDown + [key]))
  }

  function Take(s: State, step: Step, cfg: Settings): State
    requires Enabled(s, step)
  {
    match step
    case Introduce(record) =>
      if cfg.joinUrl(record.coordinatorUrl).None? || IsConnected(s, record.key) then s
      else if Has(s.links, record.key) then
        s.(links := OrderedDict.Remove(s.links, record.key),
           all := Dispose(s.all, Get(s.links, record.key).value),
           tasks := s.tasks + [Replacing(record)])
      else
        var t := Begin(s, record);
        t.(tasks := t.tasks + [Waiting(record, |s.all|)])
    case Replaced(i) =>
      var record := s.tasks[i].record;
      var t := Begin(s, record);
      t.(tasks := Drop(s.tasks, i) + [Waiting(record, |s.all|)])
    case Settled(i, welcomed) =>
      var task := s.tasks[i];
      if welcomed then Persist(s.(tasks := Drop(s.tasks, i)))
      else s.(all := Dispose(s.all, task.link), tasks := s.tasks[i := Failing(task.record, task.link)])
    case Failed(i) =>
      var task := s.tasks[i];
      var key := task.record.key;
      var links := if Get(s.links, key) == Some(task.link) then OrderedDict.Remove(s.links, key) else s.links;
      Persist(s.(links := links, tasks := Drop(s.tasks, i)))
    case Remove(key) =>
      if !Has(s.links, key) then s
      else
        s.(links := OrderedDict.Remove(s.links, key),
           all := Dispose(s.all, Get(s.links, key).value),
           tasks := s.tasks + [Removing(key)])
    case Removed(i) =>
      Persist(s.(tasks := Drop(s.tasks, i), tornDown := s.tornDown + [s.tasks[i].key]))
    case Welcome(l) => s.(all := s.all[l := s.all[l].(connected := true, welcomedOnce := true)])
    case ConnectionEnds(l, rejected) =>
      var link := s.all[l].(connected := false);
      if link.disposed then s.(all := s.all[l := link.(phase := Ended)])
      else if rejected then
        OnRejected(s.(all := s.all[l := link.(disposed := true, phase := Ended)]), l)
      else
        var attempts := if link.welcomedOnce then 0 else link.attempts;
        s.(all := s.all[l := link.(phase := Sleeping(Delay(cfg, attempts)), attempts := attempts + 1, welcomedOnce := false)])
    case Wake(l) => s.(all := s.all[l := s.all[l].(phase := if s.all[l].disposed then Ended else Connecting)])
  }

  // ── Starting from what was saved ──────────────────────────────────────────

  /** `restore`: a link for each saved record whose key has none yet. */
  function Restore(s: State, records: seq<Record>): State
    decreases |records|
  {
    if records == [] then s
    else Restore(if Has(s.links, records[0].key) then s else Begin(s, records[0]), records[1..])
  }

  function Start(saved: seq<Record>): State { Restore(State([], [], saved, [], []), saved) }

  function Run(saved: seq<Record>, steps: seq<Step>, cfg: Settings): State {
    if steps == [] then Start(saved)
    else
      var s, step := Run(saved, steps[..|steps| - 1], cfg), steps[|steps| - 1];
      if Enabled(s, step) then Take(s, step, cfg) else s
  }

  // ── What every step keeps ─────────────────────────────────────────────────

  /** One link per key, registered under its own record's key. */
  ghost predicate Registered(links: Dict<Key, nat>, all: seq<Link>) {
    && Unique(links)
    && (forall i | 0 <= i < |links| :: links[i].value < |all| && all[links[i].value].record.key == links[i].key)
  }

  /** A task's link is one for its record; one that failed is disposed of. */
  ghost predicate TaskHolds(task: Task, all: seq<Link>) {
    task.Waiting? || task.Failing? ==>
      task.link < |all| && all[task.link].record == task.record && (task.Failing? ==> all[task.link].disposed)
  }

  ghost predicate TasksHold(tasks: seq<Task>, all: seq<Link>) {
    forall i | 0 <= i < |tasks| :: TaskHolds(tasks[i], all)
  }

  ghost predicate SavedAtRest(s: State) {
    s.tasks == [] ==> s.saved == RecordsOf(s.links, s.all)
  }

  ghost predicate UniqueKeys(records: seq<Record>) {
    forall i, j | 0 <= i < j < |records| :: records[i].key != records[j].key
  }

  ghost predicate Wired(s: State) { Registered(s.links, s.all) && TasksHold(s.tasks, s.all) }

  ghost predicate Inv(s: State) { Wired(s) && SavedAtRest(s) && UniqueKeys(s.saved) }

  /** Links are never forgotten, a link's record never changes, and one disposed
      of stays so. */
  ghost predicate Extends(all: seq<Link>, all': seq<Link>) {
    |all| <= |all'| && forall i | 0 <= i < |all| ::
                         all'[i].record == all[i].record && (all[i].disposed ==> all'[i].disposed)
  }

  lemma ExtendedKeeps(links: Dict<Key, nat>, tasks: seq<Task>, all: seq<Link>, all': seq<Link>)
    requires Registered(links, all) && TasksHold(tasks, all) && Extends(all, all')
    ensures Registered(links, all') && TasksHold(tasks, all')
    ensures RecordsOf(links, all') == RecordsOf(links, all)
  {
    assert forall i | 0 <= i < |links| :: RecordOf(links[i].value, all') == RecordOf(links[i].value, all);
    assert forall i | 0 <= i < |tasks| :: TaskHolds(tasks[i], all) ==> TaskHolds(tasks[i], all');
  }

  lemma RecordsAreUnique(links: Dict<Key, nat>, all: seq<Link>)
    requires Registered(links, all)
    ensures UniqueKeys(RecordsOf(links, all))
  {
    var r := RecordsOf(links, all);
    assert forall i | 0 <= i < |r| :: r[i].key == links[i].key;
  }

  lemma PutKeeps(links: Dict<Key, nat>, k: Key, l: nat, all: seq<Link>)
    requires Registered(links, all) && l < |all| && all[l].record.key == k
    ensures Registered(Put(links, k, l), all)
  {
    GetPut(links, k, l, k);
  }

  lemma RemoveKeeps(links: Dict<Key, nat>, k: Key, all: seq<Link>)
    requires Registered(links, all)
    ensures Registered(OrderedDict.Remove(links, k), all)
  {
    GetRemove(links, k, k);
    var i, r := Find(links, k), OrderedDict.Remove(links, k);
    if i < |links| {
      assert forall j | 0 <= j < |r| :: r[j] == links[if j < i then j else j + 1];
    }
  }

  lemma DropKeeps(tasks: seq<Task>, i: nat, all: seq<Link>)
    requires TasksHold(tasks, all) && i < |tasks|
    ensures TasksHold(Drop(tasks, i), all)
  {
    assert forall j | 0 <= j < |Drop(tasks, i)| :: Drop(tasks, i)[j] == tasks[if j < i then j else j + 1];
  }

  lemma BeginKeeps(s: State, record: Record)
    requires Registered(s.links, s.all) && TasksHold(s.tasks, s.all)
    ensures var t := Begin(s, record);
            Registered(t.links, t.all) && TasksHold(t.tasks, t.all) && TaskHolds(Waiting(record, |s.all|), t.all)
  {
    var t := Begin(s, record);
    ExtendedKeeps(s.links, s.tasks, s.all, t.all);
    PutKeeps(s.links, record.key, |s.all|, t.all);
  }

  /** A task taken up awaits; nothing has to be saved until it is done. */
  lemma IntroduceInv(s: State, record: Record, cfg: Settings)
    requires Inv(s)
    ensures Inv(Take(s, Introduce(record), cfg))
  {
    if cfg.joinUrl(record.coordinatorUrl).Some? && !IsConnected(s, record.key) {
      if Has(s.links, record.key) {
        RemoveInv(s, record.key, Replacing(record));
      } else {
        BeginKeeps(s, record);
      }
    }
  }

  lemma RemoveInv(s: State, key: Key, task: Task)
    requires Inv(s) && Has(s.links, key) && (task.Replacing? || task.Removing?)
    ensures Inv(s.(links := OrderedDict.Remove(s.links, key),
                   all := Dispose(s.all, Get(s.links, key).value), tasks := s.tasks + [task]))
  {
    var all := Dispose(s.all, Get(s.links, key).value);
    ExtendedKeeps(s.links, s.tasks, s.all, all);
    RemoveKeeps(s.links, key, all);
    assert TaskHolds(task, all);
  }

  lemma ReplacedInv(s: State, i: nat, cfg: Settings)
    requires Inv(s) && Enabled(s, Replaced(i))
    ensures Inv(Take(s, Replaced(i), cfg))
  {
    BeginKeeps(s, s.tasks[i].record);
    DropKeeps(s.tasks, i, Begin(s, s.tasks[i].record).all);
  }

  lemma SettledInv(s: State, i: nat, welcomed: bool, cfg: Settings)
    requires Inv(s) && Enabled(s, Settled(i, welcomed))
    ensures Inv(Take(s, Settled(i, welcomed), cfg))
  {
    var task := s.tasks[i];
    assert TaskHolds(task, s.all);
    if welcomed {
      DropKeeps(s.tasks, i, s.all);
      RecordsAreUnique(s.links, s.all);
    } else {
      var all := Dispose(s.all, task.link);
      ExtendedKeeps(s.links, s.tasks, s.all, all);
      assert TaskHolds(Failing(task.record, task.link), all);
    }
  }

  lemma FailedInv(s: State, i: nat, cfg: Settings)
    requires Inv(s) && Enabled(s, Failed(i))
    ensures Inv(Take(s, Failed(i), cfg))
  {
    DropKeeps(s.tasks, i, s.all);
    RemoveKeeps(s.links, s.tasks[i].record.key, s.all);
    RecordsAreUnique(Take(s, Failed(i), cfg).links, s.all);
  }

  lemma RejectedInv(s: State, l: nat, t: State)
    requires Inv(s) && l < |s.all| && Extends(s.all, t.all) && |t.all| == |s.all| && t == s.(all := t.all)
    ensures Inv(t) && Inv(OnRejected(t, l))
  {
    ExtendedKeeps(s.links, s.tasks, s.all, t.all);
    RemoveKeeps(t.links, t.all[l].record.key, t.all);
    RecordsAreUnique(OrderedDict.Remove(t.links, t.all[l].record.key), t.all);
  }

  /** Every step keeps one link per key, each under its own key, and leaves the
      saved records those of the registered links once nothing is in flight. */
  lemma StepInv(s: State, step: Step, cfg: Settings)
    requires Inv(s) && Enabled(s, step)
    ensures Inv(Take(s, step, cfg))
  {
    match step
    case Introduce(record) => IntroduceInv(s, record, cfg);
    case Replaced(i) => ReplacedInv(s, i, cfg);
    case Settled(i, welcomed) => SettledInv(s, i, welcomed, cfg);
    case Failed(i) => FailedInv(s, i, cfg);
    case Remove(key) =>
      if Has(s.links, key) {
        RemoveInv(s, key, Removing(key));
      }
    case Removed(i) =>
      DropKeeps(s.tasks, i, s.all);
      RecordsAreUnique(s.links, s.all);
    case Welcome(l) => ExtendedKeeps(s.links, s.tasks, s.all, Take(s, step, cfg).all);
    case ConnectionEnds(l, rejected) => EndsInv(s, l, rejected, cfg);
    case Wake(l) => ExtendedKeeps(s.links, s.tasks, s.all, Take(s, step, cfg).all);
  }

  lemma EndsInv(s: State, l: nat, rejected: bool, cfg: Settings)
    requires Inv(s) && Enabled(s, ConnectionEnds(l, rejected))
    ensures Inv(Take(s, ConnectionEnds(l, rejected), cfg))
  {
    var link := s.all[l].(connected := false);
    if !link.disposed && rejected {
      RejectedInv(s, l, s.(all := s.all[l := link.(disposed := true, phase := Ended)]));
    } else {
      ExtendedKeeps(s.links, s.tasks, s.all, Take(s, ConnectionEnds(l, rejected), cfg).all);
    }
  }

  /** What is registered and in flight does not depend on what was saved. */
  lemma SavedIsNotRead(s: State, saved: seq<Record>, step: Step, cfg: Settings)
    requires Enabled(s, step)
    ensures var t, u := Take(s, step, cfg), Take(s.(saved := saved), step, cfg);
            t.links == u.links && t.all == u.all && t.tasks == u.tasks && t.tornDown == u.tornDown
  {
  }

  /** So that part is kept whatever was saved before, two records of one runtime
      among it or not. */
  lemma StepWired(s: State, step: Step, cfg: Settings)
    requires Wired(s) && Enabled(s, step)
    ensures Wired(Take(s, step, cfg))
  {
    var saved := RecordsOf(s.links, s.all);
    RecordsAreUnique(s.links, s.all);
    StepInv(s.(saved := saved), step, cfg);
    SavedIsNotRead(s, saved, step, cfg);
  }
}
