/** The registry of links to coordinators: what each of its operations does to
    its fields from one await to the next, proved against the steps of Links. */
module CoordinatorLinks {
  import opened Strings
  import opened OrderedDict
  import opened Links
  import opened LinkRuns

  lemma RestoringIsValid(s: State, records: seq<Record>)
    requires s.links == [] && s.all == [] && s.tasks == [] && s.saved == records
    ensures var t := Links.Restore(s, records); Wired(t) && (UniqueKeys(records) ==> Inv(t))
  {
    RestoreKeeps(s, records);
    if UniqueKeys(records) {
      RestoreRegistersAll(s, records);
      assert RecordsOf(s.links, s.all) + records == records;
    }
  }

  lemma StepKeeps(s: State, step: Step, cfg: Settings)
    requires Wired(s) && Enabled(s, step)
    ensures Wired(Take(s, step, cfg)) && (Inv(s) ==> Inv(Take(s, step, cfg)))
  {
    StepWired(s, step, cfg);
    if Inv(s) {
      StepInv(s, step, cfg);
    }
  }

  class CoordinatorLinks {
    const cfg: Settings
    var links: Dict<Key, nat>
    var all: seq<Link>
    var saved: seq<Record>
    var tasks: seq<Task>
    var tornDown: seq<Key>

    ghost function Now(): State reads this { State(links, all, saved, tasks, tornDown) }

    /** One link a runtime, registered under its own record, and tasks that hold
        links of theirs. */
    ghost predicate Valid() reads this { Wired(Now()) }

    /** And what is saved is what is registered whenever nothing is in flight. */
    ghost predicate Agreed() reads this { Inv(Now()) }

    constructor (cfg: Settings, saved: seq<Record>)
      ensures this.cfg == cfg && Now() == State([], [], saved, [], []) && Valid()
    {
      this.cfg := cfg;
      links, all, tasks, tornDown := [], [], [], [];
      this.saved := saved;
    }

    /** Started from a store that holds no two records of one runtime, what is
        saved agrees from the beginning; else from the first operation that saves. */
    method Restore()
      requires links == [] && all == [] && tasks == []
      modifies this
      ensures Now() == Links.Restore(old(Now()), old(saved))
      ensures Valid() && (UniqueKeys(old(saved)) ==> Agreed())
    {
      var records := saved;
      RestoringIsValid(Now(), saved);
      for i := 0 to |records|
        invariant saved == records
        invariant Links.Restore(Now(), records[i..]) == Links.Restore(old(Now()), records)
      {
        var record := records[i];
        assert records[i..][0] == record && records[i..][1..] == records[i + 1..];
        if !Has(links, record.key) {
          CreateLink(record);
        }
      }
    }

    method CreateLink(record: Record)
      modifies this
      ensures Now() == Begin(old(Now()), record)
    {
      links := Put(links, record.key, |all|);
      all := all + [Link(record, false, false, Connecting, 0, false)];
    }

    /** `introduce` up to where it awaits; answers whether the runtime was
        connected already, or why nothing was changed. */
    method Introduce(record: Record) returns (answer: Introduced)
      requires Valid()
      modifies this
      ensures Valid() && (old(Agreed()) ==> Agreed())
      ensures Now() == Take(old(Now()), Step.Introduce(record), cfg)
      ensures answer == (
        if cfg.joinUrl(record.coordinatorUrl).None? then NotAnAddress
        else if IsConnected(old(Now()), record.key) then
          if Joined(old(Now()), record.key, cfg) == cfg.joinUrl(record.coordinatorUrl) then AlreadyThere else HeldByAnother
        else Begun)
    {
      StepKeeps(Now(), Step.Introduce(record), cfg);
      var url := cfg.joinUrl(record.coordinatorUrl);
      if url.None? {
        return NotAnAddress;
      }
      var existing := Get(links, record.key);
      if existing.Some? && existing.value < |all| && all[existing.value].connected {
        if cfg.joinUrl(all[existing.value].record.coordinatorUrl) != url {
          return HeldByAnother;
        }
        return AlreadyThere;
      }
      if existing.Some? {
        links := OrderedDict.Remove(links, record.key);
        all := Dispose(all, existing.value);
        tasks := tasks + [Replacing(record)];
      } else {
        var link := |all|;
        CreateLink(record);
        tasks := tasks + [Waiting(record, link)];
      }
      answer := Begun;
    }

    method FinishReplacing(i: nat)
      requires Enabled(Now(), Replaced(i))
      requires Valid()
      modifies this
      ensures Valid() && (old(Agreed()) ==> Agreed())
      ensures Now() == Take(old(Now()), Replaced(i), cfg)
    {
      StepKeeps(Now(), Replaced(i), cfg);
      var record, link := tasks[i].record, |all|;
      CreateLink(record);
      tasks := Drop(tasks, i) + [Waiting(record, link)];
    }

    /** How the first connection went, or that nobody answered in time. */
    method Settle(i: nat, welcomed: bool)
      requires Enabled(Now(), Settled(i, welcomed))
      requires Valid()
      modifies this
      ensures Valid() && (old(Agreed()) ==> Agreed())
      ensures Now() == Take(old(Now()), Settled(i, welcomed), cfg)
    {
      StepKeeps(Now(), Settled(i, welcomed), cfg);
      var task := tasks[i];
      if !welcomed {
        all := Dispose(all, task.link);
        tasks := tasks[i := Failing(task.record, task.link)];
        return;
      }
      tasks := Drop(tasks, i);
      Persist();
    }

    method FinishFailing(i: nat)
      requires Enabled(Now(), Failed(i))
      requires Valid()
      modifies this
      ensures Valid() && (old(Agreed()) ==> Agreed())
      ensures Now() == Take(old(Now()), Failed(i), cfg)
    {
      StepKeeps(Now(), Failed(i), cfg);
      var task := tasks[i];
      if Get(links, task.record.key) == Some(task.link) {
        links := OrderedDict.Remove(links, task.record.key);
      }
      tasks := Drop(tasks, i);
      Persist();
    }

    method Remove(key: Key) returns (found: bool)
      requires Valid()
      modifies this
      ensures Valid() && (old(Agreed()) ==> Agreed())
      ensures Now() == Take(old(Now()), Step.Remove(key), cfg)
      ensures found == Has(old(links), key)
    {
      StepKeeps(Now(), Step.Remove(key), cfg);
      var link := Get(links, key);
      if link.None? {
        return false;
      }
      links := OrderedDict.Remove(links, key);
      all := Dispose(all, link.value);
      tasks := tasks + [Removing(key)];
      found := true;
    }

    method FinishRemoving(i: nat)
      requires Enabled(Now(), Removed(i))
      requires Valid()
      modifies this
      ensures Valid() && (old(Agreed()) ==> Agreed())
      ensures Now() == Take(old(Now()), Removed(i), cfg)
    {
      StepKeeps(Now(), Removed(i), cfg);
      tornDown := tornDown + [tasks[i].key];
      tasks := Drop(tasks, i);
      Persist();
    }

    /** `_run` from the end of a connection to its sleep or its end. */
    method ConnectionEnded(l: nat, rejected: bool)
      requires Enabled(Now(), ConnectionEnds(l, rejected))
      requires Valid()
      modifies this
      ensures Valid() && (old(Agreed()) ==> Agreed())
      ensures Now() == Take(old(Now()), ConnectionEnds(l, rejected), cfg)
    {
      StepKeeps(Now(), ConnectionEnds(l, rejected), cfg);
      var link := all[l].(connected := false);
      if link.disposed {
        all := all[l := link.(phase := Ended)];
        return;
      }
      if rejected {
        all := all[l := link.(disposed := true, phase := Ended)];
        Rejected(l);
        return;
      }
      var attempts := link.attempts;
      if link.welcomedOnce {
        attempts := 0;
      }
      all := all[l := link.(phase := Sleeping(Delay(cfg, attempts)), attempts := attempts + 1, welcomedOnce := false)];
    }

    method Rejected(l: nat)
      requires l < |all|
      modifies this
      ensures Now() == OnRejected(old(Now()), l)
    {
      var key := all[l].record.key;
      if Get(links, key) != Some(l) {
        return;
      }
      links := OrderedDict.Remove(links, key);
      tornDown := tornDown + [key];
      Persist();
    }

    method Persist()
      modifies this`saved
      ensures Now() == Links.Persist(old(Now()))
    {
      var records := [];
      for i := 0 to |links|
        invariant records == RecordsOf(links, all)[..i]
      {
        records := records + [RecordOf(links[i].value, all)];
      }
      saved := records;
    }
  }
}
