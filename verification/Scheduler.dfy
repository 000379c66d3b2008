/**
 Scheduler bookkeeping: the entries and jobs maps against the cron table. Every operation below is one
 locked section of the source, so interleavings are sequences of operations.
 */
module Scheduler {
  import opened Collections

  datatype Task = Task(id: string, cronExpression: string, enabled: bool, maxRuns: int, runCount: int)

  predicate Exhausted(t: Task) {
    t.maxRuns > 0 && t.runCount >= t.maxRuns
  }

  /** What cron fires: the task as it was when it was added, on the expression it was added with. */
  datatype Job = Job(expression: string, task: Task)

  /** `live` maps the entries cron will fire to what each one runs; IDs are handed out from 1 on. */
  datatype State = State(entries: map<string, nat>, jobs: map<string, Task>, live: map<nat, Job>, next: nat)

  datatype Event =
    | Schedule(task: Task)
    | Unschedule(id: string)
    | Toggle(id: string, enabled: bool)
    | Executed(task: Task)   // the end of a run; `task` is the snapshot the run was started with

  /** A read of the entries map: the zero ID, which cron never issues, if there is none. */
  function EntryOf(entries: map<string, nat>, id: string): nat {
    if id in entries then entries[id] else 0
  }

  function WithoutEntry(s: State, id: string): State {
    s.(live := s.live - {EntryOf(s.entries, id)})
  }

  /** cron.AddJob, recorded under the task. */
  function WithEntry(s: State, id: string, task: Task): State {
    s.(live := s.live[s.next := Job(task.cronExpression, task)], next := s.next + 1, entries := s.entries[id := s.next])
  }

  /** `parses` tells which cron expressions are accepted. */
  function Apply(parses: string -> bool, s: State, e: Event): State {
    match e
    case Schedule(task) =>
      if Exhausted(task) then s
      else if !parses(task.cronExpression) then WithoutEntry(s, task.id)
      else WithEntry(WithoutEntry(s, task.id), task.id, task).(jobs := s.jobs[task.id := task])
    case Unschedule(id) =>
      if id in s.entries then WithoutEntry(s, id).(entries := s.entries - {id}, jobs := s.jobs - {id}) else s
    case Toggle(id, enabled) =>
      if id !in s.jobs then s
      else
        var task := s.jobs[id].(enabled := enabled);
        if !enabled then WithoutEntry(s, id).(entries := s.entries - {id}, jobs := s.jobs[id := task])
        else if !parses(task.cronExpression) then WithoutEntry(s, id)
        else WithEntry(WithoutEntry(s, id), id, task).(jobs := s.jobs[id := task])
    case Executed(task) =>
      var done := task.(runCount := task.runCount + 1);
      var recorded := s.(jobs := s.jobs[task.id := done]);
      if Exhausted(done) then WithoutEntry(recorded, task.id).(entries := s.entries - {task.id}) else recorded
  }

  function Run(parses: string -> bool, events: seq<Event>): State {
    if events == [] then State(map[], map[], map[], 1)
    else
      var n := |events| - 1;
      Apply(parses, Run(parses, events[..n]), events[n])
  }

  // ---- The invariant -------------------------------------------------------------------------

  /** Each live entry is the one recorded for the task it runs; recorded IDs are issued once. */
  ghost predicate Wired(s: State) {
    && s.next >= 1
    && (forall e :: e in s.live ==>
       1 <= e < s.next && s.live[e].task.id in s.entries && s.entries[s.live[e].task.id] == e)
    && (forall t :: t in s.entries ==> 1 <= s.entries[t] < s.next && t in s.jobs)
    && (forall t :: t in s.jobs ==> s.jobs[t].id == t)
    && (forall t, u :: t in s.entries && u in s.entries && s.entries[t] == s.entries[u] ==> t == u)
  }

  /** Cron will fire the task. */
  ghost predicate Live(s: State, id: string) {
    exists e :: e in s.live && s.live[e].task.id == id
  }

  lemma WithoutEntryWired(s: State, id: string)
    requires Wired(s)
    ensures Wired(WithoutEntry(s, id)) && !Live(WithoutEntry(s, id), id)
    ensures forall u :: u != id ==> (Live(WithoutEntry(s, id), u) <==> Live(s, u))
  {
    var after := WithoutEntry(s, id);
    assert forall e :: e in after.live ==> e in s.live && after.live[e] == s.live[e];
    forall u | u != id && Live(s, u) ensures Live(after, u) {
      var e :| e in s.live && s.live[e].task.id == u;
      assert e in after.live;
    }
  }

  lemma WithEntryLive(s: State, task: Task, u: string)
    requires s.next !in s.live
    ensures Live(WithEntry(s, task.id, task), u) <==> (u == task.id || Live(s, u))
  {
    var after := WithEntry(s, task.id, task);
    assert s.next in after.live && after.live[s.next].task == task;
    if u != task.id && Live(s, u) {
      var e :| e in s.live && s.live[e].task.id == u;
      assert e in after.live && after.live[e].task.id == u;
    }
  }

  lemma WithEntryWired(s: State, task: Task)
    requires Wired(s) && !Live(s, task.id) && task.id in s.jobs
    ensures Wired(WithEntry(s, task.id, task))
  {
  }

  lemma ForgettingWired(s: State, id: string)
    requires Wired(s) && !Live(s, id)
    ensures Wired(s.(entries := s.entries - {id}))
    ensures Wired(s.(entries := s.entries - {id}, jobs := s.jobs - {id}))
  {
  }

  /** What each operation does to the liveness of task `t`: the whole story. */
  ghost predicate LiveAfter(parses: string -> bool, s: State, e: Event, t: string, before: bool) {
    match e
    case Schedule(task) =>
      if task.id != t || Exhausted(task) then before else parses(task.cronExpression)
    case Unschedule(id) => id != t && before
    case Toggle(id, enabled) =>
      if id != t then before else id in s.jobs && enabled && parses(s.jobs[id].cronExpression)
    case Executed(task) =>
      before && !(task.id == t && Exhausted(task.(runCount := task.runCount + 1)))
  }

  lemma NotRecordedNotLive(s: State, id: string)
    requires Wired(s) && id !in s.entries
    ensures !Live(s, id)
  {
  }

  lemma ApplyWired(parses: string -> bool, s: State, e: Event, t: string)
    requires Wired(s)
    ensures Wired(Apply(parses, s, e))
    ensures Live(Apply(parses, s, e), t) <==> LiveAfter(parses, s, e, t, Live(s, t))
  {
    match e
    case Schedule(task) => ScheduleWired(parses, s, task, t);
    case Unschedule(id) => UnscheduleWired(parses, s, id, t);
    case Toggle(id, enabled) =>
      if id !in s.jobs {
        NotRecordedNotLive(s, id);
      } else if enabled {
        EnableWired(parses, s, id, t);
      } else {
        DisableWired(parses, s, id, t);
      }
    case Executed(task) => ExecutedWired(parses, s, task, t);
  }

  lemma JobsWired(s: State, id: string, task: Task)
    requires Wired(s) && task.id == id
    ensures Wired(s.(jobs := s.jobs[id := task]))
    ensures forall u :: Live(s.(jobs := s.jobs[id := task]), u) <==> Live(s, u)
  {
  }

  /** Removing a task's entry and adding a fresh one. */
  lemma ReplaceWired(s: State, task: Task, t: string)
    requires Wired(s) && task.id in s.jobs
    ensures Wired(WithEntry(WithoutEntry(s, task.id), task.id, task))
    ensures Live(WithEntry(WithoutEntry(s, task.id), task.id, task), t) <==> (t == task.id || Live(s, t))
  {
    WithoutEntryWired(s, task.id);
    WithEntryWired(WithoutEntry(s, task.id), task);
    WithEntryLive(WithoutEntry(s, task.id), task, t);
  }

  /** Removing a task's entry and forgetting it. */
  lemma DropWired(s: State, id: string, t: string)
    requires Wired(s)
    ensures Wired(WithoutEntry(s, id).(entries := s.entries - {id}))
    ensures Live(WithoutEntry(s, id).(entries := s.entries - {id}), t) <==> (t != id && Live(s, t))
  {
    WithoutEntryWired(s, id);
    ForgettingWired(WithoutEntry(s, id), id);
    SameTable(WithoutEntry(s, id), WithoutEntry(s, id).(entries := s.entries - {id}), t);
  }

  lemma ScheduleWired(parses: string -> bool, s: State, task: Task, t: string)
    requires Wired(s)
    ensures Wired(Apply(parses, s, Schedule(task)))
    ensures Live(Apply(parses, s, Schedule(task)), t) <==> LiveAfter(parses, s, Schedule(task), t, Live(s, t))
  {
    if !Exhausted(task) {
      if parses(task.cronExpression) {
        JobsWired(s, task.id, task);
        ReplaceWired(s.(jobs := s.jobs[task.id := task]), task, t);
      } else {
        WithoutEntryWired(s, task.id);
      }
    }
  }

  lemma UnscheduleWired(parses: string -> bool, s: State, id: string, t: string)
    requires Wired(s)
    ensures Wired(Apply(parses, s, Unschedule(id)))
    ensures Live(Apply(parses, s, Unschedule(id)), t) <==> (id != t && Live(s, t))
  {
    if id in s.entries {
      WithoutEntryWired(s, id);
      ForgettingWired(WithoutEntry(s, id), id);
      SameTable(WithoutEntry(s, id), Apply(parses, s, Unschedule(id)), t);
    } else {
      NotRecordedNotLive(s, id);
    }
  }

  lemma EnableWired(parses: string -> bool, s: State, id: string, t: string)
    requires Wired(s) && id in s.jobs
    ensures Wired(Apply(parses, s, Toggle(id, true)))
    ensures Live(Apply(parses, s, Toggle(id, true)), t) <==> LiveAfter(parses, s, Toggle(id, true), t, Live(s, t))
  {
    var task := s.jobs[id].(enabled := true);
    if parses(task.cronExpression) {
      JobsWired(s, id, task);
      ReplaceWired(s.(jobs := s.jobs[id := task]), task, t);
    } else {
      WithoutEntryWired(s, id);
    }
  }

  lemma DisableWired(parses: string -> bool, s: State, id: string, t: string)
    requires Wired(s) && id in s.jobs
    ensures Wired(Apply(parses, s, Toggle(id, false)))
    ensures Live(Apply(parses, s, Toggle(id, false)), t) <==> (id != t && Live(s, t))
  {
    JobsWired(s, id, s.jobs[id].(enabled := false));
    DropWired(s.(jobs := s.jobs[id := s.jobs[id].(enabled := false)]), id, t);
  }

  lemma ExecutedWired(parses: string -> bool, s: State, task: Task, t: string)
    requires Wired(s)
    ensures Wired(Apply(parses, s, Executed(task)))
    ensures Live(Apply(parses, s, Executed(task)), t) <==> LiveAfter(parses, s, Executed(task), t, Live(s, t))
  {
    var done := task.(runCount := task.runCount + 1);
    var recorded := s.(jobs := s.jobs[task.id := done]);
    JobsWired(s, task.id, done);
    if Exhausted(done) {
      DropWired(recorded, task.id, t);
      assert Apply(parses, s, Executed(task)) == WithoutEntry(recorded, task.id).(entries := s.entries - {task.id});
    } else {
      assert Apply(parses, s, Executed(task)) == recorded;
    }
  }

  /** Liveness is a matter of the cron table alone. */
  lemma SameTable(a: State, b: State, t: string)
    ensures a.live == b.live ==> (Live(a, t) <==> Live(b, t))
  {
  }

  // ---- Every reachable state -----------------------------------------------------------------

  lemma {:induction false} EveryStateWired(parses: string -> bool, events: seq<Event>)
    ensures Wired(Run(parses, events))
  {
    if events == [] {
    } else {
      var n := |events| - 1;
      EveryStateWired(parses, events[..n]);
      ApplyWired(parses, Run(parses, events[..n]), events[n], "");
    }
  }

  /** No task ever has two live entries. */
  lemma OneEntryPerTask(parses: string -> bool, events: seq<Event>, e1: nat, e2: nat)
    requires e1 in Run(parses, events).live && e2 in Run(parses, events).live
    requires Run(parses, events).live[e1].task.id == Run(parses, events).live[e2].task.id
    ensures e1 == e2
  {
    EveryStateWired(parses, events);
  }

  /** The task an operation is about. */
  function Subject(e: Event): string {
    match e
    case Schedule(task) => task.id
    case Unschedule(id) => id
    case Toggle(id, _) => id
    case Executed(task) => task.id
  }

  predicate SameRecords(a: State, b: State, t: string) {
    && EntryOf(a.entries, t) == EntryOf(b.entries, t)
    && (t in a.jobs <==> t in b.jobs) && (t in a.jobs ==> a.jobs[t] == b.jobs[t])
  }

  lemma RecordsUntouched(parses: string -> bool, s: State, e: Event, t: string)
    requires t != Subject(e)
    ensures SameRecords(s, Apply(parses, s, e), t)
  {
  }

  lemma LivenessUntouched(parses: string -> bool, s: State, e: Event, t: string)
    requires t != Subject(e)
    ensures LiveAfter(parses, s, e, t, Live(s, t)) <==> Live(s, t)
  {
  }

  /** No operation touches anything of another task. */
  lemma OthersUntouched(parses: string -> bool, s: State, e: Event, t: string)
    requires Wired(s) && t != Subject(e)
    ensures SameRecords(s, Apply(parses, s, e), t)
    ensures Live(s, t) <==> Live(Apply(parses, s, e), t)
  {
    ApplyWired(parses, s, e, t);
    RecordsUntouched(parses, s, e, t);
    LivenessUntouched(parses, s, e, t);
  }

  ghost function LiveWithout(s: State, id: string): map<nat, Job> {
    map e | e in s.live && s.live[e].task.id != id :: s.live[e]
  }

  /** What cron fires for a task that is switched on as recorded. */
  function Enabled(s: State, id: string): Job
    requires id in s.jobs
  {
    Job(s.jobs[id].cronExpression, s.jobs[id].(enabled := true))
  }

  /** What is removed is the task's live entry, if it has one, and no other. */
  lemma RemovesOwnEntry(s: State, id: string)
    requires Wired(s)
    ensures WithoutEntry(s, id).live == LiveWithout(s, id)
  {
  }

  lemma DisableEffect(parses: string -> bool, s: State, id: string)
    requires Wired(s) && id in s.jobs
    ensures Apply(parses, s, Toggle(id, false))
         == State(s.entries - {id}, s.jobs[id := s.jobs[id].(enabled := false)], LiveWithout(s, id), s.next)
  {
    RemovesOwnEntry(s, id);
  }

  lemma EnableEffect(parses: string -> bool, s: State, id: string)
    requires Wired(s) && id in s.jobs && parses(s.jobs[id].cronExpression)
    ensures Apply(parses, s, Toggle(id, true))
         == State(s.entries[id := s.next], s.jobs[id := s.jobs[id].(enabled := true)],
           LiveWithout(s, id)[s.next := Enabled(s, id)], s.next + 1)
  {
    RemovesOwnEntry(s, id);
  }

  lemma BackAgain<K, V>(m: map<K, V>, k: K, v: V, w: V)
    ensures m[k := v][k := w] == m[k := w]
    ensures (m - {k})[k := v] == m[k := v]
  {
  }

  lemma EnableAfterDisable(parses: string -> bool, s: State, off: State, id: string)
    requires Wired(off) && id in s.jobs && parses(s.jobs[id].cronExpression)
    requires off == State(s.entries - {id}, s.jobs[id := s.jobs[id].(enabled := false)], LiveWithout(s, id), s.next)
    ensures Apply(parses, off, Toggle(id, true))
         == State(s.entries[id := s.next], s.jobs[id := s.jobs[id].(enabled := true)],
           LiveWithout(s, id)[s.next := Enabled(s, id)], s.next + 1)
  {
    EnableEffect(parses, off, id);
    assert LiveWithout(off, id) == LiveWithout(s, id);
    BackAgain(s.entries, id, s.next, s.next);
    BackAgain(s.jobs, id, s.jobs[id].(enabled := false), s.jobs[id].(enabled := true));
  }

  /** Disabling a task and enabling it again restores it, with a fresh entry of its own. */
  lemma DisableThenEnable(parses: string -> bool, s: State, id: string)
    requires Wired(s) && id in s.jobs && parses(s.jobs[id].cronExpression)
    ensures var back := Apply(parses, Apply(parses, s, Toggle(id, false)), Toggle(id, true));
            back == State(s.entries[id := s.next], s.jobs[id := s.jobs[id].(enabled := true)],
                          LiveWithout(s, id)[s.next := Enabled(s, id)], s.next + 1)
  {
    DisableEffect(parses, s, id);
    DisableWired(parses, s, id, id);
    EnableAfterDisable(parses, s, Apply(parses, s, Toggle(id, false)), id);
  }

  /** The operations after which a task is off: disabled, unscheduled, out of runs, or not re-added. */
  predicate SwitchesOff(parses: string -> bool, s: State, e: Event, t: string) {
    match e
    case Schedule(task) => task.id == t && !Exhausted(task) && !parses(task.cronExpression)
    case Unschedule(id) => id == t
    case Toggle(id, enabled) => id == t && (!enabled || (id in s.jobs && !parses(s.jobs[id].cronExpression)))
    case Executed(task) => task.id == t && Exhausted(task.(runCount := task.runCount + 1))
  }

  /** The operations that can put a task on: scheduling or enabling it. */
  predicate Arms(e: Event, t: string) {
    (e.Schedule? && e.task.id == t) || (e.Toggle? && e.id == t && e.enabled)
  }

  lemma OffNow(parses: string -> bool, s: State, e: Event, t: string)
    requires Wired(s) && SwitchesOff(parses, s, e, t)
    ensures !Live(Apply(parses, s, e), t)
  {
  }

  lemma OffStill(parses: string -> bool, s: State, e: Event, t: string)
    requires Wired(s) && !Live(s, t) && !Arms(e, t)
    ensures !Live(Apply(parses, s, e), t)
  {
    ApplyWired(parses, s, e, t);
  }

  lemma RunSnoc(parses: string -> bool, events: seq<Event>, e: Event)
    ensures Run(parses, events + [e]) == Apply(parses, Run(parses, events), e)
  {
  }

  /** Once off, a task stays off through everything but being scheduled or enabled again. */
  lemma {:induction false} StaysOff(parses: string -> bool, events: seq<Event>, off: Event, more: seq<Event>, t: string)
    requires SwitchesOff(parses, Run(parses, events), off, t)
    requires forall i :: 0 <= i < |more| ==> !Arms(more[i], t)
    ensures !Live(Run(parses, events + [off] + more), t)
    decreases |more|
  {
    if more == [] {
      assert events + [off] + [] == events + [off];
      EveryStateWired(parses, events);
      RunSnoc(parses, events, off);
      OffNow(parses, Run(parses, events), off, t);
    } else {
      var n := |more| - 1;
      var before := events + [off] + more[..n];
      LastOfConcat(events + [off], more);
      StaysOff(parses, events, off, more[..n], t);
      EveryStateWired(parses, before);
      RunSnoc(parses, before, more[n]);
      OffStill(parses, Run(parses, before), more[n], t);
    }
  }

  /** Scheduling a task that is out of runs changes nothing: an entry it already has goes on firing. */
  lemma ExhaustedScheduleKeepsOldEntry(parses: string -> bool, task: Task)
    requires Exhausted(task) && parses(task.cronExpression)
    ensures var earlier := Schedule(task.(runCount := 0));
            Live(Run(parses, [earlier, Schedule(task)]), task.id)
  {
    var earlier := Schedule(task.(runCount := 0));
    assert [earlier, Schedule(task)][..1] == [earlier] && [earlier][..0] == [];
    EveryStateWired(parses, []);
    EveryStateWired(parses, [earlier]);
    ApplyWired(parses, Run(parses, []), earlier, task.id);
  }

  // ---- Records and jobs, read off the events -------------------------------------------------

  /** A Schedule that is accepted, or the end of a run: what the task is recorded by. */
  predicate Records(parses: string -> bool, e: Event, t: string) {
    || (e.Schedule? && e.task.id == t && !(e.task.maxRuns > 0 && e.task.runCount >= e.task.maxRuns)
        && parses(e.task.cronExpression))
    || (e.Executed? && e.task.id == t)
  }

  function Recorded(e: Event): Task
    requires e.Schedule? || e.Executed?
  {
    if e.Schedule? then e.task else e.task.(runCount := e.task.runCount + 1)
  }

  /** An Unschedule that finds an entry. */
  predicate Drops(s: State, e: Event, t: string) {
    e == Unschedule(t) && t in s.entries
  }

  /** What the last successful Toggle since `task` was recorded left `enabled` at. */
  function Switched(parses: string -> bool, task: Task, since: seq<Event>): bool {
    if since == [] then task.enabled
    else
      var last := since[|since| - 1];
      if last.Toggle? && last.id == task.id && (last.enabled ==> parses(task.cronExpression)) then last.enabled
      else Switched(parses, task, since[..|since| - 1])
  }

  lemma RecordKept(parses: string -> bool, s: State, e: Event, t: string)
    requires t in s.jobs && !Records(parses, e, t) && !Drops(s, e, t)
    ensures var after := Apply(parses, s, e);
            && t in after.jobs
            && after.jobs[t] == s.jobs[t].(enabled :=
                 if e.Toggle? && e.id == t && (e.enabled ==> parses(s.jobs[t].cronExpression)) then e.enabled
                 else s.jobs[t].enabled)
  {
  }

  lemma RecordedNow(parses: string -> bool, s: State, e: Event, t: string)
    requires Records(parses, e, t)
    ensures t in Apply(parses, s, e).jobs && Apply(parses, s, e).jobs[t] == Recorded(e)
  {
  }

  /** Nothing in `more` records the task anew or drops its record. */
  ghost predicate Undisturbed(parses: string -> bool, events: seq<Event>, more: seq<Event>, t: string) {
    forall i :: 0 <= i < |more| ==>
      !Records(parses, more[i], t) && !Drops(Run(parses, events + more[..i]), more[i], t)
  }

  lemma UndisturbedBefore(parses: string -> bool, events: seq<Event>, more: seq<Event>, n: nat, t: string)
    requires Undisturbed(parses, events, more, t) && n <= |more|
    ensures Undisturbed(parses, events, more[..n], t)
  {
    forall i | 0 <= i < n
      ensures !Records(parses, more[..n][i], t) && !Drops(Run(parses, events + more[..n][..i]), more[..n][i], t)
    {
      assert more[..n][..i] == more[..i];
    }
  }

  /** A task's record is the one last made, with `enabled` as it was last toggled since. */
  lemma {:induction false} RecordIsLast(parses: string -> bool, events: seq<Event>, e: Event, more: seq<Event>,
                                        t: string)
    requires Records(parses, e, t) && Undisturbed(parses, events + [e], more, t)
    ensures var jobs := Run(parses, events + [e] + more).jobs;
            t in jobs && jobs[t] == Recorded(e).(enabled := Switched(parses, Recorded(e), more))
    decreases |more|
  {
    if more == [] {
      assert events + [e] + [] == events + [e];
      RunSnoc(parses, events, e);
      RecordedNow(parses, Run(parses, events), e, t);
    } else {
      var n := |more| - 1;
      var before := events + [e] + more[..n];
      LastOfConcat(events + [e], more);
      UndisturbedBefore(parses, events + [e], more, n, t);
      RecordIsLast(parses, events, e, more[..n], t);
      RunSnoc(parses, before, more[n]);
      RecordKept(parses, Run(parses, before), more[n], t);
    }
  }

  ghost predicate RecordedAt(parses: string -> bool, events: seq<Event>, i: nat, t: string)
    requires i < |events|
  {
    && Records(parses, events[i], t)
    && forall j :: i < j < |events| ==> !Drops(Run(parses, events[..j]), events[j], t)
  }

  lemma RecordedBefore(parses: string -> bool, events: seq<Event>, i: nat, t: string)
    requires i < |events| - 1
    ensures var n := |events| - 1;
            RecordedAt(parses, events, i, t) ==
              (RecordedAt(parses, events[..n], i, t) && !Drops(Run(parses, events[..n]), events[n], t))
  {
    assert forall j :: 0 <= j < |events| ==> events[..|events| - 1][..j] == events[..j];
  }

  /** A record appears by a recording event and disappears by an Unschedule that finds an entry, and not otherwise. */
  lemma RecordChanges(parses: string -> bool, s: State, e: Event, t: string)
    ensures t in Apply(parses, s, e).jobs <==> Records(parses, e, t) || (t in s.jobs && !Drops(s, e, t))
  {
  }

  /** A task is recorded exactly if it once was and no Unschedule has found an entry of it since. */
  lemma {:induction false} RecordedIff(parses: string -> bool, events: seq<Event>, t: string)
    ensures t in Run(parses, events).jobs <==> exists i :: 0 <= i < |events| && RecordedAt(parses, events, i, t)
  {
    if events == [] {
    } else {
      var n := |events| - 1;
      RecordedIff(parses, events[..n], t);
      RecordChanges(parses, Run(parses, events[..n]), events[n], t);
      forall i | 0 <= i < n
        ensures RecordedAt(parses, events, i, t) ==
          (RecordedAt(parses, events[..n], i, t) && !Drops(Run(parses, events[..n]), events[n], t))
      {
        RecordedBefore(parses, events, i, t);
      }
      assert RecordedAt(parses, events, n, t) == Records(parses, events[n], t);
    }
  }

  /** The operation puts the task on: an accepted Schedule, or enabling a recorded task whose expression parses. */
  predicate SwitchesOn(parses: string -> bool, s: State, e: Event, t: string) {
    || (e.Schedule? && Records(parses, e, t))
    || (e == Toggle(t, true) && t in s.jobs && parses(s.jobs[t].cronExpression))
  }

  /** The operation takes the task's entry out of the map: it is unscheduled, disabled or out of runs. */
  predicate Forgets(e: Event, t: string) {
    || e == Unschedule(t)
    || e == Toggle(t, false)
    || (e.Executed? && e.task.id == t && e.task.maxRuns > 0 && e.task.runCount + 1 >= e.task.maxRuns)
  }

  ghost predicate EnteredAt(parses: string -> bool, events: seq<Event>, i: nat, t: string)
    requires i < |events|
  {
    && SwitchesOn(parses, Run(parses, events[..i]), events[i], t)
    && forall j :: i < j < |events| ==> !Forgets(events[j], t)
  }

  lemma EnteredBefore(parses: string -> bool, events: seq<Event>, i: nat, t: string)
    requires i < |events| - 1
    ensures EnteredAt(parses, events, i, t) ==
      (EnteredAt(parses, events[..|events| - 1], i, t) && !Forgets(events[|events| - 1], t))
  {
    assert events[..|events| - 1][..i] == events[..i];
  }

  lemma EntryChanges(parses: string -> bool, s: State, e: Event, t: string)
    requires t in s.entries ==> t in s.jobs
    ensures t in Apply(parses, s, e).entries <==>
      SwitchesOn(parses, s, e, t) || (t in s.entries && !Forgets(e, t))
  {
  }

  /**
   A task has an entry exactly if it was once switched on and not unscheduled, disabled or out of runs since. One
   that could not be added back keeps its entry, which cron no longer has.
   */
  lemma {:induction false} HasEntryIff(parses: string -> bool, events: seq<Event>, t: string)
    ensures t in Run(parses, events).entries <==> exists i :: 0 <= i < |events| && EnteredAt(parses, events, i, t)
  {
    if events == [] {
    } else {
      var n := |events| - 1;
      HasEntryIff(parses, events[..n], t);
      EveryStateWired(parses, events[..n]);
      EntryChanges(parses, Run(parses, events[..n]), events[n], t);
      forall i | 0 <= i < n
        ensures EnteredAt(parses, events, i, t) == (EnteredAt(parses, events[..n], i, t) && !Forgets(events[n], t))
      {
        EnteredBefore(parses, events, i, t);
      }
      assert EnteredAt(parses, events, n, t) == SwitchesOn(parses, Run(parses, events[..n]), events[n], t);
    }
  }

  /** What it makes cron fire: the task of the Schedule, or the recorded one. */
  function Armed(s: State, e: Event, t: string): Job
    requires e.Schedule? || t in s.jobs
  {
    var task := if e.Schedule? then e.task else s.jobs[t].(enabled := true);
    Job(task.cronExpression, task)
  }

  /** Cron fires `job` for the task. */
  ghost predicate Fires(s: State, t: string, job: Job) {
    job.task.id == t && exists e :: e in s.live && s.live[e] == job
  }

  lemma FiresNow(parses: string -> bool, s: State, e: Event, t: string)
    requires Wired(s) && SwitchesOn(parses, s, e, t)
    ensures Fires(Apply(parses, s, e), t, Armed(s, e, t))
  {
    var after := Apply(parses, s, e);
    assert s.next in after.live && after.live[s.next] == Armed(s, e, t);
  }

  lemma FiresStill(parses: string -> bool, s: State, e: Event, t: string, job: Job)
    requires Wired(s) && Fires(s, t, job) && !SwitchesOn(parses, s, e, t) && !SwitchesOff(parses, s, e, t)
    ensures Fires(Apply(parses, s, e), t, job)
  {
    var k :| k in s.live && s.live[k] == job;
    assert k in Apply(parses, s, e).live;
  }

  /** Nothing in `more` switches the task on anew or off. */
  ghost predicate LeftOn(parses: string -> bool, events: seq<Event>, more: seq<Event>, t: string) {
    forall i :: 0 <= i < |more| ==>
      var s := Run(parses, events + more[..i]);
      !SwitchesOn(parses, s, more[i], t) && !SwitchesOff(parses, s, more[i], t)
  }

  lemma LeftOnBefore(parses: string -> bool, events: seq<Event>, more: seq<Event>, n: nat, t: string)
    requires LeftOn(parses, events, more, t) && n <= |more|
    ensures LeftOn(parses, events, more[..n], t)
  {
    forall i | 0 <= i < n
      ensures var s := Run(parses, events + more[..n][..i]);
              !SwitchesOn(parses, s, more[..n][i], t) && !SwitchesOff(parses, s, more[..n][i], t)
    {
      assert more[..n][..i] == more[..i];
    }
  }

  /** Once on, a task fires what it was switched on with until it is switched on anew or off. */
  lemma {:induction false} FiresLastArmed(parses: string -> bool, events: seq<Event>, on: Event, more: seq<Event>,
                                          t: string)
    requires SwitchesOn(parses, Run(parses, events), on, t) && LeftOn(parses, events + [on], more, t)
    ensures Fires(Run(parses, events + [on] + more), t, Armed(Run(parses, events), on, t))
    decreases |more|
  {
    if more == [] {
      assert events + [on] + [] == events + [on];
      EveryStateWired(parses, events);
      RunSnoc(parses, events, on);
      FiresNow(parses, Run(parses, events), on, t);
    } else {
      var n := |more| - 1;
      var before := events + [on] + more[..n];
      LastOfConcat(events + [on], more);
      LeftOnBefore(parses, events + [on], more, n, t);
      FiresLastArmed(parses, events, on, more[..n], t);
      EveryStateWired(parses, before);
      RunSnoc(parses, before, more[n]);
      FiresStill(parses, Run(parses, before), more[n], t, Armed(Run(parses, events), on, t));
    }
  }

  /** Enabling adds the task back to cron as it was last scheduled, on the expression it was scheduled with. */
  lemma EnableRestoresSchedule(parses: string -> bool, events: seq<Event>, task: Task, more: seq<Event>)
    requires Records(parses, Schedule(task), task.id)
    requires Undisturbed(parses, events + [Schedule(task)], more, task.id)
    ensures Fires(Run(parses, events + [Schedule(task)] + more + [Toggle(task.id, true)]), task.id,
                  Job(task.cronExpression, task.(enabled := true)))
  {
    var before, on := events + [Schedule(task)] + more, Toggle(task.id, true);
    RecordIsLast(parses, events, Schedule(task), more, task.id);
    assert before + [on] + [] == before + [on];
    FiresLastArmed(parses, before, on, [], task.id);
  }

  // ---- The objects ---------------------------------------------------------------------------

  /** The cron library, as an add/remove table. */
  class Cron {
    var live: map<nat, Job>
    var next: nat

    constructor ()
      ensures live == map[] && next == 1
    {
      live, next := map[], 1;
    }

    method Remove(id: nat)
      modifies this
      ensures live == old(live) - {id} && next == old(next)
    {
      live := live - {id};
    }

    method AddJob(expression: string, task: Task, parses: string -> bool) returns (id: Option<nat>)
      modifies this
      ensures id.Some? <==> parses(expression)
      ensures id.Some? ==>
        id.value == old(next) && live == old(live)[old(next) := Job(expression, task)] && next == old(next) + 1
      ensures id.None? ==> live == old(live) && next == old(next)
    {
      if !parses(expression) {
        return None;
      }
      id := Some(next);
      live := live[next := Job(expression, task)];
      next := next + 1;
    }
  }

  class TaskScheduler {
    const cron: Cron
    const parses: string -> bool
    var entries: map<string, nat>
    var jobs: map<string, Task>

    ghost predicate Valid()
      reads this, cron
    {
      Wired(View())
    }

    ghost function View(): State
      reads this, cron
    {
      State(entries, jobs, cron.live, cron.next)
    }

    constructor (parses: string -> bool)
      ensures Valid() && fresh(cron) && this.parses == parses
      ensures View() == Run(parses, [])
    {
      cron := new Cron();
      this.parses := parses;
      entries, jobs := map[], map[];
    }

    method ScheduleTask(task: Task) returns (ok: bool)
      requires Valid()
      modifies this, cron
      ensures View() == Apply(parses, old(View()), Schedule(task)) && Valid()
      ensures ok <==> (task.maxRuns > 0 && task.runCount >= task.maxRuns) || parses(task.cronExpression)
      ensures jobs ==
        if ok && !(task.maxRuns > 0 && task.runCount >= task.maxRuns) then old(jobs)[task.id := task] else old(jobs)
    {
      ApplyWired(parses, View(), Schedule(task), task.id);
      if task.maxRuns > 0 && task.runCount >= task.maxRuns {
        return true;
      }
      NoZeroEntry(View(), task.id);
      if task.id in entries {
        cron.Remove(entries[task.id]);
      }
      var entryID := cron.AddJob(task.cronExpression, task, parses);
      if entryID.None? {
        return false;
      }
      entries := entries[task.id := entryID.value];
      jobs := jobs[task.id := task];
      return true;
    }

    method UnscheduleTask(taskID: string)
      requires Valid()
      modifies this, cron
      ensures View() == Apply(parses, old(View()), Unschedule(taskID)) && Valid()
      ensures jobs == if taskID in old(entries) then old(jobs) - {taskID} else old(jobs)
    {
      ApplyWired(parses, View(), Unschedule(taskID), taskID);
      if taskID in entries {
        cron.Remove(entries[taskID]);
        entries := entries - {taskID};
        jobs := jobs - {taskID};
      }
    }

    method ToggleTask(taskID: string, enabled: bool) returns (ok: bool)
      requires Valid()
      modifies this, cron
      ensures View() == Apply(parses, old(View()), Toggle(taskID, enabled)) && Valid()
      ensures ok <==> taskID in old(jobs) && (enabled ==> parses(old(jobs)[taskID].cronExpression))
      ensures jobs == if ok then old(jobs)[taskID := old(jobs)[taskID].(enabled := enabled)] else old(jobs)
    {
      ApplyWired(parses, View(), Toggle(taskID, enabled), taskID);
      if taskID !in jobs {
        return false;
      }
      NoZeroEntry(View(), taskID);
      var task := jobs[taskID].(enabled := enabled);
      if enabled {
        cron.Remove(EntryOf(entries, taskID));
        var entryID := cron.AddJob(task.cronExpression, task, parses);
        if entryID.None? {
          return false;
        }
        entries := entries[taskID := entryID.value];
      } else {
        if taskID in entries {
          cron.Remove(entries[taskID]);
          entries := entries - {taskID};
        }
        assert entries == old(entries) - {taskID};
      }
      jobs := jobs[taskID := task];
      return true;
    }

    /** The locked section at the end of a run. */
    method FinishRun(snapshot: Task)
      requires Valid()
      modifies this, cron
      ensures View() == Apply(parses, old(View()), Executed(snapshot)) && Valid()
      ensures jobs == old(jobs)[snapshot.id := snapshot.(runCount := snapshot.runCount + 1)]
    {
      ApplyWired(parses, View(), Executed(snapshot), snapshot.id);
      var task := snapshot.(runCount := snapshot.runCount + 1);
      jobs := jobs[task.id := task];
      if task.maxRuns > 0 && task.runCount >= task.maxRuns {
        cron.Remove(EntryOf(entries, task.id));
        entries := entries - {task.id};
      }
    }
  }

  /** Removing the zero ID removes nothing. */
  lemma NoZeroEntry(s: State, id: string)
    requires Wired(s)
    ensures id !in s.entries ==> WithoutEntry(s, id) == s
  {
  }
}
