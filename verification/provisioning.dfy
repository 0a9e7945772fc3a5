/**
 * Table provisioning as a state machine driven by a scripted table-admin
 * collaborator: every admin call (describe, create, update) consumes the next
 * scripted reply, and every wait between polls is one step. Behaviour is
 * stated over finite scripts; a script that runs out leaves the machine
 * waiting, which is how unbounded polling shows up here.
 */
module Provisioning {
  import opened Base
  import opened Json

  /** The part of a table description the poll reads: `Table.TableStatus`. */
  datatype TableInfo = TableInfo(status: string)

  /**
   * One answer of the admin collaborator: an error if the call failed, and
   * the description data (meaningful for describe; `None` is `null`/`undefined`).
   */
  datatype Reply = Reply(err: Option<string>, data: Option<TableInfo>)

  datatype Call = Describe | CreateTable(options: Value) | UpdateTable

  datatype Phase =
    /** About to ask whether the table exists. */
    | Checking
    /** About to create the missing table. */
    | Creating
    /** About to update the existing table. */
    | Updating
    /** About to describe the table again and read its status. */
    | Polling
    | Active
    | Failed(error: string)
    /** A poll answered with neither error nor data: reading its status throws and no completion is ever signalled. */
    | Crashed

  predicate Terminal(p: Phase) {
    p.Active? || p.Failed? || p.Crashed?
  }

  /** The provisioning of one table: its phase, the create options, the replies still scripted and the calls issued. */
  datatype Machine = Machine(phase: Phase, options: Value, replies: seq<Reply>, calls: seq<Call>)

  /** A poll reply after which the loop does not describe again. */
  predicate StopsPolling(r: Reply) {
    r.err.Some? || r.data.None? || r.data.value.status == "ACTIVE"
  }

  /** The phase a poll reply leads to. */
  function AfterPoll(r: Reply): Phase {
    if r.err.Some? then Failed(r.err.value)
    else if r.data.None? then Crashed
    else if r.data.value.status == "ACTIVE" then Active
    else Polling
  }

  /** One admin call and its reply. */
  function Step(m: Machine): (r: Machine)
    requires !Terminal(m.phase) && |m.replies| > 0
    ensures r.options == m.options && r.replies == m.replies[1..] && |r.calls| == |m.calls| + 1
    ensures r.calls[|m.calls|].CreateTable? <==> m.phase == Creating
    ensures m.phase == Creating || m.phase == Updating ==>
              r.phase == (if m.replies[0].err.Some? then Failed(m.replies[0].err.value) else Polling)
    ensures m.phase == Checking ==> r.phase == (if m.replies[0].data.None? then Creating else Updating)
  {
    var reply := m.replies[0];
    var rest := m.replies[1..];
    match m.phase
    case Checking =>
      // only the data decides: the describe error is not looked at
      Machine(if reply.data.None? then Creating else Updating, m.options, rest, m.calls + [Describe])
    case Creating =>
      Machine(if reply.err.Some? then Failed(reply.err.value) else Polling, m.options, rest, m.calls + [CreateTable(m.options)])
    case Updating =>
      Machine(if reply.err.Some? then Failed(reply.err.value) else Polling, m.options, rest, m.calls + [UpdateTable])
    case Polling =>
      Machine(AfterPoll(reply), m.options, rest, m.calls + [Describe])
  }

  /** Steps until the machine is in a terminal phase or the script has no reply left. */
  function Run(m: Machine): (r: Machine)
    ensures Terminal(r.phase) || |r.replies| == 0
    ensures |r.calls| + |r.replies| == |m.calls| + |m.replies|
    ensures r.options == m.options
    decreases |m.replies|
  {
    if Terminal(m.phase) || |m.replies| == 0 then m
    else Run(Step(m))
  }

  /** Running only appends calls, and consumes replies from the front of the script in order. */
  lemma {:induction false} RunExtends(m: Machine)
    ensures |m.calls| <= |Run(m).calls| && Run(m).calls[..|m.calls|] == m.calls
    ensures |Run(m).replies| <= |m.replies| && Run(m).replies == m.replies[|m.replies| - |Run(m).replies|..]
    decreases |m.replies|
  {
    if !(Terminal(m.phase) || |m.replies| == 0) {
      var next := Step(m);
      RunExtends(next);
      var r := Run(next);
      assert r.calls[..|m.calls|] == r.calls[..|next.calls|][..|m.calls|];
      assert r.replies == m.replies[1..][|next.replies| - |r.replies|..];
    }
  }

  /** Provisioning one table with the given create options (`{}` when they are falsy). */
  function Provision(options: Value, replies: seq<Reply>): (r: Machine)
    ensures Truthy(r.options) && (Truthy(options) ==> r.options == options)
    ensures Terminal(r.phase) || |r.replies| == 0
    ensures |r.calls| + |r.replies| == |replies|
  {
    Run(Machine(Checking, if Truthy(options) then options else Obj(map[]), replies, []))
  }

  function Describes(n: nat): (r: seq<Call>)
    ensures |r| == n && forall i :: 0 <= i < n ==> r[i] == Describe
  {
    if n == 0 then [] else Describes(n - 1) + [Describe]
  }

  /**
   * The poll loop describes once per reply up to and including the first
   * reply that stops it, and then ends in the phase that reply gives: success
   * exactly on an `ACTIVE` status, failure on an error, with no describe after
   * it. Without a stopping reply it describes once per reply and keeps polling.
   */
  lemma {:induction false} PollLoop(m: Machine, j: nat)
    requires m.phase == Polling
    requires j <= |m.replies|
    requires forall i :: 0 <= i < j ==> !StopsPolling(m.replies[i])
    requires j < |m.replies| ==> StopsPolling(m.replies[j])
    ensures j < |m.replies| ==>
              Run(m).phase == AfterPoll(m.replies[j]) && Run(m).calls == m.calls + Describes(j + 1)
              && Run(m).replies == m.replies[j + 1..]
    ensures j == |m.replies| ==> Run(m).phase == Polling && Run(m).calls == m.calls + Describes(j) && Run(m).replies == []
    decreases |m.replies|
  {
    if |m.replies| > 0 {
      var next := Step(m);
      if j == 0 {
        assert Run(m) == next;
        assert Describes(1) == [Describe];
      } else {
        assert forall i :: 0 <= i < j - 1 ==> next.replies[i] == m.replies[i + 1];
        PollLoop(next, j - 1);
        assert next.calls == m.calls + [Describe];
        assert Describes(j) == [Describe] + Describes(j - 1) by {
          DescribesCons(j);
        }
      }
    }
  }

  lemma {:induction false} DescribesCons(n: nat)
    requires n > 0
    ensures Describes(n) == [Describe] + Describes(n - 1)
  {
    if n > 1 {
      DescribesCons(n - 1);
    }
  }

  /** The reply that decides how the table is changed. */
  predicate Missing(replies: seq<Reply>) {
    |replies| > 0 && replies[0].data.None?
  }

  /**
   * The first describe decides: no data means the table is created with the
   * create options, any data means it is updated; either way the second call
   * is the only create or update, and every later call is a describe.
   */
  lemma CreateOrUpdate(options: Value, replies: seq<Reply>)
    requires |replies| >= 2
    ensures var r := Provision(options, replies);
      && |r.calls| >= 2
      && r.calls[0] == Describe
      && r.calls[1] == (if Missing(replies) then CreateTable(if Truthy(options) then options else Obj(map[])) else UpdateTable)
      && forall i :: 2 <= i < |r.calls| ==> r.calls[i] == Describe
  {
    var m2 := FirstTwoSteps(options, replies);
    if m2.phase == Polling {
      var j := FirstStop(m2.replies);
      PollLoop(m2, j);
    }
  }

  /**
   * The first two calls are a describe and then a create (on no data) or an
   * update (on data); the machine then polls, or has failed with the change's error.
   */
  lemma FirstTwoSteps(options: Value, replies: seq<Reply>) returns (m2: Machine)
    requires |replies| >= 2
    ensures Provision(options, replies) == Run(m2)
    ensures m2.replies == replies[2..] && m2.options == (if Truthy(options) then options else Obj(map[]))
    ensures m2.calls == [Describe, if Missing(replies) then CreateTable(m2.options) else UpdateTable]
    ensures m2.phase == (if replies[1].err.Some? then Failed(replies[1].err.value) else Polling)
  {
    var m0 := Machine(Checking, if Truthy(options) then options else Obj(map[]), replies, []);
    var m1 := Step(m0);
    m2 := Step(m1);
    assert Run(m0) == Run(m1);
    assert Run(m1) == Run(m2);
  }

  /** The position of the first reply that stops polling, or the script length if none does. */
  function FirstStop(rs: seq<Reply>): (j: nat)
    ensures j <= |rs| && (forall i :: 0 <= i < j ==> !StopsPolling(rs[i])) && (j < |rs| ==> StopsPolling(rs[j]))
  {
    if |rs| == 0 || StopsPolling(rs[0]) then 0
    else
      var j := FirstStop(rs[1..]);
      assert forall i :: 1 <= i < j + 1 ==> rs[i] == rs[1..][i - 1];
      j + 1
  }

  /** A failing create or update is reported at once: one describe, one create or update, no polling. */
  lemma ChangeErrorStopsAtOnce(options: Value, replies: seq<Reply>)
    requires |replies| >= 2 && replies[1].err.Some?
    ensures Provision(options, replies).phase == Failed(replies[1].err.value)
    ensures |Provision(options, replies).calls| == 2
  {
    var m2 := FirstTwoSteps(options, replies);
  }

  /** With fewer than two replies the machine never gets past the create or update. */
  lemma ShortScriptNeverActive(options: Value, replies: seq<Reply>)
    requires |replies| < 2
    ensures !Provision(options, replies).phase.Active?
  {
    var m0 := Machine(Checking, if Truthy(options) then options else Obj(map[]), replies, []);
    if |replies| == 1 {
      assert Run(m0) == Run(Step(m0));
    }
  }

  /** A successful provisioning ends on a describe that reported `ACTIVE`, after at least one poll. */
  lemma SuccessMeansActiveSeen(options: Value, replies: seq<Reply>)
    requires Provision(options, replies).phase == Active
    ensures var n := |Provision(options, replies).calls|;
      && 3 <= n <= |replies|
      && replies[n - 1].err.None? && replies[n - 1].data == Some(TableInfo("ACTIVE"))
      && forall i :: 2 <= i < n - 1 ==> !StopsPolling(replies[i])
  {
    if |replies| < 2 {
      ShortScriptNeverActive(options, replies);
    } else {
      var m2 := FirstTwoSteps(options, replies);
      var j := FirstStop(m2.replies);
      PollLoop(m2, j);
      assert j < |m2.replies|;
      var last := m2.replies[j];
      assert last == replies[j + 2];
      assert last.err.None? && last.data.Some? && last.data.value.status == "ACTIVE";
      assert forall i :: 2 <= i < j + 2 ==> replies[i] == m2.replies[i - 2];
    }
  }

  /** A reply reporting the table with the given status. */
  function Status(s: string): Reply {
    Reply(None, Some(TableInfo(s)))
  }

  function Pending(k: nat): (r: seq<Reply>)
    ensures |r| == k && forall i :: 0 <= i < k ==> r[i] == Status("PENDING")
  {
    if k == 0 then [] else Pending(k - 1) + [Status("PENDING")]
  }

  /** The script of a missing table whose create succeeds, followed by `polls`. */
  function AfterCreate(polls: seq<Reply>): seq<Reply> {
    [Reply(None, None), Reply(None, None)] + polls
  }

  /**
   * Missing table and successful create, then polls whose first stopping reply
   * is at `k`: the machine ends in the phase that reply gives, after one
   * describe, the create and `k + 1` polls, with the rest of the script untouched.
   */
  lemma CreateThenPoll(options: Value, polls: seq<Reply>, k: nat)
    requires k < |polls| && StopsPolling(polls[k])
    requires forall i :: 0 <= i < k ==> !StopsPolling(polls[i])
    ensures var r := Provision(options, AfterCreate(polls));
      && r.phase == AfterPoll(polls[k])
      && r.calls == [Describe, CreateTable(if Truthy(options) then options else Obj(map[]))] + Describes(k + 1)
      && r.replies == polls[k + 1..]
  {
    var m2 := FirstTwoSteps(options, AfterCreate(polls));
    assert m2.replies == polls;
    PollLoop(m2, k);
  }

  /**
   * Missing table, successful create, `k` pending polls, then `ACTIVE`: success
   * after exactly `k + 2` describes and one create, with the rest of the script untouched.
   */
  lemma CreateThenPollScenario(options: Value, k: nat, tail: seq<Reply>)
    ensures var r := Provision(options, AfterCreate(Pending(k) + [Status("ACTIVE")] + tail));
      && r.phase == Active
      && r.calls == [Describe, CreateTable(if Truthy(options) then options else Obj(map[]))] + Describes(k + 1)
      && r.replies == tail
  {
    var pending := Pending(k);
    var polls := pending + [Status("ACTIVE")] + tail;
    forall i | 0 <= i < k
      ensures !StopsPolling(polls[i])
    {
      assert polls[i] == pending[i];
    }
    assert polls[k] == Status("ACTIVE");
    assert polls[k + 1..] == tail;
    CreateThenPoll(options, polls, k);
  }

  /**
   * Missing table, successful create, `k` pending polls, then a describe
   * error: failure with that error after `k + 2` describes, and the rest of
   * the script is never asked for.
   */
  lemma PollErrorScenario(options: Value, k: nat, e: string, tail: seq<Reply>)
    ensures var r := Provision(options, AfterCreate(Pending(k) + [Reply(Some(e), None)] + tail));
      && r.phase == Failed(e)
      && |r.calls| == k + 3
      && r.calls[k + 2] == Describe
      && r.replies == tail
  {
    var pending := Pending(k);
    var polls := pending + [Reply(Some(e), None)] + tail;
    forall i | 0 <= i < k
      ensures !StopsPolling(polls[i])
    {
      assert polls[i] == pending[i];
    }
    assert polls[k] == Reply(Some(e), None);
    assert polls[k + 1..] == tail;
    CreateThenPoll(options, polls, k);
  }

  /** The per-model create options: `config[key]`, or `{}` when that is missing or falsy. */
  function OptionsFor(config: Value, key: string): (r: Value)
    ensures Truthy(r)
    ensures config.Obj? && key in config.fields && Truthy(config.fields[key]) ==> r == config.fields[key]
    ensures !(config.Obj? && key in config.fields && Truthy(config.fields[key])) ==> r == Obj(map[])
  {
    if config.Obj? && key in config.fields && Truthy(config.fields[key]) then config.fields[key] else Obj(map[])
  }

  /** What happened to one model of a batch. */
  datatype ModelRun = ModelRun(key: string, phase: Phase, calls: seq<Call>)

  datatype BatchOutcome =
    | AllActive
    | StoppedAt(key: string, error: string)
    | CrashedAt(key: string)
    /** The script ran out while this model was still being provisioned. */
    | WaitingOn(key: string)

  datatype Batch = Batch(runs: seq<ModelRun>, outcome: BatchOutcome, replies: seq<Reply>)

  /** Every run in the first `n` became active. */
  predicate ActiveUpTo(runs: seq<ModelRun>, n: int) {
    forall i :: 0 <= i < n && i < |runs| ==> runs[i].phase == Active
  }

  /** The run that ended the batch, when the batch did not succeed. */
  function LastRun(b: Batch): ModelRun
    requires |b.runs| > 0
  {
    b.runs[|b.runs| - 1]
  }

  /**
   * What a batch over `keys` looks like: one run per key tried, in key order;
   * every run before the last became active; the batch succeeds exactly when
   * every key was tried and every run became active; otherwise the last run
   * tried is the one the outcome names, it did not become active, and a
   * failure or a crash is the batch's.
   */
  predicate BatchShape(b: Batch, keys: seq<string>) {
    && |b.runs| <= |keys|
    && (forall i :: 0 <= i < |b.runs| ==> b.runs[i].key == keys[i])
    && ActiveUpTo(b.runs, |b.runs| - 1)
    && (b.outcome.AllActive? <==> |b.runs| == |keys| && ActiveUpTo(b.runs, |keys|))
    && (!b.outcome.AllActive? ==> |b.runs| > 0 && b.outcome.key == LastRun(b).key && !LastRun(b).phase.Active?)
    && (b.outcome.StoppedAt? ==> LastRun(b).phase == Failed(b.outcome.error))
    && (b.outcome.CrashedAt? ==> LastRun(b).phase == Crashed)
  }

  /** The batch that ends with a run that did not become active. */
  function StopAt(run: ModelRun, keys: seq<string>, replies: seq<Reply>): (b: Batch)
    requires |keys| > 0 && run.key == keys[0] && !run.phase.Active?
    ensures BatchShape(b, keys) && b.runs == [run] && b.replies == replies
  {
    var outcome :=
      if run.phase.Failed? then StoppedAt(run.key, run.phase.error)
      else if run.phase.Crashed? then CrashedAt(run.key)
      else WaitingOn(run.key);
    Batch([run], outcome, replies)
  }

  /** An active run followed by the batch over the remaining keys. */
  function ActiveThen(run: ModelRun, keys: seq<string>, rest: Batch): (b: Batch)
    requires |keys| > 0 && run.key == keys[0] && run.phase.Active?
    requires BatchShape(rest, keys[1..])
    ensures BatchShape(b, keys)
    ensures b.runs == [run] + rest.runs && b.outcome == rest.outcome && b.replies == rest.replies
  {
    var runs := [run] + rest.runs;
    assert forall i :: 1 <= i < |runs| ==> runs[i] == rest.runs[i - 1] && keys[i] == keys[1..][i - 1];
    Batch(runs, rest.outcome, rest.replies)
  }

  /**
   * The batch: models in key order, each provisioned with `config[key]`
   * against the rest of the script. It succeeds exactly when every model
   * became active; otherwise the last model attempted is the one the outcome
   * names, it did not become active (its error is the batch's error), every
   * earlier one did, and no later model was attempted.
   */
  function CreateTables(keys: seq<string>, config: Value, replies: seq<Reply>): (b: Batch)
    ensures |b.runs| <= |keys|
    ensures forall i :: 0 <= i < |b.runs| ==> b.runs[i].key == keys[i]
    ensures ActiveUpTo(b.runs, |b.runs| - 1)
    ensures b.outcome.AllActive? <==> |b.runs| == |keys| && ActiveUpTo(b.runs, |keys|)
    ensures !b.outcome.AllActive? ==> |b.runs| > 0 && b.outcome.key == LastRun(b).key && !LastRun(b).phase.Active?
    ensures b.outcome.StoppedAt? ==> LastRun(b).phase == Failed(b.outcome.error)
    ensures b.outcome.CrashedAt? ==> LastRun(b).phase == Crashed
    decreases |keys|
  {
    if |keys| == 0 then Batch([], AllActive, replies)
    else
      var m := Provision(OptionsFor(config, keys[0]), replies);
      var run := ModelRun(keys[0], m.phase, m.calls);
      if m.phase.Active? then ActiveThen(run, keys, CreateTables(keys[1..], config, m.replies))
      else StopAt(run, keys, m.replies)
  }

  /** Every create a machine issues carries the machine's options. */
  lemma {:induction false} CreatesCarryOptions(m: Machine)
    requires forall c :: c in m.calls && c.CreateTable? ==> c.options == m.options
    ensures forall c :: c in Run(m).calls && c.CreateTable? ==> c.options == m.options
    decreases |m.replies|
  {
    if !(Terminal(m.phase) || |m.replies| == 0) {
      CreatesCarryOptions(Step(m));
    }
  }

  /** Each model of a batch is created with its own entry of the batch options. */
  lemma {:induction false} BatchPassesOwnOptions(keys: seq<string>, config: Value, replies: seq<Reply>)
    ensures var b := CreateTables(keys, config, replies);
      forall i, c :: 0 <= i < |b.runs| && c in b.runs[i].calls && c.CreateTable? ==>
        c.options == OptionsFor(config, keys[i])
    decreases |keys|
  {
    if |keys| > 0 {
      var o := OptionsFor(config, keys[0]);
      var m0 := Machine(Checking, o, replies, []);
      CreatesCarryOptions(m0);
      assert Truthy(o);
      var m := Provision(o, replies);
      if m.phase == Active {
        BatchPassesOwnOptions(keys[1..], config, m.replies);
      }
    }
  }

  /**
   * Two models where the second one's create fails: the first ends active,
   * the batch reports only the second one's error, and a third is never tried.
   */
  lemma SecondCreateFailsScenario(first: string, second: string, third: string, config: Value, e: string)
    ensures var b := CreateTables([first, second, third], config,
                                  AfterCreate([Status("ACTIVE")]) + [Reply(None, None), Reply(Some(e), None)]);
      && b.outcome == StoppedAt(second, e)
      && |b.runs| == 2 && b.runs[0].phase == Active && b.runs[1].phase == Failed(e)
  {
    var tail := [Reply(None, None), Reply(Some(e), None)];
    CreateThenPollScenario(OptionsFor(config, first), 0, tail);
    assert AfterCreate(Pending(0) + [Status("ACTIVE")] + tail) == AfterCreate([Status("ACTIVE")]) + tail;
    ChangeErrorStopsAtOnce(OptionsFor(config, second), tail);
    var rest := CreateTables([second, third], config, tail);
    assert [first, second, third][1..] == [second, third];
    assert rest.outcome == StoppedAt(second, e) && |rest.runs| == 1;
  }

}
