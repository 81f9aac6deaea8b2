/**
 One relay's control flow over the shared tables and log. Other relays, sales and crashes run at
 its awaits (`Burst`); what it does itself is proved to be the relay's own steps of module Outbox.
 */
module OutboxRelays {
  import opened Arithmetic
  import B = Bookings
  import opened Outbox

  // What the database does to a drain: nothing, an error at the poll, an error at the marks, or a
  // commit that takes effect but reports an error.
  datatype DbFault = NoFault | AtPoll | AtMarks | LostCommit

  // The rows a poll may take.
  function Waiting(w: World): set<RowId> {
    set t | t in w.db.outbox && Eligible(w, t)
  }

  ghost predicate OldestFirst(outbox: map<RowId, B.OutboxRow>, rows: seq<RowId>)
    requires forall t :: t in rows ==> t in outbox
  {
    forall i, j :: 0 <= i < j < |rows| ==> outbox[rows[i]].createdAt <= outbox[rows[j]].createdAt
  }

  // The answer of the poll query: of the waiting rows the batchSize oldest, oldest first.
  ghost predicate PollTakes(w: World, rows: seq<RowId>) {
    && Distinct(rows) && (forall t :: t in rows ==> t in Waiting(w))
    && |rows| == Min(Max(0, w.cfg.batchSize), |Waiting(w)|)
    && OldestFirst(w.db.outbox, rows)
    && (forall t, u :: t in Waiting(w) && t !in rows && u in rows ==>
          w.db.outbox[u].createdAt <= w.db.outbox[t].createdAt)
  }

  // What a drain does with a batch it has taken, and the others meanwhile.
  function SendSteps(r: RelayId, published: bool, delivered: seq<RowId>, fault: DbFault,
                     env1: seq<Step>, env2: seq<Step>): seq<Step>
  {
    env1 + [Publish(r, published, delivered)] + env2 + [if fault.AtMarks? then Crash(r) else Mark(r)]
  }

  // What has become of a row that a drain found as `row`: published and logged, or one attempt further.
  ghost predicate Handled(row: B.OutboxRow, w: World, t: RowId, published: bool) {
    && t in w.db.outbox
    && if published then w.db.outbox[t] == row.(status := B.Published) && Message(t, row) in w.log
       else w.db.outbox[t] == row.(
              attempts := row.attempts + 1,
              status := if row.attempts + 1 >= w.cfg.maxAttempts then B.Failed else B.Pending,
              availableAt := w.db.now + BackoffMs(row.attempts + 1))
  }

  class OutboxRelay {
    const id: RelayId
    const dbCfg: B.Config
    const cfg: Config
    var running: bool
    // Shared with everybody.
    var db: B.Db
    var log: seq<Record>
    var relays: map<RelayId, Relay>
    var failures: map<RowId, nat>
    ghost var trace: seq<Step>

    constructor (id: RelayId, dbCfg: B.Config, cfg: Config)
      ensures Valid() && trace == [] && !running && World() == Init(dbCfg, cfg)
      ensures this.id == id && this.dbCfg == dbCfg && this.cfg == cfg
    {
      this.id, this.dbCfg, this.cfg := id, dbCfg, cfg;
      running := false;
      db, log, relays, failures, trace := B.Init(dbCfg), [], map[], map[], [];
    }

    function World(): World
      reads this
    {
      Outbox.World(db, cfg, log, relays, failures)
    }

    // The shared state is reachable, and this relay's transaction is open only while it runs.
    ghost predicate Valid()
      reads this
    {
      World() == Run(Init(dbCfg, cfg), trace) && (!running ==> id !in relays)
    }

    ghost predicate NotMine(env: seq<Step>) {
      forall st :: st in env ==>
        (st.Poll? ==> st.r != id) && (st.Publish? ==> st.r != id) && (st.Mark? ==> st.r != id)
        && (st.Crash? ==> st.r != id)
    }

    ghost method Record(st: Step)
      requires World() == Apply(Run(Init(dbCfg, cfg), trace), st)
      modifies this`trace
      ensures World() == Run(Init(dbCfg, cfg), trace) && trace == old(trace) + [st]
    {
      RunSnoc(Init(dbCfg, cfg), trace, st);
      trace := trace + [st];
    }

    method Interleave(st: Step)
      requires World() == Run(Init(dbCfg, cfg), trace)
      modifies this`db, this`log, this`relays, this`failures, this`trace
      ensures World() == Run(Init(dbCfg, cfg), trace) && trace == old(trace) + [st]
      ensures World() == Apply(old(World()), st)
    {
      hide Run;
      hide Apply;
      var w := Apply(World(), st);
      CfgStep(World(), st);
      db, log, relays, failures := w.db, w.log, w.relays, w.failures;
      Record(st);
    }

    // An await: everybody else runs.
    method Burst(env: seq<Step>)
      requires World() == Run(Init(dbCfg, cfg), trace) && NotMine(env)
      modifies this`db, this`log, this`relays, this`failures, this`trace
      ensures World() == Run(Init(dbCfg, cfg), trace) && trace == old(trace) + env
      ensures (id in relays) == old(id in relays) && (id in relays ==> relays[id] == old(relays[id]))
    {
      hide Run;
      hide Apply;
      var i := 0;
      while i < |env|
        invariant 0 <= i <= |env| && World() == Run(Init(dbCfg, cfg), trace) && trace == old(trace) + env[..i]
        invariant (id in relays) == old(id in relays) && (id in relays ==> relays[id] == old(relays[id]))
      {
        assert env[i] in env;
        OthersLeaveMine(World(), env[i], id);
        Interleave(env[i]);
        assert env[..i + 1] == env[..i] + [env[i]];
        i := i + 1;
      }
    }

    // ORDER BY created_at: an oldest one.
    method Oldest(candidates: set<RowId>) returns (oldest: RowId)
      requires candidates != {} && forall t :: t in candidates ==> t in db.outbox
      ensures oldest in candidates
      ensures forall t :: t in candidates ==> db.outbox[oldest].createdAt <= db.outbox[t].createdAt
    {
      oldest :| oldest in candidates;
      var rest := candidates - {oldest};
      while rest != {}
        invariant oldest in candidates && rest <= candidates
        invariant forall t :: t in candidates - rest ==> db.outbox[oldest].createdAt <= db.outbox[t].createdAt
        decreases rest
      {
        var t :| t in rest;
        if db.outbox[t].createdAt < db.outbox[oldest].createdAt { oldest := t; }
        rest := rest - {t};
      }
    }

    // The poll query.
    method Select() returns (rows: seq<RowId>)
      ensures PollTakes(World(), rows)
    {
      rows := [];
      var left := Waiting(World());
      StartPicking(World());
      hide Eligible;
      while left != {} && |rows| < cfg.batchSize
        invariant Picking(World(), rows, left) && |rows| <= Max(0, cfg.batchSize)
        decreases left
      {
        var t := Oldest(left);
        PickOldest(World(), rows, left, t);
        rows := rows + [t];
        left := left - {t};
      }
    }

    method MarkOneFailed(t: RowId, seen: B.OutboxRow)
      requires t in db.outbox
      modifies this`db
      ensures db == old(db).(
        outbox := old(db).outbox[t := MarkFailed(old(db).outbox[t], seen, cfg.maxAttempts, old(db).now)])
    {
      var attempts := seen.attempts + 1;
      var backoffMs := BackoffMs(attempts);
      var status := if attempts >= cfg.maxAttempts then B.Failed else B.Pending;
      var row := db.outbox[t].(attempts := attempts, status := status, availableAt := db.now + backoffMs);
      db := db.(outbox := db.outbox[t := row]);
    }

    // One UPDATE per row of the batch, from the attempts read at poll time.
    method MarkFailedRows(rows: seq<RowId>, seen: map<RowId, B.OutboxRow>)
      requires Distinct(rows) && forall t :: t in rows ==> t in seen && t in db.outbox
      modifies this`db
      ensures db == old(db).(outbox := db.outbox) && db.outbox.Keys == old(db.outbox.Keys)
      ensures forall t :: t in db.outbox ==>
        (t in rows ==> db.outbox[t] == MarkFailed(old(db.outbox)[t], seen[t], cfg.maxAttempts, db.now))
      ensures forall t :: t in db.outbox && t !in rows ==> db.outbox[t] == old(db.outbox)[t]
    {
      hide MarkFailed;
      var i := 0;
      while i < |rows|
        invariant 0 <= i <= |rows| && db == old(db).(outbox := db.outbox) && db.outbox.Keys == old(db.outbox.Keys)
        invariant forall j :: 0 <= j < i ==>
          db.outbox[rows[j]] == MarkFailed(old(db.outbox)[rows[j]], seen[rows[j]], cfg.maxAttempts, db.now)
        invariant forall t :: t in db.outbox && t !in rows[..i] ==> db.outbox[t] == old(db.outbox)[t]
      {
        var t := rows[i];
        assert t !in rows[..i] && t in rows;
        MarkOneFailed(t, seen[t]);
        assert rows[..i + 1] == rows[..i] + [t];
        i := i + 1;
      }
      assert rows[..i] == rows;
      assert forall t :: t in rows ==> exists j :: 0 <= j < i && rows[j] == t;
    }

    ghost predicate Holding(rows: seq<RowId>, phase: RelayPhase)
      reads this
    {
      && World() == Run(Init(dbCfg, cfg), trace)
      && id in relays && relays[id].rows == rows && relays[id].phase == phase && rows != []
      && forall t :: t in rows ==> t in relays[id].seen
    }

    // SELECT ... FOR UPDATE SKIP LOCKED
    method TakeBatch() returns (rows: seq<RowId>)
      requires World() == Run(Init(dbCfg, cfg), trace) && id !in relays
      modifies this`relays, this`trace
      ensures PollTakes(old(World()), rows)
      ensures rows != [] ==> Holding(rows, Polled) && trace == old(trace) + [Poll(id, rows)]
      ensures rows != [] ==> forall t :: t in rows ==> t in db.outbox && relays[id].seen[t] == db.outbox[t]
      ensures rows == [] ==> trace == old(trace) && relays == old(relays)
    {
      hide Run;
      rows := Select();
      if rows == [] { return; }
      relays := relays[id := Relay(rows, map t | t in db.outbox && t in rows :: db.outbox[t], Polled)];
      Record(Poll(id, rows));
    }

    // The broker takes the whole batch, or some part of it and reports an error.
    method PublishBatch(rows: seq<RowId>, published: bool, delivered: seq<RowId>)
      requires Holding(rows, Polled)
      modifies this`relays, this`log, this`trace
      ensures Holding(rows, if published then Sent else Refused) && relays[id].seen == old(relays)[id].seen
      ensures trace == old(trace) + [Publish(id, published, delivered)]
    {
      hide Run;
      var out := if published then rows else Only(delivered, rows);
      log := log + Messages(out, relays[id].seen);
      relays := relays[id := relays[id].(phase := if published then Sent else Refused)];
      Record(Publish(id, published, delivered));
    }

    // UPDATE ... SET status = 'published' WHERE id IN (...), or the failure marks.
    method WriteMarks(rows: seq<RowId>, published: bool)
      requires Holding(rows, if published then Sent else Refused) && Distinct(rows)
      requires forall t :: t in rows ==> t in db.outbox
      modifies this`db
      ensures db == old(db).(outbox := Marked(old(World()), relays[id]))
    {
      ghost var w := World();
      if published {
        db := db.(outbox := map t | t in db.outbox :: if t in rows then db.outbox[t].(status := B.Published)
                                                      else db.outbox[t]);
      } else {
        MarkFailedRows(rows, relays[id].seen);
      }
      assert db.outbox == Marked(w, w.relays[id]);
    }

    // The marks, then COMMIT.
    method Settle(rows: seq<RowId>, published: bool)
      requires Holding(rows, if published then Sent else Refused) && Distinct(rows)
      modifies this`db, this`relays, this`failures, this`trace
      ensures World() == Run(Init(dbCfg, cfg), trace) && id !in relays
      ensures trace == old(trace) + [Mark(id)]
      ensures forall t :: t in rows ==> Handled(old(relays)[id].seen[t], World(), t, published)
    {
      hide Run;
      hide Apply;
      hide Marked;
      hide Handled;
      InvRun(Init(dbCfg, cfg), trace);
      MarkApplied(World(), id);
      WriteMarks(rows, published);
      if !published {
        failures := map t | t in failures.Keys + (set u | u in rows) ::
          Tally(failures, t) + if t in rows then 1 else 0;
      }
      relays := Without(relays, id);
      Record(Mark(id));
    }

    // ROLLBACK: the marks vanish and the rows are unlocked; what was published stays published.
    method Rollback()
      requires World() == Run(Init(dbCfg, cfg), trace)
      modifies this`relays, this`trace
      ensures World() == Run(Init(dbCfg, cfg), trace) && id !in relays && trace == old(trace) + [Crash(id)]
    {
      hide Run;
      relays := Without(relays, id);
      Record(Crash(id));
    }

    // The body of one drain, once nobody else runs it: poll, publish, mark, commit. An error of the
    // database escapes it.
    method DrainBatch(published: bool, delivered: seq<RowId>, fault: DbFault,
                      env0: seq<Step>, env1: seq<Step>, env2: seq<Step>) returns (rows: seq<RowId>, threw: bool)
      requires World() == Run(Init(dbCfg, cfg), trace) && id !in relays
      requires NotMine(env0) && NotMine(env1) && NotMine(env2)
      modifies this`db, this`log, this`relays, this`failures, this`trace
      ensures World() == Run(Init(dbCfg, cfg), trace) && id !in relays
      ensures threw <==> !fault.NoFault?
      ensures Drained(old(trace) + env0, rows, published, delivered, fault, env1, env2)
    {
      hide Run;
      hide Apply;
      hide Handled;
      hide SendSteps;
      threw := !fault.NoFault?;
      rows := [];
      Burst(env0);
      assert trace + [] == trace;
      if fault.AtPoll? { return; }
      rows := TakeBatch();
      if rows == [] { return; }
      SendBatch(rows, published, delivered, fault, env1, env2);
    }

    // A drain that polled after the run `polled` took this batch, did this with it, and left its rows so.
    ghost predicate Drained(polled: seq<Step>, batch: seq<RowId>, published: bool, delivered: seq<RowId>,
                            fault: DbFault, env1: seq<Step>, env2: seq<Step>)
      reads this
    {
      var w := Run(Init(dbCfg, cfg), polled);
      && (if fault.AtPoll? then batch == [] else PollTakes(w, batch))
      && trace == polled + (if batch == [] then []
                            else [Poll(id, batch)] + SendSteps(id, published, delivered, fault, env1, env2))
      && (!fault.AtMarks? ==>
            forall t :: t in batch ==> t in w.db.outbox && Handled(w.db.outbox[t], World(), t, published))
    }

    // From the poll on: publish, mark, commit.
    method SendBatch(rows: seq<RowId>, published: bool, delivered: seq<RowId>, fault: DbFault,
                     env1: seq<Step>, env2: seq<Step>)
      requires Holding(rows, Polled) && Distinct(rows) && NotMine(env1) && NotMine(env2)
      modifies this`db, this`log, this`relays, this`failures, this`trace
      ensures World() == Run(Init(dbCfg, cfg), trace) && id !in relays
      ensures trace == old(trace) + SendSteps(id, published, delivered, fault, env1, env2)
      ensures !fault.AtMarks? ==>
        forall t :: t in rows ==> Handled(old(relays)[id].seen[t], World(), t, published)
    {
      hide Run;
      hide Apply;
      hide Handled;
      Burst(env1);
      PublishBatch(rows, published, delivered);
      Burst(env2);
      if fault.AtMarks? { Rollback(); } else { Settle(rows, published); }
    }

    // Publishes at most one batch and returns how many rows went out. Whether it returns or throws,
    // the next drain may run.
    method DrainOnce(published: bool, delivered: seq<RowId>, fault: DbFault,
                     env0: seq<Step>, env1: seq<Step>, env2: seq<Step>)
      returns (n: nat, threw: bool, ghost batch: seq<RowId>)
      requires Valid() && NotMine(env0) && NotMine(env1) && NotMine(env2)
      modifies this
      ensures Valid() && running == old(running) && old(trace) <= trace
      ensures old(running) ==> batch == [] && trace == old(trace)
      ensures !old(running) ==> Drained(old(trace) + env0, batch, published, delivered, fault, env1, env2)
      ensures n == if published && fault.NoFault? then |batch| else 0
      ensures threw <==> !old(running) && !fault.NoFault?
    {
      hide Run;
      hide Apply;
      if running { return 0, false, []; }
      running := true;
      var rows;
      rows, threw := DrainBatch(published, delivered, fault, env0, env1, env2);
      n := if published && !threw then |rows| else 0;
      running := false;
      batch := rows;
    }

    // tick: drain again at once while there is a backlog; otherwise, and after an error, wait for
    // the poll interval.
    method Tick(published: bool, delivered: seq<RowId>, fault: DbFault, env0: seq<Step>, env1: seq<Step>,
                env2: seq<Step>, pollIntervalMs: int) returns (next: int, ghost batch: seq<RowId>)
      requires Valid() && NotMine(env0) && NotMine(env1) && NotMine(env2)
      modifies this
      ensures Valid() && old(trace) <= trace && running == old(running)
      ensures old(running) ==> batch == []
      ensures !old(running) ==> Drained(old(trace) + env0, batch, published, delivered, fault, env1, env2)
      ensures next == if published && fault.NoFault? && batch != [] then 0 else pollIntervalMs
    {
      hide Run;
      hide Apply;
      var n, threw;
      n, threw, batch := DrainOnce(published, delivered, fault, env0, env1, env2);
      next := if !threw && n > 0 then 0 else pollIntervalMs;
    }
  }

  // `rows` are the oldest of the waiting rows, oldest first, and `left` is the rest.
  ghost predicate Picking(w: World, rows: seq<RowId>, left: set<RowId>) {
    && left <= Waiting(w) && (forall t :: t in Waiting(w) <==> t in rows || t in left)
    && (forall t :: t in rows ==> t !in left) && |rows| + |left| == |Waiting(w)|
    && Distinct(rows) && OldestFirst(w.db.outbox, rows)
    && (forall t, u :: t in left && u in rows ==> w.db.outbox[u].createdAt <= w.db.outbox[t].createdAt)
  }

  lemma StartPicking(w: World)
    ensures Picking(w, [], Waiting(w))
  {
  }

  lemma PickOldest(w: World, rows: seq<RowId>, left: set<RowId>, t: RowId)
    requires Picking(w, rows, left) && t in left
    requires forall u :: u in left ==> w.db.outbox[t].createdAt <= w.db.outbox[u].createdAt
    ensures Picking(w, rows + [t], left - {t})
  {
    hide Eligible;
    var rows' := rows + [t];
    forall u ensures u in Waiting(w) <==> u in rows' || u in left - {t} {}
    assert forall k :: 0 <= k < |rows'| ==> rows'[k] in rows' && rows'[k] in w.db.outbox;
    forall i, j | 0 <= i < j < |rows'|
      ensures rows'[i] != rows'[j] && w.db.outbox[rows'[i]].createdAt <= w.db.outbox[rows'[j]].createdAt
    {
      assert rows'[i] in rows;
    }
  }

  lemma MarkApplied(w: World, r: RelayId)
    requires Inv(w) && MayMark(w, Mark(r))
    ensures var relay := w.relays[r];
      && Apply(w, Mark(r)) ==
           w.(db := w.db.(outbox := Marked(w, relay)), relays := Without(w.relays, r),
              failures := if relay.phase.Sent? then w.failures
                          else map t | t in w.failures.Keys + (set u | u in relay.rows) ::
                                 Tally(w.failures, t) + if t in relay.rows then 1 else 0)
      && (forall t :: t in relay.rows ==>
            t in w.db.outbox && t in relay.seen && Handled(relay.seen[t], Apply(w, Mark(r)), t, relay.phase.Sent?))
  {
    forall t | t in w.relays[r].rows
      ensures t in w.db.outbox && t in w.relays[r].seen
      ensures Handled(w.relays[r].seen[t], Apply(w, Mark(r)), t, w.relays[r].phase.Sent?)
    {
      assert HeldAt(w, r, t);
      MarkedAt(w, r, t);
    }
  }

  lemma OthersLeaveMine(w: World, st: Step, r: RelayId)
    requires (st.Poll? ==> st.r != r) && (st.Publish? ==> st.r != r) && (st.Mark? ==> st.r != r)
      && (st.Crash? ==> st.r != r)
    ensures (r in Apply(w, st).relays) == (r in w.relays)
    ensures r in w.relays ==> Apply(w, st).relays[r] == w.relays[r]
  {
  }
}
