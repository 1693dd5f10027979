/**
 * The API command idempotency record. The SQL ledger is modelled one statement at a time, because replicas interleave
 * between the statements of a claim (internal/store/pgstore/command_ledger.go); the memory ledger is one critical
 * section a call (internal/task/command_ledger.go).
 */
module CommandLedger {
  import opened Common

  /** A response body. */
  type Body = string

  /** What ClaimCommand answers. */
  datatype Claim = Claimed | Stored(result: Option<Body>) | Conflict | InProgress | NoSuchRow | UnexpectedStatus

  // ---- keys ----

  /** `commandKey`. */
  function CommandKey(tenant: string, task: string, command: string): string {
    tenant + "/" + task + "/" + command
  }

  function TenantOf(key: string): string {
    if key == "" || key[0] == '/' then "" else [key[0]] + TenantOf(key[1..])
  }

  lemma {:induction false} TenantOfKey(tenant: string, rest: string)
    requires '/' !in tenant
    ensures TenantOf(tenant + "/" + rest) == tenant
  {
    if tenant != "" {
      TenantOfKey(tenant[1..], rest);
      assert (tenant + "/" + rest)[1..] == tenant[1..] + "/" + rest;
    }
  }

  /** A key reads as tenant, task and command, with a slash between them. */
  lemma KeyReads(tenant: string, task: string, command: string)
    requires '/' !in tenant && '/' !in task
    ensures var key := CommandKey(tenant, task, command);
      && TenantOf(key) == tenant && |key| > |tenant| && key[|tenant|] == '/'
      && TenantOf(key[|tenant| + 1..]) == task && |key| >= |tenant| + |task| + 2
      && key[|tenant| + |task| + 2..] == command
  {
    var rest := task + "/" + command;
    assert CommandKey(tenant, task, command) == tenant + "/" + rest;
    TenantOfKey(tenant, rest);
    assert (tenant + "/" + rest)[|tenant| + 1..] == rest;
    TenantOfKey(task, command);
  }

  /** One ledger key never stands for two commands: tenant and task ids hold no slash, a command id may. */
  lemma KeysAreInjective(tenant: string, task: string, command: string, tenant': string, task': string,
                         command': string)
    requires '/' !in tenant && '/' !in task && '/' !in tenant' && '/' !in task'
    requires CommandKey(tenant, task, command) == CommandKey(tenant', task', command')
    ensures tenant == tenant' && task == task' && command == command'
  {
    var rest, rest' := task + "/" + command, task' + "/" + command';
    assert CommandKey(tenant, task, command) == tenant + "/" + rest;
    assert CommandKey(tenant', task', command') == tenant' + "/" + rest';
    TenantOfKey(tenant, rest);
    TenantOfKey(tenant', rest');
    assert (tenant + "/" + rest)[|tenant| + 1..] == rest;
    assert (tenant' + "/" + rest')[|tenant'| + 1..] == rest';
    TenantOfKey(task, command);
    TenantOfKey(task', command');
    assert rest[|task| + 1..] == command && rest'[|task'| + 1..] == command';
  }

  // ---- the SQL ledger ----

  datatype Status = Started | Succeeded | FailedPermanently

  datatype Row = Row(tenant: string, hash: string, status: Status, owner: Option<string>, lastSeen: int,
      result: Option<Body>)

  type Table = map<string, Row>

  /** INSERT ... ON CONFLICT DO NOTHING; `last_seen` defaults to the transaction's now(). */
  function Inserted(table: Table, key: string, tenant: string, hash: string, owner: string, now: int): Table {
    if key in table then table else table[key := Row(tenant, hash, Started, Some(owner), now, None)]
  }

  /** What a claim does after it read the row: answer, or go on to the conditional update. */
  function Decide(table: Table, key: string, tenant: string, hash: string): Option<Claim> {
    if key !in table || table[key].tenant != tenant then Some(NoSuchRow)
    else if table[key].hash != hash then Some(Conflict)
    else match table[key].status
      case Succeeded => Some(Stored(table[key].result))
      case Started => None
      case FailedPermanently => Some(UnexpectedStatus)
  }

  /** The WHERE of the takeover: released, or the holder was last seen longer ago than the lease. */
  predicate Takeable(table: Table, key: string, tenant: string, now: int, lease: int) {
    && key in table && table[key].tenant == tenant && table[key].status == Started
    && (table[key].owner == None || table[key].lastSeen < now - lease)
  }

  function TakenOver(table: Table, key: string, tenant: string, owner: string, now: int, lease: int): Table {
    if Takeable(table, key, tenant, now, lease)
    then table[key := table[key].(owner := Some(owner), lastSeen := now)]
    else table
  }

  /** The WHERE of complete and release. */
  predicate HeldBy(table: Table, key: string, tenant: string, owner: string) {
    key in table && table[key].tenant == tenant && table[key].status == Started && table[key].owner == Some(owner)
  }

  function Completed(table: Table, key: string, tenant: string, owner: string, result: Body, now: int): Table {
    if HeldBy(table, key, tenant, owner)
    then table[key := table[key].(status := Succeeded, result := Some(result), lastSeen := now)]
    else table
  }

  function Released(table: Table, key: string, tenant: string, owner: string): Table {
    if HeldBy(table, key, tenant, owner) then table[key := table[key].(owner := None)] else table
  }

  /** `claimLedgerRow` when nothing happens between its statements. */
  function SqlClaim(table: Table, key: string, tenant: string, hash: string, owner: string, lease: int,
                    now: int): (Table, Claim) {
    if key !in table then (Inserted(table, key, tenant, hash, owner, now), Claimed)
    else match Decide(table, key, tenant, hash)
      case Some(answer) => (table, answer)
      case None => (TakenOver(table, key, tenant, owner, now, lease),
                    if Takeable(table, key, tenant, now, lease) then Claimed else InProgress)
  }

  class SqlLedger {
    var table: Table

    constructor ()
      ensures table == map[]
    {
      table := map[];
    }

    method Insert(key: string, tenant: string, hash: string, owner: string, now: int) returns (created: bool)
      modifies this
      ensures created <==> key !in old(table)
      ensures table == Inserted(old(table), key, tenant, hash, owner, now)
    {
      created := key !in table;
      if created {
        table := table[key := Row(tenant, hash, Started, Some(owner), now, None)];
      }
    }

    method Read(key: string, tenant: string) returns (row: Option<Row>)
      ensures row == if key in table && table[key].tenant == tenant then Some(table[key]) else None
    {
      row := None;
      if key in table && table[key].tenant == tenant {
        row := Some(table[key]);
      }
    }

    method TakeOver(key: string, tenant: string, owner: string, now: int, lease: int) returns (taken: bool)
      modifies this
      ensures taken <==> Takeable(old(table), key, tenant, now, lease)
      ensures table == TakenOver(old(table), key, tenant, owner, now, lease)
    {
      taken := false;
      if key in table && table[key].tenant == tenant {
        var row := table[key];
        if row.status == Started && (row.owner == None || row.lastSeen < now - lease) {
          table := table[key := row.(owner := Some(owner), lastSeen := now)];
          taken := true;
        }
      }
    }

    /** `claimLedgerRow`: insert, read, decide, update. */
    method ClaimCommand(key: string, tenant: string, hash: string, owner: string, lease: int, now: int)
        returns (answer: Claim)
      modifies this
      ensures (table, answer) == SqlClaim(old(table), key, tenant, hash, owner, lease, now)
    {
      var created := Insert(key, tenant, hash, owner, now);
      if created {
        return Claimed;
      }
      var row := Read(key, tenant);
      if row.None? {
        return NoSuchRow;
      }
      if row.value.hash != hash {
        return Conflict;
      }
      if row.value.status == Succeeded {
        return Stored(row.value.result);
      }
      if row.value.status != Started {
        return UnexpectedStatus;
      }
      var taken := TakeOver(key, tenant, owner, now, lease);
      answer := if taken then Claimed else InProgress;
    }

    method CompleteCommand(key: string, tenant: string, owner: string, result: Body, now: int)
      modifies this
      ensures table == Completed(old(table), key, tenant, owner, result, now)
    {
      if key in table && table[key].tenant == tenant && table[key].status == Started
          && table[key].owner == Some(owner) {
        table := table[key := table[key].(status := Succeeded, result := Some(result), lastSeen := now)];
      }
    }

    method ReleaseCommand(key: string, tenant: string, owner: string)
      modifies this
      ensures table == Released(old(table), key, tenant, owner)
    {
      if key in table && table[key].tenant == tenant && table[key].status == Started
          && table[key].owner == Some(owner) {
        table := table[key := table[key].(owner := None)];
      }
    }
  }

  // ---- the memory ledger ----

  /** `owner` is empty when released; `done` is the status succeeded. */
  datatype Entry = Entry(hash: string, done: bool, owner: string, seen: int, result: Body)

  type Entries = map<string, Entry>

  function MemoryClaim(entries: Entries, key: string, hash: string, owner: string, lease: int,
                       now: int): (Entries, Claim) {
    if key !in entries then (entries[key := Entry(hash, false, owner, now, "")], Claimed)
    else
      var entry := entries[key];
      if entry.hash != hash then (entries, Conflict)
      else if entry.done then (entries, Stored(Some(entry.result)))
      else if entry.owner != "" && now - entry.seen < lease then (entries, InProgress)
      else (entries[key := entry.(owner := owner, seen := now)], Claimed)
  }

  predicate HoldsEntry(entries: Entries, key: string, owner: string) {
    key in entries && !entries[key].done && entries[key].owner == owner
  }

  function MemoryCompleted(entries: Entries, key: string, owner: string, result: Body, now: int): Entries {
    if HoldsEntry(entries, key, owner) then entries[key := entries[key].(done := true, seen := now, result := result)]
        else entries
  }

  function MemoryReleased(entries: Entries, key: string, owner: string): Entries {
    if HoldsEntry(entries, key, owner) then entries[key := entries[key].(owner := "")] else entries
  }

  class MemoryLedger {
    var entries: Entries

    constructor ()
      ensures entries == map[]
    {
      entries := map[];
    }

    method ClaimCommand(key: string, hash: string, owner: string, lease: int, now: int) returns (answer: Claim)
      modifies this
      ensures (entries, answer) == MemoryClaim(old(entries), key, hash, owner, lease, now)
    {
      if key !in entries {
        entries := entries[key := Entry(hash, false, owner, now, "")];
        return Claimed;
      }
      var entry := entries[key];
      if entry.hash != hash {
        return Conflict;
      }
      if entry.done {
        return Stored(Some(entry.result));
      }
      if entry.owner != "" && now - entry.seen < lease {
        return InProgress;
      }
      entry := entry.(owner := owner, seen := now);
      entries := entries[key := entry];
      answer := Claimed;
    }

    method CompleteCommand(key: string, owner: string, result: Body, now: int)
      modifies this
      ensures entries == MemoryCompleted(old(entries), key, owner, result, now)
    {
      if key !in entries || entries[key].done || entries[key].owner != owner {
        return;
      }
      entries := entries[key := entries[key].(done := true, seen := now, result := result)];
    }

    method ReleaseCommand(key: string, owner: string)
      modifies this
      ensures entries == MemoryReleased(old(entries), key, owner)
    {
      if key !in entries || entries[key].done || entries[key].owner != owner {
        return;
      }
      entries := entries[key := entries[key].(owner := "")];
    }
  }

  // ---- the memory ledger refines the SQL ledger ----

  predicate SameRecord(key: string, entry: Entry, row: Row) {
    && row.tenant == TenantOf(key)
    && entry.hash == row.hash
    && row.status == (if entry.done then Succeeded else Started)
    && row.owner == (if entry.owner == "" then None else Some(entry.owner))
    && entry.seen == row.lastSeen
    && row.result == (if entry.done then Some(entry.result) else None)
  }

  ghost predicate Corresponds(entries: Entries, table: Table) {
    entries.Keys == table.Keys && forall key | key in entries :: SameRecord(key, entries[key], table[key])
  }

  datatype Call =
    | ClaimCall(key: string, hash: string, owner: string, lease: int, now: int)
    | CompleteCall(key: string, owner: string, result: Body, now: int)
    | ReleaseCall(key: string, owner: string)

  function CallSql(table: Table, call: Call): (Table, Option<Claim>) {
    match call
    case ClaimCall(key, hash, owner, lease, now) =>
      var (after, answer) := SqlClaim(table, key, TenantOf(key), hash, owner, lease, now); (after, Some(answer))
    case CompleteCall(key, owner, result, now) => (Completed(table, key, TenantOf(key), owner, result, now), None)
    case ReleaseCall(key, owner) => (Released(table, key, TenantOf(key), owner), None)
  }

  function CallMemory(entries: Entries, call: Call): (Entries, Option<Claim>) {
    match call
    case ClaimCall(key, hash, owner, lease, now) =>
      var (after, answer) := MemoryClaim(entries, key, hash, owner, lease, now); (after, Some(answer))
    case CompleteCall(key, owner, result, now) => (MemoryCompleted(entries, key, owner, result, now), None)
    case ReleaseCall(key, owner) => (MemoryReleased(entries, key, owner), None)
  }

  /** A claim of a held command at the very instant its lease runs out. */
  predicate AtTheBoundary(table: Table, call: Call) {
    && call.ClaimCall? && call.key in table
    && table[call.key].hash == call.hash && table[call.key].status == Started && table[call.key].owner != None
    && call.now - table[call.key].lastSeen == call.lease
  }

  /** One call: the two ledgers agree on the answer and stay in step unless, and only unless, it is at the boundary. */
  lemma CallsAgree(entries: Entries, table: Table, call: Call)
    requires Corresponds(entries, table) && call.owner != ""
    ensures !AtTheBoundary(table, call) <==>
              && CallMemory(entries, call).1 == CallSql(table, call).1
              && Corresponds(CallMemory(entries, call).0, CallSql(table, call).0)
  {
    match call
    case ClaimCall(key, hash, owner, lease, now) => ClaimsAgree(entries, table, call);
    case CompleteCall(key, owner, result, now) => CompletionsAgree(entries, table, key, owner, result, now);
    case ReleaseCall(key, owner) => ReleasesAgree(entries, table, key, owner);
  }

  lemma ClaimsAgree(entries: Entries, table: Table, call: Call)
    requires Corresponds(entries, table) && call.ClaimCall? && call.owner != ""
    ensures !AtTheBoundary(table, call) <==>
              && CallMemory(entries, call).1 == CallSql(table, call).1
              && Corresponds(CallMemory(entries, call).0, CallSql(table, call).0)
  {
    if call.key in entries {
      assert SameRecord(call.key, entries[call.key], table[call.key]);
    }
  }

  lemma CompletionsAgree(entries: Entries, table: Table, key: string, owner: string, result: Body, now: int)
    requires Corresponds(entries, table) && owner != ""
    ensures Corresponds(MemoryCompleted(entries, key, owner, result, now),
                        Completed(table, key, TenantOf(key), owner, result, now))
  {
    if key in entries {
      assert SameRecord(key, entries[key], table[key]);
    }
  }

  lemma ReleasesAgree(entries: Entries, table: Table, key: string, owner: string)
    requires Corresponds(entries, table) && owner != ""
    ensures Corresponds(MemoryReleased(entries, key, owner), Released(table, key, TenantOf(key), owner))
  {
    if key in entries {
      assert SameRecord(key, entries[key], table[key]);
    }
  }

  function Answers(table: Table, calls: seq<Call>): (Table, seq<Option<Claim>>) {
    if calls == [] then (table, [])
    else
      var (before, answers) := Answers(table, calls[..|calls| - 1]);
      var (after, answer) := CallSql(before, calls[|calls| - 1]);
      (after, answers + [answer])
  }

  function MemoryAnswers(entries: Entries, calls: seq<Call>): (Entries, seq<Option<Claim>>) {
    if calls == [] then (entries, [])
    else
      var (before, answers) := MemoryAnswers(entries, calls[..|calls| - 1]);
      var (after, answer) := CallMemory(before, calls[|calls| - 1]);
      (after, answers + [answer])
  }

  /** No call of the sequence is at the boundary when it is made. */
  predicate NeverAtTheBoundary(table: Table, calls: seq<Call>) {
    forall i | 0 <= i < |calls| :: !AtTheBoundary(Answers(table, calls[..i]).0, calls[i])
  }

  lemma NeverBefore(table: Table, calls: seq<Call>)
    requires NeverAtTheBoundary(table, calls) && calls != []
    ensures NeverAtTheBoundary(table, calls[..|calls| - 1])
    ensures !AtTheBoundary(Answers(table, calls[..|calls| - 1]).0, calls[|calls| - 1])
  {
    var front := calls[..|calls| - 1];
    forall i | 0 <= i < |front| ensures !AtTheBoundary(Answers(table, front[..i]).0, front[i]) {
      assert front[..i] == calls[..i] && front[i] == calls[i];
    }
  }

  /** Over every sequence of calls that never hits the boundary, both ledgers give the same answers. */
  lemma {:induction false} MemoryRefinesSql(entries: Entries, table: Table, calls: seq<Call>)
    requires Corresponds(entries, table) && forall call | call in calls :: call.owner != ""
    requires NeverAtTheBoundary(table, calls)
    ensures MemoryAnswers(entries, calls).1 == Answers(table, calls).1
    ensures Corresponds(MemoryAnswers(entries, calls).0, Answers(table, calls).0)
  {
    if calls != [] {
      var front := calls[..|calls| - 1];
      NeverBefore(table, calls);
      MemoryRefinesSql(entries, table, front);
      CallsAgree(MemoryAnswers(entries, front).0, Answers(table, front).0, calls[|calls| - 1]);
    }
  }
}
