/** The repository that keeps every account's mailbox in SQL tables. */
module MailTables {
  import opened Wrappers
  import opened MailMessages
  import opened MailKeys
  import opened MailboxSync
  import opened MailAnswers

  datatype MessageKey = MessageKey(account: string, generation: string, uid: nat)
  datatype HiddenRow = HiddenRow(account: string, generation: string, alias: string, uid: nat)
  datatype StateRow = StateRow(status: Status, highestUid: nat, allowedAliases: seq<string>)
  datatype Tables = Tables(states: map<string, StateRow>, messages: map<MessageKey, Message>, hidden: set<HiddenRow>)

  const SQL_BATCH: nat := 500

  function RowOfState(cache: Cache): StateRow {
    StateRow(cache.status, cache.highestUid, cache.allowedAliases)
  }

  // ---- Bulk statements ----

  /** The rows that one statement of a series writes. */
  function Batch<T>(rows: seq<T>, n: nat): seq<T> {
    if SQL_BATCH * n >= |rows| then []
    else if SQL_BATCH * n + SQL_BATCH < |rows| then rows[SQL_BATCH * n..SQL_BATCH * n + SQL_BATCH]
    else rows[SQL_BATCH * n..]
  }

  /** A statement of the save would write one row twice, which the database refuses. */
  ghost predicate RepeatsRow(account: string, cache: Cache) {
    var g := cache.status.generation;
    g != "" && (RepeatsMessage(cache.messages) || RepeatsHidden(HiddenRows(account, g, cache.hidden)))
  }

  ghost predicate RepeatsMessage(messages: seq<Message>) {
    exists n :: SameRowTwice(Batch(messages, n))
  }

  ghost predicate RepeatsHidden(rows: seq<HiddenRow>) {
    exists n :: RowTwice(Batch(rows, n))
  }

  predicate SameRowTwice(batch: seq<Message>) {
    exists i, j :: 0 <= i < j < |batch| && batch[i].uid == batch[j].uid
  }

  /** The message table after inserting rows that overwrite rows of their key. */
  function Upserted(rows: map<MessageKey, Message>, account: string, generation: string, batch: seq<Message>): map<MessageKey, Message> {
    if batch == [] then rows
    else
      var m := batch[|batch| - 1];
      Upserted(rows, account, generation, batch[..|batch| - 1])[MessageKey(account, generation, m.uid) := m]
  }

  lemma {:induction false} UpsertedConcat(rows: map<MessageKey, Message>, account: string, generation: string, a: seq<Message>, b: seq<Message>)
    ensures Upserted(Upserted(rows, account, generation, a), account, generation, b) == Upserted(rows, account, generation, a + b)
  {
    if b == [] {
      assert a + b == a;
    } else {
      var n := |b| - 1;
      UpsertedConcat(rows, account, generation, a, b[..n]);
      assert (a + b)[..|a + b| - 1] == a + b[..n];
    }
  }

  /** The rows of hidden keys, in order; keys that do not parse are skipped. */
  function HiddenRows(account: string, generation: string, keys: seq<string>): seq<HiddenRow> {
    if keys == [] then []
    else
      var parsed := ParseKey(generation, keys[|keys| - 1]);
      HiddenRows(account, generation, keys[..|keys| - 1])
      + if parsed.Some? then [HiddenRow(account, generation, parsed.value.0, parsed.value.1)] else []
  }

  // ---- What a save writes ----

  function ImportedGeneration(cache: Cache): Cache {
    if cache.status.generation == "" && cache.messages != [] then
      cache.(status := cache.status.(generation := "legacy-import"))
    else cache
  }

  /** All rows of other accounts, and this account's rows of the generation. */
  function WithoutOldRows(rows: map<MessageKey, Message>, account: string, generation: string): map<MessageKey, Message> {
    map k | k in rows && (k.account != account || (generation != "" && k.generation == generation)) :: rows[k]
  }

  function SavedMessages(rows: map<MessageKey, Message>, account: string, cache: Cache): map<MessageKey, Message> {
    var g := cache.status.generation;
    var others := WithoutOldRows(rows, account, g);
    var upserted := if g == "" then others else Upserted(others, account, g, cache.messages);
    map k | k in upserted && (k.account != account || k.uid in Uids(cache.messages)) :: upserted[k]
  }

  function Uids(s: seq<Message>): set<nat> {
    set m | m in s :: m.uid
  }

  function SavedHidden(rows: set<HiddenRow>, account: string, cache: Cache): set<HiddenRow> {
    var g := cache.status.generation;
    (set h | h in rows && h.account != account)
    + if g == "" then {} else set h | h in HiddenRows(account, g, cache.hidden)
  }

  function SavedTables(tables: Tables, account: string, given: Cache): Tables {
    var cache := ImportedGeneration(given);
    Tables(tables.states[account := RowOfState(cache)],
           SavedMessages(tables.messages, account, cache), SavedHidden(tables.hidden, account, cache))
  }

  function StateSaved(tables: Tables, account: string, state: Cache): Tables {
    tables.(states := tables.states[account := RowOfState(state)])
  }

  function Cleared(tables: Tables, account: string): Tables {
    Tables(tables.states - {account},
           map k | k in tables.messages && k.account != account :: tables.messages[k],
           set h | h in tables.hidden && h.account != account)
  }

  // ---- The repository ----

  /** The UID of a row is the one in its key. */
  ghost predicate WellKeyed(rows: map<MessageKey, Message>) {
    forall k :: k in rows ==> rows[k].uid == k.uid
  }

  class Database {
    var tables: Tables

    ghost predicate Valid()
      reads this
    {
      WellKeyed(tables.messages)
    }

    constructor ()
      ensures Valid() && tables == Tables(map[], map[], {})
    {
      tables := Tables(map[], map[], {});
    }
  }

  class SqlRepository {
    const database: Database
    const account: string

    constructor (database: Database, account: string)
      ensures this.database == database && this.account == account
    {
      this.database, this.account := database, account;
    }

    /** One transaction: either everything is written or nothing. It fails when a
        statement does, and when one statement writes the same row twice. */
    method Save(given: Cache, fails: nat -> bool) returns (ok: bool)
      requires database.Valid()
      modifies database
      ensures database.Valid()
      ensures database.tables == if ok then SavedTables(old(database.tables), account, given) else old(database.tables)
      ensures (forall s :: !fails(s)) ==> (ok <==> !RepeatsRow(account, ImportedGeneration(given)))
      ensures ok ==> !RepeatsRow(account, ImportedGeneration(given))
    {
      hide HiddenRows, Upserted, RepeatsMessage, RepeatsHidden;
      var cache := ImportedGeneration(given);
      var g := cache.status.generation;
      var tx := database.tables;
      if fails(0) || fails(1) || fails(2) {
        return false;
      }
      tx := tx.(states := tx.states[account := RowOfState(cache)]);
      if g == "" {
        tx := tx.(messages := map k | k in tx.messages && k.account != account :: tx.messages[k],
                  hidden := set h | h in tx.hidden && h.account != account);
        assert tx.messages == SavedMessages(database.tables.messages, account, cache);
      } else {
        tx := tx.(messages := map k | k in tx.messages && !(k.account == account && k.generation != g) :: tx.messages[k],
                  hidden := set h | h in tx.hidden && !(h.account == account && h.generation != g));
        assert tx.messages == WithoutOldRows(database.tables.messages, account, g);
        var rows := SaveMessages(tx.messages, g, cache.messages, fails);
        if rows.None? || fails(3) {
          return false;
        }
        tx := tx.(messages := map k | k in rows.value && (k.account != account || k.uid in Uids(cache.messages)) :: rows.value[k]);
        assert tx.messages == SavedMessages(database.tables.messages, account, cache);
        UpsertedKeyed(WithoutOldRows(database.tables.messages, account, g), account, g, cache.messages);
        if fails(4) {
          return false;
        }
        tx := tx.(hidden := set h | h in tx.hidden && !(h.account == account && h.generation == g));
        var hidden := SaveHidden(tx.hidden, g, cache.hidden, fails);
        if hidden.None? {
          return false;
        }
        tx := tx.(hidden := hidden.value);
        assert tx.hidden == SavedHidden(database.tables.hidden, account, cache);
      }
      if fails(5) {
        return false;
      }
      database.tables := tx;
      ok := true;
    }

    method SaveMessages(before: map<MessageKey, Message>, generation: string, messages: seq<Message>, fails: nat -> bool)
      returns (rows: Option<map<MessageKey, Message>>)
      ensures rows.Some? ==> rows.value == Upserted(before, account, generation, messages)
      ensures (forall s :: !fails(s)) && !RepeatsMessage(messages) ==> rows.Some?
      ensures rows.Some? ==> !RepeatsMessage(messages)
    {
      hide Upserted, SameRowTwice;
      ghost var n := 0;
      var out := before;
      var start := 0;
      NothingUpserted(before, account, generation);
      while start < |messages|
        invariant start <= |messages|
        invariant out == Upserted(before, account, generation, messages[..start])
        invariant start == if SQL_BATCH * n < |messages| then SQL_BATCH * n else |messages|
        invariant forall k: nat :: k < n ==> !SameRowTwice(Batch(messages, k))
      {
        var end := if start + SQL_BATCH < |messages| then start + SQL_BATCH else |messages|;
        var batch := messages[start..end];
        assert batch == Batch(messages, n);
        if fails(6 + start) || SameRowTwice(batch) {
          return None;
        }
        out := Upserted(out, account, generation, batch);
        UpsertedConcat(before, account, generation, messages[..start], batch);
        assert messages[..start] + batch == messages[..end];
        start := end;
        n := n + 1;
      }
      assert messages[..|messages|] == messages;
      NothingTwice();
      assert forall k: nat :: k >= n ==> Batch(messages, k) == [];
      rows := Some(out);
    }

    method SaveHidden(before: set<HiddenRow>, generation: string, keys: seq<string>, fails: nat -> bool)
      returns (rows: Option<set<HiddenRow>>)
      ensures rows.Some? ==> rows.value == before + set h | h in HiddenRows(account, generation, keys)
      ensures (forall s :: !fails(s)) && !RepeatsHidden(HiddenRows(account, generation, keys)) ==> rows.Some?
      ensures rows.Some? ==> !RepeatsHidden(HiddenRows(account, generation, keys))
    {
      hide HiddenRows, ParseKey, RowTwice;
      ghost var n := 0;
      ghost var all := HiddenRows(account, generation, keys);
      var out := before;
      var pending: seq<HiddenRow> := [];
      NoHiddenRows(account, generation);
      ghost var flushed: seq<HiddenRow> := [];
      for i := 0 to |keys|
        invariant flushed + pending == HiddenRows(account, generation, keys[..i])
        invariant out == before + set h | h in flushed
        invariant |pending| < SQL_BATCH && |flushed| == SQL_BATCH * n
        invariant forall k: nat :: k < n ==> !RowTwice(Batch(all, k))
      {
        OneMoreHiddenRow(account, generation, keys, i);
        var parsed := ParseKey(generation, keys[i]);
        if parsed.Some? {
          pending := pending + [HiddenRow(account, generation, parsed.value.0, parsed.value.1)];
        }
        assert flushed + pending == HiddenRows(account, generation, keys[..i + 1]);
        if |pending| == SQL_BATCH {
          HiddenRowsPrefix(account, generation, keys, i + 1);
          NextBatch(all, flushed, pending, n);
          if fails(i) || RowTwice(pending) {
            return None;
          }
          out := out + set h | h in pending;
          flushed := flushed + pending;
          n := n + 1;
          pending := [];
        }
      }
      assert keys[..|keys|] == keys;
      NextBatch(all, flushed, pending, n);
      NothingTwice();
      assert forall k: nat :: k > n ==> Batch(all, k) == [];
      if pending != [] {
        if fails(|keys|) || RowTwice(pending) {
          return None;
        }
        out := out + set h | h in pending;
      }
      rows := Some(out);
    }

    method SaveState(state: Cache)
      requires database.Valid()
      modifies database
      ensures database.Valid()
      ensures database.tables == StateSaved(old(database.tables), account, state)
    {
      database.tables := database.tables.(states := database.tables.states[account := RowOfState(state)]);
    }

    method Clear(fails: nat -> bool) returns (ok: bool)
      requires database.Valid()
      modifies database
      ensures database.Valid()
      ensures database.tables == if ok then Cleared(old(database.tables), account) else old(database.tables)
      ensures (forall s :: !fails(s)) ==> ok
    {
      var tx := database.tables;
      if fails(0) {
        return false;
      }
      tx := tx.(hidden := set h | h in tx.hidden && h.account != account);
      if fails(1) {
        return false;
      }
      tx := tx.(messages := map k | k in tx.messages && k.account != account :: tx.messages[k]);
      if fails(2) || fails(3) {
        return false;
      }
      tx := tx.(states := tx.states - {account});
      database.tables := tx;
      ok := true;
    }

    // ---- Queries ----

    /** Rows of a generation that satisfy a condition, newest first. */
    method Query(generation: string, where: Message -> bool) returns (rows: seq<Message>)
      requires database.Valid()
      ensures IsQuery(database.tables, account, generation, where, rows)
    {
      hide SortNewest;
      var keys := set k | k in database.tables.messages && k.account == account && k.generation == generation
                          && where(database.tables.messages[k]);
      ghost var all := keys;
      rows := [];
      while keys != {}
        invariant keys <= all
        invariant forall m :: m in rows <==> exists k :: k in all - keys && database.tables.messages[k] == m
        invariant DistinctUids(rows)
        decreases keys
      {
        var k :| k in keys;
        forall i | 0 <= i < |rows|
          ensures rows[i].uid != k.uid
        {
          assert rows[i] in rows;
          var other :| other in all - keys && database.tables.messages[other] == rows[i];
        }
        keys := keys - {k};
        rows := rows + [database.tables.messages[k]];
      }
      assert all - keys == all;
      SortDescending(rows);
      rows := SortNewest(rows);
    }

    method Load() returns (cache: Cache, exists': bool)
      requires database.Valid()
      ensures exists' == (account in database.tables.states)
      ensures exists' ==> StateOf(cache) == StateOf(Cache(database.tables.states[account].status, [], [],
                            database.tables.states[account].highestUid, database.tables.states[account].allowedAliases))
      ensures !exists' ==> cache == EMPTY_CACHE
      ensures exists' && cache.status.generation == "" ==> cache.messages == [] && cache.hidden == []
      ensures exists' && cache.status.generation != "" ==>
        && (exists rows :: IsQuery(database.tables, account, cache.status.generation, _ => true, rows) && cache.messages == Copies(rows))
        && (forall k :: k in cache.hidden <==> IsHiddenKey(database.tables, account, cache.status.generation, k))
    {
      if account !in database.tables.states {
        return EMPTY_CACHE, false;
      }
      var row := database.tables.states[account];
      cache := Cache(row.status, [], [], row.highestUid, row.allowedAliases);
      var generation := row.status.generation;
      if generation != "" {
        var messages := Query(generation, _ => true);
        var rows := set h | h in database.tables.hidden && h.account == account && h.generation == generation;
        ghost var all := rows;
        var keys: seq<string> := [];
        while rows != {}
          invariant rows <= all
          invariant forall k :: k in keys <==> exists h :: h in all - rows && k == Key(generation, h.alias, h.uid)
          decreases rows
        {
          var h :| h in rows;
          rows := rows - {h};
          keys := keys + [Key(generation, h.alias, h.uid)];
        }
        assert all - rows == all;
        cache := cache.(messages := Copies(messages), hidden := SortKeys(keys));
      }
      exists' := true;
    }

    method ListAliasMessages(generation: string, alias: string, limit: int) returns (selected: seq<Message>)
      requires database.Valid()
      ensures generation == "" || alias == "" ==> selected == []
      ensures generation != "" && alias != "" ==> exists rows ::
        && IsQuery(database.tables, account, generation, AliasRow(database.tables, account, generation, alias), rows)
        && selected == DisplayedAll(Take(rows, Bounded(limit, ALIAS_DEFAULT, ALIAS_LIMIT)))
    {
      if generation == "" || alias == "" {
        return [];
      }
      var rows := Query(generation, AliasRow(database.tables, account, generation, alias));
      selected := DisplayedAll(Take(rows, Bounded(limit, ALIAS_DEFAULT, ALIAS_LIMIT)));
    }

    method ListRecentMessages(generation: string, cutoff: int, limit: int) returns (selected: seq<Message>)
      requires database.Valid()
      ensures generation == "" ==> selected == []
      ensures generation != "" ==> exists rows ::
        && IsQuery(database.tables, account, generation, RecentRow(database.tables, account, generation, cutoff), rows)
        && selected == DisplayedAll(Take(rows, Bounded(limit, RECENT_DEFAULT, RECENT_LIMIT)))
    {
      if generation == "" {
        return [];
      }
      var rows := Query(generation, RecentRow(database.tables, account, generation, cutoff));
      selected := DisplayedAll(Take(rows, Bounded(limit, RECENT_DEFAULT, RECENT_LIMIT)));
    }

    method GetMessage(generation: string, alias: string, uid: nat) returns (answer: Option<Message>)
      ensures IsSqlAnswer(database.tables, account, generation, alias, uid, answer)
    {
      if generation == "" || alias == "" || uid == 0 {
        return None;
      }
      var key := MessageKey(account, generation, uid);
      if key !in database.tables.messages || !AliasRow(database.tables, account, generation, alias)(database.tables.messages[key]) {
        return None;
      }
      answer := Some(Displayed(database.tables.messages[key]));
    }
  }

  // ---- Steps of the bulk statements ----

  predicate RowTwice(batch: seq<HiddenRow>) {
    exists i, j :: 0 <= i < j < |batch| && batch[i] == batch[j]
  }

  ghost predicate DistinctRows(rows: seq<HiddenRow>) {
    forall i, j :: 0 <= i < j < |rows| ==> rows[i] != rows[j]
  }

  lemma NothingTwice()
    ensures !RowTwice([]) && !SameRowTwice([])
  {
  }

  /** What is pending is the next batch once it is full or the rows are at an end. */
  lemma NextBatch(all: seq<HiddenRow>, flushed: seq<HiddenRow>, pending: seq<HiddenRow>, n: nat)
    requires flushed + pending <= all && |flushed| == SQL_BATCH * n
    requires |pending| == SQL_BATCH || (|pending| < SQL_BATCH && flushed + pending == all)
    ensures Batch(all, n) == pending
  {
    assert all[|flushed|..|flushed| + |pending|] == pending;
  }

  lemma NothingUpserted(rows: map<MessageKey, Message>, account: string, generation: string)
    ensures Upserted(rows, account, generation, []) == rows
  {
  }

  lemma NoHiddenRows(account: string, generation: string)
    ensures HiddenRows(account, generation, []) == []
  {
  }

  lemma OneMoreHiddenRow(account: string, generation: string, keys: seq<string>, i: nat)
    requires i < |keys|
    ensures var parsed := ParseKey(generation, keys[i]);
            HiddenRows(account, generation, keys[..i + 1])
            == HiddenRows(account, generation, keys[..i])
               + if parsed.Some? then [HiddenRow(account, generation, parsed.value.0, parsed.value.1)] else []
  {
    assert keys[..i + 1][..i] == keys[..i];
  }

  lemma {:induction false} HiddenRowsPrefix(account: string, generation: string, keys: seq<string>, n: nat)
    requires n <= |keys|
    ensures HiddenRows(account, generation, keys[..n]) <= HiddenRows(account, generation, keys)
    decreases |keys| - n
  {
    if n < |keys| {
      HiddenRowsPrefix(account, generation, keys, n + 1);
      OneMoreHiddenRow(account, generation, keys, n);
    } else {
      assert keys[..n] == keys;
    }
  }

  lemma {:induction false} UpsertedKeyed(rows: map<MessageKey, Message>, account: string, generation: string, batch: seq<Message>)
    requires WellKeyed(rows)
    ensures WellKeyed(Upserted(rows, account, generation, batch))
    ensures forall k :: k in Upserted(rows, account, generation, batch) <==>
              k in rows || (k.account == account && k.generation == generation && k.uid in Uids(batch))
    ensures forall k :: k in rows && (k.account != account || k.generation != generation || k.uid !in Uids(batch)) ==>
              Upserted(rows, account, generation, batch)[k] == rows[k]
    ensures forall m :: m in batch && DistinctUids(batch) ==>
              var key := MessageKey(account, generation, m.uid);
              key in Upserted(rows, account, generation, batch) && Upserted(rows, account, generation, batch)[key] == m
  {
    if batch != [] {
      var n := |batch| - 1;
      UpsertedKeyed(rows, account, generation, batch[..n]);
      assert batch == batch[..n] + [batch[n]];
      assert Uids(batch) == Uids(batch[..n]) + {batch[n].uid};
      forall m | m in batch && DistinctUids(batch)
        ensures var key := MessageKey(account, generation, m.uid);
                key in Upserted(rows, account, generation, batch) && Upserted(rows, account, generation, batch)[key] == m
      {
        UpsertedHolds(rows, account, generation, batch, m);
      }
    }
  }

  lemma {:induction false} UpsertedHolds(rows: map<MessageKey, Message>, account: string, generation: string, batch: seq<Message>, m: Message)
    requires m in batch && DistinctUids(batch)
    ensures var key := MessageKey(account, generation, m.uid);
            key in Upserted(rows, account, generation, batch) && Upserted(rows, account, generation, batch)[key] == m
  {
    var n := |batch| - 1;
    if m != batch[n] {
      assert batch == batch[..n] + [batch[n]];
      DistinctLast(batch, m);
      UpsertedHolds(rows, account, generation, batch[..n], m);
    }
  }

  lemma DistinctLast(batch: seq<Message>, m: Message)
    requires batch != [] && DistinctUids(batch) && m in batch[..|batch| - 1]
    ensures DistinctUids(batch[..|batch| - 1]) && m.uid != batch[|batch| - 1].uid
  {
  }

  // ---- Conditions of the queries ----

  function AliasRow(tables: Tables, account: string, generation: string, alias: string): Message -> bool {
    (m: Message) => alias in m.aliases && HiddenRow(account, generation, alias, m.uid) !in tables.hidden
  }

  function RecentRow(tables: Tables, account: string, generation: string, cutoff: int): Message -> bool {
    (m: Message) => m.date >= cutoff
      && exists a :: a in m.aliases && HiddenRow(account, generation, a, m.uid) !in tables.hidden
  }

  ghost predicate IsSqlAnswer(tables: Tables, account: string, generation: string, alias: string, uid: nat, answer: Option<Message>) {
    if generation == "" || alias == "" || uid == 0 then answer.None?
    else
      var key := MessageKey(account, generation, uid);
      answer == if key in tables.messages && AliasRow(tables, account, generation, alias)(tables.messages[key])
                then Some(Displayed(tables.messages[key])) else None
  }

  ghost predicate IsRow(tables: Tables, account: string, generation: string, m: Message) {
    exists k :: k in tables.messages && k.account == account && k.generation == generation && tables.messages[k] == m
  }

  /** The matching rows, ordered newest first. */
  ghost predicate IsQuery(tables: Tables, account: string, generation: string, where: Message -> bool, rows: seq<Message>) {
    && (forall m :: m in rows <==> IsRow(tables, account, generation, m) && where(m))
    && Descending(rows)
  }

  ghost predicate IsHiddenKey(tables: Tables, account: string, generation: string, key: string) {
    exists h :: h in tables.hidden && h.account == account && h.generation == generation && key == Key(generation, h.alias, h.uid)
  }
}
