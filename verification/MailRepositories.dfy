/** The SQL tables answer every reader as the JSON document does. */
module MailRepositories {
  import opened Wrappers
  import opened MailMessages
  import opened MailKeys
  import opened MailboxSync
  import opened MailAnswers
  import opened MailTables

  datatype Call = Save(cache: Cache) | SaveState(state: Cache) | Clear

  function JsonAfter(document: Cache, call: Call): Cache {
    match call
    case Save(cache) => cache
    case SaveState(state) => WithState(document, state)
    case Clear => EMPTY_CACHE
  }

  function SqlAfter(tables: Tables, account: string, call: Call): Tables {
    match call
    case Save(cache) => SavedTables(tables, account, cache)
    case SaveState(state) => StateSaved(tables, account, state)
    case Clear => Cleared(tables, account)
  }

  /** The rows of an account hold exactly its document. */
  ghost predicate Represents(tables: Tables, account: string, document: Cache) {
    && (if account in tables.states then tables.states[account] == RowOfState(document)
        else RowOfState(document) == RowOfState(EMPTY_CACHE))
    && MessageRows(tables.messages, account, document)
    && HiddenRowsMatch(tables.hidden, account, document)
  }

  ghost predicate MessageRows(rows: map<MessageKey, Message>, account: string, document: Cache) {
    && (forall k :: k in rows && k.account == account ==>
          k.generation == document.status.generation && rows[k] in document.messages)
    && (forall m :: m in document.messages ==>
          var key := MessageKey(account, document.status.generation, m.uid);
          key in rows && rows[key] == m)
  }

  ghost predicate HiddenRowsMatch(rows: set<HiddenRow>, account: string, document: Cache) {
    && (forall h :: h in rows && h.account == account ==> h.generation == document.status.generation)
    && (forall alias, uid: nat :: HiddenRow(account, document.status.generation, alias, uid) in rows <==>
          alias != "" && uid < UID_LIMIT && Key(document.status.generation, alias, uid) in document.hidden)
  }

  // ---- Saving ----

  lemma {:induction false} HiddenRowsExactly(account: string, generation: string, keys: seq<string>, h: HiddenRow)
    requires forall k :: k in keys ==> NamesMessage(generation, k)
    ensures h in HiddenRows(account, generation, keys) <==>
            h.account == account && h.generation == generation && h.alias != "" && h.uid < UID_LIMIT
            && Key(generation, h.alias, h.uid) in keys
  {
    hide Key, ParseKey;
    if keys != [] {
      var n := |keys| - 1;
      HiddenRowsExactly(account, generation, keys[..n], h);
      assert NamesMessage(generation, keys[n]);
      var a, u :| IsKeyOf(generation, keys[n], a, u);
      ParseOfKey(generation, a, u);
      if h.alias != "" && h.uid < UID_LIMIT && Key(generation, h.alias, h.uid) == keys[n] {
        KeyInjective(generation, a, u, h.alias, h.uid);
      }
      assert keys == keys[..n] + [keys[n]];
    }
  }

  /** A statement never writes a hidden row twice. */
  lemma {:induction false} HiddenRowsDistinct(account: string, generation: string, keys: seq<string>)
    requires NoRepeats(keys) && forall k :: k in keys ==> NamesMessage(generation, k)
    ensures DistinctRows(HiddenRows(account, generation, keys))
  {
    hide Key, ParseKey;
    if keys != [] {
      var n := |keys| - 1;
      HiddenRowsDistinct(account, generation, keys[..n]);
      assert NamesMessage(generation, keys[n]);
      var a, u :| IsKeyOf(generation, keys[n], a, u);
      ParseOfKey(generation, a, u);
      HiddenRowsExactly(account, generation, keys[..n], HiddenRow(account, generation, a, u));
      var front := HiddenRows(account, generation, keys[..n]);
      forall i | 0 <= i < |front|
        ensures front[i] != HiddenRow(account, generation, a, u)
      {
        assert front[i] in front;
      }
    }
  }

  lemma SavedMessagesMatch(rows: map<MessageKey, Message>, account: string, cache: Cache)
    requires WellKeyed(rows) && DistinctUids(cache.messages)
    requires cache.status.generation == "" ==> cache.messages == []
    ensures MessageRows(SavedMessages(rows, account, cache), account, cache)
    ensures WellKeyed(SavedMessages(rows, account, cache))
  {
    hide Upserted;
    var g := cache.status.generation;
    UpsertedKeyed(WithoutOldRows(rows, account, g), account, g, cache.messages);
    if g != "" {
      forall k | k in SavedMessages(rows, account, cache) && k.account == account
        ensures k.generation == g && SavedMessages(rows, account, cache)[k] in cache.messages
      {
        var m :| m in cache.messages && m.uid == k.uid;
        assert k == MessageKey(account, g, m.uid);
      }
    }
  }

  lemma SavedHiddenMatch(rows: set<HiddenRow>, account: string, cache: Cache)
    requires Orderly(cache)
    ensures HiddenRowsMatch(SavedHidden(rows, account, cache), account, cache)
            <==> (cache.status.generation == "" ==> cache.hidden == [])
  {
    hide HiddenRows, Key;
    var g := cache.status.generation;
    if g != "" {
      forall h: HiddenRow
        ensures h in HiddenRows(account, g, cache.hidden) <==>
                h.account == account && h.generation == g && h.alias != "" && h.uid < UID_LIMIT && Key(g, h.alias, h.uid) in cache.hidden
      {
        HiddenRowsExactly(account, g, cache.hidden, h);
      }
    } else if cache.hidden != [] {
      var key := cache.hidden[0];
      assert key in cache.hidden && NamesMessage(g, key);
      var a, u :| IsKeyOf(g, key, a, u);
      assert HiddenRow(account, g, a, u) !in SavedHidden(rows, account, cache);
    }
  }

  /** A save leaves tables and document alike exactly when it does not write
      messages or hidden keys without a generation: the document keeps those,
      while the tables file the messages under an import generation and drop the
      keys. */
  lemma SaveAgrees(tables: Tables, account: string, cache: Cache)
    requires WellKeyed(tables.messages) && Orderly(cache)
    ensures Represents(SavedTables(tables, account, cache), account, cache) <==> Storable(cache)
    ensures Storable(cache) ==> WellKeyed(SavedTables(tables, account, cache).messages)
  {
    hide MessageRows, HiddenRowsMatch, SavedMessages, SavedHidden;
    if cache.status.generation == "" && cache.messages != [] {
      assert SavedTables(tables, account, cache).states[account].status.generation == "legacy-import";
    } else {
      SavedMessagesMatch(tables.messages, account, cache);
      SavedHiddenMatch(tables.hidden, account, cache);
    }
  }

  // ---- State-only saves ----

  /** A state-only save keeps tables and document alike exactly when it keeps the
      generation or there is nothing filed under the old one. */
  lemma SaveStateAgrees(tables: Tables, account: string, document: Cache, state: Cache)
    requires Represents(tables, account, document) && Storable(document)
    ensures Represents(StateSaved(tables, account, state), account, WithState(document, state))
            <==> state.status.generation == document.status.generation || (document.messages == [] && document.hidden == [])
  {
    hide Key;
    var g, g' := document.status.generation, state.status.generation;
    if g != g' {
      if document.messages != [] {
        var m := document.messages[0];
        assert m in document.messages;
        assert MessageKey(account, g, m.uid) in tables.messages;
      } else if document.hidden != [] {
        var key := document.hidden[0];
        assert key in document.hidden && NamesMessage(g, key);
        var a, u :| IsKeyOf(g, key, a, u);
        assert HiddenRow(account, g, a, u) in tables.hidden;
      }
    }
  }

  lemma ClearAgrees(tables: Tables, account: string)
    ensures Represents(Cleared(tables, account), account, EMPTY_CACHE)
  {
  }

  // ---- Whole runs ----

  /** What the mailbox service does: it saves caches that it can reach, and its
      state-only saves never change a non-empty generation. */
  ghost predicate MayCall(document: Cache, call: Call) {
    match call
    case Save(cache) => Storable(cache)
    case SaveState(state) =>
      state.status.generation == document.status.generation || document.status.generation == ""
    case Clear => true
  }

  ghost predicate MayRun(document: Cache, calls: seq<Call>)
    decreases calls
  {
    calls == [] || (MayCall(document, calls[0]) && MayRun(JsonAfter(document, calls[0]), calls[1..]))
  }

  function JsonRun(document: Cache, calls: seq<Call>): Cache
    decreases calls
  {
    if calls == [] then document else JsonRun(JsonAfter(document, calls[0]), calls[1..])
  }

  function SqlRun(tables: Tables, account: string, calls: seq<Call>): Tables
    decreases calls
  {
    if calls == [] then tables else SqlRun(SqlAfter(tables, account, calls[0]), account, calls[1..])
  }

  lemma CallAgrees(tables: Tables, account: string, document: Cache, call: Call)
    requires Represents(tables, account, document) && Storable(document) && WellKeyed(tables.messages)
    requires MayCall(document, call)
    ensures Represents(SqlAfter(tables, account, call), account, JsonAfter(document, call))
    ensures Storable(JsonAfter(document, call)) && WellKeyed(SqlAfter(tables, account, call).messages)
  {
    hide Represents;
    match call {
      case Save(cache) =>
        SaveAgrees(tables, account, cache);
      case SaveState(state) =>
        SaveStateAgrees(tables, account, document, state);
      case Clear =>
        ClearAgrees(tables, account);
    }
  }

  /** After any run of calls the tables hold what the document holds. */
  lemma {:induction false} RunAgrees(tables: Tables, account: string, document: Cache, calls: seq<Call>)
    requires Represents(tables, account, document) && Storable(document) && WellKeyed(tables.messages)
    requires MayRun(document, calls)
    ensures Represents(SqlRun(tables, account, calls), account, JsonRun(document, calls))
    ensures Storable(JsonRun(document, calls)) && WellKeyed(SqlRun(tables, account, calls).messages)
    decreases calls
  {
    hide Represents, Storable, JsonAfter, SqlAfter, MayCall;
    if calls != [] {
      CallAgrees(tables, account, document, calls[0]);
      RunAgrees(SqlAfter(tables, account, calls[0]), account, JsonAfter(document, calls[0]), calls[1..]);
    }
  }

  /** The rows of an account. */
  function RowsOf(tables: Tables, account: string): Tables {
    Tables(map a | a in tables.states && a == account :: tables.states[a],
           MessagesOf(tables.messages, account), HiddenOf(tables.hidden, account))
  }

  function MessagesOf(rows: map<MessageKey, Message>, account: string): map<MessageKey, Message> {
    map k | k in rows && k.account == account :: rows[k]
  }

  function HiddenOf(rows: set<HiddenRow>, account: string): set<HiddenRow> {
    set h | h in rows && h.account == account
  }

  /** No call touches a row of another account. */
  lemma OthersUntouched(tables: Tables, account: string, call: Call, other: string)
    requires other != account && WellKeyed(tables.messages)
    ensures RowsOf(SqlAfter(tables, account, call), other) == RowsOf(tables, other)
  {
    if call.Save? {
      hide SavedMessages, SavedHidden, MessagesOf, HiddenOf;
      var cache := ImportedGeneration(call.cache);
      OtherMessagesUntouched(tables.messages, account, cache, other);
      OtherHiddenUntouched(tables.hidden, account, cache, other);
    }
  }

  lemma OtherMessagesUntouched(rows: map<MessageKey, Message>, account: string, cache: Cache, other: string)
    requires other != account && WellKeyed(rows)
    ensures MessagesOf(SavedMessages(rows, account, cache), other) == MessagesOf(rows, other)
  {
    hide Upserted;
    var g := cache.status.generation;
    UpsertedKeyed(WithoutOldRows(rows, account, g), account, g, cache.messages);
  }

  lemma OtherHiddenUntouched(rows: set<HiddenRow>, account: string, cache: Cache, other: string)
    requires other != account
    ensures HiddenOf(SavedHidden(rows, account, cache), other) == HiddenOf(rows, other)
  {
    hide HiddenRows;
    HiddenRowsOwned(account, cache.status.generation, cache.hidden);
  }

  lemma {:induction false} HiddenRowsOwned(account: string, generation: string, keys: seq<string>)
    ensures forall h :: h in HiddenRows(account, generation, keys) ==> h.account == account
  {
    if keys != [] {
      HiddenRowsOwned(account, generation, keys[..|keys| - 1]);
    }
  }

  // ---- Several accounts in the same tables ----

  datatype Step = Step(account: string, call: Call)

  /** An account without a document has never saved anything. */
  function DocumentOf(documents: map<string, Cache>, account: string): Cache {
    if account in documents then documents[account] else EMPTY_CACHE
  }

  ghost predicate MayRunAll(documents: map<string, Cache>, steps: seq<Step>)
    decreases steps
  {
    steps == []
    || (MayCall(DocumentOf(documents, steps[0].account), steps[0].call)
        && MayRunAll(DocumentsAfter(documents, steps[0]), steps[1..]))
  }

  function DocumentsAfter(documents: map<string, Cache>, step: Step): map<string, Cache> {
    documents[step.account := JsonAfter(DocumentOf(documents, step.account), step.call)]
  }

  function JsonRunAll(documents: map<string, Cache>, steps: seq<Step>): map<string, Cache>
    decreases steps
  {
    if steps == [] then documents else JsonRunAll(DocumentsAfter(documents, steps[0]), steps[1..])
  }

  function SqlRunAll(tables: Tables, steps: seq<Step>): Tables
    decreases steps
  {
    if steps == [] then tables else SqlRunAll(SqlAfter(tables, steps[0].account, steps[0].call), steps[1..])
  }

  ghost predicate RepresentsAll(tables: Tables, documents: map<string, Cache>) {
    && WellKeyed(tables.messages)
    && forall account :: Represents(tables, account, DocumentOf(documents, account)) && Storable(DocumentOf(documents, account))
  }

  /** What the tables hold for an account depends on its own rows only. */
  lemma RepresentsOwnRows(tables: Tables, tables': Tables, account: string, document: Cache)
    requires Represents(tables, account, document) && RowsOf(tables', account) == RowsOf(tables, account)
    ensures Represents(tables', account, document)
  {
    hide Key;
    var own, own' := RowsOf(tables, account), RowsOf(tables', account);
    assert forall k :: k in tables'.messages && k.account == account <==> k in own'.messages;
    assert forall k :: k in tables.messages && k.account == account <==> k in own.messages;
    assert forall h :: h in tables'.hidden && h.account == account <==> h in own'.hidden;
    assert forall h :: h in tables.hidden && h.account == account <==> h in own.hidden;
    assert account in tables.states <==> account in own.states;
    assert account in tables'.states <==> account in own'.states;
  }

  lemma StepAgrees(tables: Tables, documents: map<string, Cache>, step: Step)
    requires RepresentsAll(tables, documents) && MayCall(DocumentOf(documents, step.account), step.call)
    ensures RepresentsAll(SqlAfter(tables, step.account, step.call), DocumentsAfter(documents, step))
  {
    hide Represents, Storable, JsonAfter, SqlAfter, MayCall, RowsOf;
    var tables', documents' := SqlAfter(tables, step.account, step.call), DocumentsAfter(documents, step);
    CallAgrees(tables, step.account, DocumentOf(documents, step.account), step.call);
    forall account
      ensures Represents(tables', account, DocumentOf(documents', account)) && Storable(DocumentOf(documents', account))
    {
      if account != step.account {
        OthersUntouched(tables, step.account, step.call, account);
        RepresentsOwnRows(tables, tables', account, DocumentOf(documents, account));
      }
    }
  }

  /** The same for every account under any interleaving of all accounts' calls. */
  lemma {:induction false} RunAllAgrees(tables: Tables, documents: map<string, Cache>, steps: seq<Step>)
    requires RepresentsAll(tables, documents) && MayRunAll(documents, steps)
    ensures RepresentsAll(SqlRunAll(tables, steps), JsonRunAll(documents, steps))
    decreases steps
  {
    hide RepresentsAll, MayCall, SqlAfter, DocumentsAfter;
    if steps != [] {
      StepAgrees(tables, documents, steps[0]);
      RunAllAgrees(SqlAfter(tables, steps[0].account, steps[0].call), DocumentsAfter(documents, steps[0]), steps[1..]);
    }
  }

  const NO_TABLES := Tables(map[], map[], {})

  /** Empty tables hold what accounts without documents do. */
  lemma EmptyRepresentsAll()
    ensures RepresentsAll(NO_TABLES, map[])
  {
  }

  // ---- Where the two sides part ----

  const SAVED := Message(7, ["a"], 1, "", Absent, Absent)

  /** A save without a generation: the document lists a message under no
      generation, the tables under the import generation. */
  lemma ImportParts(tables: Tables, account: string)
    requires WellKeyed(tables.messages)
    ensures var cache := EMPTY_CACHE.(messages := [SAVED]);
            !Storable(cache) && !Represents(SavedTables(tables, account, cache), account, cache)
  {
    var cache := EMPTY_CACHE.(messages := [SAVED]);
    SaveAgrees(tables, account, cache);
  }

  /** A state-only save of another generation: the document shows the message
      under the new generation, the tables no longer do. */
  lemma RotationParts(tables: Tables, account: string)
    requires WellKeyed(tables.messages)
    ensures var cache := EMPTY_CACHE.(messages := [SAVED], status := EMPTY_CACHE.status.(generation := "g"));
            var state := EMPTY_CACHE.(status := EMPTY_CACHE.status.(generation := "h"));
            && AliasAnswer(WithState(cache, state), "h", "a", 0) == [Displayed(SAVED)]
            && !IsRow(StateSaved(SavedTables(tables, account, cache), account, state), account, "h", SAVED)
  {
    var cache := EMPTY_CACHE.(messages := [SAVED], status := EMPTY_CACHE.status.(generation := "g"));
    SaveAgrees(tables, account, cache);
    assert Represents(SavedTables(tables, account, cache), account, cache);
    assert SAVED.aliases[0] == "a" && [SAVED][1..] == [];
    assert Visible([SAVED], "h", [], "a") == [Displayed(SAVED)];
  }

  // ---- Answers ----

  /** The rows that a query returns are the matching messages of the document,
      in its order; none for another generation. */
  lemma QueryAgrees(tables: Tables, account: string, document: Cache, generation: string,
                    where: Message -> bool, where': Message -> bool, rows: seq<Message>)
    requires Represents(tables, account, document) && Storable(document) && WellKeyed(tables.messages)
    requires IsQuery(tables, account, generation, where, rows)
    requires generation == document.status.generation ==> forall m :: m in document.messages ==> where(m) == where'(m)
    ensures rows == if generation == document.status.generation then Filter(document.messages, where') else []
  {
    hide Filter, HiddenRowsMatch;
    forall m
      ensures IsRow(tables, account, generation, m) <==> generation == document.status.generation && m in document.messages
    {
      if m in document.messages {
        assert MessageKey(account, document.status.generation, m.uid) in tables.messages;
      }
    }
    if generation == document.status.generation {
      FilterDescending(document.messages, where');
      DescendingUnique(rows, Filter(document.messages, where'));
    } else {
      NoElement(rows);
    }
  }

  lemma AliasAnswersAgree(tables: Tables, account: string, document: Cache, generation: string, alias: string, limit: int, rows: seq<Message>)
    requires Represents(tables, account, document) && Storable(document) && WellKeyed(tables.messages)
    requires generation != "" && alias != ""
    requires IsQuery(tables, account, generation, AliasRow(tables, account, generation, alias), rows)
    ensures DisplayedAll(Take(rows, Bounded(limit, ALIAS_DEFAULT, ALIAS_LIMIT))) == AliasAnswer(document, generation, alias, limit)
  {
    hide Filter, Key, Visible, MessageRows, DisplayedAll;
    var where' := (m: Message) => Shows(m, document.status.generation, document.hidden, alias);
    QueryAgrees(tables, account, document, generation, AliasRow(tables, account, generation, alias), where', rows);
    VisibleIsFilter(document.messages, document.status.generation, document.hidden, alias);
    assert DisplayedAll([]) == [];
  }

  /** From empty repositories, after any calls of any accounts in any order, an alias
      query of the tables gives the answer of the account's document. */
  lemma AnswersAgreeAfterRun(steps: seq<Step>, account: string, generation: string, alias: string, limit: int, rows: seq<Message>)
    requires MayRunAll(map[], steps) && generation != "" && alias != ""
    requires var tables := SqlRunAll(NO_TABLES, steps); IsQuery(tables, account, generation, AliasRow(tables, account, generation, alias), rows)
    ensures DisplayedAll(Take(rows, Bounded(limit, ALIAS_DEFAULT, ALIAS_LIMIT)))
            == AliasAnswer(DocumentOf(JsonRunAll(map[], steps), account), generation, alias, limit)
  {
    hide Represents, Storable, MayRunAll, SqlRunAll, JsonRunAll, IsQuery, AliasRow;
    var tables, documents := SqlRunAll(NO_TABLES, steps), JsonRunAll(map[], steps);
    EmptyRepresentsAll();
    RunAllAgrees(NO_TABLES, map[], steps);
    assert Represents(tables, account, DocumentOf(documents, account)) && Storable(DocumentOf(documents, account));
    AliasAnswersAgree(tables, account, DocumentOf(documents, account), generation, alias, limit, rows);
  }

  lemma RecentAnswersAgree(tables: Tables, account: string, document: Cache, generation: string, cutoff: int, limit: int, rows: seq<Message>)
    requires Represents(tables, account, document) && Storable(document) && WellKeyed(tables.messages)
    requires generation != ""
    requires IsQuery(tables, account, generation, RecentRow(tables, account, generation, cutoff), rows)
    ensures DisplayedAll(Take(rows, Bounded(limit, RECENT_DEFAULT, RECENT_LIMIT))) == RecentAnswer(document, generation, cutoff, limit)
  {
    hide Filter, Key, MessageRows, DisplayedAll;
    var where' := (m: Message) => m.date >= cutoff && ShowsAny(m, generation, document.hidden);
    QueryAgrees(tables, account, document, generation, RecentRow(tables, account, generation, cutoff), where', rows);
    assert DisplayedAll([]) == [];
  }

  /** The document gives one answer about a message, and the tables give that one. */
  lemma MessageAnswersAgree(tables: Tables, account: string, document: Cache, generation: string, alias: string, uid: nat,
                            ofDocument: Option<Message>, ofTables: Option<Message>)
    requires Represents(tables, account, document) && Storable(document) && WellKeyed(tables.messages) && uid < UID_LIMIT
    requires IsAnswer(document, generation, alias, uid, ofDocument)
    requires IsSqlAnswer(tables, account, generation, alias, uid, ofTables)
    ensures ofDocument == ofTables
  {
    hide Key;
    SqlAnswerFits(tables, account, document, generation, alias, uid, ofTables);
    AnswerUnique(document, generation, alias, uid, ofDocument, ofTables);
  }

  lemma SqlAnswerFits(tables: Tables, account: string, document: Cache, generation: string, alias: string, uid: nat, answer: Option<Message>)
    requires Represents(tables, account, document) && Storable(document) && WellKeyed(tables.messages) && uid < UID_LIMIT
    requires IsSqlAnswer(tables, account, generation, alias, uid, answer)
    ensures IsAnswer(document, generation, alias, uid, answer)
  {
    hide Key;
    if answer.Some? {
      var m := tables.messages[MessageKey(account, generation, uid)];
      assert m in document.messages && Shows(m, generation, document.hidden, alias);
    }
  }

  lemma AnswerUnique(document: Cache, generation: string, alias: string, uid: nat, a: Option<Message>, b: Option<Message>)
    requires Storable(document)
    requires IsAnswer(document, generation, alias, uid, a) && IsAnswer(document, generation, alias, uid, b)
    ensures a == b
  {
    hide Key;
    if a.Some? && b.Some? {
      var m :| m in document.messages && m.uid == uid && Shows(m, generation, document.hidden, alias) && a.value == Displayed(m);
      var n :| n in document.messages && n.uid == uid && Shows(n, generation, document.hidden, alias) && b.value == Displayed(n);
      var i :| 0 <= i < |document.messages| && document.messages[i] == m;
      var j :| 0 <= j < |document.messages| && document.messages[j] == n;
    }
  }

  /** What a full load reads back: the same state, copies of the same messages in
      the same order, and the same hidden keys. The messages are equal exactly when
      none has an empty list, which the tables read back as absent. */
  lemma LoadsAgree(tables: Tables, account: string, document: Cache, loaded: Cache)
    requires Represents(tables, account, document) && Storable(document) && WellKeyed(tables.messages)
    requires account in tables.states
    requires StateOf(loaded) == StateOf(Cache(tables.states[account].status, [], [],
                                  tables.states[account].highestUid, tables.states[account].allowedAliases))
    requires if loaded.status.generation == "" then loaded.messages == [] && loaded.hidden == []
             else (exists rows :: IsQuery(tables, account, loaded.status.generation, _ => true, rows) && loaded.messages == Copies(rows))
                  && forall k :: k in loaded.hidden <==> IsHiddenKey(tables, account, loaded.status.generation, k)
    ensures StateOf(loaded) == StateOf(document) && loaded.messages == Copies(document.messages)
    ensures loaded.messages == document.messages <==> forall m :: m in document.messages ==> !HasEmptyList(m)
    ensures forall k :: k in loaded.hidden <==> k in document.hidden
  {
    hide Key, Filter;
    var g := document.status.generation;
    CopiesEqual(document.messages);
    if g != "" {
      var rows :| IsQuery(tables, account, g, _ => true, rows) && loaded.messages == Copies(rows);
      QueryAgrees(tables, account, document, g, _ => true, _ => true, rows);
      EverythingMatches(document.messages);
      forall k
        ensures k in loaded.hidden <==> k in document.hidden
      {
        if k in document.hidden {
          assert NamesMessage(g, k);
          var a, u :| IsKeyOf(g, k, a, u);
          assert HiddenRow(account, g, a, u) in tables.hidden;
        }
      }
    }
  }

  lemma {:induction false} EverythingMatches(s: seq<Message>)
    ensures Filter(s, _ => true) == s
  {
    if s != [] {
      EverythingMatches(s[1..]);
    }
  }

  // ---- Writing to both ----

  /** The repository that writes the document first and then the tables, and
      reads the document. */
  class DualRepository {
    const json: JsonRepository
    const sql: SqlRepository

    constructor (json: JsonRepository, sql: SqlRepository)
      ensures this.json == json && this.sql == sql
    {
      this.json, this.sql := json, sql;
    }

    /** Both sides answer alike. */
    ghost predicate Agrees()
      reads this, json, sql.database
    {
      && WellKeyed(sql.database.tables.messages) && Storable(json.Contents())
      && Represents(sql.database.tables, sql.account, json.Contents())
    }

    /** Opening copies an existing document into the tables, whatever they held. */
    method Open(fails: nat -> bool) returns (ok: bool)
      requires sql.database.Valid() && Storable(json.Contents())
      modifies sql.database
      ensures ok && json.document.Some? ==> Agrees()
      ensures (forall s :: !fails(s)) ==> ok
    {
      hide Orderly, Represents, SavedTables, RepeatsRow;
      var cache, exists' := json.Load();
      if !exists' {
        return true;
      }
      SaveSucceeds(sql.account, cache);
      SaveAgrees(sql.database.tables, sql.account, cache);
      ok := sql.Save(cache, fails);
    }

    /** A failure of the tables leaves the document ahead of them; the next save
        that succeeds brings them together again. */
    method Save(cache: Cache, fails: nat -> bool) returns (ok: bool)
      requires sql.database.Valid() && Storable(cache)
      modifies json, sql.database
      ensures sql.database.Valid() && json.Contents() == cache
      ensures ok ==> Agrees()
      ensures (forall s :: !fails(s)) ==> ok
    {
      hide Orderly, Represents, SavedTables, RepeatsRow;
      json.Save(cache);
      SaveSucceeds(sql.account, cache);
      SaveAgrees(sql.database.tables, sql.account, cache);
      ok := sql.Save(cache, fails);
    }

    method SaveState(state: Cache)
      requires Agrees() && MayCall(json.Contents(), Call.SaveState(state))
      modifies json, sql.database
      ensures Agrees() && json.Contents() == WithState(old(json.Contents()), state)
    {
      hide Represents;
      CallAgrees(sql.database.tables, sql.account, json.Contents(), Call.SaveState(state));
      json.SaveState(state);
      sql.SaveState(state);
    }

    method Clear(fails: nat -> bool) returns (ok: bool)
      requires sql.database.Valid()
      modifies json, sql.database
      ensures sql.database.Valid() && json.Contents() == EMPTY_CACHE
      ensures ok ==> Agrees()
    {
      ClearAgrees(sql.database.tables, sql.account);
      json.Clear();
      ok := sql.Clear(fails);
    }
  }

  /** The tables never refuse a cache that can be stored. */
  lemma SaveSucceeds(account: string, cache: Cache)
    requires Storable(cache)
    ensures !RepeatsRow(account, ImportedGeneration(cache))
  {
    HiddenRowsDistinct(account, cache.status.generation, cache.hidden);
  }
}
