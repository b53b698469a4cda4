/**
  The Postgres adapter in place: the database with its committed tables, the ORM
  session with its identity map, the two repositories and the unit of work that
  drains the events of the aggregates they have handed out.
*/
module Persistence {
  import opened Prelude
  import opened Domain
  import opened Accounts
  import opened Transactions
  import opened Mappers
  import opened TransferSpec
  import opened Books

  class Database {
    var tables: Db
    /** Commits never break down. */
    const reliable: bool
    /** How many commits have broken down so far. */
    ghost var breakdowns: nat

    constructor (tables: Db, reliable: bool)
      ensures this.tables == tables && this.reliable == reliable
    {
      this.tables, this.reliable := tables, reliable;
    }

    /** A commit has broken down meanwhile, in a database that is not reliable. */
    twostate predicate BrokeDown()
      reads this
    {
      !reliable && breakdowns > old(breakdowns)
    }
  }

  /** What a session would write: the rows of its identity map, rows to insert, outbox messages. */
  datatype Writes = Writes(accounts: map<AccountId, AccountRow>, updated: map<TransactionId, TransactionRow>,
                           inserted: seq<TransactionRow>, messages: seq<DomainEvent>)

  function Inserted(transactions: map<TransactionId, TransactionRow>, rows: seq<TransactionRow>)
    : map<TransactionId, TransactionRow>
  {
    if rows == [] then transactions
    else Inserted(transactions, rows[..|rows| - 1])[rows[|rows| - 1].id := rows[|rows| - 1]]
  }

  function WithUpdates(transactions: map<TransactionId, TransactionRow>, updated: map<TransactionId, TransactionRow>)
    : map<TransactionId, TransactionRow>
  {
    map t | t in transactions :: if t in updated then updated[t] else transactions[t]
  }

  function Flushed(tables: Db, w: Writes): Db {
    Db(map a | a in tables.accounts :: if a in w.accounts then w.accounts[a] else tables.accounts[a],
       Inserted(WithUpdates(tables.transactions, w.updated), w.inserted),
       tables.outbox + w.messages)
  }

  /** No later row has the id of this one. */
  ghost predicate LastInserted(rows: seq<TransactionRow>, i: nat) {
    i < |rows| && forall j :: i < j < |rows| ==> rows[j].id != rows[i].id
  }

  /** Where each pending write lands, and what stays as it is. */
  lemma {:induction false} FlushedMeans(tables: Db, w: Writes)
    ensures Flushed(tables, w).accounts.Keys == tables.accounts.Keys
    ensures forall a :: a in tables.accounts ==>
              Flushed(tables, w).accounts[a] == if a in w.accounts then w.accounts[a] else tables.accounts[a]
    ensures forall row :: row in w.inserted ==> row.id in Flushed(tables, w).transactions
    ensures forall i: nat :: LastInserted(w.inserted, i) ==>
              Flushed(tables, w).transactions[w.inserted[i].id] == w.inserted[i]
    ensures forall t :: t in tables.transactions && (forall row :: row in w.inserted ==> row.id != t) ==>
              && t in Flushed(tables, w).transactions
              && Flushed(tables, w).transactions[t] == if t in w.updated then w.updated[t] else tables.transactions[t]
    ensures tables.outbox <= Flushed(tables, w).outbox && Flushed(tables, w).outbox[|tables.outbox|..] == w.messages
    decreases |w.inserted|
  {
    if w.inserted != [] {
      var init := w.inserted[..|w.inserted| - 1];
      FlushedMeans(tables, w.(inserted := init));
      assert forall i: nat :: i < |init| && LastInserted(w.inserted, i) ==> LastInserted(init, i);
      assert w.inserted == init + [w.inserted[|w.inserted| - 1]];
    }
  }

  /** Why the flush is refused, if it is: only rows that changed are written, and keys are unique. */
  function FlushError(tables: Db, w: Writes): Option<Error> {
    if (exists row :: row in w.inserted && !TransactionFits(row))
       || (exists t :: t in w.updated && !TransactionFits(w.updated[t]))
       || (exists a :: a in w.accounts && a in tables.accounts && w.accounts[a] != tables.accounts[a]
                       && !FitsColumn(w.accounts[a].balance))
    then Some(ColumnOverflow)
    else if exists row :: row in w.inserted && KeyUsed(tables, row.key) then Some(UniqueViolation)
    else None
  }

  function RowsOf(orms: seq<TransactionORM>): (rows: seq<TransactionRow>)
    reads orms
    ensures |rows| == |orms| && forall i :: 0 <= i < |orms| ==> rows[i] == orms[i].Row()
  {
    if orms == [] then [] else RowsOf(orms[..|orms| - 1]) + [orms[|orms| - 1].Row()]
  }

  class Session {
    const database: Database
    /** The tracked rows, one object per account and per transaction. */
    var identity: map<AccountId, AccountORM>
    var loaded: map<TransactionId, TransactionORM>
    var added: seq<TransactionORM>
    var messages: seq<DomainEvent>

    constructor (database: Database)
      ensures this.database == database && identity == map[] && loaded == map[] && added == [] && messages == []
    {
      this.database := database;
      identity, loaded, added, messages := map[], map[], [], [];
    }

    ghost predicate Valid()
      reads this, identity.Values
    {
      forall a :: a in identity ==> identity[a].id == a
    }

    /** The tracked account rows as they are now. */
    function AccountRows(): map<AccountId, AccountRow>
      reads this`identity, identity.Values
    {
      map a | a in identity :: identity[a].Row()
    }

    function PendingRows(): Writes
      reads this`identity, this`loaded, this`added, identity.Values, loaded.Values, added
    {
      Writes(AccountRows(), map t | t in loaded :: loaded[t].Row(), RowsOf(added), [])
    }

    function Pending(): Writes
      reads this, identity.Values, loaded.Values, added
    {
      PendingRows().(messages := messages)
    }

    /** `SELECT ... FOR UPDATE` by id: the tracked object if there is one, else a new one for the committed row. */
    method SelectForUpdate(id: AccountId) returns (orm: AccountORM?)
      requires Valid() && (id in database.tables.accounts ==> database.tables.accounts[id].id == id)
      modifies this`identity
      ensures Valid()
      ensures id in old(identity) ==> orm == old(identity)[id] && identity == old(identity)
      ensures id !in old(identity) && id in database.tables.accounts ==>
                orm != null && fresh(orm) && identity == old(identity)[id := orm]
                && orm.Row() == database.tables.accounts[id]
      ensures id !in old(identity) && id !in database.tables.accounts ==> orm == null && identity == old(identity)
    {
      if id in identity {
        return identity[id];
      }
      if id !in database.tables.accounts {
        return null;
      }
      orm := new AccountORM.FromRow(database.tables.accounts[id]);
      identity := identity[id := orm];
    }

    /** `session.get(TransactionORM, id)`: the tracked object, or a new one for the committed row, or nothing. */
    method GetTransaction(id: TransactionId) returns (orm: TransactionORM?)
      modifies this`loaded
      ensures id in old(loaded) ==> orm == old(loaded)[id] && loaded == old(loaded)
      ensures id !in old(loaded) && id in database.tables.transactions ==>
                orm != null && fresh(orm) && loaded == old(loaded)[id := orm]
                && orm.Row() == database.tables.transactions[id]
      ensures id !in old(loaded) && id !in database.tables.transactions ==> orm == null && loaded == old(loaded)
    {
      if id in loaded {
        return loaded[id];
      }
      if id !in database.tables.transactions {
        return null;
      }
      orm := new TransactionORM.FromRow(database.tables.transactions[id]);
      loaded := loaded[id := orm];
    }

    method Add(orm: TransactionORM)
      modifies this`added
      ensures added == old(added) + [orm]
    {
      added := added + [orm];
    }

    method AddMessage(event: DomainEvent)
      modifies this`messages
      ensures messages == old(messages) + [event]
    {
      messages := messages + [event];
    }

    /** Flush and commit: all pending writes at once, or an error and none of them. */
    method Commit() returns (raised: Option<Error>)
      modifies database
      ensures raised == None ==>
                FlushError(old(database.tables), Pending()).None?
                && database.tables == Flushed(old(database.tables), Pending())
      ensures raised.Some? ==> database.tables == old(database.tables)
      ensures raised.Some? ==>
                || (raised == Some(Infrastructure) && database.BrokeDown())
                || raised == FlushError(old(database.tables), Pending())
    {
      var broken: bool := *;
      if broken && !database.reliable {
        database.breakdowns := database.breakdowns + 1;
        return Some(Infrastructure);
      }
      var w := Pending();
      raised := FlushError(database.tables, w);
      if raised.None? {
        database.tables := Flushed(database.tables, w);
      }
    }

    /** Nothing tracked, nothing to write. */
    ghost predicate Empty()
      reads this
    {
      identity == map[] && loaded == map[] && added == [] && messages == []
    }

    /** Everything not committed is forgotten. */
    method Rollback()
      modifies this
      ensures Empty()
    {
      identity, loaded, added, messages := map[], map[], [], [];
    }

    /** `close`: every tracked object is let go. */
    method Close()
      modifies this
      ensures Empty()
    {
      identity, loaded, added, messages := map[], map[], [], [];
    }
  }

  class PostgresAccountRepository {
    const session: Session
    var seen: seq<Account>

    constructor (session: Session)
      ensures this.session == session && seen == []
    {
      this.session := session;
      seen := [];
    }

    /** The row is locked and mapped to a copy, which is remembered in `seen`. */
    method GetWithLock(id: AccountId) returns (r: Result<Option<Account>, Error>)
      requires session.Valid()
      requires id in session.database.tables.accounts ==> session.database.tables.accounts[id].id == id
      requires id in session.identity ==>
                 id in session.database.tables.accounts
                 && session.identity[id].Row() == session.database.tables.accounts[id]
      modifies this`seen, session`identity
      ensures session.Valid()
      ensures id in old(session.identity) ==> session.identity == old(session.identity)
      ensures id !in old(session.identity) && id in session.identity ==> fresh(session.identity[id])
      ensures if id !in session.database.tables.accounts
              then r == Ok(None) && seen == old(seen) && session.identity == old(session.identity)
              else
                && id in session.identity && session.identity == old(session.identity)[id := session.identity[id]]
                && session.identity[id].Row() == session.database.tables.accounts[id]
                && match AccountToDomain(session.database.tables.accounts[id])
                   case Err(e) => r == Err(e) && seen == old(seen)
                   case Ok(a) => r.Ok? && r.value.Some? && fresh(r.value.value) && r.value.value.State() == a
                                 && seen == old(seen) + [r.value.value]
    {
      var orm := session.SelectForUpdate(id);
      if orm == null {
        return Ok(None);
      }
      var mapped := AccountMapper.ToDomain(orm);
      if mapped.Err? {
        return Err(mapped.error);
      }
      seen := seen + [mapped.value];
      return Ok(Some(mapped.value));
    }

    /** The tracked row takes over the state of the aggregate. */
    method Update(account: Account)
      requires session.Valid() && account.id in session.identity
      modifies session.identity[account.id]
      ensures session.Valid()
      ensures session.identity[account.id].Row()
           == UpdatedAccountRow(old(session.identity[account.id].Row()), account.State())
    {
      AccountMapper.UpdateOrm(session.identity[account.id], account);
    }
  }

  class PostgresTransactionRepository {
    const session: Session
    var seen: seq<Transaction>

    constructor (session: Session)
      ensures this.session == session && seen == []
    {
      this.session := session;
      seen := [];
    }

    /** The lookup through the unique index; what it returns is not added to `seen`. */
    method GetByIdempotencyKey(key: IdempotencyKey) returns (r: Result<Option<Transaction>, Error>)
      requires KeysUnique(session.database.tables.transactions)
      ensures var tables := session.database.tables;
        if !KeyUsed(tables, key) then r == Ok(None)
        else match TransactionToDomain(RowOfKey(tables, key))
             case Err(e) => r == Err(e)
             case Ok(t) => r.Ok? && r.value.Some? && fresh(r.value.value) && r.value.value.State() == t
    {
      var transactions := session.database.tables.transactions;
      if !KeyUsed(session.database.tables, key) {
        return Ok(None);
      }
      var t :| t in transactions && transactions[t].key == key;
      assert transactions[t] == RowOfKey(session.database.tables, key);
      var orm := new TransactionORM.FromRow(transactions[t]);
      var mapped := TransactionMapper.ToDomain(orm);
      if mapped.Err? {
        return Err(mapped.error);
      }
      return Ok(Some(mapped.value));
    }

    /** Inserts a new transaction, or updates the tracked row of a stored one. */
    method Save(tx: Transaction)
      modifies session`added, session`loaded, session.loaded.Values
      ensures tx.id !in old(session.loaded) && tx.id !in session.database.tables.transactions ==>
                && session.loaded == old(session.loaded)
                && (forall t :: t in session.loaded ==> session.loaded[t].Row() == old(session.loaded[t].Row()))
                && |session.added| == |old(session.added)| + 1
                && session.added[..|old(session.added)|] == old(session.added)
                && fresh(session.added[|old(session.added)|])
                && session.added[|old(session.added)|].Row() == TransactionToRow(tx.State())
      ensures tx.id in old(session.loaded) || tx.id in session.database.tables.transactions ==>
                && session.added == old(session.added)
                && tx.id in session.loaded
                && session.loaded == old(session.loaded)[tx.id := session.loaded[tx.id]]
                && session.loaded[tx.id].Row()
                   == UpdatedTransactionRow(if tx.id in old(session.loaded) then old(session.loaded[tx.id].Row())
                                            else session.database.tables.transactions[tx.id], tx.State())
    {
      var orm := session.GetTransaction(tx.id);
      if orm == null {
        var row := TransactionMapper.ToNewOrm(tx);
        session.Add(row);
      } else {
        TransactionMapper.UpdateOrm(orm, tx);
      }
    }
  }

  // ----- The unit of work ------------------------------------------------------------

  /** The pending events of the aggregates, in order; one that was seen twice is drained the first time. */
  ghost function Drained<A, E>(seen: seq<A>, pending: map<A, seq<E>>, done: set<A>): seq<E>
    requires forall a :: a in seen ==> a in pending
  {
    if seen == [] then []
    else (if seen[0] in done then [] else pending[seen[0]]) + Drained(seen[1..], pending, done + {seen[0]})
  }

  lemma DrainedStep<A, E>(seen: seq<A>, pending: map<A, seq<E>>, done: set<A>, i: nat)
    requires i < |seen| && forall a :: a in seen ==> a in pending
    ensures Drained(seen[i..], pending, done)
         == (if seen[i] in done then [] else pending[seen[i]]) + Drained(seen[i + 1..], pending, done + {seen[i]})
  {
    assert seen[i..][1..] == seen[i + 1..];
  }

  /** An aggregate seen once more adds its events if it has not been seen or drained before, and nothing if it has. */
  lemma {:induction false} DrainedMeans<A, E>(seen: seq<A>, pending: map<A, seq<E>>, done: set<A>, a: A)
    requires a in pending && forall b :: b in seen ==> b in pending
    ensures Drained(seen + [a], pending, done)
         == Drained(seen, pending, done) + if a in done || a in seen then [] else pending[a]
  {
    if seen == [] {
      assert [a][1..] == [];
      assert Drained([a], pending, done) == (if a in done then [] else pending[a]) + [];
    } else {
      assert (seen + [a])[1..] == seen[1..] + [a];
      DrainedMeans(seen[1..], pending, done + {seen[0]}, a);
      ConcatAssociates(if seen[0] in done then [] else pending[seen[0]], Drained(seen[1..], pending, done + {seen[0]}),
                       if a in done || a in seen then [] else pending[a]);
    }
  }

  /** One more aggregate drained: what is stored and what is still to come make the same whole. */
  lemma DrainedMore<A, E>(stored: seq<E>, seen: seq<A>, pending: map<A, seq<E>>, done: set<A>, i: nat)
    requires i < |seen| && forall a :: a in seen ==> a in pending
    ensures stored + Drained(seen[i..], pending, done)
         == stored + (if seen[i] in done then [] else pending[seen[i]])
            + Drained(seen[i + 1..], pending, done + {seen[i]})
  {
    hide Drained;
    DrainedStep(seen, pending, done, i);
    ConcatAssociates(stored, if seen[i] in done then [] else pending[seen[i]],
                     Drained(seen[i + 1..], pending, done + {seen[i]}));
  }

  ghost function AccountEvents(seen: seq<Account>): (m: map<Account, seq<AccountEvent>>)
    reads seen
    ensures forall a :: a in seen ==> a in m
  {
    map a | a in seen :: a.domainEvents
  }

  ghost function PendingAccountEvents(seen: seq<Account>): seq<AccountEvent>
    reads seen
  {
    Drained(seen, AccountEvents(seen), {})
  }

  ghost function TransactionEvents(seen: seq<Transaction>): (m: map<Transaction, seq<TransactionEvent>>)
    reads seen
    ensures forall t :: t in seen ==> t in m
  {
    map t | t in seen :: t.domainEvents
  }

  ghost function PendingTransactionEvents(seen: seq<Transaction>): seq<TransactionEvent>
    reads seen
  {
    Drained(seen, TransactionEvents(seen), {})
  }

  function TransactionMessages(events: seq<TransactionEvent>): (r: seq<DomainEvent>)
    ensures |r| == |events| && forall i :: 0 <= i < |events| ==> r[i] == OfTransaction(events[i])
  {
    seq(|events|, i requires 0 <= i < |events| => OfTransaction(events[i]))
  }

  class SQLAlchemyUnitOfWork {
    const database: Database
    var session: Session
    var accounts: PostgresAccountRepository
    var transactions: PostgresTransactionRepository

    constructor (database: Database)
      ensures this.database == database && Valid()
    {
      this.database := database;
      var s := new Session(database);
      session := s;
      accounts := new PostgresAccountRepository(s);
      transactions := new PostgresTransactionRepository(s);
    }

    ghost predicate Valid()
      reads this
    {
      session.database == database && accounts.session == session && transactions.session == session
    }

    /** `__aenter__`: a new session, shared by two new repositories. */
    method Enter()
      modifies this
      ensures Valid() && fresh(session) && fresh(accounts) && fresh(transactions) && session.Empty()
      ensures accounts.seen == [] && transactions.seen == []
    {
      session := new Session(database);
      accounts := new PostgresAccountRepository(session);
      transactions := new PostgresTransactionRepository(session);
    }

    /** `__aexit__`: whatever has not been committed is gone; the database is not touched. */
    method Exit(raised: bool)
      modifies session
      ensures session.Empty()
    {
      if raised {
        session.Rollback();
      }
      session.Close();
    }

    /** Drains the pending events of all seen aggregates, accounts first, into the session. */
    method CollectAndStoreEvents()
      requires Valid()
      modifies session`messages
      modifies (set a | a in accounts.seen)`domainEvents, (set t | t in transactions.seen)`domainEvents
      ensures session.messages
           == old(session.messages)
              + AsOutbox(old(PendingAccountEvents(accounts.seen)))
              + TransactionMessages(old(PendingTransactionEvents(transactions.seen)))
      ensures forall a :: a in accounts.seen ==> a.domainEvents == []
      ensures forall t :: t in transactions.seen ==> t.domainEvents == []
    {
      StoreAccountEvents();
      StoreTransactionEvents();
    }

    method StoreAccountEvents()
      requires Valid()
      modifies session`messages, (set a | a in accounts.seen)`domainEvents
      ensures session.messages
           == old(session.messages) + AsOutbox(old(PendingAccountEvents(accounts.seen)))
      ensures forall a :: a in accounts.seen ==> a.domainEvents == []
    {
      hide AsOutbox, Drained;
      var i := 0;
      ghost var pending: map<Account, seq<AccountEvent>> := AccountEvents(accounts.seen);
      ghost var done: set<Account> := {};
      ghost var stored, all := [], PendingAccountEvents(accounts.seen);
      assert accounts.seen[0..] == accounts.seen;
      while i < |accounts.seen|
        invariant i <= |accounts.seen|
        invariant forall j :: 0 <= j < i ==> accounts.seen[j] in done
        invariant forall a :: a in accounts.seen ==> a.domainEvents == if a in done then [] else pending[a]
        invariant session.messages == old(session.messages) + AsOutbox(stored)
        invariant stored + Drained(accounts.seen[i..], pending, done) == all
      {
        var account := accounts.seen[i];
        DrainedMore(stored, accounts.seen, pending, done, i);
        ghost var events := StoreEventsOf(account);
        AsOutboxAppends(old(session.messages), stored, events);
        stored := stored + events;
        done := done + {account};
        i := i + 1;
      }
      DrainedNothing(accounts.seen[i..], pending, done);
      assert stored + [] == stored;
    }

    method StoreEventsOf(account: Account) returns (ghost events: seq<AccountEvent>)
      modifies session`messages, account`domainEvents
      ensures events == old(account.domainEvents) && account.domainEvents == []
      ensures session.messages == old(session.messages) + AsOutbox(events)
    {
      var collected := account.CollectEvents();
      StoreEvents(collected);
      events := collected;
    }

    method StoreEvents(events: seq<AccountEvent>)
      modifies session`messages
      ensures session.messages == old(session.messages) + AsOutbox(events)
    {
      var i := 0;
      while i < |events|
        invariant i <= |events|
        invariant session.messages == old(session.messages) + AsOutbox(events[..i])
      {
        session.AddMessage(OfAccount(events[i]));
        i := i + 1;
      }
      assert events[..i] == events;
    }

    method StoreTransactionEvents()
      requires Valid()
      modifies session`messages, (set t | t in transactions.seen)`domainEvents
      ensures session.messages
           == old(session.messages)
              + TransactionMessages(old(PendingTransactionEvents(transactions.seen)))
      ensures forall t :: t in transactions.seen ==> t.domainEvents == []
    {
      hide TransactionMessages, Drained;
      var i := 0;
      ghost var pending: map<Transaction, seq<TransactionEvent>> := TransactionEvents(transactions.seen);
      ghost var done: set<Transaction> := {};
      ghost var stored, all := [], PendingTransactionEvents(transactions.seen);
      assert transactions.seen[0..] == transactions.seen;
      while i < |transactions.seen|
        invariant i <= |transactions.seen|
        invariant forall j :: 0 <= j < i ==> transactions.seen[j] in done
        invariant forall t :: t in transactions.seen ==> t.domainEvents == if t in done then [] else pending[t]
        invariant session.messages == old(session.messages) + TransactionMessages(stored)
        invariant stored + Drained(transactions.seen[i..], pending, done) == all
      {
        var tx := transactions.seen[i];
        DrainedMore(stored, transactions.seen, pending, done, i);
        ghost var events := StoreMoreEventsOf(tx);
        TransactionMessagesAppend(old(session.messages), stored, events);
        stored := stored + events;
        done := done + {tx};
        i := i + 1;
      }
      DrainedNothing(transactions.seen[i..], pending, done);
      assert stored + [] == stored;
    }

    method StoreMoreEventsOf(tx: Transaction) returns (ghost events: seq<TransactionEvent>)
      modifies session`messages, tx`domainEvents
      ensures events == old(tx.domainEvents) && tx.domainEvents == []
      ensures session.messages == old(session.messages) + TransactionMessages(events)
    {
      var collected := tx.CollectEvents();
      StoreMoreEvents(collected);
      events := collected;
    }

    method StoreMoreEvents(events: seq<TransactionEvent>)
      modifies session`messages
      ensures session.messages == old(session.messages) + TransactionMessages(events)
    {
      var i := 0;
      while i < |events|
        invariant i <= |events|
        invariant session.messages == old(session.messages) + TransactionMessages(events[..i])
      {
        session.AddMessage(OfTransaction(events[i]));
        i := i + 1;
      }
      assert events[..i] == events;
    }

    /** `commit`: events and rows in one database commit; if it fails, the session is rolled back, the error raised. */
    method Commit() returns (raised: Option<Error>)
      requires Valid() && session.Valid()
      modifies database, session
      modifies (set a | a in accounts.seen)`domainEvents, (set t | t in transactions.seen)`domainEvents
      ensures Valid() && session == old(session) && (raised.Some? ==> session.Empty())
      ensures var w := old(session.Pending()).(messages :=
                old(session.messages)
                + AsOutbox(old(PendingAccountEvents(accounts.seen)))
                + TransactionMessages(old(PendingTransactionEvents(transactions.seen))));
        && (raised == None ==> FlushError(old(database.tables), w).None?
                               && database.tables == Flushed(old(database.tables), w))
        && (raised.Some? ==> database.tables == old(database.tables)
                             && (|| (raised == Some(Infrastructure) && database.BrokeDown())
                                 || raised == FlushError(old(database.tables), w)))
      ensures forall a :: a in accounts.seen ==> a.domainEvents == []
    {
      hide Drained, AsOutbox, TransactionMessages, FlushError, Flushed, RowsOf, PendingAccountEvents,
           PendingTransactionEvents, Session.PendingRows;
      CollectAndStoreEvents();
      assert session.PendingRows() == old(session.PendingRows());
      raised := session.Commit();
      if raised.Some? {
        session.Rollback();
      }
    }
  }

  lemma ConcatAssociates<E>(a: seq<E>, b: seq<E>, c: seq<E>)
    ensures a + b + c == a + (b + c)
  {
  }

  lemma AsOutboxConcat(c: seq<AccountEvent>, d: seq<AccountEvent>)
    ensures AsOutbox(c + d) == AsOutbox(c) + AsOutbox(d)
  {
  }

  lemma AsOutboxAppends(m: seq<DomainEvent>, c: seq<AccountEvent>, d: seq<AccountEvent>)
    ensures m + AsOutbox(c) + AsOutbox(d) == m + AsOutbox(c + d)
  {
    AsOutboxConcat(c, d);
  }

  lemma TransactionMessagesAppend(m: seq<DomainEvent>, c: seq<TransactionEvent>, d: seq<TransactionEvent>)
    ensures m + TransactionMessages(c) + TransactionMessages(d) == m + TransactionMessages(c + d)
  {
    TransactionMessagesConcat(c, d);
  }

  lemma TransactionMessagesConcat(c: seq<TransactionEvent>, d: seq<TransactionEvent>)
    ensures TransactionMessages(c + d) == TransactionMessages(c) + TransactionMessages(d)
  {
  }

  lemma DrainedPair<A, E>(seen: seq<A>, pending: map<A, seq<E>>)
    requires |seen| == 2 && seen[0] != seen[1] && forall a :: a in seen ==> a in pending
    ensures Drained(seen, pending, {}) == pending[seen[0]] + pending[seen[1]]
  {
    DrainedNothing(seen[1..][1..], pending, {seen[0], seen[1]});
    var none: set<A> := {};
    assert none + {seen[0]} == {seen[0]} && {seen[0]} + {seen[1]} == {seen[0], seen[1]};
    assert Drained(seen[1..], pending, {seen[0]}) == pending[seen[1]];
  }

  lemma DrainedNothing<A, E>(seen: seq<A>, pending: map<A, seq<E>>, done: set<A>)
    requires |seen| == 0
    ensures Drained(seen, pending, done) == []
  {
  }
}
