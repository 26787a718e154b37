/** internal/db/accounts.go: AccountsRepo over the accounts table. */
module DbAccounts {
  import opened Uuid
  import opened Results
  import opened Model
  import opened Ledger
  import opened Tables

  /** The range of a PostgreSQL bigint column. */
  predicate IsBigint(x: int)
  {
    -0x8000_0000_0000_0000 <= x <= 0x7fff_ffff_ffff_ffff
  }

  class AccountsRepo {
    const pool: Database

    constructor (pool: Database)
      ensures this.pool == pool
    {
      this.pool := pool;
    }

    /** GetAccount: the stored balance plus the sum of the account's transaction rows
        (LEFT JOIN with COALESCE 0); an unknown id is an error, not a zero account.
        QueryRow's and Scan's errors are returned: a failed query (`queryFails`), or a
        live balance, summed as numeric, that does not fit the int64 it is scanned into. */
    function GetAccount(id: Uuid, queryFails: bool): (r: Result<Account>)
      reads pool
      ensures queryFails ==> r.Err?
      ensures r.Ok? <==> !queryFails && id in pool.accounts
                         && IsBigint(pool.accounts[id].balance + PendingTotal(pool.buffers, id))
      ensures r.Ok? ==> r.value.balance == pool.accounts[id].balance + PendingTotal(pool.buffers, id)
      ensures r.Ok? ==> r.value.(balance := pool.accounts[id].balance) == pool.accounts[id]
    {
      if queryFails then Err("query failed")
      else
        match LiveAccount(pool.accounts, pool.buffers, id)
        case Err(e) => Err(e)
        case Ok(a) => if IsBigint(a.balance) then Ok(a) else Err("value out of range for int64")
    }

    /** CreateAccount with the id uuid.NewV7 would draw (None: the draw failed) and the
        clock reading as parameters. Exec's error is returned: a failed statement
        (`execFails`), or an INSERT of an id that is already present, adds nothing. */
    method CreateAccount(userId: Uuid, initialBalance: int, newId: Option<Uuid>, now: int, execFails: bool)
      returns (r: Result<Account>)
      modifies pool
      ensures r.Ok? <==> newId.Some? && !execFails && newId.value !in old(pool.accounts)
      ensures execFails ==> r.Err? && pool.accounts == old(pool.accounts)
      ensures r.Ok? ==> r.value == Account(newId.value, userId, initialBalance, now)
      ensures r.Ok? ==> pool.accounts == old(pool.accounts)[newId.value := r.value]
      ensures r.Err? ==> pool.accounts == old(pool.accounts)
      ensures pool.buffers == old(pool.buffers)
    {
      if newId.None? {
        return Err("uuid generation failed");
      }
      var account := Account(newId.value, userId, initialBalance, now);
      if execFails {
        return Err("exec failed");
      }
      if account.id in pool.accounts {
        return Err("duplicate key value violates unique constraint");
      }
      pool.accounts := pool.accounts[account.id := account];
      return Ok(account);
    }

    /** UpdateAccountBalance: balance = balance + amount for the named account only;
        an id that matches no row updates nothing. Exec's error is returned: a failed
        statement (`fails`), or a sum outside the bigint column's range, changes nothing. */
    method UpdateAccountBalance(accountId: Uuid, amount: int, fails: bool) returns (err: Outcome)
      modifies pool
      ensures err.Fail? <==> fails || (accountId in old(pool.accounts) && !IsBigint(old(pool.accounts)[accountId].balance + amount))
      ensures err.Fail? ==> pool.accounts == old(pool.accounts)
      ensures pool.accounts.Keys == old(pool.accounts).Keys
      ensures err == Nil && accountId in pool.accounts ==>
        pool.accounts[accountId] == old(pool.accounts)[accountId].(balance := old(pool.accounts)[accountId].balance + amount)
      ensures forall a :: a in pool.accounts && a != accountId ==> pool.accounts[a] == old(pool.accounts)[a]
      ensures pool.buffers == old(pool.buffers)
    {
      if fails {
        return Fail("exec failed");
      }
      if accountId in pool.accounts {
        var a := pool.accounts[accountId];
        if !IsBigint(a.balance + amount) {
          return Fail("bigint out of range");
        }
        pool.accounts := pool.accounts[accountId := a.(balance := a.balance + amount)];
      }
      return Nil;
    }
  }
}
