/** The records of internal/model: users, accounts, transactions and API payloads,
    the Credit/Debit type codes and the GetDetails renderings. */
module Model {
  import opened Uuid
  import Text

  /** CreatedAt fields are milliseconds since the Unix epoch. */
  datatype User = User(id: Uuid, createdAt: int)

  datatype Account = Account(id: Uuid, userId: Uuid, balance: int, createdAt: int)

  datatype Transaction = Transaction(id: Uuid, accountId: Uuid, amount: int, txType: int, createdAt: int)

  /** The transaction data received in API requests. */
  datatype TransactionPayload = TransactionPayload(accountId: Uuid, txType: int, amount: int)

  /** The iota constants Credit and Debit. */
  const Credit: int := 0
  const Debit: int := 1

  /** The name GetDetails prints for a transaction type: the switch has no default case. */
  function TypeName(t: int): (name: string)
    ensures name == "Credit" <==> t == Credit
    ensures name == "Debit" <==> t == Debit
    ensures name == "" <==> t != Credit && t != Debit
  {
    if t == Credit then "Credit" else if t == Debit then "Debit" else ""
  }

  function UserDetails(u: User): (text: string)
  {
    Text.Join(UserDetailLines(u), '\n')
  }

  function UserDetailLines(u: User): (lines: seq<string>)
  {
    ["User ID: " + ToString(u.id), "Created At: " + Text.IntToString(u.createdAt)]
  }

  function AccountDetails(a: Account): (text: string)
  {
    Text.Join(AccountDetailLines(a), '\n')
  }

  function AccountDetailLines(a: Account): (lines: seq<string>)
  {
    ["Account ID: " + ToString(a.id), "User ID: " + ToString(a.userId),
     "Balance: " + Text.IntToString(a.balance), "Created At: " + Text.IntToString(a.createdAt)]
  }

  function TransactionDetails(t: Transaction): (text: string)
  {
    Text.Join(TransactionDetailLines(t), '\n')
  }

  function TransactionDetailLines(t: Transaction): (lines: seq<string>)
  {
    ["Transaction ID: " + ToString(t.id), "Account ID: " + ToString(t.accountId),
     "Amount: " + Text.IntToString(t.amount), "Type: " + TypeName(t.txType),
     "Created At: " + Text.IntToString(t.createdAt)]
  }

  lemma NoNewlineIn(prefix: string, value: string)
    requires '\n' !in prefix && '\n' !in value
    ensures '\n' !in prefix + value
  {
    assert forall i :: 0 <= i < |prefix + value| ==> (prefix + value)[i] in prefix || (prefix + value)[i] in value;
  }

  /** The user details are two newline-separated lines, ID first. */
  lemma UserDetailsLines(u: User)
    ensures Text.Split(UserDetails(u), '\n') == ["User ID: " + ToString(u.id), "Created At: " + Text.IntToString(u.createdAt)]
  {
    ToStringHasNoNewline(u.id);
    NoNewlineIn("User ID: ", ToString(u.id));
    NoNewlineIn("Created At: ", Text.IntToString(u.createdAt));
    Text.SplitJoin(UserDetailLines(u), '\n');
  }

  /** The account details are ID, User ID, Balance and Created At, one per line. */
  lemma AccountDetailsLines(a: Account)
    ensures Text.Split(AccountDetails(a), '\n') ==
      ["Account ID: " + ToString(a.id), "User ID: " + ToString(a.userId),
       "Balance: " + Text.IntToString(a.balance), "Created At: " + Text.IntToString(a.createdAt)]
  {
    ToStringHasNoNewline(a.id);
    ToStringHasNoNewline(a.userId);
    NoNewlineIn("Account ID: ", ToString(a.id));
    NoNewlineIn("User ID: ", ToString(a.userId));
    NoNewlineIn("Balance: ", Text.IntToString(a.balance));
    NoNewlineIn("Created At: ", Text.IntToString(a.createdAt));
    Text.SplitJoin(AccountDetailLines(a), '\n');
  }

  /** The transaction details are ID, Account ID, Amount, Type and Created At, one per line,
      and the type line names the type. */
  lemma TransactionDetailsLines(t: Transaction)
    ensures Text.Split(TransactionDetails(t), '\n') ==
      ["Transaction ID: " + ToString(t.id), "Account ID: " + ToString(t.accountId),
       "Amount: " + Text.IntToString(t.amount), "Type: " + TypeName(t.txType),
       "Created At: " + Text.IntToString(t.createdAt)]
  {
    ToStringHasNoNewline(t.id);
    ToStringHasNoNewline(t.accountId);
    NoNewlineIn("Transaction ID: ", ToString(t.id));
    NoNewlineIn("Account ID: ", ToString(t.accountId));
    NoNewlineIn("Amount: ", Text.IntToString(t.amount));
    NoNewlineIn("Type: ", TypeName(t.txType));
    NoNewlineIn("Created At: ", Text.IntToString(t.createdAt));
    Text.SplitJoin(TransactionDetailLines(t), '\n');
  }
}
