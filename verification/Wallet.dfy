/** Wallet accounts funded at genesis and the even split of funds over users. */
module Wallet {
  import opened Integers
  import opened Wrappers
  import opened Decimal
  import opened Keys
  import opened Counting

  datatype WalletAccount = WalletAccount(name: string, secretKey: nat, value: nat)

  function Deterministic(index: nat, value: nat): (a: WalletAccount) {
    WalletAccount("wallet-user-" + Print(index), WalletSecret(index), value)
  }

  function Sum(accounts: seq<WalletAccount>): (total: nat) {
    if accounts == [] then 0 else Sum(accounts[..|accounts| - 1]) + accounts[|accounts| - 1].value
  }

  datatype WalletError = InsufficientFunds

  /** Accounts `0 .. users`, the first `extra` of them with one token more than `base`. */
  function Split(users: nat, base: nat, extra: nat): (accounts: seq<WalletAccount>)
    ensures |accounts| == users
  {
    if users == 0 then []
    else Split(users - 1, base, extra) + [Deterministic(users - 1, if users - 1 < extra then base + 1 else base)]
  }

  /**
   * `WalletConfig::uniform`; the user count is non-zero by type, and too little
   * money is rejected. The remainder is handed out one by one to the first users.
   */
  method Uniform(totalFunds: nat, users: nat) returns (r: Result<seq<WalletAccount>, WalletError>)
    requires users > 0
    ensures r == if totalFunds >= users then Ok(Split(users, totalFunds / users, totalFunds % users))
      else Err(InsufficientFunds)
  {
    if totalFunds < users {
      return Err(InsufficientFunds);
    }
    var base, remainder := totalFunds / users, totalFunds % users;
    ghost var extra := remainder;
    var accounts: seq<WalletAccount> := [];
    for idx := 0 to users
      invariant remainder == if idx <= extra then extra - idx else 0
      invariant accounts == Split(idx, base, extra)
    {
      var amount := base;
      if remainder > 0 {
        amount := amount + 1;
        remainder := remainder - 1;
      }
      accounts := accounts + [Deterministic(idx, amount)];
    }
    return Ok(accounts);
  }

  lemma {:induction false} SplitAt(users: nat, base: nat, extra: nat, i: nat)
    requires i < users
    ensures Split(users, base, extra)[i] == Deterministic(i, if i < extra then base + 1 else base)
  {
    var rest := Split(users - 1, base, extra);
    if i < users - 1 {
      SplitAt(users - 1, base, extra, i);
      assert Split(users, base, extra)[i] == rest[i];
    }
  }

  lemma MulStep(base: nat, users: nat)
    requires users > 0
    ensures base * users == base * (users - 1) + base
  {
  }

  lemma {:induction false} SplitSum(users: nat, base: nat, extra: nat)
    ensures Sum(Split(users, base, extra)) == base * users + Min(users, extra)
  {
    if users > 0 {
      SplitSum(users - 1, base, extra);
      assert Split(users, base, extra)[..users - 1] == Split(users - 1, base, extra);
      MulStep(base, users);
    }
  }

  /** The uniform split loses nothing, gives everyone at least one token, and is even up to one token. */
  lemma UniformIsExact(totalFunds: nat, users: nat, i: nat, j: nat)
    requires 0 < users <= totalFunds && i <= j < users
    ensures var accounts := Split(users, totalFunds / users, totalFunds % users);
      && Sum(accounts) == totalFunds
      && 1 <= accounts[j].value <= accounts[i].value <= accounts[j].value + 1
      && accounts[i].secretKey == WalletSecret(i) && accounts[i].name == "wallet-user-" + Print(i)
  {
    var base, extra := totalFunds / users, totalFunds % users;
    Euclid(totalFunds, users);
    SplitSum(users, base, extra);
    SplitAt(users, base, extra, i);
    SplitAt(users, base, extra, j);
    AtLeastOneEach(totalFunds, users);
  }

  lemma AtLeastOneEach(totalFunds: nat, users: nat)
    requires 0 < users <= totalFunds
    ensures totalFunds / users >= 1
  {
  }

  ghost predicate DistinctKeys(accounts: seq<WalletAccount>) {
    forall i, j :: 0 <= i < j < |accounts| ==> accounts[i].secretKey != accounts[j].secretKey
  }

  /** Accounts made by index never share a key. */
  lemma DeterministicKeysApart(accounts: seq<WalletAccount>)
    requires |accounts| <= U64_LIMIT
    requires forall i :: 0 <= i < |accounts| ==> accounts[i].secretKey == WalletSecret(i)
    ensures DistinctKeys(accounts)
  {
    forall i, j | 0 <= i < j < |accounts| ensures accounts[i].secretKey != accounts[j].secretKey {
      SecretsCoincide([], Slot.Wallet(i), Slot.Wallet(j));
    }
  }
}
