/**
  Choosing the sender's token account inside `sendTransaction` (src/App.js):
  the decoded accounts are filtered to the target mint, sorted by balance,
  largest first, and the first one is taken.
 */
module Accounts {
  import opened Wrappers

  /** A public key, represented by its base-58 text: two keys are `equals` exactly when their texts are equal. */
  datatype PublicKey = PublicKey(base58: string)

  /** One owned account after decoding: its address, the mint whose tokens it holds, and its raw balance. */
  datatype TokenAccount = TokenAccount(publicKey: PublicKey, mint: PublicKey, amount: nat)

  /** `.filter(({ parsed }) => parsed.mint.equals(mint))`: the accounts of one mint, in discovery order. */
  function FilterByMint(accounts: seq<TokenAccount>, mint: PublicKey): (r: seq<TokenAccount>)
    ensures |r| <= |accounts|
    ensures forall a :: a in r <==> a in accounts && a.mint == mint
    ensures |accounts| == 1 ==> r == if accounts[0].mint == mint then accounts else []
  {
    if accounts == [] then []
    else
      assert accounts == [accounts[0]] + accounts[1..];
      if accounts[0].mint == mint then [accounts[0]] + FilterByMint(accounts[1..], mint)
      else FilterByMint(accounts[1..], mint)
  }

  /**
    Filtering a concatenation filters each part and keeps the parts in order.
    With the one-account case stated by FilterByMint, this fixes the result
    completely: the survivors, each as often as it occurs, in discovery order.
   */
  lemma {:induction false} FilterByMintAppend(a: seq<TokenAccount>, b: seq<TokenAccount>, mint: PublicKey)
    ensures FilterByMint(a + b, mint) == FilterByMint(a, mint) + FilterByMint(b, mint)
  {
    if a == [] {
      assert a + b == b;
    } else {
      assert (a + b)[0] == a[0];
      assert (a + b)[1..] == a[1..] + b;
      FilterByMintAppend(a[1..], b, mint);
    }
  }

  /**
    Places x in front of the first element of t whose amount is not larger
    than x's: x goes after every larger account and before every account it
    ties with.
   */
  function Insert(x: TokenAccount, t: seq<TokenAccount>): (r: seq<TokenAccount>)
    ensures |r| == |t| + 1
  {
    if t == [] || t[0].amount <= x.amount then [x] + t else [t[0]] + Insert(x, t[1..])
  }

  /**
    `.sort((a, b) => b.amount - a.amount)`. From its 2019 edition on,
    ECMAScript requires Array.prototype.sort to be stable, so the result is
    the stable ordering by amount, largest first. It is computed here by
    insertion, each account placed ahead of the later accounts it ties with.
   */
  function SortByAmountDesc(s: seq<TokenAccount>): (r: seq<TokenAccount>)
    ensures |r| == |s|
  {
    if s == [] then [] else Insert(s[0], SortByAmountDesc(s[1..]))
  }

  /** Largest amount first. */
  predicate SortedByAmountDesc(s: seq<TokenAccount>) {
    forall i, j :: 0 <= i < j < |s| ==> s[i].amount >= s[j].amount
  }

  /** The accounts of s whose amount is v, in the order of s. */
  function WithAmount(s: seq<TokenAccount>, v: nat): seq<TokenAccount> {
    if s == [] then []
    else (if s[0].amount == v then [s[0]] else []) + WithAmount(s[1..], v)
  }

  lemma {:induction false} InsertPermutes(x: TokenAccount, t: seq<TokenAccount>)
    ensures multiset(Insert(x, t)) == multiset([x] + t)
  {
    if t != [] && t[0].amount > x.amount {
      InsertPermutes(x, t[1..]);
      assert t == [t[0]] + t[1..];
    }
  }

  lemma {:induction false} InsertSorted(x: TokenAccount, t: seq<TokenAccount>)
    requires SortedByAmountDesc(t)
    ensures SortedByAmountDesc(Insert(x, t))
  {
    if t != [] && t[0].amount > x.amount {
      var rest := Insert(x, t[1..]);
      InsertSorted(x, t[1..]);
      InsertPermutes(x, t[1..]);
      forall j | 0 <= j < |rest|
        ensures rest[j].amount <= t[0].amount
      {
        assert rest[j] in multiset([x] + t[1..]);
        assert rest[j] in [x] + t[1..];
      }
      assert Insert(x, t) == [t[0]] + rest;
    }
  }

  /** The sort orders by amount, largest first, and loses or adds no account. */
  lemma {:induction false} SortIsSortedPermutation(s: seq<TokenAccount>)
    ensures SortedByAmountDesc(SortByAmountDesc(s))
    ensures multiset(SortByAmountDesc(s)) == multiset(s)
  {
    if s != [] {
      SortIsSortedPermutation(s[1..]);
      InsertSorted(s[0], SortByAmountDesc(s[1..]));
      InsertPermutes(s[0], SortByAmountDesc(s[1..]));
      assert s == [s[0]] + s[1..];
    }
  }

  lemma {:induction false} InsertKeepsTies(x: TokenAccount, t: seq<TokenAccount>, v: nat)
    ensures WithAmount(Insert(x, t), v) == WithAmount([x] + t, v)
  {
    assert ([x] + t)[1..] == t;
    if t == [] || t[0].amount <= x.amount {
    } else {
      InsertKeepsTies(x, t[1..], v);
      var r := Insert(x, t);
      assert r[1..] == Insert(x, t[1..]);
      assert ([x] + t[1..])[1..] == t[1..];
      assert ([t[0]] + t[1..])[1..] == t[1..];
      assert t == [t[0]] + t[1..];
    }
  }

  /** The sort is stable: accounts with equal amounts keep their discovery order. */
  lemma {:induction false} SortIsStable(s: seq<TokenAccount>, v: nat)
    ensures WithAmount(SortByAmountDesc(s), v) == WithAmount(s, v)
  {
    if s != [] {
      SortIsStable(s[1..], v);
      InsertKeepsTies(s[0], SortByAmountDesc(s[1..]), v);
      assert ([s[0]] + SortByAmountDesc(s[1..]))[1..] == SortByAmountDesc(s[1..]);
    }
  }

  /** The chosen source account: element [0] of the sorted survivors, None (`undefined`) when none survive. */
  function Select(accounts: seq<TokenAccount>, mint: PublicKey): (r: Option<TokenAccount>)
    ensures r.None? <==> FilterByMint(accounts, mint) == []
  {
    var sorted := SortByAmountDesc(FilterByMint(accounts, mint));
    if sorted == [] then None else Some(sorted[0])
  }

  /**
    The selection policy stated without sorting: account i holds the target
    mint, no account of that mint holds more, and every account of that mint
    discovered before it holds strictly less.
   */
  predicate IsFirstLargest(accounts: seq<TokenAccount>, mint: PublicKey, i: int) {
    && 0 <= i < |accounts|
    && accounts[i].mint == mint
    && (forall j :: 0 <= j < |accounts| && accounts[j].mint == mint ==> accounts[j].amount <= accounts[i].amount)
    && (forall j :: 0 <= j < i && accounts[j].mint == mint ==> accounts[j].amount < accounts[i].amount)
  }

  /** Selecting from one more account, discovered first, in terms of selecting from the rest. */
  lemma SelectCons(a: TokenAccount, s: seq<TokenAccount>, mint: PublicKey)
    ensures Select([a] + s, mint) ==
      if a.mint != mint then Select(s, mint)
      else match Select(s, mint)
        case None => Some(a)
        case Some(b) => if b.amount <= a.amount then Some(a) else Some(b)
  {
  }

  /** `choice` is what the policy picks from `accounts`: nothing exactly when no account has the mint, else the first largest. */
  ghost predicate Describes(accounts: seq<TokenAccount>, mint: PublicKey, choice: Option<TokenAccount>) {
    && (choice.None? <==> forall j :: 0 <= j < |accounts| ==> accounts[j].mint != mint)
    && (choice.Some? ==> exists i :: IsFirstLargest(accounts, mint, i) && choice.value == accounts[i])
  }

  /** An account of another mint, discovered first, shifts the policy's index by one. */
  lemma PrependOtherMint(a: TokenAccount, s: seq<TokenAccount>, mint: PublicKey, k: int)
    requires a.mint != mint && IsFirstLargest(s, mint, k)
    ensures IsFirstLargest([a] + s, mint, k + 1)
  {
    var accounts := [a] + s;
    forall j | 0 <= j < |accounts| && accounts[j].mint == mint
      ensures accounts[j].amount <= accounts[k + 1].amount
    {
      assert accounts[j] == s[j - 1];
    }
    forall j | 0 <= j < k + 1 && accounts[j].mint == mint
      ensures accounts[j].amount < accounts[k + 1].amount
    {
      assert accounts[j] == s[j - 1];
    }
  }

  /** An account of the mint, discovered first, is the policy's choice when no later account holds more. */
  lemma PrependLargest(a: TokenAccount, s: seq<TokenAccount>, mint: PublicKey)
    requires a.mint == mint
    requires forall j :: 0 <= j < |s| && s[j].mint == mint ==> s[j].amount <= a.amount
    ensures IsFirstLargest([a] + s, mint, 0)
  {
    var accounts := [a] + s;
    forall j | 0 < j < |accounts| && accounts[j].mint == mint
      ensures accounts[j].amount <= a.amount
    {
      assert accounts[j] == s[j - 1];
    }
  }

  /** An account of the mint, discovered first, that holds less than the rest's choice leaves that choice in place. */
  lemma PrependSmaller(a: TokenAccount, s: seq<TokenAccount>, mint: PublicKey, k: int)
    requires a.mint == mint && IsFirstLargest(s, mint, k) && a.amount < s[k].amount
    ensures IsFirstLargest([a] + s, mint, k + 1)
  {
    var accounts := [a] + s;
    forall j | 0 < j < |accounts| && accounts[j].mint == mint
      ensures accounts[j].amount <= accounts[k + 1].amount
    {
      assert accounts[j] == s[j - 1];
    }
    forall j | 0 < j < k + 1 && accounts[j].mint == mint
      ensures accounts[j].amount < accounts[k + 1].amount
    {
      assert accounts[j] == s[j - 1];
    }
  }

  /** The policy's choice for one more account, discovered first, follows from its choice for the rest as SelectCons says. */
  lemma DescribesCons(a: TokenAccount, s: seq<TokenAccount>, mint: PublicKey,
                      rest: Option<TokenAccount>, choice: Option<TokenAccount>)
    requires Describes(s, mint, rest)
    requires choice ==
      if a.mint != mint then rest
      else match rest
        case None => Some(a)
        case Some(b) => if b.amount <= a.amount then Some(a) else Some(b)
    ensures Describes([a] + s, mint, choice)
  {
    var accounts := [a] + s;
    assert accounts[0] == a;
    assert forall j :: 0 <= j < |s| ==> accounts[j + 1] == s[j];
    match rest
    case None =>
      if a.mint == mint {
        PrependLargest(a, s, mint);
      }
    case Some(b) =>
      var k :| IsFirstLargest(s, mint, k) && b == s[k];
      if a.mint != mint {
        PrependOtherMint(a, s, mint, k);
      } else if b.amount <= a.amount {
        PrependLargest(a, s, mint);
      } else {
        PrependSmaller(a, s, mint, k);
      }
  }

  /** Select picks exactly the account the policy IsFirstLargest describes, and nothing when no account has the mint. */
  lemma {:induction false} SelectIsFirstLargest(accounts: seq<TokenAccount>, mint: PublicKey)
    ensures Select(accounts, mint).None? <==> forall j :: 0 <= j < |accounts| ==> accounts[j].mint != mint
    ensures Select(accounts, mint).Some? ==>
      exists i :: IsFirstLargest(accounts, mint, i) && Select(accounts, mint).value == accounts[i]
  {
    if accounts != [] {
      var a, s := accounts[0], accounts[1..];
      assert accounts == [a] + s;
      SelectCons(a, s, mint);
      SelectIsFirstLargest(s, mint);
      DescribesCons(a, s, mint, Select(s, mint), Select(accounts, mint));
    }
  }

  /** Only one index meets the policy. */
  lemma FirstLargestIsUnique(accounts: seq<TokenAccount>, mint: PublicKey, i: int, k: int)
    requires IsFirstLargest(accounts, mint, i) && IsFirstLargest(accounts, mint, k)
    ensures i == k
  {
  }

  /** The account the policy describes is the one Select returns: among equal largest balances, the first discovered. */
  lemma TieGoesToFirstDiscovered(accounts: seq<TokenAccount>, mint: PublicKey, i: int)
    requires IsFirstLargest(accounts, mint, i)
    ensures Select(accounts, mint) == Some(accounts[i])
  {
    SelectIsFirstLargest(accounts, mint);
    var k :| IsFirstLargest(accounts, mint, k) && Select(accounts, mint).value == accounts[k];
    FirstLargestIsUnique(accounts, mint, i, k);
  }

  /** The selected account is one of the discovered accounts and holds the target mint. */
  lemma SelectedHasTargetMint(accounts: seq<TokenAccount>, mint: PublicKey)
    requires Select(accounts, mint).Some?
    ensures Select(accounts, mint).value in accounts
    ensures Select(accounts, mint).value.mint == mint
  {
    SelectIsFirstLargest(accounts, mint);
  }

  /** No account of the target mint holds more than the selected one. */
  lemma SelectedIsLargest(accounts: seq<TokenAccount>, mint: PublicKey, other: TokenAccount)
    requires Select(accounts, mint).Some?
    requires other in accounts && other.mint == mint
    ensures other.amount <= Select(accounts, mint).value.amount
  {
    SelectIsFirstLargest(accounts, mint);
  }

  /** Amounts 5, 20, 20 and 3 of the target mint, with an account of another mint in between: the first 20 is chosen. */
  lemma FirstOfTiedMaximaExample(k0: PublicKey, k1: PublicKey, k2: PublicKey, k3: PublicKey, k4: PublicKey,
                                 mint: PublicKey, other: PublicKey)
    requires other != mint
    ensures Select([TokenAccount(k0, mint, 5), TokenAccount(k1, mint, 20), TokenAccount(k4, other, 99),
                    TokenAccount(k2, mint, 20), TokenAccount(k3, mint, 3)], mint)
            == Some(TokenAccount(k1, mint, 20))
  {
    var accounts := [TokenAccount(k0, mint, 5), TokenAccount(k1, mint, 20), TokenAccount(k4, other, 99),
                     TokenAccount(k2, mint, 20), TokenAccount(k3, mint, 3)];
    assert IsFirstLargest(accounts, mint, 1);
    TieGoesToFirstDiscovered(accounts, mint, 1);
  }

  /** One pass over the accounts keeping the first strictly largest balance of the mint; it agrees with the filter-sort-first chain. */
  method SelectSourceAccount(accounts: seq<TokenAccount>, mint: PublicKey) returns (r: Option<TokenAccount>)
    ensures r == Select(accounts, mint)
  {
    r := None;
    var best := 0;
    var k := 0;
    while k < |accounts|
      invariant 0 <= k <= |accounts|
      invariant r.None? ==> forall j :: 0 <= j < k ==> accounts[j].mint != mint
      invariant r.Some? ==> best < k && r.value == accounts[best] && accounts[best].mint == mint
      invariant r.Some? ==>
        forall j :: 0 <= j < k && accounts[j].mint == mint ==> accounts[j].amount <= accounts[best].amount
      invariant r.Some? ==>
        forall j :: 0 <= j < best && accounts[j].mint == mint ==> accounts[j].amount < accounts[best].amount
    {
      var a := accounts[k];
      if a.mint == mint && (r.None? || a.amount > r.value.amount) {
        r := Some(a);
        best := k;
      }
      k := k + 1;
    }
    if r.None? {
      SelectIsFirstLargest(accounts, mint);
    } else {
      TieGoesToFirstDiscovered(accounts, mint, best);
    }
  }
}
