/** What the contracts' balance views answer over any run. */
module Views {
  import opened Lists
  import opened Ledgers
  import opened Tezos
  import opened World
  import opened TokenHistory
  import FA2
  import Custodian

  /** What `view_balance_of` of a custodian answers for each client. */
  function ClientView(s: Custodian.Storage, t: Token): Bytes -> int {
    (kyc: Bytes) => Custodian.ViewBalanceOf(Holding(kyc, t), s)
  }

  /** What `view_balance_of` of a token contract answers for each account. */
  function AccountView(s: FA2.Storage, id: nat): Address -> int {
    (a: Address) => FA2.ViewBalanceOf(Holding(a, id), s)
  }

  /** Over any run a custodian's view, asked for each of any set of clients that includes all holders of a
      token, answers balances that sum to the cached external balance. */
  lemma ClientViewsSumToCache(w: World, calls: seq<Call>, c: Address, t: Token, clients: set<Bytes>)
    requires Genesis(w) && c in Run(w, calls).custodians
    requires Holders(Run(w, calls).custodians[c].ledger, t) <= clients
    ensures var s := Run(w, calls).custodians[c];
            SumOver(ClientView(s, t), clients) == Get(s.externalLedger, t)
  {
    RunIsSound(w, calls);
    TotalIsSum(Run(w, calls).custodians[c].ledger, t, clients, ClientView(Run(w, calls).custodians[c], t));
  }

  /** Over any run a token contract's view, asked for each of any set of accounts that includes all holders
      of an id, answers balances that sum to what was minted less what was retired. */
  lemma AccountViewsSumToSupply(w: World, calls: seq<Call>, a: Address, id: nat, accounts: set<Address>)
    requires Genesis(w) && a in w.tokens && a in Run(w, calls).tokens
    requires Holders(Run(w, calls).tokens[a].ledger, id) <= accounts
    ensures var w' := Run(w, calls);
            SumOver(AccountView(w'.tokens[a], id), accounts) ==
            Sum(MintedBy(id), History(w', a)) - Sum(RetiredBy(id), Gather(EventsOf(a), w'.events))
  {
    SupplyConserved(w, calls, a, id);
    TotalIsSum(Run(w, calls).tokens[a].ledger, id, accounts, AccountView(Run(w, calls).tokens[a], id));
  }
}
