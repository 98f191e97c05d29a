/** The YNAB REST client: endpoint paths and URLs, query parameters, name to id
    resolution, the selected budget, and the requests sent. The server is
    represented by the answers it gives; the requests it receives are kept in
    a ghost log. */
module YnabClient {
  import opened Wrappers
  import opened Transactions
  import opened Conversions

  datatype NameIdPair = NameIdPair(name: string, id: string)

  const BaseUrl := "https://api.ynab.com/v1"

  /** Python truthiness of an optional string argument: given and non-empty. */
  predicate Truthy(s: Option<string>)
  {
    s.Some? && s.value != ""
  }

  /** Truthiness of an optional integer argument: given and non-zero. */
  predicate TruthyNumber(n: Option<int>)
  {
    n.Some? && n.value != 0
  }

  // ---- name to id resolution ----

  /** The id of the first pair whose name is exactly `name`. */
  function LookupId(pairs: seq<NameIdPair>, name: string): Option<string>
  {
    if pairs == [] then None
    else if pairs[0].name == name then Some(pairs[0].id)
    else LookupId(pairs[1..], name)
  }

  /** `LookupId` finds a match exactly when there is one, and then it is the
      id of the earliest match. */
  lemma {:induction false} LookupIdFirst(pairs: seq<NameIdPair>, name: string)
    ensures LookupId(pairs, name).Some? <==> exists i :: 0 <= i < |pairs| && pairs[i].name == name
    ensures LookupId(pairs, name).Some? ==>
      exists i :: && 0 <= i < |pairs| && pairs[i].name == name && pairs[i].id == LookupId(pairs, name).value
                  && forall j :: 0 <= j < i ==> pairs[j].name != name
  {
    if pairs != [] && pairs[0].name != name {
      LookupIdFirst(pairs[1..], name);
      if LookupId(pairs, name).Some? {
        var i :| && 0 <= i < |pairs[1..]| && pairs[1..][i].name == name
                 && pairs[1..][i].id == LookupId(pairs, name).value
                 && forall j :: 0 <= j < i ==> pairs[1..][j].name != name;
        assert pairs[i + 1] == pairs[1..][i];
        assert forall j :: 0 <= j < i + 1 ==> pairs[j].name != name by {
          forall j | 0 <= j < i + 1 ensures pairs[j].name != name {
            if j > 0 { assert pairs[j] == pairs[1..][j - 1]; }
          }
        }
      }
      if exists i :: 0 <= i < |pairs| && pairs[i].name == name {
        var i :| 0 <= i < |pairs| && pairs[i].name == name;
        assert pairs[1..][i - 1] == pairs[i];
      }
    }
  }

  /** The scan of `resolve_budget` and `resolve_account`: return the id of the
      first entry with a matching name, or report that none matched. */
  method FindId(pairs: seq<NameIdPair>, name: string) returns (r: Option<string>)
    ensures r == LookupId(pairs, name)
  {
    var i := 0;
    while i < |pairs|
      invariant 0 <= i <= |pairs|
      invariant LookupId(pairs[i..], name) == LookupId(pairs, name)
    {
      if pairs[i].name == name {
        return Some(pairs[i].id);
      }
      assert pairs[i..][1..] == pairs[i + 1..];
      i := i + 1;
    }
    assert pairs[i..] == [];
    return None;
  }

  // ---- endpoints and URLs ----

  /** `Endpoint.url`: the endpoint must begin with `/`, and is appended to the base URL. */
  function Url(base: string, endpoint: string): (r: Result<string, Error>)
    ensures r.Err? <==> endpoint == [] || endpoint[0] != '/'
    ensures r.Err? ==> r.error == BadEndpoint
    ensures r.Ok? ==> |r.value| == |base| + |endpoint| && r.value[..|base|] == base && r.value[|base|..] == endpoint
  {
    if |endpoint| > 0 && endpoint[0] == '/' then Ok(base + endpoint) else Err(BadEndpoint)
  }

  const BudgetsPath := "/budgets"

  function AccountsPath(budgetId: string): string
  {
    "/budgets/" + budgetId + "/accounts"
  }

  /** `TransactionsEndpoint.endpoint`: scoped to the account when an account id
      is given and non-empty, budget-wide otherwise. */
  function TransactionsPath(budgetId: string, accountId: Option<string>): string
  {
    if Truthy(accountId) then "/budgets/" + budgetId + "/accounts/" + accountId.value + "/transactions"
    else "/budgets/" + budgetId + "/transactions"
  }

  /** All three endpoints begin with `/`, so building their URLs never fails. */
  lemma EndpointUrlsSucceed(budgetId: string, accountId: Option<string>)
    ensures Url(BaseUrl, BudgetsPath) == Ok(BaseUrl + BudgetsPath)
    ensures Url(BaseUrl, AccountsPath(budgetId)) == Ok(BaseUrl + AccountsPath(budgetId))
    ensures Url(BaseUrl, TransactionsPath(budgetId, accountId)) == Ok(BaseUrl + TransactionsPath(budgetId, accountId))
  {
  }

  /** The account-scoped path names the account and differs from the budget-wide one. */
  lemma TransactionsPathScope(budgetId: string, accountId: string)
    requires accountId != ""
    ensures var scoped := TransactionsPath(budgetId, Some(accountId));
            && scoped != TransactionsPath(budgetId, None)
            && scoped[|"/budgets/" + budgetId + "/accounts/"|..][..|accountId|] == accountId
    ensures TransactionsPath(budgetId, Some("")) == TransactionsPath(budgetId, None)
  {
    var prefix := "/budgets/" + budgetId + "/accounts/";
    var scoped := TransactionsPath(budgetId, Some(accountId));
    assert scoped == prefix + (accountId + "/transactions");
    assert |scoped| != |TransactionsPath(budgetId, None)|;
  }

  function BudgetsUrl(): string
  {
    Url(BaseUrl, BudgetsPath).value
  }

  function AccountsUrl(budgetId: string): string
  {
    Url(BaseUrl, AccountsPath(budgetId)).value
  }

  function TransactionsUrl(budgetId: string, accountId: Option<string>): string
  {
    assert TransactionsPath(budgetId, accountId)[0] == '/';
    Url(BaseUrl, TransactionsPath(budgetId, accountId)).value
  }

  // ---- query parameters ----

  type Params = map<string, WireValue>

  /** The `params` of `TransactionsEndpoint.get`: each optional argument is put
      in under its own name when it is truthy. */
  function QueryParams(sinceDate: Option<string>, txnType: Option<string>, lastKnowledge: Option<int>): (p: Params)
    ensures p.Keys <= {"since_date", "type", "last_knowledge_of_server"}
    ensures "since_date" in p <==> Truthy(sinceDate)
    ensures "type" in p <==> Truthy(txnType)
    ensures "last_knowledge_of_server" in p <==> TruthyNumber(lastKnowledge)
    ensures "since_date" in p ==> p["since_date"] == Text(sinceDate.value)
    ensures "type" in p ==> p["type"] == Text(txnType.value)
    ensures "last_knowledge_of_server" in p ==> p["last_knowledge_of_server"] == Number(lastKnowledge.value)
  {
    var p0: Params := map[];
    var p1 := if Truthy(sinceDate) then p0["since_date" := Text(sinceDate.value)] else p0;
    var p2 := if Truthy(txnType) then p1["type" := Text(txnType.value)] else p1;
    if TruthyNumber(lastKnowledge) then p2["last_knowledge_of_server" := Number(lastKnowledge.value)] else p2
  }

  /** With no optional argument the request carries no parameters. */
  lemma QueryParamsNone()
    ensures QueryParams(None, None, None) == map[]
  {
  }

  // ---- the client ----

  /** A GET with its query parameters, or a POST with its JSON `transactions` list. */
  datatype Request = Get(url: string, params: Params) | Post(url: string, batch: seq<WireDict>)

  /** What a transactions GET is identified by. */
  datatype Query = Query(url: string, params: Params)

  /** The two forms the `budget` setter accepts. */
  datatype BudgetArg = ByName(name: string) | ByPair(pair: NameIdPair)

  /** `YnabApi`. The server's answers are fixed: the budgets list, the accounts
      of each budget (by budget id) and the transaction records of each query;
      a GET the server has no answer for fails as `raise_for_status` would. */
  class YnabApi {
    const budgets: seq<NameIdPair>
    const accounts: map<string, seq<NameIdPair>>
    const records: map<Query, seq<YnabRecord>>
    /** `self._budget`, the selected budget. */
    var current: NameIdPair
    ghost var log: seq<Request>

    /** The default budget is the first one listed; reading it is a GET. */
    constructor(budgets: seq<NameIdPair>, accounts: map<string, seq<NameIdPair>>, records: map<Query, seq<YnabRecord>>)
      requires |budgets| > 0
      ensures this.budgets == budgets && this.accounts == accounts && this.records == records
      ensures current == budgets[0]
      ensures log == [Get(BudgetsUrl(), map[])]
    {
      this.budgets := budgets;
      this.accounts := accounts;
      this.records := records;
      current := budgets[0];
      log := [Get(BudgetsUrl(), map[])];
    }

    /** Opening a client on a server that lists no budgets raises (`budgets[0]`). */
    static method Connect(budgets: seq<NameIdPair>, accounts: map<string, seq<NameIdPair>>, records: map<Query, seq<YnabRecord>>)
      returns (r: Result<YnabApi, Error>)
      ensures r.Err? <==> |budgets| == 0
      ensures r.Err? ==> r.error == IndexOutOfRange
      ensures r.Ok? ==> && fresh(r.value) && r.value.current == budgets[0]
                        && r.value.budgets == budgets && r.value.accounts == accounts && r.value.records == records
                        && r.value.log == [Get(BudgetsUrl(), map[])]
    {
      if |budgets| == 0 {
        return Err(IndexOutOfRange);
      }
      var api := new YnabApi(budgets, accounts, records);
      return Ok(api);
    }

    /** The `budget` property: the selected budget's name. */
    function Budget(): string
      reads this
    {
      current.name
    }

    /** The outcome of `resolve_budget(name)`. */
    function BudgetLookup(name: string): Result<string, Error>
    {
      match LookupId(budgets, name)
      case None => Err(UnknownBudget(name))
      case Some(id) => Ok(id)
    }

    /** The outcome of `resolve_account(name)` while budget `budgetId` is selected. */
    function AccountLookup(budgetId: string, name: string): Result<string, Error>
    {
      if budgetId !in accounts then Err(HttpFailure(AccountsUrl(budgetId)))
      else
        match LookupId(accounts[budgetId], name)
        case None => Err(UnknownAccount(name))
        case Some(id) => Ok(id)
    }

    method ResolveBudget(name: string) returns (r: Result<string, Error>)
      modifies this`log
      ensures r == BudgetLookup(name)
      ensures log == old(log) + [Get(BudgetsUrl(), map[])]
    {
      log := log + [Get(BudgetsUrl(), map[])];
      var found := FindId(budgets, name);
      match found
      case None => return Err(UnknownBudget(name));
      case Some(id) => return Ok(id);
    }

    method ResolveAccount(name: string) returns (r: Result<string, Error>)
      modifies this`log
      ensures r == AccountLookup(current.id, name)
      ensures log == old(log) + [Get(AccountsUrl(current.id), map[])]
    {
      var url := AccountsUrl(current.id);
      log := log + [Get(url, map[])];
      if current.id !in accounts {
        return Err(HttpFailure(url));
      }
      var found := FindId(accounts[current.id], name);
      match found
      case None => return Err(UnknownAccount(name));
      case Some(id) => return Ok(id);
    }

    /** The `budget` setter: a name is resolved first (and a failed resolution
        leaves the selection as it was); a pair is stored as it is. */
    method SetBudget(arg: BudgetArg) returns (err: Option<Error>)
      modifies this`current, this`log
      ensures arg.ByPair? ==> err == None && current == arg.pair && log == old(log)
      ensures arg.ByName? ==> log == old(log) + [Get(BudgetsUrl(), map[])]
      ensures arg.ByName? && BudgetLookup(arg.name).Err? ==>
                err == Some(BudgetLookup(arg.name).error) && current == old(current)
      ensures arg.ByName? && BudgetLookup(arg.name).Ok? ==>
                err == None && current == NameIdPair(arg.name, BudgetLookup(arg.name).value)
      ensures err == None ==> Budget() == (if arg.ByName? then arg.name else arg.pair.name)
    {
      match arg
      case ByPair(p) =>
        current := p;
        return None;
      case ByName(name) =>
        var id := ResolveBudget(name);
        if id.Err? {
          return Some(id.error);
        }
        current := NameIdPair(name, id.value);
        return None;
    }

    /** The answer the server gives to a transactions query. */
    function RecordsAnswer(q: Query): Result<seq<Transaction>, Error>
    {
      if q in records then YnabFromList(records[q]) else Err(HttpFailure(q.url))
    }

    /** The outcome of `transactions.get(account_name, ...)` while budget `budgetId` is selected. */
    function GetOutcome(budgetId: string, accountName: Option<string>, params: Params): Result<seq<Transaction>, Error>
    {
      if Truthy(accountName) then
        match AccountLookup(budgetId, accountName.value)
        case Err(e) => Err(e)
        case Ok(id) => RecordsAnswer(Query(TransactionsUrl(budgetId, Some(id)), params))
      else RecordsAnswer(Query(TransactionsUrl(budgetId, None), params))
    }

    /** The requests `transactions.get` sends: the account lookup when an
        account is named, then the transactions query unless the lookup failed. */
    ghost function GetRequests(budgetId: string, accountName: Option<string>, params: Params): seq<Request>
    {
      if Truthy(accountName) then
        [Get(AccountsUrl(budgetId), map[])] +
        match AccountLookup(budgetId, accountName.value)
        case Err(_) => []
        case Ok(id) => [Get(TransactionsUrl(budgetId, Some(id)), params)]
      else [Get(TransactionsUrl(budgetId, None), params)]
    }

    /** `TransactionsEndpoint.get`. */
    method GetTransactions(accountName: Option<string>, sinceDate: Option<string>, txnType: Option<string>,
                           lastKnowledge: Option<int>)
      returns (r: Result<seq<Transaction>, Error>)
      modifies this`log
      ensures r == GetOutcome(current.id, accountName, QueryParams(sinceDate, txnType, lastKnowledge))
      ensures log == old(log) + GetRequests(current.id, accountName, QueryParams(sinceDate, txnType, lastKnowledge))
    {
      var accountId: Option<string> := None;
      if Truthy(accountName) {
        var resolved := ResolveAccount(accountName.value);
        if resolved.Err? {
          return Err(resolved.error);
        }
        accountId := Some(resolved.value);
      }
      var params := QueryParams(sinceDate, txnType, lastKnowledge);
      var url := TransactionsUrl(current.id, accountId);
      log := log + [Get(url, params)];
      if Query(url, params) !in records {
        return Err(HttpFailure(url));
      }
      return YnabFromList(records[Query(url, params)]);
    }

    /** The outcome of `transactions.post(account_name, ts)` while budget `budgetId` is selected. */
    function PostOutcome(budgetId: string, accountName: string, ts: seq<Transaction>): Option<Error>
    {
      if |ts| == 0 then Some(EmptyBatch)
      else
        match AccountLookup(budgetId, accountName)
        case Err(e) => Some(e)
        case Ok(_) => None
    }

    /** The requests `transactions.post` sends: none for an empty batch; else
        the account lookup, then the converted batch to the budget-wide path. */
    ghost function PostRequests(budgetId: string, accountName: string, ts: seq<Transaction>): seq<Request>
      requires AllValid(ts)
    {
      if |ts| == 0 then []
      else
        [Get(AccountsUrl(budgetId), map[])] +
        match AccountLookup(budgetId, accountName)
        case Err(_) => []
        case Ok(id) => [Post(TransactionsUrl(budgetId, None), WireBatch(id, ts))]
    }

    /** `TransactionsEndpoint.post`: an empty batch is refused before anything is
        sent; otherwise the account is resolved and the converted batch is sent
        to the budget-wide transactions path. */
    method PostTransactions(accountName: string, ts: seq<Transaction>) returns (err: Option<Error>)
      requires AllValid(ts)
      modifies this`log
      ensures err == PostOutcome(current.id, accountName, ts)
      ensures log == old(log) + PostRequests(current.id, accountName, ts)
    {
      if |ts| == 0 {
        return Some(EmptyBatch);
      }
      var accountId := ResolveAccount(accountName);
      if accountId.Err? {
        return Some(accountId.error);
      }
      var batch := ToYnab(accountId.value, ts);
      log := log + [Post(TransactionsUrl(current.id, None), batch)];
      return None;
    }
  }

  /** `resolve_account` returns the id of the first account whose name matches
      exactly, and fails with the name when none does. */
  lemma AccountLookupFirstMatch(api: YnabApi, budgetId: string, name: string)
    requires budgetId in api.accounts
    ensures var pairs := api.accounts[budgetId];
            && (api.AccountLookup(budgetId, name).Err? <==> forall i :: 0 <= i < |pairs| ==> pairs[i].name != name)
            && (api.AccountLookup(budgetId, name).Err? ==> api.AccountLookup(budgetId, name).error == UnknownAccount(name))
            && (api.AccountLookup(budgetId, name).Ok? ==>
                  exists i :: && 0 <= i < |pairs| && pairs[i].name == name
                              && pairs[i].id == api.AccountLookup(budgetId, name).value
                              && forall j :: 0 <= j < i ==> pairs[j].name != name)
  {
    LookupIdFirst(api.accounts[budgetId], name);
  }

  /** `resolve_budget` behaves the same way over the budgets list. */
  lemma BudgetLookupFirstMatch(api: YnabApi, name: string)
    ensures && (api.BudgetLookup(name).Err? <==> forall i :: 0 <= i < |api.budgets| ==> api.budgets[i].name != name)
            && (api.BudgetLookup(name).Err? ==> api.BudgetLookup(name).error == UnknownBudget(name))
            && (api.BudgetLookup(name).Ok? ==>
                  exists i :: && 0 <= i < |api.budgets| && api.budgets[i].name == name
                              && api.budgets[i].id == api.BudgetLookup(name).value
                              && forall j :: 0 <= j < i ==> api.budgets[j].name != name)
  {
    LookupIdFirst(api.budgets, name);
  }

  /** Without an account name, `get` sends exactly one request, budget-wide, and
      its outcome is the server's answer to that query. */
  lemma GetWithoutAccount(api: YnabApi, budgetId: string, accountName: Option<string>, params: Params)
    requires !Truthy(accountName)
    ensures api.GetRequests(budgetId, accountName, params) == [Get(BaseUrl + "/budgets/" + budgetId + "/transactions", params)]
    ensures api.GetOutcome(budgetId, accountName, params)
            == api.RecordsAnswer(Query(BaseUrl + "/budgets/" + budgetId + "/transactions", params))
  {
    assert TransactionsUrl(budgetId, None) == BaseUrl + ("/budgets/" + budgetId + "/transactions");
    assert BaseUrl + ("/budgets/" + budgetId + "/transactions") == BaseUrl + "/budgets/" + budgetId + "/transactions";
  }

  /** An empty batch is refused with nothing sent, whatever the account. */
  lemma PostEmptyBatch(api: YnabApi, budgetId: string, accountName: string)
    ensures api.PostOutcome(budgetId, accountName, []) == Some(EmptyBatch)
    ensures api.PostRequests(budgetId, accountName, []) == []
  {
  }

  /** A batch is posted exactly when it is non-empty and the account resolves;
      it then goes to the budget-wide path, converted with the resolved id. */
  lemma PostSendsBatch(api: YnabApi, budgetId: string, accountName: string, ts: seq<Transaction>)
    requires AllValid(ts)
    ensures api.PostOutcome(budgetId, accountName, ts) == None <==> |ts| > 0 && api.AccountLookup(budgetId, accountName).Ok?
    ensures api.PostOutcome(budgetId, accountName, ts) == None ==>
      var reqs := api.PostRequests(budgetId, accountName, ts);
      && |reqs| == 2 && reqs[1].Post?
      && reqs[1].url == BaseUrl + "/budgets/" + budgetId + "/transactions"
      && |reqs[1].batch| == |ts|
      && forall i :: 0 <= i < |ts| ==>
           reqs[1].batch[i] == WireOf(api.AccountLookup(budgetId, accountName).value, ts[i])
  {
    assert TransactionsUrl(budgetId, None) == BaseUrl + ("/budgets/" + budgetId + "/transactions");
    assert BaseUrl + ("/budgets/" + budgetId + "/transactions") == BaseUrl + "/budgets/" + budgetId + "/transactions";
  }

  /** A failed account lookup stops `get` before the transactions query. */
  lemma GetUnknownAccount(api: YnabApi, budgetId: string, name: string, params: Params)
    requires name != "" && api.AccountLookup(budgetId, name).Err?
    ensures api.GetRequests(budgetId, Some(name), params) == [Get(AccountsUrl(budgetId), map[])]
    ensures api.GetOutcome(budgetId, Some(name), params) == Err(api.AccountLookup(budgetId, name).error)
  {
  }
}
