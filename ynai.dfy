/** The command-line driver: deduplicating a statement against YNAB, the upload
    command, source detection, and the listing commands. Files are given as a
    map from path to the rows their CSV reader yields; a path that is not in
    the map does not exist. */
module Ynai {
  import opened Wrappers
  import opened Civil
  import opened Transactions
  import opened Conversions
  import opened YnabClient

  type Files = map<string, seq<seq<string>>>

  // ---- deduplication ----

  /** `t in existing`: some existing transaction compares equal to `t`. */
  predicate Matches(t: Transaction, existing: seq<Transaction>)
  {
    exists i :: 0 <= i < |existing| && FuzzyEqual(existing[i], t)
  }

  /** `[t for t in source if t not in existing]`. */
  function NewTransactions(candidates: seq<Transaction>, existing: seq<Transaction>): (r: seq<Transaction>)
    ensures |r| <= |candidates|
    ensures forall t :: t in r <==> t in candidates && !Matches(t, existing)
  {
    if candidates == [] then []
    else
      var rest := NewTransactions(candidates[1..], existing);
      assert forall t :: t in candidates <==> t == candidates[0] || t in candidates[1..];
      if Matches(candidates[0], existing) then rest else [candidates[0]] + rest
  }

  /** The filter works row by row: filtering a concatenation concatenates the
      filtered parts, so the kept transactions stay in source order. */
  lemma {:induction false} NewTransactionsAppend(a: seq<Transaction>, b: seq<Transaction>, existing: seq<Transaction>)
    ensures NewTransactions(a + b, existing) == NewTransactions(a, existing) + NewTransactions(b, existing)
  {
    if a == [] {
      assert a + b == b;
    } else {
      assert (a + b)[0] == a[0];
      assert (a + b)[1..] == a[1..] + b;
      NewTransactionsAppend(a[1..], b, existing);
      if !Matches(a[0], existing) {
        var x, y := NewTransactions(a[1..], existing), NewTransactions(b, existing);
        assert [a[0]] + (x + y) == ([a[0]] + x) + y;
      }
    }
  }

  /** Each unmatched candidate is kept as many times as it occurs (the source
      list is not deduplicated against itself); each matched one is dropped. */
  lemma {:induction false} NewTransactionsCount(candidates: seq<Transaction>, existing: seq<Transaction>, t: Transaction)
    ensures multiset(NewTransactions(candidates, existing))[t] == if Matches(t, existing) then 0 else multiset(candidates)[t]
  {
    if candidates != [] {
      NewTransactionsCount(candidates[1..], existing, t);
      assert candidates == [candidates[0]] + candidates[1..];
    }
  }

  /** Against an empty YNAB account every candidate is new. */
  lemma {:induction false} NewTransactionsNoExisting(candidates: seq<Transaction>)
    ensures NewTransactions(candidates, []) == candidates
  {
    if candidates != [] {
      NewTransactionsNoExisting(candidates[1..]);
    }
  }

  /** When every candidate has a match, nothing is new. */
  lemma NewTransactionsAllMatched(candidates: seq<Transaction>, existing: seq<Transaction>)
    requires forall i :: 0 <= i < |candidates| ==> Matches(candidates[i], existing)
    ensures NewTransactions(candidates, existing) == []
  {
  }

  /** Deduplicating against two lists at once is deduplicating against each in turn. */
  lemma {:induction false} NewTransactionsTwice(candidates: seq<Transaction>, e1: seq<Transaction>, e2: seq<Transaction>)
    ensures NewTransactions(candidates, e1 + e2) == NewTransactions(NewTransactions(candidates, e1), e2)
  {
    if candidates != [] {
      NewTransactionsTwice(candidates[1..], e1, e2);
      var c := candidates[0];
      if Matches(c, e1) {
        var i :| 0 <= i < |e1| && FuzzyEqual(e1[i], c);
        assert (e1 + e2)[i] == e1[i];
      } else if Matches(c, e2) {
        var i :| 0 <= i < |e2| && FuzzyEqual(e2[i], c);
        assert (e1 + e2)[|e1| + i] == e2[i];
      } else {
        forall i | 0 <= i < |e1 + e2| ensures !FuzzyEqual((e1 + e2)[i], c) {
          if i < |e1| { assert (e1 + e2)[i] == e1[i]; } else { assert (e1 + e2)[i] == e2[i - |e1|]; }
        }
        assert [c] + NewTransactions(candidates[1..], e1) == NewTransactions(candidates, e1);
      }
    }
  }

  /** Because matching is not transitive, two statement lines three days apart
      are both taken as already present when one YNAB entry lies between them,
      and repeated statement lines are all kept when no entry matches. */
  lemma DeduplicationScenario()
    ensures var a := Transaction(DateTime(2023, 3, 1, 0, 0, 0), "A", "", 1500);
            var b := Transaction(DateTime(2023, 3, 2, 12, 0, 0), "B", "", 1500);
            var c := Transaction(DateTime(2023, 3, 4, 0, 0, 0), "C", "", 1500);
            && !FuzzyEqual(a, c)
            && NewTransactions([a, c], [b]) == []
            && NewTransactions([a, a], [c]) == [a, a]
  {
    var a := Transaction(DateTime(2023, 3, 1, 0, 0, 0), "A", "", 1500);
    var b := Transaction(DateTime(2023, 3, 2, 12, 0, 0), "B", "", 1500);
    var c := Transaction(DateTime(2023, 3, 4, 0, 0, 0), "C", "", 1500);
    FuzzyEqualNotTransitive();
    assert Matches(a, [b]) && Matches(c, [b]) by {
      assert [b][0] == b;
    }
    NewTransactionsAllMatched([a, c], [b]);
    assert !Matches(a, [c]);
    assert [a, a][1..] == [a];
  }

  // ---- listing ----

  /** `get_list_from_ynab`: the names in list order, or `"<id> <name>"` when verbose. */
  function ListLines(verbose: nat, pairs: seq<NameIdPair>): (lines: seq<string>)
    ensures |lines| == |pairs|
  {
    if pairs == [] then []
    else
      [if verbose == 0 then pairs[0].name else pairs[0].id + " " + pairs[0].name] + ListLines(verbose, pairs[1..])
  }

  /** Line `i` names entry `i`, and the verbose line is the plain one with the
      id and a space in front. */
  lemma {:induction false} ListLinesAt(verbose: nat, pairs: seq<NameIdPair>, i: nat)
    requires i < |pairs|
    ensures ListLines(0, pairs)[i] == pairs[i].name
    ensures verbose > 0 ==> ListLines(verbose, pairs)[i] == pairs[i].id + " " + ListLines(0, pairs)[i]
  {
    if i > 0 {
      ListLinesAt(verbose, pairs[1..], i - 1);
    }
  }

  /** `list budgets`. */
  method BudgetsCommand(api: YnabApi, verbose: nat) returns (lines: seq<string>)
    modifies api`log
    ensures lines == ListLines(verbose, api.budgets)
    ensures api.log == old(api.log) + [Get(BudgetsUrl(), map[])]
  {
    api.log := api.log + [Get(BudgetsUrl(), map[])];
    lines := ListLines(verbose, api.budgets);
  }

  /** `list accounts`: the accounts of the selected budget. */
  method AccountsCommand(api: YnabApi, verbose: nat) returns (r: Result<seq<string>, Error>)
    modifies api`log
    ensures api.current.id in api.accounts ==> r == Ok(ListLines(verbose, api.accounts[api.current.id]))
    ensures api.current.id !in api.accounts ==> r == Err(HttpFailure(AccountsUrl(api.current.id)))
    ensures api.log == old(api.log) + [Get(AccountsUrl(api.current.id), map[])]
  {
    api.log := api.log + [Get(AccountsUrl(api.current.id), map[])];
    if api.current.id !in api.accounts {
      return Err(HttpFailure(AccountsUrl(api.current.id)));
    }
    return Ok(ListLines(verbose, api.accounts[api.current.id]));
  }

  // ---- source detection ----

  /** `resolve_source`: a source that names an existing file is a Venmo
      statement, and any error reading it propagates; otherwise the source is
      taken as a YNAB account name, and any failure there becomes "Could not
      detect source". */
  method ResolveSource(source: string, files: Files, api: YnabApi) returns (r: Result<seq<Transaction>, Error>)
    modifies api`log
    ensures source in files ==> r == ListFrom(files[source]) && api.log == old(api.log)
    ensures source !in files ==>
      && api.log == old(api.log) + api.GetRequests(api.current.id, Some(source), QueryParams(None, None, None))
      && var fetched := api.GetOutcome(api.current.id, Some(source), QueryParams(None, None, None));
         r == if fetched.Ok? then fetched else Err(UndetectedSource)
  {
    if source in files {
      return ListFrom(files[source]);
    }
    var fetched := api.GetTransactions(Some(source), None, None, None);
    if fetched.Err? {
      return Err(UndetectedSource);
    }
    return fetched;
  }

  // ---- upload ----

  /** What `upload` reports: nothing to do, or the transactions it uploaded
      (or, in a dry run, would have uploaded). */
  datatype UploadOutcome = NothingToUpload | Uploaded(batch: seq<Transaction>)

  /** Reading the statement at `path`: a missing file is reported by name. */
  function Statement(path: string, files: Files): (r: Result<seq<Transaction>, Error>)
    ensures path !in files ==> r == Err(NoSuchFile(path))
    ensures path in files ==> r == ListFrom(files[path])
    ensures r.Ok? ==> AllValid(r.value)
  {
    if path !in files then Err(NoSuchFile(path))
    else
      var read := ListFrom(files[path]);
      if read.Ok? then ListFromValid(files[path]); read else read
  }

  /** The query `upload` fetches the account's transactions with. */
  function NoParams(): Params
  {
    QueryParams(None, None, None)
  }

  /** The statement transactions not yet in the account: the statement is read
      first, then the account's transactions are fetched. */
  function Unseen(api: YnabApi, budgetId: string, account: string, path: string, files: Files)
    : (r: Result<seq<Transaction>, Error>)
    ensures r.Ok? ==> AllValid(r.value)
  {
    match Statement(path, files)
    case Err(e) => Err(e)
    case Ok(statement) =>
      match api.GetOutcome(budgetId, Some(account), NoParams())
      case Err(e) => Err(e)
      case Ok(existing) =>
        var unseen := NewTransactions(statement, existing);
        assert forall i :: 0 <= i < |unseen| ==> unseen[i] in statement;
        Ok(unseen)
  }

  /** The requests sent while finding the new transactions. */
  ghost function FetchRequests(api: YnabApi, budgetId: string, account: string, path: string, files: Files)
    : seq<Request>
  {
    if Statement(path, files).Ok? then api.GetRequests(budgetId, Some(account), NoParams()) else []
  }

  /** The last step of `upload`: report nothing to do, report a dry run, or post. */
  function DeliverResult(api: YnabApi, budgetId: string, account: string, unseen: seq<Transaction>, dryRun: bool)
    : Result<UploadOutcome, Error>
  {
    if unseen == [] then Ok(NothingToUpload)
    else if dryRun then Ok(Uploaded(unseen))
    else
      match api.PostOutcome(budgetId, account, unseen)
      case Some(e) => Err(e)
      case None => Ok(Uploaded(unseen))
  }

  ghost function DeliverRequests(api: YnabApi, budgetId: string, account: string, unseen: seq<Transaction>, dryRun: bool)
    : seq<Request>
    requires AllValid(unseen)
  {
    if unseen == [] || dryRun then [] else api.PostRequests(budgetId, account, unseen)
  }

  /** The outcome of `upload` while budget `budgetId` is selected. */
  function UploadResult(api: YnabApi, budgetId: string, account: string, path: string, files: Files, dryRun: bool)
    : Result<UploadOutcome, Error>
  {
    match Unseen(api, budgetId, account, path, files)
    case Err(e) => Err(e)
    case Ok(unseen) => DeliverResult(api, budgetId, account, unseen, dryRun)
  }

  /** The requests `upload` sends while budget `budgetId` is selected. */
  ghost function UploadRequests(api: YnabApi, budgetId: string, account: string, path: string, files: Files, dryRun: bool)
    : seq<Request>
  {
    FetchRequests(api, budgetId, account, path, files) +
    match Unseen(api, budgetId, account, path, files)
    case Err(_) => []
    case Ok(unseen) => DeliverRequests(api, budgetId, account, unseen, dryRun)
  }

  /** `UploadCommand.execute`. */
  method Upload(account: string, source: string, dryRun: bool, files: Files, api: YnabApi)
    returns (r: Result<UploadOutcome, Error>)
    modifies api`log
    ensures r == UploadResult(api, api.current.id, account, source, files, dryRun)
    ensures api.log == old(api.log) + UploadRequests(api, api.current.id, account, source, files, dryRun)
  {
    var statement := Statement(source, files);
    if statement.Err? {
      return Err(statement.error);
    }
    var existing := api.GetTransactions(Some(account), None, None, None);
    if existing.Err? {
      return Err(existing.error);
    }
    var unseen := NewTransactions(statement.value, existing.value);
    assert Unseen(api, api.current.id, account, source, files) == Ok(unseen);
    r := Deliver(account, unseen, dryRun, api);
  }

  /** The last step of `UploadCommand.execute`, once the new transactions are known. */
  method Deliver(account: string, unseen: seq<Transaction>, dryRun: bool, api: YnabApi)
    returns (r: Result<UploadOutcome, Error>)
    requires AllValid(unseen)
    modifies api`log
    ensures r == DeliverResult(api, api.current.id, account, unseen, dryRun)
    ensures api.log == old(api.log) + DeliverRequests(api, api.current.id, account, unseen, dryRun)
  {
    if unseen == [] {
      return Ok(NothingToUpload);
    }
    if !dryRun {
      var err := api.PostTransactions(account, unseen);
      if err.Some? {
        return Err(err.value);
      }
    }
    return Ok(Uploaded(unseen));
  }

  /** The number of POST requests among `reqs`. */
  function PostCount(reqs: seq<Request>): nat
  {
    if reqs == [] then 0 else (if reqs[0].Post? then 1 else 0) + PostCount(reqs[1..])
  }

  lemma {:induction false} PostCountAppend(a: seq<Request>, b: seq<Request>)
    ensures PostCount(a + b) == PostCount(a) + PostCount(b)
  {
    if a == [] {
      assert a + b == b;
    } else {
      assert (a + b)[0] == a[0];
      assert (a + b)[1..] == a[1..] + b;
      PostCountAppend(a[1..], b);
    }
  }

  lemma {:induction false} PostCountNone(reqs: seq<Request>)
    requires forall i :: 0 <= i < |reqs| ==> !reqs[i].Post?
    ensures PostCount(reqs) == 0
  {
    if reqs != [] {
      assert forall i :: 0 <= i < |reqs[1..]| ==> reqs[1..][i] == reqs[i + 1];
      PostCountNone(reqs[1..]);
    }
  }

  /** Fetching transactions never posts anything. */
  lemma GetPostsNothing(api: YnabApi, budgetId: string, accountName: Option<string>, params: Params)
    ensures PostCount(api.GetRequests(budgetId, accountName, params)) == 0
  {
    PostCountNone(api.GetRequests(budgetId, accountName, params));
  }

  lemma FetchPostsNothing(api: YnabApi, budgetId: string, account: string, path: string, files: Files)
    ensures PostCount(FetchRequests(api, budgetId, account, path, files)) == 0
  {
    if Statement(path, files).Ok? {
      GetPostsNothing(api, budgetId, Some(account), NoParams());
    }
  }

  /** A missing statement file is reported by name, and nothing is fetched or posted. */
  lemma UploadMissingFile(api: YnabApi, budgetId: string, account: string, path: string, files: Files, dryRun: bool)
    requires path !in files
    ensures UploadResult(api, budgetId, account, path, files, dryRun) == Err(NoSuchFile(path))
    ensures UploadRequests(api, budgetId, account, path, files, dryRun) == []
  {
  }

  /** What `upload` reports as uploaded is the new part of the statement, in
      statement order, and is the same whether or not the run is dry. */
  lemma UploadReportsNewTransactions(api: YnabApi, budgetId: string, account: string, path: string, files: Files,
                                     batch: seq<Transaction>)
    requires UploadResult(api, budgetId, account, path, files, true) == Ok(Uploaded(batch))
    ensures Statement(path, files).Ok? && api.GetOutcome(budgetId, Some(account), NoParams()).Ok?
    ensures batch == NewTransactions(Statement(path, files).value, api.GetOutcome(budgetId, Some(account), NoParams()).value)
    ensures batch != []
    ensures api.PostOutcome(budgetId, account, batch) == None ==>
              UploadResult(api, budgetId, account, path, files, false) == Ok(Uploaded(batch))
  {
  }

  /** With nothing new, `upload` returns before posting. */
  lemma UploadNothingNew(api: YnabApi, budgetId: string, account: string, path: string, files: Files, dryRun: bool)
    requires Unseen(api, budgetId, account, path, files) == Ok([])
    ensures UploadResult(api, budgetId, account, path, files, dryRun) == Ok(NothingToUpload)
    ensures PostCount(UploadRequests(api, budgetId, account, path, files, dryRun)) == 0
  {
    var fetch := FetchRequests(api, budgetId, account, path, files);
    FetchPostsNothing(api, budgetId, account, path, files);
    assert UploadRequests(api, budgetId, account, path, files, dryRun) == fetch + [];
    assert fetch + [] == fetch;
  }

  /** A dry run never posts. */
  lemma UploadDryRunPostsNothing(api: YnabApi, budgetId: string, account: string, path: string, files: Files)
    ensures PostCount(UploadRequests(api, budgetId, account, path, files, true)) == 0
  {
    var fetch := FetchRequests(api, budgetId, account, path, files);
    FetchPostsNothing(api, budgetId, account, path, files);
    assert UploadRequests(api, budgetId, account, path, files, true) == fetch + [];
    assert fetch + [] == fetch;
  }

  /** Posting a non-empty batch to a resolvable account sends one POST, last. */
  lemma DeliverPostsOnce(api: YnabApi, budgetId: string, account: string, unseen: seq<Transaction>)
    requires AllValid(unseen) && unseen != [] && api.AccountLookup(budgetId, account).Ok?
    ensures var reqs := DeliverRequests(api, budgetId, account, unseen, false);
            && PostCount(reqs) == 1
            && reqs[|reqs| - 1] == Post(TransactionsUrl(budgetId, None), WireBatch(api.AccountLookup(budgetId, account).value, unseen))
  {
    var reqs := DeliverRequests(api, budgetId, account, unseen, false);
    var last := Post(TransactionsUrl(budgetId, None), WireBatch(api.AccountLookup(budgetId, account).value, unseen));
    assert reqs == [Get(AccountsUrl(budgetId), map[])] + [last];
    assert reqs[1..] == [last] && reqs[1..][1..] == [];
    assert PostCount(reqs[1..]) == 1;
  }

  /** A successful upload that is not a dry run posts exactly once, and the
      batch posted is the reported list converted for the account. */
  lemma UploadPostsOnce(api: YnabApi, budgetId: string, account: string, path: string, files: Files,
                        batch: seq<Transaction>)
    requires UploadResult(api, budgetId, account, path, files, false) == Ok(Uploaded(batch))
    ensures AllValid(batch) && api.AccountLookup(budgetId, account).Ok?
    ensures var reqs := UploadRequests(api, budgetId, account, path, files, false);
            && PostCount(reqs) == 1
            && reqs[|reqs| - 1] == Post(TransactionsUrl(budgetId, None), WireBatch(api.AccountLookup(budgetId, account).value, batch))
  {
    assert Unseen(api, budgetId, account, path, files) == Ok(batch);
    var fetch := FetchRequests(api, budgetId, account, path, files);
    var post := DeliverRequests(api, budgetId, account, batch, false);
    assert UploadRequests(api, budgetId, account, path, files, false) == fetch + post;
    FetchPostsNothing(api, budgetId, account, path, files);
    DeliverPostsOnce(api, budgetId, account, batch);
    PostCountAppend(fetch, post);
    assert (fetch + post)[|fetch + post| - 1] == post[|post| - 1];
  }

  /** Everything `upload` sends in a batch is new: no transaction in it is
      equal to one already in the account. */
  lemma UploadedAreNew(candidates: seq<Transaction>, existing: seq<Transaction>, t: Transaction, e: Transaction)
    requires t in NewTransactions(candidates, existing) && e in existing
    ensures !FuzzyEqual(e, t) && !FuzzyEqual(t, e)
  {
    var i :| 0 <= i < |existing| && existing[i] == e;
  }
}
