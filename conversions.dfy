/** Converting canonical transactions into the dictionaries the YNAB API accepts. */
module Conversions {
  import opened Wrappers
  import opened Civil
  import opened Transactions

  /** A value in a transaction dictionary: text, an integer, or a `datetime`. */
  datatype WireValue = Text(text: string) | Number(number: int) | Stamp(stamp: DateTime)

  type WireDict = map<string, WireValue>

  /** The transactions handed to the converter hold real `datetime` values. */
  predicate AllValid(ts: seq<Transaction>)
  {
    forall i :: 0 <= i < |ts| ==> Valid(ts[i].date)
  }

  /** `dataclasses.asdict(t)`: one entry per field, under the field's name. */
  function AsDict(t: Transaction): (d: WireDict)
    ensures d.Keys == {"date", "payee", "memo", "amount"}
  {
    map["date" := Stamp(t.date), "payee" := Text(t.payee), "memo" := Text(t.memo), "amount" := Number(t.amount)]
  }

  /** The dictionary `to_ynab` sends for one transaction. */
  function WireOf(accountId: string, t: Transaction): (d: WireDict)
    requires Valid(t.date)
  {
    map["date" := Text(FormatDate(t.date)), "memo" := Text(t.memo), "amount" := Number(10 * t.amount),
        "account_id" := Text(accountId), "payee_name" := Text(t.payee)]
  }

  /** The conversion of a batch: one dictionary per transaction, in order. */
  function WireBatch(accountId: string, ts: seq<Transaction>): (ds: seq<WireDict>)
    requires AllValid(ts)
    ensures |ds| == |ts|
    ensures forall i :: 0 <= i < |ts| ==> ds[i] == WireOf(accountId, ts[i])
  {
    if ts == [] then [] else [WireOf(accountId, ts[0])] + WireBatch(accountId, ts[1..])
  }

  /** `to_ynab`: builds each dictionary from `asdict` by adding the account,
      formatting the date, renaming the payee and scaling the amount. */
  method ToYnab(accountId: string, ts: seq<Transaction>) returns (ret: seq<WireDict>)
    requires AllValid(ts)
    ensures ret == WireBatch(accountId, ts)
  {
    ret := [];
    for i := 0 to |ts|
      invariant |ret| == i
      invariant forall k :: 0 <= k < i ==> ret[k] == WireOf(accountId, ts[k])
    {
      var t := ts[i];
      var dict := AsDict(t);
      dict := dict["account_id" := Text(accountId)];
      dict := dict["date" := Text(FormatDate(dict["date"].stamp))];
      var payee := dict["payee"];
      dict := dict - {"payee"};
      dict := dict["payee_name" := payee];
      dict := dict["amount" := Number(dict["amount"].number * 10)];
      assert dict == WireOf(accountId, t);
      ret := ret + [dict];
    }
  }

  /** Every wire dictionary has exactly these five keys; in particular the
      canonical `payee` key is gone, renamed to `payee_name`. */
  lemma WireKeys(accountId: string, t: Transaction)
    requires Valid(t.date)
    ensures WireOf(accountId, t).Keys == {"account_id", "date", "memo", "amount", "payee_name"}
    ensures "payee" !in WireOf(accountId, t)
  {
  }

  /** The fields as sent: the given account, the payee under its new name, the
      memo unchanged, the amount in milliunits, and the date as `YYYY-MM-DD`. */
  lemma WireFields(accountId: string, t: Transaction)
    requires Valid(t.date)
    ensures var d := WireOf(accountId, t);
            && d["account_id"] == Text(accountId)
            && d["payee_name"] == Text(t.payee)
            && d["memo"] == Text(t.memo)
            && d["amount"].Number? && d["amount"].number == 10 * t.amount
            && d["date"].Text? && ParseDate(d["date"].text) == Some(Midnight(t.date))
  {
    ParseFormatDate(t.date);
  }

  /** The time of day is dropped: transactions that differ only in their time
      on one calendar day produce identical dictionaries. */
  lemma WireDropsTime(accountId: string, a: Transaction, b: Transaction)
    requires Valid(a.date) && Valid(b.date)
    requires (a.date.year, a.date.month, a.date.day) == (b.date.year, b.date.month, b.date.day)
    requires a.payee == b.payee && a.memo == b.memo && a.amount == b.amount
    ensures WireOf(accountId, a) == WireOf(accountId, b)
  {
  }

  /** Uploading a transaction and reading it back from YNAB gives the same
      transaction at midnight of its day: the amount survives ×10 then ÷10. */
  lemma EgressThenIngest(accountId: string, t: Transaction)
    requires Valid(t.date)
    ensures var d := WireOf(accountId, t);
            var rec := YnabRecord(d["date"].text, d["amount"].number, d["memo"].text, d["payee_name"].text);
            YnabTransaction(rec) == Ok(t.(date := Midnight(t.date)))
  {
    ParseFormatDate(t.date);
  }
}
