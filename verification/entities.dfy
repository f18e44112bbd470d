/**
 * The records the REST API returns, as the pages read them. Money is in
 * integer cents; an absent or falsy string field is the empty string.
 */
module Entities {
  import opened Wrappers
  import opened Calendar

  datatype User = User(fullname: string, balance: int, phone: string, email: string)

  datatype Withdrawal = Withdrawal(id: string, amount: int, status: string, createdAt: DateTime)

  datatype Transaction = Transaction(id: string, amount: int, kind: string, createdAt: DateTime)

  /** One point of `/users/me/chart-data`; `transactionType` is empty when missing. */
  datatype ChartItem = ChartItem(date: DateTime, profit: int, transactionType: string)

  /** The `/users/me/profits` totals; None where the field is null or missing. */
  datatype ProfitTotals = ProfitTotals(bonusTotal: Option<int>, casinoTotal: Option<int>)

  /** A response body of the shape `{ data: [...] }`; None where `data` is missing. */
  datatype Page<T> = Page(data: Option<seq<T>>)

  /** A parsed JSON response body: `null`, or an object whose `data` field may be missing. */
  datatype Body<T> = NullBody | Object(data: Option<T>)
}
