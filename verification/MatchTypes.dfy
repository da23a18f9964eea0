/** The data that the matchers exchange. */
module MatchTypes {
  import opened Lists

  datatype UsageEvent = UsageEvent(user: string, feature: string, sku: string, at: int)

  datatype Subscription = Subscription(
    id: string, customer: string, priceIds: seq<string>, productIds: seq<string>,
    createdAt: int, status: string)

  datatype Invoice = Invoice(
    id: string, customer: string, subscription: string, total: int, currency: string,
    status: string, createdAt: int, paid: bool)

  datatype EdgeMeta = EdgeMeta(schema: string, idMode: string)

  datatype LinkEdge = LinkEdge(
    meta: EdgeMeta, from: string, to: string, kind: string, confidence: real,
    proof: string, recipe: string, at: int, notes: string)

  const NO_META := EdgeMeta("", "")

  const USER_SUBSCRIPTION := "user->subscription"
  const USER_INVOICE := "user->invoice"
  const USER_PRICE := "user->price"
  const USER_PRODUCT := "user->product"

  /** The keyed hash (HMAC-SHA256 in hexadecimal) and the rendering of a score with two
      decimals; nothing is assumed about either. */
  datatype Primitives = Primitives(hmac: (string, string) -> string, score: real -> string)

  datatype Result<+T> = Success(value: T) | Failure(error: string)

  const EMPTY_SALT := "crypto: tenant salt must not be empty"

  /** A matcher's result when its edges are `edges`: generating the first proof fails when
      there is no salt. */
  function Emit(salt: string, edges: seq<LinkEdge>): Result<seq<LinkEdge>> {
    if salt == "" && edges != [] then Failure(EMPTY_SALT) else Success(edges)
  }

  function Abs(x: int): nat {
    if x < 0 then -x else x
  }

  /** Decimal rendering of a non-negative integer. */
  function Itoa(n: nat): string {
    (if n < 10 then "" else Itoa(n / 10)) + ['0' + (n % 10) as char]
  }
}
