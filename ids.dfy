/** The id newtypes of the store (db/src/ids.rs): `ServerId`, `ChannelId`,
    `UserId` and `ItemId` each wrap a `u64`, and one macro gives all four the
    same conversions, so one datatype stands for each of them here. */
module Ids {
  import opened Wrappers
  import opened Decimal
  import opened DbErrors

  datatype Id = Id(value: U64)

  type ServerId = Id
  type ChannelId = Id
  type UserId = Id
  type ItemId = Id

  const I64_LIMIT: int := 0x8000_0000_0000_0000

  /** `From<u64>`. */
  function FromU64(n: U64): (id: Id)
    ensures AsU64(id) == n
  {
    Id(n)
  }

  /** `as_u64`, and `From<Id> for u64`, whose `as u64` cast is the identity. */
  function AsU64(id: Id): U64 {
    id.value
  }

  /** `PartialEq<u64>`. */
  predicate EqU64(id: Id, u: U64) {
    id.value == u
  }

  /** Comparing with a number tells the id apart from every other id. */
  lemma EqU64Exact(id: Id, u: U64)
    ensures EqU64(id, u) <==> id == FromU64(u)
  {
  }

  /** `From<Id> for i64`, an `as i64` cast: values from 2^63 on wrap round
      to negative numbers. */
  function IntoI64(id: Id): (r: int)
    ensures -I64_LIMIT <= r < I64_LIMIT
    ensures r % U64_LIMIT == id.value
  {
    if id.value < I64_LIMIT then id.value else id.value - U64_LIMIT
  }

  /** The cast loses nothing: two ids with the same `i64` are the same id. */
  lemma IntoI64Injective(a: Id, b: Id)
    ensures IntoI64(a) == IntoI64(b) <==> a == b
  {
    if IntoI64(a) == IntoI64(b) {
      assert a.value == IntoI64(a) % U64_LIMIT == IntoI64(b) % U64_LIMIT == b.value;
    }
  }

  /** `Display`: the decimal value. */
  function Display(id: Id): (s: string)
    ensures s != []
  {
    Show(id.value)
  }

  /** `str::parse::<u64>` with its error turned into the store's `IdParse`. */
  function ParseId(s: string): (r: Result<U64, DbError>)
    ensures r.Success? <==> ParseU64(s).Success?
    ensures r.Success? ==> r.value == ParseU64(s).value
    ensures r.Failure? ==> r.error == IdParse(ParseU64(s).error)
  {
    match ParseU64(s)
    case Success(v) => Success(v)
    case Failure(e) => Failure(IdParse(e))
  }

  /** `FromStr`. */
  function FromStr(s: string): (r: Result<Id, DbError>)
    ensures r.Success? <==> ParseId(s).Success?
    ensures r.Success? ==> r.value.value == ParseId(s).value
    ensures r.Failure? ==> r.error == ParseId(s).error
  {
    match ParseId(s)
    case Success(v) => Success(Id(v))
    case Failure(e) => Failure(e)
  }

  /** Reading back what `Display` wrote gives the same id. */
  lemma FromStrDisplay(id: Id)
    ensures FromStr(Display(id)) == Success(id)
  {
    ParseShow(id.value);
  }

  /** Text that is not a run of digits, or a number beyond `u64::MAX`, is
      rejected with `IdParse`. */
  lemma FromStrRejects(s: string)
    requires s != []
    requires !AllDigits(if s[0] == '+' then s[1..] else s) || (AllDigits(s) && DigitsValue(s) >= U64_LIMIT)
    ensures FromStr(s).Failure? && FromStr(s).error.IdParse?
  {
    if AllDigits(s) && DigitsValue(s) >= U64_LIMIT {
      RejectsOutOfRange(s);
    } else {
      RejectsNonNumeric(s);
    }
  }
}
