/** GetAllAsync's query: the SELECT of BuildSqlGetAll, and with a page size the
    `top`/`skip` parameters and, on DB2 connections, the LIMIT/OFFSET suffix. */
module Pagination {
  import opened Results
  import opened Strings
  import opened Parameters
  import opened ExpressionBuilder
  import opened Statements

  const MinInt32: int := -0x8000_0000
  const MaxInt32: int := 0x7FFF_FFFF
  const Modulus32: int := 0x1_0000_0000

  /** C#'s `int`. */
  type Int32 = i: int | MinInt32 <= i <= MaxInt32

  /** The `int` an unchecked C# computation of `x` yields: `x` modulo 2^32, in range. */
  function Wrap32(x: int): (r: Int32)
    ensures (x - r) % Modulus32 == 0
    ensures MinInt32 <= x <= MaxInt32 ==> r == x
  {
    var m := x % Modulus32;
    if m > MaxInt32 then m - Modulus32 else m
  }

  /** The row offset of a page: `((page ?? 1) - 1) * pageSize`, unchecked.
      Pages count from 1 and no page means the first. */
  function Skip(pageSize: Int32, page: Option<Int32>): (r: Int32)
    ensures page.None? ==> r == 0
    ensures page.Some? && MinInt32 <= (page.value - 1) * pageSize <= MaxInt32 && page.value > MinInt32
            ==> r == (page.value - 1) * pageSize
  {
    Wrap32(Wrap32(page.GetOr(1) - 1) * pageSize)
  }

  /** Without overflow, consecutive pages are consecutive windows of
      `pageSize` rows. */
  lemma {:induction false} NextPageFollows(pageSize: Int32, page: Int32)
    requires 1 <= page < MaxInt32 && 0 <= pageSize
    requires page * pageSize <= MaxInt32
    ensures Skip(pageSize, Some(page + 1)) == Skip(pageSize, Some(page)) + pageSize
  {
    assert page * pageSize == (page - 1) * pageSize + pageSize;
    assert 0 <= (page - 1) * pageSize;
  }

  /** Without overflow, a later page starts strictly further on, so distinct
      pages never share an offset. */
  lemma {:induction false} LaterPageSkipsMore(pageSize: Int32, p1: Int32, p2: Int32)
    requires 0 < pageSize && 1 <= p1 < p2
    requires (p2 - 1) * pageSize <= MaxInt32
    ensures Skip(pageSize, Some(p1)) + pageSize <= Skip(pageSize, Some(p2))
  {
    var gap := p2 - p1 - 1;
    assert (p2 - 1) * pageSize == (p1 - 1) * pageSize + pageSize + gap * pageSize;
    assert 0 <= gap * pageSize;
    assert 0 <= (p1 - 1) * pageSize;
  }

  /** GetPaginationParameters: `top` is the page size, `skip` the page's offset. */
  function PaginationParameters(pageSize: Int32, page: Option<Int32>): (r: seq<Param>)
    ensures Names(r) == ["top", "skip"]
    ensures r[0].value == Int(pageSize) && r[1].value == Int(Skip(pageSize, page))
  {
    [Param("top", Int(pageSize)), Param("skip", Int(Skip(pageSize, page)))]
  }

  const PaginationClause := " LIMIT @top OFFSET @skip"

  /** AppendSqlWithPagination: the statement gains the LIMIT/OFFSET clause
      exactly when the connection's type name contains "DB2", and is otherwise
      left as it is. */
  function AppendSqlWithPagination(connectionTypeName: string, sql: string): (r: string)
    ensures r == sql || r == sql + PaginationClause
    ensures r != sql <==> exists i :: OccursAt(connectionTypeName, "DB2", i)
  {
    if ContainsText(connectionTypeName, "DB2") then sql + PaginationClause else sql
  }

  /** The prefixes a parameter name may carry in SQL text. */
  predicate ParameterPrefix(c: char) {
    c == '@' || c == ':' || c == '?'
  }

  /** Dapper's name cleaning: one leading '@', ':' or '?' is not part of the
      name. */
  function CleanName(name: string): (r: string)
    ensures |name| > 0 && ParameterPrefix(name[0]) ==> r == name[1..]
    ensures !(|name| > 0 && ParameterPrefix(name[0])) ==> r == name
    ensures |name| - 1 <= |r| <= |name| && name[|name| - |r|..] == r
  {
    if |name| > 0 && ParameterPrefix(name[0]) then name[1..] else name
  }

  /** A parameter named by the expression builder never collides with the
      pagination parameters, even once cleaned. */
  lemma IndexedNameIsNotPagination(name: string, k: nat)
    requires HasIndex(name, k)
    ensures CleanName(name) != "top" && CleanName(name) != "skip"
  {
    HasIndexEndsInDigit(name, k);
    var c := CleanName(name);
    assert c[|c| - 1] == name[|name| - 1];
  }

  /** The pagination parameters join a bag of builder-named parameters
      without a clash, raw or cleaned. */
  lemma PaginationDoesNotClash(ps: seq<Param>)
    requires DistinctNames(ps)
    requires forall j :: 0 <= j < |ps| ==> HasIndex(ps[j].name, j)
    ensures forall pageSize: Int32, page: Option<Int32> :: DistinctNames(ps + PaginationParameters(pageSize, page))
    ensures forall i :: 0 <= i < |ps| ==> CleanName(ps[i].name) != "top" && CleanName(ps[i].name) != "skip"
  {
    forall i | 0 <= i < |ps|
      ensures CleanName(ps[i].name) != "top" && CleanName(ps[i].name) != "skip"
      ensures ps[i].name != "top" && ps[i].name != "skip"
    {
      IndexedNameIsNotPagination(ps[i].name, i);
      HasIndexEndsInDigit(ps[i].name, i);
    }
  }

  /** GetAllAsync up to the query: with `contractsFull` (a build defining
      CONTRACTS_FULL, the only one in which Contract.Requires is compiled) a
      negative page size is refused first; then the SELECT is built and, when
      a page size is given, the pagination parameters are added (to an empty
      bag when there is no filter) and the statement gets its DB2 suffix. */
  function GetAllQuery(e: Entity, a: Adapter, column: string -> string, filter: Option<Expr>,
                       connectionTypeName: string, page: Option<Int32>, pageSize: Option<Int32>,
                       contractsFull: bool)
    : (r: Result<(string, Option<seq<Param>>)>)
    ensures r.Err? && r.error == NegativePageSize <==> contractsFull && pageSize.Some? && pageSize.value < 0
    ensures r.Ok? <==> !(contractsFull && pageSize.Some? && pageSize.value < 0) && BuildSqlGetAll(e, a, column, filter).Ok?
    ensures r.Ok? && pageSize.None? ==> r.value == BuildSqlGetAll(e, a, column, filter).value
    ensures r.Ok? && pageSize.Some? ==>
      var (sql, ps) := BuildSqlGetAll(e, a, column, filter).value;
      && r.value.0 == AppendSqlWithPagination(connectionTypeName, sql)
      && r.value.1 == Some(ps.GetOr([]) + PaginationParameters(pageSize.value, page))
    ensures r.Ok? && r.value.1.Some? ==> DistinctNames(r.value.1.value)
    ensures r.Ok? && pageSize.Some? ==>
      && r.value.1.Some?
      && forall i :: 0 <= i < |r.value.1.value| - 2 ==> CleanName(r.value.1.value[i].name) != "top" && CleanName(r.value.1.value[i].name) != "skip"
  {
    if contractsFull && pageSize.Some? && pageSize.value < 0 then Err(NegativePageSize)
    else
      var q :- BuildSqlGetAll(e, a, column, filter);
      var (sql, ps) := q;
      if pageSize.Some? then
        var filterParams := ps.GetOr([]);
        assert forall j :: 0 <= j < |filterParams| ==> HasIndex(filterParams[j].name, j);
        PaginationDoesNotClash(filterParams);
        Ok((AppendSqlWithPagination(connectionTypeName, sql), Some(ps.GetOr([]) + PaginationParameters(pageSize.value, page))))
      else Ok((sql, ps))
  }
}
